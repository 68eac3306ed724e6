/** The per-IP limiter: three hourly windows in storage that an alarm clears. The question is
    whether clearing can be seen: whether the limiter ever answers differently from one that keeps
    its windows forever.
 */
module IpLimiters {
  import opened Values
  import opened FixedWindow

  datatype Bucket = Create | Request | Pull

  const IP_WINDOW_MS: nat := 60 * 60 * 1000

  function Limit(b: Bucket): nat {
    match b case Create => 20 case Request => 1200 case Pull => 12000
  }

  /** Stored windows; records written by an older relay can lack a bucket. */
  type Windows = map<Bucket, Window>

  datatype Charged = Charged(bucket: Bucket, cost: nat)

  function WindowOf(ws: Windows, b: Bucket): Window {
    if b in ws then ws[b] else Window(0, 0)
  }

  // --- A limiter that never clears ---

  function ChargeAll(ws: Windows, charges: seq<Charged>, now: int): Windows {
    if charges == [] then ws else
      var c, before := charges[|charges| - 1], ChargeAll(ws, charges[..|charges| - 1], now);
      before[c.bucket := Charge(WindowOf(before, c.bucket), now, c.cost, IP_WINDOW_MS)]
  }

  /** Every charge, at its turn, stays within the limit of its bucket. */
  predicate Allows(ws: Windows, charges: seq<Charged>, now: int) {
    charges == [] ||
    var b := charges[|charges| - 1].bucket;
    Allows(ws, charges[..|charges| - 1], now) && WindowOf(ChargeAll(ws, charges, now), b).count <= Limit(b)
  }

  predicate Over(w: Window, now: int) {
    now - w.start >= IP_WINDOW_MS
  }

  /** Some charge, at its turn, finds its window over. */
  predicate OpensWindow(ws: Windows, charges: seq<Charged>, now: int) {
    charges != [] &&
    var most := charges[..|charges| - 1];
    OpensWindow(ws, most, now) || Over(WindowOf(ChargeAll(ws, most, now), charges[|charges| - 1].bucket), now)
  }

  /** The three buckets are always written back. */
  function Filled(ws: Windows): Windows {
    map[Create := WindowOf(ws, Create), Request := WindowOf(ws, Request), Pull := WindowOf(ws, Pull)]
  }

  // --- The limiter with its alarm ---

  datatype State = State(windows: Windows, alarm: Option<int>)

  function Charge1(s: State, charges: seq<Charged>, now: int): State {
    var ws := Filled(s.windows);
    State(ChargeAll(ws, charges, now), if OpensWindow(ws, charges, now) then Some(now + IP_WINDOW_MS) else s.alarm)
  }

  class IpLimiter {
    var windows: Windows
    var alarm: Option<int>

    function View(): State
      reads this
    {
      State(windows, alarm)
    }

    constructor ()
      ensures View() == State(map[], None)
    {
      windows, alarm := map[], None;
    }

    method AllowMany(charges: seq<Charged>, now: int) returns (allowed: bool)
      modifies this
      ensures View() == Charge1(old(View()), charges, now)
      ensures allowed <==> Allows(Filled(old(windows)), charges, now)
    {
      var ws := Filled(windows);
      ghost var ws0 := ws;
      var started := false;
      allowed := true;
      for i := 0 to |charges|
        invariant ws == ChargeAll(ws0, charges[..i], now) && ws.Keys == {Create, Request, Pull}
        invariant started <==> OpensWindow(ws0, charges[..i], now)
        invariant allowed <==> Allows(ws0, charges[..i], now)
      {
        assert charges[..i + 1][..i] == charges[..i];
        var Charged(bucket, cost) := charges[i];
        assert bucket.Create? || bucket.Request? || bucket.Pull?;
        var w := ws[bucket];
        if now - w.start >= IP_WINDOW_MS {
          w := Window(now, 0);
          started := true;
        }
        w := Window(w.start, w.count + cost);
        ws := ws[bucket := w];
        if w.count > Limit(bucket) {
          allowed := false;
        }
      }
      assert charges[..|charges|] == charges;
      windows := ws;
      if started {
        alarm := Some(now + IP_WINDOW_MS);
      }
    }

    method OnAlarm()
      modifies this
      ensures View() == State(map[], None)
    {
      windows, alarm := map[], None;
    }
  }

  lemma FilledIsSame(ws: Windows)
    ensures forall b: Bucket :: WindowOf(Filled(ws), b) == WindowOf(ws, b)
  {
    forall b: Bucket ensures WindowOf(Filled(ws), b) == WindowOf(ws, b) {
      match b case Create => case Request => case Pull =>
    }
  }

  // --- Runs ---

  datatype Event = Allow(now: int, charges: seq<Charged>) | Fire(now: int)

  /** Times do not go back and are at least one window; the alarm fires only when set and no
      earlier than scheduled. */
  ghost predicate Timely(s: State, events: seq<Event>, since: int)
    decreases |events|
  {
    events != [] ==>
      var e := events[0];
      && since <= e.now && IP_WINDOW_MS <= e.now
      && (e.Fire? ==> s.alarm.Some? && s.alarm.value <= e.now)
      && Timely(After(s, e), events[1..], e.now)
  }

  function After(s: State, e: Event): State {
    if e.Fire? then State(map[], None) else Charge1(s, e.charges, e.now)
  }

  function Answers(s: State, events: seq<Event>): seq<bool>
    decreases |events|
  {
    if events == [] then [] else
      (if events[0].Allow? then [Allows(Filled(s.windows), events[0].charges, events[0].now)] else [])
      + Answers(After(s, events[0]), events[1..])
  }

  /** The answers of a limiter that keeps its windows forever. */
  function IdealAnswers(ws: Windows, events: seq<Event>): seq<bool>
    decreases |events|
  {
    if events == [] then []
    else if events[0].Fire? then IdealAnswers(ws, events[1..])
    else [Allows(ws, events[0].charges, events[0].now)]
         + IdealAnswers(ChargeAll(ws, events[0].charges, events[0].now), events[1..])
  }

  /** From `now` on the two sets of windows cannot be told apart: equal, or both over. */
  ghost predicate Agree(kept: Windows, ideal: Windows, now: int) {
    forall b: Bucket :: WindowOf(kept, b) == WindowOf(ideal, b)
                        || (Over(WindowOf(kept, b), now) && Over(WindowOf(ideal, b), now))
  }

  lemma {:induction false} AgreeAfter(kept: Windows, ideal: Windows, charges: seq<Charged>, now: int)
    requires Agree(kept, ideal, now)
    ensures Agree(ChargeAll(kept, charges, now), ChargeAll(ideal, charges, now), now)
    ensures charges != [] ==>
              var b := charges[|charges| - 1].bucket;
              WindowOf(ChargeAll(kept, charges, now), b) == WindowOf(ChargeAll(ideal, charges, now), b)
  {
    if charges != [] {
      var most, c := charges[..|charges| - 1], charges[|charges| - 1];
      AgreeAfter(kept, ideal, most, now);
      var k, i := ChargeAll(kept, most, now), ChargeAll(ideal, most, now);
      assert WindowOf(k, c.bucket) == WindowOf(i, c.bucket)
             || (Over(WindowOf(k, c.bucket), now) && Over(WindowOf(i, c.bucket), now));
      forall b: Bucket | b != c.bucket
        ensures WindowOf(ChargeAll(kept, charges, now), b) == WindowOf(k, b)
        ensures WindowOf(ChargeAll(ideal, charges, now), b) == WindowOf(i, b)
      {
      }
    }
  }

  lemma {:induction false} SameAnswer(kept: Windows, ideal: Windows, charges: seq<Charged>, now: int)
    requires Agree(kept, ideal, now)
    ensures Allows(kept, charges, now) <==> Allows(ideal, charges, now)
  {
    if charges != [] {
      SameAnswer(kept, ideal, charges[..|charges| - 1], now);
      AgreeAfter(kept, ideal, charges, now);
    }
  }

  /** A set alarm is an hour after the latest window start; without one, no window was opened. */
  ghost predicate AlarmInv(s: State) {
    && (s.alarm.None? ==> forall b: Bucket :: WindowOf(s.windows, b).start == 0)
    && (s.alarm.Some? ==>
          && (forall b: Bucket :: WindowOf(s.windows, b).start + IP_WINDOW_MS <= s.alarm.value)
          && exists b: Bucket :: WindowOf(s.windows, b).start + IP_WINDOW_MS == s.alarm.value)
  }

  lemma {:induction false} StartsAfter(ws: Windows, charges: seq<Charged>, now: int)
    requires forall b: Bucket :: WindowOf(ws, b).start <= now
    ensures forall b: Bucket :: var w := WindowOf(ChargeAll(ws, charges, now), b);
              w.start == WindowOf(ws, b).start || (w.start == now && OpensWindow(ws, charges, now))
    ensures OpensWindow(ws, charges, now) ==> exists b: Bucket :: WindowOf(ChargeAll(ws, charges, now), b).start == now
  {
    if charges != [] {
      var most, c := charges[..|charges| - 1], charges[|charges| - 1];
      StartsAfter(ws, most, now);
      var before, all := ChargeAll(ws, most, now), ChargeAll(ws, charges, now);
      forall b: Bucket | b != c.bucket ensures WindowOf(all, b) == WindowOf(before, b) {
      }
      if Over(WindowOf(before, c.bucket), now) {
        assert WindowOf(all, c.bucket).start == now;
      } else {
        assert WindowOf(all, c.bucket).start == WindowOf(before, c.bucket).start;
        if OpensWindow(ws, most, now) {
          var b :| WindowOf(before, b).start == now;
          assert WindowOf(all, b).start == now;
        }
      }
    }
  }

  lemma AlarmInvAfter(s: State, e: Event)
    requires AlarmInv(s) && 0 <= e.now && forall b: Bucket :: WindowOf(s.windows, b).start <= e.now
    ensures AlarmInv(After(s, e)) && forall b: Bucket :: WindowOf(After(s, e).windows, b).start <= e.now
  {
    if e.Allow? {
      var ws := Filled(s.windows);
      FilledIsSame(s.windows);
      StartsAfter(ws, e.charges, e.now);
      var s' := After(s, e);
      if OpensWindow(ws, e.charges, e.now) {
        var b :| WindowOf(s'.windows, b).start == e.now;
        assert WindowOf(s'.windows, b).start + IP_WINDOW_MS == s'.alarm.value;
      } else if s.alarm.Some? {
        var b :| WindowOf(s.windows, b).start + IP_WINDOW_MS == s.alarm.value;
        assert WindowOf(s'.windows, b).start + IP_WINDOW_MS == s'.alarm.value;
      }
    }
  }

  /** At every firing in the run, every window is over. */
  ghost predicate ErasesNothingLive(s: State, events: seq<Event>)
    decreases |events|
  {
    events != [] ==>
      && (events[0].Fire? ==> forall b: Bucket :: Over(WindowOf(s.windows, b), events[0].now))
      && ErasesNothingLive(After(s, events[0]), events[1..])
  }

  /** The alarm never erases a window that is still running. */
  lemma {:induction false} AlarmErasesNothingLive(s: State, events: seq<Event>, now: int)
    requires AlarmInv(s) && 0 <= now && (forall b: Bucket :: WindowOf(s.windows, b).start <= now)
    requires Timely(s, events, now)
    ensures ErasesNothingLive(s, events)
    decreases |events|
  {
    if events != [] {
      AlarmInvAfter(s, events[0]);
      AlarmErasesNothingLive(After(s, events[0]), events[1..], events[0].now);
    }
  }

  /** The self-clearing is invisible. Whatever was charged before, if the alarm never fires early
      and times neither go back nor lie within the first hour of the epoch, every answer is that
      of a limiter that never clears. */
  lemma {:induction false} ClearingIsInvisible(s: State, ideal: Windows, events: seq<Event>, now: int)
    requires AlarmInv(s) && 0 <= now && (forall b: Bucket :: WindowOf(s.windows, b).start <= now)
    requires Timely(s, events, now)
    requires events != [] ==> Agree(s.windows, ideal, events[0].now)
    ensures Answers(s, events) == IdealAnswers(ideal, events)
    decreases |events|
  {
    if events != [] {
      var e, s' := events[0], After(s, events[0]);
      AlarmInvAfter(s, e);
      if e.Allow? {
        var ws := Filled(s.windows);
        FilledIsSame(s.windows);
        assert Agree(ws, ideal, e.now);
        SameAnswer(ws, ideal, e.charges, e.now);
        AgreeAfter(ws, ideal, e.charges, e.now);
        ClearingIsInvisible(s', ChargeAll(ideal, e.charges, e.now), events[1..], e.now);
      } else {
        assert Agree(s'.windows, ideal, e.now);
        ClearingIsInvisible(s', ideal, events[1..], e.now);
      }
    }
  }

  // --- The bound per bucket ---

  predicate Names(charges: seq<Charged>, b: Bucket) {
    charges != [] && (Names(charges[..|charges| - 1], b) || charges[|charges| - 1].bucket == b)
  }

  /** What one call charges to a bucket in all. */
  function CostOf(charges: seq<Charged>, b: Bucket): nat {
    if charges == [] then 0 else
      var c := charges[|charges| - 1];
      CostOf(charges[..|charges| - 1], b) + (if c.bucket == b then c.cost else 0)
  }

  /** The cost admitted in bucket b in the half-open hour that starts at `from`. */
  function AdmittedCost(events: seq<Event>, answers: seq<bool>, b: Bucket, from: int): nat
    decreases |events|
  {
    if events == [] || answers == [] then 0
    else if events[0].Fire? then AdmittedCost(events[1..], answers, b, from)
    else (if answers[0] && from <= events[0].now < from + 3_600_000 then CostOf(events[0].charges, b) else 0)
         + AdmittedCost(events[1..], answers[1..], b, from)
  }

  /** Charges of one call to one bucket act on its window as a single charge. */
  lemma {:induction false} BucketWindow(ws: Windows, charges: seq<Charged>, now: int, b: Bucket)
    ensures WindowOf(ChargeAll(ws, charges, now), b) ==
            if Names(charges, b) then Charge(WindowOf(ws, b), now, CostOf(charges, b), IP_WINDOW_MS) else WindowOf(ws, b)
    ensures !Names(charges, b) ==> CostOf(charges, b) == 0
    ensures Names(charges, b) && Allows(ws, charges, now) ==>
              WindowOf(ChargeAll(ws, charges, now), b).count <= Limit(b)
  {
    if charges != [] {
      BucketWindow(ws, charges[..|charges| - 1], now, b);
    }
  }

  lemma ChargeGrows(w: Window, now: int, cost: nat, more: nat)
    ensures Charge(w, now, cost, IP_WINDOW_MS).count <= Charge(w, now, cost + more, IP_WINDOW_MS).count
  {
  }

  /** What a call of this much leaves in the bucket's window. */
  function CountAfter(ws: Windows, charges: seq<Charged>, now: int, b: Bucket): nat {
    Charge(WindowOf(ws, b), now, CostOf(charges, b), IP_WINDOW_MS).count
  }

  /** A call is allowed exactly if, for every bucket it names, all it charges there fits the limit. The
      order of the charges does not matter. */
  lemma {:induction false} AllowsIff(ws: Windows, charges: seq<Charged>, now: int)
    ensures Allows(ws, charges, now) <==>
            forall b: Bucket :: Names(charges, b) ==>
              CountAfter(ws, charges, now, b) <= match b case Create => 20 case Request => 1200 case Pull => 12000
  {
    if charges != [] {
      var most, c := charges[..|charges| - 1], charges[|charges| - 1];
      AllowsIff(ws, most, now);
      BucketWindow(ws, charges, now, c.bucket);
      ChargeGrows(WindowOf(ws, c.bucket), now, CostOf(most, c.bucket), c.cost);
      assert forall b: Bucket :: b != c.bucket ==>
        CountAfter(ws, charges, now, b) == CountAfter(ws, most, now, b) && (Names(charges, b) <==> Names(most, b));
    }
  }

  /** The calls one bucket sees. */
  function BucketCalls(ws: Windows, events: seq<Event>, b: Bucket): seq<Call>
    decreases |events|
  {
    if events == [] then []
    else if events[0].Fire? then BucketCalls(ws, events[1..], b)
    else
      var e, rest := events[0], BucketCalls(ChargeAll(ws, events[0].charges, events[0].now), events[1..], b);
      if Names(e.charges, b) then [Call(e.now, CostOf(e.charges, b), !Allows(ws, e.charges, e.now))] + rest else rest
  }

  lemma {:induction false} AdmittedByBucket(ws: Windows, events: seq<Event>, b: Bucket, from: int)
    ensures AdmittedCost(events, IdealAnswers(ws, events), b, from)
         <= Admitted(WindowOf(ws, b), BucketCalls(ws, events, b), IP_WINDOW_MS, Limit(b), from)
    decreases |events|
  {
    if events != [] {
      var e := events[0];
      if e.Fire? {
        AdmittedByBucket(ws, events[1..], b, from);
      } else {
        var ws' := ChargeAll(ws, e.charges, e.now);
        AdmittedByBucket(ws', events[1..], b, from);
        BucketWindow(ws, e.charges, e.now, b);
        assert IdealAnswers(ws, events)[1..] == IdealAnswers(ws', events[1..]);
        if Names(e.charges, b) {
          assert BucketCalls(ws, events, b)[1..] == BucketCalls(ws', events[1..], b);
        }
      }
    }
  }

  lemma {:induction false} BucketCallsOrdered(s: State, ws: Windows, events: seq<Event>, b: Bucket, since: int)
    requires Timely(s, events, since)
    ensures Ordered(BucketCalls(ws, events, b))
    ensures forall c :: c in BucketCalls(ws, events, b) ==> since <= c.now && IP_WINDOW_MS <= c.now
    decreases |events|
  {
    if events != [] {
      var e := events[0];
      BucketCallsOrdered(After(s, e), if e.Fire? then ws else ChargeAll(ws, e.charges, e.now), events[1..], b, e.now);
    }
  }

  /** A bucket admits at most twice its limit in any half-open hour, clearing included. */
  lemma AtMostTwicePerHour(s: State, events: seq<Event>, now: int, b: Bucket, from: int)
    requires AlarmInv(s) && 0 <= now && (forall b: Bucket :: WindowOf(s.windows, b).start <= now)
    requires Timely(s, events, now)
    ensures AdmittedCost(events, Answers(s, events), b, from) <= 2 * Limit(b)
  {
    ClearingIsInvisible(s, s.windows, events, now);
    AdmittedByBucket(s.windows, events, b, from);
    BucketCallsOrdered(s, s.windows, events, b, now);
    AtMostTwiceTheLimit(WindowOf(s.windows, b), BucketCalls(s.windows, events, b), IP_WINDOW_MS, Limit(b), from);
  }

  /** A window that can occur: charged, or one that was only filled in. */
  predicate Occurs(w: Window) {
    w.count > 0 || w.start <= 0
  }

  predicate CostsSomething(e: Event) {
    e.Allow? ==> forall c :: c in e.charges ==> c.cost > 0
  }

  lemma {:induction false} CostOfNamed(charges: seq<Charged>, b: Bucket)
    requires Names(charges, b) && forall c :: c in charges ==> c.cost > 0
    ensures CostOf(charges, b) > 0
  {
    if Names(charges[..|charges| - 1], b) {
      CostOfNamed(charges[..|charges| - 1], b);
    } else {
      assert charges[|charges| - 1] in charges;
    }
  }

  /** Every step leaves windows that can occur. */
  lemma OccursAfter(s: State, e: Event, b: Bucket)
    requires Occurs(WindowOf(s.windows, b)) && CostsSomething(e)
    ensures Occurs(WindowOf(After(s, e).windows, b))
  {
    if e.Allow? {
      FilledIsSame(s.windows);
      BucketWindow(Filled(s.windows), e.charges, e.now, b);
      if Names(e.charges, b) {
        CostOfNamed(e.charges, b);
      }
    }
  }

  lemma {:induction false} BucketCallsCost(ws: Windows, events: seq<Event>, b: Bucket)
    requires forall e :: e in events ==> CostsSomething(e)
    ensures forall c :: c in BucketCalls(ws, events, b) ==> c.cost > 0
    decreases |events|
  {
    if events != [] {
      var e := events[0];
      assert CostsSomething(e);
      BucketCallsCost(if e.Fire? then ws else ChargeAll(ws, e.charges, e.now), events[1..], b);
      if e.Allow? && Names(e.charges, b) {
        CostOfNamed(e.charges, b);
      }
    }
  }

  /** From windows that can occur and with calls that cost something, as the relay's all do, the
      bound is one less. */
  lemma BelowTwicePerHour(s: State, events: seq<Event>, now: int, b: Bucket, from: int)
    requires AlarmInv(s) && 0 <= now && (forall b: Bucket :: WindowOf(s.windows, b).start <= now)
    requires Timely(s, events, now) && Occurs(WindowOf(s.windows, b)) && forall e :: e in events ==> CostsSomething(e)
    ensures AdmittedCost(events, Answers(s, events), b, from) <= 2 * Limit(b) - 1
  {
    var calls := BucketCalls(s.windows, events, b);
    ClearingIsInvisible(s, s.windows, events, now);
    AdmittedByBucket(s.windows, events, b, from);
    BucketCallsOrdered(s, s.windows, events, b, now);
    BucketCallsCost(s.windows, events, b);
    assert calls == [] || calls[0] in calls;
    BelowTwiceTheLimit(WindowOf(s.windows, b), calls, IP_WINDOW_MS, Limit(b), from);
  }

  /** In numbers: at most 39 creations, 2399 requests and 23,999 pulled chains in any half-open hour. */
  lemma HourlyBounds(s: State, events: seq<Event>, now: int, b: Bucket, from: int)
    requires AlarmInv(s) && 0 <= now && (forall b: Bucket :: WindowOf(s.windows, b).start <= now)
    requires Timely(s, events, now) && Occurs(WindowOf(s.windows, b)) && forall e :: e in events ==> CostsSomething(e)
    ensures AdmittedCost(events, Answers(s, events), b, from) <=
            match b case Create => 39 case Request => 2399 case Pull => 23_999
  {
    BelowTwicePerHour(s, events, now, b, from);
  }

  // --- When the promised limit is kept ---

  /** Calls that charge one bucket only. */
  function EventsOf(calls: seq<Call>, b: Bucket): seq<Event>
    decreases |calls|
  {
    if calls == [] then [] else [Allow(calls[0].now, [Charged(b, calls[0].cost)])] + EventsOf(calls[1..], b)
  }

  lemma OneCharge(ws: Windows, b: Bucket, cost: nat, now: int)
    ensures var charges := [Charged(b, cost)];
            && WindowOf(ChargeAll(ws, charges, now), b) == Charge(WindowOf(ws, b), now, cost, IP_WINDOW_MS)
            && CostOf(charges, b) == cost
            && (Allows(ws, charges, now) <==> Charge(WindowOf(ws, b), now, cost, IP_WINDOW_MS).count <= Limit(b))
  {
    var charges := [Charged(b, cost)];
    assert charges[..0] == [];
  }

  lemma {:induction false} EventsAdmit(ws: Windows, calls: seq<Call>, b: Bucket, from: int)
    requires forall c :: c in calls ==> !c.refusedElsewhere
    ensures AdmittedCost(EventsOf(calls, b), IdealAnswers(ws, EventsOf(calls, b)), b, from) ==
            Admitted(WindowOf(ws, b), calls, IP_WINDOW_MS, Limit(b), from)
    decreases |calls|
  {
    if calls != [] {
      var c, events := calls[0], EventsOf(calls, b);
      var ws' := ChargeAll(ws, [Charged(b, c.cost)], c.now);
      OneCharge(ws, b, c.cost, c.now);
      EventsAdmit(ws', calls[1..], b, from);
      assert events[1..] == EventsOf(calls[1..], b);
      assert IdealAnswers(ws, events)[1..] == IdealAnswers(ws', events[1..]);
    }
  }

  lemma {:induction false} EventsTimely(s: State, calls: seq<Call>, b: Bucket, since: int)
    requires Ordered(calls) && IP_WINDOW_MS <= since && forall c :: c in calls ==> since <= c.now
    ensures Timely(s, EventsOf(calls, b), since)
    decreases |calls|
  {
    if calls != [] {
      var events := EventsOf(calls, b);
      assert calls[0] in calls && events[1..] == EventsOf(calls[1..], b);
      EventsTimely(After(s, events[0]), calls[1..], b, calls[0].now);
    }
  }

  /** When the promised hourly limit of a bucket is kept in the hour from `from` on, whatever comes:
      exactly if its window has only just started, is over, or has nothing left. */
  lemma PromisedHourIff(s: State, b: Bucket, from: int)
    requires AlarmInv(s) && IP_WINDOW_MS <= from && forall b: Bucket :: WindowOf(s.windows, b).start <= from
    ensures (forall events :: Timely(s, events, from) ==> AdmittedCost(events, Answers(s, events), b, from) <= Limit(b))
       <==> Settled(WindowOf(s.windows, b), IP_WINDOW_MS, Limit(b), from)
  {
    var w := WindowOf(s.windows, b);
    if Settled(w, IP_WINDOW_MS, Limit(b), from) {
      forall events | Timely(s, events, from)
        ensures AdmittedCost(events, Answers(s, events), b, from) <= Limit(b)
      {
        ClearingIsInvisible(s, s.windows, events, from);
        AdmittedByBucket(s.windows, events, b, from);
        BucketCallsOrdered(s, s.windows, events, b, from);
        SettledKeeps(w, BucketCalls(s.windows, events, b), IP_WINDOW_MS, Limit(b), from);
      }
    } else {
      var calls := TwoBursts(w, IP_WINDOW_MS, Limit(b), from);
      TwoBurstsOrdered(w, IP_WINDOW_MS, Limit(b), from);
      TwoBurstsAdmitted(w, IP_WINDOW_MS, Limit(b), from);
      EventsTimely(s, calls, b, from);
      ClearingIsInvisible(s, s.windows, EventsOf(calls, b), from);
      EventsAdmit(s.windows, calls, b, from);
    }
  }

  // --- The charges the worker makes ---

  const MAX_PULL_ITEMS: nat := 64

  /** Every request is charged as one; a PUT also as a creation, a batch also for each of its items. */
  predicate IsWorkerCharge(charges: seq<Charged>) {
    && 1 <= |charges| <= 2 && charges[0] == Charged(Request, 1)
    && (|charges| == 2 ==>
          || charges[1] == Charged(Create, 1)
          || (charges[1].bucket == Pull && 1 <= charges[1].cost <= MAX_PULL_ITEMS))
  }

  predicate IsWorkerEvent(e: Event) {
    e.Allow? ==> IsWorkerCharge(e.charges)
  }

  ghost predicate ByWorker(events: seq<Event>) {
    forall e :: e in events ==> IsWorkerEvent(e)
  }

  /** Calls that charge a bucket and, with it, one request. */
  function WorkerEvents(calls: seq<Call>, b: Bucket): seq<Event>
    decreases |calls|
  {
    if calls == [] then [] else
      [Allow(calls[0].now, [Charged(Request, 1), Charged(b, calls[0].cost)])] + WorkerEvents(calls[1..], b)
  }

  /** The request window lets all of these through. */
  predicate RequestsFit(w: Window, calls: seq<Call>)
    decreases |calls|
  {
    calls == [] ||
    var w' := Charge(w, calls[0].now, 1, IP_WINDOW_MS);
    w'.count <= Limit(Request) && RequestsFit(w', calls[1..])
  }

  /** All at one time, they fit if they do not outnumber what is left. */
  lemma {:induction false} RequestsFitIn(w: Window, calls: seq<Call>)
    requires w.count + |calls| <= Limit(Request)
    ensures RequestsFit(w, calls)
    decreases |calls|
  {
    if calls != [] {
      RequestsFitIn(Charge(w, calls[0].now, 1, IP_WINDOW_MS), calls[1..]);
    }
  }

  lemma RequestsFitInNew(w: Window, calls: seq<Call>)
    requires |calls| <= Limit(Request) && (calls != [] ==> Over(w, calls[0].now))
    ensures RequestsFit(w, calls)
  {
    if calls != [] {
      RequestsFitIn(Charge(w, calls[0].now, 1, IP_WINDOW_MS), calls[1..]);
    }
  }

  lemma TwoCharges(ws: Windows, b: Bucket, cost: nat, now: int)
    requires b != Request
    ensures var charges := [Charged(Request, 1), Charged(b, cost)];
            && WindowOf(ChargeAll(ws, charges, now), b) == Charge(WindowOf(ws, b), now, cost, IP_WINDOW_MS)
            && WindowOf(ChargeAll(ws, charges, now), Request) == Charge(WindowOf(ws, Request), now, 1, IP_WINDOW_MS)
            && CostOf(charges, b) == cost
            && (Allows(ws, charges, now) <==>
                  && Charge(WindowOf(ws, Request), now, 1, IP_WINDOW_MS).count <= Limit(Request)
                  && Charge(WindowOf(ws, b), now, cost, IP_WINDOW_MS).count <= Limit(b))
  {
    var one, charges := [Charged(Request, 1)], [Charged(Request, 1), Charged(b, cost)];
    OneCharge(ws, Request, 1, now);
    assert charges[..|charges| - 1] == one && one[..0] == [];
    var before := ChargeAll(ws, one, now);
    assert WindowOf(before, b) == WindowOf(ws, b);
    assert ChargeAll(ws, charges, now) == before[b := Charge(WindowOf(before, b), now, cost, IP_WINDOW_MS)];
    assert CostOf(one, b) == 0;
  }

  lemma {:induction false} WorkerEventsAdmit(ws: Windows, calls: seq<Call>, b: Bucket, from: int)
    requires b != Request && RequestsFit(WindowOf(ws, Request), calls) && forall c :: c in calls ==> !c.refusedElsewhere
    ensures AdmittedCost(WorkerEvents(calls, b), IdealAnswers(ws, WorkerEvents(calls, b)), b, from) ==
            Admitted(WindowOf(ws, b), calls, IP_WINDOW_MS, Limit(b), from)
    decreases |calls|
  {
    if calls != [] {
      var c, events := calls[0], WorkerEvents(calls, b);
      var ws' := ChargeAll(ws, [Charged(Request, 1), Charged(b, c.cost)], c.now);
      TwoCharges(ws, b, c.cost, c.now);
      WorkerEventsAdmit(ws', calls[1..], b, from);
      assert events[1..] == WorkerEvents(calls[1..], b);
      assert IdealAnswers(ws, events)[1..] == IdealAnswers(ws', events[1..]);
    }
  }

  lemma {:induction false} WorkerEventsTimely(s: State, calls: seq<Call>, b: Bucket, since: int)
    requires Ordered(calls) && IP_WINDOW_MS <= since && forall c :: c in calls ==> since <= c.now
    ensures Timely(s, WorkerEvents(calls, b), since)
    decreases |calls|
  {
    if calls != [] {
      var events := WorkerEvents(calls, b);
      assert calls[0] in calls && events[1..] == WorkerEvents(calls[1..], b);
      WorkerEventsTimely(After(s, events[0]), calls[1..], b, calls[0].now);
    }
  }

  lemma {:induction false} WorkerEventsAreWorkers(calls: seq<Call>, b: Bucket)
    requires b != Request
    requires forall c :: c in calls ==> 1 <= c.cost <= (if b == Create then 1 else MAX_PULL_ITEMS)
    ensures ByWorker(WorkerEvents(calls, b))
    decreases |calls|
  {
    if calls != [] {
      assert calls[0] in calls;
      WorkerEventsAreWorkers(calls[1..], b);
    }
  }

  /** A new limiter can admit 39 creations in an hour. */
  lemma Reaches39Creations(now: int) returns (events: seq<Event>)
    requires IP_WINDOW_MS <= now
    ensures Timely(State(map[], None), events, now) && ByWorker(events)
    ensures AdmittedCost(events, Answers(State(map[], None), events), Create, now + IP_WINDOW_MS - 1) == 39
  {
    var s, calls := State(map[], None), AcrossTwo(now, IP_WINDOW_MS, Limit(Create));
    BelowTwiceIsReached(Window(0, 0), now, IP_WINDOW_MS, Limit(Create));
    AcrossTwoSize(now, IP_WINDOW_MS, Limit(Create));
    events := WorkerEvents(calls, Create);
    WorkerEventsTimely(s, calls, Create, now);
    WorkerEventsAreWorkers(calls, Create);
    RequestsFitIn(Window(0, 0), calls);
    WorkerEventsAdmit(s.windows, calls, Create, now + IP_WINDOW_MS - 1);
    ClearingIsInvisible(s, s.windows, events, now);
  }

  /** One call in the current window, and then as many as the next one takes. */
  function OneMore(b: Bucket, first: int, next: int): seq<Call> {
    [Call(first, 1, false)] + Volley(next, Unit(b), Limit(b) / Unit(b))
  }

  /** A cost that divides the limit and keeps the number of calls below that of requests. */
  function Unit(b: Bucket): nat {
    if b == Pull then 32 else 1
  }

  lemma OneMoreIs(b: Bucket, first: int, next: int)
    requires b != Request && first <= next
    ensures Ordered(OneMore(b, first, next)) && |OneMore(b, first, next)| <= 376
    ensures forall c :: c in OneMore(b, first, next) ==>
              && first <= c.now && !c.refusedElsewhere
              && 1 <= c.cost <= (if b == Create then 1 else MAX_PULL_ITEMS)
  {
    var volley, calls := Volley(next, Unit(b), Limit(b) / Unit(b)), OneMore(b, first, next);
    VolleyIs(next, Unit(b), Limit(b) / Unit(b));
    assert forall i :: 1 <= i < |calls| ==> calls[i] == volley[i - 1] && volley[i - 1] in volley;
  }

  lemma OneMoreAdmitted(w: Window, b: Bucket, first: int, next: int, from: int)
    requires b != Request && w.count < Limit(b)
    requires from <= first < w.start + IP_WINDOW_MS <= next < from + IP_WINDOW_MS
    ensures Admitted(w, OneMore(b, first, next), IP_WINDOW_MS, Limit(b), from) == 1 + Limit(b)
  {
    var u, m, calls := Unit(b), Limit(b) / Unit(b), OneMore(b, first, next);
    var w1, volley := Charge(w, first, 1, IP_WINDOW_MS), Volley(next, u, m);
    assert calls[1..] == volley && volley[1..] == Volley(next, u, m - 1);
    assert u * m == Limit(b) && u * (m - 1) == Limit(b) - u;
    VolleyAdmitted(Window(next, u), next, u, m - 1, IP_WINDOW_MS, Limit(b), from);
    assert Charge(w1, next, u, IP_WINDOW_MS) == Window(next, u);
  }

  /** When the request window lets a call of the bucket's current window through and later a whole
      window of them: it has something left, or it ends before the bucket's does. */
  predicate RequestsLetThrough(request: Window, w: Window) {
    request.count < Limit(Request) || request.start < w.start
  }

  function Max(a: int, b: int): int {
    if a < b then b else a
  }

  lemma OneMoreFits(request: Window, w: Window, b: Bucket, from: int) returns (first: int, next: int)
    requires b != Request && request.start < from && w.start < from < w.start + IP_WINDOW_MS
    requires RequestsLetThrough(request, w)
    ensures from <= first < w.start + IP_WINDOW_MS <= next < from + IP_WINDOW_MS
    ensures RequestsFit(request, OneMore(b, first, next))
  {
    first := if request.count < Limit(Request) then from else Max(from, request.start + IP_WINDOW_MS);
    next := Max(w.start, request.start) + IP_WINDOW_MS;
    var calls := OneMore(b, first, next);
    OneMoreIs(b, first, next);
    VolleyIs(next, Unit(b), Limit(b) / Unit(b));
    assert calls[1..] == Volley(next, Unit(b), Limit(b) / Unit(b));
    if Over(request, first) {
      RequestsFitInNew(request, calls);
    } else {
      assert calls[1] in calls[1..];
      RequestsFitInNew(Charge(request, first, 1, IP_WINDOW_MS), calls[1..]);
    }
  }

  /** While the request window is exhausted, every call of the worker is refused. */
  lemma {:induction false} RefusedWhileExhausted(s: State, ws: Windows, events: seq<Event>, b: Bucket, since: int)
    requires Timely(s, events, since) && ByWorker(events) && WindowOf(ws, Request).count >= Limit(Request)
    ensures forall c :: c in BucketCalls(ws, events, b) && c.now < WindowOf(ws, Request).start + IP_WINDOW_MS ==>
              c.refusedElsewhere
    decreases |events|
  {
    if events != [] {
      var e, s' := events[0], After(s, events[0]);
      assert IsWorkerEvent(e);
      if e.Fire? {
        RefusedWhileExhausted(s', ws, events[1..], b, e.now);
      } else {
        var ws' := ChargeAll(ws, e.charges, e.now);
        BucketCallsOrdered(s', ws', events[1..], b, e.now);
        if !Over(WindowOf(ws, Request), e.now) {
          RequestCharged(ws, e.charges, e.now);
          RefusedWhileExhausted(s', ws', events[1..], b, e.now);
        }
      }
    }
  }

  lemma RequestCharged(ws: Windows, charges: seq<Charged>, now: int)
    requires IsWorkerCharge(charges)
    ensures WindowOf(ChargeAll(ws, charges, now), Request) == Charge(WindowOf(ws, Request), now, 1, IP_WINDOW_MS)
    ensures Allows(ws, charges, now) ==> Charge(WindowOf(ws, Request), now, 1, IP_WINDOW_MS).count <= Limit(Request)
  {
    if |charges| == 1 {
      assert charges == [Charged(Request, 1)];
      OneCharge(ws, Request, 1, now);
    } else {
      assert charges == [Charged(Request, 1), charges[1]];
      TwoCharges(ws, charges[1].bucket, charges[1].cost, now);
    }
  }

  /** The limit of creations or pulled chains, under the charges the worker makes. In an hour that
      begins after every window, it is kept, whatever comes, exactly if the bucket's window is
      settled, or the request window is exhausted and does not end before the bucket's does. */
  lemma WorkerHourIff(s: State, b: Bucket, from: int)
    requires b != Request && AlarmInv(s) && IP_WINDOW_MS <= from
    requires forall b: Bucket :: WindowOf(s.windows, b).start < from
    ensures (forall events :: Timely(s, events, from) && ByWorker(events) ==>
               AdmittedCost(events, Answers(s, events), b, from) <= Limit(b))
       <==> (Settled(WindowOf(s.windows, b), IP_WINDOW_MS, Limit(b), from)
             || !RequestsLetThrough(WindowOf(s.windows, Request), WindowOf(s.windows, b)))
  {
    var w, request := WindowOf(s.windows, b), WindowOf(s.windows, Request);
    if Settled(w, IP_WINDOW_MS, Limit(b), from) {
      PromisedHourIff(s, b, from);
    } else if !RequestsLetThrough(request, w) {
      forall events | Timely(s, events, from) && ByWorker(events)
        ensures AdmittedCost(events, Answers(s, events), b, from) <= Limit(b)
      {
        ClearingIsInvisible(s, s.windows, events, from);
        AdmittedByBucket(s.windows, events, b, from);
        BucketCallsOrdered(s, s.windows, events, b, from);
        RefusedWhileExhausted(s, s.windows, events, b, from);
        RefusedUntilOver(w, BucketCalls(s.windows, events, b), IP_WINDOW_MS, Limit(b), from);
      }
    } else {
      var first, next := OneMoreFits(request, w, b, from);
      var calls := OneMore(b, first, next);
      OneMoreIs(b, first, next);
      OneMoreAdmitted(w, b, first, next, from);
      WorkerEventsTimely(s, calls, b, from);
      WorkerEventsAreWorkers(calls, b);
      WorkerEventsAdmit(s.windows, calls, b, from);
      ClearingIsInvisible(s, s.windows, WorkerEvents(calls, b), from);
    }
  }
}
