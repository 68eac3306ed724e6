/** Fixed-window counting, shared by the per-chain and the per-IP limiter of the relay.

    A window opens at the first call that finds the previous one over, counts every call made
    before `width` has passed, and admits a call while the count stays within a limit. Refused
    calls are counted too. The per-chain limiter opens a new window when more than 60,000 ms have
    passed, which in whole milliseconds is a width of 60,001.
 */
module FixedWindow {

  datatype Window = Window(start: int, count: nat)

  /** One call: when, how much it costs, and whether something else refuses it anyway. */
  datatype Call = Call(now: int, cost: nat, refusedElsewhere: bool)

  function Charge(w: Window, now: int, cost: nat, width: nat): Window {
    if now - w.start >= width then Window(now, cost) else Window(w.start, w.count + cost)
  }

  /** The cost admitted at times in [from, from + width), over a whole run of calls. */
  function Admitted(w: Window, calls: seq<Call>, width: nat, limit: nat, from: int): nat
    decreases |calls|
  {
    if calls == [] then 0 else
      var c := calls[0];
      var w' := Charge(w, c.now, c.cost, width);
      var here := from <= c.now < from + width && w'.count <= limit && !c.refusedElsewhere;
      (if here then c.cost else 0) + Admitted(w', calls[1..], width, limit, from)
  }

  ghost predicate Ordered(calls: seq<Call>) {
    forall i, j :: 0 <= i < j < |calls| ==> calls[i].now <= calls[j].now
  }

  function Left(w: Window, limit: nat): nat {
    if w.count <= limit then limit - w.count else 0
  }

  lemma {:induction false} NothingAfter(w: Window, calls: seq<Call>, width: nat, limit: nat, from: int)
    requires forall c :: c in calls ==> from + width <= c.now
    ensures Admitted(w, calls, width, limit, from) == 0
    decreases |calls|
  {
    if calls != [] {
      NothingAfter(Charge(w, calls[0].now, calls[0].cost, width), calls[1..], width, limit, from);
    }
  }

  /** A window that opened inside the interval outlasts it. */
  lemma {:induction false} OneWindow(w: Window, calls: seq<Call>, width: nat, limit: nat, from: int)
    requires Ordered(calls) && from <= w.start
    ensures Admitted(w, calls, width, limit, from) <= Left(w, limit)
    decreases |calls|
  {
    if calls != [] {
      var w' := Charge(w, calls[0].now, calls[0].cost, width);
      if calls[0].now - w.start >= width {
        NothingAfter(w', calls[1..], width, limit, from);
      } else {
        OneWindow(w', calls[1..], width, limit, from);
      }
    }
  }

  /** Once the times are inside the interval, the current window and one more can matter. */
  lemma {:induction false} TwoWindows(w: Window, calls: seq<Call>, width: nat, limit: nat, from: int)
    requires Ordered(calls) && forall c :: c in calls ==> from <= c.now
    ensures Admitted(w, calls, width, limit, from) <= Left(w, limit) + limit
    decreases |calls|
  {
    if calls != [] {
      var w' := Charge(w, calls[0].now, calls[0].cost, width);
      if calls[0].now - w.start >= width {
        OneWindow(w', calls[1..], width, limit, from);
      } else {
        TwoWindows(w', calls[1..], width, limit, from);
      }
    }
  }

  /** Over every nondecreasing sequence of calls, from any window: at most twice the limit is
      admitted in any half-open interval as long as a window. */
  lemma {:induction false} AtMostTwiceTheLimit(w: Window, calls: seq<Call>, width: nat, limit: nat, from: int)
    requires Ordered(calls)
    ensures Admitted(w, calls, width, limit, from) <= 2 * limit
    decreases |calls|
  {
    if calls == [] || from <= calls[0].now {
      TwoWindows(w, calls, width, limit, from);
    } else {
      AtMostTwiceTheLimit(Charge(w, calls[0].now, calls[0].cost, width), calls[1..], width, limit, from);
    }
  }

  // --- Windows that can occur ---

  /** From a window that was charged, or is over at the first call, one less: a window that started
      before the interval was charged outside it at least once. */
  lemma {:induction false} BelowTwiceTheLimit(w: Window, calls: seq<Call>, width: nat, limit: nat, from: int)
    requires Ordered(calls) && limit > 0 && forall c :: c in calls ==> c.cost > 0
    requires w.count > 0 || calls == [] || w.start + width <= calls[0].now
    ensures Admitted(w, calls, width, limit, from) <= 2 * limit - 1
    decreases |calls|
  {
    if calls != [] {
      var w' := Charge(w, calls[0].now, calls[0].cost, width);
      if calls[0].now < from {
        BelowTwiceTheLimit(w', calls[1..], width, limit, from);
      } else if calls[0].now - w.start >= width {
        OneWindow(w', calls[1..], width, limit, from);
      } else {
        TwoWindows(w, calls, width, limit, from);
      }
    }
  }

  /** n calls of cost 1 at one time. */
  function Burst(now: int, n: nat): seq<Call> {
    if n == 0 then [] else [Call(now, 1, false)] + Burst(now, n - 1)
  }

  lemma {:induction false} BurstIs(now: int, n: nat)
    ensures |Burst(now, n)| == n && forall c :: c in Burst(now, n) ==> c == Call(now, 1, false)
  {
    if n > 0 {
      BurstIs(now, n - 1);
    }
  }

  lemma {:induction false} BurstAdmitted(w: Window, now: int, n: nat, rest: seq<Call>, width: nat, limit: nat, from: int)
    requires now - w.start < width && w.count + n <= limit && from <= now < from + width
    ensures Admitted(w, Burst(now, n) + rest, width, limit, from) ==
            n + Admitted(Window(w.start, w.count + n), rest, width, limit, from)
    decreases n
  {
    if n == 0 {
      assert Burst(now, n) + rest == rest;
    } else {
      assert (Burst(now, n) + rest)[1..] == Burst(now, n - 1) + rest;
      BurstAdmitted(Window(w.start, w.count + 1), now, n - 1, rest, width, limit, from);
    }
  }

  /** What is left of the current window, and then all of the next. */
  function TwoBursts(w: Window, width: nat, limit: nat, from: int): seq<Call> {
    Burst(from, Left(w, limit)) + Burst(w.start + width, limit)
  }

  lemma {:induction false} TwoBurstsAdmitted(w: Window, width: nat, limit: nat, from: int)
    requires w.start < from < w.start + width && 0 < limit && w.count <= limit
    ensures Admitted(w, TwoBursts(w, width, limit, from), width, limit, from) == Left(w, limit) + limit
  {
    var now, full := w.start + width, Window(w.start, limit);
    BurstAdmitted(w, from, Left(w, limit), Burst(now, limit), width, limit, from);
    BurstAdmitted(Window(now, 1), now, limit - 1, [], width, limit, from);
    assert Burst(now, limit)[1..] == Burst(now, limit - 1) + [];
    assert Charge(full, now, 1, width) == Window(now, 1);
  }

  lemma {:induction false} TwoBurstsOrdered(w: Window, width: nat, limit: nat, from: int)
    requires w.start < from < w.start + width
    ensures Ordered(TwoBursts(w, width, limit, from))
    ensures forall c :: c in TwoBursts(w, width, limit, from) ==> from <= c.now && c.cost == 1 && !c.refusedElsewhere
  {
    var a, b, both := Burst(from, Left(w, limit)), Burst(w.start + width, limit), TwoBursts(w, width, limit, from);
    BurstIs(from, Left(w, limit));
    BurstIs(w.start + width, limit);
    assert forall i :: 0 <= i < |both| ==>
      if i < |a| then both[i] == a[i] && a[i] in a else both[i] == b[i - |a|] && b[i - |a|] in b;
  }

  /** One call that opens a window, what that window leaves just before it ends, and the next one. */
  function AcrossTwo(now: int, width: nat, limit: nat): seq<Call> {
    [Call(now, 1, false)] + TwoBursts(Window(now, 1), width, limit, now + width - 1)
  }

  lemma AcrossTwoSize(now: int, width: nat, limit: nat)
    requires 0 < limit
    ensures |AcrossTwo(now, width, limit)| == 2 * limit
  {
    BurstIs(now + width - 1, Left(Window(now, 1), limit));
    BurstIs(now + width, limit);
  }

  /** The bound is reached, by any limiter and from any time at which the window is over. */
  lemma {:induction false} BelowTwiceIsReached(w: Window, now: int, width: nat, limit: nat)
    requires w.start + width <= now && 2 <= width && 0 < limit
    ensures Ordered(AcrossTwo(now, width, limit))
    ensures forall c :: c in AcrossTwo(now, width, limit) ==> now <= c.now && c.cost == 1 && !c.refusedElsewhere
    ensures Admitted(w, AcrossTwo(now, width, limit), width, limit, now + width - 1) == 2 * limit - 1
  {
    var from, first := now + width - 1, Window(now, 1);
    TwoBurstsOrdered(first, width, limit, from);
    TwoBurstsAdmitted(first, width, limit, from);
    assert AcrossTwo(now, width, limit)[1..] == TwoBursts(first, width, limit, from);
  }

  // --- When the limit itself is kept ---

  /** Whatever is called from `from` on, at most the limit is admitted in the interval. */
  ghost predicate KeepsLimit(w: Window, width: nat, limit: nat, from: int) {
    forall calls: seq<Call> :: Ordered(calls) && (forall c :: c in calls ==> from <= c.now) ==>
      Admitted(w, calls, width, limit, from) <= limit
  }

  /** At `from` the window has only just started, is over, or has nothing left. */
  predicate Settled(w: Window, width: nat, limit: nat, from: int) {
    from <= w.start || w.start + width <= from || limit <= w.count
  }

  lemma {:induction false} SettledKeeps(w: Window, calls: seq<Call>, width: nat, limit: nat, from: int)
    requires Settled(w, width, limit, from) && Ordered(calls) && forall c :: c in calls ==> from <= c.now
    ensures Admitted(w, calls, width, limit, from) <= limit
  {
    if from <= w.start {
      OneWindow(w, calls, width, limit, from);
    } else if limit <= w.count {
      TwoWindows(w, calls, width, limit, from);
    } else if calls != [] {
      OneWindow(Charge(w, calls[0].now, calls[0].cost, width), calls[1..], width, limit, from);
    }
  }

  /** The limit is kept in an interval exactly if the window is settled when the interval begins. */
  lemma LimitKeptIff(w: Window, width: nat, limit: nat, from: int)
    ensures KeepsLimit(w, width, limit, from) <==> Settled(w, width, limit, from)
  {
    if Settled(w, width, limit, from) {
      forall calls: seq<Call> | Ordered(calls) && (forall c :: c in calls ==> from <= c.now)
        ensures Admitted(w, calls, width, limit, from) <= limit
      {
        SettledKeeps(w, calls, width, limit, from);
      }
    } else {
      TwoBurstsOrdered(w, width, limit, from);
      TwoBurstsAdmitted(w, width, limit, from);
    }
  }

  /** If everything is refused elsewhere until the window is over, the limit is kept. */
  lemma {:induction false} RefusedUntilOver(w: Window, calls: seq<Call>, width: nat, limit: nat, from: int)
    requires Ordered(calls) && forall c :: c in calls ==> from <= c.now
    requires forall c :: c in calls && c.now < w.start + width ==> c.refusedElsewhere
    ensures Admitted(w, calls, width, limit, from) <= limit
    decreases |calls|
  {
    if calls != [] {
      var w' := Charge(w, calls[0].now, calls[0].cost, width);
      if calls[0].now < w.start + width {
        RefusedUntilOver(w', calls[1..], width, limit, from);
      } else {
        OneWindow(w', calls[1..], width, limit, from);
      }
    }
  }

  /** m calls of cost u at one time. */
  function Volley(now: int, u: nat, m: nat): seq<Call> {
    if m == 0 then [] else [Call(now, u, false)] + Volley(now, u, m - 1)
  }

  lemma {:induction false} VolleyIs(now: int, u: nat, m: nat)
    ensures |Volley(now, u, m)| == m && forall c :: c in Volley(now, u, m) ==> c == Call(now, u, false)
  {
    if m > 0 {
      VolleyIs(now, u, m - 1);
    }
  }

  lemma {:induction false} VolleyAdmitted(w: Window, now: int, u: nat, m: nat, width: nat, limit: nat, from: int)
    requires now - w.start < width && w.count + u * m <= limit && from <= now < from + width
    ensures Admitted(w, Volley(now, u, m), width, limit, from) == u * m
    decreases m
  {
    if m > 0 {
      assert u * m == u + u * (m - 1);
      assert Volley(now, u, m)[1..] == Volley(now, u, m - 1);
      VolleyAdmitted(Window(w.start, w.count + u), now, u, m - 1, width, limit, from);
    }
  }
}
