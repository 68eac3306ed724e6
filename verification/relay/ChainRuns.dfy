/** Properties of whole runs of one chain: any interleaving of requests from any number of
    clients, idle alarms and evictions.
 */
module ChainRuns {
  import opened Values
  import Runs
  import opened FixedWindow
  import opened ChainModel

  datatype Step = Step(client: nat, op: Op, now: int, reply: Reply)

  type Run = Runs.Run<State, Step>

  ghost const STEP: (State, Step, State) -> bool := (s, step, s') => IsStep(s, step, s')

  ghost predicate IsStep(s: State, step: Step, s': State) {
    && s' == Next(s, step.op, step.now)
    && Replies(s, step.op, step.now, step.reply)
    && (step.op.Push? ==> DistinctIds(step.op.items))
  }

  ghost predicate IsRun(r: Run) {
    Runs.Follows(r, STEP)
  }

  lemma StepOf(r: Run, k: nat)
    requires IsRun(r) && k < |r.steps|
    ensures IsStep(r.states[k], r.steps[k], r.states[k + 1])
  {
    assert Runs.StepAt(r, STEP, k);
  }

  /** A run from a state that satisfies the invariant, such as the one before anything happened. */
  ghost predicate IsSoundRun(r: Run) {
    IsRun(r) && Inv(r.states[0])
  }

  /** Every reachable chain: rows uniquely numbered up to the latest number, at most 1 MiB and
      4096 rows, and an idle alarm exactly while the chain exists. */
  lemma {:induction false} RunKeepsInv(r: Run, k: nat)
    requires IsSoundRun(r) && k <= |r.steps|
    ensures Inv(r.states[k])
  {
    if k > 0 {
      RunKeepsInv(r, k - 1);
      StepOf(r, k - 1);
      StepKeepsInv(r.states[k - 1], r.steps[k - 1].op, r.steps[k - 1].now);
    }
  }

  /** The chain exists in every state from i to j: one lifetime. */
  ghost predicate OneLifetime(r: Run, i: nat, j: nat)
    requires j < |r.states|
  {
    forall k :: i <= k <= j ==> r.states[k].store.Present?
  }

  // --- Replicas ---

  /** What a client holds: rows by id, and the latest number of its last answered pull. */
  datatype Replica = Replica(rows: Table, cursor: nat)

  function Overlay(rows: Table, records: seq<Envelope>): Table {
    if records == [] then rows else
      var e := records[|records| - 1];
      Overlay(rows, records[..|records| - 1])[e.idHash := e.row]
  }

  /** An answered pull of this client that asked from its cursor or from further back. */
  predicate Asks(rep: Replica, step: Step, client: nat) {
    step.client == client && step.op.Pull? && step.reply.Pulled? && step.op.since <= rep.cursor
  }

  /** A replica takes in its pulls, unless the latest number fell below its cursor. */
  predicate Absorbs(rep: Replica, step: Step, client: nat) {
    Asks(rep, step, client) && rep.cursor <= step.reply.latestSeq
  }

  function Taken(rep: Replica, step: Step, client: nat): Replica {
    if Absorbs(rep, step, client) then Replica(Overlay(rep.rows, step.reply.records), step.reply.latestSeq) else rep
  }

  /** The replica of `client` after these steps, starting empty from cursor 0. */
  function Follow(steps: seq<Step>, client: nat): Replica {
    if steps == [] then Replica(map[], 0)
    else Taken(Follow(steps[..|steps| - 1], client), steps[|steps| - 1], client)
  }

  lemma {:induction false} OverlayAt(rows: Table, records: seq<Envelope>, t: Table, id: string)
    requires forall e :: e in records ==> e.idHash in t && t[e.idHash] == e.row
    ensures var o := Overlay(rows, records);
            if id in t && Envelope(id, t[id]) in records then id in o && o[id] == t[id]
            else (id in o <==> id in rows) && (id in rows ==> o[id] == rows[id])
  {
    if records != [] {
      OverlayAt(rows, records[..|records| - 1], t, id);
      assert records == records[..|records| - 1] + [records[|records| - 1]];
      var last := records[|records| - 1];
      assert last.idHash == id ==> last == Envelope(id, t[id]);
    }
  }

  /** Every row up to the cursor is in the replica as stored, and no row is that is not stored. */
  ghost predicate InStep(rep: Replica, s: State) {
    && s.store.Present? && rep.cursor <= s.store.latestSeq && rep.rows.Keys <= s.store.records.Keys
    && forall id :: id in s.store.records && s.store.records[id].seqNo <= rep.cursor ==>
         id in rep.rows && rep.rows[id] == s.store.records[id]
  }

  /** Nothing but stored rows, and all of those numbered up to `since` as stored. */
  ghost predicate Covers(rows: Table, t: Table, since: nat) {
    && rows.Keys <= t.Keys
    && forall id :: id in t && t[id].seqNo <= since ==> id in rows && rows[id] == t[id]
  }

  lemma OverlaySelection(rows: Table, t: Table, since: nat, records: seq<Envelope>, id: string)
    requires IsSelection(t, since, records)
    ensures var o := Overlay(rows, records);
            if id in t && t[id].seqNo > since then id in o && o[id] == t[id]
            else (id in o <==> id in rows) && (id in rows ==> o[id] == rows[id])
  {
    OverlayAt(rows, records, t, id);
    if id in t {
      assert Envelope(id, t[id]) in records <==> t[id].seqNo > since;
    }
  }

  /** One pull makes any rows agree with the table exactly if they cover it up to where it asked. */
  lemma OverlayAgreesIff(rows: Table, t: Table, since: nat, records: seq<Envelope>)
    requires IsSelection(t, since, records)
    ensures Overlay(rows, records) == t <==> Covers(rows, t, since)
  {
    var o := Overlay(rows, records);
    if Covers(rows, t, since) {
      forall id ensures (id in o <==> id in t) && (id in t ==> o[id] == t[id]) {
        OverlaySelection(rows, t, since, records, id);
      }
    } else if o == t {
      forall id | id in rows ensures id in t {
        OverlaySelection(rows, t, since, records, id);
      }
      forall id | id in t && t[id].seqNo <= since ensures id in rows && rows[id] == t[id] {
        OverlaySelection(rows, t, since, records, id);
      }
      assert false;
    }
  }

  lemma PullCatchesUp(rep: Replica, s: State, step: Step, s': State, client: nat)
    requires Inv(s) && InStep(rep, s) && IsStep(s, step, s') && Asks(rep, step, client)
    ensures Absorbs(rep, step, client)
    ensures Overlay(rep.rows, step.reply.records) == s.store.records == s'.store.records
    ensures InStep(Replica(s.store.records, step.reply.latestSeq), s')
  {
    OverlayAgreesIff(rep.rows, s.store.records, step.op.since, step.reply.records);
  }

  /** A DELETE that was carried out. */
  predicate Deletes(step: Step) {
    step.op.Destroy? && step.reply == Status(204)
  }

  lemma StepKeepsInStep(rep: Replica, s: State, step: Step, s': State)
    requires Inv(s) && InStep(rep, s) && IsStep(s, step, s') && s'.store.Present?
    requires !Deletes(step)
    ensures InStep(rep, s')
  {
    if step.op.Push? && Code(s, step.op, step.now) == 200 {
      WrittenIsNewer(s.store.records, s.store.latestSeq, step.op.items);
    }
  }

  /** Incremental pulls agree with the whole table. Within one lifetime and before any answered
      DELETE, a replica that starts empty from cursor 0 takes in every pull it asks for and equals the
      table after it, whatever every client did in between. */
  lemma {:induction false} ReplicaConverges(r: Run, client: nat, k: nat)
    requires IsSoundRun(r) && k <= |r.steps| && OneLifetime(r, 0, k)
    requires forall i :: 0 <= i < k ==> !Deletes(r.steps[i])
    ensures InStep(Follow(r.steps[..k], client), r.states[k])
    ensures k > 0 && Asks(Follow(r.steps[..k - 1], client), r.steps[k - 1], client) ==>
              Follow(r.steps[..k], client).rows == r.states[k].store.records
  {
    if k > 0 {
      var rep, step := Follow(r.steps[..k - 1], client), r.steps[k - 1];
      ReplicaConverges(r, client, k - 1);
      RunKeepsInv(r, k - 1);
      StepOf(r, k - 1);
      assert r.steps[..k][..k - 1] == r.steps[..k - 1];
      if Asks(rep, step, client) {
        PullCatchesUp(rep, r.states[k - 1], step, r.states[k], client);
      } else {
        StepKeepsInStep(rep, r.states[k - 1], step, r.states[k]);
      }
    }
  }

  /** What is left of a frozen chain after DELETE. */
  ghost predicate Emptied(s: State) {
    s.store.Present? && s.store.frozen && s.store.records == map[]
  }

  lemma FirstIsIn(rows: seq<Envelope>)
    ensures rows != [] ==> rows[0] in rows
  {
  }

  lemma EmptiedStep(rep: Replica, s: State, step: Step, s': State, client: nat)
    requires Emptied(s) && IsStep(s, step, s') && s'.store.Present?
    ensures Emptied(s') && Taken(rep, step, client).rows == rep.rows
  {
    if Absorbs(rep, step, client) {
      FirstIsIn(step.reply.records);
    }
  }

  /** After a DELETE that does not end the lifetime the table stays empty, and every replica keeps
      the rows it has. */
  lemma {:induction false} DeleteIsNotPulled(r: Run, client: nat, i: nat, k: nat)
    requires IsRun(r) && i < k <= |r.steps| && OneLifetime(r, i, k) && Deletes(r.steps[i])
    ensures Emptied(r.states[k]) && Follow(r.steps[..k], client).rows == Follow(r.steps[..i], client).rows
  {
    assert r.steps[..k][..k - 1] == r.steps[..k - 1];
    StepOf(r, k - 1);
    if i + 1 < k {
      DeleteIsNotPulled(r, client, i, k - 1);
      EmptiedStep(Follow(r.steps[..k - 1], client), r.states[k - 1], r.steps[k - 1], r.states[k], client);
    }
  }

  /** When a replica agrees. Within one lifetime, after any pull it asks for, a replica equals the
      table exactly if it was empty at every DELETE so far; without one, always. */
  lemma ReplicaAgreesIff(r: Run, client: nat, k: nat)
    requires IsSoundRun(r) && 0 < k <= |r.steps| && OneLifetime(r, 0, k)
    requires Asks(Follow(r.steps[..k - 1], client), r.steps[k - 1], client)
    ensures Follow(r.steps[..k], client).rows == r.states[k].store.records <==>
            forall i :: 0 <= i < k && Deletes(r.steps[i]) ==> Follow(r.steps[..i], client).rows == map[]
  {
    if i :| 0 <= i < k && Deletes(r.steps[i]) {
      forall j | 0 <= j < k && Deletes(r.steps[j])
        ensures Follow(r.steps[..k], client).rows == Follow(r.steps[..j], client).rows
        ensures r.states[k].store.records == map[]
      {
        DeleteIsNotPulled(r, client, j, k);
      }
    } else {
      ReplicaConverges(r, client, k);
    }
  }

  /** Across lifetimes: in every run, with any number of DELETEs and PUTs, a replica agrees after a
      pull it takes in exactly if, before it, it held no row that is not stored, and every stored row
      numbered up to where the pull asked. Numbers start again with every lifetime, so a replica that
      keeps its cursor can miss rows for good. */
  lemma AgreesAcrossLifetimesIff(r: Run, client: nat, k: nat)
    requires IsRun(r) && 0 < k <= |r.steps|
    requires Absorbs(Follow(r.steps[..k - 1], client), r.steps[k - 1], client)
    ensures r.states[k].store.Present?
    ensures Follow(r.steps[..k], client).rows == r.states[k].store.records <==>
            Covers(Follow(r.steps[..k - 1], client).rows, r.states[k].store.records, r.steps[k - 1].op.since)
  {
    var step := r.steps[k - 1];
    StepOf(r, k - 1);
    assert r.steps[..k][..k - 1] == r.steps[..k - 1];
    OverlayAgreesIff(Follow(r.steps[..k - 1], client).rows, r.states[k].store.records, step.op.since, step.reply.records);
  }

  // --- No lost update ---

  /** b is a later state of a's lifetime: rows stay or get numbers above a's latest one, unless a
      frozen chain was emptied, which ends all writing. */
  ghost predicate Evolved(a: State, b: State) {
    && a.store.Present? && b.store.Present? && a.store.latestSeq <= b.store.latestSeq
    && ((b.store.frozen && b.store.records == map[])
        || forall id :: id in a.store.records ==>
             && id in b.store.records
             && (b.store.records[id] == a.store.records[id] || a.store.latestSeq < b.store.records[id].seqNo))
  }

  lemma StepEvolves(a: State, s: State, step: Step, s': State)
    requires Inv(s) && Evolved(a, s) && IsStep(s, step, s') && s'.store.Present?
    ensures Evolved(a, s')
  {
    if step.op.Push? && Code(s, step.op, step.now) == 200 {
      WrittenIsNewer(s.store.records, s.store.latestSeq, step.op.items);
    }
  }

  lemma {:induction false} LifetimeEvolves(r: Run, i: nat, j: nat)
    requires IsSoundRun(r) && i <= j <= |r.steps| && OneLifetime(r, i, j)
    ensures Evolved(r.states[i], r.states[j])
  {
    if i < j {
      LifetimeEvolves(r, i, j - 1);
      RunKeepsInv(r, j - 1);
      StepOf(r, j - 1);
      StepEvolves(r.states[i], r.states[j - 1], r.steps[j - 1], r.states[j]);
    }
  }

  /** The step answers item m of a push. */
  predicate Answers(step: Step, m: nat) {
    step.op.Push? && step.reply.Pushed? && m < |step.op.items| && m < |step.reply.results|
  }

  /** No lost update. When a push item is accepted whose base number is that of some version the
      record had earlier in this lifetime, the row it replaces is exactly that version. */
  lemma NoLostUpdate(r: Run, i: nat, j: nat, m: nat)
    requires IsSoundRun(r) && i <= j < |r.steps| && OneLifetime(r, i, j)
    requires Answers(r.steps[j], m) && r.steps[j].reply.results[m].Accepted?
    requires var item := r.steps[j].op.items[m];
             item.idHash in r.states[i].store.records && r.states[i].store.records[item.idHash].seqNo == item.baseSeq
    ensures var id := r.steps[j].op.items[m].idHash;
            id in r.states[j].store.records && r.states[j].store.records[id] == r.states[i].store.records[id]
  {
    RunKeepsInv(r, i);
    LifetimeEvolves(r, i, j);
    StepOf(r, j);
  }

  /** An item with base number 0 is accepted exactly when its record does not exist yet. */
  lemma BaseZeroOnlyCreates(r: Run, j: nat, m: nat)
    requires IsSoundRun(r) && j < |r.steps|
    requires Answers(r.steps[j], m) && r.steps[j].op.items[m].baseSeq == 0
    ensures r.states[j].store.Present?
    ensures r.steps[j].reply.results[m].Accepted? <==>
            r.steps[j].op.items[m].idHash !in r.states[j].store.records
  {
    RunKeepsInv(r, j);
    StepOf(r, j);
  }

  // --- Freeze ---

  /** b is what a frozen chain a can become. */
  ghost predicate FrozenAs(a: State, b: State) {
    && a.store.Present? && b.store.Present? && b.store.frozen
    && b.store.tokenHash == a.store.tokenHash && b.store.latestSeq == a.store.latestSeq
    && (b.store.records == a.store.records || b.store.records == map[])
  }

  lemma FrozenStep(a: State, s: State, step: Step, s': State)
    requires FrozenAs(a, s) && IsStep(s, step, s') && !step.op.Alarm?
    ensures FrozenAs(a, s') && step.reply != Status(201) && !step.reply.Pushed?
  {
  }

  /** Freeze is final. In every run without the idle alarm a frozen chain stays frozen with the
      same token and latest number, its table stays or becomes empty, nothing is pushed, and no
      PUT is answered 201, including one after DELETE. */
  lemma {:induction false} FreezeIsFinal(r: Run, k: nat)
    requires IsRun(r) && r.states[0].store.Present? && r.states[0].store.frozen && k <= |r.steps|
    requires forall i :: 0 <= i < |r.steps| ==> !r.steps[i].op.Alarm?
    ensures FrozenAs(r.states[0], r.states[k])
    ensures k < |r.steps| ==> r.steps[k].reply != Status(201) && !r.steps[k].reply.Pushed?
  {
    if k > 0 {
      FreezeIsFinal(r, k - 1);
      StepOf(r, k - 1);
      FrozenStep(r.states[0], r.states[k - 1], r.steps[k - 1], r.states[k]);
    }
    if k < |r.steps| {
      StepOf(r, k);
      FrozenStep(r.states[0], r.states[k], r.steps[k], r.states[k + 1]);
    }
  }

  // --- Retrying a push ---

  ghost predicate AllConflict(t: Table, latest: nat, items: seq<PushItem>) {
    forall i :: 0 <= i < |items| ==> ResultAt(t, latest, items, i).Conflict?
  }

  lemma {:induction false} NoneAccepted(t: Table, latest: nat, items: seq<PushItem>)
    requires forall item :: item in items ==> !Accepts(t, item)
    ensures Rank(t, items) == 0 && Written(t, latest, items) == t
  {
    if items != [] {
      NoneAccepted(t, latest, items[..|items| - 1]);
    }
  }

  /** The number an accepted item of the batch is given. */
  function Given(t: Table, latest: nat, items: seq<PushItem>, i: nat): nat
    requires i < |items|
  {
    latest + Rank(t, items[..i + 1])
  }

  lemma RetryOfItem(t: Table, latest: nat, items: seq<PushItem>, i: nat)
    requires DistinctIds(items) && i < |items|
    ensures items[i].idHash in Written(t, latest, items)
    ensures Accepts(Written(t, latest, items), items[i]) <==>
            Accepts(t, items[i]) && Given(t, latest, items, i) <= items[i].baseSeq
  {
    WrittenAt(t, latest, items, i);
  }

  /** No accepted item's base number reaches the number it is given. */
  ghost predicate BasesBelow(t: Table, latest: nat, items: seq<PushItem>) {
    forall i :: 0 <= i < |items| && Accepts(t, items[i]) ==> items[i].baseSeq < Given(t, latest, items, i)
  }

  /** The answered batch is refused item by item exactly in that case. */
  lemma RetryConflictsIff(t: Table, latest: nat, items: seq<PushItem>)
    requires DistinctIds(items)
    ensures AllConflict(Written(t, latest, items), latest + Rank(t, items), items) <==> BasesBelow(t, latest, items)
  {
    forall i | 0 <= i < |items|
      ensures ResultAt(Written(t, latest, items), latest + Rank(t, items), items, i).Conflict? <==>
              (Accepts(t, items[i]) ==> items[i].baseSeq < Given(t, latest, items, i))
    {
      RetryOfItem(t, latest, items, i);
    }
  }

  lemma {:induction false} RankPositive(t: Table, items: seq<PushItem>, i: nat)
    requires i < |items| && Accepts(t, items[i])
    ensures Rank(t, items) > 0
  {
    if i < |items| - 1 {
      RankPositive(t, items[..|items| - 1], i);
    }
  }

  /** Every row that an item would replace has the size the item brings. */
  ghost predicate SameSizes(w: Table, items: seq<PushItem>) {
    forall i :: 0 <= i < |items| && Accepts(w, items[i]) ==>
      items[i].idHash in w && Size(w[items[i].idHash]) == |items[i].ciphertext| + |items[i].nonce|
  }

  lemma ResentSizes(t: Table, latest: nat, items: seq<PushItem>)
    requires DistinctIds(items)
    ensures SameSizes(Written(t, latest, items), items)
  {
    var w := Written(t, latest, items);
    forall i | 0 <= i < |items| && Accepts(w, items[i])
      ensures items[i].idHash in w && Size(w[items[i].idHash]) == |items[i].ciphertext| + |items[i].nonce|
    {
      RetryOfItem(t, latest, items, i);
      WrittenAt(t, latest, items, i);
    }
  }

  lemma {:induction false} SameSizesFit(w: Table, latest: nat, items: seq<PushItem>, k: nat)
    requires DistinctIds(items) && SameSizes(w, items) && k <= |items|
    ensures Bytes(Written(w, latest, items[..k])) == Bytes(w) && |Written(w, latest, items[..k])| == |w|
  {
    if k > 0 {
      SameSizesFit(w, latest, items, k - 1);
      assert items[..k][..k - 1] == items[..k - 1] && items[..k][k - 1] == items[k - 1];
      if Accepts(w, items[k - 1]) {
        PredictStep(w, latest, items, k - 1);
        assert items[..k - 1 + 1] == items[..k];
      }
    }
  }

  /** So a batch that was written fits again. */
  lemma ResentFits(t: Table, latest: nat, items: seq<PushItem>, next: nat)
    requires DistinctIds(items) && WithinQuota(Written(t, latest, items))
    ensures WithinQuota(Written(Written(t, latest, items), next, items))
  {
    ResentSizes(t, latest, items);
    SameSizesFit(Written(t, latest, items), next, items, |items|);
    assert items[..|items|] == items;
  }

  lemma StoreAfterPush(s: State, token: string, items: seq<PushItem>, now: int)
    requires Code(s, Push(token, items), now) == 200
    ensures var t, latest := s.store.records, s.store.latestSeq;
            && Authorized(s, token) && !s.store.frozen && WithinQuota(Written(t, latest, items))
            && Next(s, Push(token, items), now).store ==
               s.store.(records := Written(t, latest, items), latestSeq := latest + Rank(t, items))
  {
  }

  lemma ResentIsAnswered(s: State, token: string, items: seq<PushItem>, now: int, later: int)
    requires DistinctIds(items) && Code(s, Push(token, items), now) == 200
    requires !Limited(Next(s, Push(token, items), now), later)
    ensures Code(Next(s, Push(token, items), now), Push(token, items), later) == 200
  {
    var t, latest := s.store.records, s.store.latestSeq;
    StoreAfterPush(s, token, items, now);
    ResentFits(t, latest, items, latest + Rank(t, items));
  }

  lemma ResentTableIff(t: Table, latest: nat, items: seq<PushItem>)
    requires DistinctIds(items)
    ensures var w, next := Written(t, latest, items), latest + Rank(t, items);
            && (Rank(w, items) == 0 <==> BasesBelow(t, latest, items))
            && (Rank(w, items) == 0 ==> Written(w, next, items) == w)
  {
    var w, next := Written(t, latest, items), latest + Rank(t, items);
    RetryConflictsIff(t, latest, items);
    if AllConflict(w, next, items) {
      forall item | item in items ensures !Accepts(w, item) {
        var i :| 0 <= i < |items| && items[i] == item;
        assert ResultAt(w, next, items, i).Conflict?;
      }
      NoneAccepted(w, next, items);
    } else {
      var i :| 0 <= i < |items| && !ResultAt(w, next, items, i).Conflict?;
      RankPositive(w, items, i);
    }
  }

  lemma ResentStoreIff(s: State, token: string, items: seq<PushItem>, now: int, later: int)
    requires DistinctIds(items) && Code(s, Push(token, items), now) == 200
    requires Code(Next(s, Push(token, items), now), Push(token, items), later) == 200
    ensures var s1 := Next(s, Push(token, items), now);
            Next(s1, Push(token, items), later).store == s1.store <==>
            BasesBelow(s.store.records, s.store.latestSeq, items)
  {
    StoreAfterPush(s, token, items, now);
    StoreAfterPush(Next(s, Push(token, items), now), token, items, later);
    ResentTableIff(s.store.records, s.store.latestSeq, items);
  }

  /** When resending is harmless. A batch that was answered 200 and is sent again as the next step,
      authorized and not limited, is answered 200 again, and it leaves the store as it is, or is
      refused item by item, exactly if every accepted item's base number is below the number it was
      given. */
  lemma ResendHarmlessIff(s: State, token: string, items: seq<PushItem>, now: int, later: int, reply: Reply)
    requires DistinctIds(items) && Code(s, Push(token, items), now) == 200
    requires var s1 := Next(s, Push(token, items), now);
             !Limited(s1, later) && Replies(s1, Push(token, items), later, reply)
    ensures reply.Pushed? && |reply.results| == |items|
    ensures var s1 := Next(s, Push(token, items), now);
            Next(s1, Push(token, items), later).store == s1.store <==>
            BasesBelow(s.store.records, s.store.latestSeq, items)
    ensures (forall i :: 0 <= i < |items| ==> reply.results[i].Conflict?) <==>
            BasesBelow(s.store.records, s.store.latestSeq, items)
  {
    StoreAfterPush(s, token, items, now);
    ResentIsAnswered(s, token, items, now, later);
    RetryConflictsIff(s.store.records, s.store.latestSeq, items);
    ResentStoreIff(s, token, items, now, later);
  }

  /** Retry is harmless. A batch whose base numbers do not exceed the latest number and that was
      answered 200 can be sent again as the next step: it is answered 200 with a conflict for every
      item that carries the stored row, and changes neither table nor latest number. */
  lemma RetryIsHarmless(s: State, token: string, items: seq<PushItem>, now: int, later: int, reply: Reply)
    requires Inv(s) && DistinctIds(items) && Code(s, Push(token, items), now) == 200
    requires forall item :: item in items ==> item.baseSeq <= s.store.latestSeq
    requires var s1 := Next(s, Push(token, items), now);
             !Limited(s1, later) && Replies(s1, Push(token, items), later, reply)
    ensures var s1 := Next(s, Push(token, items), now);
            && Next(s1, Push(token, items), later).store == s1.store
            && reply.Pushed? && |reply.results| == |items| && reply.latestSeq == s1.store.latestSeq
            && forall i :: 0 <= i < |items| ==>
                 items[i].idHash in s1.store.records &&
                 reply.results[i] == Conflict(Envelope(items[i].idHash, s1.store.records[items[i].idHash]))
  {
    var t, latest := s.store.records, s.store.latestSeq;
    var w := Written(t, latest, items);
    forall i | 0 <= i < |items| ensures !Accepts(w, items[i]) {
      RetryOfItem(t, latest, items, i);
    }
    NoneAccepted(w, latest + Rank(t, items), items);
  }

  // --- Idle deadline ---

  /** Times do not go back. */
  ghost predicate Ascending(steps: seq<Step>) {
    forall i, j :: 0 <= i < j < |steps| ==> steps[i].now <= steps[j].now
  }

  /** The idle alarm never fires before it is due. */
  ghost predicate Punctual(r: Run)
    requires |r.states| == |r.steps| + 1
  {
    forall i :: 0 <= i < |r.steps| && r.steps[i].op.Alarm? ==>
      r.states[i].alarm.Some? && r.states[i].alarm.value <= r.steps[i].now
  }

  /** A successful create, pull or push. */
  predicate Uses(step: Step) {
    step.reply.Pulled? || step.reply.Pushed? || (step.op.Create? && step.reply in {Status(200), Status(201)})
  }

  lemma StepKeepsBeyond(s: State, step: Step, s': State, bound: int)
    requires IsStep(s, step, s') && (s.alarm.Some? ==> bound <= s.alarm.value) && bound <= step.now + IDLE_TTL_MS
    ensures s'.alarm.Some? ==> bound <= s'.alarm.value
  {
  }

  lemma UseSetsDeadline(s: State, step: Step, s': State)
    requires IsStep(s, step, s') && Uses(step)
    ensures s'.alarm.Some? && step.now + IDLE_TTL_MS - TOUCH_INTERVAL_MS <= s'.alarm.value
  {
  }

  lemma {:induction false} AlarmStaysBeyond(r: Run, i: nat, j: nat)
    requires IsRun(r) && Ascending(r.steps) && i < j <= |r.steps| && Uses(r.steps[i])
    ensures r.states[j].alarm.Some? ==>
              r.steps[i].now + IDLE_TTL_MS - TOUCH_INTERVAL_MS <= r.states[j].alarm.value
  {
    StepOf(r, j - 1);
    if i + 1 < j {
      AlarmStaysBeyond(r, i, j - 1);
      StepKeepsBeyond(r.states[j - 1], r.steps[j - 1], r.states[j],
                      r.steps[i].now + IDLE_TTL_MS - TOUCH_INTERVAL_MS);
    } else {
      UseSetsDeadline(r.states[i], r.steps[i], r.states[j]);
    }
  }

  /** No chain expires sooner than 180 days less 6 hours after its last successful use. */
  lemma IdleDeadline(r: Run, i: nat, j: nat)
    requires IsRun(r) && Ascending(r.steps) && Punctual(r) && i < j < |r.steps|
    ensures Uses(r.steps[i]) && r.steps[j].op.Alarm? ==>
              r.steps[i].now + 15_552_000_000 - 21_600_000 <= r.steps[j].now
  {
    if Uses(r.steps[i]) {
      AlarmStaysBeyond(r, i, j);
    }
  }

  /** The step sets the alarm again: every create and push that succeeds, and the pulls that find
      it due for a refresh. */
  predicate WritesAlarm(s: State, step: Step) {
    && Uses(step)
    && (step.op.Pull? ==> s.alarm.None? || s.alarm.value - step.now < IDLE_TTL_MS - TOUCH_INTERVAL_MS)
  }

  lemma StepAlarm(s: State, step: Step, s': State)
    requires IsStep(s, step, s') && s'.store.Present?
    ensures s'.alarm == if WritesAlarm(s, step) then Some(step.now + IDLE_TTL_MS) else s.alarm
    ensures s.store.Present? || WritesAlarm(s, step)
  {
  }

  /** When the alarm was last set before state k. */
  function LastSet(r: Run, k: nat): int
    requires |r.states| == |r.steps| + 1 && k <= |r.steps|
  {
    if k == 0 then 0
    else if WritesAlarm(r.states[k - 1], r.steps[k - 1]) then r.steps[k - 1].now
    else LastSet(r, k - 1)
  }

  lemma {:induction false} AlarmIsLastSet(r: Run, k: nat)
    requires IsRun(r) && k <= |r.steps| && r.states[0].store.Absent?
    ensures r.states[k].store.Present? ==> r.states[k].alarm == Some(LastSet(r, k) + IDLE_TTL_MS)
  {
    if k > 0 {
      AlarmIsLastSet(r, k - 1);
      StepOf(r, k - 1);
      if r.states[k].store.Present? {
        StepAlarm(r.states[k - 1], r.steps[k - 1], r.states[k]);
      }
    }
  }

  /** An answered pull sets the alarm exactly when more than 6 hours have passed since the alarm
      was last set. */
  lemma ReadsRefreshRarely(r: Run, j: nat)
    requires IsRun(r) && r.states[0].store.Absent? && j < |r.steps| && r.steps[j].reply.Pulled?
    ensures r.states[j + 1].alarm ==
            if LastSet(r, j) + 21_600_000 < r.steps[j].now then Some(r.steps[j].now + 15_552_000_000)
            else r.states[j].alarm
    ensures r.states[j].alarm == Some(LastSet(r, j) + 15_552_000_000)
  {
    AlarmIsLastSet(r, j);
    StepOf(r, j);
  }

  // --- Rate limit ---

  predicate Counted(step: Step) {
    !step.op.Alarm? && !step.op.Evict? && step.reply != Status(404)
  }

  /** Requests let through in the closed interval of 60,000 ms that starts at `from`. */
  function LetThrough(steps: seq<Step>, from: int): nat {
    if steps == [] then 0 else
      (if Counted(steps[0]) && steps[0].reply != Status(429) && from <= steps[0].now <= from + 60_000 then 1 else 0)
      + LetThrough(steps[1..], from)
  }

  function Calls(steps: seq<Step>): seq<Call> {
    if steps == [] then []
    else (if Counted(steps[0]) then [Call(steps[0].now, 1, false)] else []) + Calls(steps[1..])
  }

  lemma {:induction false} CallsAreTheSteps(r: Run, from: int)
    requires IsRun(r) && forall i :: 0 <= i < |r.steps| ==> !r.steps[i].op.Evict?
    ensures LetThrough(r.steps, from)
         == Admitted(r.states[0].minute, Calls(r.steps), MINUTE_WIDTH, RATE_LIMIT_PER_MINUTE, from)
    decreases |r.steps|
  {
    if r.steps != [] {
      var step, rest := r.steps[0], Runs.Rest(r);
      StepOf(r, 0);
      Runs.RestFollows(r, STEP);
      CallsAreTheSteps(rest, from);
      if Counted(step) {
        assert Calls(r.steps)[0] == Call(step.now, 1, false) && Calls(r.steps)[1..] == Calls(rest.steps);
      } else {
        assert Calls(r.steps) == Calls(rest.steps);
      }
    }
  }

  lemma {:induction false} CallsNotBefore(steps: seq<Step>, from: int)
    requires forall i :: 0 <= i < |steps| ==> from <= steps[i].now
    ensures forall c :: c in Calls(steps) ==> from <= c.now
  {
    if steps != [] {
      CallsNotBefore(steps[1..], from);
    }
  }

  lemma {:induction false} CallsOrdered(steps: seq<Step>)
    requires Ascending(steps)
    ensures Ordered(Calls(steps))
  {
    if steps != [] {
      CallsOrdered(steps[1..]);
      CallsNotBefore(steps[1..], steps[0].now);
    }
  }

  /** One chain instance lets at most 240 requests through in any closed interval of 60,000 ms,
      also across DELETE and PUT, whatever window it starts from. */
  lemma AtMost240PerMinute(r: Run, from: int)
    requires IsRun(r) && Ascending(r.steps) && forall i :: 0 <= i < |r.steps| ==> !r.steps[i].op.Evict?
    ensures LetThrough(r.steps, from) <= 240
  {
    CallsAreTheSteps(r, from);
    CallsOrdered(r.steps);
    AtMostTwiceTheLimit(r.states[0].minute, Calls(r.steps), MINUTE_WIDTH, RATE_LIMIT_PER_MINUTE, from);
  }

  lemma {:induction false} CallsCostOne(steps: seq<Step>)
    ensures forall c :: c in Calls(steps) ==> c.cost == 1
  {
    if steps != [] {
      CallsCostOne(steps[1..]);
    }
  }

  /** From a window that can occur it is 239: one that was charged, or is over at every call, as the
      window of a new instance is from 60,001 ms after the epoch on. */
  lemma AtMost239PerMinute(r: Run, from: int)
    requires IsRun(r) && Ascending(r.steps) && forall i :: 0 <= i < |r.steps| ==> !r.steps[i].op.Evict?
    requires var w := r.states[0].minute;
             w.count > 0 || forall i :: 0 <= i < |r.steps| ==> w.start + MINUTE_WIDTH <= r.steps[i].now
    ensures LetThrough(r.steps, from) <= 239
  {
    var w, calls := r.states[0].minute, Calls(r.steps);
    CallsAreTheSteps(r, from);
    CallsOrdered(r.steps);
    CallsCostOne(r.steps);
    if w.count == 0 {
      CallsNotBefore(r.steps, w.start + MINUTE_WIDTH);
      assert calls == [] || calls[0] in calls;
    }
    BelowTwiceTheLimit(w, calls, MINUTE_WIDTH, RATE_LIMIT_PER_MINUTE, from);
  }

  /** A PUT with the chain's own token, or with any if there is none. */
  ghost function Put(s: State, now: int): Step {
    var op := Create(if s.store.Present? then s.store.tokenHash else "");
    Step(0, op, now, Status(Code(s, op, now)))
  }

  lemma PutIsCounted(s: State, now: int)
    ensures IsStep(s, Put(s, now), Next(s, Put(s, now).op, now)) && Counted(Put(s, now))
  {
  }

  /** Any calls of cost 1 are those of a run, from any state. */
  lemma {:induction false} RunOf(s: State, calls: seq<Call>) returns (r: Run)
    requires forall c :: c in calls ==> c.cost == 1 && !c.refusedElsewhere
    ensures IsRun(r) && r.states[0] == s && Calls(r.steps) == calls && |r.steps| == |calls|
    ensures forall i :: 0 <= i < |calls| ==> r.steps[i].now == calls[i].now && !r.steps[i].op.Evict?
    decreases |calls|
  {
    if calls == [] {
      r := Runs.Run([s], []);
    } else {
      var now := calls[0].now;
      var step := Put(s, now);
      PutIsCounted(s, now);
      var rest := RunOf(Next(s, step.op, now), calls[1..]);
      r := Runs.Prepended(s, step, rest);
      Runs.PrependedFollows(s, step, rest, STEP);
      assert r.steps[1..] == rest.steps && calls[0] == Call(now, 1, false);
    }
  }

  /** The run goes on from s at times from `from` on, in the same instance. */
  ghost predicate Continues(r: Run, s: State, from: int) {
    && IsRun(r) && r.states[0] == s && Ascending(r.steps)
    && forall i :: 0 <= i < |r.steps| ==> from <= r.steps[i].now && !r.steps[i].op.Evict?
  }

  lemma ContinuationOf(s: State, calls: seq<Call>, from: int, at: int) returns (r: Run)
    requires Ordered(calls) && forall c :: c in calls ==> from <= c.now && c.cost == 1 && !c.refusedElsewhere
    ensures Continues(r, s, from)
    ensures LetThrough(r.steps, at) == Admitted(s.minute, calls, MINUTE_WIDTH, RATE_LIMIT_PER_MINUTE, at)
  {
    r := RunOf(s, calls);
    CallsAreTheSteps(r, at);
    assert forall i :: 0 <= i < |r.steps| ==> calls[i] in calls;
  }

  /** A new chain can let 239 requests through in a minute. */
  lemma Reaches239(now: int) returns (r: Run)
    requires MINUTE_WIDTH <= now
    ensures Continues(r, INITIAL, now) && LetThrough(r.steps, now + 60_000) == 239
  {
    BelowTwiceIsReached(INITIAL.minute, now, MINUTE_WIDTH, RATE_LIMIT_PER_MINUTE);
    r := ContinuationOf(INITIAL, AcrossTwo(now, MINUTE_WIDTH, RATE_LIMIT_PER_MINUTE), now, now + 60_000);
  }

  /** With a clock in the first minute after the epoch, when the window of a new instance is not over
      yet, it can be 240. */
  lemma Reaches240(from: int) returns (r: Run)
    requires 0 < from < MINUTE_WIDTH
    ensures Continues(r, INITIAL, from) && LetThrough(r.steps, from) == 240
  {
    TwoBurstsOrdered(INITIAL.minute, MINUTE_WIDTH, RATE_LIMIT_PER_MINUTE, from);
    TwoBurstsAdmitted(INITIAL.minute, MINUTE_WIDTH, RATE_LIMIT_PER_MINUTE, from);
    r := ContinuationOf(INITIAL, TwoBursts(INITIAL.minute, MINUTE_WIDTH, RATE_LIMIT_PER_MINUTE, from), from, from);
  }

  /** When the promised 120 requests in the minute from `from` on are kept, whatever comes: exactly if
      the current window has only just started, is over, or has nothing left. */
  lemma Promised120Iff(s: State, from: int)
    ensures (forall r :: Continues(r, s, from) ==> LetThrough(r.steps, from) <= 120) <==>
            Settled(s.minute, MINUTE_WIDTH, RATE_LIMIT_PER_MINUTE, from)
  {
    if Settled(s.minute, MINUTE_WIDTH, RATE_LIMIT_PER_MINUTE, from) {
      forall r | Continues(r, s, from) ensures LetThrough(r.steps, from) <= 120 {
        CallsAreTheSteps(r, from);
        CallsOrdered(r.steps);
        CallsNotBefore(r.steps, from);
        SettledKeeps(s.minute, Calls(r.steps), MINUTE_WIDTH, RATE_LIMIT_PER_MINUTE, from);
      }
    } else {
      TwoBurstsOrdered(s.minute, MINUTE_WIDTH, RATE_LIMIT_PER_MINUTE, from);
      TwoBurstsAdmitted(s.minute, MINUTE_WIDTH, RATE_LIMIT_PER_MINUTE, from);
      var r := ContinuationOf(s, TwoBursts(s.minute, MINUTE_WIDTH, RATE_LIMIT_PER_MINUTE, from), from, from);
    }
  }
}
