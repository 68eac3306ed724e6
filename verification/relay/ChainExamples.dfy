/** Runs of one chain, step by step, in which something that one might expect does not hold: for any
    token, any item the worker can forward, and any time after the first minute of the epoch.
 */
module ChainExamples {
  import opened Values
  import Runs
  import opened FixedWindow
  import opened ChainModel
  import opened ChainRuns

  /** A chain created and last touched at time `now`, after `count` requests in that minute. */
  function Chain(token: string, now: int, latest: nat, frozen: bool, records: Table, count: nat): State {
    State(Present(token, latest, frozen, now, records), Some(now + IDLE_TTL_MS), Window(now, count))
  }

  /** The item alone fits into a chain, as every item does that passes the worker. */
  predicate Fits(item: PushItem) {
    |item.ciphertext| + |item.nonce| <= MAX_CHAIN_BYTES
  }

  /** A table with at most this one row. */
  function Only(item: PushItem, seqNo: nat): Table {
    map[item.idHash := RowOf(item, seqNo)]
  }

  lemma OneItem(latest: nat, t: Table, item: PushItem)
    requires Accepts(t, item) && t.Keys <= {item.idHash} && Fits(item)
    ensures var w := Only(item, latest + 1);
            && Rank(t, [item]) == 1 && Written(t, latest, [item]) == w && WithinQuota(w)
            && ResultAt(t, latest, [item], 0) == Accepted(latest + 1)
  {
    var items, w := [item], Only(item, latest + 1);
    assert items[..0] == [] && items[..1] == items;
    assert t[item.idHash := RowOf(item, latest + 1)] == w;
    BytesUpdate(map[], item.idHash, RowOf(item, latest + 1));
    assert map[][item.idHash := RowOf(item, latest + 1)] == w && |w| == 1;
  }

  /** Pushing the item alone, over whatever version of it the table has. */
  lemma PushOne(token: string, now: int, latest: nat, t: Table, item: PushItem, count: nat)
    requires Accepts(t, item) && t.Keys <= {item.idHash} && Fits(item) && count < RATE_LIMIT_PER_MINUTE
    ensures var s, op := Chain(token, now, latest, false, t, count), Push(token, [item]);
            && Code(s, op, now) == 200
            && Next(s, op, now) == Chain(token, now, latest + 1, false, Only(item, latest + 1), count + 1)
            && Replies(s, op, now, Pushed([Accepted(latest + 1)], latest + 1))
  {
    OneItem(latest, t, item);
  }

  /** A base number above any given out makes a resend overwrite the row it wrote: the push and the
      same push again, on a chain with no rows yet. */
  lemma InventedBaseIsAcceptedAgain(token: string, now: int, item: PushItem)
    requires Fits(item) && item.baseSeq > 0
    ensures var s, op := Chain(token, now, 0, false, map[], 1), Push(token, [item]);
            && Code(s, op, now) == 200
            && Code(Next(s, op, now), op, now) == 200
            && Next(s, op, now).store.records == Only(item, 1)
            && Next(Next(s, op, now), op, now).store.records == Only(item, 2)
  {
    PushOne(token, now, 0, map[], item, 1);
    PushOne(token, now, 1, Only(item, 1), item, 2);
  }

  // --- Runs, one step more at a time ---

  lemma OneStepMore(r: Run, step: Step, s': State) returns (r': Run)
    requires IsRun(r) && IsStep(r.states[|r.steps|], step, s')
    ensures IsRun(r') && r' == Runs.Extended(r, step, s')
    ensures Follow(r'.steps, 0) == Taken(Follow(r.steps, 0), step, 0)
  {
    r' := Runs.Extended(r, step, s');
    Runs.ExtendedFollows(r, STEP, step, s');
    assert r'.steps[..|r.steps|] == r.steps;
  }

  lemma FirstStep(s: State, step: Step, s': State) returns (r: Run)
    requires IsStep(s, step, s') && !step.op.Pull?
    ensures IsRun(r) && r == Runs.Run([s, s'], [step]) && Follow(r.steps, 0) == Replica(map[], 0)
  {
    r := OneStepMore(Runs.Run([s], []), step, s');
  }

  lemma CreateIsStep(token: string, now: int, s: State, count: nat)
    requires s.store.Absent? && Charge(s.minute, now, 1, MINUTE_WIDTH) == Window(now, count)
    requires count <= RATE_LIMIT_PER_MINUTE
    ensures IsStep(s, Step(0, Create(token), now, Status(201)), Chain(token, now, 0, false, map[], count))
  {
  }

  lemma PushOneIsStep(token: string, now: int, item: PushItem, count: nat)
    requires Fits(item) && count < RATE_LIMIT_PER_MINUTE
    ensures IsStep(Chain(token, now, 0, false, map[], count),
                   Step(0, Push(token, [item]), now, Pushed([Accepted(1)], 1)),
                   Chain(token, now, 1, false, Only(item, 1), count + 1))
  {
    PushOne(token, now, 0, map[], item, count);
  }

  lemma SelectOne(item: PushItem)
    ensures IsSelection(Only(item, 1), 0, [Envelope(item.idHash, RowOf(item, 1))])
    ensures Overlay(map[], [Envelope(item.idHash, RowOf(item, 1))]) == Only(item, 1)
  {
    assert [Envelope(item.idHash, RowOf(item, 1))][..0] == [];
  }

  lemma PullOneIsStep(token: string, now: int, item: PushItem, count: nat)
    requires count < RATE_LIMIT_PER_MINUTE
    ensures IsStep(Chain(token, now, 1, false, Only(item, 1), count),
                   Step(0, Pull(token, 0), now, Pulled([Envelope(item.idHash, RowOf(item, 1))], 1)),
                   Chain(token, now, 1, false, Only(item, 1), count + 1))
  {
    SelectOne(item);
  }

  /** A pull from number 1 on brings nothing when no row has a higher one. */
  lemma PullNothingIsStep(token: string, now: int, frozen: bool, t: Table, count: nat)
    requires count < RATE_LIMIT_PER_MINUTE && forall id :: id in t ==> t[id].seqNo <= 1
    ensures IsStep(Chain(token, now, 1, frozen, t, count), Step(0, Pull(token, 1), now, Pulled([], 1)),
                   Chain(token, now, 1, frozen, t, count + 1))
  {
  }

  lemma Created(token: string, now: int) returns (r: Run)
    requires MINUTE_WIDTH <= now
    ensures IsRun(r) && |r.steps| == 1 && r.states[0] == INITIAL && Follow(r.steps, 0) == Replica(map[], 0)
    ensures r.states[1] == Chain(token, now, 0, false, map[], 1)
  {
    var step := Step(0, Create(token), now, Status(201));
    CreateIsStep(token, now, INITIAL, 1);
    r := FirstStep(INITIAL, step, Chain(token, now, 0, false, map[], 1));
  }

  lemma CreatedPushed(token: string, now: int, item: PushItem) returns (r: Run)
    requires Fits(item) && MINUTE_WIDTH <= now
    ensures IsRun(r) && |r.steps| == 2 && r.states[0] == INITIAL && Follow(r.steps, 0) == Replica(map[], 0)
    ensures r.states[2] == Chain(token, now, 1, false, Only(item, 1), 2)
  {
    r := Created(token, now);
    PushOneIsStep(token, now, item, 1);
    r := OneStepMore(r, Step(0, Push(token, [item]), now, Pushed([Accepted(1)], 1)),
                     Chain(token, now, 1, false, Only(item, 1), 2));
  }

  lemma CreatedPushedPulled(token: string, now: int, item: PushItem) returns (r: Run)
    requires Fits(item) && MINUTE_WIDTH <= now
    ensures IsRun(r) && |r.steps| == 3 && r.states[0] == INITIAL
    ensures Follow(r.steps, 0) == Replica(Only(item, 1), 1)
    ensures r.states[3] == Chain(token, now, 1, false, Only(item, 1), 3)
  {
    r := CreatedPushed(token, now, item);
    PullOneIsStep(token, now, item, 2);
    SelectOne(item);
    r := OneStepMore(r, Step(0, Pull(token, 0), now, Pulled([Envelope(item.idHash, RowOf(item, 1))], 1)),
                     Chain(token, now, 1, false, Only(item, 1), 3));
  }

  // --- A replica that outlives its table ---

  lemma FrozenDeleted(token: string, now: int, item: PushItem) returns (r: Run)
    requires Fits(item) && MINUTE_WIDTH <= now
    ensures IsRun(r) && |r.steps| == 5 && r.states[0] == INITIAL && Deletes(r.steps[4])
    ensures Follow(r.steps, 0) == Replica(Only(item, 1), 1)
    ensures r.states[5] == Chain(token, now, 1, true, map[], 5)
  {
    r := CreatedPushedPulled(token, now, item);
    r := OneStepMore(r, Step(0, Freeze(token), now, Status(204)), Chain(token, now, 1, true, Only(item, 1), 4));
    r := OneStepMore(r, Step(0, Destroy(token), now, Status(204)), Chain(token, now, 1, true, map[], 5));
  }

  /** Create, push, pull, freeze, delete, pull: the replica took in both pulls and still holds a row
      that the table has no more. */
  lemma ReplicaOutlivesTable(token: string, now: int, item: PushItem) returns (r: Run)
    requires Fits(item) && MINUTE_WIDTH <= now
    ensures IsRun(r) && |r.steps| == 6 && r.states[0] == INITIAL && Deletes(r.steps[4])
    ensures Absorbs(Follow(r.steps[..5], 0), r.steps[5], 0)
    ensures Follow(r.steps, 0).rows == Only(item, 1) && Emptied(r.states[6])
  {
    r := FrozenDeleted(token, now, item);
    ghost var five := r.steps;
    PullNothingIsStep(token, now, true, map[], 5);
    r := OneStepMore(r, Step(0, Pull(token, 1), now, Pulled([], 1)), Chain(token, now, 1, true, map[], 6));
    assert r.steps[..5] == five;
  }

  // --- A replica that misses a new lifetime ---

  lemma DestroyedCreated(token: string, now: int, item: PushItem) returns (r: Run)
    requires Fits(item) && MINUTE_WIDTH <= now
    ensures IsRun(r) && |r.steps| == 5 && r.states[0] == INITIAL && r.states[4].store.Absent?
    ensures Follow(r.steps, 0) == Replica(Only(item, 1), 1)
    ensures r.states[5] == Chain(token, now, 0, false, map[], 5)
  {
    r := CreatedPushedPulled(token, now, item);
    var gone := State(Absent, None, Window(now, 4));
    r := OneStepMore(r, Step(0, Destroy(token), now, Status(204)), gone);
    CreateIsStep(token, now, gone, 5);
    r := OneStepMore(r, Step(0, Create(token), now, Status(201)), Chain(token, now, 0, false, map[], 5));
  }

  /** Create, push, pull, delete, create, push, pull: the latest number is back at the replica's
      cursor, so the replica takes the pull in, gets nothing, and keeps the old row for the new. */
  lemma ReplicaMissesLifetime(token: string, now: int, item: PushItem, other: PushItem) returns (r: Run)
    requires Fits(item) && Fits(other) && MINUTE_WIDTH <= now && RowOf(item, 1) != RowOf(other, 1)
    ensures IsRun(r) && |r.steps| == 7 && r.states[0] == INITIAL && r.states[4].store.Absent?
    ensures Absorbs(Follow(r.steps[..6], 0), r.steps[6], 0)
    ensures Follow(r.steps, 0).rows == Only(item, 1) && r.states[7].store.Present?
    ensures r.states[7].store.records == Only(other, 1) != Follow(r.steps, 0).rows
  {
    r := DestroyedCreated(token, now, item);
    PushOneIsStep(token, now, other, 5);
    r := OneStepMore(r, Step(0, Push(token, [other]), now, Pushed([Accepted(1)], 1)),
                     Chain(token, now, 1, false, Only(other, 1), 6));
    ghost var six := r.steps;
    PullNothingIsStep(token, now, false, Only(other, 1), 6);
    r := OneStepMore(r, Step(0, Pull(token, 1), now, Pulled([], 1)), Chain(token, now, 1, false, Only(other, 1), 7));
    assert r.steps[..6] == six;
    assert Only(item, 1) != Only(other, 1) by {
      assert other.idHash in Only(other, 1) && Only(other, 1)[other.idHash] == RowOf(other, 1);
    }
  }
}
