/** The chain object itself: stored fields, two fields in memory, and the methods that update
    them. Each public method is one step of the model.
 */
module ChainStores {
  import opened Values
  import opened FixedWindow
  import opened ChainModel

  /** The number of different strings equals the number of strings: how the worker looks for a
      repeated id in one request. */
  predicate NoRepeats(ids: seq<string>) {
    |set id | id in ids| == |ids|
  }

  lemma {:induction false} NoRepeatsIffDistinct(ids: seq<string>)
    ensures NoRepeats(ids) <==> forall i, j :: 0 <= i < j < |ids| ==> ids[i] != ids[j]
    ensures |set id | id in ids| <= |ids|
  {
    if ids != [] {
      var most, last := ids[..|ids| - 1], ids[|ids| - 1];
      NoRepeatsIffDistinct(most);
      assert ids == most + [last];
      assert (set id | id in ids) == (set id | id in most) + {last};
      if last in most {
        assert (set id | id in ids) == (set id | id in most);
      }
    }
  }

  class ChainStore {
    var hasSchema: bool
    var tokenHash: string
    var latestSeq: nat
    var frozen: bool
    var createdAt: int
    var records: Table
    var alarm: Option<int>

    // In memory only.
    var minuteStart: int
    var minuteCount: nat

    function View(): State
      reads this
    {
      State(if hasSchema then Present(tokenHash, latestSeq, frozen, createdAt, records) else Absent,
            alarm, Window(minuteStart, minuteCount))
    }

    ghost predicate Valid()
      reads this
    {
      Inv(View())
    }

    constructor ()
      ensures Valid() && View() == INITIAL
    {
      hasSchema, tokenHash, latestSeq, frozen, createdAt, records := false, "", 0, false, 0, map[];
      alarm, minuteStart, minuteCount := None, 0, 0;
    }

    /** The object of a chain that is already in storage. */
    constructor Load(s: State)
      requires Inv(s)
      ensures Valid() && View() == s
    {
      hasSchema, alarm, minuteStart, minuteCount := s.store.Present?, s.alarm, s.minute.start, s.minute.count;
      if s.store.Present? {
        tokenHash, latestSeq, frozen := s.store.tokenHash, s.store.latestSeq, s.store.frozen;
        createdAt, records := s.store.createdAt, s.store.records;
      } else {
        tokenHash, latestSeq, frozen, createdAt, records := "", 0, false, 0, map[];
      }
    }

    method RateLimited(now: int) returns (limited: bool)
      modifies this`minuteStart, this`minuteCount
      ensures View() == Charged(old(View()), now) && (limited <==> Limited(old(View()), now))
    {
      if now - minuteStart > 60_000 {
        minuteStart := now;
        minuteCount := 0;
      }
      minuteCount := minuteCount + 1;
      limited := minuteCount > RATE_LIMIT_PER_MINUTE;
    }

    method Touch(force: bool, now: int)
      modifies this`alarm
      ensures View() == Touched(old(View()), now, force)
    {
      if !force {
        if alarm.Some? && alarm.value - now >= IDLE_TTL_MS - TOUCH_INTERVAL_MS {
          return;
        }
      }
      alarm := Some(now + IDLE_TTL_MS);
    }

    method DeleteAll()
      modifies this
      ensures View() == State(Absent, None, old(View()).minute)
    {
      hasSchema, tokenHash, latestSeq, frozen, createdAt, records := false, "", 0, false, 0, map[];
      alarm := None;
    }

    method Create(token: string, now: int) returns (reply: Reply)
      requires Valid()
      modifies this
      ensures Valid() && View() == Next(old(View()), Op.Create(token), now)
      ensures Replies(old(View()), Op.Create(token), now, reply)
    {
      StepKeepsInv(View(), Op.Create(token), now);
      if !hasSchema {
        var limited := RateLimited(now);
        if limited {
          return Status(429);
        }
        hasSchema, tokenHash, latestSeq, frozen, createdAt, records := true, token, 0, false, now, map[];
        Touch(true, now);
        return Status(201);
      }
      if tokenHash != token {
        return Status(404);
      }
      var limited := RateLimited(now);
      if limited {
        return Status(429);
      }
      Touch(true, now);
      return Status(200);
    }

    /** SELECT ... WHERE seq > since ORDER BY seq. */
    method Select(since: nat) returns (rows: seq<Envelope>)
      requires Numbered(records, latestSeq)
      ensures IsSelection(records, since, rows)
    {
      rows := [];
      var rest := set id | id in records && records[id].seqNo > since;
      ghost var done: Table := map[];
      while rest != {}
        invariant Selecting(records, since, done, rest) && IsSelection(done, since, rows)
        decreases rest
      {
        LowestExists(records, rest);
        var id :| id in rest && forall other :: other in rest ==> records[id].seqNo <= records[other].seqNo;
        SelectingNext(records, latestSeq, since, done, rest, id);
        SelectNext(done, since, rows, id, records[id]);
        rows := rows + [Envelope(id, records[id])];
        done := done[id := records[id]];
        rest := rest - {id};
      }
    }

    method Pull(token: string, since: nat, now: int) returns (reply: Reply)
      requires Valid()
      modifies this
      ensures Valid() && View() == Next(old(View()), Op.Pull(token, since), now)
      ensures Replies(old(View()), Op.Pull(token, since), now, reply)
    {
      StepKeepsInv(View(), Op.Pull(token, since), now);
      if !hasSchema || tokenHash != token {
        return Status(404);
      }
      var limited := RateLimited(now);
      if limited {
        return Status(429);
      }
      var rows := Select(since);
      Touch(false, now);
      return Pulled(rows, latestSeq);
    }

    // --- Push ---

    /** The stored rows of the items, read before anything is decided. */
    method Existing(items: seq<PushItem>) returns (existing: Table)
      ensures forall item :: item in items ==> (item.idHash in existing <==> item.idHash in records)
      ensures forall id :: id in existing ==> id in records && existing[id] == records[id]
    {
      existing := map[];
      for i := 0 to |items|
        invariant forall item :: item in items[..i] ==> (item.idHash in existing <==> item.idHash in records)
        invariant forall id :: id in existing ==> id in records && existing[id] == records[id]
      {
        if items[i].idHash in records {
          existing := existing[items[i].idHash := records[items[i].idHash]];
        }
        assert items[..i + 1] == items[..i] + [items[i]];
      }
      assert items[..|items|] == items;
    }

    /** Which items are accepted, and the numbers they get. Writes nothing. */
    method Plan(items: seq<PushItem>, existing: Table) returns (plan: seq<PushResult>, latest: nat)
      requires forall item :: item in items ==> (item.idHash in existing <==> item.idHash in records)
      requires forall id :: id in existing ==> id in records && existing[id] == records[id]
      ensures |plan| == |items| && latest == latestSeq + Rank(records, items)
      ensures forall i :: 0 <= i < |items| ==> plan[i] == ResultAt(records, latestSeq, items, i)
    {
      plan, latest := [], latestSeq;
      for i := 0 to |items|
        invariant |plan| == i && latest == latestSeq + Rank(records, items[..i])
        invariant forall k :: 0 <= k < i ==> plan[k] == ResultAt(records, latestSeq, items, k)
      {
        assert items[..i + 1][..i] == items[..i];
        var item := items[i];
        if item.idHash in existing && existing[item.idHash].seqNo > item.baseSeq {
          plan := plan + [Conflict(Envelope(item.idHash, existing[item.idHash]))];
        } else {
          latest := latest + 1;
          plan := plan + [Accepted(latest)];
        }
      }
      assert items[..|items|] == items;
    }

    method Usage() returns (bytes: nat, count: nat)
      ensures bytes == Bytes(records) && count == |records|
    {
      bytes, count := 0, |records|;
      var rest := records;
      while rest != map[]
        invariant bytes + Bytes(rest) == Bytes(records)
        decreases |rest|
      {
        var id :| id in rest;
        BytesRemove(rest, id);
        bytes := bytes + Size(rest[id]);
        rest := rest - {id};
      }
    }

    /** The quota prediction is exact: counting from the current use, taking off what each
        accepted item replaces and adding what it brings, gives the use after the write. */
    method Predict(items: seq<PushItem>, plan: seq<PushResult>, existing: Table) returns (bytes: int, count: nat)
      requires DistinctIds(items) && |plan| == |items|
      requires forall i :: 0 <= i < |items| ==> plan[i] == ResultAt(records, latestSeq, items, i)
      requires forall item :: item in items ==> (item.idHash in existing <==> item.idHash in records)
      requires forall id :: id in existing ==> id in records && existing[id] == records[id]
      ensures bytes == Bytes(Written(records, latestSeq, items))
      ensures count == |Written(records, latestSeq, items)|
    {
      bytes, count := Usage();
      for i := 0 to |items|
        invariant bytes == Bytes(Written(records, latestSeq, items[..i]))
        invariant count == |Written(records, latestSeq, items[..i])|
      {
        assert items[..i + 1][..i] == items[..i];
        if plan[i].Accepted? {
          var item := items[i];
          PredictStep(records, latestSeq, items, i);
          if item.idHash in existing {
            bytes := bytes - Size(existing[item.idHash]);
          } else {
            count := count + 1;
          }
          bytes := bytes + |item.ciphertext| + |item.nonce|;
        }
      }
      assert items[..|items|] == items;
    }

    /** Everything a push computes before its first write. */
    method Prepare(items: seq<PushItem>) returns (plan: seq<PushResult>, latest: nat, bytes: int, count: nat)
      requires DistinctIds(items)
      ensures |plan| == |items| && latest == latestSeq + Rank(records, items)
      ensures forall i :: 0 <= i < |items| ==> plan[i] == ResultAt(records, latestSeq, items, i)
      ensures bytes == Bytes(Written(records, latestSeq, items)) && count == |Written(records, latestSeq, items)|
    {
      var existing := Existing(items);
      plan, latest := Plan(items, existing);
      bytes, count := Predict(items, plan, existing);
    }

    method WriteRows(items: seq<PushItem>, plan: seq<PushResult>)
      requires |plan| == |items|
      requires forall i :: 0 <= i < |items| ==> plan[i] == ResultAt(records, latestSeq, items, i)
      modifies this`records
      ensures records == Written(old(records), latestSeq, items)
    {
      for i := 0 to |items|
        invariant records == Written(old(records), latestSeq, items[..i])
      {
        assert items[..i + 1][..i] == items[..i];
        if plan[i].Accepted? {
          records := records[items[i].idHash := RowOf(items[i], plan[i].seqNo)];
        }
      }
      assert items[..|items|] == items;
    }

    /** The body of an authorized push: all of the batch is written, or, over quota, none of it. */
    method Commit(items: seq<PushItem>, now: int) returns (reply: Reply)
      requires hasSchema && DistinctIds(items)
      modifies this
      ensures var t, latest := old(records), old(latestSeq);
              var t' := Written(t, latest, items);
              if !WithinQuota(t') then reply == Status(413) && View() == old(View())
              else
                && reply.Pushed? && |reply.results| == |items| && reply.latestSeq == latest + Rank(t, items)
                && (forall i :: 0 <= i < |items| ==> reply.results[i] == ResultAt(t, latest, items, i))
                && View() == Touched(
                     old(View()).(store := old(View()).store.(records := t', latestSeq := latest + Rank(t, items))), now, true)
    {
      var plan, latest, bytes, count := Prepare(items);
      if bytes > MAX_CHAIN_BYTES || count > MAX_CHAIN_RECORDS {
        return Status(413);
      }
      WriteRows(items, plan);
      latestSeq := latest;
      Touch(true, now);
      return Pushed(plan, latest);
    }

    method Push(token: string, items: seq<PushItem>, now: int) returns (reply: Reply)
      requires Valid() && DistinctIds(items)
      modifies this
      ensures Valid() && View() == Next(old(View()), Op.Push(token, items), now)
      ensures Replies(old(View()), Op.Push(token, items), now, reply)
    {
      StepKeepsInv(View(), Op.Push(token, items), now);
      if !hasSchema || tokenHash != token {
        return Status(404);
      }
      var limited := RateLimited(now);
      if limited {
        return Status(429);
      }
      if frozen {
        return Status(409);
      }
      reply := Commit(items, now);
    }

    method Freeze(token: string, now: int) returns (reply: Reply)
      requires Valid()
      modifies this
      ensures Valid() && View() == Next(old(View()), Op.Freeze(token), now)
      ensures Replies(old(View()), Op.Freeze(token), now, reply)
    {
      StepKeepsInv(View(), Op.Freeze(token), now);
      if !hasSchema || tokenHash != token {
        return Status(404);
      }
      var limited := RateLimited(now);
      if limited {
        return Status(429);
      }
      frozen := true;
      return Status(204);
    }

    method Destroy(token: string, now: int) returns (reply: Reply)
      requires Valid()
      modifies this
      ensures Valid() && View() == Next(old(View()), Op.Destroy(token), now)
      ensures Replies(old(View()), Op.Destroy(token), now, reply)
    {
      StepKeepsInv(View(), Op.Destroy(token), now);
      if !hasSchema || tokenHash != token {
        return Status(404);
      }
      var limited := RateLimited(now);
      if limited {
        return Status(429);
      }
      if frozen {
        records := map[];
        return Status(204);
      }
      DeleteAll();
      return Status(204);
    }

    method OnAlarm(now: int)
      requires Valid()
      modifies this
      ensures Valid() && View() == Next(old(View()), Op.Alarm, now)
    {
      DeleteAll();
    }
  }

  lemma {:induction false} LowestExists(t: Table, ids: set<string>)
    requires ids != {} && ids <= t.Keys
    ensures exists id :: id in ids && forall other :: other in ids ==> t[id].seqNo <= t[other].seqNo
    decreases |ids|
  {
    var some :| some in ids;
    var rest := ids - {some};
    if rest == {} {
      assert ids == {some};
    } else {
      LowestExists(t, rest);
      var low :| low in rest && forall other :: other in rest ==> t[low].seqNo <= t[other].seqNo;
      var least := if t[some].seqNo < t[low].seqNo then some else low;
      assert forall other :: other in ids ==> other == some || other in rest;
      assert least in ids && forall other :: other in ids ==> t[least].seqNo <= t[other].seqNo;
    }
  }

  /** `done` and `rest` share out the rows above `since`, the lower numbers to `done`. */
  ghost predicate Selecting(t: Table, since: nat, done: Table, rest: set<string>) {
    && (forall id :: id in rest ==> id in t && t[id].seqNo > since && id !in done)
    && (forall id :: id in done ==> id in t && done[id] == t[id])
    && (forall id :: id in t && t[id].seqNo > since ==> id in done || id in rest)
    && (forall id, other :: id in done && other in rest ==> done[id].seqNo < t[other].seqNo)
  }

  lemma SelectingNext(t: Table, latest: nat, since: nat, done: Table, rest: set<string>, id: string)
    requires Selecting(t, since, done, rest) && Numbered(t, latest)
    requires id in rest && forall other :: other in rest ==> t[id].seqNo <= t[other].seqNo
    ensures Selecting(t, since, done[id := t[id]], rest - {id})
  {
  }

  /** Appending the row with the next higher number extends a selection. */
  lemma SelectNext(done: Table, since: nat, rows: seq<Envelope>, id: string, row: Row)
    requires IsSelection(done, since, rows) && id !in done && row.seqNo > since
    requires forall other :: other in done ==> done[other].seqNo < row.seqNo
    ensures IsSelection(done[id := row], since, rows + [Envelope(id, row)])
  {
    forall e
      ensures e in rows + [Envelope(id, row)] <==>
              e.idHash in done[id := row] && done[id := row][e.idHash] == e.row && e.row.seqNo > since
    {
      assert e in rows + [Envelope(id, row)] <==> e in rows || e == Envelope(id, row);
    }
  }

  const MAX_ITEMS_PER_PUSH: nat := 200
  const MAX_RECORD_BYTES: nat := 65_536

  /** POST /v1/chains/{id}/records after the body is parsed: what the worker refuses itself, and
      otherwise the chain's own step. A batch reaches the chain only with distinct ids. */
  method PostRecords(chain: ChainStore, token: string, items: seq<PushItem>, now: int) returns (reply: Reply)
    requires chain.Valid()
    modifies chain
    ensures chain.Valid()
    ensures if items == [] || |items| > 200 || !DistinctIds(items) then
              reply == Status(400) && chain.View() == old(chain.View())
            else if exists item :: item in items && |item.ciphertext| > 65_536 then
              reply == Status(413) && chain.View() == old(chain.View())
            else
              && chain.View() == Next(old(chain.View()), Push(token, items), now)
              && Replies(old(chain.View()), Push(token, items), now, reply)
  {
    if items == [] || |items| > MAX_ITEMS_PER_PUSH {
      return Status(400);
    }
    var ids := seq(|items|, i requires 0 <= i < |items| => items[i].idHash);
    NoRepeatsIffDistinct(ids);
    if !NoRepeats(ids) {
      assert !DistinctIds(items);
      return Status(400);
    }
    assert DistinctIds(items) by {
      assert forall i :: 0 <= i < |items| ==> ids[i] == items[i].idHash;
    }
    if exists item :: item in items && |item.ciphertext| > MAX_RECORD_BYTES {
      return Status(413);
    }
    reply := chain.Push(token, items, now);
  }
}
