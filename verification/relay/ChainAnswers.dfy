/** What a chain answers and keeps, said through the fields of rows, requests and answers alone:
    whose requests it serves, what it makes of an item, and what a later pull brings back.
 */
module ChainAnswers {
  import opened Values
  import opened FixedWindow
  import opened ChainModel
  import opened ChainRuns

  // --- Who is served ---

  predicate IsRequest(op: Op) {
    !op.Alarm? && !op.Evict?
  }

  /** A request with another token than the stored one, or to a chain that does not exist and is not
      being created, is answered 404 and leaves everything as it is, the minute window included. Any
      other request is not answered 404. */
  lemma ServedIff(r: Run, k: nat)
    requires IsRun(r) && k < |r.steps| && IsRequest(r.steps[k].op)
    ensures var s, step := r.states[k], r.steps[k];
            && (step.reply == Status(404) <==> !Served(s, step.op))
            && (!Served(s, step.op) ==> r.states[k + 1] == s)
  {
    StepOf(r, k);
  }

  /** A created chain gets the token and the time of the PUT that was answered 201. */
  lemma CreatedWith(s: State, step: Step, s': State)
    requires IsStep(s, step, s') && s.store.Absent? && s'.store.Present?
    ensures step.op.Create? && step.reply == Status(201)
    ensures s'.store == Present(step.op.token, 0, false, step.now, map[])
  {
  }

  lemma StepKeepsToken(s: State, step: Step, s': State)
    requires IsStep(s, step, s') && s.store.Present? && s'.store.Present?
    ensures s'.store.tokenHash == s.store.tokenHash && s'.store.createdAt == s.store.createdAt
    ensures s.store.frozen ==> s'.store.frozen
  {
  }

  /** Every chain there is goes back to one PUT answered 201, whose token and time it keeps all its
      lifetime. */
  lemma {:induction false} TokenOfLifetime(r: Run, k: nat) returns (i: nat)
    requires IsRun(r) && k <= |r.steps| && r.states[0].store.Absent? && r.states[k].store.Present?
    ensures i < k && r.steps[i].op.Create? && r.steps[i].reply == Status(201) && OneLifetime(r, i + 1, k)
    ensures r.states[k].store.tokenHash == r.steps[i].op.token && r.states[k].store.createdAt == r.steps[i].now
  {
    StepOf(r, k - 1);
    if r.states[k - 1].store.Absent? {
      i := k - 1;
      CreatedWith(r.states[k - 1], r.steps[k - 1], r.states[k]);
    } else {
      i := TokenOfLifetime(r, k - 1);
      StepKeepsToken(r.states[k - 1], r.steps[k - 1], r.states[k]);
    }
  }

  // --- What is answered ---

  /** Served, and not the 121st or later request of its minute. */
  ghost predicate Admitted(s: State, op: Op, now: int)
    requires IsRequest(op)
  {
    && Served(s, op) && Charge(s.minute, now, 1, 60_001).count <= 120
  }

  ghost predicate Served(s: State, op: Op)
    requires IsRequest(op)
  {
    if s.store.Present? then s.store.tokenHash == op.token else op.Create?
  }

  /** A served request is answered 429 exactly beyond 120; an admitted PUT 201 or 200, as the chain is
      new or not; an admitted pull and an admitted freeze or DELETE always succeed. */
  lemma AdmittedIsAnswered(r: Run, k: nat)
    requires IsRun(r) && k < |r.steps| && IsRequest(r.steps[k].op)
    ensures var s, step := r.states[k], r.steps[k];
            && (step.reply == Status(429) <==> Served(s, step.op) && !Admitted(s, step.op, step.now))
            && (Admitted(s, step.op, step.now) ==>
                  && (step.op.Create? ==> step.reply == Status(if s.store.Absent? then 201 else 200))
                  && (step.op.Pull? ==> step.reply.Pulled?)
                  && (step.op.Freeze? || step.op.Destroy? ==> step.reply == Status(204)))
  {
    StepOf(r, k);
  }

  /** An admitted push is answered 409 exactly if the chain is frozen, and otherwise 413 exactly if the
      table it would leave exceeds 1,048,576 bytes or 4096 rows; a refused one leaves every row. */
  lemma PushIsAnswered(r: Run, k: nat)
    requires IsRun(r) && k < |r.steps| && r.steps[k].op.Push? && Admitted(r.states[k], r.steps[k].op, r.steps[k].now)
    ensures var s, step, s' := r.states[k], r.steps[k], r.states[k + 1];
            var t := Written(s.store.records, s.store.latestSeq, step.op.items);
            && s'.store.Present?
            && (step.reply == Status(409) <==> s.store.frozen)
            && (step.reply == Status(413) <==> !s.store.frozen && (Bytes(t) > 1_048_576 || |t| > 4096))
            && (step.reply.Pushed? || (step.reply in {Status(409), Status(413)} && s'.store == s.store))
  {
    StepOf(r, k);
  }

  /** A refused request changes nothing that is stored. */
  lemma RefusedChangesNothing(r: Run, k: nat)
    requires IsRun(r) && k < |r.steps| && r.steps[k].reply in {Status(404), Status(409), Status(413), Status(429)}
    requires IsRequest(r.steps[k].op)
    ensures r.states[k + 1].store == r.states[k].store && r.states[k + 1].alarm == r.states[k].alarm
  {
    StepOf(r, k);
  }

  /** A DELETE takes the rows of a frozen chain and leaves the rest; of any other chain, and of every
      chain when the idle alarm goes off, it leaves nothing that was stored. A freeze only freezes. */
  lemma Endings(r: Run, k: nat)
    requires IsRun(r) && k < |r.steps|
    ensures var s, step, s' := r.states[k], r.steps[k], r.states[k + 1];
            && (step.op.Alarm? ==> s'.store.Absent? && s'.alarm.None? && s'.minute == s.minute)
            && (step.op.Evict? ==> s'.store == s.store && s'.alarm == s.alarm && s'.minute == Window(0, 0))
            && (Deletes(step) ==> s.store.Present?)
            && (Deletes(step) && !s.store.frozen ==> s'.store.Absent? && s'.alarm.None?)
            && (Deletes(step) && s.store.frozen ==>
                  && s'.store == Present(s.store.tokenHash, s.store.latestSeq, true, s.store.createdAt, map[])
                  && s'.alarm == s.alarm)
            && (step.op.Freeze? && step.reply == Status(204) ==>
                  && s.store.Present? && s'.alarm == s.alarm
                  && s'.store ==
                     Present(s.store.tokenHash, s.store.latestSeq, true, s.store.createdAt, s.store.records))
  {
    StepOf(r, k);
  }

  /** Every reachable table keeps both quotas. */
  lemma QuotasHold(r: Run, k: nat)
    requires IsSoundRun(r) && k <= |r.steps| && r.states[k].store.Present?
    ensures Bytes(r.states[k].store.records) <= 1_048_576 && |r.states[k].store.records| <= 4096
  {
    RunKeepsInv(r, k);
  }

  // --- What becomes of an item ---

  /** The row holds what the item brought, under this number. */
  predicate Holds(row: Row, item: PushItem, seqNo: nat) {
    && row.kind == item.kind && row.nonce == item.nonce && row.ciphertext == item.ciphertext
    && row.deleted == item.deleted && row.seqNo == seqNo
  }

  /** An item is refused exactly if its record is stored under a number above its base number; the
      answer then carries the stored row. */
  lemma ItemIsAnswered(r: Run, j: nat, m: nat)
    requires IsRun(r) && j < |r.steps| && Answers(r.steps[j], m)
    ensures r.states[j].store.Present?
    ensures var t, item, answer := r.states[j].store.records, r.steps[j].op.items[m], r.steps[j].reply.results[m];
            if item.idHash in t && t[item.idHash].seqNo > item.baseSeq then
              answer == Conflict(Envelope(item.idHash, t[item.idHash]))
            else answer.Accepted?
  {
    StepOf(r, j);
  }

  /** After the step that accepts an item, the row under its id holds, field by field, what the item
      brought, under the number that was answered. */
  lemma AcceptedIsStored(r: Run, j: nat, m: nat)
    requires IsRun(r) && j < |r.steps| && Answers(r.steps[j], m) && r.steps[j].reply.results[m].Accepted?
    ensures r.states[j + 1].store.Present?
    ensures var t, item := r.states[j + 1].store.records, r.steps[j].op.items[m];
            item.idHash in t && Holds(t[item.idHash], item, r.steps[j].reply.results[m].seqNo)
  {
    StepOf(r, j);
    WrittenAt(r.states[j].store.records, r.states[j].store.latestSeq, r.steps[j].op.items, m);
  }

  lemma {:induction false} RankGrows(t: Table, items: seq<PushItem>, a: nat, b: nat)
    requires a <= b <= |items|
    ensures Rank(t, items[..a]) <= Rank(t, items[..b])
    ensures a < b && Accepts(t, items[b - 1]) ==> Rank(t, items[..a]) < Rank(t, items[..b])
  {
    if a < b {
      RankGrows(t, items, a, b - 1);
      assert items[..b][..b - 1] == items[..b - 1];
    }
  }

  function CountAccepted(results: seq<PushResult>): nat {
    if results == [] then 0 else
      CountAccepted(results[..|results| - 1]) + (if results[|results| - 1].Accepted? then 1 else 0)
  }

  lemma {:induction false} RankCounts(t: Table, latest: nat, items: seq<PushItem>, results: seq<PushResult>, n: nat)
    requires |results| == |items| && n <= |items|
    requires forall i :: 0 <= i < |items| ==> results[i] == ResultAt(t, latest, items, i)
    ensures CountAccepted(results[..n]) == Rank(t, items[..n])
  {
    if n > 0 {
      RankCounts(t, latest, items, results, n - 1);
      assert items[..n][..n - 1] == items[..n - 1] && results[..n][..n - 1] == results[..n - 1];
      assert results[n - 1] == ResultAt(t, latest, items, n - 1);
    }
  }

  /** Numbers are given without gaps: an accepted item gets the latest number plus how many items were
      accepted up to it, and the latest number grows by how many were accepted in all. */
  lemma NumbersHaveNoGaps(r: Run, j: nat, m: nat)
    requires IsRun(r) && j < |r.steps| && Answers(r.steps[j], m)
    ensures r.states[j].store.Present? && r.states[j + 1].store.Present?
    ensures var latest, results := r.states[j].store.latestSeq, r.steps[j].reply.results;
            && (results[m].Accepted? ==> results[m].seqNo == latest + CountAccepted(results[..m + 1]))
            && r.states[j + 1].store.latestSeq == latest + CountAccepted(results)
  {
    StepOf(r, j);
    var s, items, results := r.states[j].store, r.steps[j].op.items, r.steps[j].reply.results;
    RankCounts(s.records, s.latestSeq, items, results, m + 1);
    RankCounts(s.records, s.latestSeq, items, results, |items|);
    assert items[..|items|] == items && results[..|items|] == results;
  }

  /** Accepted items are numbered in their order, above the latest number before the push and up to
      the one after it. */
  lemma NumbersAscend(r: Run, j: nat, m: nat, n: nat)
    requires IsRun(r) && j < |r.steps| && Answers(r.steps[j], m) && Answers(r.steps[j], n) && m <= n
    requires r.steps[j].reply.results[m].Accepted? && r.steps[j].reply.results[n].Accepted?
    ensures r.states[j].store.Present? && r.states[j + 1].store.Present?
    ensures var results := r.steps[j].reply.results;
            && r.states[j].store.latestSeq < results[m].seqNo && results[n].seqNo <= r.states[j + 1].store.latestSeq
            && r.states[j + 1].store.latestSeq == r.steps[j].reply.latestSeq
            && (m < n ==> results[m].seqNo < results[n].seqNo)
  {
    StepOf(r, j);
    var t, items := r.states[j].store.records, r.steps[j].op.items;
    assert items[..|items|] == items;
    RankGrows(t, items, 0, m + 1);
    RankGrows(t, items, m + 1, n + 1);
    RankGrows(t, items, n + 1, |items|);
  }

  /** The step accepts an item for this record. */
  ghost predicate AcceptsFor(step: Step, id: string) {
    exists m: nat :: Answers(step, m) && step.op.items[m].idHash == id && step.reply.results[m].Accepted?
  }

  lemma RowStays(s: State, step: Step, s': State, id: string)
    requires IsStep(s, step, s') && s.store.Present? && s'.store.Present? && id in s.store.records
    requires !Deletes(step) && !AcceptsFor(step, id)
    ensures id in s'.store.records && s'.store.records[id] == s.store.records[id]
  {
    if step.op.Push? && Code(s, step.op, step.now) == 200 {
      var t, latest, items := s.store.records, s.store.latestSeq, step.op.items;
      if m :| 0 <= m < |items| && items[m].idHash == id {
        assert Answers(step, m);
        WrittenAt(t, latest, items, m);
      } else {
        WrittenElsewhere(t, latest, items, id);
      }
    }
  }

  lemma {:induction false} RowStaysLong(r: Run, i: nat, k: nat, id: string)
    requires IsRun(r) && i <= k <= |r.steps| && OneLifetime(r, i, k) && id in r.states[i].store.records
    requires forall j :: i <= j < k ==> !Deletes(r.steps[j]) && !AcceptsFor(r.steps[j], id)
    ensures id in r.states[k].store.records && r.states[k].store.records[id] == r.states[i].store.records[id]
  {
    if i < k {
      RowStaysLong(r, i, k - 1, id);
      StepOf(r, k - 1);
      RowStays(r.states[k - 1], r.steps[k - 1], r.states[k], id);
    }
  }

  /** What is pushed is what is pulled. Within one lifetime, as long as no DELETE was answered and no
      other item was accepted for its record, an accepted item comes back from every pull from below its
      number, field by field; and it is the only envelope of its record. */
  lemma PulledAsPushed(r: Run, j: nat, m: nat, k: nat)
    requires IsRun(r) && j < k < |r.steps| && OneLifetime(r, j + 1, k)
    requires Answers(r.steps[j], m) && r.steps[j].reply.results[m].Accepted?
    requires forall i :: j < i < k ==> !Deletes(r.steps[i]) && !AcceptsFor(r.steps[i], r.steps[j].op.items[m].idHash)
    requires r.steps[k].op.Pull? && r.steps[k].reply.Pulled? && r.steps[k].op.since < r.steps[j].reply.results[m].seqNo
    ensures var item, n, records := r.steps[j].op.items[m], r.steps[j].reply.results[m].seqNo, r.steps[k].reply.records;
            && (exists e :: e in records && e.idHash == item.idHash)
            && (forall e :: e in records && e.idHash == item.idHash ==> Holds(e.row, item, n))
  {
    var id := r.steps[j].op.items[m].idHash;
    AcceptedIsStored(r, j, m);
    RowStaysLong(r, j + 1, k, id);
    StepOf(r, k);
    assert Envelope(id, r.states[k].store.records[id]) in r.steps[k].reply.records;
  }
}
