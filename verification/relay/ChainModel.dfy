/** One sync chain as a value: its stored rows, metadata, idle alarm and minute window, and what
    each request does to them. Every Durable Object method is one atomic step at a given time.
 */
module ChainModel {
  import opened Values
  import opened FixedWindow

  const MAX_CHAIN_BYTES: nat := 1_048_576
  const MAX_CHAIN_RECORDS: nat := 4096
  const RATE_LIMIT_PER_MINUTE: nat := 120
  const MINUTE_WIDTH: nat := 60_001
  const IDLE_TTL_MS: nat := 180 * 24 * 60 * 60 * 1000
  const TOUCH_INTERVAL_MS: nat := 6 * 60 * 60 * 1000

  datatype Row = Row(kind: string, seqNo: nat, nonce: string, ciphertext: string, deleted: bool)

  datatype Envelope = Envelope(idHash: string, row: Row)

  datatype PushItem = PushItem(
    idHash: string, kind: string, nonce: string, ciphertext: string, deleted: bool, baseSeq: nat)

  datatype PushResult = Accepted(seqNo: nat) | Conflict(current: Envelope)

  /** The records table, by its primary key `id_hash`. */
  type Table = map<string, Row>

  datatype Store =
    | Absent
    | Present(tokenHash: string, latestSeq: nat, frozen: bool, createdAt: int, records: Table)

  datatype State = State(store: Store, alarm: Option<int>, minute: Window)

  datatype Op =
    | Create(token: string)
    | Pull(token: string, since: nat)
    | Push(token: string, items: seq<PushItem>)
    | Freeze(token: string)
    | Destroy(token: string)
    | Alarm    // the idle alarm goes off
    | Evict    // the instance leaves memory; storage stays

  datatype Reply =
    | Status(code: nat)
    | Pulled(records: seq<Envelope>, latestSeq: nat)
    | Pushed(results: seq<PushResult>, latestSeq: nat)

  const INITIAL := State(Absent, None, Window(0, 0))

  // --- Storage use ---

  function Size(row: Row): nat {
    |row.ciphertext| + |row.nonce|
  }

  /** SUM(LENGTH(ciphertext) + LENGTH(nonce)) over the table. */
  ghost function Bytes(t: Table): nat {
    if t == map[] then 0 else
      var id :| id in t;
      Size(t[id]) + Bytes(t - {id})
  }

  lemma {:induction false} BytesRemove(t: Table, id: string)
    requires id in t
    ensures Bytes(t) == Size(t[id]) + Bytes(t - {id})
    decreases |t|
  {
    var first :| first in t && Bytes(t) == Size(t[first]) + Bytes(t - {first});
    if first != id {
      BytesRemove(t - {first}, id);
      BytesRemove(t - {id}, first);
      assert t - {first} - {id} == t - {id} - {first};
    }
  }

  lemma {:induction false} BytesUpdate(t: Table, id: string, row: Row)
    ensures Bytes(t[id := row]) + (if id in t then Size(t[id]) else 0) == Bytes(t) + Size(row)
  {
    var u := t[id := row];
    BytesRemove(u, id);
    if id in t {
      BytesRemove(t, id);
      assert u - {id} == t - {id};
    } else {
      assert u - {id} == t;
    }
  }

  lemma CountUpdate(t: Table, id: string, row: Row)
    ensures |t[id := row]| == |t| + (if id in t then 0 else 1)
  {
    assert t[id := row].Keys == t.Keys + {id};
  }

  ghost predicate WithinQuota(t: Table) {
    Bytes(t) <= MAX_CHAIN_BYTES && |t| <= MAX_CHAIN_RECORDS
  }

  // --- A push, item by item ---

  predicate Accepts(t: Table, item: PushItem) {
    item.idHash !in t || t[item.idHash].seqNo <= item.baseSeq
  }

  /** How many of the items are accepted against the table as it was before the push. */
  function Rank(t: Table, items: seq<PushItem>): nat {
    if items == [] then 0 else
      Rank(t, items[..|items| - 1]) + (if Accepts(t, items[|items| - 1]) then 1 else 0)
  }

  function RowOf(item: PushItem, seqNo: nat): Row {
    Row(item.kind, seqNo, item.nonce, item.ciphertext, item.deleted)
  }

  /** The table after every accepted item is written, numbered from `latest` on. */
  function Written(t: Table, latest: nat, items: seq<PushItem>): Table {
    if items == [] then t else
      var item := items[|items| - 1];
      var before := Written(t, latest, items[..|items| - 1]);
      if Accepts(t, item) then before[item.idHash := RowOf(item, latest + Rank(t, items))] else before
  }

  function ResultAt(t: Table, latest: nat, items: seq<PushItem>, i: nat): PushResult
    requires i < |items|
  {
    if Accepts(t, items[i]) then Accepted(latest + Rank(t, items[..i + 1]))
    else Conflict(Envelope(items[i].idHash, t[items[i].idHash]))
  }

  ghost predicate DistinctIds(items: seq<PushItem>) {
    forall i, j :: 0 <= i < j < |items| ==> items[i].idHash != items[j].idHash
  }

  // --- What a request is answered and what it leaves behind ---

  predicate Authorized(s: State, token: string) {
    s.store.Present? && s.store.tokenHash == token
  }

  function Charged(s: State, now: int): State {
    s.(minute := Charge(s.minute, now, 1, MINUTE_WIDTH))
  }

  predicate Limited(s: State, now: int) {
    Charged(s, now).minute.count > RATE_LIMIT_PER_MINUTE
  }

  function Touched(s: State, now: int, force: bool): State {
    if !force && s.alarm.Some? && s.alarm.value - now >= IDLE_TTL_MS - TOUCH_INTERVAL_MS then s
    else s.(alarm := Some(now + IDLE_TTL_MS))
  }

  /** The status code; 0 for the two events that are not requests. */
  ghost function Code(s: State, op: Op, now: int): nat {
    if op.Alarm? || op.Evict? then 0
    else if !Authorized(s, op.token) && !(op.Create? && s.store.Absent?) then 404
    else if Limited(s, now) then 429
    else if op.Create? then (if s.store.Absent? then 201 else 200)
    else if op.Pull? then 200
    else if op.Push? then
      if s.store.frozen then 409
      else if !WithinQuota(Written(s.store.records, s.store.latestSeq, op.items)) then 413
      else 200
    else 204
  }

  ghost function Next(s: State, op: Op, now: int): State {
    var code := Code(s, op, now);
    var c := Charged(s, now);
    if op.Alarm? then State(Absent, None, s.minute)
    else if op.Evict? then s.(minute := Window(0, 0))
    else if code == 404 then s
    else if code == 429 || code == 409 || code == 413 then c
    else if code == 201 then Touched(c.(store := Present(op.token, 0, false, now, map[])), now, true)
    else if op.Create? then Touched(c, now, true)
    else if op.Pull? then Touched(c, now, false)
    else if op.Push? then
      var t, latest := s.store.records, s.store.latestSeq;
      Touched(c.(store := s.store.(records := Written(t, latest, op.items), latestSeq := latest + Rank(t, op.items))),
              now, true)
    else if op.Freeze? then c.(store := s.store.(frozen := true))
    else if s.store.frozen then c.(store := s.store.(records := map[]))
    else State(Absent, None, c.minute)
  }

  /** SELECT ... WHERE seq > since ORDER BY seq. */
  ghost predicate IsSelection(t: Table, since: nat, rows: seq<Envelope>) {
    && (forall i, j :: 0 <= i < j < |rows| ==> rows[i].row.seqNo < rows[j].row.seqNo)
    && (forall e :: e in rows <==> e.idHash in t && t[e.idHash] == e.row && e.row.seqNo > since)
  }

  ghost predicate Replies(s: State, op: Op, now: int, r: Reply) {
    var code := Code(s, op, now);
    if code == 200 && op.Pull? then
      r.Pulled? && IsSelection(s.store.records, op.since, r.records) && r.latestSeq == s.store.latestSeq
    else if code == 200 && op.Push? then
      var t, latest := s.store.records, s.store.latestSeq;
      && r.Pushed? && |r.results| == |op.items| && r.latestSeq == latest + Rank(t, op.items)
      && forall i :: 0 <= i < |op.items| ==> r.results[i] == ResultAt(t, latest, op.items, i)
    else
      r == Status(code)
  }

  // --- What every reachable chain satisfies ---

  ghost predicate Numbered(t: Table, latest: nat) {
    && (forall id :: id in t ==> 1 <= t[id].seqNo <= latest)
    && (forall id, other :: id in t && other in t && t[id].seqNo == t[other].seqNo ==> id == other)
  }

  ghost predicate Inv(s: State) {
    && (s.store.Present? <==> s.alarm.Some?)
    && (s.store.Present? ==> Numbered(s.store.records, s.store.latestSeq) && WithinQuota(s.store.records))
  }

  lemma NumberedUpdate(t: Table, latest: nat, id: string, row: Row)
    requires Numbered(t, latest) && row.seqNo == latest + 1
    ensures Numbered(t[id := row], latest + 1)
  {
  }

  /** What one push does to the whole table: rows are kept or replaced by newer numbers, never
      removed, and numbers stay unique and at most the new latest one. */
  lemma {:induction false} WrittenIsNewer(t: Table, latest: nat, items: seq<PushItem>)
    requires Numbered(t, latest)
    ensures Numbered(Written(t, latest, items), latest + Rank(t, items))
    ensures t.Keys <= Written(t, latest, items).Keys
    ensures forall id :: id in Written(t, latest, items) ==>
              (id in t && Written(t, latest, items)[id] == t[id]) || latest < Written(t, latest, items)[id].seqNo
  {
    if items != [] {
      var item, most := items[|items| - 1], items[..|items| - 1];
      WrittenIsNewer(t, latest, most);
      if Accepts(t, item) {
        NumberedUpdate(Written(t, latest, most), latest + Rank(t, most), item.idHash,
                       RowOf(item, latest + Rank(t, items)));
      }
    }
  }

  /** The row of one item of a batch with distinct ids, in the table after the push. */
  lemma {:induction false} WrittenAt(t: Table, latest: nat, items: seq<PushItem>, i: nat)
    requires DistinctIds(items) && i < |items|
    ensures var w, id := Written(t, latest, items), items[i].idHash;
            if Accepts(t, items[i]) then id in w && w[id] == RowOf(items[i], latest + Rank(t, items[..i + 1]))
            else id in w && w[id] == t[id]
  {
    var last := |items| - 1;
    if i < last {
      WrittenAt(t, latest, items[..last], i);
      assert items[..last][..i + 1] == items[..i + 1];
    } else {
      assert items[..i + 1] == items;
      WrittenElsewhere(t, latest, items[..last], items[i].idHash);
    }
  }

  /** A push leaves every row alone that it does not name. */
  lemma {:induction false} WrittenElsewhere(t: Table, latest: nat, items: seq<PushItem>, id: string)
    requires forall item :: item in items ==> item.idHash != id
    ensures id in Written(t, latest, items) <==> id in t
    ensures id in t ==> Written(t, latest, items)[id] == t[id]
  {
    if items != [] {
      WrittenElsewhere(t, latest, items[..|items| - 1], id);
    }
  }

  /** What one more accepted item of a batch with distinct ids does to the use of the table. */
  lemma PredictStep(t: Table, latest: nat, items: seq<PushItem>, i: nat)
    requires DistinctIds(items) && i < |items| && Accepts(t, items[i])
    ensures var w, w' := Written(t, latest, items[..i]), Written(t, latest, items[..i + 1]);
            var gone := if items[i].idHash in t then Size(t[items[i].idHash]) else 0;
            && Bytes(w') == Bytes(w) - gone + |items[i].ciphertext| + |items[i].nonce|
            && |w'| == |w| + (if items[i].idHash in t then 0 else 1)
  {
    var w, row := Written(t, latest, items[..i]), RowOf(items[i], latest + Rank(t, items[..i + 1]));
    assert items[..i + 1][..i] == items[..i];
    WrittenElsewhere(t, latest, items[..i], items[i].idHash);
    BytesUpdate(w, items[i].idHash, row);
    CountUpdate(w, items[i].idHash, row);
  }

  /** Every step keeps the invariant: numbering, both quotas, and an alarm exactly while the
      chain exists. */
  lemma StepKeepsInv(s: State, op: Op, now: int)
    requires Inv(s)
    ensures Inv(Next(s, op, now))
  {
    if op.Push? && Code(s, op, now) == 200 {
      WrittenIsNewer(s.store.records, s.store.latestSeq, op.items);
    }
  }
}
