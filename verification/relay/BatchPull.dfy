/** POST /v1/pull: many chains in one request, in order, until the response passes its budget. */
module BatchPulls {
  import FixedWindow
  import opened ChainModel
  import opened ChainStores
  import IpLimiters
  import ChainRuns

  const PULL_RESPONSE_BUDGET: nat := 2 * 1024 * 1024

  datatype PullItem = PullItem(chain: string, tokenHash: string, since: nat)

  datatype Entry =
    | Found(chain: string, records: seq<Envelope>, latestSeq: nat)
    | NotFound(chain: string)
    | RateLimited(chain: string)
    | Deferred(chain: string)

  function EntryOf(item: PullItem, reply: Reply): Entry {
    if reply.Pulled? then Found(item.chain, reply.records, reply.latestSeq)
    else if reply == Status(429) then RateLimited(item.chain)
    else NotFound(item.chain)
  }

  /** The characters the entries take in the response. */
  function Total(entries: seq<Entry>, size: Entry -> nat): nat {
    if entries == [] then 0 else Total(entries[..|entries| - 1], size) + size(entries[|entries| - 1])
  }

  /** How many items were executed: the entries before the first deferred one. */
  function Executed(entries: seq<Entry>): (n: nat)
    ensures n <= |entries| && (n < |entries| ==> entries[n].Deferred?)
    ensures forall i :: 0 <= i < n ==> !entries[i].Deferred?
  {
    if entries == [] || entries[0].Deferred? then 0 else 1 + Executed(entries[1..])
  }

  lemma {:induction false} ExecutedIs(entries: seq<Entry>, n: nat)
    requires n <= |entries| && (n < |entries| ==> entries[n].Deferred?)
    requires forall i :: 0 <= i < n ==> !entries[i].Deferred?
    ensures Executed(entries) == n
  {
    if n > 0 {
      ExecutedIs(entries[1..], n - 1);
    }
  }

  /** An entry that reports the chain's own answer to this item. */
  ghost predicate Reports(s: State, item: PullItem, now: int, s': State, e: Entry) {
    && s' == Next(s, Pull(item.tokenHash, item.since), now)
    && exists reply :: Replies(s, Pull(item.tokenHash, item.since), now, reply) && e == EntryOf(item, reply)
  }

  /** What an entry says, through the chain alone. With the stored token and room in the minute it
      carries the rows above `since`, in order, and the latest number; without room it says so; and with
      another token, or no chain, it says that there is none. */
  lemma EntrySays(s: State, item: PullItem, now: int, s': State, e: Entry)
    requires Reports(s, item, now, s', e)
    ensures if s.store.Absent? || s.store.tokenHash != item.tokenHash then e == NotFound(item.chain) && s' == s
            else if FixedWindow.Charge(s.minute, now, 1, 60_001).count > 120 then e == RateLimited(item.chain)
            else
              && e.Found? && e.chain == item.chain && e.latestSeq == s.store.latestSeq
              && IsSelection(s.store.records, item.since, e.records)
  {
  }

  /** So an entry with rows is the answer of the chain to a pull of its own. */
  lemma EntryIsPull(s: State, item: PullItem, now: int, s': State, e: Entry, client: nat)
    requires Reports(s, item, now, s', e) && e.Found?
    ensures ChainRuns.IsStep(
              s, ChainRuns.Step(client, Pull(item.tokenHash, item.since), now, Pulled(e.records, e.latestSeq)), s')
  {
    EntrySays(s, item, now, s', e);
  }

  /** A replica fed by entries. Let r be all that happened to the item's chain in one lifetime, before
      any answered DELETE, up to the state the item finds. If the item asks from the replica's cursor or
      from further back, overlaying the rows of its entry gives the table, as with a pull of its own. */
  lemma EntryCatchesUp(r: ChainRuns.Run, client: nat, item: PullItem, now: int, s': State, e: Entry)
    requires ChainRuns.IsSoundRun(r) && ChainRuns.OneLifetime(r, 0, |r.steps|)
    requires forall i :: 0 <= i < |r.steps| ==> !ChainRuns.Deletes(r.steps[i])
    requires Reports(r.states[|r.steps|], item, now, s', e) && e.Found?
    requires item.since <= ChainRuns.Follow(r.steps, client).cursor
    ensures s'.store.Present? && e.latestSeq == s'.store.latestSeq
    ensures ChainRuns.Overlay(ChainRuns.Follow(r.steps, client).rows, e.records) == s'.store.records
  {
    var s, k := r.states[|r.steps|], |r.steps|;
    var step := ChainRuns.Step(client, Pull(item.tokenHash, item.since), now, Pulled(e.records, e.latestSeq));
    EntryIsPull(s, item, now, s', e, client);
    assert r.steps[..k] == r.steps;
    ChainRuns.ReplicaConverges(r, client, k);
    ChainRuns.RunKeepsInv(r, k);
    ChainRuns.PullCatchesUp(ChainRuns.Follow(r.steps, client), s, step, s', client);
  }

  /** The shape of every answer: an executed prefix, never empty, and a deferred suffix. */
  ghost predicate PrefixAnswered(items: seq<PullItem>, entries: seq<Entry>) {
    && |entries| == |items| && (items != [] ==> 1 <= Executed(entries))
    && (forall i :: 0 <= i < |items| ==> entries[i].chain == items[i].chain)
    && (forall i :: Executed(entries) <= i < |items| ==> entries[i] == Deferred(items[i].chain))
  }

  /** Every chain by name; a name never used is an object that was never written to. */
  type World = map<string, State>

  function At(w: World, name: string): State {
    if name in w then w[name] else INITIAL
  }

  ghost predicate Sound(w: World) {
    forall name :: name in w ==> Inv(w[name])
  }

  // --- One item at a time ---

  /** An item's turn: when, what it found, what it left and what it answered. Between two turns,
      other requests may have changed any chain. */
  datatype Turn = Turn(item: PullItem, now: int, before: World, after: World, entry: Entry)

  ghost predicate Elsewhere(w: World, w': World, chain: string) {
    forall name :: name != chain ==> At(w', name) == At(w, name)
  }

  /** An executed item takes one step of its own chain and of no other; a deferred one does nothing. */
  ghost predicate IsTurn(t: Turn) {
    if t.entry.Deferred? then t.after == t.before
    else
      && Reports(At(t.before, t.item.chain), t.item, t.now, At(t.after, t.item.chain), t.entry)
      && Elsewhere(t.before, t.after, t.item.chain)
  }

  function After(w: World, turns: seq<Turn>): World {
    if turns == [] then w else turns[|turns| - 1].after
  }

  /** One turn after the other, where `others` says what other requests do before the k-th. */
  ghost predicate Proceeds(w: World, turns: seq<Turn>, others: (nat, World) -> World) {
    turns == [] ||
    var n := |turns| - 1;
    && Proceeds(w, turns[..n], others)
    && turns[n].before == others(n, After(w, turns[..n])) && IsTurn(turns[n])
  }

  /** The turns are those of these items, and the results what they answered. */
  ghost predicate TurnsOf(turns: seq<Turn>, items: seq<PullItem>, nows: seq<int>, results: seq<Entry>) {
    && |turns| == |results| <= |items| == |nows|
    && forall k :: 0 <= k < |turns| ==>
         turns[k].item == items[k] && turns[k].now == nows[k] && turns[k].entry == results[k]
  }

  /** Whatever other requests do, they leave chains that satisfy the invariant. */
  ghost predicate KeepSound(others: (nat, World) -> World) {
    forall k: nat, w: World :: Sound(w) ==> Sound(others(k, w))
  }

  lemma {:induction false} OneMoreTurn(w: World, turns: seq<Turn>, others: (nat, World) -> World, t: Turn)
    requires Proceeds(w, turns, others) && t.before == others(|turns|, After(w, turns)) && IsTurn(t)
    ensures Proceeds(w, turns + [t], others) && After(w, turns + [t]) == t.after
  {
    assert (turns + [t])[..|turns|] == turns;
  }

  /** One item, on the object of its chain. */
  method Ask(s: State, item: PullItem, now: int) returns (s': State, entry: Entry)
    requires Inv(s)
    ensures Inv(s') && !entry.Deferred? && entry.chain == item.chain
    ensures Reports(s, item, now, s', entry)
  {
    var chain := new ChainStore.Load(s);
    var reply := chain.Pull(item.tokenHash, item.since, now);
    s', entry := chain.View(), EntryOf(item, reply);
  }

  /** The same in the world of all chains. */
  method TakeTurn(w: World, item: PullItem, now: int) returns (entry: Entry, w': World)
    requires Sound(w)
    ensures Sound(w') && IsTurn(Turn(item, now, w, w', entry)) && !entry.Deferred? && entry.chain == item.chain
  {
    SoundAt(w, item.chain);
    var s';
    s', entry := Ask(At(w, item.chain), item, now);
    w' := w[item.chain := s'];
  }

  /** The answer so far: `ran` was executed, the rest deferred, within the budget rule. */
  ghost predicate Shape(items: seq<PullItem>, results: seq<Entry>, ran: seq<Entry>, size: Entry -> nat) {
    && |results| <= |items| && ran <= results && (results != [] ==> ran != [])
    && (|ran| < |results| ==> PULL_RESPONSE_BUDGET < Total(ran, size))
    && (ran != [] ==> Total(ran[..|ran| - 1], size) <= PULL_RESPONSE_BUDGET)
    && (forall k :: 0 <= k < |results| ==>
          results[k].chain == items[k].chain && (results[k].Deferred? <==> |ran| <= k))
  }

  lemma ShapeRun(items: seq<PullItem>, ran: seq<Entry>, size: Entry -> nat, e: Entry)
    requires Shape(items, ran, ran, size) && |ran| < |items| && (ran == [] || Total(ran, size) <= PULL_RESPONSE_BUDGET)
    requires e.chain == items[|ran|].chain && !e.Deferred?
    ensures Shape(items, ran + [e], ran + [e], size) && Total(ran + [e], size) == Total(ran, size) + size(e)
  {
    assert (ran + [e])[..|ran|] == ran;
  }

  lemma ShapeDone(items: seq<PullItem>, results: seq<Entry>, ran: seq<Entry>, size: Entry -> nat)
    requires Shape(items, results, ran, size) && |results| == |items|
    ensures PrefixAnswered(items, results) && Executed(results) == |ran|
    ensures items != [] ==> Total(results[..|ran| - 1], size) <= PULL_RESPONSE_BUDGET
    ensures |ran| < |items| ==> PULL_RESPONSE_BUDGET < Total(results[..|ran|], size)
  {
    ExecutedIs(results, |ran|);
    assert results[..|ran|] == ran;
    if ran != [] {
      assert results[..|ran| - 1] == ran[..|ran| - 1];
    }
  }

  /** Results match the items in length and order: an executed prefix and a deferred suffix. The
      executed entries before the last stay within the budget, and an item is deferred only once
      they passed it. */
  ghost predicate IsAnswer(items: seq<PullItem>, results: seq<Entry>, size: Entry -> nat) {
    && PrefixAnswered(items, results)
    && (items != [] ==> Total(results[..Executed(results) - 1], size) <= 2_097_152)
    && (Executed(results) < |items| ==> 2_097_152 < Total(results[..Executed(results)], size))
  }

  lemma ShapeDeferred(items: seq<PullItem>, results: seq<Entry>, ran: seq<Entry>, size: Entry -> nat)
    requires Shape(items, results, ran, size) && results != [] && |results| < |items|
    requires PULL_RESPONSE_BUDGET < Total(ran, size)
    ensures Shape(items, results + [Deferred(items[|results|].chain)], ran, size)
  {
  }

  lemma SoundAt(w: World, name: string)
    requires Sound(w)
    ensures Inv(At(w, name))
  {
  }

  /** Where the request stands: turns taken, results so far, of which `ran` was executed. */
  ghost predicate Standing(
    w: World, turns: seq<Turn>, others: (nat, World) -> World, items: seq<PullItem>, nows: seq<int>, results: seq<Entry>,
    ran: seq<Entry>, size: Entry -> nat)
  {
    Proceeds(w, turns, others) && TurnsOf(turns, items, nows, results) && Shape(items, results, ran, size)
  }

  lemma TurnsOfOneMore(turns: seq<Turn>, items: seq<PullItem>, nows: seq<int>, results: seq<Entry>, t: Turn)
    requires TurnsOf(turns, items, nows, results) && |turns| < |items|
    requires t.item == items[|turns|] && t.now == nows[|turns|]
    ensures TurnsOf(turns + [t], items, nows, results + [t.entry])
  {
  }

  lemma StandingDeferred(
    w: World, turns: seq<Turn>, others: (nat, World) -> World, items: seq<PullItem>, nows: seq<int>, results: seq<Entry>,
    ran: seq<Entry>, size: Entry -> nat, t: Turn)
    requires Standing(w, turns, others, items, nows, results, ran, size)
    requires results != [] && |results| < |items| && PULL_RESPONSE_BUDGET < Total(ran, size)
    requires t.item == items[|turns|] && t.now == nows[|turns|] && t.before == others(|turns|, After(w, turns))
    requires t.after == t.before && t.entry == Deferred(t.item.chain)
    ensures Standing(w, turns + [t], others, items, nows, results + [t.entry], ran, size)
    ensures After(w, turns + [t]) == t.after
  {
    ShapeDeferred(items, results, ran, size);
    TurnsOfOneMore(turns, items, nows, results, t);
    OneMoreTurn(w, turns, others, t);
  }

  lemma StandingRan(
    w: World, turns: seq<Turn>, others: (nat, World) -> World, items: seq<PullItem>, nows: seq<int>, ran: seq<Entry>,
    size: Entry -> nat, t: Turn)
    requires Standing(w, turns, others, items, nows, ran, ran, size)
    requires |ran| < |items| && (ran == [] || Total(ran, size) <= PULL_RESPONSE_BUDGET)
    requires t.item == items[|turns|] && t.now == nows[|turns|] && t.before == others(|turns|, After(w, turns))
    requires IsTurn(t) && !t.entry.Deferred? && t.entry.chain == t.item.chain
    ensures Standing(w, turns + [t], others, items, nows, ran + [t.entry], ran + [t.entry], size)
    ensures After(w, turns + [t]) == t.after && Total(ran + [t.entry], size) == Total(ran, size) + size(t.entry)
  {
    ShapeRun(items, ran, size, t.entry);
    TurnsOfOneMore(turns, items, nows, ran, t);
    OneMoreTurn(w, turns, others, t);
  }

  /** One request, item after item, each taking its turn, whatever it finds. */
  method BatchPull(w: World, items: seq<PullItem>, nows: seq<int>, others: (nat, World) -> World, size: Entry -> nat)
    returns (results: seq<Entry>, w': World, ghost turns: seq<Turn>)
    requires Sound(w) && KeepSound(others) && |nows| == |items|
    ensures Sound(w') && IsAnswer(items, results, size)
    ensures Proceeds(w, turns, others) && w' == After(w, turns) && TurnsOf(turns, items, nows, results)
  {
    results, w', turns := [], w, [];
    var used := 0;
    ghost var ran := [];
    for i := 0 to |items|
      invariant |results| == |turns| == i && Standing(w, turns, others, items, nows, results, ran, size)
      invariant w' == After(w, turns) && Sound(w') && used == Total(ran, size)
      invariant ran == results || PULL_RESPONSE_BUDGET < used
    {
      var item := items[i];
      w' := others(i, w');
      if results != [] && used > PULL_RESPONSE_BUDGET {
        ghost var turn := Turn(item, nows[i], w', w', Deferred(item.chain));
        StandingDeferred(w, turns, others, items, nows, results, ran, size, turn);
        turns := turns + [turn];
        results := results + [Deferred(item.chain)];
      } else {
        var entry, w'' := TakeTurn(w', item, nows[i]);
        ghost var turn := Turn(item, nows[i], w', w'', entry);
        StandingRan(w, turns, others, items, nows, results, size, turn);
        turns := turns + [turn];
        w' := w'';
        used := used + size(entry);
        results := results + [entry];
        ran := results;
      }
    }
    ShapeDone(items, results, ran, size);
  }

  // --- With nothing in between ---

  ghost predicate DistinctChains(items: seq<PullItem>) {
    forall i, j :: 0 <= i < j < |items| ==> items[i].chain != items[j].chain
  }

  ghost predicate DistinctTurns(turns: seq<Turn>) {
    forall i, j :: 0 <= i < j < |turns| ==> turns[i].item.chain != turns[j].item.chain
  }

  /** The item's chain made its step from its state before the request, or, deferred, is as it was. */
  ghost predicate RanFrom(w: World, w': World, t: Turn) {
    if t.entry.Deferred? then At(w', t.item.chain) == At(w, t.item.chain)
    else Reports(At(w, t.item.chain), t.item, t.now, At(w', t.item.chain), t.entry)
  }

  lemma TurnElsewhere(t: Turn, name: string)
    requires IsTurn(t) && name != t.item.chain
    ensures At(t.after, name) == At(t.before, name)
  {
  }

  /** With no other request in between, chains that are not named are as they were. */
  lemma {:induction false} UnnamedUntouched(w: World, turns: seq<Turn>, name: string)
    requires Proceeds(w, turns, (_, v) => v) && forall k :: 0 <= k < |turns| ==> turns[k].item.chain != name
    ensures At(After(w, turns), name) == At(w, name)
  {
    if turns != [] {
      var n := |turns| - 1;
      UnnamedUntouched(w, turns[..n], name);
      TurnElsewhere(turns[n], name);
    }
  }

  /** And if the chains are different, every executed item reports what its chain answered in the
      state before the request, and the chains of deferred items are as they were. */
  lemma {:induction false} QuietBatch(w: World, turns: seq<Turn>, k: nat)
    requires Proceeds(w, turns, (_, v) => v) && DistinctTurns(turns) && k < |turns|
    ensures RanFrom(w, After(w, turns), turns[k])
  {
    var n := |turns| - 1;
    if k == n {
      UnnamedUntouched(w, turns[..n], turns[n].item.chain);
    } else {
      QuietBatch(w, turns[..n], k);
      TurnElsewhere(turns[n], turns[k].item.chain);
    }
  }

  // --- The whole request ---

  /** What the body turned out to be: over 65,536 bytes, no JSON array of pull items, or items. */
  datatype Body = TooLarge | NoItems | Items(items: seq<PullItem>)

  datatype PullReply = Refused(code: nat) | Results(entries: seq<Entry>)

  ghost predicate Acceptable(body: Body) {
    body.Items? && 0 < |body.items| <= IpLimiters.MAX_PULL_ITEMS && DistinctChains(body.items)
  }

  /** What a request costs: a malformed one is charged as a request only. */
  ghost function ChargesOf(body: Body): seq<IpLimiters.Charged> {
    var request := IpLimiters.Charged(IpLimiters.Request, 1);
    if Acceptable(body) then [request, IpLimiters.Charged(IpLimiters.Pull, |body.items|)] else [request]
  }

  /** A well-formed batch is charged for one request and for each of its items, any other body for one
      request; nothing is charged as a creation. */
  lemma ChargesAre(body: Body)
    ensures IpLimiters.CostOf(ChargesOf(body), IpLimiters.Request) == 1
    ensures IpLimiters.CostOf(ChargesOf(body), IpLimiters.Create) == 0
    ensures IpLimiters.CostOf(ChargesOf(body), IpLimiters.Pull) ==
            if body.Items? && 0 < |body.items| <= 64 && DistinctChains(body.items) then |body.items| else 0
    ensures IpLimiters.IsWorkerCharge(ChargesOf(body))
  {
    var charges, one := ChargesOf(body), [IpLimiters.Charged(IpLimiters.Request, 1)];
    assert one[..0] == [];
    assert forall b: IpLimiters.Bucket :: IpLimiters.CostOf(one, b) == if b.Request? then 1 else 0;
    if |charges| == 2 {
      assert charges[..|charges| - 1] == one;
    }
  }

  /** The error to answer, or 0. */
  method CheckBody(body: Body) returns (code: nat)
    ensures code == if body.TooLarge? then 413 else if !Acceptable(body) then 400 else 0
  {
    match body
    case TooLarge => code := 413;
    case NoItems => code := 400;
    case Items(items) =>
      var names := seq(|items|, i requires 0 <= i < |items| => items[i].chain);
      NoRepeatsIffDistinct(names);
      assert forall i :: 0 <= i < |items| ==> names[i] == items[i].chain;
      code := if 0 < |items| <= IpLimiters.MAX_PULL_ITEMS && NoRepeats(names) then 0 else 400;
  }

  /** The limiter is asked once, whatever the body, and its refusal comes first; a refused request
      touches no chain. */
  method PostPull(
      limiter: IpLimiters.IpLimiter, w: World, body: Body, now: int, nows: seq<int>, others: (nat, World) -> World,
      size: Entry -> nat)
    returns (reply: PullReply, w': World, ghost turns: seq<Turn>)
    requires Sound(w) && KeepSound(others) && (body.Items? ==> |nows| == |body.items|)
    modifies limiter
    ensures limiter.View() == IpLimiters.Charge1(old(limiter.View()), ChargesOf(body), now)
    ensures var allowed := IpLimiters.Allows(IpLimiters.Filled(old(limiter.windows)), ChargesOf(body), now);
            if !allowed then reply == Refused(429) && w' == w
            else if body.TooLarge? then reply == Refused(413) && w' == w
            else if !Acceptable(body) then reply == Refused(400) && w' == w
            else
              && reply.Results? && Sound(w') && IsAnswer(body.items, reply.entries, size)
              && Proceeds(w, turns, others) && w' == After(w, turns)
              && TurnsOf(turns, body.items, nows, reply.entries)
  {
    var code := CheckBody(body);
    var charges := [IpLimiters.Charged(IpLimiters.Request, 1)];
    if code == 0 {
      charges := charges + [IpLimiters.Charged(IpLimiters.Pull, |body.items|)];
    }
    assert charges == ChargesOf(body);
    var allowed := limiter.AllowMany(charges, now);
    w', turns := w, [];
    if !allowed {
      return Refused(429), w', turns;
    }
    if code != 0 {
      return Refused(code), w', turns;
    }
    var results: seq<Entry>;
    results, w', turns := BatchPull(w, body.items, nows, others, size);
    reply := Results(results);
  }

  // --- Asking again for the deferred items ---

  datatype Round = Round(items: seq<PullItem>, executed: nat)

  /** The round got an answer of the shape every answer has. */
  ghost predicate Answered(r: Round) {
    r.items != [] && exists entries :: PrefixAnswered(r.items, entries) && r.executed == Executed(entries)
  }

  /** Each round gets an answer, and the next one asks for exactly the items it deferred. */
  ghost predicate Resubmits(rounds: seq<Round>) {
    && (forall r :: 0 <= r < |rounds| ==> Answered(rounds[r]))
    && (forall r, q :: 0 <= r < q < |rounds| && q == r + 1 ==> rounds[q].items == rounds[r].items[rounds[r].executed..])
  }

  /** The items executed over all rounds, in order. */
  function ExecutedItems(rounds: seq<Round>): seq<PullItem>
    requires forall r :: 0 <= r < |rounds| ==> rounds[r].executed <= |rounds[r].items|
  {
    if rounds == [] then [] else
      var last := rounds[|rounds| - 1];
      ExecutedItems(rounds[..|rounds| - 1]) + last.items[..last.executed]
  }

  lemma Rejoined(before: seq<PullItem>, items: seq<PullItem>, k: nat)
    requires k <= |items|
    ensures before + items[..k] + items[k..] == before + items
  {
    assert items == items[..k] + items[k..];
  }

  /** Resubmitting only the deferred items executes every item once, in the order first asked, and
      is over within as many rounds as there are items. */
  lemma {:induction false} RoundsFinish(rounds: seq<Round>)
    requires rounds != [] && Resubmits(rounds)
    ensures var last := rounds[|rounds| - 1];
            && ExecutedItems(rounds) + last.items[last.executed..] == rounds[0].items
            && |rounds| + |last.items[last.executed..]| <= |rounds[0].items|
  {
    var n := |rounds|;
    var last, most := rounds[n - 1], rounds[..n - 1];
    assert Answered(last);
    Rejoined(ExecutedItems(most), last.items, last.executed);
    if n > 1 {
      RoundsFinish(most);
      assert last.items == most[n - 2].items[most[n - 2].executed..];
    }
  }
}
