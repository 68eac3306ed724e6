/** Approval and cancellation of MCP requests. A request registers, puts a sender into `pending`,
    looks at its cancellation flag once more and waits on a channel with one slot. Any number of
    other threads cancel, approve, deny everything or revoke a host, each holding one lock at a
    time. Every step below is one critical section or one send.
 */
module McpApproval {
  import opened Values
  import Runs

  const MAX_EARLY: nat := 256

  /** One registered request: its own flag and channel, whatever its id. */
  datatype Ticket = Ticket(number: nat, id: string, alias: string)

  datatype Decision = Allow | Deny | Cancel | TimedOut

  datatype Phase = Registered | Inserted | SelfCancelling | Waiting | Decided(decision: Decision) | Cleaned | Finished

  /** A thread that calls in: a client's, or the request's own when it cancels itself. */
  datatype Actor = Client(number: nat) | Waiter(ticket: Ticket)

  /** Where an actor is inside `cancel_request`: before its first lock or between the two. */
  datatype Hand = Idle | Calling(id: string) | Marked(id: string)

  datatype Holder = Holder(actor: Actor, decision: Decision)

  datatype State = State(
    active: map<string, Ticket>,
    early: set<string>,
    flagged: set<Ticket>,
    pending: map<string, Ticket>,
    phases: map<Ticket, Phase>,
    hands: map<Actor, Hand>,
    held: map<Ticket, Holder>,      // senders taken out of `pending` and not used yet
    inbox: map<Ticket, Decision>,   // the one slot of each channel
    sent: multiset<Ticket>)         // whose sender was used, and how often

  const INITIAL := State(map[], {}, {}, map[], map[], map[], map[], map[], multiset{})

  function HandOf(s: State, a: Actor): Hand {
    if a in s.hands then s.hands[a] else Idle
  }

  predicate InPending(s: State, t: Ticket) {
    t.id in s.pending && s.pending[t.id] == t
  }

  datatype Step =
    | Register(t: Ticket)
    | Insert(t: Ticket)
    | Recheck(t: Ticket)
    | SelfDone(t: Ticket)
    | Receive(t: Ticket)
    | Timeout(t: Ticket)
    | Clean(t: Ticket)
    | Finish(t: Ticket)
    | StartCancel(a: Actor, id: string)
    | Mark(a: Actor)
    | Take(a: Actor)
    | Send(a: Actor, t: Ticket)
    | Resolve(id: string, decision: Decision)
    | TakeMany(a: Actor, ids: set<string>)

  // --- The critical sections ---

  /** `register_request`: refused if cancelled early or if the id is in use. */
  function AfterRegister(s: State, t: Ticket): State {
    if t.id in s.early then s.(early := s.early - {t.id})
    else if t.id in s.active then s
    else s.(active := s.active[t.id := t], phases := s.phases[t := Registered])
  }

  /** First half of `cancel_request`, under the cancellation lock. */
  function AfterMark(s: State, id: string): State {
    if id in s.active then s.(flagged := s.flagged + {s.active[id]})
    else s.(early := (if |s.early| >= MAX_EARLY then {} else s.early) + {id})
  }

  /** Second half, under the lock on `pending`; the actor then holds what it took. */
  function AfterTake(s: State, a: Actor, id: string): State {
    if id in s.pending then s.(pending := s.pending - {id}, held := s.held[s.pending[id] := Holder(a, Cancel)]) else s
  }

  /** A sender is used: the decision goes into the slot of its channel. */
  function AfterSend(s: State, t: Ticket, d: Decision): State {
    s.(inbox := s.inbox[t := d], sent := s.sent + multiset{t})
  }

  function AfterResolve(s: State, id: string, d: Decision): State {
    if id in s.pending then AfterSend(s.(pending := s.pending - {id}), s.pending[id], d) else s
  }

  function TicketsOf(pending: map<string, Ticket>, ids: set<string>): set<Ticket> {
    set id | id in ids && id in pending :: pending[id]
  }

  /** `deny_all_pending`, and the revocation of a host for the ids it matches. */
  function AfterTakeMany(s: State, a: Actor, ids: set<string>): State {
    s.(pending := s.pending - ids,
       held := s.held + map t | t in TicketsOf(s.pending, ids) :: Holder(a, Deny))
  }

  function Moved(s: State, t: Ticket, phase: Phase): State {
    s.(phases := s.phases[t := phase])
  }

  function WithHand(s: State, a: Actor, hand: Hand): State {
    s.(hands := s.hands[a := hand])
  }

  predicate At(s: State, t: Ticket, phase: Phase) {
    t in s.phases && s.phases[t] == phase
  }

  /** A request that brings its own, unused flag and channel. */
  predicate IsNew(s: State, t: Ticket) {
    t !in s.phases && t !in s.held && t !in s.inbox && t !in s.sent && HandOf(s, Waiter(t)).Idle?
  }

  function AfterInsert(s: State, t: Ticket): State {
    Moved(s, t, Inserted).(pending := s.pending[t.id := t])
  }

  /** The last look at the flag before waiting: a set flag makes the request cancel itself. */
  function AfterRecheck(s: State, t: Ticket): State {
    if t in s.flagged then WithHand(Moved(s, t, SelfCancelling), Waiter(t), Calling(t.id)) else Moved(s, t, Waiting)
  }

  function AfterReceive(s: State, t: Ticket): State
    requires t in s.inbox
  {
    Moved(s, t, Decided(s.inbox[t])).(inbox := s.inbox - {t})
  }

  /** One step of a request's own thread, up to its wait. */
  predicate CanEnter(s: State, step: Step) {
    || (step.Register? && IsNew(s, step.t))
    || (step.Insert? && At(s, step.t, Registered))
    || (step.Recheck? && At(s, step.t, Inserted))
    || (step.SelfDone? && At(s, step.t, SelfCancelling) && HandOf(s, Waiter(step.t)).Idle?
        && !(step.t in s.held && s.held[step.t].actor == Waiter(step.t)))
  }

  function Entered(s: State, step: Step): State
    requires CanEnter(s, step)
  {
    if step.Register? then AfterRegister(s, step.t)
    else if step.Insert? then AfterInsert(s, step.t)
    else if step.Recheck? then AfterRecheck(s, step.t)
    else Moved(s, step.t, Waiting)
  }

  /** And from its wait on. */
  predicate CanLeave(s: State, step: Step) {
    || (step.Receive? && At(s, step.t, Waiting) && step.t in s.inbox)
    || (step.Timeout? && At(s, step.t, Waiting))
    || (step.Clean? && step.t in s.phases && s.phases[step.t].Decided?)
    || (step.Finish? && At(s, step.t, Cleaned))
  }

  function Left(s: State, step: Step): State
    requires CanLeave(s, step)
  {
    if step.Receive? then AfterReceive(s, step.t)
    else if step.Timeout? then Moved(s, step.t, Decided(TimedOut))
    else if step.Clean? then Moved(s, step.t, Cleaned).(pending := s.pending - {step.t.id})
    else Moved(s, step.t, Finished).(active := s.active - {step.t.id})
  }

  /** One step of a thread that cancels, decides or denies. A full slot would block a sender. */
  predicate CanAct(s: State, step: Step) {
    || (step.StartCancel? && step.a.Client? && HandOf(s, step.a).Idle?)
    || (step.Mark? && HandOf(s, step.a).Calling?)
    || (step.Take? && HandOf(s, step.a).Marked?)
    || (step.Send? && step.t in s.held && s.held[step.t].actor == step.a && step.t !in s.inbox)
    || step.Resolve?
    || (step.TakeMany? && step.a.Client?)
  }

  function Acted(s: State, step: Step): State
    requires CanAct(s, step)
  {
    if step.StartCancel? then WithHand(s, step.a, Calling(step.id))
    else if step.Mark? then WithHand(AfterMark(s, HandOf(s, step.a).id), step.a, Marked(HandOf(s, step.a).id))
    else if step.Take? then WithHand(AfterTake(s, step.a, HandOf(s, step.a).id), step.a, Idle)
    else if step.Send? then AfterSend(s.(held := s.held - {step.t}), step.t, s.held[step.t].decision)
    else if step.Resolve? then AfterResolve(s, step.id, step.decision)
    else AfterTakeMany(s, step.a, step.ids)
  }

  predicate IsStep(s: State, step: Step, s': State) {
    || (CanEnter(s, step) && s' == Entered(s, step))
    || (CanLeave(s, step) && s' == Left(s, step))
    || (CanAct(s, step) && s' == Acted(s, step))
  }

  // --- What every reachable state satisfies ---

  ghost predicate SomeoneMarked(s: State, id: string) {
    exists a :: a in s.hands && s.hands[a] == Marked(id)
  }

  predicate Open(phase: Phase) {
    phase.Inserted? || phase.SelfCancelling? || phase.Waiting?
  }

  /** Where the sender of one request is. */
  ghost predicate TicketInv(s: State, t: Ticket)
    requires t in s.phases
  {
    var phase := s.phases[t];
    && (!phase.Finished? <==> t.id in s.active && s.active[t.id] == t)
    && (phase.Registered? ==> !InPending(s, t) && t !in s.held && t !in s.sent)
    && (InPending(s, t) ==> (Open(phase) || phase.Decided?) && t !in s.held && t !in s.sent)
    && (t in s.held ==> t !in s.sent)
    && (t in s.inbox ==> t in s.sent)
    && (Open(phase) ==> InPending(s, t) || t in s.held || t in s.inbox)
    && (phase.SelfCancelling? && InPending(s, t) ==> !HandOf(s, Waiter(t)).Idle?)
    && (phase.Waiting? && t in s.flagged && InPending(s, t) ==> SomeoneMarked(s, t.id))
    && (!HandOf(s, Waiter(t)).Idle? ==> phase.SelfCancelling? && HandOf(s, Waiter(t)).id == t.id)
  }

  /** Requests are filed under their own id. */
  ghost predicate FiledUnderId(m: map<string, Ticket>, phases: map<Ticket, Phase>) {
    forall id :: id in m ==> m[id] in phases && m[id].id == id
  }

  ghost predicate Filed(s: State) {
    FiledUnderId(s.active, s.phases) && FiledUnderId(s.pending, s.phases) && s.held.Keys <= s.phases.Keys
  }

  /** No sender is used twice. */
  ghost predicate SentOnce(sent: multiset<Ticket>) {
    forall t :: t in sent ==> sent[t] == 1
  }

  ghost predicate Inv(s: State) {
    Filed(s) && SentOnce(s.sent) && forall t :: t in s.phases ==> TicketInv(s, t)
  }

  // --- Every step keeps it ---

  lemma MarkedStays(s: State, s': State, a: Actor, id: string)
    requires SomeoneMarked(s, id) && HandOf(s, a) != Marked(id)
    requires forall b :: b in s.hands && b != a ==> b in s'.hands && s'.hands[b] == s.hands[b]
    ensures SomeoneMarked(s', id)
  {
    var b :| b in s.hands && s.hands[b] == Marked(id);
    assert s'.hands[b] == Marked(id);
  }

  // What each step does to the request u.

  lemma EarlyOn(s: State, early: set<string>, u: Ticket)
    requires u in s.phases && TicketInv(s, u)
    ensures TicketInv(s.(early := early), u)
  {
  }

  lemma RegisteredOn(s: State, t: Ticket, u: Ticket)
    requires u in s.phases && TicketInv(s, u) && t !in s.phases && t.id !in s.active
    ensures TicketInv(s.(active := s.active[t.id := t], phases := s.phases[t := Registered]), u)
  {
  }

  lemma RegisterOn(s: State, t: Ticket, u: Ticket)
    requires u in s.phases && TicketInv(s, u) && t !in s.phases
    ensures TicketInv(AfterRegister(s, t), u)
  {
    if t.id in s.early {
      EarlyOn(s, s.early - {t.id}, u);
    } else if t.id !in s.active {
      RegisteredOn(s, t, u);
    }
  }

  lemma InsertOn(s: State, t: Ticket, u: Ticket)
    requires At(s, t, Registered) && u in s.phases && TicketInv(s, u) && TicketInv(s, t)
    ensures TicketInv(AfterInsert(s, t), u)
  {
  }

  lemma RecheckOnItself(s: State, t: Ticket)
    requires At(s, t, Inserted) && TicketInv(s, t)
    ensures TicketInv(AfterRecheck(s, t), t)
  {
  }

  lemma MovedOn(s: State, t: Ticket, phase: Phase, u: Ticket)
    requires u in s.phases && u != t && TicketInv(s, u)
    ensures TicketInv(Moved(s, t, phase), u)
  {
  }

  lemma WaiterCallsOn(s: State, t: Ticket, u: Ticket)
    requires u in s.phases && u != t && TicketInv(s, u) && HandOf(s, Waiter(t)).Idle?
    ensures TicketInv(WithHand(s, Waiter(t), Calling(t.id)), u)
  {
    if SomeoneMarked(s, u.id) {
      MarkedStays(s, WithHand(s, Waiter(t), Calling(t.id)), Waiter(t), u.id);
    }
  }

  lemma RecheckOn(s: State, t: Ticket, u: Ticket)
    requires At(s, t, Inserted) && u in s.phases && u != t && TicketInv(s, u) && TicketInv(s, t)
    ensures TicketInv(AfterRecheck(s, t), u)
  {
    if t in s.flagged {
      MovedOn(s, t, SelfCancelling, u);
      WaiterCallsOn(Moved(s, t, SelfCancelling), t, u);
    } else {
      MovedOn(s, t, Waiting, u);
    }
  }

  lemma SelfDoneOn(s: State, t: Ticket, u: Ticket)
    requires CanEnter(s, SelfDone(t)) && u in s.phases && TicketInv(s, u)
    ensures TicketInv(Moved(s, t, Waiting), u)
  {
  }

  lemma ReceiveOn(s: State, t: Ticket, u: Ticket)
    requires At(s, t, Waiting) && t in s.inbox && u in s.phases && TicketInv(s, u)
    ensures TicketInv(AfterReceive(s, t), u)
  {
  }

  lemma TimeoutOn(s: State, t: Ticket, u: Ticket)
    requires At(s, t, Waiting) && u in s.phases && TicketInv(s, u)
    ensures TicketInv(Moved(s, t, Decided(TimedOut)), u)
  {
  }

  lemma CleanOn(s: State, t: Ticket, u: Ticket)
    requires CanLeave(s, Clean(t)) && u in s.phases && TicketInv(s, u) && TicketInv(s, t)
    ensures TicketInv(Left(s, Clean(t)), u)
  {
  }

  lemma FinishOn(s: State, t: Ticket, u: Ticket)
    requires CanLeave(s, Finish(t)) && u in s.phases && TicketInv(s, u) && TicketInv(s, t)
    ensures TicketInv(Left(s, Finish(t)), u)
  {
  }

  lemma StartCancelOn(s: State, a: Actor, id: string, u: Ticket)
    requires CanAct(s, StartCancel(a, id)) && u in s.phases && TicketInv(s, u)
    ensures TicketInv(WithHand(s, a, Calling(id)), u)
  {
    if SomeoneMarked(s, u.id) {
      MarkedStays(s, WithHand(s, a, Calling(id)), a, u.id);
    }
  }

  lemma MarkOn(s: State, a: Actor, u: Ticket)
    requires CanAct(s, Mark(a)) && u in s.phases && TicketInv(s, u)
    requires var id := HandOf(s, a).id; id in s.active ==> s.active[id].id == id
    ensures TicketInv(Acted(s, Mark(a)), u)
  {
    var s' := Acted(s, Mark(a));
    assert s'.hands[a] == Marked(HandOf(s, a).id);
    if SomeoneMarked(s, u.id) {
      MarkedStays(s, s', a, u.id);
    }
  }

  lemma TakeOn(s: State, a: Actor, u: Ticket)
    requires CanAct(s, Take(a)) && u in s.phases && TicketInv(s, u)
    requires var id := HandOf(s, a).id; id in s.pending ==> s.pending[id].id == id
    ensures TicketInv(Acted(s, Take(a)), u)
  {
    if SomeoneMarked(s, u.id) && HandOf(s, a) != Marked(u.id) {
      MarkedStays(s, Acted(s, Take(a)), a, u.id);
    }
  }

  lemma SendOn(s: State, a: Actor, t: Ticket, u: Ticket)
    requires CanAct(s, Send(a, t)) && u in s.phases && TicketInv(s, u)
    ensures TicketInv(Acted(s, Send(a, t)), u)
  {
  }

  lemma ResolveOn(s: State, id: string, d: Decision, u: Ticket)
    requires u in s.phases && TicketInv(s, u) && (id in s.pending ==> s.pending[id].id == id)
    ensures TicketInv(AfterResolve(s, id, d), u)
  {
  }

  lemma TakeManyOn(s: State, a: Actor, ids: set<string>, u: Ticket)
    requires u in s.phases && TicketInv(s, u) && forall id :: id in s.pending ==> s.pending[id].id == id
    ensures TicketInv(AfterTakeMany(s, a, ids), u)
  {
  }

  lemma NewTicket(s: State, t: Ticket)
    requires IsNew(s, t) && !InPending(s, t)
    ensures TicketInv(s.(active := s.active[t.id := t], phases := s.phases[t := Registered]), t)
  {
  }

  lemma RegisterOnAny(s: State, t: Ticket, u: Ticket)
    requires FiledUnderId(s.pending, s.phases) && IsNew(s, t) && u in AfterRegister(s, t).phases
    requires u in s.phases ==> TicketInv(s, u)
    ensures TicketInv(AfterRegister(s, t), u)
  {
    if u == t {
      NewTicket(s, t);
    } else {
      RegisterOn(s, t, u);
    }
  }

  lemma EntryOn(s: State, step: Step, u: Ticket)
    requires CanEnter(s, step) && !step.Register? && u in s.phases && TicketInv(s, u) && TicketInv(s, step.t)
    ensures u in Entered(s, step).phases && TicketInv(Entered(s, step), u)
  {
    match step
    case Insert(t) => InsertOn(s, t, u);
    case Recheck(t) => if u == t { RecheckOnItself(s, t); } else { RecheckOn(s, t, u); }
    case SelfDone(t) => SelfDoneOn(s, t, u);
  }

  lemma LeaveOn(s: State, step: Step, u: Ticket)
    requires CanLeave(s, step) && u in s.phases && TicketInv(s, u) && TicketInv(s, step.t)
    ensures TicketInv(Left(s, step), u)
  {
    match step
    case Receive(t) => ReceiveOn(s, t, u);
    case Timeout(t) => TimeoutOn(s, t, u);
    case Clean(t) => CleanOn(s, t, u);
    case Finish(t) => FinishOn(s, t, u);
  }

  lemma ActOn(s: State, step: Step, u: Ticket)
    requires Filed(s) && CanAct(s, step) && u in s.phases && TicketInv(s, u)
    ensures TicketInv(Acted(s, step), u)
  {
    match step
    case StartCancel(a, id) => StartCancelOn(s, a, id, u);
    case Mark(a) => MarkOn(s, a, u);
    case Take(a) => TakeOn(s, a, u);
    case Send(a, t) => SendOn(s, a, t, u);
    case Resolve(id, d) => ResolveOn(s, id, d, u);
    case TakeMany(a, ids) => TakeManyOn(s, a, ids, u);
  }

  // The maps and the history of sends.

  /** m' has no entry that m lacks, except perhaps one for t. */
  ghost predicate AtMostAdds(m: map<string, Ticket>, m': map<string, Ticket>, t: Ticket) {
    forall id :: id in m' ==> (id in m && m'[id] == m[id]) || (id == t.id && m'[id] == t)
  }

  lemma FiledStays(
    m: map<string, Ticket>, phases: map<Ticket, Phase>, m': map<string, Ticket>, phases': map<Ticket, Phase>, t: Ticket)
    requires FiledUnderId(m, phases) && AtMostAdds(m, m', t) && phases.Keys <= phases'.Keys
    requires t in phases' || m' == m
    ensures FiledUnderId(m', phases')
  {
  }

  lemma ActiveAfterEntry(s: State, step: Step)
    requires CanEnter(s, step)
    ensures AtMostAdds(s.active, Entered(s, step).active, step.t)
    ensures step.t in Entered(s, step).phases || Entered(s, step).active == s.active
  {
    match step
    case Register(_) =>
    case Insert(_) =>
    case Recheck(_) =>
    case SelfDone(_) =>
  }

  lemma PendingAfterEntry(s: State, step: Step)
    requires CanEnter(s, step)
    ensures AtMostAdds(s.pending, Entered(s, step).pending, step.t)
    ensures step.t in Entered(s, step).phases || Entered(s, step).pending == s.pending
  {
    match step
    case Register(_) =>
    case Insert(_) =>
    case Recheck(_) =>
    case SelfDone(_) =>
  }

  lemma RestAfterEntry(s: State, step: Step)
    requires CanEnter(s, step)
    ensures s.phases.Keys <= Entered(s, step).phases.Keys
    ensures Entered(s, step).sent == s.sent && Entered(s, step).held == s.held
  {
    match step
    case Register(_) =>
    case Insert(_) =>
    case Recheck(_) =>
    case SelfDone(_) =>
  }

  lemma FiledAfterEntry(s: State, step: Step)
    requires Filed(s) && CanEnter(s, step)
    ensures Filed(Entered(s, step)) && Entered(s, step).sent == s.sent
  {
    var s' := Entered(s, step);
    ActiveAfterEntry(s, step);
    PendingAfterEntry(s, step);
    RestAfterEntry(s, step);
    FiledStays(s.active, s.phases, s'.active, s'.phases, step.t);
    FiledStays(s.pending, s.phases, s'.pending, s'.phases, step.t);
  }

  lemma FiledAfterLeaving(s: State, step: Step)
    requires Filed(s) && CanLeave(s, step)
    ensures Filed(Left(s, step)) && Left(s, step).sent == s.sent && Left(s, step).phases.Keys == s.phases.Keys
  {
    var s' := Left(s, step);
    FiledStays(s.active, s.phases, s'.active, s'.phases, step.t);
    FiledStays(s.pending, s.phases, s'.pending, s'.phases, step.t);
  }

  lemma FiledAfterAct(s: State, step: Step)
    requires Filed(s) && CanAct(s, step)
    ensures Filed(Acted(s, step)) && Acted(s, step).phases == s.phases
  {
    match step
    case StartCancel(_, _) =>
    case Mark(_) =>
    case Take(_) =>
    case Send(_, _) =>
    case Resolve(_, _) =>
    case TakeMany(_, _) =>
  }

  lemma OneMoreSent(sent: multiset<Ticket>, t: Ticket)
    requires SentOnce(sent) && t !in sent
    ensures SentOnce(sent + multiset{t})
  {
  }

  lemma SentOnceAfterAct(s: State, step: Step)
    requires Inv(s) && CanAct(s, step)
    ensures SentOnce(Acted(s, step).sent)
  {
    if step.Send? {
      assert TicketInv(s, step.t);
      OneMoreSent(s.sent, step.t);
    } else if step.Resolve? && step.id in s.pending {
      assert TicketInv(s, s.pending[step.id]);
      OneMoreSent(s.sent, s.pending[step.id]);
    }
  }

  lemma EntryKeepsInv(s: State, step: Step)
    requires Inv(s) && CanEnter(s, step)
    ensures Inv(Entered(s, step))
  {
    FiledAfterEntry(s, step);
    forall u | u in Entered(s, step).phases ensures TicketInv(Entered(s, step), u) {
      if step.Register? {
        RegisterOnAny(s, step.t, u);
      } else {
        EntryOn(s, step, u);
      }
    }
  }

  lemma LeavingKeepsInv(s: State, step: Step)
    requires Inv(s) && CanLeave(s, step)
    ensures Inv(Left(s, step))
  {
    FiledAfterLeaving(s, step);
    forall u | u in Left(s, step).phases ensures TicketInv(Left(s, step), u) {
      LeaveOn(s, step, u);
    }
  }

  lemma ActKeepsInv(s: State, step: Step)
    requires Inv(s) && CanAct(s, step)
    ensures Inv(Acted(s, step))
  {
    FiledAfterAct(s, step);
    SentOnceAfterAct(s, step);
    forall u | u in Acted(s, step).phases ensures TicketInv(Acted(s, step), u) {
      ActOn(s, step, u);
    }
  }

  lemma StepKeepsInv(s: State, step: Step, s': State)
    requires Inv(s) && IsStep(s, step, s')
    ensures Inv(s')
  {
    if CanEnter(s, step) {
      EntryKeepsInv(s, step);
    } else if CanLeave(s, step) {
      LeavingKeepsInv(s, step);
    } else {
      ActKeepsInv(s, step);
    }
  }

  // --- Runs ---

  type Run = Runs.Run<State, Step>

  ghost const STEP: (State, Step, State) -> bool := (s, step, s') => IsStep(s, step, s')

  ghost predicate IsRun(r: Run) {
    Runs.Follows(r, STEP) && r.states[0] == INITIAL
  }

  lemma StepOf(r: Run, k: nat)
    requires IsRun(r) && k < |r.steps|
    ensures IsStep(r.states[k], r.steps[k], r.states[k + 1])
  {
    assert Runs.StepAt(r, STEP, k);
  }

  lemma {:induction false} RunKeepsInv(r: Run, k: nat)
    requires IsRun(r) && k <= |r.steps|
    ensures Inv(r.states[k])
  {
    if k > 0 {
      RunKeepsInv(r, k - 1);
      StepOf(r, k - 1);
      StepKeepsInv(r.states[k - 1], r.steps[k - 1], r.states[k]);
    }
  }

  /** A request's own thread takes out no sender but its own, and only while it cancels itself. */
  ghost predicate OwnHands(s: State) {
    forall t :: t in s.held && s.held[t].actor.Waiter? ==> s.held[t].actor == Waiter(t) && At(s, t, SelfCancelling)
  }

  lemma RegisterKeepsOwnHands(s: State, t: Ticket)
    requires OwnHands(s) && IsNew(s, t)
    ensures OwnHands(AfterRegister(s, t))
  {
  }

  lemma EntryKeepsOwnHands(s: State, step: Step)
    requires OwnHands(s) && CanEnter(s, step)
    ensures OwnHands(Entered(s, step))
  {
    match step
    case Register(t) => RegisterKeepsOwnHands(s, t);
    case Insert(_) =>
    case Recheck(_) =>
    case SelfDone(_) =>
  }

  lemma LeavingKeepsOwnHands(s: State, step: Step)
    requires OwnHands(s) && CanLeave(s, step)
    ensures OwnHands(Left(s, step))
  {
    match step
    case Receive(_) =>
    case Timeout(_) =>
    case Clean(_) =>
    case Finish(_) =>
  }

  lemma TakesOwn(s: State, t: Ticket)
    requires Inv(s) && HandOf(s, Waiter(t)).Marked? && t in s.phases
    ensures HandOf(s, Waiter(t)).id == t.id && At(s, t, SelfCancelling)
    ensures t.id in s.pending ==> s.pending[t.id] == t
  {
    assert TicketInv(s, t);
    if t.id in s.pending {
      assert TicketInv(s, s.pending[t.id]);
    }
  }

  lemma TakeKeepsOwnHands(s: State, a: Actor)
    requires Inv(s) && OwnHands(s) && CanAct(s, Take(a)) && (a.Waiter? ==> a.ticket in s.phases)
    ensures OwnHands(Acted(s, Take(a)))
  {
    if a.Waiter? {
      TakesOwn(s, a.ticket);
    }
  }

  lemma SendKeepsOwnHands(s: State, a: Actor, t: Ticket)
    requires OwnHands(s) && CanAct(s, Send(a, t))
    ensures OwnHands(Acted(s, Send(a, t)))
  {
  }

  lemma TakeManyKeepsOwnHands(s: State, a: Actor, ids: set<string>)
    requires OwnHands(s) && a.Client?
    ensures OwnHands(AfterTakeMany(s, a, ids))
  {
  }

  /** The other steps take out no sender. */
  lemma HeldAfterOthers(s: State, step: Step)
    requires CanAct(s, step) && (step.StartCancel? || step.Mark? || step.Resolve?)
    ensures Acted(s, step).held == s.held && Acted(s, step).phases == s.phases
  {
    match step
    case StartCancel(_, _) =>
    case Mark(_) =>
    case Resolve(_, _) =>
  }

  lemma SameHandsAreOwn(s: State, s': State)
    requires OwnHands(s) && s'.held == s.held && s'.phases == s.phases
    ensures OwnHands(s')
  {
  }

  lemma ActKeepsOwnHands(s: State, step: Step)
    requires Inv(s) && OwnHands(s) && CanAct(s, step) && (step.Take? && step.a.Waiter? ==> step.a.ticket in s.phases)
    ensures OwnHands(Acted(s, step))
  {
    match step
    case StartCancel(_, _) =>
      HeldAfterOthers(s, step);
      SameHandsAreOwn(s, Acted(s, step));
    case Mark(_) =>
      HeldAfterOthers(s, step);
      SameHandsAreOwn(s, Acted(s, step));
    case Take(a) => TakeKeepsOwnHands(s, a);
    case Send(a, t) => SendKeepsOwnHands(s, a, t);
    case Resolve(_, _) =>
      HeldAfterOthers(s, step);
      SameHandsAreOwn(s, Acted(s, step));
    case TakeMany(a, ids) => TakeManyKeepsOwnHands(s, a, ids);
  }

  /** Only a registered request's thread calls in. */
  ghost predicate CallersExist(s: State) {
    forall a :: a in s.hands && a.Waiter? ==> a.ticket in s.phases
  }

  lemma EntryKeepsCallers(s: State, step: Step)
    requires CallersExist(s) && CanEnter(s, step)
    ensures CallersExist(Entered(s, step))
  {
    match step
    case Register(_) =>
    case Insert(_) =>
    case Recheck(_) =>
    case SelfDone(_) =>
  }

  lemma LeavingKeepsCallers(s: State, step: Step)
    requires CallersExist(s) && CanLeave(s, step)
    ensures CallersExist(Left(s, step))
  {
    match step
    case Receive(_) =>
    case Timeout(_) =>
    case Clean(_) =>
    case Finish(_) =>
  }

  lemma ActKeepsCallers(s: State, step: Step)
    requires CallersExist(s) && CanAct(s, step)
    ensures CallersExist(Acted(s, step))
  {
    match step
    case StartCancel(_, _) =>
    case Mark(_) =>
    case Take(_) =>
    case Send(_, _) =>
    case Resolve(_, _) =>
    case TakeMany(_, _) =>
  }

  lemma StepKeepsCallers(s: State, step: Step, s': State)
    requires CallersExist(s) && IsStep(s, step, s')
    ensures CallersExist(s')
  {
    if CanEnter(s, step) {
      EntryKeepsCallers(s, step);
    } else if CanLeave(s, step) {
      LeavingKeepsCallers(s, step);
    } else {
      ActKeepsCallers(s, step);
    }
  }

  lemma StepKeepsOwnHands(s: State, step: Step, s': State)
    requires Inv(s) && OwnHands(s) && CallersExist(s) && IsStep(s, step, s')
    ensures OwnHands(s')
  {
    if CanEnter(s, step) {
      EntryKeepsOwnHands(s, step);
    } else if CanLeave(s, step) {
      LeavingKeepsOwnHands(s, step);
    } else {
      ActKeepsOwnHands(s, step);
    }
  }

  lemma {:induction false} RunKeepsOwnHands(r: Run, k: nat)
    requires IsRun(r) && k <= |r.steps|
    ensures OwnHands(r.states[k]) && CallersExist(r.states[k])
  {
    if k > 0 {
      var s, step := r.states[k - 1], r.steps[k - 1];
      RunKeepsOwnHands(r, k - 1);
      RunKeepsInv(r, k - 1);
      StepOf(r, k - 1);
      StepKeepsOwnHands(s, step, r.states[k]);
      StepKeepsCallers(s, step, r.states[k]);
    }
  }

  /** This client's call is still under way and concerns t: it has the sender of t in hand, or it is
      between the two locks of a cancel call and will find the sender in `pending`. */
  ghost predicate UnderWay(s: State, c: Actor, t: Ticket) {
    && c.Client?
    && ((t in s.held && s.held[t].actor == c) || (InPending(s, t) && HandOf(s, c) == Marked(t.id)))
  }

  lemma WaitersMarkTheirOwn(s: State, t: Ticket, u: Ticket)
    requires Inv(s) && At(s, t, Waiting) && u in s.phases
    ensures HandOf(s, Waiter(u)) != Marked(t.id)
  {
    assert TicketInv(s, t) && TicketInv(s, u);
  }

  lemma MarkedByClient(s: State, t: Ticket)
    requires Inv(s) && CallersExist(s) && At(s, t, Waiting) && InPending(s, t) && SomeoneMarked(s, t.id)
    ensures exists c :: UnderWay(s, c, t)
  {
    var c :| c in s.hands && s.hands[c] == Marked(t.id);
    assert c.Client? by {
      forall u | u in s.phases ensures c != Waiter(u) {
        WaitersMarkTheirOwn(s, t, u);
      }
    }
    assert UnderWay(s, c, t);
  }

  /** No cancellation is lost. In every reachable state, a cancelled request waits on an empty
      channel exactly while the call of some client that concerns it is still under way: when no
      client is inside a call, a cancelled request never waits on an empty channel. */
  lemma NoCancellationLost(r: Run, k: nat, t: Ticket)
    requires IsRun(r) && k <= |r.steps| && At(r.states[k], t, Waiting) && t in r.states[k].flagged
    ensures t !in r.states[k].inbox <==> exists c :: UnderWay(r.states[k], c, t)
  {
    var s := r.states[k];
    RunKeepsInv(r, k);
    RunKeepsOwnHands(r, k);
    assert TicketInv(s, t);
    if t in s.held {
      assert UnderWay(s, s.held[t].actor, t);
    } else if t !in s.inbox {
      MarkedByClient(s, t);
    }
  }

  lemma SendWakes(s: State, a: Actor, t: Ticket) returns (s': State)
    requires t in s.held && s.held[t].actor == a && t !in s.inbox
    ensures IsStep(s, Send(a, t), s') && t in s'.inbox && s'.phases == s.phases
  {
    s' := AfterSend(s.(held := s.held - {t}), t, s.held[t].decision);
    assert CanAct(s, Send(a, t));
  }

  lemma TakeFinds(s: State, a: Actor, t: Ticket) returns (s': State)
    requires InPending(s, t) && HandOf(s, a) == Marked(t.id)
    ensures IsStep(s, Take(a), s') && t in s'.held && s'.held[t].actor == a
    ensures s'.inbox == s.inbox && s'.phases == s.phases
  {
    s' := WithHand(AfterTake(s, a, t.id), a, Idle);
    assert CanAct(s, Take(a));
  }

  /** So one or two steps of that one thread, none of which can block, wake the request. */
  lemma CancellationArrives(r: Run, k: nat, t: Ticket) returns (a: Actor, s1: State, s2: State)
    requires IsRun(r) && k <= |r.steps| && At(r.states[k], t, Waiting) && t in r.states[k].flagged
    requires t !in r.states[k].inbox
    ensures s1 == r.states[k] || IsStep(r.states[k], Take(a), s1)
    ensures IsStep(s1, Send(a, t), s2) && t in s2.inbox && At(s2, t, Waiting)
  {
    var s := r.states[k];
    NoCancellationLost(r, k, t);
    a :| UnderWay(s, a, t);
    if t in s.held && s.held[t].actor == a {
      s1 := s;
    } else {
      s1 := TakeFinds(s, a, t);
    }
    s2 := SendWakes(s1, a, t);
  }

  /** One decision per request: the sender of a request is used at most once, so that neither a
      blocking nor a non-blocking send ever meets a full slot, and a pending request is active. */
  lemma OneDecisionPerRequest(r: Run, k: nat)
    requires IsRun(r) && k <= |r.steps|
    ensures var s := r.states[k];
            && SentOnce(s.sent)
            && (forall t :: t in s.held ==> t !in s.inbox && t !in s.sent)
            && (forall id :: id in s.pending ==>
                  s.pending[id] !in s.inbox && s.pending[id] !in s.held && s.pending[id] !in s.sent)
            && (forall id :: id in s.pending ==> id in s.active && s.active[id] == s.pending[id])
  {
    RunKeepsInv(r, k);
    var s := r.states[k];
    forall t | t in s.held ensures t !in s.inbox && t !in s.sent {
      assert TicketInv(s, t);
    }
    forall id | id in s.pending
      ensures s.pending[id] !in s.inbox && s.pending[id] !in s.held && s.pending[id] !in s.sent
      ensures id in s.active && s.active[id] == s.pending[id]
    {
      assert TicketInv(s, s.pending[id]);
    }
  }

  // --- Cancelling before the request registers ---

  /** A cancel of another id that empties a full early set. */
  predicate Overflows(s: State, step: Step, id: string) {
    && step.Mark? && HandOf(s, step.a).Calling? && HandOf(s, step.a).id != id
    && HandOf(s, step.a).id !in s.active && |s.early| >= 256
  }

  /** The step does not use up or drop an early cancel of this id. */
  ghost predicate Spares(s: State, step: Step, id: string) {
    !Overflows(s, step, id) && !(step.Register? && step.t.id == id)
  }

  lemma EarlyAfterEntry(s: State, step: Step, id: string)
    requires CanEnter(s, step) && id in s.early
    ensures id in Entered(s, step).early <==> !(step.Register? && step.t.id == id)
  {
    match step
    case Register(_) =>
    case Insert(_) =>
    case Recheck(_) =>
    case SelfDone(_) =>
  }

  lemma EarlyAfterLeaving(s: State, step: Step)
    requires CanLeave(s, step)
    ensures Left(s, step).early == s.early
  {
    match step
    case Receive(_) =>
    case Timeout(_) =>
    case Clean(_) =>
    case Finish(_) =>
  }

  lemma EarlyAfterAct(s: State, step: Step, id: string)
    requires CanAct(s, step) && id in s.early
    ensures id in Acted(s, step).early <==> !Overflows(s, step, id)
  {
    match step
    case StartCancel(_, _) =>
    case Mark(_) =>
    case Take(_) =>
    case Send(_, _) =>
    case Resolve(_, _) =>
    case TakeMany(_, _) =>
  }

  /** An early cancel is dropped by these two kinds of steps and by no others. */
  lemma EarlyStep(s: State, step: Step, s': State, id: string)
    requires IsStep(s, step, s') && id in s.early
    ensures id in s'.early <==> Spares(s, step, id)
  {
    if CanEnter(s, step) {
      EarlyAfterEntry(s, step, id);
    } else if CanLeave(s, step) {
      EarlyAfterLeaving(s, step);
    } else {
      EarlyAfterAct(s, step, id);
    }
  }

  lemma Refused(s: State, t: Ticket, s': State)
    requires IsStep(s, Register(t), s') && t.id in s.early
    ensures t !in s'.phases && s'.active == s.active
  {
    assert CanEnter(s, Register(t));
  }

  /** No step from state i to state j uses up or drops an early cancel of this id. */
  ghost predicate SparedFrom(r: Run, i: nat, j: nat, id: string)
    requires IsRun(r) && j <= |r.steps|
  {
    j <= i || (SparedFrom(r, i, j - 1, id) && Spares(r.states[j - 1], r.steps[j - 1], id))
  }

  /** A cancel that precedes registration is kept until then, unless the early set reached 256 ids
      and was cleared by a cancel of another id. */
  lemma {:induction false} EarlyCancelKept(r: Run, i: nat, j: nat, id: string)
    requires IsRun(r) && i <= j <= |r.steps| && id in r.states[i].early && SparedFrom(r, i, j, id)
    ensures id in r.states[j].early
  {
    if i < j {
      EarlyCancelKept(r, i, j - 1, id);
      StepOf(r, j - 1);
      EarlyStep(r.states[j - 1], r.steps[j - 1], r.states[j], id);
    }
  }

  lemma MarkedEarly(s: State, a: Actor, s': State, id: string)
    requires IsStep(s, Mark(a), s') && HandOf(s, a) == Calling(id) && id !in s.active
    ensures id in s'.early
  {
    assert CanAct(s, Mark(a));
  }

  /** So a cancel that precedes registration makes it fail. */
  lemma EarlyCancelRefuses(r: Run, i: nat, j: nat, a: Actor, t: Ticket)
    requires IsRun(r) && i < j < |r.steps| && r.steps[i] == Mark(a) && r.steps[j] == Register(t)
    ensures HandOf(r.states[i], a) == Calling(t.id) && t.id !in r.states[i].active && SparedFrom(r, i + 1, j, t.id) ==>
              t !in r.states[j + 1].phases && r.states[j + 1].active == r.states[j].active
  {
    if HandOf(r.states[i], a) == Calling(t.id) && t.id !in r.states[i].active && SparedFrom(r, i + 1, j, t.id) {
      StepOf(r, i);
      MarkedEarly(r.states[i], a, r.states[i + 1], t.id);
      EarlyCancelKept(r, i + 1, j, t.id);
      StepOf(r, j);
      Refused(r.states[j], t, r.states[j + 1]);
    }
  }

  // --- A completed cancel and a blocked request ---

  lemma OneStepMore(r: Run, step: Step, s': State) returns (r': Run)
    requires IsRun(r) && IsStep(r.states[|r.steps|], step, s')
    ensures IsRun(r') && r' == Runs.Extended(r, step, s')
  {
    r' := Runs.Extended(r, step, s');
    Runs.ExtendedFollows(r, STEP, step, s');
  }

  const FIRST := Ticket(0, "r", "h")

  lemma ExampleWaits() returns (r: Run)
    ensures IsRun(r) && |r.steps| == 3
    ensures r.states[3] == State(map["r" := FIRST], {}, {}, map["r" := FIRST], map[FIRST := Waiting],
                                 map[], map[], map[], multiset{})
  {
    r := Runs.Run([INITIAL], []);
    r := OneStepMore(r, Register(FIRST), AfterRegister(INITIAL, FIRST));
    var s := State(map["r" := FIRST], {}, {}, map["r" := FIRST], map[FIRST := Inserted],
                   map[], map[], map[], multiset{});
    r := OneStepMore(r, Insert(FIRST), s);
    r := OneStepMore(r, Recheck(FIRST), s.(phases := map[FIRST := Waiting]));
  }

  lemma ExampleTwoCalling() returns (r: Run)
    ensures IsRun(r) && |r.steps| == 5
    ensures r.states[5] == State(map["r" := FIRST], {}, {}, map["r" := FIRST], map[FIRST := Waiting],
                                 map[Client(0) := Calling("r"), Client(1) := Calling("r")], map[], map[], multiset{})
  {
    r := ExampleWaits();
    var s := r.states[3];
    s := s.(hands := map[Client(0) := Calling("r")]);
    r := OneStepMore(r, StartCancel(Client(0), "r"), s);
    s := s.(hands := map[Client(0) := Calling("r"), Client(1) := Calling("r")]);
    assert s.hands == map[Client(0) := Calling("r")][Client(1) := Calling("r")];
    r := OneStepMore(r, StartCancel(Client(1), "r"), s);
  }

  lemma ExampleTwoMarked() returns (r: Run)
    ensures IsRun(r) && |r.steps| == 7 && r.steps[5] == Mark(Client(0))
    ensures r.states[7] == State(map["r" := FIRST], {}, {FIRST}, map["r" := FIRST], map[FIRST := Waiting],
                                 map[Client(0) := Marked("r"), Client(1) := Marked("r")], map[], map[], multiset{})
  {
    r := ExampleTwoCalling();
    var s := r.states[5];
    s := s.(hands := map[Client(0) := Marked("r"), Client(1) := Calling("r")], flagged := {FIRST});
    assert s.hands == map[Client(0) := Calling("r"), Client(1) := Calling("r")][Client(0) := Marked("r")];
    r := OneStepMore(r, Mark(Client(0)), s);
    s := s.(hands := map[Client(0) := Marked("r"), Client(1) := Marked("r")]);
    assert s.hands == map[Client(0) := Marked("r"), Client(1) := Calling("r")][Client(1) := Marked("r")];
    r := OneStepMore(r, Mark(Client(1)), s);
  }

  lemma ExampleOneTook() returns (r: Run)
    ensures IsRun(r) && |r.steps| == 8 && r.steps[5] == Mark(Client(0))
    ensures r.states[8] == State(map["r" := FIRST], {}, {FIRST}, map[], map[FIRST := Waiting],
                                 map[Client(0) := Marked("r"), Client(1) := Idle],
                                 map[FIRST := Holder(Client(1), Cancel)], map[], multiset{})
  {
    r := ExampleTwoMarked();
    var s := r.states[7];
    s := s.(hands := map[Client(0) := Marked("r"), Client(1) := Idle], pending := map[],
            held := map[FIRST := Holder(Client(1), Cancel)]);
    assert s.hands == map[Client(0) := Marked("r"), Client(1) := Marked("r")][Client(1) := Idle];
    assert map["r" := FIRST] - {"r"} == map[];
    r := OneStepMore(r, Take(Client(1)), s);
  }

  /** With two cancel calls, one can complete while the request still waits on an empty channel: the
      other one took the sender and has yet to use it. That is the only way, as NoCancellationLost
      says. */
  lemma CompletedCancelAndEmptyChannel() returns (r: Run)
    ensures IsRun(r) && |r.steps| == 9 && r.steps[5] == Mark(Client(0)) && r.steps[8] == Take(Client(0))
    ensures var s := r.states[9];
            && HandOf(s, Client(0)).Idle? && (forall t :: t in s.held ==> s.held[t].actor != Client(0))
            && At(s, FIRST, Waiting) && FIRST in s.flagged && FIRST !in s.inbox
  {
    r := ExampleOneTook();
    var s := r.states[8];
    s := s.(hands := map[Client(0) := Idle, Client(1) := Idle]);
    assert s.hands == map[Client(0) := Marked("r"), Client(1) := Idle][Client(0) := Idle];
    r := OneStepMore(r, Take(Client(0)), s);
  }

  // --- An id used again ---

  lemma FinishedAfterEntry(s: State, step: Step, t: Ticket)
    requires CanEnter(s, step) && At(s, t, Finished)
    ensures At(Entered(s, step), t, Finished)
  {
    match step
    case Register(_) =>
    case Insert(_) =>
    case Recheck(_) =>
    case SelfDone(_) =>
  }

  lemma FinishedAfterLeaving(s: State, step: Step, t: Ticket)
    requires CanLeave(s, step) && At(s, t, Finished)
    ensures At(Left(s, step), t, Finished)
  {
    match step
    case Receive(_) =>
    case Timeout(_) =>
    case Clean(_) =>
    case Finish(_) =>
  }

  lemma PhasesAfterAct(s: State, step: Step)
    requires CanAct(s, step)
    ensures Acted(s, step).phases == s.phases
  {
    match step
    case StartCancel(_, _) =>
    case Mark(_) =>
    case Take(_) =>
    case Send(_, _) =>
    case Resolve(_, _) =>
    case TakeMany(_, _) =>
  }

  lemma FinishedAfterStep(s: State, step: Step, s': State, t: Ticket)
    requires IsStep(s, step, s') && At(s, t, Finished)
    ensures At(s', t, Finished)
  {
    if CanEnter(s, step) {
      FinishedAfterEntry(s, step, t);
    } else if CanLeave(s, step) {
      FinishedAfterLeaving(s, step, t);
    } else {
      PhasesAfterAct(s, step);
    }
  }

  lemma {:induction false} FinishedStays(r: Run, i: nat, j: nat, t: Ticket)
    requires IsRun(r) && i <= j <= |r.steps| && At(r.states[i], t, Finished)
    ensures At(r.states[j], t, Finished)
  {
    if i < j {
      var s, step := r.states[j - 1], r.steps[j - 1];
      FinishedStays(r, i, j - 1, t);
      StepOf(r, j - 1);
      FinishedAfterStep(s, step, r.states[j], t);
    }
  }

  /** Whose sender a cancel call takes. It is that of the request the call marked exactly if that
      request had registered when the call marked; otherwise the id was used again in between. */
  lemma TakenIsMarkedIff(r: Run, i: nat, j: nat, a: Actor, id: string)
    requires IsRun(r) && i < j < |r.steps| && r.steps[i] == Mark(a) && r.steps[j] == Take(a)
    requires HandOf(r.states[i], a) == Calling(id) && id in r.states[j].pending
    ensures var t := r.states[j].pending[id];
            id in r.states[i].active && r.states[i].active[id] == t <==> t in r.states[i].phases
  {
    var t := r.states[j].pending[id];
    RunKeepsInv(r, i);
    RunKeepsInv(r, j);
    assert TicketInv(r.states[j], t);
    if t in r.states[i].phases {
      assert TicketInv(r.states[i], t);
      if At(r.states[i], t, Finished) {
        FinishedStays(r, i, j, t);
      }
    }
  }

  const SECOND := Ticket(1, "r", "h")

  /** A client has marked the first request and goes on to take what it finds. */
  ghost predicate Midway(s: State) {
    && s.flagged == {FIRST} && s.early == {} && s.held == map[] && s.inbox == map[]
    && HandOf(s, Client(0)) == Marked("r")
  }

  /** The run up to that point, and beyond it. */
  ghost predicate Marks(r: Run) {
    && IsRun(r) && |r.steps| >= 5 && r.steps[4] == Mark(Client(0))
    && HandOf(r.states[4], Client(0)) == Calling("r") && SECOND !in r.states[4].phases
  }

  lemma ExampleMarked() returns (r: Run)
    ensures Marks(r) && |r.steps| == 5
    ensures Midway(r.states[5]) && At(r.states[5], FIRST, Waiting) && IsNew(r.states[5], SECOND)
  {
    r := ExampleWaits();
    var s := r.states[3].(hands := map[Client(0) := Calling("r")]);
    r := OneStepMore(r, StartCancel(Client(0), "r"), s);
    s := s.(hands := map[Client(0) := Marked("r")], flagged := {FIRST});
    r := OneStepMore(r, Mark(Client(0)), s);
  }

  lemma ExampleCleaned() returns (r: Run)
    ensures Marks(r) && |r.steps| == 7 && Midway(r.states[7]) && IsNew(r.states[7], SECOND)
    ensures At(r.states[7], FIRST, Cleaned) && "r" !in r.states[7].pending
  {
    r := ExampleMarked();
    var s := Left(r.states[5], Timeout(FIRST));
    r := OneStepMore(r, Timeout(FIRST), s);
    r := OneStepMore(r, Clean(FIRST), Left(s, Clean(FIRST)));
  }

  lemma ExampleFinished() returns (r: Run)
    ensures Marks(r) && |r.steps| == 8 && Midway(r.states[8]) && IsNew(r.states[8], SECOND)
    ensures "r" !in r.states[8].active && "r" !in r.states[8].pending
  {
    r := ExampleCleaned();
    r := OneStepMore(r, Finish(FIRST), Left(r.states[7], Finish(FIRST)));
  }

  lemma SecondWaits() returns (r: Run)
    ensures Marks(r) && |r.steps| == 11 && Midway(r.states[11])
    ensures At(r.states[11], SECOND, Waiting) && InPending(r.states[11], SECOND)
  {
    r := ExampleFinished();
    var s := Entered(r.states[8], Register(SECOND));
    r := OneStepMore(r, Register(SECOND), s);
    r := OneStepMore(r, Insert(SECOND), Entered(s, Insert(SECOND)));
    s := Entered(s, Insert(SECOND));
    r := OneStepMore(r, Recheck(SECOND), Entered(s, Recheck(SECOND)));
  }

  /** So a cancel can reach a request that nobody cancelled: the call marked the first request, that
      one finished, and the call takes and uses the sender of the next one with the same id. */
  lemma CancelReachesAnother() returns (r: Run)
    ensures IsRun(r) && |r.steps| == 13 && r.steps[4] == Mark(Client(0)) && r.steps[11] == Take(Client(0))
    ensures SECOND !in r.states[4].phases && SECOND !in r.states[13].flagged
    ensures At(r.states[13], SECOND, Waiting) && SECOND in r.states[13].inbox && r.states[13].inbox[SECOND] == Cancel
  {
    r := SecondWaits();
    var s := Acted(r.states[11], Take(Client(0)));
    r := OneStepMore(r, Take(Client(0)), s);
    r := OneStepMore(r, Send(Client(0), SECOND), Acted(s, Send(Client(0), SECOND)));
  }

  // --- The runtime object ---

  datatype RegisterError = Canceled | DuplicateId

  /** An answer that comes after the deadline counts as none. */
  function Answer(allow: bool, expired: bool): Decision {
    if expired then TimedOut else if allow then Allow else Deny
  }

  /** The maps behind the two locks. Each method is one critical section of the protocol. */
  class McpRuntime {
    var active: map<string, Ticket>
    var early: set<string>
    var flagged: set<Ticket>
    var pending: map<string, Ticket>

    ghost predicate Matches(s: State)
      reads this
    {
      active == s.active && early == s.early && flagged == s.flagged && pending == s.pending
    }

    constructor ()
      ensures Matches(INITIAL)
    {
      active, early, flagged, pending := map[], {}, {}, map[];
    }

    method RegisterRequest(t: Ticket, ghost s: State) returns (r: Result<(), RegisterError>)
      requires Matches(s) && t !in s.phases
      modifies this`active, this`early
      ensures Matches(AfterRegister(s, t)) && (r.Ok? <==> t in AfterRegister(s, t).phases)
      ensures t.id in s.early ==> r == Err(Canceled)
      ensures t.id !in s.early && t.id in s.active ==> r == Err(DuplicateId)
    {
      if t.id in early {
        early := early - {t.id};
        return Err(Canceled);
      }
      if t.id in active {
        return Err(DuplicateId);
      }
      active := active[t.id := t];
      return Ok(());
    }

    method FinishRequest(t: Ticket, ghost s: State)
      requires Matches(s) && CanLeave(s, Finish(t))
      modifies this`active
      ensures Matches(Left(s, Finish(t)))
    {
      active := active - {t.id};
    }

    /** First half of `cancel_request`. */
    method MarkCanceled(id: string, ghost s: State) returns (isActive: bool)
      requires Matches(s)
      modifies this`flagged, this`early
      ensures Matches(AfterMark(s, id)) && (isActive <==> id in s.active)
    {
      if id in active {
        flagged := flagged + {active[id]};
        return true;
      }
      if |early| >= MAX_EARLY {
        early := {};
      }
      early := early + {id};
      return false;
    }

    /** Second half: the sender to use, if there is one. */
    method TakePending(a: Actor, id: string, ghost s: State) returns (taken: Option<Ticket>)
      requires Matches(s)
      modifies this`pending
      ensures Matches(AfterTake(s, a, id)) && (taken.Some? <==> id in s.pending) && pending == s.pending - {id}
      ensures taken.Some? ==> taken.value == s.pending[id] && taken.value in AfterTake(s, a, id).held
      ensures taken.Some? ==> AfterTake(s, a, id).held[taken.value] == Holder(a, Cancel)
    {
      if id in pending {
        taken := Some(pending[id]);
        pending := pending - {id};
      } else {
        taken := None;
      }
    }

    /** The user's answer: sent at once, under the lock, to the request it is for. */
    method ResolveApproval(id: string, allow: bool, expired: bool, ghost s: State)
      returns (ok: bool, sent: Option<(Ticket, Decision)>)
      requires Matches(s)
      modifies this`pending
      ensures Matches(AfterResolve(s, id, Answer(allow, expired))) && (ok <==> id in s.pending && !expired)
      ensures pending == s.pending - {id} && (id !in s.pending ==> sent.None?)
      ensures id in s.pending ==> sent.Some? && sent.value.0 == s.pending[id]
      ensures id in s.pending && expired ==> sent.value.1 == TimedOut
      ensures id in s.pending && !expired && allow ==> sent.value.1 == Allow
      ensures id in s.pending && !expired && !allow ==> sent.value.1 == Deny
    {
      if id !in pending {
        return false, None;
      }
      var t := pending[id];
      pending := pending - {id};
      if expired {
        return false, Some((t, TimedOut));
      }
      return true, Some((t, if allow then Allow else Deny));
    }

    /** Takes every pending request. */
    method DenyAllPending(a: Actor, ghost s: State) returns (taken: set<Ticket>)
      requires Matches(s)
      modifies this`pending
      ensures Matches(AfterTakeMany(s, a, s.pending.Keys)) && pending == map[] && taken == s.pending.Values
      ensures forall t :: t in taken ==> t in AfterTakeMany(s, a, s.pending.Keys).held
      ensures forall t :: t in taken ==> AfterTakeMany(s, a, s.pending.Keys).held[t] == Holder(a, Deny)
    {
      taken := pending.Values;
      pending := map[];
      assert s.pending - s.pending.Keys == map[];
    }

    /** The revocation of a host: takes the requests for that alias, and only those. */
    method TakeHost(a: Actor, alias: string, ghost s: State) returns (taken: set<Ticket>)
      requires Matches(s)
      modifies this`pending
      ensures taken == set id | id in s.pending && s.pending[id].alias == alias :: s.pending[id]
      ensures Matches(AfterTakeMany(s, a, set id | id in s.pending && s.pending[id].alias == alias))
      ensures forall id :: id in pending <==> id in s.pending && s.pending[id].alias != alias
      ensures forall id :: id in pending ==> pending[id] == s.pending[id]
    {
      var ids := set id | id in pending && pending[id].alias == alias;
      taken := {};
      var rest := ids;
      while rest != {}
        invariant rest <= ids && pending == s.pending - (ids - rest)
        invariant taken == TicketsOf(s.pending, ids - rest)
        decreases rest
      {
        var id :| id in rest;
        assert ids - (rest - {id}) == (ids - rest) + {id};
        taken := taken + {pending[id]};
        pending := pending - {id};
        rest := rest - {id};
      }
      assert ids - {} == ids;
    }
  }
}
