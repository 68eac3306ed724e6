/** What a request is decided: by the one step that takes its sender out of `pending`, whether that
    is the user's answer, a cancel, or a refusal of everything or of a host.
 */
module McpDecisions {
  import opened Values
  import opened McpApproval

  /** The step takes the sender of t, to send this decision with it. */
  ghost predicate Takes(s: State, step: Step, t: Ticket, d: Decision) {
    && InPending(s, t)
    && (|| step == Resolve(t.id, d)
        || (step.Take? && HandOf(s, step.a) == Marked(t.id) && d == Cancel)
        || (step.TakeMany? && t.id in step.ids && d == Deny))
  }

  /** The decision is on its way to the request, or has arrived. */
  ghost predicate Due(s: State, t: Ticket, d: Decision) {
    || (t in s.held && s.held[t].decision == d)
    || (t in s.inbox && s.inbox[t] == d)
    || (d != TimedOut && At(s, t, Decided(d)))
  }

  // --- Every decision comes from such a step ---

  /** Neither senders nor decisions have changed. */
  ghost predicate SameSenders(s: State, s': State) {
    s'.held == s.held && s'.inbox == s.inbox && s'.sent == s.sent
  }

  lemma SameAfterRegister(s: State, t: Ticket)
    ensures SameSenders(s, AfterRegister(s, t))
  {
  }

  lemma SameAfterRecheck(s: State, t: Ticket)
    ensures SameSenders(s, AfterRecheck(s, t))
  {
  }

  /** They do not change before the wait. */
  lemma SameBeforeWait(s: State, step: Step)
    requires CanEnter(s, step)
    ensures SameSenders(s, Entered(s, step))
  {
    match step
    case Register(t) => SameAfterRegister(s, t);
    case Insert(_) =>
    case Recheck(t) => SameAfterRecheck(s, t);
    case SelfDone(_) =>
  }

  lemma UndecidedByRegister(s: State, u: Ticket, t: Ticket, d: Decision)
    requires At(AfterRegister(s, u), t, Decided(d))
    ensures At(s, t, Decided(d))
  {
  }

  lemma UndecidedByRecheck(s: State, u: Ticket, t: Ticket, d: Decision)
    requires At(AfterRecheck(s, u), t, Decided(d))
    ensures At(s, t, Decided(d))
  {
  }

  lemma UndecidedByEntry(s: State, step: Step, t: Ticket, d: Decision)
    requires CanEnter(s, step) && At(Entered(s, step), t, Decided(d))
    ensures At(s, t, Decided(d))
  {
    match step
    case Register(u) => UndecidedByRegister(s, u, t, d);
    case Insert(_) =>
    case Recheck(u) => UndecidedByRecheck(s, u, t, d);
    case SelfDone(_) =>
  }

  lemma DueBeforeEntry(s: State, step: Step, t: Ticket, d: Decision)
    requires CanEnter(s, step) && Due(Entered(s, step), t, d)
    ensures Due(s, t, d)
  {
    SameBeforeWait(s, step);
    if At(Entered(s, step), t, Decided(d)) {
      UndecidedByEntry(s, step, t, d);
    }
  }

  lemma DueBeforeLeaving(s: State, step: Step, t: Ticket, d: Decision)
    requires CanLeave(s, step) && Due(Left(s, step), t, d)
    ensures Due(s, t, d)
  {
    match step
    case Receive(_) =>
    case Timeout(_) =>
    case Clean(_) =>
    case Finish(_) =>
  }

  lemma DueBeforeTake(s: State, a: Actor, t: Ticket, d: Decision)
    requires CanAct(s, Take(a)) && Due(Acted(s, Take(a)), t, d) && FiledUnderId(s.pending, s.phases)
    ensures Due(s, t, d) || Takes(s, Take(a), t, d)
  {
  }

  lemma DueBeforeSend(s: State, a: Actor, u: Ticket, t: Ticket, d: Decision)
    requires CanAct(s, Send(a, u)) && Due(Acted(s, Send(a, u)), t, d)
    ensures Due(s, t, d)
  {
  }

  lemma DueBeforeResolve(s: State, id: string, x: Decision, t: Ticket, d: Decision)
    requires Due(AfterResolve(s, id, x), t, d) && FiledUnderId(s.pending, s.phases)
    ensures Due(s, t, d) || Takes(s, Resolve(id, x), t, d)
  {
  }

  lemma DueBeforeTakeMany(s: State, a: Actor, ids: set<string>, t: Ticket, d: Decision)
    requires Due(AfterTakeMany(s, a, ids), t, d) && FiledUnderId(s.pending, s.phases)
    ensures Due(s, t, d) || Takes(s, TakeMany(a, ids), t, d)
  {
  }

  lemma DueBeforeAct(s: State, step: Step, t: Ticket, d: Decision)
    requires CanAct(s, step) && Due(Acted(s, step), t, d) && FiledUnderId(s.pending, s.phases)
    ensures Due(s, t, d) || Takes(s, step, t, d)
  {
    match step
    case StartCancel(_, _) =>
    case Mark(_) =>
    case Take(a) => DueBeforeTake(s, a, t, d);
    case Send(a, u) => DueBeforeSend(s, a, u, t, d);
    case Resolve(id, x) => DueBeforeResolve(s, id, x, t, d);
    case TakeMany(a, ids) => DueBeforeTakeMany(s, a, ids, t, d);
  }

  lemma DueBefore(s: State, step: Step, s': State, t: Ticket, d: Decision)
    requires Inv(s) && IsStep(s, step, s') && Due(s', t, d)
    ensures Due(s, t, d) || Takes(s, step, t, d)
  {
    if CanEnter(s, step) {
      DueBeforeEntry(s, step, t, d);
    } else if CanLeave(s, step) {
      DueBeforeLeaving(s, step, t, d);
    } else {
      DueBeforeAct(s, step, t, d);
    }
  }

  /** Every decision that is due was given by a step that took the request's sender. */
  lemma {:induction false} DecisionHasSource(r: Run, k: nat, t: Ticket, d: Decision) returns (j: nat)
    requires IsRun(r) && k <= |r.steps| && Due(r.states[k], t, d)
    ensures j < k && Takes(r.states[j], r.steps[j], t, d)
  {
    StepOf(r, k - 1);
    RunKeepsInv(r, k - 1);
    DueBefore(r.states[k - 1], r.steps[k - 1], r.states[k], t, d);
    if Due(r.states[k - 1], t, d) {
      j := DecisionHasSource(r, k - 1, t, d);
    } else {
      j := k - 1;
    }
  }

  /** A request is allowed only if the user allowed it: if it is decided Allow, an earlier step was
      that answer, given while the request was pending. */
  lemma AllowedByUser(r: Run, k: nat, t: Ticket) returns (j: nat)
    requires IsRun(r) && k <= |r.steps| && At(r.states[k], t, Decided(Allow))
    ensures j < k && r.steps[j] == Resolve(t.id, Allow) && InPending(r.states[j], t)
  {
    j := DecisionHasSource(r, k, t, Allow);
  }

  // --- And every such step decides ---

  /** Nothing but d, or nothing at all in time, can be decided any more. */
  ghost predicate Sealed(s: State, t: Ticket, d: Decision) {
    && t in s.phases && !s.phases[t].Registered? && !InPending(s, t)
    && (t in s.held ==> s.held[t].decision == d)
    && (t in s.inbox ==> s.inbox[t] == d)
    && (s.phases[t].Decided? ==> s.phases[t].decision == d || s.phases[t].decision == TimedOut)
  }

  lemma SealedAfterRegister(s: State, u: Ticket, t: Ticket, d: Decision)
    requires IsNew(s, u) && Sealed(s, t, d)
    ensures Sealed(AfterRegister(s, u), t, d)
  {
  }

  lemma SealedAfterInsert(s: State, u: Ticket, t: Ticket, d: Decision)
    requires At(s, u, Registered) && Sealed(s, t, d)
    ensures Sealed(AfterInsert(s, u), t, d)
  {
  }

  lemma SealedAfterRecheck(s: State, u: Ticket, t: Ticket, d: Decision)
    requires At(s, u, Inserted) && Sealed(s, t, d)
    ensures Sealed(AfterRecheck(s, u), t, d)
  {
  }

  lemma SealedAfterEntry(s: State, step: Step, t: Ticket, d: Decision)
    requires CanEnter(s, step) && Sealed(s, t, d)
    ensures Sealed(Entered(s, step), t, d)
  {
    match step
    case Register(u) => SealedAfterRegister(s, u, t, d);
    case Insert(u) => SealedAfterInsert(s, u, t, d);
    case Recheck(u) => SealedAfterRecheck(s, u, t, d);
    case SelfDone(_) =>
  }

  lemma SealedAfterLeaving(s: State, step: Step, t: Ticket, d: Decision)
    requires CanLeave(s, step) && Sealed(s, t, d)
    ensures Sealed(Left(s, step), t, d)
  {
    match step
    case Receive(_) =>
    case Timeout(_) =>
    case Clean(_) =>
    case Finish(_) =>
  }

  lemma SealedAfterTakeMany(s: State, a: Actor, ids: set<string>, t: Ticket, d: Decision)
    requires Sealed(s, t, d) && FiledUnderId(s.pending, s.phases)
    ensures Sealed(AfterTakeMany(s, a, ids), t, d)
  {
  }

  lemma SealedAfterResolve(s: State, id: string, x: Decision, t: Ticket, d: Decision)
    requires Sealed(s, t, d) && FiledUnderId(s.pending, s.phases)
    ensures Sealed(AfterResolve(s, id, x), t, d)
  {
  }

  lemma SealedAfterTake(s: State, a: Actor, t: Ticket, d: Decision)
    requires CanAct(s, Take(a)) && Sealed(s, t, d) && FiledUnderId(s.pending, s.phases)
    ensures Sealed(Acted(s, Take(a)), t, d)
  {
  }

  lemma SealedAfterAct(s: State, step: Step, t: Ticket, d: Decision)
    requires CanAct(s, step) && Sealed(s, t, d) && FiledUnderId(s.pending, s.phases)
    ensures Sealed(Acted(s, step), t, d)
  {
    match step
    case StartCancel(_, _) =>
    case Mark(_) =>
    case Take(a) => SealedAfterTake(s, a, t, d);
    case Send(_, _) =>
    case Resolve(id, x) => SealedAfterResolve(s, id, x, t, d);
    case TakeMany(a, ids) => SealedAfterTakeMany(s, a, ids, t, d);
  }

  lemma SealedAfter(s: State, step: Step, s': State, t: Ticket, d: Decision)
    requires Inv(s) && IsStep(s, step, s') && Sealed(s, t, d)
    ensures Sealed(s', t, d)
  {
    if CanEnter(s, step) {
      SealedAfterEntry(s, step, t, d);
    } else if CanLeave(s, step) {
      SealedAfterLeaving(s, step, t, d);
    } else {
      SealedAfterAct(s, step, t, d);
    }
  }

  lemma {:induction false} SealedStays(r: Run, i: nat, k: nat, t: Ticket, d: Decision)
    requires IsRun(r) && i <= k <= |r.steps| && Sealed(r.states[i], t, d)
    ensures Sealed(r.states[k], t, d)
  {
    if i < k {
      SealedStays(r, i, k - 1, t, d);
      StepOf(r, k - 1);
      RunKeepsInv(r, k - 1);
      SealedAfter(r.states[k - 1], r.steps[k - 1], r.states[k], t, d);
    }
  }

  /** Only a sender that was used, or the time limit, decides a request. */
  ghost predicate SentOrTimedOut(s: State, t: Ticket) {
    t in s.phases && s.phases[t].Decided? && s.phases[t].decision != TimedOut ==> t in s.sent
  }

  lemma SentOrTimedOutLeaving(s: State, step: Step, t: Ticket)
    requires CanLeave(s, step) && SentOrTimedOut(s, t) && (step.Receive? ==> step.t in s.sent)
    ensures SentOrTimedOut(Left(s, step), t)
  {
    match step
    case Receive(_) =>
    case Timeout(_) =>
    case Clean(_) =>
    case Finish(_) =>
  }

  lemma SentGrows(s: State, step: Step, t: Ticket)
    requires CanAct(s, step) && t in s.sent
    ensures t in Acted(s, step).sent
  {
    match step
    case StartCancel(_, _) =>
    case Mark(_) =>
    case Take(_) =>
    case Send(_, _) =>
    case Resolve(_, _) =>
    case TakeMany(_, _) =>
  }

  lemma SentOrTimedOutAfter(s: State, step: Step, s': State, t: Ticket)
    requires Inv(s) && IsStep(s, step, s') && SentOrTimedOut(s, t)
    ensures SentOrTimedOut(s', t)
  {
    if CanEnter(s, step) {
      SameBeforeWait(s, step);
      if t in s'.phases && s'.phases[t].Decided? {
        UndecidedByEntry(s, step, t, s'.phases[t].decision);
      }
    } else if CanLeave(s, step) {
      if step.Receive? {
        InboxWasSent(s, step.t);
      }
      SentOrTimedOutLeaving(s, step, t);
    } else {
      PhasesAfterAct(s, step);
      if t in s.sent {
        SentGrows(s, step, t);
      }
    }
  }

  lemma InboxWasSent(s: State, t: Ticket)
    requires Inv(s) && t in s.phases && t in s.inbox
    ensures t in s.sent
  {
    assert TicketInv(s, t);
  }

  lemma {:induction false} RunSentOrTimedOut(r: Run, k: nat, t: Ticket)
    requires IsRun(r) && k <= |r.steps|
    ensures SentOrTimedOut(r.states[k], t)
  {
    if k > 0 {
      RunSentOrTimedOut(r, k - 1, t);
      StepOf(r, k - 1);
      RunKeepsInv(r, k - 1);
      SentOrTimedOutAfter(r.states[k - 1], r.steps[k - 1], r.states[k], t);
    }
  }

  /** A request that is still pending has been decided nothing, except that its time was up. */
  lemma PendingIsUndecided(r: Run, k: nat, t: Ticket)
    requires IsRun(r) && k <= |r.steps| && InPending(r.states[k], t)
    ensures t in r.states[k].phases && !r.states[k].phases[t].Registered?
    ensures r.states[k].phases[t].Decided? ==> r.states[k].phases[t].decision == TimedOut
    ensures t !in r.states[k].held && t !in r.states[k].inbox
  {
    RunKeepsInv(r, k);
    RunSentOrTimedOut(r, k, t);
    assert TicketInv(r.states[k], t);
  }

  /** The step that takes a sender leaves its decision on the way. */
  lemma TakenByStep(s: State, step: Step, s': State, t: Ticket, d: Decision)
    requires IsStep(s, step, s') && Takes(s, step, t, d)
    ensures !InPending(s', t) && s'.phases == s.phases
    ensures (t in s'.held && s'.held[t].decision == d && s'.inbox == s.inbox)
            || (t in s'.inbox && s'.inbox[t] == d && s'.held == s.held)
  {
    assert CanAct(s, step);
  }

  /** The step that takes the sender decides: whatever happens afterwards, the request is decided as
      that step says, or its time is up first. */
  lemma TakerDecides(r: Run, j: nat, k: nat, t: Ticket, d: Decision)
    requires IsRun(r) && j < k <= |r.steps| && Takes(r.states[j], r.steps[j], t, d)
    ensures t in r.states[k].phases
    ensures r.states[k].phases[t].Decided? ==> r.states[k].phases[t].decision in {d, TimedOut}
  {
    PendingIsUndecided(r, j, t);
    StepOf(r, j);
    TakenByStep(r.states[j], r.steps[j], r.states[j + 1], t, d);
    SealedStays(r, j + 1, k, t, d);
  }

  /** So no request that was denied with all others, or with its host, is allowed. */
  lemma DeniedIsNotAllowed(r: Run, j: nat, k: nat, t: Ticket)
    requires IsRun(r) && j < k <= |r.steps| && InPending(r.states[j], t)
    requires r.steps[j].TakeMany? && t.id in r.steps[j].ids
    ensures t in r.states[k].phases
    ensures r.states[k].phases[t].Decided? ==> r.states[k].phases[t].decision in {Deny, TimedOut}
  {
    TakerDecides(r, j, k, t, Deny);
  }
}
