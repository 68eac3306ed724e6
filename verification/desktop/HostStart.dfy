/** Starting the app as a host, once, for any number of clients in any number of processes: look,
    take this process's lock, take the file lock, look again, start, wait.
 */
module HostStart {
  import opened Values
  import Runs

  // --- One call, on its own ---

  datatype SpawnLocks = Held | Busy | Denied

  /** How a call ends, which of its looks decides it, and whether it started the host. `answers(k)`
      is what its k-th look finds; it looks `polls` times after a start. */
  predicate Outcome(
    answers: nat -> bool, lock: SpawnLocks, startWorks: bool, polls: nat, found: bool, started: bool, looks: nat)
  {
    if answers(0) then found && !started && looks == 1
    else if lock.Denied? then !found && !started && looks == 1
    else if lock.Busy? || answers(1) then found == answers(1) && !started && looks == 2
    else if !startWorks then !found && !started && looks == 2
    else started && 2 <= looks <= 2 + polls && (found || looks == 2 + polls) && (found ==> looks > 2)
  }

  /** One call of `ensure_started`. It succeeds exactly when some look did, it looks no further after
      that, and it starts the host only with the locks held and after two looks that found nothing. */
  method EnsureStarted(answers: nat -> bool, lock: SpawnLocks, startWorks: bool, polls: nat)
    returns (found: bool, started: bool, looks: nat)
    ensures 1 <= looks <= 2 + polls && (found <==> answers(looks - 1))
    ensures forall k :: 0 <= k < looks - 1 ==> !answers(k)
    ensures started <==> lock.Held? && startWorks && !answers(0) && !answers(1)
    ensures started && !found ==> looks == 2 + polls
    ensures !answers(0) && !lock.Denied? ==> looks >= 2
    ensures Outcome(answers, lock, startWorks, polls, found, started, looks)
  {
    started, looks := false, 1;
    if answers(0) {
      return true, started, looks;
    }
    if lock.Denied? {
      return false, started, looks;
    }
    looks := 2;
    if lock.Busy? || answers(1) {
      return answers(1), started, looks;
    }
    if !startWorks {
      return false, started, looks;
    }
    started := true;
    while looks < 2 + polls
      invariant 2 <= looks <= 2 + polls && forall k :: 0 <= k < looks ==> !answers(k)
    {
      looks := looks + 1;
      if answers(looks - 1) {
        return true, started, looks;
      }
    }
    found := false;
  }

  // --- Many calls at once ---

  /** Where a call is: before its first look, waiting for its process's lock, trying the file lock,
      holding what locks it got, having looked again in vain, waiting for the host it started. */
  datatype Phase = Begun | WantsLocks | TriesFile | Locked | Clear | Waiting | Finished(found: bool)

  /** `fileLock` says whether the lock file can be locked where this call runs. */
  datatype Call = Call(process: nat, fileLock: bool, phase: Phase)

  datatype State = State(
    calls: map<nat, Call>,
    processLocks: map<nat, nat>,  // process -> the call that holds its lock
    fileHolder: Option<nat>,
    up: bool,                     // the host answers
    starters: seq<nat>)           // the calls that started a host, in order

  datatype Step =
    | Look(c: nat)
    | TakeProcessLock(c: nat)
    | TakeFileLock(c: nat)
    | FileBusy(c: nat)
    | FileUnavailable(c: nat)
    | FileDenied(c: nat)
    | StartHost(c: nat, works: bool)
    | GiveUp(c: nat)
    | Crash(c: nat)
    | HostAnswers

  function To(s: State, c: nat, phase: Phase): State
    requires c in s.calls
  {
    s.(calls := s.calls[c := s.calls[c].(phase := phase)])
  }

  /** The call ends: its guards are dropped, or the system releases its locks. */
  function Ends(s: State, c: nat, found: bool): State
    requires c in s.calls
  {
    var p := s.calls[c].process;
    To(s, c, Finished(found)).(
      processLocks := if p in s.processLocks && s.processLocks[p] == c then s.processLocks - {p} else s.processLocks,
      fileHolder := if s.fileHolder == Some(c) then None else s.fileHolder)
  }

  ghost predicate IsStep(s: State, step: Step, s': State) {
    if step.HostAnswers? then s' == s.(up := true)
    else
      var c := step.c;
      c in s.calls &&
      var call := s.calls[c];
      match step
      case Look(_) =>
        && call.phase in {Begun, Locked, Waiting}
        && s' == if s.up then Ends(s, c, true)
                 else if call.phase.Begun? then To(s, c, WantsLocks)
                 else if call.phase.Locked? then To(s, c, Clear)
                 else s
      case TakeProcessLock(_) =>
        && call.phase.WantsLocks? && call.process !in s.processLocks
        && s' == To(s, c, TriesFile).(processLocks := s.processLocks[call.process := c])
      case TakeFileLock(_) =>
        && call.phase.TriesFile? && call.fileLock && s.fileHolder.None?
        && s' == To(s, c, Locked).(fileHolder := Some(c))
      case FileBusy(_) =>
        call.phase.TriesFile? && call.fileLock && s.fileHolder.Some? && s' == Ends(s, c, s.up)
      case FileUnavailable(_) =>
        call.phase.TriesFile? && !call.fileLock && s' == To(s, c, Locked)
      case FileDenied(_) =>
        call.phase.TriesFile? && s' == Ends(s, c, false)
      case StartHost(_, works) =>
        && call.phase.Clear?
        && s' == if works then To(s, c, Waiting).(starters := s.starters + [c]) else Ends(s, c, false)
      case GiveUp(_) =>
        call.phase.Waiting? && s' == Ends(s, c, false)
      case Crash(_) =>
        !call.phase.Finished? && s' == Ends(s, c, false)
  }

  type Run = Runs.Run<State, Step>

  ghost const STEP: (State, Step, State) -> bool := (s, step, s') => IsStep(s, step, s')

  ghost predicate IsRun(r: Run) {
    Runs.Follows(r, STEP)
  }

  lemma StepOf(r: Run, k: nat)
    requires IsRun(r) && k < |r.steps|
    ensures IsStep(r.states[k], r.steps[k], r.states[k + 1])
  {
    assert Runs.StepAt(r, STEP, k);
  }

  /** Nothing happened yet: every call is about to begin. */
  ghost predicate Fresh(s: State) {
    && s.processLocks == map[] && s.fileHolder.None? && s.starters == []
    && forall c :: c in s.calls ==> s.calls[c].phase.Begun?
  }

  /** The call may start the host or has started it. */
  predicate Inside(call: Call) {
    call.phase.Locked? || call.phase.Clear? || call.phase.Waiting?
  }

  /** Who holds which lock follows from where every call is. */
  ghost predicate LockInv(s: State) {
    && (forall c :: c in s.calls && (Inside(s.calls[c]) || s.calls[c].phase.TriesFile?) ==>
          s.calls[c].process in s.processLocks && s.processLocks[s.calls[c].process] == c)
    && (forall c :: c in s.calls && Inside(s.calls[c]) && s.calls[c].fileLock ==> s.fileHolder == Some(c))
  }

  lemma ToKeepsLockInv(s: State, c: nat, phase: Phase)
    requires LockInv(s) && c in s.calls
    requires phase.TriesFile? || Inside(Call(0, true, phase)) ==> HoldsProcessLock(s, c)
    requires Inside(Call(0, true, phase)) && s.calls[c].fileLock ==> s.fileHolder == Some(c)
    ensures LockInv(To(s, c, phase))
  {
  }

  lemma EndsKeepsLockInv(s: State, c: nat, found: bool)
    requires LockInv(s) && c in s.calls
    ensures LockInv(Ends(s, c, found))
  {
  }

  ghost predicate HoldsProcessLock(s: State, c: nat)
    requires c in s.calls
  {
    s.calls[c].process in s.processLocks && s.processLocks[s.calls[c].process] == c
  }

  lemma TakesKeepLockInv(s: State, step: Step, s': State)
    requires LockInv(s) && IsStep(s, step, s') && (step.TakeProcessLock? || step.TakeFileLock?)
    ensures LockInv(s')
  {
  }

  lemma StepKeepsLockInv(s: State, step: Step, s': State)
    requires LockInv(s) && IsStep(s, step, s')
    ensures LockInv(s')
  {
    if step.TakeProcessLock? || step.TakeFileLock? {
      TakesKeepLockInv(s, step, s');
    } else if !step.HostAnswers? {
      var c := step.c;
      if s'.calls[c].phase.Finished? {
        EndsKeepsLockInv(s, c, s'.calls[c].phase.found);
      } else {
        ToKeepsLockInv(s, c, s'.calls[c].phase);
      }
    }
  }

  lemma {:induction false} RunKeepsLockInv(r: Run, k: nat)
    requires IsRun(r) && Fresh(r.states[0]) && k <= |r.steps|
    ensures LockInv(r.states[k])
  {
    if k > 0 {
      RunKeepsLockInv(r, k - 1);
      StepOf(r, k - 1);
      StepKeepsLockInv(r.states[k - 1], r.steps[k - 1], r.states[k]);
    }
  }

  /** The call holds its process's lock, and the file lock where there is one. */
  ghost predicate HoldsLocks(s: State, c: nat) {
    && c in s.calls && s.calls[c].process in s.processLocks && s.processLocks[s.calls[c].process] == c
    && (s.calls[c].fileLock ==> s.fileHolder == Some(c))
  }

  lemma ClearComesFromLook(s: State, step: Step, s': State, c: nat)
    requires IsStep(s, step, s') && c in s'.calls && s'.calls[c].phase.Clear?
    ensures c in s.calls
    ensures s.calls[c].phase.Clear? || (step == Look(c) && s.calls[c].phase.Locked? && !s.up)
  {
  }

  /** A start happens only while holding the locks and after a failed look made under them: before
      every state in which a call may start the host, it looked in vain, and it has held its locks
      ever since. */
  lemma {:induction false} StartFollowsFailedLook(r: Run, c: nat, i: nat) returns (j: nat)
    requires IsRun(r) && Fresh(r.states[0]) && i <= |r.steps|
    requires c in r.states[i].calls && r.states[i].calls[c].phase.Clear?
    ensures j < i && r.steps[j] == Look(c) && !r.states[j].up
    ensures forall k :: j <= k <= i ==> HoldsLocks(r.states[k], c)
  {
    assert i > 0;
    RunKeepsLockInv(r, i);
    RunKeepsLockInv(r, i - 1);
    StepOf(r, i - 1);
    ClearComesFromLook(r.states[i - 1], r.steps[i - 1], r.states[i], c);
    if r.states[i - 1].calls[c].phase.Clear? {
      j := StartFollowsFailedLook(r, c, i - 1);
    } else {
      j := i - 1;
    }
  }

  // --- At most one start ---

  /** Calls that can keep each other out: of one process, or all able to lock the file. */
  ghost predicate SameLock(s: State, group: set<nat>) {
    || (forall a, b :: a in group && b in group && a in s.calls && b in s.calls ==> s.calls[a].process == s.calls[b].process)
    || (forall a :: a in group && a in s.calls ==> s.calls[a].fileLock)
  }

  function StartsOf(starters: seq<nat>, group: set<nat>): nat {
    if starters == [] then 0 else
      StartsOf(starters[..|starters| - 1], group) + (if starters[|starters| - 1] in group then 1 else 0)
  }

  /** A started host answers before its starter's wait ends, whichever way that ends. */
  ghost predicate HostsComeUp(r: Run)
    requires |r.states| == |r.steps| + 1
  {
    forall i :: 0 <= i < |r.steps| ==> ComesUpInTime(r.states[i], r.steps[i])
  }

  ghost predicate ComesUpInTime(s: State, step: Step) {
    (step.GiveUp? || step.Crash?) && step.c in s.calls && s.calls[step.c].phase.Waiting? ==> s.up
  }

  /** A call of the group stops waiting for the host it started, which does not answer. */
  ghost predicate LosesWait(s: State, step: Step, group: set<nat>) {
    && (step.GiveUp? || step.Crash?) && step.c in group && step.c in s.calls
    && s.calls[step.c].phase.Waiting? && !s.up
  }

  ghost function LostWaits(r: Run, group: set<nat>, k: nat): nat
    requires |r.states| == |r.steps| + 1 && k <= |r.steps|
  {
    if k == 0 then 0 else
      LostWaits(r, group, k - 1) + (if LosesWait(r.states[k - 1], r.steps[k - 1], group) then 1 else 0)
  }

  /** Every start but one has a lost wait to it; with as many starts as lost waits, nobody waits in
      vain and the next one may start. */
  ghost predicate OnceInv(s: State, group: set<nat>, lost: nat) {
    && LockInv(s) && SameLock(s, group) && StartsOf(s.starters, group) <= 1 + lost
    && (forall c :: c in group && c in s.calls && s.calls[c].phase.Clear? ==> StartsOf(s.starters, group) <= lost)
    && (StartsOf(s.starters, group) > lost && !s.up ==> SomeoneWaits(s, group))
  }

  ghost predicate SomeoneWaits(s: State, group: set<nat>) {
    exists c :: c in group && c in s.calls && s.calls[c].phase.Waiting?
  }

  lemma Exclusive(s: State, group: set<nat>, a: nat, b: nat)
    requires LockInv(s) && SameLock(s, group) && a in group && b in group && a in s.calls && b in s.calls
    requires Inside(s.calls[a]) && Inside(s.calls[b])
    ensures a == b
  {
  }

  lemma StepKeepsGroup(s: State, step: Step, s': State, group: set<nat>)
    requires IsStep(s, step, s') && SameLock(s, group)
    ensures SameLock(s', group)
  {
  }

  lemma StepKeepsWaiter(s: State, step: Step, s': State, group: set<nat>)
    requires IsStep(s, step, s') && !LosesWait(s, step, group) && !s'.up && SomeoneWaits(s, group)
    ensures SomeoneWaits(s', group)
  {
    var w :| w in group && w in s.calls && s.calls[w].phase.Waiting?;
    assert w in s'.calls && s'.calls[w].phase.Waiting?;
  }

  /** While a starter of the group waits for a host that is not up, nobody else of it gets ready. */
  lemma StepKeepsClear(s: State, step: Step, s': State, group: set<nat>, lost: nat, c: nat)
    requires OnceInv(s, group, lost) && IsStep(s, step, s')
    requires c in group && c in s'.calls && s'.calls[c].phase.Clear?
    ensures StartsOf(s.starters, group) <= lost
  {
    ClearComesFromLook(s, step, s', c);
    if step == Look(c) && StartsOf(s.starters, group) > lost && !s.up {
      var w :| w in group && w in s.calls && s.calls[w].phase.Waiting?;
      if s.calls[c].phase.Locked? {
        Exclusive(s, group, c, w);
      }
    }
  }

  lemma StartersAfter(s: State, step: Step, s': State, group: set<nat>)
    requires IsStep(s, step, s')
    ensures if step.StartHost? && step.works && step.c in group then
              StartsOf(s'.starters, group) == StartsOf(s.starters, group) + 1
            else StartsOf(s'.starters, group) == StartsOf(s.starters, group)
  {
    if step.StartHost? && step.works {
      assert s'.starters[..|s.starters|] == s.starters;
    }
  }

  lemma StartLeavesNoneClear(s: State, step: Step, s': State, group: set<nat>, c: nat)
    requires LockInv(s) && SameLock(s, group) && IsStep(s, step, s') && step.StartHost? && step.works && step.c in group
    requires c in group && c in s'.calls
    ensures !s'.calls[c].phase.Clear?
  {
    if Inside(s.calls[c]) {
      Exclusive(s, group, step.c, c);
    }
  }

  lemma StepKeepsOnce(s: State, step: Step, s': State, group: set<nat>, lost: nat)
    requires OnceInv(s, group, lost) && IsStep(s, step, s')
    ensures OnceInv(s', group, lost + (if LosesWait(s, step, group) then 1 else 0))
  {
    StepKeepsLockInv(s, step, s');
    StepKeepsGroup(s, step, s', group);
    StartersAfter(s, step, s', group);
    var starts := step.StartHost? && step.works && step.c in group;
    forall c | c in group && c in s'.calls && s'.calls[c].phase.Clear? ensures StartsOf(s'.starters, group) <= lost {
      StepKeepsClear(s, step, s', group, lost, c);
      if starts {
        StartLeavesNoneClear(s, step, s', group, c);
      }
    }
    if starts {
      assert step.c in group && step.c in s'.calls && s'.calls[step.c].phase.Waiting?;
    } else if !s'.up && StartsOf(s.starters, group) > lost && !LosesWait(s, step, group) {
      StepKeepsWaiter(s, step, s', group);
    }
  }

  /** Calls that can keep each other out start at most one host more than waits of theirs ended with
      no host answering, in every interleaving. */
  lemma {:induction false} StartsAndLostWaits(r: Run, group: set<nat>, k: nat)
    requires IsRun(r) && Fresh(r.states[0]) && k <= |r.steps| && SameLock(r.states[0], group)
    ensures OnceInv(r.states[k], group, LostWaits(r, group, k))
    ensures StartsOf(r.states[k].starters, group) <= 1 + LostWaits(r, group, k)
  {
    if k > 0 {
      StartsAndLostWaits(r, group, k - 1);
      StepOf(r, k - 1);
      StepKeepsOnce(r.states[k - 1], r.steps[k - 1], r.states[k], group, LostWaits(r, group, k - 1));
    }
  }

  lemma {:induction false} NoneLost(r: Run, group: set<nat>, k: nat)
    requires |r.states| == |r.steps| + 1 && HostsComeUp(r) && k <= |r.steps|
    ensures LostWaits(r, group, k) == 0
  {
    if k > 0 {
      NoneLost(r, group, k - 1);
      assert ComesUpInTime(r.states[k - 1], r.steps[k - 1]);
    }
  }

  /** So they start at most one between them if a started host answers before its starter's wait
      ends and keeps answering. */
  lemma AtMostOneStartPerGroup(r: Run, group: set<nat>, k: nat)
    requires IsRun(r) && Fresh(r.states[0]) && HostsComeUp(r) && k <= |r.steps|
    requires SameLock(r.states[0], group)
    ensures StartsOf(r.states[k].starters, group) <= 1
  {
    StartsAndLostWaits(r, group, k);
    NoneLost(r, group, k);
  }

  lemma {:induction false} AllStarts(starters: seq<nat>, group: set<nat>)
    requires forall c :: c in starters ==> c in group
    ensures StartsOf(starters, group) == |starters|
  {
    if starters != [] {
      AllStarts(starters[..|starters| - 1], group);
    }
  }

  lemma {:induction false} StartersAreCalls(r: Run, k: nat)
    requires IsRun(r) && Fresh(r.states[0]) && k <= |r.steps|
    ensures r.states[k].calls.Keys == r.states[0].calls.Keys
    ensures forall c :: c in r.states[k].starters ==> c in r.states[0].calls
  {
    if k > 0 {
      StartersAreCalls(r, k - 1);
      StepOf(r, k - 1);
    }
  }

  /** At most one start ever happens when all calls are of one process or can all lock the file. */
  lemma AtMostOneStart(r: Run, k: nat)
    requires IsRun(r) && Fresh(r.states[0]) && HostsComeUp(r) && k <= |r.steps|
    requires SameLock(r.states[0], r.states[0].calls.Keys)
    ensures |r.states[k].starters| <= 1
  {
    var group := r.states[0].calls.Keys;
    AtMostOneStartPerGroup(r, group, k);
    StartersAreCalls(r, k);
    AllStarts(r.states[k].starters, group);
  }

  lemma Extended(r: Run, step: Step, s': State) returns (r': Run)
    requires IsRun(r) && IsStep(r.states[|r.steps|], step, s')
    ensures IsRun(r') && r' == Runs.Extended(r, step, s')
  {
    r' := Runs.Extended(r, step, s');
    Runs.ExtendedFollows(r, STEP, step, s');
  }

  lemma OneStepMore(r: Run, step: Step, s': State) returns (r': Run)
    requires IsRun(r) && HostsComeUp(r) && IsStep(r.states[|r.steps|], step, s') && !step.GiveUp? && !step.Crash?
    ensures IsRun(r') && HostsComeUp(r') && r'.states[0] == r.states[0]
    ensures |r'.steps| == |r.steps| + 1 && r'.states[|r'.steps|] == s'
  {
    r' := Extended(r, step, s');
    forall i | 0 <= i < |r'.steps| ensures ComesUpInTime(r'.states[i], r'.steps[i]) {
      assert i < |r.steps| ==> ComesUpInTime(r.states[i], r.steps[i]);
    }
  }

  // --- Without a common lock ---

  /** Like s, but with calls a and b at these points, and the host not up. */
  function Pair(s: State, a: nat, b: nat, pa: Phase, pb: Phase, locks: map<nat, nat>, file: Option<nat>, starters: seq<nat>)
    : State
    requires a in s.calls && b in s.calls
  {
    State(s.calls[a := s.calls[a].(phase := pa)][b := s.calls[b].(phase := pb)], locks, file, false, starters)
  }

  lemma PairMoves(
    s: State, a: nat, b: nat, pa: Phase, pb: Phase, locks: map<nat, nat>, file: Option<nat>, starters: seq<nat>, q: Phase)
    requires a in s.calls && b in s.calls && a != b
    ensures var p := Pair(s, a, b, pa, pb, locks, file, starters);
            && p.calls[a] == s.calls[a].(phase := pa) && p.calls[b] == s.calls[b].(phase := pb)
            && To(p, a, q) == Pair(s, a, b, q, pb, locks, file, starters)
            && To(p, b, q) == Pair(s, a, b, pa, q, locks, file, starters)
  {
    var p := Pair(s, a, b, pa, pb, locks, file, starters);
    assert To(p, a, q).calls == Pair(s, a, b, q, pb, locks, file, starters).calls;
    assert To(p, b, q).calls == Pair(s, a, b, pa, q, locks, file, starters).calls;
  }

  /** Two calls of different processes, one of which cannot lock the file. */
  ghost predicate NoCommonLock(s: State, a: nat, b: nat) {
    && a in s.calls && b in s.calls && s.calls[a].process != s.calls[b].process && !s.calls[a].fileLock
    && Fresh(s) && !s.up
  }

  lemma PairTakesProcessLocks(s: State, a: nat, b: nat) returns (r: Run)
    requires NoCommonLock(s, a, b)
    ensures IsRun(r) && HostsComeUp(r) && r.states[0] == s
    ensures var locks := map[s.calls[a].process := a, s.calls[b].process := b];
            r.states[|r.steps|] == Pair(s, a, b, TriesFile, TriesFile, locks, None, [])
  {
    var p, q := s.calls[a].process, s.calls[b].process;
    r := Runs.Run([s], []);
    assert s == Pair(s, a, b, Begun, Begun, map[], None, []);
    PairMoves(s, a, b, Begun, Begun, map[], None, [], WantsLocks);
    r := OneStepMore(r, Look(a), Pair(s, a, b, WantsLocks, Begun, map[], None, []));
    PairMoves(s, a, b, WantsLocks, Begun, map[], None, [], WantsLocks);
    r := OneStepMore(r, Look(b), Pair(s, a, b, WantsLocks, WantsLocks, map[], None, []));
    PairMoves(s, a, b, WantsLocks, WantsLocks, map[], None, [], TriesFile);
    r := OneStepMore(r, TakeProcessLock(a), Pair(s, a, b, TriesFile, WantsLocks, map[p := a], None, []));
    PairMoves(s, a, b, TriesFile, WantsLocks, map[p := a], None, [], TriesFile);
    assert map[p := a][q := b] == map[p := a, q := b];
    r := OneStepMore(r, TakeProcessLock(b), Pair(s, a, b, TriesFile, TriesFile, map[p := a, q := b], None, []));
  }

  lemma PairPassesFileLock(s: State, a: nat, b: nat) returns (r: Run, file: Option<nat>)
    requires NoCommonLock(s, a, b)
    ensures IsRun(r) && HostsComeUp(r) && r.states[0] == s
    ensures var locks := map[s.calls[a].process := a, s.calls[b].process := b];
            r.states[|r.steps|] == Pair(s, a, b, Locked, Locked, locks, file, [])
  {
    var locks: map<nat, nat> := map[s.calls[a].process := a, s.calls[b].process := b];
    r := PairTakesProcessLocks(s, a, b);
    PairMoves(s, a, b, TriesFile, TriesFile, locks, None, [], Locked);
    r := OneStepMore(r, FileUnavailable(a), Pair(s, a, b, Locked, TriesFile, locks, None, []));
    PairMoves(s, a, b, Locked, TriesFile, locks, None, [], Locked);
    file := if s.calls[b].fileLock then Some(b) else None;
    r := OneStepMore(r, if s.calls[b].fileLock then TakeFileLock(b) else FileUnavailable(b),
                     Pair(s, a, b, Locked, Locked, locks, file, []));
  }

  /** Any two calls of different processes of which one cannot lock the file can both start a host,
      although every host comes up in time. */
  lemma TwoStartsWithoutACommonLock(s: State, a: nat, b: nat) returns (r: Run)
    requires NoCommonLock(s, a, b)
    ensures IsRun(r) && HostsComeUp(r) && r.states[0] == s
    ensures r.states[|r.steps|].starters == [a, b]
  {
    var locks: map<nat, nat> := map[s.calls[a].process := a, s.calls[b].process := b];
    var file;
    r, file := PairPassesFileLock(s, a, b);
    PairMoves(s, a, b, Locked, Locked, locks, file, [], Clear);
    r := OneStepMore(r, Look(a), Pair(s, a, b, Clear, Locked, locks, file, []));
    PairMoves(s, a, b, Clear, Locked, locks, file, [], Clear);
    r := OneStepMore(r, Look(b), Pair(s, a, b, Clear, Clear, locks, file, []));
    PairMoves(s, a, b, Clear, Clear, locks, file, [], Waiting);
    r := OneStepMore(r, StartHost(a, true), Pair(s, a, b, Waiting, Clear, locks, file, [a]));
    PairMoves(s, a, b, Waiting, Clear, locks, file, [a], Waiting);
    r := OneStepMore(r, StartHost(b, true), Pair(s, a, b, Waiting, Waiting, locks, file, [a, b]));
  }

  /** Never more than one host is started. */
  ghost predicate StartsOnce(r: Run)
    requires IsRun(r)
  {
    forall k :: 0 <= k <= |r.steps| ==> |r.states[k].starters| <= 1
  }

  lemma SomePair(s: State) returns (a: nat, b: nat)
    requires Fresh(s) && !s.up && !SameLock(s, s.calls.Keys)
    ensures NoCommonLock(s, a, b)
  {
    a :| a in s.calls && !s.calls[a].fileLock;
    b :| b in s.calls && s.calls[b].process != s.calls[a].process;
  }

  /** At most one start, exactly when: from a state in which nothing happened yet and no host
      answers, no run whose hosts come up in time starts more than one, if and only if all calls are
      of one process or all of them can lock the file. */
  lemma StartsOnceIff(s: State)
    requires Fresh(s) && !s.up
    ensures (forall r :: IsRun(r) && r.states[0] == s && HostsComeUp(r) ==> StartsOnce(r)) <==> SameLock(s, s.calls.Keys)
  {
    if SameLock(s, s.calls.Keys) {
      forall r | IsRun(r) && r.states[0] == s && HostsComeUp(r) ensures StartsOnce(r) {
        forall k | 0 <= k <= |r.steps| ensures |r.states[k].starters| <= 1 {
          AtMostOneStart(r, k);
        }
      }
    } else {
      var a, b := SomePair(s);
      var r := TwoStartsWithoutACommonLock(s, a, b);
      assert |r.states[|r.steps|].starters| == 2;
    }
  }

  // --- A call is a run ---

  /** The call has not begun, its process's lock is free, and the file lock is such that taking the
      locks can end this way. */
  ghost predicate Ready(s: State, c: nat, lock: SpawnLocks) {
    && c in s.calls && s.calls[c].phase.Begun? && !s.up && s.calls[c].process !in s.processLocks
    && (lock.Held? ==> s.calls[c].fileLock ==> s.fileHolder.None?)
    && (lock.Busy? ==> s.calls[c].fileLock && s.fileHolder.Some?)
  }

  /** The run ends with the call at this point, all else about it as in s, and no host up. */
  ghost predicate Reaches(r: Run, s: State, c: nat, phase: Phase, starters: seq<nat>) {
    && IsRun(r) && r.states[0] == s && c in s.calls
    && var e := r.states[|r.steps|];
       c in e.calls && e.calls[c] == s.calls[c].(phase := phase) && e.starters == starters && !e.up
  }

  /** The run ends with the call finished. */
  ghost predicate Ended(r: Run, s: State, c: nat, found: bool, starters: seq<nat>) {
    && IsRun(r) && r.states[0] == s
    && var e := r.states[|r.steps|];
       c in e.calls && e.calls[c].phase == Finished(found) && e.starters == starters
  }

  /** The host comes up, and the next look finds it. */
  lemma LookFinds(r: Run, s: State, c: nat, phase: Phase, starters: seq<nat>) returns (r': Run)
    requires Reaches(r, s, c, phase, starters) && (phase.Begun? || phase.Locked? || phase.Waiting?)
    ensures Ended(r', s, c, true, starters)
  {
    var e := r.states[|r.steps|].(up := true);
    r' := Extended(r, HostAnswers, e);
    r' := Extended(r', Look(c), Ends(e, c, true));
  }

  lemma TakesProcessLock(s: State, c: nat, lock: SpawnLocks) returns (r: Run)
    requires Ready(s, c, lock)
    ensures Reaches(r, s, c, TriesFile, s.starters) && r.states[|r.steps|].fileHolder == s.fileHolder
  {
    r := Runs.Run([s], []);
    r := Extended(r, Look(c), To(s, c, WantsLocks));
    var s1 := To(s, c, WantsLocks);
    r := Extended(r, TakeProcessLock(c), To(s1, c, TriesFile).(processLocks := s.processLocks[s.calls[c].process := c]));
  }

  lemma TakesBothLocks(s: State, c: nat) returns (r: Run)
    requires Ready(s, c, Held)
    ensures Reaches(r, s, c, Locked, s.starters)
  {
    r := TakesProcessLock(s, c, Held);
    var e := r.states[|r.steps|];
    if s.calls[c].fileLock {
      r := Extended(r, TakeFileLock(c), To(e, c, Locked).(fileHolder := Some(c)));
    } else {
      r := Extended(r, FileUnavailable(c), To(e, c, Locked));
    }
  }

  lemma RefusedLocks(s: State, c: nat, lock: SpawnLocks, found: bool) returns (r: Run)
    requires Ready(s, c, lock) && !lock.Held? && (found ==> lock.Busy?)
    ensures Ended(r, s, c, found, s.starters)
  {
    r := TakesProcessLock(s, c, lock);
    var e := r.states[|r.steps|];
    if lock.Denied? {
      r := Extended(r, FileDenied(c), Ends(e, c, false));
    } else {
      if found {
        e := e.(up := true);
        r := Extended(r, HostAnswers, e);
      }
      r := Extended(r, FileBusy(c), Ends(e, c, e.up));
    }
  }

  lemma Starts(s: State, c: nat, works: bool, found: bool) returns (r: Run)
    requires Ready(s, c, Held) && (found ==> works)
    ensures Ended(r, s, c, found, s.starters + (if works then [c] else []))
  {
    r := TakesBothLocks(s, c);
    var e := To(r.states[|r.steps|], c, Clear);
    r := Extended(r, Look(c), e);
    if !works {
      r := Extended(r, StartHost(c, false), Ends(e, c, false));
      assert s.starters + [] == s.starters;
    } else {
      e := To(e, c, Waiting).(starters := s.starters + [c]);
      r := Extended(r, StartHost(c, true), e);
      if found {
        r := LookFinds(r, s, c, Waiting, s.starters + [c]);
      } else {
        r := Extended(r, GiveUp(c), Ends(e, c, false));
      }
    }
  }

  /** Every outcome of a call is a run of the steps above, from any state in which the locks can be
      taken that way: it ends with the same result, and with this call among the starters exactly if
      it started the host. */
  lemma OutcomeIsRun(
    answers: nat -> bool, lock: SpawnLocks, startWorks: bool, polls: nat, found: bool, started: bool, looks: nat,
    s: State, c: nat)
    returns (r: Run)
    requires Outcome(answers, lock, startWorks, polls, found, started, looks) && Ready(s, c, lock)
    ensures Ended(r, s, c, found, s.starters + (if started then [c] else []))
  {
    assert s.starters + [] == s.starters;
    if answers(0) {
      r := LookFinds(Runs.Run([s], []), s, c, Begun, s.starters);
    } else if !lock.Held? {
      r := RefusedLocks(s, c, lock, found);
    } else if answers(1) {
      r := TakesBothLocks(s, c);
      r := LookFinds(r, s, c, Locked, s.starters);
    } else {
      r := Starts(s, c, startWorks, found);
    }
  }
}
