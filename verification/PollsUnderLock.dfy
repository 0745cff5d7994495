// The polls of one account as jobs under the batch lock: the lock protocol and the cursor
// protocol run side by side, and the first is what keeps the polls of the second apart.

module PollsUnderLock {
  import opened Wrappers
  import opened Inbox
  import C = CursorProtocol
  import L = LockProtocol
  import X = LockExclusion

  // owners[k] is the grant of the job that makes poll k.
  datatype State = State(lock: L.State, cursor: C.State, owners: seq<nat>)

  datatype Step =
    | Lock(lockStep: L.Step)
    | Begin(grant: nat)              // a job reads the account row
    | End(k: nat)                    // its poll is over, or it died
    | Cursor(cursorStep: C.Step)

  // A job that the lock protocol is done with when it takes the step.
  predicate Leaves(step: L.Step, g: nat) {
    match step
    case TooOld(grant) => grant == g
    case Release(grant) => grant == g
    case Crash(grant) => grant == g
    case _ => false
  }

  ghost predicate RunsJob(s: State, id: L.Id, g: nat) {
    L.InPhase(s.lock, g, L.Executing) && s.lock.jobs[g].id == id
  }

  ghost predicate Enabled(s: State, id: L.Id, step: Step) {
    match step
    case Lock(t) => L.Enabled(s.lock, t) && forall g <- s.owners :: !Leaves(t, g)
    case Begin(g) => RunsJob(s, id, g) && g !in s.owners
    case End(k) => k < |s.owners| && C.Enabled(s.cursor, C.PollStop(k))
    case Cursor(t) => C.Enabled(s.cursor, t) && !t.PollRead? && !t.PollStop?
  }

  ghost function Apply(s: State, id: L.Id, step: Step): (after: State)
    requires Enabled(s, id, step)
  {
    match step
    case Lock(t) => s.(lock := L.Apply(s.lock, t))
    case Begin(g) => s.(cursor := C.Apply(s.cursor, C.PollRead), owners := s.owners + [g])
    case End(k) => s.(cursor := C.Apply(s.cursor, C.PollStop(k)), owners := Without(s.owners, k))
    case Cursor(t) => s.(cursor := C.Apply(s.cursor, t))
  }

  // The lock's conditions on lock steps, and those of the cursor that have nothing to do
  // with the lock.
  ghost predicate Orderly(s: State, step: Step) {
    match step
    case Lock(t) => X.Orderly(s.lock, t)
    case Cursor(t) => forall c: C.Condition :: c.OnePoll? || C.Met(c, s.cursor, t)
    case _ => true
  }

  ghost predicate Init(s: State) {
    L.Init(s.lock) && C.Init(s.cursor) && s.owners == []
  }

  ghost predicate OrderlyChain(states: seq<State>, id: L.Id, steps: seq<Step>) {
    && |states| == |steps| + 1
    && forall i :: 0 <= i < |steps| ==>
         && Enabled(states[i], id, steps[i]) && Orderly(states[i], steps[i])
         && states[i + 1] == Apply(states[i], id, steps[i])
  }

  ghost predicate OrderlyRun(states: seq<State>, id: L.Id, steps: seq<Step>) {
    OrderlyChain(states, id, steps) && Init(states[0])
  }

  // Every poll in progress is that of an executing job of the account, and no two share one.
  ghost predicate Owned(s: State, id: L.Id) {
    && |s.owners| == |s.cursor.polls| && Distinct(s.owners)
    && forall g <- s.owners :: RunsJob(s, id, g) && g < s.lock.grants
  }

  ghost predicate Inv(s: State, id: L.Id) {
    Owned(s, id) && X.MutexInv(s.lock)
  }

  lemma LockStepKeepsOwned(s: State, id: L.Id, t: L.Step)
    requires Owned(s, id) && Enabled(s, id, Lock(t))
    ensures Owned(Apply(s, id, Lock(t)), id)
  {
    var s' := Apply(s, id, Lock(t));
    forall g | g in s.owners ensures RunsJob(s', id, g) && g < s'.lock.grants {
      assert RunsJob(s, id, g) && !Leaves(t, g);
    }
  }

  lemma StepKeepsOwned(s: State, id: L.Id, step: Step)
    requires Owned(s, id) && Enabled(s, id, step)
    requires step.Begin? ==> step.grant < s.lock.grants
    ensures Owned(Apply(s, id, step), id)
  {
    var s' := Apply(s, id, step);
    match step
    case Lock(t) => LockStepKeepsOwned(s, id, t);
    case Begin(g) =>
    case End(k) =>
      assert forall g :: g in s'.owners ==> g in s.owners;
    case Cursor(t) =>
      assert |s'.cursor.polls| == |s.cursor.polls|;
  }

  // An account that is polled has no other executing job.
  lemma OnePollAtATime(s: State, id: L.Id, g: nat)
    requires Inv(s, id) && Enabled(s, id, Begin(g))
    ensures s.cursor.polls == [] && C.Met(C.OnePoll, s.cursor, C.PollRead)
  {
    if s.owners != [] {
      assert s.owners[0] in s.owners && RunsJob(s, id, s.owners[0]);
      assert X.ActiveFor(s.lock, g, s.owners[0]);
    }
  }

  // The step of the cursor protocol that a step is, if it is one.
  function CursorStep(step: Step): (t: Option<C.Step>) {
    match step
    case Lock(_) => None
    case Begin(_) => Some(C.PollRead)
    case End(k) => Some(C.PollStop(k))
    case Cursor(t) => Some(t)
  }

  lemma CursorStepIsOrderly(s: State, id: L.Id, step: Step)
    requires Inv(s, id) && Enabled(s, id, step) && Orderly(s, step) && CursorStep(step).Some?
    ensures var t := CursorStep(step).value;
            && C.Enabled(s.cursor, t) && C.Orderly(s.cursor, t)
            && Apply(s, id, step).cursor == C.Apply(s.cursor, t)
  {
    var t := CursorStep(step).value;
    if step.Begin? {
      OnePollAtATime(s, id, step.grant);
    }
    forall c: C.Condition ensures C.Met(c, s.cursor, t) {
    }
  }

  lemma StepKeepsInv(s: State, id: L.Id, step: Step)
    requires Inv(s, id) && Enabled(s, id, step) && Orderly(s, step)
    ensures Inv(Apply(s, id, step), id)
  {
    StepKeepsOwned(s, id, step);
    if step.Lock? {
      X.OrderlyStepKeepsMutex(s.lock, step.lockStep);
    }
  }

  lemma MoveOn(cursors: seq<C.State>, moves: seq<C.Step>, t: C.Step)
    returns (cursors': seq<C.State>, moves': seq<C.Step>)
    requires C.OrderlyRun(cursors, moves)
    requires C.Enabled(cursors[|moves|], t) && C.Orderly(cursors[|moves|], t)
    ensures C.OrderlyRun(cursors', moves') && cursors'[|moves'|] == C.Apply(cursors[|moves|], t)
  {
    cursors', moves' := cursors + [C.Apply(cursors[|moves|], t)], moves + [t];
  }

  // What the cursor goes through in an orderly run of jobs under the lock is an orderly run
  // of the cursor protocol: that only one poll is in progress is the lock's doing.
  lemma {:induction false} LockSeparatesPolls(states: seq<State>, id: L.Id, steps: seq<Step>, n: nat)
    returns (cursors: seq<C.State>, moves: seq<C.Step>)
    requires OrderlyRun(states, id, steps) && n < |states|
    ensures Inv(states[n], id)
    ensures C.OrderlyRun(cursors, moves) && cursors[|moves|] == states[n].cursor
  {
    if n == 0 {
      cursors, moves := [states[0].cursor], [];
    } else {
      cursors, moves := LockSeparatesPolls(states, id, steps, n - 1);
      var s, step := states[n - 1], steps[n - 1];
      StepKeepsInv(s, id, step);
      if CursorStep(step).Some? {
        CursorStepIsOrderly(s, id, step);
        cursors, moves := MoveOn(cursors, moves, CursorStep(step).value);
      }
    }
  }

  // So at most one poll is in progress, and the jobs push each device its messages in
  // order, none twice.
  lemma JobsDeliverInOrder(states: seq<State>, id: L.Id, steps: seq<Step>, n: nat)
    requires OrderlyRun(states, id, steps) && n < |states|
    ensures |states[n].cursor.polls| <= 1
    ensures InOrder(states[n].cursor.log) && Distinct(states[n].cursor.log)
  {
    var cursors, moves := LockSeparatesPolls(states, id, steps, n);
    C.InvHolds(cursors, moves, |moves|);
    C.DeliveredInOrder(cursors, moves, |moves|);
  }

  // ---------- A lock outlived ----------

  lemma Extend(states: seq<State>, id: L.Id, steps: seq<Step>, step: Step)
    returns (states': seq<State>, steps': seq<Step>)
    requires OrderlyChain(states, id, steps) && Enabled(states[|steps|], id, step) && Orderly(states[|steps|], step)
    ensures OrderlyChain(states', id, steps') && states'[0] == states[0]
    ensures states'[|steps'|] == Apply(states[|steps|], id, step)
  {
    states', steps' := states + [Apply(states[|steps|], id, step)], steps + [step];
  }

  // When the id of a poll in progress is not locked any more, orderly steps of the scheduler
  // and of a second consumer begin a second poll beside it.
  lemma OutlivedLockOverlapsPolls(s: State, id: L.Id) returns (states: seq<State>, steps: seq<Step>)
    requires Owned(s, id) && s.cursor.polls != [] && !L.Held(s.lock.locks, s.lock.now, id)
    ensures OrderlyChain(states, id, steps) && states[0] == s
    ensures states[|steps|].cursor == s.cursor.(polls := s.cursor.polls + [C.Read(s.cursor.row)])
  {
    var g := s.lock.grants;
    assert g !in s.owners;
    states, steps := Extend([s], id, [], Lock(L.Lock(id)));
    states, steps := Extend(states, id, steps, Lock(L.Publish(g)));
    states, steps := Extend(states, id, steps, Lock(L.Take(g)));
    states, steps := Extend(states, id, steps, Begin(g));
  }
}
