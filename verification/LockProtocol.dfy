// The batch lock and the life of a job: the scheduler locks and publishes ids, a
// consumer takes a job, deletes the lock and acknowledges, and the cleaner returns
// the jobs of dead consumers to the queue.

module LockProtocol {

  type Id = string

  const LOCK_SECONDS := 300          // NotificationCheckTimeout

  // ---------- The Lua script ----------

  // A key is present while the clock is before its expiry.
  predicate Held(locks: map<Id, nat>, now: nat, id: Id) {
    id in locks && now < locks[id]
  }

  // The ids that SET NX EX grants, in order, and the lock table it leaves.
  function Grant(locks: map<Id, nat>, now: nat, argv: seq<Id>): (r: (seq<Id>, map<Id, nat>)) {
    if argv == [] then ([], locks)
    else
      var n := |argv| - 1;
      var (granted, after) := Grant(locks, now, argv[..n]);
      if Held(after, now, argv[n]) then (granted, after)
      else (granted + [argv[n]], after[argv[n] := now + LOCK_SECONDS])
  }

  class RedisLocks {
    var locks: map<Id, nat>

    constructor ()
      ensures locks == map[]
    {
      locks := map[];
    }

    method EvalScript(now: nat, argv: seq<Id>) returns (retv: seq<Id>)
      modifies this
      ensures (retv, locks) == Grant(old(locks), now, argv)
    {
      retv := [];
      var i := 0;
      while i < |argv|
        invariant 0 <= i <= |argv|
        invariant (retv, locks) == Grant(old(locks), now, argv[..i])
      {
        assert argv[..i + 1][..i] == argv[..i];
        if !Held(locks, now, argv[i]) {
          locks := locks[argv[i] := now + LOCK_SECONDS];
          retv := retv + [argv[i]];
        }
        i := i + 1;
      }
      assert argv[..i] == argv;
    }
  }

  // The script grants each unlocked candidate once, however often it is listed, and
  // nothing else; afterwards every candidate is locked, and no other lock changed.
  lemma {:induction false} GrantIsExact(locks: map<Id, nat>, now: nat, argv: seq<Id>)
    ensures var (granted, after) := Grant(locks, now, argv);
            && (forall i, j :: 0 <= i < j < |granted| ==> granted[i] != granted[j])
            && (forall id :: id in granted <==> id in argv && !Held(locks, now, id))
            && (forall id <- argv :: Held(after, now, id))
            && (forall id :: id in granted ==> id in after && after[id] == now + 300)
            && (forall id :: id !in granted ==>
                  (id in after <==> id in locks) && (id in locks ==> after[id] == locks[id]))
  {
    if argv != [] {
      var n := |argv| - 1;
      var (granted, after) := Grant(locks, now, argv[..n]);
      GrantIsExact(locks, now, argv[..n]);
      forall i | 0 <= i < |granted| ensures Held(after, now, granted[i]) {
        assert granted[i] in granted;
      }
      assert argv == argv[..n] + [argv[n]];
    }
  }

  // The grants come in the order of the candidates, each at its first position.
  lemma {:induction false} GrantInOrder(locks: map<Id, nat>, now: nat, argv: seq<Id>) returns (at: seq<nat>)
    ensures var granted := Grant(locks, now, argv).0;
            && |at| == |granted|
            && (forall i, j :: 0 <= i < j < |at| ==> at[i] < at[j])
            && forall k :: 0 <= k < |at| ==>
                 at[k] < |argv| && granted[k] == argv[at[k]] && argv[at[k]] !in argv[..at[k]]
  {
    at := [];
    if argv != [] {
      var n := |argv| - 1;
      var (granted, after) := Grant(locks, now, argv[..n]);
      at := GrantInOrder(locks, now, argv[..n]);
      GrantIsExact(locks, now, argv[..n]);
      assert forall k :: 0 <= k < |at| ==> argv[..n][..at[k]] == argv[..at[k]];
      if !Held(after, now, argv[n]) {
        at := at + [n];
      }
    }
  }

  // ---------- The protocol ----------

  datatype Phase =
    | Granted       // locked, not yet published
    | Queued
    | Executing
    | Released      // lock deleted, acknowledgement still to come

  // A job carries the number of its grant, which nothing else shares.
  datatype Job = Job(id: Id, at: nat, phase: Phase)

  datatype Event =
    | Locked(grant: nat, id: Id, at: nat)
    | Published(grant: nat, id: Id, at: nat)
    | Unlocked(id: Id, at: nat)

  datatype State = State(now: nat, locks: map<Id, nat>, jobs: map<nat, Job>, grants: nat, history: seq<Event>)

  datatype Step =
    | Tick(seconds: nat)
    | Lock(id: Id)
    | Publish(grant: nat)
    | PublishFails(grant: nat)
    | Take(grant: nat)
    | TooOld(grant: nat)          // the early exit: acknowledged, the lock stays
    | Release(grant: nat)         // deferred lock deletion
    | Acknowledge(grant: nat)
    | Crash(grant: nat)           // the cleaner requeues the job

  ghost predicate InPhase(s: State, grant: nat, phase: Phase) {
    grant in s.jobs && s.jobs[grant].phase == phase
  }

  ghost predicate Enabled(s: State, step: Step) {
    match step
    case Lock(id) => !Held(s.locks, s.now, id)
    case Publish(g) => InPhase(s, g, Granted)
    case PublishFails(g) => InPhase(s, g, Granted)
    case Take(g) => InPhase(s, g, Queued)
    case TooOld(g) => InPhase(s, g, Executing)
    case Release(g) => InPhase(s, g, Executing)
    case Acknowledge(g) => InPhase(s, g, Released)
    case Crash(g) => InPhase(s, g, Executing) || InPhase(s, g, Released)
    case _ => true
  }

  function Apply(s: State, step: Step): (after: State)
    requires Enabled(s, step)
  {
    match step
    case Tick(seconds) => s.(now := s.now + seconds)
    case Lock(id) =>
      State(s.now, s.locks[id := s.now + LOCK_SECONDS], s.jobs[s.grants := Job(id, s.now, Granted)], s.grants + 1,
            s.history + [Locked(s.grants, id, s.now)])
    case Publish(g) =>
      s.(jobs := s.jobs[g := s.jobs[g].(phase := Queued)],
         history := s.history + [Published(g, s.jobs[g].id, s.now)])
    case PublishFails(g) => s.(jobs := s.jobs - {g})
    case Take(g) => s.(jobs := s.jobs[g := s.jobs[g].(phase := Executing)])
    case TooOld(g) => s.(jobs := s.jobs - {g})
    case Release(g) =>
      s.(locks := s.locks - {s.jobs[g].id},
         jobs := s.jobs[g := s.jobs[g].(phase := Released)],
         history := s.history + [Unlocked(s.jobs[g].id, s.now)])
    case Acknowledge(g) => s.(jobs := s.jobs - {g})
    case Crash(g) => s.(jobs := s.jobs[g := s.jobs[g].(phase := Queued)])
  }

  ghost predicate Init(s: State) {
    s.locks == map[] && s.jobs == map[] && s.grants == 0 && s.history == []
  }

  ghost predicate Chain(states: seq<State>, steps: seq<Step>) {
    && |states| == |steps| + 1
    && forall i :: 0 <= i < |steps| ==> Enabled(states[i], steps[i]) && states[i + 1] == Apply(states[i], steps[i])
  }

  ghost predicate Run(states: seq<State>, steps: seq<Step>) {
    Chain(states, steps) && Init(states[0])
  }

  // One evaluation of the script is a chain of lock steps at one clock reading, one
  // for each id it returns, in the order it returns them.
  lemma {:induction false} ScriptIsLockSteps(s: State, argv: seq<Id>) returns (states: seq<State>, steps: seq<Step>)
    ensures Chain(states, steps) && states[0] == s
    ensures var (granted, locks) := Grant(s.locks, s.now, argv);
            && |steps| == |granted| && (forall i :: 0 <= i < |steps| ==> steps[i] == Lock(granted[i]))
            && states[|steps|].locks == locks && states[|steps|].now == s.now
  {
    if argv == [] {
      states, steps := [s], [];
    } else {
      var n := |argv| - 1;
      states, steps := ScriptIsLockSteps(s, argv[..n]);
      if !Held(Grant(s.locks, s.now, argv[..n]).1, s.now, argv[n]) {
        var step := Lock(argv[n]);
        states, steps := states + [Apply(states[|steps|], step)], steps + [step];
      }
    }
  }
}
