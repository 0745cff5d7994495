// When at most one job of an id is outstanding at a time, and how the two conditions
// for it can fail.

module LockExclusion {
  import opened LockProtocol

  // ---------- Mutual exclusion ----------

  predicate Active(job: Job) {
    !job.phase.Released?
  }

  // No outstanding job outlives its lock, and consumers only die before deleting it.
  ghost predicate Orderly(s: State, step: Step) {
    && (step.Tick? ==> forall g <- s.jobs :: Active(s.jobs[g]) ==> s.now + step.seconds < s.jobs[g].at + LOCK_SECONDS)
    && (step.Crash? ==> InPhase(s, step.grant, Executing))
  }

  ghost predicate OrderlyRun(states: seq<State>, steps: seq<Step>) {
    Run(states, steps) && forall i :: 0 <= i < |steps| ==> Enabled(states[i], steps[i]) && Orderly(states[i], steps[i])
  }

  // Two outstanding jobs of one id.
  predicate ActiveFor(s: State, g: nat, g': nat) {
    && g in s.jobs && g' in s.jobs && Active(s.jobs[g]) && Active(s.jobs[g'])
    && s.jobs[g].id == s.jobs[g'].id
  }

  // Each id has at most one outstanding job, and that job's own lock is held.
  ghost predicate Exclusive(s: State) {
    && (forall g <- s.jobs :: Active(s.jobs[g]) ==>
          var job := s.jobs[g];
          Held(s.locks, s.now, job.id) && s.locks[job.id] == job.at + LOCK_SECONDS)
    && (forall g, g' :: ActiveFor(s, g, g') ==> g == g')
  }

  ghost predicate MutexInv(s: State) {
    Exclusive(s) && forall g <- s.jobs :: g < s.grants
  }

  lemma OrderlyStepKeepsMutex(s: State, step: Step)
    requires MutexInv(s) && Enabled(s, step) && Orderly(s, step)
    ensures MutexInv(Apply(s, step))
  {
    var s' := Apply(s, step);
    forall g, g' | ActiveFor(s', g, g') ensures g == g' {
      if g in s.jobs && g' in s.jobs {
        assert ActiveFor(s, g, g');
      }
    }
    if step.Release? {
      forall g | g in s.jobs && Active(s.jobs[g]) && s.jobs[g].id == s.jobs[step.grant].id ensures g == step.grant {
        assert ActiveFor(s, g, step.grant);
      }
    }
  }

  // Over every orderly run each id has at most one published, executing or about to
  // be published job. A job whose lock is deleted but not yet acknowledged does not
  // stand in the way of the next one.
  lemma {:induction false} MutualExclusion(states: seq<State>, steps: seq<Step>, n: nat)
    requires OrderlyRun(states, steps) && n < |states|
    ensures MutexInv(states[n]) && Exclusive(states[n])
  {
    if n > 0 {
      MutualExclusion(states, steps, n - 1);
      OrderlyStepKeepsMutex(states[n - 1], steps[n - 1]);
    }
  }

  // ---------- Exactly ----------

  // An outstanding job whose id is not locked gets a second one beside it at the
  // scheduler's next step.
  lemma UnlockedJobIsDoubled(s: State, g: nat)
    requires g in s.jobs && g < s.grants && Active(s.jobs[g]) && !Held(s.locks, s.now, s.jobs[g].id)
    ensures var step := Lock(s.jobs[g].id);
            Enabled(s, step) && ActiveFor(Apply(s, step), g, s.grants) && !Exclusive(Apply(s, step))
  {
    var after := Apply(s, Lock(s.jobs[g].id));
    assert ActiveFor(after, g, s.grants);
  }

  // Time may pass exactly as long as no outstanding job outlives its lock; any longer,
  // and the scheduler's next lock can make two jobs of one id.
  lemma TickExactly(s: State, seconds: nat)
    requires MutexInv(s)
    ensures var after := Apply(s, Tick(seconds));
            && (Orderly(s, Tick(seconds)) <==> MutexInv(after))
            && (Orderly(s, Tick(seconds)) <==>
                  forall id :: Enabled(after, Lock(id)) ==> Exclusive(Apply(after, Lock(id))))
  {
    var after := Apply(s, Tick(seconds));
    if Orderly(s, Tick(seconds)) {
      OrderlyStepKeepsMutex(s, Tick(seconds));
      forall id | Enabled(after, Lock(id)) ensures Exclusive(Apply(after, Lock(id))) {
        OrderlyStepKeepsMutex(after, Lock(id));
      }
    } else {
      var g :| g in s.jobs && Active(s.jobs[g]) && s.now + seconds >= s.jobs[g].at + LOCK_SECONDS;
      assert !Held(after.locks, after.now, s.jobs[g].id);
      UnlockedJobIsDoubled(after, g);
    }
  }

  // A job requeued by the cleaner after it deleted its lock, its id not locked again since,
  // gets a second one beside it too.
  lemma LateCrashIsDoubled(s: State, g: nat)
    requires MutexInv(s) && InPhase(s, g, Released) && !Held(s.locks, s.now, s.jobs[g].id)
    ensures var after, step := Apply(s, Crash(g)), Lock(s.jobs[g].id);
            && !MutexInv(after)
            && Enabled(after, step) && ActiveFor(Apply(after, step), g, s.grants) && !Exclusive(Apply(after, step))
  {
    var after := Apply(s, Crash(g));
    assert Active(after.jobs[g]) && !Held(after.locks, after.now, after.jobs[g].id);
    UnlockedJobIsDoubled(after, g);
  }

  // ---------- Both conditions are needed ----------

  lemma Then(states: seq<State>, steps: seq<Step>, step: Step) returns (states': seq<State>, steps': seq<Step>)
    requires Run(states, steps) && Enabled(states[|steps|], step)
    ensures Run(states', steps') && steps' == steps + [step]
    ensures states'[|steps'|] == Apply(states[|steps|], step)
    ensures states'[|steps|] == states[|steps|]
  {
    states', steps' := states + [Apply(states[|steps|], step)], steps + [step];
  }

  lemma Executes() returns (states: seq<State>, steps: seq<Step>)
    ensures Run(states, steps)
    ensures var s := states[|steps|];
            && s.now == 0 && s.locks == map["a" := LOCK_SECONDS] && s.jobs == map[0 := Job("a", 0, Executing)]
            && s.grants == 1
    ensures forall step <- steps :: !step.Tick? && !step.Crash?
  {
    states, steps := [State(0, map[], map[], 0, [])], [];
    states, steps := Then(states, steps, Lock("a"));
    states, steps := Then(states, steps, Publish(0));
    states, steps := Then(states, steps, Take(0));
  }

  lemma BothExecute() returns (states: seq<State>, steps: seq<Step>)
    ensures Run(states, steps) && steps != [] && forall step <- steps :: !step.Crash?
    ensures states[|steps|].jobs == map[0 := Job("a", 0, Executing), 1 := Job("a", LOCK_SECONDS, Executing)]
  {
    states, steps := Executes();
    states, steps := Then(states, steps, Tick(LOCK_SECONDS));
    states, steps := Then(states, steps, Lock("a"));
    states, steps := Then(states, steps, Publish(1));
    states, steps := Then(states, steps, Take(1));
    assert states[|steps|].jobs == map[0 := Job("a", 0, Executing), 1 := Job("a", LOCK_SECONDS, Executing)];
  }

  // A job that outlives its lock runs beside its successor, and deletes its lock.
  lemma OutlivingJobBreaksExclusion() returns (states: seq<State>, steps: seq<Step>)
    ensures Run(states, steps) && steps != [] && forall step <- steps :: !step.Crash?
    ensures var s := states[|steps| - 1];
            s.jobs == map[0 := Job("a", 0, Executing), 1 := Job("a", LOCK_SECONDS, Executing)]
    ensures var s := states[|steps|];
            InPhase(s, 1, Executing) && !Held(s.locks, s.now, "a")
  {
    states, steps := BothExecute();
    states, steps := Then(states, steps, Release(0));
  }

  // A consumer that dies between deleting the lock and acknowledging leaves two
  // queued jobs for one id.
  lemma LateCrashBreaksExclusion() returns (states: seq<State>, steps: seq<Step>)
    ensures Run(states, steps) && forall step <- steps :: !step.Tick?
    ensures states[|steps|].jobs == map[0 := Job("a", 0, Queued), 1 := Job("a", 0, Queued)]
  {
    states, steps := Executes();
    states, steps := Then(states, steps, Release(0));
    assert states[|steps|].locks == map[];
    states, steps := Then(states, steps, Lock("a"));
    states, steps := Then(states, steps, Publish(1));
    states, steps := Then(states, steps, Crash(0));
  }
}
