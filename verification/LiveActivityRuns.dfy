// The life of one Live Activity, under its lock: registrations, jobs, crashes and the
// pruning of stale rows, with time passing between any two steps.

module LiveActivityRuns {
  import opened Wrappers
  import opened LiveActivities

  datatype Event =
    | Registered(expires: int)
    | Attempted(final: bool, read: int, at: int)   // the clock the job read first, and the time of the push

  datatype Job =
    | Idle
    | Started(at: int)
    | Holding(at: int, expires: int)           // the row has been read
    | Pushed(deletes: bool)

  // row: when the activity's row expires; pruned: when stale rows were last removed.
  datatype State = State(now: int, pruned: int, row: Option<int>, job: Job, trace: seq<Event>)

  datatype Step =
    | Tick(seconds: nat)
    | Register
    | Prune
    | Begin
    | Read
    | Quit                 // the job returns early
    | Drop                 // the job returns early and deletes the row
    | Deliver(sent: bool)
    | Finish
    | Crash                // the worker dies, or a delete fails unnoticed

  // Stale rows are removed at least once in every `period`.
  predicate Enabled(period: int, s: State, step: Step) {
    match step
    case Tick(seconds) => s.now + seconds <= s.pruned + period
    case Register => true
    case Prune => true
    case Begin => s.job.Idle?
    case Read => s.job.Started? && s.row.Some?
    case Quit => s.job.Started? || s.job.Holding?
    case Drop => s.job.Started? || s.job.Holding?
    case Deliver(_) => s.job.Holding?
    case Finish => s.job.Pushed?
    case Crash => !s.job.Idle?
  }

  function Apply(s: State, step: Step): (after: State)
    requires step.Read? ==> s.job.Started? && s.row.Some?
    requires step.Deliver? ==> s.job.Holding?
    requires step.Finish? ==> s.job.Pushed?
  {
    match step
    case Tick(seconds) => s.(now := s.now + seconds)
    case Register => s.(row := Some(s.now + DURATION), trace := s.trace + [Registered(s.now + DURATION)])
    case Prune => s.(pruned := s.now, row := if s.row.Some? && s.row.value < s.now - GRACE then None else s.row)
    case Begin => s.(job := Started(s.now))
    case Read => s.(job := Holding(s.job.at, s.row.value))
    case Quit => s.(job := Idle)
    case Drop => s.(job := Idle, row := None)
    case Deliver(sent) =>
      var final := s.job.expires < s.job.at;
      s.(job := Pushed(!sent || final), trace := s.trace + [Attempted(final, s.job.at, s.now)])
    case Finish => s.(job := Idle, row := if s.job.deletes then None else s.row)
    case Crash => s.(job := Idle)
  }

  ghost predicate Run(period: int, states: seq<State>, steps: seq<Step>) {
    && |states| == |steps| + 1
    && states[0] == State(0, 0, None, Idle, [])
    && forall i :: 0 <= i < |steps| ==>
         Enabled(period, states[i], steps[i]) && states[i + 1] == Apply(states[i], steps[i])
  }

  // No worker dies between a push and the delete it owes, and no such delete fails.
  ghost predicate Orderly(states: seq<State>, steps: seq<Step>)
    requires |states| == |steps| + 1
  {
    forall i :: 0 <= i < |steps| && steps[i].Crash? ==> states[i].job != Pushed(true)
  }

  // Nobody registers again while a job holds the row.
  ghost predicate Undisturbed(states: seq<State>, steps: seq<Step>)
    requires |states| == |steps| + 1
  {
    forall i :: 0 <= i < |steps| && steps[i].Register? ==> !states[i].job.Holding?
  }

  // ---------- One final push for a registration, and nothing after it ----------

  function Last(trace: seq<Event>): (event: Option<Event>) {
    if trace == [] then None else Some(trace[|trace| - 1])
  }

  predicate Final(event: Event) {
    event.Attempted? && event.final
  }

  ghost predicate FinalIsLast(trace: seq<Event>) {
    forall i :: 0 <= i < |trace| - 1 && Final(trace[i]) ==> trace[i + 1].Registered?
  }

  // After a final push the row is gone, or its own job is about to delete it.
  ghost predicate EndsOnce(s: State) {
    && FinalIsLast(s.trace)
    && (Last(s.trace).Some? && Final(Last(s.trace).value) ==> s.job == Pushed(true) || (s.row.None? && !s.job.Holding?))
  }

  lemma {:induction false} EndsOnceHolds(period: int, states: seq<State>, steps: seq<Step>, n: nat)
    requires Run(period, states, steps) && Orderly(states, steps) && n <= |steps|
    ensures EndsOnce(states[n])
  {
    if n > 0 {
      EndsOnceHolds(period, states, steps, n - 1);
      var s, step := states[n - 1], steps[n - 1];
      assert Enabled(period, s, step) && states[n] == Apply(s, step);
    }
  }

  // ---------- Which push is attempted when ----------

  function Latest(trace: seq<Event>): (expires: Option<int>) {
    if trace == [] then None
    else
      var event := trace[|trace| - 1];
      if event.Registered? then Some(event.expires) else Latest(trace[..|trace| - 1])
  }

  // Every update comes from a job that read its clock no later than the expiry of the
  // latest registration before the push.
  ghost predicate UpdatesRead(trace: seq<Event>) {
    forall i :: 0 <= i < |trace| && trace[i].Attempted? && !trace[i].final ==>
      var expires := Latest(trace[..i]);
      expires.Some? && trace[i].read <= expires.value
  }

  // Every final push comes from a job that read its clock after that expiry.
  ghost predicate FinalsRead(trace: seq<Event>) {
    forall i :: 0 <= i < |trace| && Final(trace[i]) ==>
      var expires := Latest(trace[..i]);
      expires.Some? && trace[i].read > expires.value
  }

  // No push is attempted before its job read the clock, or more than `slack` after it.
  ghost predicate Within(trace: seq<Event>, slack: int) {
    forall i :: 0 <= i < |trace| && trace[i].Attempted? ==> trace[i].read <= trace[i].at <= trace[i].read + slack
  }

  // No job takes more than `slack` from reading the clock to pushing.
  ghost predicate Brisk(states: seq<State>, steps: seq<Step>, slack: int)
    requires |states| == |steps| + 1
  {
    forall i :: 0 <= i < |steps| && steps[i].Deliver? && states[i].job.Holding? ==>
      states[i].now <= states[i].job.at + slack
  }

  ghost predicate Times(s: State) {
    && (s.row.Some? ==> Latest(s.trace) == s.row)
    && (Latest(s.trace).Some? ==> Latest(s.trace).value <= s.now + DURATION)
    && (s.job.Holding? ==> Latest(s.trace).Some? && s.job.expires <= Latest(s.trace).value)
    && (s.job.Started? || s.job.Holding? ==> s.job.at <= s.now)
    && UpdatesRead(s.trace)
  }

  lemma LatestOn(trace: seq<Event>, event: Event)
    ensures Latest(trace + [event]) == if event.Registered? then Some(event.expires) else Latest(trace)
    ensures forall i :: 0 <= i < |trace| ==> (trace + [event])[..i] == trace[..i]
    ensures (trace + [event])[..|trace|] == trace
  {
    assert (trace + [event])[..|trace|] == trace;
  }

  lemma UpdatesReadOn(trace: seq<Event>, event: Event)
    requires UpdatesRead(trace)
    requires event.Attempted? && !event.final ==> Latest(trace).Some? && event.read <= Latest(trace).value
    ensures UpdatesRead(trace + [event])
  {
    LatestOn(trace, event);
  }

  lemma RegisterKeepsTimes(s: State)
    requires Times(s)
    ensures Times(Apply(s, Register))
  {
    var event := Registered(s.now + DURATION);
    LatestOn(s.trace, event);
    UpdatesReadOn(s.trace, event);
  }

  lemma DeliverKeepsTimes(s: State, sent: bool)
    requires Times(s) && s.job.Holding?
    ensures Times(Apply(s, Deliver(sent)))
  {
    var event := Attempted(s.job.expires < s.job.at, s.job.at, s.now);
    LatestOn(s.trace, event);
    UpdatesReadOn(s.trace, event);
  }

  lemma TimesKept(period: int, s: State, step: Step)
    requires Enabled(period, s, step) && Times(s)
    ensures Times(Apply(s, step))
  {
    if step.Register? {
      RegisterKeepsTimes(s);
    } else if step.Deliver? {
      DeliverKeepsTimes(s, step.sent);
    } else {
      assert Apply(s, step).trace == s.trace;
    }
  }

  lemma {:induction false} TimesHold(period: int, states: seq<State>, steps: seq<Step>, n: nat)
    requires Run(period, states, steps) && n <= |steps|
    ensures Times(states[n])
  {
    if n > 0 {
      TimesHold(period, states, steps, n - 1);
      var s, step := states[n - 1], steps[n - 1];
      assert Enabled(period, s, step) && states[n] == Apply(s, step);
      TimesKept(period, s, step);
    }
  }

  ghost predicate Ends(s: State) {
    && FinalsRead(s.trace)
    && (s.job.Holding? ==> Latest(s.trace) == Some(s.job.expires))
  }

  lemma FinalsReadOn(trace: seq<Event>, event: Event)
    requires FinalsRead(trace)
    requires Final(event) ==> Latest(trace).Some? && event.read > Latest(trace).value
    ensures FinalsRead(trace + [event])
  {
    LatestOn(trace, event);
  }

  lemma DeliverKeepsEnds(s: State, sent: bool)
    requires Ends(s) && s.job.Holding?
    ensures Ends(Apply(s, Deliver(sent)))
  {
    FinalsReadOn(s.trace, Attempted(s.job.expires < s.job.at, s.job.at, s.now));
  }

  lemma EndsKept(period: int, s: State, step: Step)
    requires Enabled(period, s, step) && (step.Register? ==> !s.job.Holding?)
    requires Times(s) && Ends(s)
    ensures Ends(Apply(s, step))
  {
    if step.Register? {
      FinalsReadOn(s.trace, Registered(s.now + DURATION));
    } else if step.Deliver? {
      DeliverKeepsEnds(s, step.sent);
    } else {
      assert Apply(s, step).trace == s.trace;
    }
  }

  lemma {:induction false} EndsHold(period: int, states: seq<State>, steps: seq<Step>, n: nat)
    requires Run(period, states, steps) && Undisturbed(states, steps) && n <= |steps|
    ensures Ends(states[n])
  {
    if n > 0 {
      EndsHold(period, states, steps, n - 1);
      TimesHold(period, states, steps, n - 1);
      EndsKept(period, states[n - 1], steps[n - 1]);
    }
  }

  // ---------- Stale rows go ----------

  ghost predicate Reaped(period: int, s: State) {
    && s.pruned <= s.now <= s.pruned + period
    && (s.row.Some? ==> s.pruned - GRACE <= s.row.value)
  }

  lemma {:induction false} ReapedHolds(period: int, states: seq<State>, steps: seq<Step>, n: nat)
    requires Run(period, states, steps) && n <= |steps| && period >= 0
    ensures Reaped(period, states[n])
  {
    if n > 0 {
      ReapedHolds(period, states, steps, n - 1);
      assert Enabled(period, states[n - 1], steps[n - 1]) && states[n] == Apply(states[n - 1], steps[n - 1]);
    }
  }

  lemma {:induction false} WithinHolds(period: int, states: seq<State>, steps: seq<Step>, slack: int, n: nat)
    requires Run(period, states, steps) && Brisk(states, steps, slack) && n <= |steps|
    ensures Within(states[n].trace, slack)
  {
    if n > 0 {
      WithinHolds(period, states, steps, slack, n - 1);
      TimesHold(period, states, steps, n - 1);
      assert Enabled(period, states[n - 1], steps[n - 1]) && states[n] == Apply(states[n - 1], steps[n - 1]);
    }
  }

  // ---------- The main results ----------

  // In every orderly run a registration gets at most one final push and nothing after
  // it, and whatever the run no row outlives its expiry by more than ten minutes and one
  // prune period.
  lemma LifeOfAnActivity(period: int, states: seq<State>, steps: seq<Step>, n: nat)
    requires Run(period, states, steps) && n <= |steps| && period >= 0
    ensures Orderly(states, steps) ==> FinalIsLast(states[n].trace)
    ensures Undisturbed(states, steps) ==> FinalsRead(states[n].trace)
    ensures UpdatesRead(states[n].trace)
    ensures states[n].row.Some? ==> states[n].now <= states[n].row.value + 10 * 60 + period
  {
    TimesHold(period, states, steps, n);
    ReapedHolds(period, states, steps, n);
    if Orderly(states, steps) {
      EndsOnceHolds(period, states, steps, n);
    }
    if Undisturbed(states, steps) {
      EndsHold(period, states, steps, n);
    }
  }

  // A push attempted after the expiry of the latest registration is an update exactly
  // when its job had read the clock no later than that expiry.
  lemma LateUpdateExactly(period: int, states: seq<State>, steps: seq<Step>, n: nat, i: nat)
    requires Run(period, states, steps) && Undisturbed(states, steps) && n <= |steps|
    requires i < |states[n].trace| && states[n].trace[i].Attempted?
    ensures var push, expires := states[n].trace[i], Latest(states[n].trace[..i]);
            expires.Some? && (!push.final <==> push.read <= expires.value)
  {
    TimesHold(period, states, steps, n);
    EndsHold(period, states, steps, n);
  }

  // So when no job takes longer than `slack`, no update is attempted later than that
  // after expiry, even if registrations disturb the jobs.
  lemma UpdatesEndInTime(period: int, states: seq<State>, steps: seq<Step>, slack: int, n: nat, i: nat)
    requires Run(period, states, steps) && Brisk(states, steps, slack) && n <= |steps|
    requires i < |states[n].trace| && states[n].trace[i].Attempted? && !states[n].trace[i].final
    ensures var expires := Latest(states[n].trace[..i]);
            expires.Some? && states[n].trace[i].at <= expires.value + slack
  {
    TimesHold(period, states, steps, n);
    WithinHolds(period, states, steps, slack, n);
  }

  // ---------- What the conditions are needed for ----------

  lemma Then(period: int, states: seq<State>, steps: seq<Step>, step: Step)
    returns (states': seq<State>, steps': seq<Step>)
    requires Run(period, states, steps) && Enabled(period, states[|steps|], step)
    ensures Run(period, states', steps') && states'[|steps'|] == Apply(states[|steps|], step)
    ensures steps <= steps'
    ensures Orderly(states, steps) && !step.Crash? ==> Orderly(states', steps')
    ensures Undisturbed(states, steps) && (step.Register? ==> !states[|steps|].job.Holding?) ==>
              Undisturbed(states', steps')
  {
    states', steps' := states + [Apply(states[|steps|], step)], steps + [step];
  }

  // Time passes, with stale rows removed often enough, until a moment at which the row
  // is not yet stale.
  lemma {:induction false} Wait(period: int, states: seq<State>, steps: seq<Step>, until: int)
    returns (states': seq<State>, steps': seq<Step>)
    requires Run(period, states, steps) && Orderly(states, steps) && period >= 1
    requires var s := states[|steps|]; s.now <= until && (s.row.Some? ==> until <= s.row.value + GRACE)
    ensures Run(period, states', steps') && Orderly(states', steps')
    ensures Undisturbed(states, steps) ==> Undisturbed(states', steps')
    ensures states'[|steps'|] == states[|steps|].(now := until, pruned := states'[|steps'|].pruned)
    decreases until - states[|steps|].now
  {
    states', steps' := states, steps;
    if states[|steps|].now < until {
      states', steps' := Then(period, states', steps', Prune);
      states', steps' := Then(period, states', steps', Tick(1));
      states', steps' := Wait(period, states', steps', until);
    }
  }

  // Registered at time 0 and found expired by a job that now holds the row.
  lemma ExpiredAndHeld(period: int) returns (states: seq<State>, steps: seq<Step>)
    requires period >= 1
    ensures Run(period, states, steps) && Orderly(states, steps)
    ensures var s := states[|steps|];
            s == State(DURATION + 1, s.pruned, Some(DURATION), Holding(DURATION + 1, DURATION), [Registered(DURATION)])
  {
    states, steps := [State(0, 0, None, Idle, [])], [];
    states, steps := Then(period, states, steps, Register);
    states, steps := Wait(period, states, steps, DURATION + 1);
    states, steps := Then(period, states, steps, Begin);
    states, steps := Then(period, states, steps, Read);
  }

  // A job that reads its clock when the activity expires and then takes its time pushes
  // an update that much after expiry, though nothing crashes and nobody registers.
  lemma LateUpdate(period: int, delay: nat) returns (states: seq<State>, steps: seq<Step>)
    requires period >= 1 && delay <= GRACE
    ensures Run(period, states, steps) && Orderly(states, steps) && Undisturbed(states, steps)
    ensures states[|steps|].trace == [Registered(DURATION), Attempted(false, DURATION, DURATION + delay)]
  {
    states, steps := [State(0, 0, None, Idle, [])], [];
    states, steps := Then(period, states, steps, Register);
    states, steps := Wait(period, states, steps, DURATION);
    states, steps := Then(period, states, steps, Begin);
    states, steps := Then(period, states, steps, Read);
    states, steps := Wait(period, states, steps, DURATION + delay);
    states, steps := Then(period, states, steps, Deliver(true));
  }

  // A worker that dies between the final push and the delete leaves the row to the next
  // job, which ends the activity again.
  lemma CrashEndsTwice(period: int) returns (states: seq<State>, steps: seq<Step>)
    requires period >= 1
    ensures Run(period, states, steps)
    ensures var end := Attempted(true, DURATION + 1, DURATION + 1);
            states[|steps|].trace == [Registered(DURATION), end, end]
  {
    states, steps := ExpiredAndHeld(period);
    states, steps := Then(period, states, steps, Deliver(true));
    states, steps := Then(period, states, steps, Crash);
    states, steps := Then(period, states, steps, Begin);
    states, steps := Then(period, states, steps, Read);
    states, steps := Then(period, states, steps, Deliver(true));
  }

  // An activity renewed while a job holds its expired row is ended all the same, and
  // the renewed row is deleted with its whole time left to run.
  lemma RenewalIsEnded(period: int) returns (states: seq<State>, steps: seq<Step>)
    requires period >= 1
    ensures Run(period, states, steps) && Orderly(states, steps)
    ensures var s, renewed := states[|steps|], DURATION + 1 + DURATION;
            && s.trace == [Registered(DURATION), Registered(renewed), Attempted(true, DURATION + 1, DURATION + 1)]
            && s.row == None && s.now == renewed - DURATION
  {
    states, steps := ExpiredAndHeld(period);
    states, steps := Then(period, states, steps, Register);
    states, steps := Then(period, states, steps, Deliver(true));
    states, steps := Then(period, states, steps, Finish);
  }

  // ---------- The worker's job is such steps ----------

  lemma PushSteps(period: int, states: seq<State>, steps: seq<Step>, sent: bool)
    returns (states': seq<State>, steps': seq<Step>)
    requires Run(period, states, steps) && states[|steps|].job.Holding?
    ensures Run(period, states', steps') && steps <= steps'
    ensures Orderly(states, steps) ==> Orderly(states', steps')
    ensures Undisturbed(states, steps) ==> Undisturbed(states', steps')
    ensures var s := states[|steps|];
            var final := s.job.expires < s.job.at;
            states'[|steps'|]
            == s.(job := Idle, row := if !sent || final then None else s.row,
                  trace := s.trace + [Attempted(final, s.job.at, s.now)])
  {
    states', steps' := Then(period, states, steps, Deliver(sent));
    states', steps' := Then(period, states', steps', Finish);
  }

  // What the consumer does to an existing row, and whether and how it pushes, is what
  // some steps of this machine do, with no time passing and nobody else interfering.
  lemma ConsumeIsSteps(period: int, states: seq<State>, steps: seq<Step>, env: Setting, row: Row, sent: bool)
    returns (states': seq<State>, steps': seq<Step>)
    requires Run(period, states, steps) && states[|steps|].job.Idle? && states[|steps|].row == Some(row.expires)
    ensures Run(period, states', steps') && steps <= steps'
    ensures Orderly(states, steps) ==> Orderly(states', steps')
    ensures Undisturbed(states, steps) ==> Undisturbed(states', steps')
    ensures var s := states[|steps|];
            states'[|steps'|]
            == s.(row := if Deletes(env, row, s.now, sent) then None else s.row,
                  trace := s.trace
                           + if Attempts(env, row, s.now) then [Attempted(Expired(row, s.now), s.now, s.now)] else [])
  {
    ghost var s := states[|steps|];
    assert s.trace + [] == s.trace;
    states', steps' := Then(period, states, steps, Begin);
    if !env.apns {
      states', steps' := Then(period, states', steps', Drop);
      return;
    }
    states', steps' := Then(period, states', steps', Read);
    if Attempts(env, row, s.now) {
      states', steps' := PushSteps(period, states', steps', sent);
    } else if Deletes(env, row, s.now, sent) {
      states', steps' := Then(period, states', steps', Drop);
    } else {
      states', steps' := Then(period, states', steps', Quit);
    }
  }
}
