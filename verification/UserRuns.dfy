// Runs of the user worker: watchers come, change and go; jobs, of one user or of many at
// a time, read their watchers, fetch, and tell one alert after the other.

module UserRuns {
  import opened Wrappers
  import Keywords
  import opened Users

  // What a job holds: the watchers it read, or the alerts it has still to tell.
  datatype Stage = Reading(watchers: seq<Watcher>) | Telling(rest: seq<Alert>)

  datatype Open = Open(user: nat, stage: Stage)

  datatype State = State(rows: Rows, next: nat, clock: int, open: seq<Open>, log: seq<Alert>)

  datatype Step =
    | Create(user: nat, subreddit: string, now: int)
    | Edit(id: nat, user: nat, subreddit: string)
    | Delete(id: nat)
    | Begin(user: nat, watchers: seq<Watcher>)
    | Remove(j: nat)                                  // the job's user takes no followers
    | Fetch(j: nat, posts: seq<Post>, now: int)
    | Tell(j: nat, now: int)                          // one increment and its send
    | Stop(j: nat)                                    // finished, failed or crashed

  // When each post was created, and by which user.
  type Births = string -> int
  type Authors = string -> nat

  // The rows of a user that the query returns; muted ones may be missing.
  ghost predicate ReadFrom(watchers: seq<Watcher>, rows: Rows, user: nat) {
    && DistinctIds(watchers)
    && forall w <- watchers ::
         && w.id in rows && rows[w.id].user == user
         && w == Watcher(w.id, rows[w.id].created, rows[w.id].notified, rows[w.id].subreddit)
  }

  // A page lists a post of the user once, and only posts created before it was fetched.
  ghost predicate Listed(posts: seq<Post>, user: nat, now: int, births: Births, authors: Authors) {
    && DistinctPosts(posts)
    && forall p <- posts :: births(p.id) == p.created < now && authors(p.id) == user
  }

  ghost predicate IsReading(s: State, j: nat) {
    j < |s.open| && s.open[j].stage.Reading?
  }

  ghost predicate IsTelling(s: State, j: nat) {
    j < |s.open| && s.open[j].stage.Telling? && s.open[j].stage.rest != []
  }

  ghost predicate Enabled(births: Births, authors: Authors, s: State, step: Step) {
    match step
    case Create(_, _, now) => s.clock <= now
    case Edit(id, _, _) => id in s.rows
    case Delete(_) => true
    case Begin(user, watchers) => ReadFrom(watchers, s.rows, user)
    case Remove(j) => IsReading(s, j)
    case Fetch(j, posts, now) =>
      IsReading(s, j) && s.clock <= now && Listed(posts, s.open[j].user, now, births, authors)
    case Tell(j, now) => IsTelling(s, j) && s.clock <= now
    case Stop(j) => j < |s.open|
  }

  ghost function Apply(lower: Keywords.Lowering, births: Births, authors: Authors, s: State, step: Step): (after: State)
    requires Enabled(births, authors, s, step)
  {
    match step
    case Create(user, subreddit, now) =>
      s.(rows := s.rows[s.next := Row(user, now, now, subreddit, 0)], next := s.next + 1, clock := now)
    case Edit(id, user, subreddit) => s.(rows := s.rows[id := s.rows[id].(user := user, subreddit := subreddit)])
    case Delete(id) => s.(rows := s.rows - {id})
    case Begin(user, watchers) => s.(open := s.open + [Open(user, Reading(watchers))])
    case Remove(j) => s.(rows := WithoutUser(s.rows, s.open[j].user))
    case Fetch(j, posts, now) =>
      var alerts := Alerts(lower, posts, s.open[j].stage.watchers);
      s.(open := s.open[j := s.open[j].(stage := Telling(alerts))], clock := now)
    case Tell(j, now) =>
      var rest := s.open[j].stage.rest;
      s.(rows := Touch(s.rows, rest[0].watcher, now), clock := now, log := s.log + [rest[0]],
         open := s.open[j := s.open[j].(stage := Telling(rest[1..]))])
    case Stop(j) => s.(open := Without(s.open, j))
  }

  // One job of a user at a time; jobs of other users may be in any state.
  ghost predicate Alone(s: State, step: Step) {
    step.Begin? ==> forall o <- s.open :: o.user != step.user
  }

  ghost predicate Run(lower: Keywords.Lowering, births: Births, authors: Authors,
                      states: seq<State>, steps: seq<Step>) {
    && |states| == |steps| + 1
    && states[0].rows == map[] && states[0].open == [] && states[0].log == []
    && forall i :: 0 <= i < |steps| ==>
         && Enabled(births, authors, states[i], steps[i])
         && states[i + 1] == Apply(lower, births, authors, states[i], steps[i])
  }

  ghost predicate OnePerUser(states: seq<State>, steps: seq<Step>)
    requires |states| == |steps| + 1
  {
    forall i :: 0 <= i < |steps| ==> Alone(states[i], steps[i])
  }

  // ---------- The invariant ----------

  // Every row stands after each post its watcher was told of.
  ghost predicate RowsPast(rows: Rows, next: nat, log: seq<Alert>, births: Births) {
    && (forall id <- rows :: id < next)
    && (forall a <- log :: a.watcher < next && (a.watcher in rows ==> births(a.post) < rows[a.watcher].notified))
  }

  // Every watcher read by a job stands after each post of the job's user it was told of.
  ghost predicate ReadPast(user: nat, watchers: seq<Watcher>, next: nat, log: seq<Alert>,
                           births: Births, authors: Authors) {
    && DistinctIds(watchers)
    && forall w <- watchers ::
         && w.id < next
         && forall a <- log :: a.watcher == w.id && authors(a.post) == user ==> births(a.post) < w.notified
  }

  // What a job has still to tell is about its user's posts, and new.
  ghost predicate RestNew(user: nat, rest: seq<Alert>, s: State, births: Births, authors: Authors) {
    && Distinct(rest)
    && forall a <- rest ::
         a !in s.log && a.watcher < s.next && births(a.post) < s.clock && authors(a.post) == user
  }

  ghost predicate SafeJob(o: Open, s: State, births: Births, authors: Authors) {
    match o.stage
    case Reading(watchers) => ReadPast(o.user, watchers, s.next, s.log, births, authors)
    case Telling(rest) => RestNew(o.user, rest, s, births, authors)
  }

  ghost predicate Inv(s: State, births: Births, authors: Authors) {
    && RowsPast(s.rows, s.next, s.log, births)
    && (forall a <- s.log :: births(a.post) < s.clock)
    && Distinct(s.log)
    && (forall i, j :: 0 <= i < j < |s.open| ==> s.open[i].user != s.open[j].user)
    && (forall i :: 0 <= i < |s.open| ==> SafeJob(s.open[i], s, births, authors))
  }

  // A due alert is new: an earlier one would have left the watcher past the post.
  lemma DueAreNew(lower: Keywords.Lowering, births: Births, authors: Authors, s: State, user: nat,
                  watchers: seq<Watcher>, posts: seq<Post>, now: int)
    requires ReadPast(user, watchers, s.next, s.log, births, authors) && Listed(posts, user, now, births, authors)
    ensures RestNew(user, Alerts(lower, posts, watchers), s.(clock := now), births, authors)
  {
    var all := Alerts(lower, posts, watchers);
    AlertsDistinct(lower, posts, watchers);
    AlertsExactly(lower, posts, watchers);
    forall a | a in all ensures a !in s.log && a.watcher < s.next && births(a.post) < now && authors(a.post) == user {
      var p, w :| p in posts && w in watchers && a == Alert(w.id, p.id) && Due(lower, w, p);
    }
  }

  lemma FetchKeepsInv(lower: Keywords.Lowering, births: Births, authors: Authors, s: State,
                      j: nat, posts: seq<Post>, now: int)
    requires Inv(s, births, authors) && Enabled(births, authors, s, Fetch(j, posts, now))
    ensures Inv(Apply(lower, births, authors, s, Fetch(j, posts, now)), births, authors)
  {
    var s' := Apply(lower, births, authors, s, Fetch(j, posts, now));
    assert SafeJob(s.open[j], s, births, authors);
    DueAreNew(lower, births, authors, s, s.open[j].user, s.open[j].stage.watchers, posts, now);
    forall i | 0 <= i < |s'.open| ensures SafeJob(s'.open[i], s', births, authors) {
      assert SafeJob(s.open[i], s, births, authors);
    }
  }

  // An alert of one user's job leaves the jobs of other users as they were.
  lemma OthersStaySafe(o: Open, s: State, s': State, a: Alert, births: Births, authors: Authors)
    requires SafeJob(o, s, births, authors) && authors(a.post) != o.user
    requires s'.log == s.log + [a] && s'.next == s.next && s.clock <= s'.clock
    ensures SafeJob(o, s', births, authors)
  {
  }

  lemma TellKeepsInv(lower: Keywords.Lowering, births: Births, authors: Authors, s: State, j: nat, now: int)
    requires Inv(s, births, authors) && Enabled(births, authors, s, Tell(j, now))
    ensures Inv(Apply(lower, births, authors, s, Tell(j, now)), births, authors)
  {
    var s', rest := Apply(lower, births, authors, s, Tell(j, now)), s.open[j].stage.rest;
    var a := rest[0];
    assert SafeJob(s.open[j], s, births, authors) && a in rest;
    assert forall b <- rest[1..] :: b in rest && b != a;
    forall i | 0 <= i < |s'.open| ensures SafeJob(s'.open[i], s', births, authors) {
      if i != j {
        OthersStaySafe(s.open[i], s, s', a, births, authors);
      }
    }
  }

  // Steps that touch rows alone, or move no row and no log, keep jobs safe.
  lemma JobsStaySafe(s: State, s': State, births: Births, authors: Authors)
    requires forall i :: 0 <= i < |s.open| ==> SafeJob(s.open[i], s, births, authors)
    requires s'.log == s.log && s.next <= s'.next && s.clock <= s'.clock
    ensures forall i :: 0 <= i < |s.open| ==> SafeJob(s.open[i], s', births, authors)
  {
    forall i | 0 <= i < |s.open| ensures SafeJob(s.open[i], s', births, authors) {
      assert SafeJob(s.open[i], s, births, authors);
    }
  }

  lemma BeginKeepsInv(births: Births, authors: Authors, s: State, user: nat, watchers: seq<Watcher>)
    requires Inv(s, births, authors) && ReadFrom(watchers, s.rows, user) && Alone(s, Begin(user, watchers))
    ensures Inv(s.(open := s.open + [Open(user, Reading(watchers))]), births, authors)
  {
    var s' := s.(open := s.open + [Open(user, Reading(watchers))]);
    JobsStaySafe(s, s', births, authors);
    assert ReadPast(user, watchers, s.next, s.log, births, authors);
  }

  lemma StepKeepsInv(lower: Keywords.Lowering, births: Births, authors: Authors, s: State, step: Step)
    requires Inv(s, births, authors) && Enabled(births, authors, s, step) && Alone(s, step)
    ensures Inv(Apply(lower, births, authors, s, step), births, authors)
  {
    match step
    case Fetch(j, posts, now) => FetchKeepsInv(lower, births, authors, s, j, posts, now);
    case Tell(j, now) => TellKeepsInv(lower, births, authors, s, j, now);
    case Begin(user, watchers) => BeginKeepsInv(births, authors, s, user, watchers);
    case _ => JobsStaySafe(s, Apply(lower, births, authors, s, step), births, authors);
  }

  lemma {:induction false} InvHolds(lower: Keywords.Lowering, births: Births, authors: Authors,
                                    states: seq<State>, steps: seq<Step>, n: nat)
    requires Run(lower, births, authors, states, steps) && OnePerUser(states, steps) && n <= |steps|
    ensures Inv(states[n], births, authors)
  {
    if n > 0 {
      InvHolds(lower, births, authors, states, steps, n - 1);
      StepKeepsInv(lower, births, authors, states[n - 1], steps[n - 1]);
    }
  }

  // No watcher is told of a post twice, in any run with one job of a user at a time:
  // jobs of different users may interleave alert by alert, fail at any increment, find
  // their watchers removed, or have them moved to another user.
  lemma NeverToldTwice(lower: Keywords.Lowering, births: Births, authors: Authors,
                       states: seq<State>, steps: seq<Step>, n: nat)
    requires Run(lower, births, authors, states, steps) && OnePerUser(states, steps) && n <= |steps|
    ensures forall i, j :: 0 <= i < j < |states[n].log| ==> states[n].log[i] != states[n].log[j]
  {
    InvHolds(lower, births, authors, states, steps, n);
  }

  // In every run a watcher's mark stands between its creation and the present.
  ghost predicate Marked(s: State) {
    forall id <- s.rows :: s.rows[id].created <= s.rows[id].notified <= s.clock
  }

  lemma {:induction false} MarksHold(lower: Keywords.Lowering, births: Births, authors: Authors,
                                     states: seq<State>, steps: seq<Step>, n: nat)
    requires Run(lower, births, authors, states, steps) && n <= |steps|
    ensures Marked(states[n])
  {
    if n > 0 {
      MarksHold(lower, births, authors, states, steps, n - 1);
      assert states[n] == Apply(lower, births, authors, states[n - 1], steps[n - 1]);
    }
  }

  // ---------- What a job leaves untold ----------

  // Which listed posts an uninterrupted job tells a watcher of: those not before its
  // row's times. A post created between the fetch of one job and an increment of that
  // job is thus never told, since the increment puts the row past it.
  lemma ToldUnlessPassed(lower: Keywords.Lowering, rows: Rows, user: nat, watchers: seq<Watcher>, posts: seq<Post>,
                         w: Watcher, p: Post)
    requires ReadFrom(watchers, rows, user) && w in watchers && p in posts && DistinctPosts(posts)
    ensures Alert(w.id, p.id) in Alerts(lower, posts, watchers) <==>
              && !p.isPrivate && rows[w.id].created <= p.created && rows[w.id].notified <= p.created
              && (rows[w.id].subreddit == "" || Keywords.Lower(lower, p.subreddit) == rows[w.id].subreddit)
  {
    AlertsExactly(lower, posts, watchers);
    var a := Alert(w.id, p.id);
    if IsDue(lower, a, posts, watchers) {
      var q, v :| q in posts && v in watchers && a == Alert(v.id, q.id) && Due(lower, v, q);
      assert q == p && v == w;
    }
  }

  // A user whose watchers were removed has none left, and no other user lost any.
  lemma RemovedUserHasNone(rows: Rows, user: nat, other: nat, watchers: seq<Watcher>)
    requires ReadFrom(watchers, WithoutUser(rows, user), other)
    ensures watchers != [] ==> other != user
    ensures ReadFrom(watchers, rows, other)
  {
    if watchers != [] {
      assert watchers[0] in watchers;
    }
  }

  lemma OtherUsersKeepTheirs(rows: Rows, user: nat, other: nat, watchers: seq<Watcher>)
    requires ReadFrom(watchers, rows, other) && other != user
    ensures ReadFrom(watchers, WithoutUser(rows, user), other)
  {
  }

  // An edit moves a watcher to another user and subreddit, and leaves its times alone.
  lemma EditedWatcherMoves(lower: Keywords.Lowering, births: Births, authors: Authors, s: State, id: nat, user: nat,
                           subreddit: string, watchers: seq<Watcher>, reader: nat, w: Watcher)
    requires Enabled(births, authors, s, Edit(id, user, subreddit))
    requires ReadFrom(watchers, Apply(lower, births, authors, s, Edit(id, user, subreddit)).rows, reader)
    requires w in watchers && w.id == id
    ensures reader == user && w == Watcher(id, s.rows[id].created, s.rows[id].notified, subreddit)
  {
  }

  // ---------- The worker's job is such steps ----------

  lemma Then(lower: Keywords.Lowering, births: Births, authors: Authors,
             states: seq<State>, steps: seq<Step>, step: Step)
    returns (states': seq<State>, steps': seq<Step>)
    requires Run(lower, births, authors, states, steps) && Enabled(births, authors, states[|steps|], step)
    ensures Run(lower, births, authors, states', steps') && steps <= steps'
    ensures states'[|steps'|] == Apply(lower, births, authors, states[|steps|], step)
    ensures OnePerUser(states, steps) && Alone(states[|steps|], step) ==> OnePerUser(states', steps')
  {
    states', steps' := states + [Apply(lower, births, authors, states[|steps|], step)], steps + [step];
  }

  // Increments take place one after the other, none before `time`.
  ghost predicate Ticks(clock: Clock, time: int) {
    clock(0) >= time && forall a: nat, b: nat :: a <= b ==> clock(a) <= clock(b)
  }

  // The state after the first m alerts of a job.
  function ToldState(s: State, j: nat, clock: Clock, m: nat): (after: State)
    requires j < |s.open| && s.open[j].stage.Telling? && m <= |s.open[j].stage.rest|
  {
    var rest := s.open[j].stage.rest;
    State(Touched(s.rows, clock, rest[..m]), s.next, if m == 0 then s.clock else clock(m - 1),
          s.open[j := s.open[j].(stage := Telling(rest[m..]))], s.log + rest[..m])
  }

  lemma OneTell(lower: Keywords.Lowering, births: Births, authors: Authors, s: State, j: nat, clock: Clock, m: nat)
    requires j < |s.open| && s.open[j].stage.Telling? && 0 < m <= |s.open[j].stage.rest| && Ticks(clock, s.clock)
    ensures var before := ToldState(s, j, clock, m - 1);
            && Enabled(births, authors, before, Tell(j, clock(m - 1)))
            && Apply(lower, births, authors, before, Tell(j, clock(m - 1))) == ToldState(s, j, clock, m)
  {
    var before, after := ToldState(s, j, clock, m - 1), ToldState(s, j, clock, m);
    var rest := s.open[j].stage.rest;
    TouchedNext(s.rows, clock, rest, m - 1);
    OneOff(rest, m - 1);
    assert before.clock <= clock(m - 1);
    assert before.open[j].stage.rest[0] == rest[m - 1];
    assert s.log + rest[..m - 1] + [rest[m - 1]] == s.log + rest[..m];
    assert before.open[j := s.open[j].(stage := Telling(rest[m..]))] == after.open;
  }

  lemma OneOff(rest: seq<Alert>, i: nat)
    requires i < |rest|
    ensures rest[i..] != [] && rest[i..][0] == rest[i] && rest[i..][1..] == rest[i + 1..]
    ensures rest[..i + 1] == rest[..i] + [rest[i]]
  {
  }

  lemma {:induction false} TellSteps(lower: Keywords.Lowering, births: Births, authors: Authors,
                                     states: seq<State>, steps: seq<Step>, j: nat, clock: Clock, m: nat)
    returns (states': seq<State>, steps': seq<Step>)
    requires Run(lower, births, authors, states, steps)
    requires var s := states[|steps|];
             j < |s.open| && s.open[j].stage.Telling? && m <= |s.open[j].stage.rest| && Ticks(clock, s.clock)
    ensures Run(lower, births, authors, states', steps') && steps <= steps'
    ensures OnePerUser(states, steps) ==> OnePerUser(states', steps')
    ensures states'[|steps'|] == ToldState(states[|steps|], j, clock, m)
    decreases m
  {
    states', steps' := states, steps;
    var s := states[|steps|];
    if m == 0 {
      assert s.open[j].stage.rest[0..] == s.open[j].stage.rest;
      assert s == ToldState(s, j, clock, 0);
    } else {
      states', steps' := TellSteps(lower, births, authors, states, steps, j, clock, m - 1);
      OneTell(lower, births, authors, s, j, clock, m);
      states', steps' := Then(lower, births, authors, states', steps', Tell(j, clock(m - 1)));
    }
  }

  // A job that fetches its page and tells until it is done or an increment fails leaves
  // the rows and the sends that the consumer leaves; one that finds that the user takes no
  // followers removes the user's rows first.
  lemma JobIsSteps(lower: Keywords.Lowering, births: Births, authors: Authors, states: seq<State>, steps: seq<Step>,
                   j: nat, removes: bool, posts: seq<Post>, now: int, clock: Clock, limit: nat)
    returns (states': seq<State>, steps': seq<Step>)
    requires Run(lower, births, authors, states, steps)
    requires Enabled(births, authors, states[|steps|], Fetch(j, posts, now)) && Ticks(clock, now)
    ensures Run(lower, births, authors, states', steps') && steps <= steps'
    ensures OnePerUser(states, steps) ==> OnePerUser(states', steps')
    ensures var s, s' := states[|steps|], states'[|steps'|];
            var told := Told(Alerts(lower, posts, s.open[j].stage.watchers), limit);
            && s'.rows == Touched(if removes then WithoutUser(s.rows, s.open[j].user) else s.rows, clock, told)
            && s'.log == s.log + told
            && s'.open == Without(s.open, j) && s'.clock == if told == [] then now else clock(|told| - 1)
  {
    var s := states[|steps|];
    states', steps' := states, steps;
    if removes {
      states', steps' := Then(lower, births, authors, states', steps', Remove(j));
    }
    states', steps' := FetchSteps(lower, births, authors, states', steps', j, posts, now, clock, limit);
  }

  lemma FetchSteps(lower: Keywords.Lowering, births: Births, authors: Authors, states: seq<State>, steps: seq<Step>,
                   j: nat, posts: seq<Post>, now: int, clock: Clock, limit: nat)
    returns (states': seq<State>, steps': seq<Step>)
    requires Run(lower, births, authors, states, steps)
    requires Enabled(births, authors, states[|steps|], Fetch(j, posts, now)) && Ticks(clock, now)
    ensures Run(lower, births, authors, states', steps') && steps <= steps'
    ensures OnePerUser(states, steps) ==> OnePerUser(states', steps')
    ensures var s, s' := states[|steps|], states'[|steps'|];
            var told := Told(Alerts(lower, posts, s.open[j].stage.watchers), limit);
            && s'.rows == Touched(s.rows, clock, told) && s'.log == s.log + told
            && s'.open == Without(s.open, j) && s'.clock == if told == [] then now else clock(|told| - 1)
  {
    var s := states[|steps|];
    var alerts := Alerts(lower, posts, s.open[j].stage.watchers);
    states', steps' := Then(lower, births, authors, states, steps, Fetch(j, posts, now));
    var told := Told(alerts, limit);
    states', steps' := TellSteps(lower, births, authors, states', steps', j, clock, |told|);
    assert alerts[..|told|] == told;
    states', steps' := Then(lower, births, authors, states', steps', Stop(j));
    assert states'[|steps'|].open == Without(s.open, j);
  }

  // ---------- Why one job of a user ----------

  const W := Watcher(0, 0, 0, "")
  const P := Post("p", 1, "", false)

  // Two jobs of user 5 have read the same row.
  lemma BothReading(lower: Keywords.Lowering, births: Births, authors: Authors)
    returns (states: seq<State>, steps: seq<Step>)
    ensures Run(lower, births, authors, states, steps)
    ensures var o := Open(5, Reading([W]));
            states[|steps|] == State(map[0 := Row(5, 0, 0, "", 0)], 1, 0, [o, o], [])
  {
    states, steps := [State(map[], 0, 0, [], [])], [];
    states, steps := Then(lower, births, authors, states, steps, Create(5, "", 0));
    states, steps := Then(lower, births, authors, states, steps, Begin(5, [W]));
    states, steps := Then(lower, births, authors, states, steps, Begin(5, [W]));
  }

  lemma OneAlert(lower: Keywords.Lowering, w: Watcher, p: Post)
    requires Due(lower, w, p)
    ensures Alerts(lower, [p], [w]) == [Alert(w.id, p.id)]
  {
    assert [w][..0] == [] && [p][..0] == [];
    assert AlertsFor(lower, p, [w]) == AlertsFor(lower, p, []) + [Alert(w.id, p.id)];
    assert Alerts(lower, [p], [w]) == Alerts(lower, [], [w]) + AlertsFor(lower, p, [w]);
  }

  // Two jobs of one user that read the same row before either counts a hit both tell of
  // the post.
  lemma OverlappingJobsTellTwice(lower: Keywords.Lowering, births: Births, authors: Authors)
    returns (states: seq<State>, steps: seq<Step>)
    requires births("p") == 1 && authors("p") == 5
    ensures Run(lower, births, authors, states, steps)
    ensures states[|steps|].log == [Alert(0, "p"), Alert(0, "p")]
  {
    OneAlert(lower, W, P);
    states, steps := BothReading(lower, births, authors);
    states, steps := JobIsSteps(lower, births, authors, states, steps, 0, false, [P], 2, _ => 2, 9);
    assert states[|steps|].open == [Open(5, Reading([W]))] && states[|steps|].log == [Alert(0, "p")];
    states, steps := JobIsSteps(lower, births, authors, states, steps, 0, false, [P], 2, _ => 2, 9);
  }
}
