// The trending worker: hot posts that reach the week's median score and are under two
// days old are pushed to every watcher whose device has not been told.

module Trending {
  import opened NotifiedKeys
  import opened Collection
  import opened Median

  const MIN_POSTS := 20

  datatype Watcher = Watcher(id: nat, device: nat, created: int)

  // ---------- The posts that qualify ----------

  // The position of the first post at or after i that scores enough but is too old;
  // an old post that scores too little does not end the scan.
  function OldFrom(hot: seq<Post>, score: int, threshold: int, i: nat): (n: nat)
    requires i <= |hot|
    ensures i <= n <= |hot|
    ensures forall j :: i <= j < n ==> hot[j].score < score || hot[j].created >= threshold
    ensures n < |hot| ==> hot[n].score >= score && hot[n].created < threshold
    decreases |hot| - i
  {
    if i == |hot| || (hot[i].score >= score && hot[i].created < threshold) then i
    else OldFrom(hot, score, threshold, i + 1)
  }

  function Eligible(hot: seq<Post>, score: int, threshold: int): (posts: seq<Post>) {
    Filter(hot[..OldFrom(hot, score, threshold, 0)], AtLeast(score))
  }

  // Every qualifying post reaches the median and is under two days old, and a young
  // post that reaches it is missed only behind an old one that does too.
  lemma EligibleExactly(hot: seq<Post>, score: int, threshold: int)
    ensures forall p <- Eligible(hot, score, threshold) :: p in hot && p.score >= score && p.created >= threshold
    ensures forall i :: 0 <= i < |hot| && hot[i].score >= score && hot[i] !in Eligible(hot, score, threshold) ==>
              exists j :: 0 <= j <= i && hot[j].score >= score && hot[j].created < threshold
  {
    var n := OldFrom(hot, score, threshold, 0);
    FilterMembers(hot[..n], AtLeast(score));
    forall i | 0 <= i < n && hot[i].score >= score ensures hot[i] in Eligible(hot, score, threshold) {
      assert hot[i] in hot[..n];
    }
  }

  // ---------- One job ----------

  // hits: the watcher rows; left: how many more hit increments will succeed.
  datatype Progress = Progress(keys: Keys, hits: map<nat, nat>, sends: seq<Attempt>, left: nat, failed: bool)

  // The key is set before the hits are counted, so a failed increment costs a key.
  function Visit(now: int, p: Post, w: Watcher, st: Progress): (after: Progress) {
    var k := (w.device, p.id);
    if st.failed || w.created > p.created || Live(st.keys, k, now) then st
    else
      var keys := st.keys[k := now + TRENDING_WINDOW];
      if st.left == 0 then st.(keys := keys, failed := true)
      else Progress(keys, Bump(st.hits, w.id), st.sends + [Attempt(w.id, w.device, p.id)], st.left - 1, false)
  }

  function Look(now: int, p: Post, watchers: seq<Watcher>, st: Progress): (after: Progress) {
    if watchers == [] then st
    else Visit(now, p, watchers[|watchers| - 1], Look(now, p, watchers[..|watchers| - 1], st))
  }

  function Pass(now: int, posts: seq<Post>, watchers: seq<Watcher>, st: Progress): (after: Progress) {
    if posts == [] then st
    else Look(now, posts[|posts| - 1], watchers, Pass(now, posts[..|posts| - 1], watchers, st))
  }

  function Start(keys: Keys, hits: map<nat, nat>, left: nat): (st: Progress) {
    Progress(keys, hits, [], left, false)
  }

  // ---------- Conservation ----------

  ghost predicate HitsAgree(st0: Progress, st: Progress) {
    && st.hits.Keys == st0.hits.Keys
    && (forall w <- st0.hits :: st.hits[w] == st0.hits[w] + Count(st.sends, w))
    && st.left + |st.sends| == st0.left
    && (st.failed ==> st.left == 0)
  }

  // Every send set its own key; a failed increment leaves one key without a send.
  ghost predicate KeysAgree(keys0: Keys, st: Progress, now: int) {
    && (forall k <- keys0 :: k in st.keys)
    && (forall k <- NewKeys(keys0, st.keys) :: st.keys[k] == now + TRENDING_WINDOW && !Live(keys0, k, now))
    && Keyed(st.sends, NewKeys(keys0, st.keys))
    && |NewKeys(keys0, st.keys)| == |st.sends| + if st.failed then 1 else 0
  }

  ghost predicate AllYoung(log: seq<Attempt>, threshold: int, births: Births) {
    forall a <- log :: births(a.post) >= threshold
  }

  lemma VisitKeepsHits(now: int, p: Post, w: Watcher, st0: Progress, st: Progress)
    requires HitsAgree(st0, st)
    ensures HitsAgree(st0, Visit(now, p, w, st))
  {
    var st' := Visit(now, p, w, st);
    if st'.sends != st.sends {
      assert st'.sends[..|st'.sends| - 1] == st.sends;
    }
  }

  lemma VisitKeepsKeys(now: int, p: Post, w: Watcher, keys0: Keys, st: Progress)
    requires KeysAgree(keys0, st, now)
    ensures KeysAgree(keys0, Visit(now, p, w, st), now)
  {
    var st', k := Visit(now, p, w, st), (w.device, p.id);
    if st' != st {
      NewKey(keys0, st.keys, k, now, TRENDING_WINDOW);
      KeyedOn(st.sends, NewKeys(keys0, st.keys), Attempt(w.id, w.device, p.id));
    }
  }

  ghost predicate Good(st0: Progress, st: Progress, now: int, threshold: int, births: Births) {
    HitsAgree(st0, st) && KeysAgree(st0.keys, st, now) && AllYoung(st.sends, threshold, births)
  }

  lemma {:induction false} LookKeeps(now: int, p: Post, watchers: seq<Watcher>, st0: Progress, st: Progress,
                                     threshold: int, births: Births)
    requires Good(st0, st, now, threshold, births) && births(p.id) >= threshold
    ensures Good(st0, Look(now, p, watchers, st), now, threshold, births)
  {
    if watchers != [] {
      var n := |watchers| - 1;
      LookKeeps(now, p, watchers[..n], st0, st, threshold, births);
      var mid := Look(now, p, watchers[..n], st);
      VisitKeepsHits(now, p, watchers[n], st0, mid);
      VisitKeepsKeys(now, p, watchers[n], st0.keys, mid);
    }
  }

  lemma {:induction false} PassKeeps(now: int, posts: seq<Post>, watchers: seq<Watcher>, st0: Progress,
                                     threshold: int, births: Births)
    requires st0 == Start(st0.keys, st0.hits, st0.left)
    requires forall p <- posts :: births(p.id) >= threshold
    ensures Good(st0, Pass(now, posts, watchers, st0), now, threshold, births)
  {
    if posts == [] {
      assert NewKeys(st0.keys, st0.keys) == {};
    } else {
      var n := |posts| - 1;
      PassKeeps(now, posts[..n], watchers, st0, threshold, births);
      assert posts[n] in posts;
      LookKeeps(now, posts[n], watchers, st0, Pass(now, posts[..n], watchers, st0), threshold, births);
    }
  }

  // Every existing watcher's hits grow by exactly its send attempts, and there is one
  // new key for each attempt, plus one when an increment failed.
  lemma HitConservation(now: int, posts: seq<Post>, watchers: seq<Watcher>, keys: Keys, hits: map<nat, nat>, left: nat)
    ensures var st := Pass(now, posts, watchers, Start(keys, hits, left));
            && st.hits.Keys == hits.Keys
            && (forall w <- hits :: st.hits[w] == hits[w] + Count(st.sends, w))
            && |NewKeys(keys, st.keys)| == |st.sends| + (if st.failed then 1 else 0)
            && |st.sends| == left - st.left
            && (st.failed ==> |st.sends| == left)
  {
    PassKeeps(now, posts, watchers, Start(keys, hits, left), 0, _ => 0);
  }

  // A trending job is a job of the key protocol with a window of 48 hours.
  lemma TrendingJobEffect(start: int, now: int, posts: seq<Post>, watchers: seq<Watcher>,
                          keys: Keys, hits: map<nat, nat>, left: nat, births: Births)
    requires forall p <- posts :: births(p.id) == p.created >= start - TRENDING_WINDOW
    ensures var st := Pass(now, posts, watchers, Start(keys, hits, left));
            JobEffect(keys, st.keys, Job(start, now, st.sends), 48 * 60 * 60, births)
  {
    PassKeeps(now, posts, watchers, Start(keys, hits, left), start - TRENDING_WINDOW, births);
    var st := Pass(now, posts, watchers, Start(keys, hits, left));
    forall k | k in keys
      ensures k in st.keys && (st.keys[k] == keys[k] || (st.keys[k] == now + TRENDING_WINDOW && keys[k] <= now))
    {
      if st.keys[k] != keys[k] {
        assert k in NewKeys(keys, st.keys);
      }
    }
  }

  // ---------- Runs of whole jobs ----------

  // What a job starts from and fetches.
  datatype Input = Input(
    start: int, now: int, top: Fetch, hot: Fetch, watchers: seq<Watcher>, hits: map<nat, nat>, left: nat)

  function PostsOf(job: Input): (posts: seq<Post>) {
    if !job.top.Page? || |job.top.posts| < MIN_POSTS || !job.hot.Page? then []
    else Eligible(job.hot.posts, Threshold(job.top.posts), job.start - TRENDING_WINDOW)
  }

  function Outcome(keys: Keys, job: Input): (st: Progress) {
    Pass(job.now, PostsOf(job), job.watchers, Start(keys, job.hits, job.left))
  }

  // The job is not slower than the latency, and its posts are older than that.
  ghost predicate InTime(job: Input, latency: int, births: Births) {
    && 0 <= job.now - job.start <= latency
    && forall p <- PostsOf(job) :: births(p.id) == p.created < job.now - latency
  }

  ghost predicate JobRun(tables: seq<Keys>, inputs: seq<Input>, latency: int, births: Births) {
    && |tables| == |inputs| + 1
    && tables[0] == map[]
    && forall i :: 0 <= i < |inputs| ==>
         tables[i + 1] == Outcome(tables[i], inputs[i]).keys && InTime(inputs[i], latency, births)
  }

  function Jobs(tables: seq<Keys>, inputs: seq<Input>): (jobs: seq<Job>)
    requires |tables| == |inputs| + 1
  {
    seq(|inputs|, i requires 0 <= i < |inputs| =>
      Job(inputs[i].start, inputs[i].now, Outcome(tables[i], inputs[i]).sends))
  }

  lemma PostsAreYoung(job: Input)
    ensures forall p <- PostsOf(job) :: p.created >= job.start - TRENDING_WINDOW
  {
    if job.top.Page? && |job.top.posts| >= MIN_POSTS && job.hot.Page? {
      EligibleAreYoung(job.hot.posts, Threshold(job.top.posts), job.start - TRENDING_WINDOW);
    }
  }

  lemma EligibleAreYoung(hot: seq<Post>, score: int, threshold: int)
    ensures forall p <- Eligible(hot, score, threshold) :: p.created >= threshold
  {
    EligibleExactly(hot, score, threshold);
  }

  // A pass over old posts sends old posts only.
  lemma SentAreOld(now: int, posts: seq<Post>, watchers: seq<Watcher>, st0: Progress, limit: int, births: Births)
    requires st0 == Start(st0.keys, st0.hits, st0.left) && forall p <- posts :: births(p.id) < limit
    ensures forall a <- Pass(now, posts, watchers, st0).sends :: births(a.post) < limit
  {
    PassKeeps(now, posts, watchers, st0, 1 - limit, id => -births(id));
  }

  lemma JobIsStep(keys: Keys, job: Input, latency: int, births: Births)
    requires InTime(job, latency, births)
    ensures var st := Outcome(keys, job);
            && JobEffect(keys, st.keys, Job(job.start, job.now, st.sends), 48 * 60 * 60, births)
            && Punctual(Job(job.start, job.now, st.sends), latency, births)
  {
    var posts := PostsOf(job);
    PostsAreYoung(job);
    TrendingJobEffect(job.start, job.now, posts, job.watchers, keys, job.hits, job.left, births);
    SentAreOld(job.now, posts, job.watchers, Start(keys, job.hits, job.left), job.now - latency, births);
  }

  // Over any run of whole trending jobs no device is notified of a post twice.
  lemma JobsNotifyOnce(tables: seq<Keys>, inputs: seq<Input>, latency: int, births: Births)
    requires JobRun(tables, inputs, latency, births)
    ensures AtMostOnce(Log(Jobs(tables, inputs)))
  {
    var jobs := Jobs(tables, inputs);
    forall i | 0 <= i < |jobs|
      ensures JobEffect(tables[i], tables[i + 1], jobs[i], TRENDING_WINDOW, births)
      ensures Punctual(jobs[i], latency, births)
    {
      JobIsStep(tables[i], inputs[i], latency, births);
    }
    NeverNotifiedTwice(tables, jobs, TRENDING_WINDOW, latency, births, |jobs|);
    assert jobs[..|jobs|] == jobs;
  }

  // ---------- Slow jobs ----------

  // The top posts are enough for a median, and the post reaches it.
  predicate Reaches(p: Post, top: seq<Post>) {
    |top| >= MIN_POSTS && p.score >= Threshold(top)
  }

  lemma OneEligible(p: Post, score: int, threshold: int)
    requires p.score >= score && p.created >= threshold
    ensures Eligible([p], score, threshold) == [p]
  {
    assert OldFrom([p], score, threshold, 1) == 1;
    assert [p][..1] == [p] && [p][..0] == [];
    assert Filter([p], AtLeast(score)) == Filter([], AtLeast(score)) + [p];
  }

  lemma OneVisit(now: int, w: Watcher, p: Post, st: Progress)
    requires !st.failed && st.left > 0 && w.created <= p.created && !Live(st.keys, (w.device, p.id), now)
    requires st.sends == []
    ensures var st' := Pass(now, [p], [w], st);
            && st'.sends == [Attempt(w.id, w.device, p.id)]
            && st'.keys == st.keys[(w.device, p.id) := now + TRENDING_WINDOW]
  {
    assert [w][..0] == [] && [p][..0] == [];
    assert Pass(now, [], [w], st) == st == Look(now, p, [], st);
    assert Look(now, p, [w], st) == Visit(now, p, w, st);
  }

  // A job within the latency, however young its posts, makes the one attempt.
  ghost predicate SlowStep(keys: Keys, job: Input, keys': Keys, a: Attempt, latency: int) {
    && 0 <= job.now - job.start <= latency
    && Outcome(keys, job).keys == keys' && Outcome(keys, job).sends == [a]
  }

  // A job of one watcher, with one hot post.
  lemma OneJob(start: int, now: int, w: Watcher, p: Post, top: seq<Post>) returns (job: Input)
    requires Reaches(p, top) && p.created >= start - TRENDING_WINDOW
    ensures job.start == start && job.now == now && job.watchers == [w] && job.left > 0 && PostsOf(job) == [p]
  {
    job := Input(start, now, Page(top), Page([p]), [w], map[], 1);
    OneEligible(p, Threshold(top), start - TRENDING_WINDOW);
  }

  lemma OneSlowStep(keys: Keys, start: int, now: int, w: Watcher, p: Post, top: seq<Post>, latency: int)
    returns (job: Input)
    requires Reaches(p, top) && w.created <= p.created
    requires p.created >= start - TRENDING_WINDOW && 0 <= now - start <= latency
    requires !Live(keys, (w.device, p.id), now)
    ensures job.start == start && job.now == now
    ensures SlowStep(keys, job, keys[(w.device, p.id) := now + TRENDING_WINDOW],
                     Attempt(w.id, w.device, p.id), latency)
  {
    job := OneJob(start, now, w, p, top);
    OneVisit(now, w, p, Start(keys, job.hits, job.left));
  }

  // Two jobs that both send the attempt.
  ghost predicate SentTwice(tables: seq<Keys>, inputs: seq<Input>, a: Attempt, latency: int) {
    && |tables| == 3 && |inputs| == 2 && tables[0] == map[] && inputs[0].now <= inputs[1].start
    && SlowStep(tables[0], inputs[0], tables[1], a, latency)
    && SlowStep(tables[1], inputs[1], tables[2], a, latency)
  }

  lemma SentTwiceLog(tables: seq<Keys>, inputs: seq<Input>, a: Attempt, latency: int)
    requires SentTwice(tables, inputs, a, latency)
    ensures Log(Jobs(tables, inputs)) == [a, a]
  {
    var jobs := Jobs(tables, inputs);
    assert jobs[0].sends == [a] && jobs[1].sends == [a];
    LogOfTwo(jobs);
  }

  // Here too a post that is first sent no longer after its creation than a job may take
  // can be sent again, once its key has expired, two days later.
  lemma SlowJobNotifiesTwice(w: Watcher, p: Post, top: seq<Post>, sent: int, latency: int)
    returns (tables: seq<Keys>, inputs: seq<Input>)
    requires Reaches(p, top) && w.created <= p.created
    requires 0 <= latency <= TRENDING_WINDOW && sent - latency <= p.created <= sent
    ensures SentTwice(tables, inputs, Attempt(w.id, w.device, p.id), latency) && inputs[0].now == sent
    ensures var a := Attempt(w.id, w.device, p.id); Log(Jobs(tables, inputs)) == [a, a]
  {
    var k, later := (w.device, p.id), sent + TRENDING_WINDOW;
    var t1: Keys := map[k := later];
    assert map[][k := later] == t1;
    var first := OneSlowStep(map[], sent, sent, w, p, top, latency);
    var second := OneSlowStep(t1, later - latency, later, w, p, top, latency);
    inputs, tables := [first, second], [map[], t1, t1[k := later + TRENDING_WINDOW]];
    SentTwiceLog(tables, inputs, Attempt(w.id, w.device, p.id), latency);
  }

  // ---------- The consumer ----------

  lemma {:induction false} LookFailed(now: int, p: Post, watchers: seq<Watcher>, st: Progress)
    requires st.failed
    ensures Look(now, p, watchers, st) == st
  {
    if watchers != [] {
      LookFailed(now, p, watchers[..|watchers| - 1], st);
    }
  }

  // After a failure the remaining watchers and posts change nothing.
  lemma {:induction false} LookSkips(now: int, p: Post, watchers: seq<Watcher>, i: nat, st: Progress)
    requires i <= |watchers| && Look(now, p, watchers[..i], st).failed
    ensures Look(now, p, watchers, st) == Look(now, p, watchers[..i], st)
    decreases |watchers|
  {
    if i == |watchers| {
      assert watchers[..i] == watchers;
    } else {
      var n := |watchers| - 1;
      assert watchers[..n][..i] == watchers[..i];
      LookSkips(now, p, watchers[..n], i, st);
    }
  }

  lemma {:induction false} PassSkips(now: int, posts: seq<Post>, more: seq<Post>, watchers: seq<Watcher>, st: Progress)
    requires Pass(now, posts, watchers, st).failed
    ensures Pass(now, posts + more, watchers, st) == Pass(now, posts, watchers, st)
  {
    if more == [] {
      assert posts + more == posts;
    } else {
      var m := |more| - 1;
      PassSkips(now, posts, more[..m], watchers, st);
      assert (posts + more)[..|posts + more| - 1] == posts + more[..m];
      LookFailed(now, more[m], watchers, Pass(now, posts, watchers, st));
    }
  }

  class TrendingConsumer {
    var keys: Keys
    var hits: map<nat, nat>           // the watcher rows
    var sends: seq<Attempt>           // every push attempt, in order

    constructor (keys: Keys, hits: map<nat, nat>)
      ensures this.keys == keys && this.hits == hits && sends == []
    {
      this.keys, this.hits, sends := keys, hits, [];
    }

    ghost predicate Mirrors(st: Progress, left: nat, failed: bool)
      reads this
    {
      st == Progress(keys, hits, sends, left, failed)
    }

    method LookAt(p: Post, watchers: seq<Watcher>, now: int, left: nat) returns (left': nat, failed: bool)
      modifies this
      ensures Mirrors(Look(now, p, watchers, Progress(old(keys), old(hits), old(sends), left, false)), left', failed)
    {
      left', failed := left, false;
      ghost var st0 := Progress(keys, hits, sends, left, false);
      var i := 0;
      while i < |watchers|
        invariant 0 <= i <= |watchers|
        invariant Mirrors(Look(now, p, watchers[..i], st0), left', false)
      {
        var w := watchers[i];
        assert watchers[..i + 1][..i] == watchers[..i];
        i := i + 1;
        if w.created > p.created {
          continue;
        }
        var k := (w.device, p.id);
        if Live(keys, k, now) {
          continue;
        }
        keys := keys[k := now + TRENDING_WINDOW];
        if left' == 0 {
          failed := true;
          LookSkips(now, p, watchers, i, st0);
          return;
        }
        left' := left' - 1;
        hits := Bump(hits, w.id);
        sends := sends + [Attempt(w.id, w.device, p.id)];
      }
      assert watchers[..i] == watchers;
    }

    // What a pass leaves behind.
    ghost predicate Left(st: Progress)
      reads this
    {
      keys == st.keys && hits == st.hits && sends == st.sends
    }

    method NotifyHot(hot: seq<Post>, score: int, threshold: int, watchers: seq<Watcher>, now: int, left: nat)
      modifies this
      ensures Left(Pass(now, Eligible(hot, score, threshold), watchers,
                        Progress(old(keys), old(hits), old(sends), left, false)))
    {
      ghost var st0 := Progress(keys, hits, sends, left, false);
      var left' := left;
      var i := 0;
      ghost var n := OldFrom(hot, score, threshold, 0);
      while i < |hot|
        invariant 0 <= i <= n
        invariant OldFrom(hot, score, threshold, i) == n
        invariant Mirrors(Pass(now, Filter(hot[..i], AtLeast(score)), watchers, st0), left', false)
      {
        if hot[i].score >= score {
          if hot[i].created < threshold {
            break;
          }
          var more, failed := LookAt(hot[i], watchers, now, left');
          FilterOn(hot, i, score);
          if failed {
            FilterOff(hot, i + 1, n, score);
            PassSkips(now, Filter(hot[..i + 1], AtLeast(score)), Filter(hot[i + 1..n], AtLeast(score)), watchers, st0);
            return;
          }
          left' := more;
        } else {
          FilterOn(hot, i, score);
        }
        i := i + 1;
      }
    }

    // Fewer than 20 top posts, or a listing that fails, end the job without effect.
    method Consume(watchers: seq<Watcher>, top: Fetch, hot: Fetch, start: int, now: int, left: nat)
      modifies this
      ensures if watchers == [] || !top.Page? || |top.posts| < MIN_POSTS || !hot.Page? then
                keys == old(keys) && hits == old(hits) && sends == old(sends)
              else
                Left(Pass(now, Eligible(hot.posts, Threshold(top.posts), start - TRENDING_WINDOW), watchers,
                          Progress(old(keys), old(hits), old(sends), left, false)))
    {
      if |watchers| == 0 || !top.Page? || |top.posts| < MIN_POSTS {
        return;
      }
      var count := |top.posts|;
      var children := new Post[count](i requires 0 <= i < count => top.posts[i]);
      assert children[..] == top.posts;
      SortByScore(children);
      SortedIsStable(top.posts);
      var score := children[count / 2].score;
      assert children[..][count / 2] == Sorted(top.posts)[count / 2];
      if !hot.Page? {
        return;
      }
      NotifyHot(hot.posts, score, start - TRENDING_WINDOW, watchers, now, left);
    }
  }

  lemma FilterOn(hot: seq<Post>, i: nat, score: int)
    requires i < |hot|
    ensures var before, after := Filter(hot[..i], AtLeast(score)), Filter(hot[..i + 1], AtLeast(score));
            if hot[i].score < score then after == before
            else |after| == |before| + 1 && after[..|before|] == before && after[|before|] == hot[i]
  {
    assert hot[..i + 1][..i] == hot[..i];
  }

  lemma FilterOff(hot: seq<Post>, i: nat, n: nat, score: int)
    requires i <= n <= |hot|
    ensures Filter(hot[..n], AtLeast(score)) == Filter(hot[..i], AtLeast(score)) + Filter(hot[i..n], AtLeast(score))
  {
    FilterConcat(hot[..i], hot[i..n], AtLeast(score));
    assert hot[..n] == hot[..i] + hot[i..n];
  }
}
