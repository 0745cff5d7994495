// The subreddit worker: every collected post is offered to every watcher, hits are
// counted, keys are set, and each post's matches are pushed after its watchers have
// all been looked at.

module Subreddits {
  import opened NotifiedKeys
  import opened Collection
  import Keywords

  datatype Watcher = Watcher(
    id: nat, device: nat, created: int,
    author: string, upvotes: int, keyword: string, flair: string, domain: string)

  // A post a watcher is to be told about, unless its device already was.
  ghost predicate Wants(lower: Keywords.Lowering, w: Watcher, p: Post) {
    && w.created <= p.created
    && Keywords.Matches(lower, w.keyword, Keywords.Lower(lower, p.title))
    && (w.author != "" ==> Keywords.Lower(lower, p.author) == w.author)
    && (w.upvotes > 0 ==> p.score >= w.upvotes)
    && (w.flair != "" ==> Keywords.Occurs(w.flair, Keywords.Lower(lower, p.flair)))
    && (w.domain != "" ==> Keywords.Occurs(w.domain, Keywords.Lower(lower, p.url)))
  }

  // hits: the watcher rows; left: how many more hit increments will succeed.
  datatype Progress = Progress(
    keys: Keys, hits: map<nat, nat>, sends: seq<Attempt>, pending: seq<Attempt>, left: nat, failed: bool)

  ghost function Visit(lower: Keywords.Lowering, now: int, p: Post, w: Watcher, st: Progress): (after: Progress) {
    var k := (w.device, p.id);
    if st.failed || !Wants(lower, w, p) || Live(st.keys, k, now) then st
    else if st.left == 0 then st.(failed := true)
    else Progress(st.keys[k := now + SUBREDDIT_WINDOW], Bump(st.hits, w.id), st.sends,
                  st.pending + [Attempt(w.id, w.device, p.id)], st.left - 1, false)
  }

  ghost function Look(lower: Keywords.Lowering, now: int, p: Post, watchers: seq<Watcher>, st: Progress):
    (after: Progress)
  {
    if watchers == [] then st
    else
      var n := |watchers| - 1;
      Visit(lower, now, p, watchers[n], Look(lower, now, p, watchers[..n], st))
  }

  function Flush(st: Progress): (after: Progress) {
    if st.failed then st else st.(sends := st.sends + st.pending, pending := [])
  }

  ghost function Pass(lower: Keywords.Lowering, now: int, posts: seq<Post>, watchers: seq<Watcher>, st: Progress):
    (after: Progress)
  {
    if posts == [] then st
    else
      var n := |posts| - 1;
      Flush(Look(lower, now, posts[n], watchers, Pass(lower, now, posts[..n], watchers, st)))
  }

  // ---------- Conservation ----------

  function Made(st: Progress): (log: seq<Attempt>) {
    st.sends + st.pending
  }

  // Hits and attempts agree, and each attempt used up one successful increment.
  ghost predicate HitsAgree(st0: Progress, st: Progress) {
    && st.hits.Keys == st0.hits.Keys
    && (forall w <- st0.hits :: st.hits[w] == st0.hits[w] + Count(Made(st), w))
    && st.left + |Made(st)| == st0.left
    && (st.failed ==> st.left == 0)
  }

  // The keys that changed are the keys of the attempts, each attempt its own.
  ghost predicate KeysAgree(keys0: Keys, st: Progress, now: int) {
    && (forall k <- keys0 :: k in st.keys)
    && (forall k <- NewKeys(keys0, st.keys) :: st.keys[k] == now + SUBREDDIT_WINDOW && !Live(keys0, k, now))
    && Keyed(Made(st), NewKeys(keys0, st.keys))
    && |NewKeys(keys0, st.keys)| == |Made(st)|
  }

  ghost predicate AllFresh(log: seq<Attempt>, threshold: int, births: Births) {
    forall a <- log :: births(a.post) >= threshold
  }

  lemma VisitKeepsHits(lower: Keywords.Lowering, now: int, p: Post, w: Watcher, st0: Progress, st: Progress)
    requires HitsAgree(st0, st)
    ensures HitsAgree(st0, Visit(lower, now, p, w, st))
  {
    var st' := Visit(lower, now, p, w, st);
    if Made(st') != Made(st) {
      var a := Attempt(w.id, w.device, p.id);
      assert Made(st') == Made(st) + [a];
      assert (Made(st) + [a])[..|Made(st)|] == Made(st);
    }
  }

  lemma VisitKeepsKeys(lower: Keywords.Lowering, now: int, p: Post, w: Watcher, keys0: Keys, st: Progress)
    requires KeysAgree(keys0, st, now)
    ensures KeysAgree(keys0, Visit(lower, now, p, w, st), now)
  {
    var st' := Visit(lower, now, p, w, st);
    if Made(st') != Made(st) {
      var a := Attempt(w.id, w.device, p.id);
      NewKey(keys0, st.keys, KeyOf(a), now, SUBREDDIT_WINDOW);
      KeyedOn(Made(st), NewKeys(keys0, st.keys), a);
      assert Made(st') == Made(st) + [a];
    }
  }

  lemma {:induction false} LookKeeps(lower: Keywords.Lowering, now: int, p: Post, watchers: seq<Watcher>,
                                     st0: Progress, st: Progress, threshold: int, births: Births)
    requires HitsAgree(st0, st) && KeysAgree(st0.keys, st, now) && AllFresh(Made(st), threshold, births)
    requires births(p.id) >= threshold
    ensures var st' := Look(lower, now, p, watchers, st);
            HitsAgree(st0, st') && KeysAgree(st0.keys, st', now) && AllFresh(Made(st'), threshold, births)
  {
    if watchers != [] {
      var n := |watchers| - 1;
      LookKeeps(lower, now, p, watchers[..n], st0, st, threshold, births);
      var mid := Look(lower, now, p, watchers[..n], st);
      VisitKeepsHits(lower, now, p, watchers[n], st0, mid);
      VisitKeepsKeys(lower, now, p, watchers[n], st0.keys, mid);
    }
  }

  // What is pending is about the post being looked at.
  lemma {:induction false} LookPending(lower: Keywords.Lowering, now: int, p: Post, watchers: seq<Watcher>,
                                       st: Progress)
    requires st.pending == []
    ensures forall a <- Look(lower, now, p, watchers, st).pending :: a.post == p.id
    ensures Look(lower, now, p, watchers, st).sends == st.sends
  {
    if watchers != [] {
      LookPending(lower, now, p, watchers[..|watchers| - 1], st);
    }
  }

  function Start(keys: Keys, hits: map<nat, nat>, left: nat): (st: Progress) {
    Progress(keys, hits, [], [], left, false)
  }

  lemma {:induction false} PassKeeps(lower: Keywords.Lowering, now: int, posts: seq<Post>, watchers: seq<Watcher>,
                                     st0: Progress, threshold: int, births: Births)
    requires st0 == Start(st0.keys, st0.hits, st0.left)
    requires forall p <- posts :: births(p.id) >= threshold
    ensures var st := Pass(lower, now, posts, watchers, st0);
            && HitsAgree(st0, st) && KeysAgree(st0.keys, st, now) && AllFresh(Made(st), threshold, births)
            && (if st.failed then exists p <- posts :: forall a <- st.pending :: a.post == p.id else st.pending == [])
  {
    if posts == [] {
      assert NewKeys(st0.keys, st0.keys) == {};
    } else {
      var n := |posts| - 1;
      PassKeeps(lower, now, posts[..n], watchers, st0, threshold, births);
      var mid := Pass(lower, now, posts[..n], watchers, st0);
      assert posts[n] in posts;
      LookKeeps(lower, now, posts[n], watchers, st0, mid, threshold, births);
      var st := Look(lower, now, posts[n], watchers, mid);
      if mid.failed {
        LookFailed(lower, now, posts[n], watchers, mid);
        var p :| p in posts[..n] && forall a <- mid.pending :: a.post == p.id;
        assert p in posts;
      } else {
        LookPending(lower, now, posts[n], watchers, mid);
        assert Made(Flush(st)) == Made(st);
      }
    }
  }

  lemma {:induction false} LookFailed(lower: Keywords.Lowering, now: int, p: Post, watchers: seq<Watcher>, st: Progress)
    requires st.failed
    ensures Look(lower, now, p, watchers, st) == st
  {
    if watchers != [] {
      LookFailed(lower, now, p, watchers[..|watchers| - 1], st);
    }
  }

  // In a job without an increment error every existing watcher's hits grow by exactly
  // its send attempts, and there are as many attempts as keys set. When an increment
  // fails, the hits and keys that went without a send are those pending for the post
  // being looked at.
  lemma HitConservation(lower: Keywords.Lowering, now: int, posts: seq<Post>, watchers: seq<Watcher>,
                        keys: Keys, hits: map<nat, nat>, left: nat)
    ensures var st := Pass(lower, now, posts, watchers, Start(keys, hits, left));
            && st.hits.Keys == hits.Keys
            && (forall w <- hits :: st.hits[w] == hits[w] + Count(st.sends, w) + Count(st.pending, w))
            && |NewKeys(keys, st.keys)| == |st.sends| + |st.pending| == left - st.left
            && (if st.failed then st.left == 0 && exists p <- posts :: forall a <- st.pending :: a.post == p.id
                else st.pending == [])
  {
    var st0 := Start(keys, hits, left);
    PassKeeps(lower, now, posts, watchers, st0, 0, _ => 0);
    var st := Pass(lower, now, posts, watchers, st0);
    forall w | w in hits ensures st.hits[w] == hits[w] + Count(st.sends, w) + Count(st.pending, w) {
      CountAppend(st.sends, st.pending, w);
    }
  }

  // A subreddit job is a job of the key protocol with a window of 24 hours, so no
  // device is notified of a post twice, by any watcher, ever.
  lemma SubredditJobEffect(lower: Keywords.Lowering, start: int, now: int, posts: seq<Post>, watchers: seq<Watcher>,
                           keys: Keys, hits: map<nat, nat>, left: nat, births: Births)
    requires forall p <- posts :: births(p.id) == p.created >= start - SUBREDDIT_WINDOW
    ensures var st := Pass(lower, now, posts, watchers, Start(keys, hits, left));
            JobEffect(keys, st.keys, Job(start, now, st.sends), 24 * 60 * 60, births)
  {
    PassKeeps(lower, now, posts, watchers, Start(keys, hits, left), start - SUBREDDIT_WINDOW, births);
    var st := Pass(lower, now, posts, watchers, Start(keys, hits, left));
    assert forall i :: 0 <= i < |st.sends| ==> Made(st)[i] == st.sends[i];
    forall a | a in st.sends ensures a in Made(st) {
    }
    forall k | k in keys
      ensures k in st.keys && (st.keys[k] == keys[k] || (st.keys[k] == now + SUBREDDIT_WINDOW && keys[k] <= now))
    {
      if st.keys[k] != keys[k] {
        assert k in NewKeys(keys, st.keys);
      }
    }
  }

  // ---------- Runs of whole jobs ----------

  // What a job starts from and fetches.
  datatype Input = Input(
    start: int, now: int, pages: seq<Fetch>, hot: Fetch, watchers: seq<Watcher>, hits: map<nat, nat>, left: nat)

  function PostsOf(job: Input): (posts: seq<Post>) {
    var threshold := job.start - SUBREDDIT_WINDOW;
    if ScanFrom(job.pages, threshold, 0).Used? then Collected(job.pages, job.hot, threshold) else []
  }

  ghost function Outcome(lower: Keywords.Lowering, keys: Keys, job: Input): (st: Progress) {
    Pass(lower, job.now, PostsOf(job), job.watchers, Start(keys, job.hits, job.left))
  }

  // The job is not slower than the latency, and its posts are older than that.
  ghost predicate InTime(job: Input, latency: int, births: Births) {
    && 0 <= job.now - job.start <= latency
    && forall p <- PostsOf(job) :: births(p.id) == p.created < job.now - latency
  }

  ghost predicate JobRun(lower: Keywords.Lowering, tables: seq<Keys>, inputs: seq<Input>, latency: int,
                         births: Births) {
    && |tables| == |inputs| + 1
    && tables[0] == map[]
    && forall i :: 0 <= i < |inputs| ==>
         tables[i + 1] == Outcome(lower, tables[i], inputs[i]).keys && InTime(inputs[i], latency, births)
  }

  ghost function Jobs(lower: Keywords.Lowering, tables: seq<Keys>, inputs: seq<Input>): (jobs: seq<Job>)
    requires |tables| == |inputs| + 1
  {
    seq(|inputs|, i requires 0 <= i < |inputs| =>
      Job(inputs[i].start, inputs[i].now, Outcome(lower, tables[i], inputs[i]).sends))
  }

  lemma PostsAreYoung(job: Input)
    ensures forall p <- PostsOf(job) :: p.created >= job.start - SUBREDDIT_WINDOW
  {
    var threshold := job.start - SUBREDDIT_WINDOW;
    if ScanFrom(job.pages, threshold, 0).Used? {
      CollectedAreYoungAndDistinct(job.pages, job.hot, threshold);
    }
  }

  // A pass over old posts sends old posts only.
  lemma SentAreOld(lower: Keywords.Lowering, now: int, posts: seq<Post>, watchers: seq<Watcher>, st0: Progress,
                   limit: int, births: Births)
    requires st0 == Start(st0.keys, st0.hits, st0.left) && forall p <- posts :: births(p.id) < limit
    ensures forall a <- Pass(lower, now, posts, watchers, st0).sends :: births(a.post) < limit
  {
    PassKeeps(lower, now, posts, watchers, st0, 1 - limit, id => -births(id));
    var st := Pass(lower, now, posts, watchers, st0);
    forall a | a in st.sends ensures births(a.post) < limit {
      assert a in Made(st);
    }
  }

  lemma JobIsStep(lower: Keywords.Lowering, keys: Keys, job: Input, latency: int, births: Births)
    requires InTime(job, latency, births)
    ensures var st := Outcome(lower, keys, job);
            && JobEffect(keys, st.keys, Job(job.start, job.now, st.sends), 24 * 60 * 60, births)
            && Punctual(Job(job.start, job.now, st.sends), latency, births)
  {
    var posts := PostsOf(job);
    PostsAreYoung(job);
    SubredditJobEffect(lower, job.start, job.now, posts, job.watchers, keys, job.hits, job.left, births);
    SentAreOld(lower, job.now, posts, job.watchers, Start(keys, job.hits, job.left), job.now - latency, births);
  }

  // Over any run of whole subreddit jobs, of whatever subreddits and watchers, no device
  // is notified of a post twice.
  lemma JobsNotifyOnce(lower: Keywords.Lowering, tables: seq<Keys>, inputs: seq<Input>, latency: int, births: Births)
    requires JobRun(lower, tables, inputs, latency, births)
    ensures AtMostOnce(Log(Jobs(lower, tables, inputs)))
  {
    var jobs := Jobs(lower, tables, inputs);
    forall i | 0 <= i < |jobs|
      ensures JobEffect(tables[i], tables[i + 1], jobs[i], SUBREDDIT_WINDOW, births)
      ensures Punctual(jobs[i], latency, births)
    {
      JobIsStep(lower, tables[i], inputs[i], latency, births);
    }
    NeverNotifiedTwice(tables, jobs, SUBREDDIT_WINDOW, latency, births, |jobs|);
    assert jobs[..|jobs|] == jobs;
  }

  // ---------- Slow jobs ----------

  // A watcher without filters.
  predicate WatchesAll(w: Watcher, p: Post) {
    w.created <= p.created && w.author == "" && w.upvotes == 0 && w.keyword == "" && w.flair == "" && w.domain == ""
  }

  // The first page lists one post.
  predicate Lists(pages: seq<Fetch>, p: Post) {
    pages != [] && pages[0] == Page([p])
  }

  lemma OneNew(pages: seq<Fetch>, p: Post, threshold: int)
    requires Lists(pages, p) && p.created >= threshold
    ensures ScanFrom(pages, threshold, 0) == Used(1) && NewPosts(pages, threshold, 1) == [p]
  {
    var posts := [p];
    assert StaleFrom(posts, threshold, 0) == 1;
    assert Fresh(posts, threshold) == posts;
    assert NewPosts(pages, threshold, 1) == NewPosts(pages, threshold, 0) + posts;
  }

  lemma OneOnce(p: Post)
    ensures Dedup([p]) == [p]
  {
    assert [p][..0] == [];
    assert Dedup([p]) == Dedup([]) + [p];
  }

  lemma OnePost(job: Input, p: Post)
    requires Lists(job.pages, p) && job.hot == Page([]) && p.created >= job.start - SUBREDDIT_WINDOW
    ensures PostsOf(job) == [p]
  {
    var threshold := job.start - SUBREDDIT_WINDOW;
    OneNew(job.pages, p, threshold);
    OneOnce(p);
    assert HotPosts(job.hot, threshold) == [];
    assert [p] + [] == [p];
  }

  lemma OneVisit(lower: Keywords.Lowering, now: int, w: Watcher, p: Post, st: Progress)
    requires !st.failed && st.left > 0 && WatchesAll(w, p) && !Live(st.keys, (w.device, p.id), now)
    requires st.sends == [] && st.pending == []
    ensures var st' := Pass(lower, now, [p], [w], st);
            && st'.sends == [Attempt(w.id, w.device, p.id)]
            && st'.keys == st.keys[(w.device, p.id) := now + SUBREDDIT_WINDOW]
  {
    assert Wants(lower, w, p);
    assert [w][..0] == [] && [p][..0] == [];
    assert Pass(lower, now, [], [w], st) == st == Look(lower, now, p, [], st);
    assert Look(lower, now, p, [w], st) == Visit(lower, now, p, w, st);
  }

  // A job within the latency, however young its posts, makes the one attempt.
  ghost predicate SlowStep(lower: Keywords.Lowering, keys: Keys, job: Input, keys': Keys, a: Attempt, latency: int) {
    && 0 <= job.now - job.start <= latency
    && Outcome(lower, keys, job).keys == keys' && Outcome(lower, keys, job).sends == [a]
  }

  lemma OneOutcome(lower: Keywords.Lowering, keys: Keys, job: Input, w: Watcher, p: Post)
    requires job.watchers == [w] && job.left > 0 && PostsOf(job) == [p] && WatchesAll(w, p)
    requires !Live(keys, (w.device, p.id), job.now)
    ensures var st := Outcome(lower, keys, job);
            && st.sends == [Attempt(w.id, w.device, p.id)]
            && st.keys == keys[(w.device, p.id) := job.now + SUBREDDIT_WINDOW]
  {
    OneVisit(lower, job.now, w, p, Start(keys, job.hits, job.left));
  }

  // A job of one watcher, with nothing hot.
  lemma OneJob(start: int, now: int, w: Watcher, p: Post, pages: seq<Fetch>) returns (job: Input)
    requires Lists(pages, p) && p.created >= start - SUBREDDIT_WINDOW
    ensures job.start == start && job.now == now && job.watchers == [w] && job.left > 0 && PostsOf(job) == [p]
  {
    job := Input(start, now, pages, Page([]), [w], map[], 1);
    OnePost(job, p);
  }

  lemma OneSlowStep(lower: Keywords.Lowering, keys: Keys, start: int, now: int, w: Watcher, p: Post,
                    pages: seq<Fetch>, latency: int) returns (job: Input)
    requires WatchesAll(w, p) && Lists(pages, p)
    requires p.created >= start - SUBREDDIT_WINDOW && 0 <= now - start <= latency
    requires !Live(keys, (w.device, p.id), now)
    ensures job.start == start && job.now == now
    ensures SlowStep(lower, keys, job, keys[(w.device, p.id) := now + SUBREDDIT_WINDOW],
                     Attempt(w.id, w.device, p.id), latency)
  {
    job := OneJob(start, now, w, p, pages);
    OneOutcome(lower, keys, job, w, p);
  }

  // Two jobs that both send the attempt.
  ghost predicate SentTwice(lower: Keywords.Lowering, tables: seq<Keys>, inputs: seq<Input>, a: Attempt, latency: int) {
    && |tables| == 3 && |inputs| == 2 && tables[0] == map[] && inputs[0].now <= inputs[1].start
    && SlowStep(lower, tables[0], inputs[0], tables[1], a, latency)
    && SlowStep(lower, tables[1], inputs[1], tables[2], a, latency)
  }

  lemma SentTwiceLog(lower: Keywords.Lowering, tables: seq<Keys>, inputs: seq<Input>, a: Attempt, latency: int)
    requires SentTwice(lower, tables, inputs, a, latency)
    ensures Log(Jobs(lower, tables, inputs)) == [a, a]
  {
    var jobs := Jobs(lower, tables, inputs);
    assert jobs[0].sends == [a] && jobs[1].sends == [a];
    LogOfTwo(jobs);
  }

  // Any post that is first sent no longer after its creation than a job may take
  // from its first clock reading to its keys can be sent again: the second job starts
  // while the post is still under a day old, and reads the key when it has expired.
  lemma SlowJobNotifiesTwice(lower: Keywords.Lowering, w: Watcher, p: Post, pages: seq<Fetch>, sent: int, latency: int)
    returns (tables: seq<Keys>, inputs: seq<Input>)
    requires WatchesAll(w, p) && Lists(pages, p)
    requires 0 <= latency <= SUBREDDIT_WINDOW && sent - latency <= p.created <= sent
    ensures SentTwice(lower, tables, inputs, Attempt(w.id, w.device, p.id), latency) && inputs[0].now == sent
    ensures var a := Attempt(w.id, w.device, p.id); Log(Jobs(lower, tables, inputs)) == [a, a]
  {
    var k, later := (w.device, p.id), sent + SUBREDDIT_WINDOW;
    var t1: Keys := map[k := later];
    assert map[][k := later] == t1;
    var first := OneSlowStep(lower, map[], sent, sent, w, p, pages, latency);
    var second := OneSlowStep(lower, t1, later - latency, later, w, p, pages, latency);
    inputs, tables := [first, second], [map[], t1, t1[k := later + SUBREDDIT_WINDOW]];
    SentTwiceLog(lower, tables, inputs, Attempt(w.id, w.device, p.id), latency);
  }

  // Each request is made for one picked watcher; the last pick is for the hot posts.
  ghost predicate Picked(picks: seq<nat>, watchers: seq<Watcher>) {
    |picks| == MAX_PAGES + 1 && forall i :: 0 <= i < |picks| ==> picks[i] < |watchers|
  }

  // The watcher rows that the listings' errors delete.
  function Removed(pages: seq<Fetch>, hot: Fetch, threshold: int, watchers: seq<Watcher>, picks: seq<nat>):
    (ids: set<nat>)
    requires |pages| == MAX_PAGES && Picked(picks, watchers)
  {
    var scan := ScanFrom(pages, threshold, 0);
    if scan.Used? then if hot.Revoked? then {watchers[picks[MAX_PAGES]].id} else {}
    else if pages[scan.page].Revoked? then {watchers[picks[scan.page]].id}
    else if pages[scan.page].NotFound? then set w <- watchers :: w.id
    else {}
  }

  // ---------- The consumer ----------

  class SubredditsConsumer {
    const lower: Keywords.Lowering
    var keys: Keys
    var hits: map<nat, nat>           // the watcher rows
    var sends: seq<Attempt>           // every push attempt, in order

    constructor (lower: Keywords.Lowering, keys: Keys, hits: map<nat, nat>)
      ensures this.lower == lower && this.keys == keys && this.hits == hits && sends == []
    {
      this.lower, this.keys, this.hits, sends := lower, keys, hits, [];
    }

    method Matched(w: Watcher, p: Post) returns (matched: bool)
      requires w.created <= p.created
      ensures matched <==> Wants(lower, w, p)
    {
      matched := Keywords.KeywordMatches(lower, w.keyword, Keywords.Lower(lower, p.title));
      if w.author != "" && Keywords.Lower(lower, p.author) != w.author {
        matched := false;
      }
      if w.upvotes > 0 && p.score < w.upvotes {
        matched := false;
      }
      var flair := Keywords.Contains(Keywords.Lower(lower, p.flair), w.flair);
      if w.flair != "" && !flair {
        matched := false;
      }
      var domain := Keywords.Contains(Keywords.Lower(lower, p.url), w.domain);
      if w.domain != "" && !domain {
        matched := false;
      }
    }

    ghost predicate Mirrors(st: Progress, pending: seq<Attempt>, left: nat)
      reads this
    {
      st == Progress(keys, hits, sends, pending, left, false)
    }

    // What a pass leaves behind; its pending attempts are lost.
    ghost predicate Left(st: Progress)
      reads this
    {
      keys == st.keys && hits == st.hits && sends == st.sends
    }

    // The inner loop over the watchers of one post.
    method LookAt(p: Post, watchers: seq<Watcher>, now: int, left: nat)
      returns (pending: seq<Attempt>, left': nat, failed: bool)
      modifies this
      ensures var st := Look(lower, now, p, watchers, Progress(old(keys), old(hits), old(sends), [], left, false));
              st == Progress(keys, hits, sends, pending, left', failed)
    {
      pending, left', failed := [], left, false;
      ghost var st0 := Progress(keys, hits, sends, [], left, false);
      var i := 0;
      while i < |watchers|
        invariant 0 <= i <= |watchers| && !failed
        invariant Mirrors(Look(lower, now, p, watchers[..i], st0), pending, left')
      {
        var w := watchers[i];
        assert watchers[..i + 1][..i] == watchers[..i];
        i := i + 1;
        if w.created > p.created {
          continue;
        }
        var matched := Matched(w, p);
        if !matched {
          continue;
        }
        var k := (w.device, p.id);
        if Live(keys, k, now) {
          continue;
        }
        if left' == 0 {
          failed := true;
          LookSkips(lower, now, p, watchers, i, st0);
          return;
        }
        left' := left' - 1;
        hits := Bump(hits, w.id);
        keys := keys[k := now + SUBREDDIT_WINDOW];
        pending := pending + [Attempt(w.id, w.device, p.id)];
      }
      assert watchers[..i] == watchers;
    }

    // The outer loop: look, then send what is pending; an increment error ends the job.
    method NotifyPosts(posts: seq<Post>, watchers: seq<Watcher>, now: int, left: nat)
      modifies this
      ensures Left(Pass(lower, now, posts, watchers, Progress(old(keys), old(hits), old(sends), [], left, false)))
    {
      ghost var st0 := Progress(keys, hits, sends, [], left, false);
      var left' := left;
      var i := 0;
      while i < |posts|
        invariant 0 <= i <= |posts|
        invariant Mirrors(Pass(lower, now, posts[..i], watchers, st0), [], left')
      {
        var pending, more, failed := LookAt(posts[i], watchers, now, left');
        assert posts[..i + 1][..i] == posts[..i];
        i := i + 1;
        if failed {
          PassSkips(lower, now, posts, watchers, i, st0);
          return;
        }
        left' := more;
        sends := sends + pending;
      }
      assert posts[..i] == posts;
    }

    // The whole job. A revoked authorisation met on the hot posts deletes the row of the
    // watcher it was used for, yet that watcher is still looked at.
    method Consume(watchers: seq<Watcher>, pages: seq<Fetch>, hot: Fetch, picks: seq<nat>,
                   start: int, now: int, left: nat)
      requires |pages| == MAX_PAGES && (watchers != [] ==> Picked(picks, watchers))
      modifies this
      ensures watchers == [] ==> keys == old(keys) && hits == old(hits) && sends == old(sends)
      ensures watchers != [] ==>
                var threshold := start - SUBREDDIT_WINDOW;
                var rows := old(hits) - Removed(pages, hot, threshold, watchers, picks);
                if ScanFrom(pages, threshold, 0).Aborted? then
                  keys == old(keys) && hits == rows && sends == old(sends)
                else
                  Left(Pass(lower, now, Collected(pages, hot, threshold), watchers,
                            Progress(old(keys), rows, old(sends), [], left, false)))
    {
      if |watchers| == 0 {
        return;
      }
      var collector := new Collector();
      var scan := collector.Collect(pages, hot, start - SUBREDDIT_WINDOW);
      if scan.Aborted? {
        assert hits - {} == hits;
        if pages[scan.page].Revoked? {
          hits := hits - {watchers[picks[scan.page]].id};
        } else if pages[scan.page].NotFound? {
          DeleteAll(watchers);
        }
        return;
      }
      assert hits - {} == hits;
      if hot.Revoked? {
        hits := hits - {watchers[picks[MAX_PAGES]].id};
      }
      NotifyPosts(collector.posts, watchers, now, left);
    }

    method DeleteAll(watchers: seq<Watcher>)
      modifies this`hits
      ensures hits == old(hits) - set w <- watchers :: w.id
    {
      var i := 0;
      while i < |watchers|
        invariant 0 <= i <= |watchers|
        invariant hits == old(hits) - set w <- watchers[..i] :: w.id
      {
        hits := hits - {watchers[i].id};
        assert (set w <- watchers[..i + 1] :: w.id) == (set w <- watchers[..i] :: w.id) + {watchers[i].id};
        i := i + 1;
      }
      assert watchers[..i] == watchers;
    }
  }

  // After a failure the remaining watchers and posts change nothing.
  lemma {:induction false} LookSkips(lower: Keywords.Lowering, now: int, p: Post, watchers: seq<Watcher>,
                                     i: nat, st: Progress)
    requires i <= |watchers| && Look(lower, now, p, watchers[..i], st).failed
    ensures Look(lower, now, p, watchers, st) == Look(lower, now, p, watchers[..i], st)
    decreases |watchers|
  {
    if i == |watchers| {
      assert watchers[..i] == watchers;
    } else {
      var n := |watchers| - 1;
      assert watchers[..n][..i] == watchers[..i];
      LookSkips(lower, now, p, watchers[..n], i, st);
    }
  }

  lemma {:induction false} PassSkips(lower: Keywords.Lowering, now: int, posts: seq<Post>, watchers: seq<Watcher>,
                                     i: nat, st: Progress)
    requires i <= |posts| && Pass(lower, now, posts[..i], watchers, st).failed
    ensures Pass(lower, now, posts, watchers, st) == Pass(lower, now, posts[..i], watchers, st)
    decreases |posts|
  {
    if i == |posts| {
      assert posts[..i] == posts;
    } else {
      var n := |posts| - 1;
      assert posts[..n][..i] == posts[..i];
      PassSkips(lower, now, posts[..n], watchers, i, st);
      LookFailed(lower, now, posts[n], watchers, Pass(lower, now, posts[..n], watchers, st));
    }
  }
}
