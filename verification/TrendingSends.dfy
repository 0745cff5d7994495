// Whom a trending job tells of what: every watcher that was there before a qualifying hot
// post, one for each device and post, in the order of posts and then of watchers.

module TrendingSends {
  import opened Wrappers
  import opened NotifiedKeys
  import opened Collection
  import opened Median
  import opened Trending
  import opened Offers

  // A post is offered to the watchers that were there before it.
  function Eager(posts: seq<Post>, watchers: seq<Watcher>): (offers: Grid)
    ensures |offers| == |posts|
    ensures forall i :: 0 <= i < |posts| ==> |offers[i]| == |watchers|
    ensures forall i, j :: 0 <= i < |posts| && 0 <= j < |watchers| ==>
              offers[i][j] == if watchers[j].created <= posts[i].created
                              then Some(Attempt(watchers[j].id, watchers[j].device, posts[i].id)) else None
  {
    seq(|posts|, i requires 0 <= i < |posts| =>
      seq(|watchers|, j requires 0 <= j < |watchers| =>
        if watchers[j].created <= posts[i].created
        then Some(Attempt(watchers[j].id, watchers[j].device, posts[i].id)) else None))
  }

  ghost predicate Next(offers: Grid, here: Cell, p: Post, w: Watcher) {
    && here.0 < |offers| && here.1 < |offers[here.0]|
    && offers[here.0][here.1] == if w.created <= p.created then Some(Attempt(w.id, w.device, p.id)) else None
  }

  // Where a job stands: still going, or ended by the failed increment of a chosen offer.
  ghost predicate Stands(offers: Grid, keys0: Keys, now: int, st: Progress, at: seq<Cell>, end: Cell) {
    if st.failed then Exactly(offers, keys0, now, st.sends, at, end) && Chosen(offers, keys0, now, end) && st.left == 0
    else Tracks(offers, keys0, now, st.keys, st.sends, at, end)
  }

  lemma VisitTracks(now: int, offers: Grid, here: Cell, p: Post, w: Watcher, keys0: Keys, st: Progress, at: seq<Cell>)
    returns (at': seq<Cell>, end: Cell)
    requires !st.failed && Next(offers, here, p, w) && Tracks(offers, keys0, now, st.keys, st.sends, at, here)
    ensures var st' := Visit(now, p, w, st);
            && Stands(offers, keys0, now, st', at', end)
            && end == if st'.failed then here else (here.0, here.1 + 1)
  {
    at', end := at, (here.0, here.1 + 1);
    if w.created > p.created {
      TracksGap(offers, keys0, now, st.keys, st.sends, at, here, end);
    } else {
      at', end := OfferTracks(now, offers, here, p, w, keys0, st, at);
    }
  }

  lemma OfferTracks(now: int, offers: Grid, here: Cell, p: Post, w: Watcher, keys0: Keys, st: Progress, at: seq<Cell>)
    returns (at': seq<Cell>, end: Cell)
    requires !st.failed && Next(offers, here, p, w) && Tracks(offers, keys0, now, st.keys, st.sends, at, here)
    requires w.created <= p.created
    ensures var st' := Visit(now, p, w, st);
            && Stands(offers, keys0, now, st', at', end)
            && end == if st'.failed then here else (here.0, here.1 + 1)
  {
    at', end := at, (here.0, here.1 + 1);
    var a := Attempt(w.id, w.device, p.id);
    assert Offered(offers, here) && OfferAt(offers, here) == a;
    if Live(st.keys, KeyOf(a), now) {
      TracksStanding(offers, keys0, now, st.keys, st.sends, at, here);
    } else if st.left == 0 {
      FirstForKey(offers, keys0, now, st.keys, st.sends, at, here);
      end := here;
    } else {
      TracksMade(offers, keys0, now, st.keys, st.sends, at, here, TRENDING_WINDOW);
      at' := at + [here];
      SuccessfulVisit(now, p, w, st);
    }
  }

  lemma SuccessfulVisit(now: int, p: Post, w: Watcher, st: Progress)
    requires !st.failed && w.created <= p.created && !Live(st.keys, (w.device, p.id), now) && st.left > 0
    ensures var st', a := Visit(now, p, w, st), Attempt(w.id, w.device, p.id);
            !st'.failed && st'.keys == st.keys[KeyOf(a) := now + TRENDING_WINDOW] && st'.sends == st.sends + [a]
  {
  }

  lemma {:induction false} LookTracks(now: int, posts: seq<Post>, watchers: seq<Watcher>, i: nat, j: nat,
                                      keys0: Keys, st: Progress, at: seq<Cell>)
    returns (at': seq<Cell>, end: Cell)
    requires i < |posts| && j <= |watchers| && !st.failed
    requires Tracks(Eager(posts, watchers), keys0, now, st.keys, st.sends, at, (i, 0))
    ensures var st' := Look(now, posts[i], watchers[..j], st);
            && Stands(Eager(posts, watchers), keys0, now, st', at', end)
            && (if st'.failed then end.0 == i else end == (i, j))
    decreases j
  {
    at', end := at, (i, 0);
    if j > 0 {
      at', end := LookTracks(now, posts, watchers, i, j - 1, keys0, st, at);
      assert watchers[..j][..j - 1] == watchers[..j - 1];
      var mid := Look(now, posts[i], watchers[..j - 1], st);
      if !mid.failed {
        var offers := Eager(posts, watchers);
        at', end := VisitTracks(now, offers, (i, j - 1), posts[i], watchers[j - 1], keys0, mid, at');
      }
    }
  }

  lemma NextRow(posts: seq<Post>, watchers: seq<Watcher>, i: nat)
    ensures Gap(Eager(posts, watchers), (i, |watchers|), (i + 1, 0))
  {
  }

  lemma {:induction false} PassTracks(now: int, posts: seq<Post>, watchers: seq<Watcher>, n: nat, st0: Progress)
    returns (at: seq<Cell>, end: Cell)
    requires n <= |posts| && st0 == Start(st0.keys, st0.hits, st0.left)
    ensures var st := Pass(now, posts[..n], watchers, st0);
            && Stands(Eager(posts, watchers), st0.keys, now, st, at, end)
            && (if st.failed then end.0 < n else end == (n, 0))
    decreases n
  {
    var offers := Eager(posts, watchers);
    if n == 0 {
      at, end := [], (0, 0);
      TracksNothing(offers, st0.keys, now);
    } else {
      at, end := PassTracks(now, posts, watchers, n - 1, st0);
      assert posts[..n][..n - 1] == posts[..n - 1];
      var mid := Pass(now, posts[..n - 1], watchers, st0);
      if mid.failed {
        LookFailed(now, posts[n - 1], watchers, mid);
      } else {
        at, end := RowTracks(now, posts, watchers, n - 1, st0.keys, mid, at);
      }
    }
  }

  lemma RowTracks(now: int, posts: seq<Post>, watchers: seq<Watcher>, i: nat, keys0: Keys, mid: Progress, at: seq<Cell>)
    returns (at': seq<Cell>, end: Cell)
    requires i < |posts| && !mid.failed
    requires Tracks(Eager(posts, watchers), keys0, now, mid.keys, mid.sends, at, (i, 0))
    ensures var st := Look(now, posts[i], watchers, mid);
            && Stands(Eager(posts, watchers), keys0, now, st, at', end)
            && (if st.failed then end.0 < i + 1 else end == (i + 1, 0))
  {
    assert watchers[..|watchers|] == watchers;
    at', end := LookTracks(now, posts, watchers, i, |watchers|, keys0, mid, at);
    var st := Look(now, posts[i], watchers, mid);
    if !st.failed {
      NextRow(posts, watchers, i);
      TracksGap(Eager(posts, watchers), keys0, now, st.keys, st.sends, at', end, (i + 1, 0));
      end := (i + 1, 0);
    }
  }

  // ---------- Exactly who is told ----------

  // A job sends the first offer for every key that did not stand when it began, in the
  // order of posts and then of watchers; one that fails does so at the first offer after
  // its last successful increment.
  lemma PassIsExact(now: int, posts: seq<Post>, watchers: seq<Watcher>, keys: Keys, hits: map<nat, nat>, left: nat)
    returns (at: seq<Cell>, end: Cell)
    ensures var st := Pass(now, posts, watchers, Start(keys, hits, left));
            && Exactly(Eager(posts, watchers), keys, now, st.sends, at, end)
            && (if st.failed then Chosen(Eager(posts, watchers), keys, now, end) && |at| == left
                else end == (|posts|, 0))
  {
    at, end := PassTracks(now, posts, watchers, |posts|, Start(keys, hits, left));
    assert posts[..|posts|] == posts;
    HitConservation(now, posts, watchers, keys, hits, left);
  }

  lemma NobodyLeftOut(now: int, posts: seq<Post>, watchers: seq<Watcher>, keys: Keys, hits: map<nat, nat>, left: nat,
                      p: Post, w: Watcher)
    requires p in posts && w in watchers && w.created <= p.created
    requires !Pass(now, posts, watchers, Start(keys, hits, left)).failed
    ensures || Live(keys, (w.device, p.id), now)
            || exists a <- Pass(now, posts, watchers, Start(keys, hits, left)).sends ::
                 a.device == w.device && a.post == p.id
  {
    var st := Pass(now, posts, watchers, Start(keys, hits, left));
    var at, end := PassIsExact(now, posts, watchers, keys, hits, left);
    var i :| 0 <= i < |posts| && posts[i] == p;
    var j :| 0 <= j < |watchers| && watchers[j] == w;
    EveryOfferMade(Eager(posts, watchers), keys, now, st.sends, at, end, (i, j));
    if !Live(keys, (w.device, p.id), now) {
      var a :| a in st.sends && KeyOf(a) == (w.device, p.id);
      assert a.device == w.device && a.post == p.id;
    }
  }

  lemma OnlyOlderWatchers(now: int, posts: seq<Post>, watchers: seq<Watcher>, keys: Keys, hits: map<nat, nat>,
                          left: nat, a: Attempt) returns (p: Post, w: Watcher)
    requires a in Pass(now, posts, watchers, Start(keys, hits, left)).sends
    ensures p in posts && w in watchers && w.created <= p.created && a == Attempt(w.id, w.device, p.id)
    ensures !Live(keys, (w.device, p.id), now)
  {
    var st := Pass(now, posts, watchers, Start(keys, hits, left));
    var at, end := PassIsExact(now, posts, watchers, keys, hits, left);
    var k :| 0 <= k < |st.sends| && st.sends[k] == a;
    assert Chosen(Eager(posts, watchers), keys, now, at[k]);
    p, w := posts[at[k].0], watchers[at[k].1];
  }

  // What was sent before the job stays, and makes no difference to it.
  lemma {:induction false} LookAppends(now: int, p: Post, watchers: seq<Watcher>, st: Progress, log: seq<Attempt>)
    ensures var after := Look(now, p, watchers, st);
            Look(now, p, watchers, st.(sends := log + st.sends)) == after.(sends := log + after.sends)
  {
    if watchers != [] {
      var n := |watchers| - 1;
      LookAppends(now, p, watchers[..n], st, log);
      var mid := Look(now, p, watchers[..n], st);
      var a := Attempt(watchers[n].id, watchers[n].device, p.id);
      assert log + (mid.sends + [a]) == log + mid.sends + [a];
    }
  }

  lemma {:induction false} PassAppends(now: int, posts: seq<Post>, watchers: seq<Watcher>, st: Progress,
                                       log: seq<Attempt>)
    ensures var after := Pass(now, posts, watchers, st);
            Pass(now, posts, watchers, st.(sends := log + st.sends)) == after.(sends := log + after.sends)
  {
    if posts != [] {
      var n := |posts| - 1;
      PassAppends(now, posts[..n], watchers, st, log);
      LookAppends(now, posts[n], watchers, Pass(now, posts[..n], watchers, st), log);
    }
  }

  // ---------- Said of the listings ----------

  // The job has enough top posts for a median, and a hot listing.
  predicate Judges(job: Input) {
    job.top.Page? && |job.top.posts| >= 20 && job.hot.Page?
  }

  // The hot post at position i reaches the median, and no post up to it that does is more
  // than two days old.
  ghost predicate Trends(job: Input, i: nat) {
    && Judges(job) && i < |job.hot.posts|
    && job.hot.posts[i].score >= Threshold(job.top.posts)
    && forall j :: 0 <= j <= i && job.hot.posts[j].score >= Threshold(job.top.posts) ==>
         job.hot.posts[j].created >= job.start - 48 * 60 * 60
  }

  lemma TrendingIsEligible(job: Input, i: nat)
    requires Trends(job, i)
    ensures job.hot.posts[i] in PostsOf(job)
  {
    EligibleAt(job.hot.posts, Threshold(job.top.posts), job.start - TRENDING_WINDOW, i);
  }

  lemma EligibleAt(hot: seq<Post>, score: int, threshold: int, i: nat)
    requires i < |hot| && hot[i].score >= score
    requires forall j :: 0 <= j <= i && hot[j].score >= score ==> hot[j].created >= threshold
    ensures hot[i] in Eligible(hot, score, threshold)
  {
    EligibleExactly(hot, score, threshold);
  }

  // A watcher that was there before a trending post is not left out.
  lemma TrendingPostIsTold(keys: Keys, job: Input, i: nat, w: Watcher)
    requires Trends(job, i) && w in job.watchers && w.created <= job.hot.posts[i].created
    requires !Outcome(keys, job).failed
    ensures var p := job.hot.posts[i];
            || Live(keys, (w.device, p.id), job.now)
            || exists a <- Outcome(keys, job).sends :: a.device == w.device && a.post == p.id
  {
    TrendingIsEligible(job, i);
    NobodyLeftOut(job.now, PostsOf(job), job.watchers, keys, job.hits, job.left, job.hot.posts[i], w);
  }

  // And every send is about such a post, to such a watcher.
  lemma SendIsTrending(keys: Keys, job: Input, a: Attempt) returns (i: nat, w: Watcher)
    requires a in Outcome(keys, job).sends
    ensures Trends(job, i) && w in job.watchers && w.created <= job.hot.posts[i].created
    ensures a == Attempt(w.id, w.device, job.hot.posts[i].id) && !Live(keys, (a.device, a.post), job.now)
  {
    var p;
    p, w := OnlyOlderWatchers(job.now, PostsOf(job), job.watchers, keys, job.hits, job.left, a);
    assert Judges(job);
    i := EligiblePosition(job.hot.posts, Threshold(job.top.posts), job.start - TRENDING_WINDOW, p);
  }

  lemma EligiblePosition(hot: seq<Post>, score: int, threshold: int, p: Post) returns (i: nat)
    requires p in Eligible(hot, score, threshold)
    ensures i < |hot| && hot[i] == p && p.score >= score
    ensures forall j :: 0 <= j <= i && hot[j].score >= score ==> hot[j].created >= threshold
  {
    var n := OldFrom(hot, score, threshold, 0);
    FilterMembers(hot[..n], AtLeast(score));
    i :| 0 <= i < n && hot[..n][i] == p;
  }
}
