// Whom a subreddit job tells of what: exactly the watchers that want a collected post,
// one for each device and post, in the order of posts and then of watchers.

module SubredditSends {
  import opened Wrappers
  import opened NotifiedKeys
  import opened Collection
  import opened Subreddits
  import opened Listings
  import opened Offers
  import Keywords

  // Who wants what.
  ghost function Wanted(lower: Keywords.Lowering, posts: seq<Post>, watchers: seq<Watcher>): (offers: Grid)
    ensures |offers| == |posts|
    ensures forall i :: 0 <= i < |posts| ==> |offers[i]| == |watchers|
    ensures forall i, j :: 0 <= i < |posts| && 0 <= j < |watchers| ==>
              offers[i][j] == if Wants(lower, watchers[j], posts[i])
                              then Some(Attempt(watchers[j].id, watchers[j].device, posts[i].id)) else None
  {
    seq(|posts|, i requires 0 <= i < |posts| =>
      seq(|watchers|, j requires 0 <= j < |watchers| =>
        if Wants(lower, watchers[j], posts[i])
        then Some(Attempt(watchers[j].id, watchers[j].device, posts[i].id)) else None))
  }

  // From position `from` on the attempts are about post i.
  ghost predicate InRow(at: seq<Cell>, from: nat, i: nat) {
    forall k :: from <= k < |at| ==> at[k].0 == i
  }

  // The next position of a row offers what the watcher wants of the post.
  ghost predicate Next(lower: Keywords.Lowering, offers: Grid, here: Cell, p: Post, w: Watcher) {
    && here.0 < |offers| && here.1 < |offers[here.0]|
    && offers[here.0][here.1] == if Wants(lower, w, p) then Some(Attempt(w.id, w.device, p.id)) else None
  }

  lemma VisitTracks(lower: Keywords.Lowering, now: int, offers: Grid, here: Cell, p: Post, w: Watcher,
                    keys0: Keys, st: Progress, at: seq<Cell>) returns (at': seq<Cell>)
    requires !st.failed && Next(lower, offers, here, p, w)
    requires Tracks(offers, keys0, now, st.keys, Made(st), at, here)
    ensures at <= at' && InRow(at', |at|, here.0)
    ensures var st' := Visit(lower, now, p, w, st);
            if st'.failed then
              at' == at && st' == st.(failed := true) && st.left == 0 && Chosen(offers, keys0, now, here)
            else Tracks(offers, keys0, now, st'.keys, Made(st'), at', (here.0, here.1 + 1))
  {
    at' := at;
    if !Wants(lower, w, p) {
      TracksGap(offers, keys0, now, st.keys, Made(st), at, here, (here.0, here.1 + 1));
    } else if Live(st.keys, (w.device, p.id), now) {
      TracksStanding(offers, keys0, now, st.keys, Made(st), at, here);
    } else if st.left == 0 {
      FirstForKey(offers, keys0, now, st.keys, Made(st), at, here);
    } else {
      TracksMade(offers, keys0, now, st.keys, Made(st), at, here, SUBREDDIT_WINDOW);
      at' := at + [here];
      assert Made(Visit(lower, now, p, w, st)) == Made(st) + [Attempt(w.id, w.device, p.id)];
    }
  }

  // Where a job stands: still going, or ended by the failed increment of a chosen offer.
  ghost predicate Stands(offers: Grid, keys0: Keys, now: int, st: Progress, at: seq<Cell>, end: Cell) {
    if st.failed then Exactly(offers, keys0, now, Made(st), at, end) && Chosen(offers, keys0, now, end) && st.left == 0
    else Tracks(offers, keys0, now, st.keys, Made(st), at, end)
  }

  lemma {:induction false} LookTracks(lower: Keywords.Lowering, now: int, posts: seq<Post>, watchers: seq<Watcher>,
                                      i: nat, j: nat, keys0: Keys, st: Progress, at: seq<Cell>)
    returns (at': seq<Cell>, end: Cell)
    requires i < |posts| && j <= |watchers| && !st.failed
    requires Tracks(Wanted(lower, posts, watchers), keys0, now, st.keys, Made(st), at, (i, 0))
    ensures at <= at' && InRow(at', |at|, i)
    ensures var st' := Look(lower, now, posts[i], watchers[..j], st);
            && Stands(Wanted(lower, posts, watchers), keys0, now, st', at', end)
            && (if st'.failed then end.0 == i else end == (i, j))
    decreases j
  {
    at', end := at, (i, 0);
    if j > 0 {
      at', end := LookTracks(lower, now, posts, watchers, i, j - 1, keys0, st, at);
      assert watchers[..j][..j - 1] == watchers[..j - 1];
      var mid := Look(lower, now, posts[i], watchers[..j - 1], st);
      if !mid.failed {
        var offers := Wanted(lower, posts, watchers);
        at' := VisitTracks(lower, now, offers, (i, j - 1), posts[i], watchers[j - 1], keys0, mid, at');
        end := if Visit(lower, now, posts[i], watchers[j - 1], mid).failed then (i, j - 1) else (i, j);
      }
    }
  }

  // What was sent is about the posts before the one that a failed job ended at.
  ghost predicate SentBefore(st: Progress, at: seq<Cell>, end: Cell) {
    if st.failed then forall k :: 0 <= k < |at| ==> (k < |st.sends| <==> at[k].0 < end.0)
    else st.pending == []
  }

  lemma NextRow(lower: Keywords.Lowering, posts: seq<Post>, watchers: seq<Watcher>, i: nat)
    ensures Gap(Wanted(lower, posts, watchers), (i, |watchers|), (i + 1, 0))
  {
  }

  lemma {:induction false} PassTracks(lower: Keywords.Lowering, now: int, posts: seq<Post>, watchers: seq<Watcher>,
                                      n: nat, st0: Progress) returns (at: seq<Cell>, end: Cell)
    requires n <= |posts| && st0 == Start(st0.keys, st0.hits, st0.left)
    ensures var st := Pass(lower, now, posts[..n], watchers, st0);
            && Stands(Wanted(lower, posts, watchers), st0.keys, now, st, at, end)
            && SentBefore(st, at, end)
            && (if st.failed then end.0 < n else end == (n, 0))
    decreases n
  {
    var offers := Wanted(lower, posts, watchers);
    if n == 0 {
      at, end := [], (0, 0);
      TracksNothing(offers, st0.keys, now);
    } else {
      at, end := PassTracks(lower, now, posts, watchers, n - 1, st0);
      assert posts[..n][..n - 1] == posts[..n - 1];
      var mid := Pass(lower, now, posts[..n - 1], watchers, st0);
      var st := Look(lower, now, posts[n - 1], watchers, mid);
      if mid.failed {
        LookFailed(lower, now, posts[n - 1], watchers, mid);
      } else {
        at, end := RowTracks(lower, now, posts, watchers, n - 1, st0.keys, mid, at);
      }
    }
  }

  lemma RowTracks(lower: Keywords.Lowering, now: int, posts: seq<Post>, watchers: seq<Watcher>, i: nat,
                  keys0: Keys, mid: Progress, at: seq<Cell>) returns (at': seq<Cell>, end: Cell)
    requires i < |posts| && !mid.failed && mid.pending == []
    requires Tracks(Wanted(lower, posts, watchers), keys0, now, mid.keys, Made(mid), at, (i, 0))
    ensures var st := Flush(Look(lower, now, posts[i], watchers, mid));
            && Stands(Wanted(lower, posts, watchers), keys0, now, st, at', end)
            && SentBefore(st, at', end)
            && (if st.failed then end.0 < i + 1 else end == (i + 1, 0))
  {
    var offers, st := Wanted(lower, posts, watchers), Look(lower, now, posts[i], watchers, mid);
    assert watchers[..|watchers|] == watchers && Made(mid) == mid.sends;
    at', end := LookTracks(lower, now, posts, watchers, i, |watchers|, keys0, mid, at);
    LookPending(lower, now, posts[i], watchers, mid);
    if !st.failed {
      NextRow(lower, posts, watchers, i);
      TracksGap(offers, keys0, now, st.keys, Made(st), at', end, (i + 1, 0));
      end := (i + 1, 0);
      assert Made(Flush(st)) == Made(st);
    }
  }

  // ---------- Exactly who is told ----------

  // A job sends the first offer for every key that did not stand when it began, in the
  // order of posts and then of watchers. One that fails does so at the first offer after
  // its last successful increment, with the sends of the posts before made.
  lemma PassIsExact(lower: Keywords.Lowering, now: int, posts: seq<Post>, watchers: seq<Watcher>,
                    keys: Keys, hits: map<nat, nat>, left: nat) returns (at: seq<Cell>, end: Cell)
    ensures var st := Pass(lower, now, posts, watchers, Start(keys, hits, left));
            && Exactly(Wanted(lower, posts, watchers), keys, now, st.sends + st.pending, at, end)
            && (if st.failed then
                  && Chosen(Wanted(lower, posts, watchers), keys, now, end) && |at| == left
                  && forall k :: 0 <= k < |at| ==> (k < |st.sends| <==> at[k].0 < end.0)
                else end == (|posts|, 0) && st.pending == [])
  {
    at, end := PassTracks(lower, now, posts, watchers, |posts|, Start(keys, hits, left));
    assert posts[..|posts|] == posts;
    HitConservation(lower, now, posts, watchers, keys, hits, left);
  }

  // A job that does not fail leaves out no watcher that wants a post, unless its device
  // was told before or is told for another watcher.
  lemma NobodyLeftOut(lower: Keywords.Lowering, now: int, posts: seq<Post>, watchers: seq<Watcher>,
                      keys: Keys, hits: map<nat, nat>, left: nat, p: Post, w: Watcher)
    requires p in posts && w in watchers && Wants(lower, w, p)
    requires !Pass(lower, now, posts, watchers, Start(keys, hits, left)).failed
    ensures || Live(keys, (w.device, p.id), now)
            || exists a <- Pass(lower, now, posts, watchers, Start(keys, hits, left)).sends ::
                 a.device == w.device && a.post == p.id
  {
    var st := Pass(lower, now, posts, watchers, Start(keys, hits, left));
    var at, end := PassIsExact(lower, now, posts, watchers, keys, hits, left);
    var i :| 0 <= i < |posts| && posts[i] == p;
    var j :| 0 <= j < |watchers| && watchers[j] == w;
    assert st.sends + st.pending == st.sends;
    EveryOfferMade(Wanted(lower, posts, watchers), keys, now, st.sends, at, end, (i, j));
    if !Live(keys, (w.device, p.id), now) {
      var a :| a in st.sends && KeyOf(a) == (w.device, p.id);
      assert a.device == w.device && a.post == p.id;
    }
  }

  // And nobody else is told: every attempt is of a watcher that wants the post, for a
  // device that was not told of it when the job began.
  lemma OnlyWhoWants(lower: Keywords.Lowering, now: int, posts: seq<Post>, watchers: seq<Watcher>,
                     keys: Keys, hits: map<nat, nat>, left: nat, a: Attempt) returns (p: Post, w: Watcher)
    requires a in Pass(lower, now, posts, watchers, Start(keys, hits, left)).sends
    ensures p in posts && w in watchers && Wants(lower, w, p) && a == Attempt(w.id, w.device, p.id)
    ensures !Live(keys, (w.device, p.id), now)
  {
    var st := Pass(lower, now, posts, watchers, Start(keys, hits, left));
    var at, end := PassIsExact(lower, now, posts, watchers, keys, hits, left);
    var k :| 0 <= k < |st.sends| && st.sends[k] == a;
    assert (st.sends + st.pending)[k] == a;
    assert Chosen(Wanted(lower, posts, watchers), keys, now, at[k]);
    p, w := posts[at[k].0], watchers[at[k].1];
  }

  // What was sent before the job stays, and makes no difference to it.
  lemma {:induction false} LookAppends(lower: Keywords.Lowering, now: int, p: Post, watchers: seq<Watcher>,
                                       st: Progress, log: seq<Attempt>)
    ensures Look(lower, now, p, watchers, st.(sends := log))
         == Look(lower, now, p, watchers, st).(sends := log)
    ensures Look(lower, now, p, watchers, st).sends == st.sends
  {
    if watchers != [] {
      LookAppends(lower, now, p, watchers[..|watchers| - 1], st, log);
    }
  }

  lemma {:induction false} PassAppends(lower: Keywords.Lowering, now: int, posts: seq<Post>, watchers: seq<Watcher>,
                                       st: Progress, log: seq<Attempt>)
    ensures var after := Pass(lower, now, posts, watchers, st);
            Pass(lower, now, posts, watchers, st.(sends := log + st.sends)) == after.(sends := log + after.sends)
  {
    if posts != [] {
      var n := |posts| - 1;
      PassAppends(lower, now, posts[..n], watchers, st, log);
      var mid := Pass(lower, now, posts[..n], watchers, st);
      LookAppends(lower, now, posts[n], watchers, mid, log + mid.sends);
      var after := Look(lower, now, posts[n], watchers, mid);
      assert log + (mid.sends + after.pending) == log + mid.sends + after.pending;
    }
  }

  // ---------- Said of the listings ----------

  // The job's listings, the hot one last, and the positions in them that it reads.
  function All(job: Input): (listings: seq<Fetch>) {
    job.pages + [job.hot]
  }

  ghost predicate IsRead(job: Input, c: Cell) {
    var threshold := job.start - 24 * 60 * 60;
    var scan := ScanFrom(job.pages, threshold, 0);
    scan.Used? && Gathered(All(job), threshold, scan.pages, c)
  }

  ghost function ReadAt(job: Input, c: Cell): (p: Post)
    requires IsRead(job, c)
  {
    PostAt(All(job), c)
  }

  // The posts of the job, by the positions they were first read at.
  lemma KeptCells(job: Input) returns (posts: seq<Post>, at: seq<Cell>)
    ensures posts == PostsOf(job) && |at| == |posts|
    ensures forall k :: 0 <= k < |at| ==> IsRead(job, at[k]) && posts[k] == ReadAt(job, at[k])
    ensures forall c :: IsRead(job, c) ==>
              exists k :: 0 <= k < |at| && posts[k].id == ReadAt(job, c).id && (at[k] == c || Before(at[k], c))
  {
    posts, at := [], [];
    if ScanFrom(job.pages, job.start - SUBREDDIT_WINDOW, 0).Used? {
      at := CollectedInOrder(job.pages, job.hot, job.start - SUBREDDIT_WINDOW);
      posts := PostsOf(job);
    }
  }

  lemma PostsAreRead(job: Input, p: Post) returns (c: Cell)
    requires p in PostsOf(job)
    ensures IsRead(job, c) && ReadAt(job, c) == p
  {
    var posts, at := KeptCells(job);
    var k :| 0 <= k < |posts| && posts[k] == p;
    c := at[k];
  }

  lemma FirstReadIsKept(job: Input, c: Cell)
    requires IsRead(job, c)
    requires forall b :: Before(b, c) && IsRead(job, b) ==> ReadAt(job, b).id != ReadAt(job, c).id
    ensures ReadAt(job, c) in PostsOf(job)
  {
    var posts, at := KeptCells(job);
    var k :| 0 <= k < |at| && posts[k].id == ReadAt(job, c).id && (at[k] == c || Before(at[k], c));
    assert posts[k] == ReadAt(job, at[k]) && posts[k] in posts;
  }

  // A watcher that wants a post which the job reads, the first of its id, is not left out.
  lemma ListedPostIsTold(lower: Keywords.Lowering, keys: Keys, job: Input, c: Cell, w: Watcher)
    requires IsRead(job, c) && w in job.watchers && Wants(lower, w, ReadAt(job, c))
    requires forall b :: Before(b, c) && IsRead(job, b) ==> ReadAt(job, b).id != ReadAt(job, c).id
    requires !Outcome(lower, keys, job).failed
    ensures var p := ReadAt(job, c);
            || Live(keys, (w.device, p.id), job.now)
            || exists a <- Outcome(lower, keys, job).sends :: a.device == w.device && a.post == p.id
  {
    FirstReadIsKept(job, c);
    NobodyLeftOut(lower, job.now, PostsOf(job), job.watchers, keys, job.hits, job.left, ReadAt(job, c), w);
  }

  // Every send is about a post that the job reads, to a watcher that wants it.
  lemma SendIsListed(lower: Keywords.Lowering, keys: Keys, job: Input, a: Attempt) returns (c: Cell, w: Watcher)
    requires a in Outcome(lower, keys, job).sends
    ensures IsRead(job, c) && w in job.watchers && Wants(lower, w, ReadAt(job, c))
    ensures a == Attempt(w.id, w.device, ReadAt(job, c).id) && !Live(keys, (a.device, a.post), job.now)
  {
    var p;
    p, w := OnlyWhoWants(lower, job.now, PostsOf(job), job.watchers, keys, job.hits, job.left, a);
    c := PostsAreRead(job, p);
  }

  // ---------- What a watcher wants ----------

  function Bare(w: Watcher): (bare: Watcher) {
    w.(author := "", upvotes := 0, keyword := "", flair := "", domain := "")
  }

  // Without filters a watcher wants every post not older than itself; a filter narrows that
  // to the posts it accepts, and several filters to the posts that each of them accepts.
  lemma FiltersAreAnd(lower: Keywords.Lowering, w: Watcher, p: Post)
    ensures Wants(lower, Bare(w), p) <==> w.created <= p.created
    ensures Wants(lower, Bare(w).(keyword := w.keyword), p) <==>
              w.created <= p.created && Keywords.Matches(lower, w.keyword, Keywords.Lower(lower, p.title))
    ensures Wants(lower, Bare(w).(author := w.author), p) <==>
              w.created <= p.created && (w.author == "" || w.author == Keywords.Lower(lower, p.author))
    ensures Wants(lower, Bare(w).(upvotes := w.upvotes), p) <==>
              w.created <= p.created && (w.upvotes <= 0 || w.upvotes <= p.score)
    ensures Wants(lower, Bare(w).(flair := w.flair), p) <==>
              w.created <= p.created && (w.flair == "" || Keywords.Occurs(w.flair, Keywords.Lower(lower, p.flair)))
    ensures Wants(lower, Bare(w).(domain := w.domain), p) <==>
              w.created <= p.created && (w.domain == "" || Keywords.Occurs(w.domain, Keywords.Lower(lower, p.url)))
    ensures Wants(lower, w, p) <==>
              && Wants(lower, Bare(w).(keyword := w.keyword), p) && Wants(lower, Bare(w).(author := w.author), p)
              && Wants(lower, Bare(w).(upvotes := w.upvotes), p) && Wants(lower, Bare(w).(flair := w.flair), p)
              && Wants(lower, Bare(w).(domain := w.domain), p)
  {
    Keywords.NoKeyword(lower, Keywords.Lower(lower, p.title));
  }

  // ---------- Which rows an error deletes ----------

  // A page that cannot be fetched, after full ones, ends the job: a revoked authorisation
  // costs the watcher it was of, a subreddit that is gone all of them, another error none.
  lemma PageErrorDeletes(pages: seq<Fetch>, hot: Fetch, threshold: int, watchers: seq<Watcher>, picks: seq<nat>, k: nat)
    requires |pages| == 5 && Picked(picks, watchers) && k < |pages|
    requires !pages[k].Page? && forall j :: 0 <= j < k ==> Full(pages[j], threshold)
    ensures ScanFrom(pages, threshold, 0) == Aborted(k)
    ensures Removed(pages, hot, threshold, watchers, picks)
         == if pages[k] == Revoked then {watchers[picks[k]].id}
            else if pages[k] == NotFound then set w <- watchers :: w.id else {}
  {
    ErrorAborts(pages, threshold, 0, k);
  }

  // Of the hot listing's errors only a revoked authorisation costs a watcher.
  lemma HotErrorDeletes(pages: seq<Fetch>, hot: Fetch, threshold: int, watchers: seq<Watcher>, picks: seq<nat>)
    requires |pages| == 5 && Picked(picks, watchers) && ScanFrom(pages, threshold, 0).Used?
    ensures Removed(pages, hot, threshold, watchers, picks)
         == if hot == Revoked then {watchers[picks[5]].id} else {}
  {
  }
}
