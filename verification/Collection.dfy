// Collecting the posts of a subreddit job: up to five "new" pages, then "hot", fresh
// posts only, each post once.

module Collection {

  datatype Post = Post(
    id: string, created: int, author: string, title: string, flair: string, url: string, score: int)

  datatype Fetch = Page(posts: seq<Post>) | Revoked | NotFound | Failed

  const MAX_PAGES := 5
  const PAGE_SIZE := 100

  // ---------- The posts of a job ----------

  // The position of the first stale post at or after i.
  function StaleFrom(posts: seq<Post>, threshold: int, i: nat): (n: nat)
    requires i <= |posts|
    ensures i <= n <= |posts|
    ensures forall j :: i <= j < n ==> posts[j].created >= threshold
    ensures n < |posts| ==> posts[n].created < threshold
    decreases |posts| - i
  {
    if i == |posts| || posts[i].created < threshold then i else StaleFrom(posts, threshold, i + 1)
  }

  // The posts before the first one created before the threshold.
  function Fresh(posts: seq<Post>, threshold: int): (young: seq<Post>) {
    posts[..StaleFrom(posts, threshold, 0)]
  }

  // No further page is requested after an empty, short or partly stale one.
  predicate LastPage(posts: seq<Post>, threshold: int) {
    |posts| < PAGE_SIZE || |Fresh(posts, threshold)| < |posts|
  }

  datatype Scan = Used(pages: nat) | Aborted(page: nat)

  // How many pages are used, counting on from page i; an error on a page aborts the job.
  function ScanFrom(pages: seq<Fetch>, threshold: int, i: nat): (scan: Scan)
    requires i <= |pages|
    ensures scan.Used? ==> i <= scan.pages <= |pages| && forall k :: i <= k < scan.pages ==> pages[k].Page?
    ensures scan.Aborted? ==> i <= scan.page < |pages| && !pages[scan.page].Page?
    decreases |pages| - i
  {
    if i == |pages| then Used(i)
    else if !pages[i].Page? then Aborted(i)
    else if LastPage(pages[i].posts, threshold) then Used(i + 1)
    else ScanFrom(pages, threshold, i + 1)
  }

  // The fresh posts of the first n pages.
  function NewPosts(pages: seq<Fetch>, threshold: int, n: nat): (posts: seq<Post>)
    requires n <= |pages| && forall k :: 0 <= k < n ==> pages[k].Page?
  {
    if n == 0 then [] else NewPosts(pages, threshold, n - 1) + Fresh(pages[n - 1].posts, threshold)
  }

  function HotPosts(hot: Fetch, threshold: int): (posts: seq<Post>) {
    if hot.Page? then Fresh(hot.posts, threshold) else []
  }

  predicate HasId(posts: seq<Post>, id: string) {
    exists p <- posts :: p.id == id
  }

  // First occurrences, in order.
  function Dedup(posts: seq<Post>): (once: seq<Post>) {
    if posts == [] then []
    else
      var n := |posts| - 1;
      var once := Dedup(posts[..n]);
      if HasId(once, posts[n].id) then once else once + [posts[n]]
  }

  function Collected(pages: seq<Fetch>, hot: Fetch, threshold: int): (posts: seq<Post>)
    requires ScanFrom(pages, threshold, 0).Used?
  {
    Dedup(NewPosts(pages, threshold, ScanFrom(pages, threshold, 0).pages) + HotPosts(hot, threshold))
  }

  // ---------- What Dedup and the collection promise ----------

  lemma HasIdSnoc(posts: seq<Post>, p: Post, id: string)
    ensures HasId(posts + [p], id) <==> HasId(posts, id) || p.id == id
  {
    if HasId(posts, id) {
      var q :| q in posts && q.id == id;
      assert q in posts + [p];
    }
    assert p in posts + [p];
  }

  // Every fetched id is kept, and no other.
  lemma {:induction false} DedupKeepsIds(posts: seq<Post>)
    ensures forall id :: HasId(Dedup(posts), id) <==> HasId(posts, id)
  {
    if posts != [] {
      var n := |posts| - 1;
      DedupKeepsIds(posts[..n]);
      assert posts == posts[..n] + [posts[n]];
      forall id ensures HasId(Dedup(posts), id) <==> HasId(posts, id) {
        HasIdSnoc(posts[..n], posts[n], id);
        HasIdSnoc(Dedup(posts[..n]), posts[n], id);
      }
    }
  }

  ghost predicate FirstAt(posts: seq<Post>, a: nat) {
    a < |posts| && forall j :: 0 <= j < a ==> posts[j].id != posts[a].id
  }

  lemma LastIsFirst(posts: seq<Post>)
    requires posts != [] && !HasId(posts[..|posts| - 1], posts[|posts| - 1].id)
    ensures FirstAt(posts, |posts| - 1)
  {
    var n := |posts| - 1;
    forall j | 0 <= j < n ensures posts[j].id != posts[n].id {
      assert posts[..n][j] in posts[..n];
    }
  }

  ghost predicate Positions(posts: seq<Post>, once: seq<Post>, at: seq<nat>) {
    && |at| == |once|
    && (forall i, j :: 0 <= i < j < |at| ==> at[i] < at[j])
    && (forall k :: 0 <= k < |at| ==> FirstAt(posts, at[k]) && posts[at[k]] == once[k])
  }

  lemma PositionsStay(shorter: seq<Post>, posts: seq<Post>, once: seq<Post>, at: seq<nat>)
    requires Positions(shorter, once, at) && shorter <= posts
    ensures Positions(posts, once, at) && forall k :: 0 <= k < |at| ==> at[k] < |shorter|
  {
    forall k | 0 <= k < |at| ensures FirstAt(posts, at[k]) && at[k] < |shorter| {
      assert FirstAt(shorter, at[k]);
    }
  }

  lemma PositionsSnoc(posts: seq<Post>, once: seq<Post>, at: seq<nat>)
    requires Positions(posts, once, at) && posts != [] && FirstAt(posts, |posts| - 1)
    requires forall k :: 0 <= k < |at| ==> at[k] < |posts| - 1
    ensures Positions(posts, once + [posts[|posts| - 1]], at + [|posts| - 1])
  {
  }

  // The kept posts stand at ascending positions of the fetched ones, each the first
  // with its id; so ids are kept once, in their first version and in order.
  lemma {:induction false} DedupPositions(posts: seq<Post>) returns (at: seq<nat>)
    ensures Positions(posts, Dedup(posts), at)
  {
    if posts == [] {
      at := [];
    } else {
      var n := |posts| - 1;
      at := DedupPositions(posts[..n]);
      PositionsStay(posts[..n], posts, Dedup(posts[..n]), at);
      DedupKeepsIds(posts[..n]);
      if !HasId(Dedup(posts[..n]), posts[n].id) {
        LastIsFirst(posts);
        PositionsSnoc(posts, Dedup(posts[..n]), at);
        at := at + [n];
      }
    }
  }

  lemma DedupDistinct(posts: seq<Post>)
    ensures forall i, j :: 0 <= i < j < |Dedup(posts)| ==> Dedup(posts)[i].id != Dedup(posts)[j].id
    ensures forall p <- Dedup(posts) :: p in posts
  {
    var at := DedupPositions(posts);
    forall i, j | 0 <= i < j < |Dedup(posts)| ensures Dedup(posts)[i].id != Dedup(posts)[j].id {
      assert FirstAt(posts, at[j]) && posts[at[i]] == Dedup(posts)[i];
    }
  }

  lemma {:induction false} NewAreYoung(pages: seq<Fetch>, threshold: int, n: nat)
    requires n <= |pages| && forall k :: 0 <= k < n ==> pages[k].Page?
    ensures forall p <- NewPosts(pages, threshold, n) :: p.created >= threshold
  {
    if n > 0 {
      NewAreYoung(pages, threshold, n - 1);
    }
  }

  // The ids collected are pairwise distinct and every post is at or after the threshold.
  lemma CollectedAreYoungAndDistinct(pages: seq<Fetch>, hot: Fetch, threshold: int)
    requires ScanFrom(pages, threshold, 0).Used?
    ensures forall p <- Collected(pages, hot, threshold) :: p.created >= threshold
    ensures var posts := Collected(pages, hot, threshold);
            forall i, j :: 0 <= i < j < |posts| ==> posts[i].id != posts[j].id
  {
    var n := ScanFrom(pages, threshold, 0).pages;
    NewAreYoung(pages, threshold, n);
    DedupDistinct(NewPosts(pages, threshold, n) + HotPosts(hot, threshold));
  }

  // ---------- The five identical requests ----------

  lemma {:induction false} DedupIdle(posts: seq<Post>, again: seq<Post>)
    requires forall p <- again :: HasId(Dedup(posts), p.id)
    ensures Dedup(posts + again) == Dedup(posts)
  {
    if again == [] {
      assert posts + again == posts;
    } else {
      var m := |again| - 1;
      DedupIdle(posts, again[..m]);
      assert (posts + again)[..|posts + again| - 1] == posts + again[..m];
      assert again[m] in again;
    }
  }

  lemma {:induction false} SamePages(page: seq<Post>, pages: seq<Fetch>, threshold: int, n: nat)
    requires 0 < n <= |pages| && forall k :: 0 <= k < |pages| ==> pages[k] == Page(page)
    ensures Dedup(NewPosts(pages, threshold, n)) == Dedup(Fresh(page, threshold))
  {
    if n == 1 {
      assert NewPosts(pages, threshold, 1) == [] + Fresh(page, threshold) == Fresh(page, threshold);
    } else {
      SamePages(page, pages, threshold, n - 1);
      DedupKeepsIds(Fresh(page, threshold));
      DedupIdle(NewPosts(pages, threshold, n - 1), Fresh(page, threshold));
    }
  }

  // The loop never moves its `before` cursor, so all five requests are the same. While
  // the listing does not change, the later answers add nothing: one page of new posts
  // is collected, not five.
  lemma RepeatedRequestsAddNothing(page: seq<Post>, pages: seq<Fetch>, threshold: int)
    requires |pages| == MAX_PAGES && forall k :: 0 <= k < |pages| ==> pages[k] == Page(page)
    ensures ScanFrom(pages, threshold, 0).Used?
    ensures Collected(pages, Page([]), threshold) == Dedup(Fresh(page, threshold))
  {
    NoError(pages, threshold, 0);
    var n := ScanFrom(pages, threshold, 0).pages;
    SamePages(page, pages, threshold, n);
    assert NewPosts(pages, threshold, n) + [] == NewPosts(pages, threshold, n);
  }

  lemma {:induction false} NoError(pages: seq<Fetch>, threshold: int, i: nat)
    requires i <= |pages| && forall k :: 0 <= k < |pages| ==> pages[k].Page?
    ensures var scan := ScanFrom(pages, threshold, i);
            scan.Used? && (i < |pages| ==> scan.pages > i)
    decreases |pages| - i
  {
    if i < |pages| {
      NoError(pages, threshold, i + 1);
    }
  }

  // ---------- The loops ----------

  lemma FreshIs(posts: seq<Post>, threshold: int, i: nat)
    requires i <= |posts| && forall j :: 0 <= j < i ==> posts[j].created >= threshold
    requires i < |posts| ==> posts[i].created < threshold
    ensures Fresh(posts, threshold) == posts[..i]
  {
    assert StaleFrom(posts, threshold, 0) == i;
  }

  class Collector {
    var posts: seq<Post>
    var seen: set<string>

    // `gathered` is everything offered so far.
    ghost predicate Valid(gathered: seq<Post>)
      reads this
    {
      posts == Dedup(gathered) && forall id :: id in seen <==> HasId(posts, id)
    }

    constructor ()
      ensures Valid([])
    {
      posts, seen := [], {};
    }

    method Add(post: Post, ghost gathered: seq<Post>)
      requires Valid(gathered)
      modifies this
      ensures Valid(gathered + [post])
    {
      assert (gathered + [post])[..|gathered|] == gathered;
      if post.id !in seen {
        posts := posts + [post];
        seen := seen + {post.id};
      }
    }

    // One listing: up to the first stale post, skipping posts already seen.
    method Gather(page: seq<Post>, threshold: int, ghost gathered: seq<Post>) returns (stale: bool)
      requires Valid(gathered)
      modifies this
      ensures Valid(gathered + Fresh(page, threshold))
      ensures stale <==> |Fresh(page, threshold)| < |page|
    {
      stale := false;
      var i := 0;
      ghost var all := gathered;
      while i < |page|
        invariant 0 <= i <= |page| && !stale
        invariant forall j :: 0 <= j < i ==> page[j].created >= threshold
        invariant all == gathered + page[..i] && Valid(all)
      {
        if page[i].created < threshold {
          stale := true;
          break;
        }
        Add(page[i], all);
        all := all + [page[i]];
        i := i + 1;
      }
      FreshIs(page, threshold, i);
    }

    // One "new" page; tells whether it is the last.
    method GatherNew(pages: seq<Fetch>, threshold: int, page: nat) returns (last: bool)
      requires page < |pages| && forall k :: 0 <= k <= page ==> pages[k].Page?
      requires Valid(NewPosts(pages, threshold, page))
      modifies this
      ensures Valid(NewPosts(pages, threshold, page + 1))
      ensures last == LastPage(pages[page].posts, threshold)
    {
      var posts := pages[page].posts;
      if |posts| == 0 {
        assert NewPosts(pages, threshold, page) + [] == NewPosts(pages, threshold, page);
        return true;
      }
      var stale := Gather(posts, threshold, NewPosts(pages, threshold, page));
      return |posts| < PAGE_SIZE || stale;
    }

    // `pages[i]` answers the i-th request; an error ends the job.
    method CollectNew(pages: seq<Fetch>, threshold: int) returns (scan: Scan)
      requires Valid([]) && |pages| == MAX_PAGES
      modifies this
      ensures scan == ScanFrom(pages, threshold, 0)
      ensures scan.Used? ==> Valid(NewPosts(pages, threshold, ScanFrom(pages, threshold, 0).pages))
    {
      var page := 0;
      while page < MAX_PAGES
        invariant 0 <= page <= MAX_PAGES && forall k :: 0 <= k < page ==> pages[k].Page?
        invariant ScanFrom(pages, threshold, page) == ScanFrom(pages, threshold, 0)
        invariant Valid(NewPosts(pages, threshold, page))
      {
        if !pages[page].Page? {
          return Aborted(page);
        }
        var last := GatherNew(pages, threshold, page);
        page := page + 1;
        if last {
          return Used(page);
        }
      }
      return Used(MAX_PAGES);
    }

    method Collect(pages: seq<Fetch>, hot: Fetch, threshold: int) returns (scan: Scan)
      requires Valid([]) && |pages| == MAX_PAGES
      modifies this
      ensures scan == ScanFrom(pages, threshold, 0)
      ensures scan.Used? ==> posts == Collected(pages, hot, threshold)
    {
      scan := CollectNew(pages, threshold);
      if scan.Used? {
        ghost var gathered := NewPosts(pages, threshold, ScanFrom(pages, threshold, 0).pages);
        if hot.Page? {
          var _ := Gather(hot.posts, threshold, gathered);
        } else {
          assert gathered + [] == gathered;
        }
      }
    }
  }
}
