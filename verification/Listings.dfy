// What a subreddit job collects, said of the listings it fetched: which pages it uses, how
// far it reads each of them, and in what order it keeps what it finds.

module Listings {
  import opened Wrappers
  import opened Collection

  // ---------- The pages used ----------

  // A page after which the next one is requested: it is full and nothing on it is stale.
  predicate Full(page: Fetch, threshold: int) {
    page.Page? && |page.posts| >= 100 && forall i :: 0 <= i < |page.posts| ==> page.posts[i].created >= threshold
  }

  // The pages before the last one used are full. It is the last because it is not, or
  // because there are no more; an error on the next page ends the job instead.
  lemma {:induction false} PagesUsed(pages: seq<Fetch>, threshold: int, i: nat)
    requires i <= |pages|
    ensures match ScanFrom(pages, threshold, i)
            case Used(n) =>
              && (forall k :: i <= k < n ==> pages[k].Page? && (k < n - 1 ==> Full(pages[k], threshold)))
              && (n < |pages| ==> i < n && !Full(pages[n - 1], threshold))
            case Aborted(k) => !pages[k].Page? && forall j :: i <= j < k ==> Full(pages[j], threshold)
    decreases |pages| - i
  {
    if i < |pages| && pages[i].Page? {
      var posts := pages[i].posts;
      assert LastPage(posts, threshold) <==> !Full(pages[i], threshold);
      if !LastPage(posts, threshold) {
        PagesUsed(pages, threshold, i + 1);
      }
    }
  }

  // The first page that is an error, after full ones, aborts the job.
  lemma {:induction false} ErrorAborts(pages: seq<Fetch>, threshold: int, i: nat, k: nat)
    requires i <= k < |pages| && !pages[k].Page? && forall j :: i <= j < k ==> Full(pages[j], threshold)
    ensures ScanFrom(pages, threshold, i) == Aborted(k)
    decreases k - i
  {
    if i < k {
      var posts := pages[i].posts;
      assert Fresh(posts, threshold) == posts;
      ErrorAborts(pages, threshold, i + 1, k);
    }
  }

  // ---------- What is read of them ----------

  // Neither the post nor one listed before it is stale.
  ghost predicate Read(posts: seq<Post>, threshold: int, i: nat) {
    i < |posts| && forall j :: 0 <= j <= i ==> posts[j].created >= threshold
  }

  // The last listing is the hot one; of the others the first n are used.
  ghost predicate Gathered(listings: seq<Fetch>, threshold: int, n: nat, c: Cell) {
    && c.0 < |listings| && (c.0 < n || c.0 == |listings| - 1)
    && listings[c.0].Page? && Read(listings[c.0].posts, threshold, c.1)
  }

  function PostAt(listings: seq<Fetch>, c: Cell): (p: Post)
    requires c.0 < |listings| && listings[c.0].Page? && c.1 < |listings[c.0].posts|
  {
    listings[c.0].posts[c.1]
  }

  // The posts are those of the positions read in the listings before `row`, in order.
  ghost predicate Lists(listings: seq<Fetch>, threshold: int, n: nat, posts: seq<Post>, at: seq<Cell>, row: nat) {
    && |at| == |posts| && Rising(at)
    && (forall k :: 0 <= k < |at| ==>
          at[k].0 < row && Gathered(listings, threshold, n, at[k]) && posts[k] == PostAt(listings, at[k]))
    && (forall c: Cell :: c.0 < row && Gathered(listings, threshold, n, c) ==> c in at)
  }

  function Upto(n: nat): (columns: seq<nat>)
    ensures |columns| == n && forall k :: 0 <= k < n ==> columns[k] == k
  {
    seq(n, k => k)
  }

  lemma FreshAreRead(posts: seq<Post>, threshold: int, i: nat)
    ensures i < |Fresh(posts, threshold)| <==> Read(posts, threshold, i)
    ensures i < |Fresh(posts, threshold)| ==> Fresh(posts, threshold)[i] == posts[i]
  {
  }

  // The positions of one more listing.
  lemma RowRead(listings: seq<Fetch>, threshold: int, n: nat, row: nat) returns (more: seq<Cell>)
    requires row < |listings| && listings[row].Page? && (row < n || row == |listings| - 1)
    ensures var young := Fresh(listings[row].posts, threshold);
            && more == RowCells(row, Upto(|young|))
            && (forall k :: 0 <= k < |more| ==>
                  Gathered(listings, threshold, n, more[k]) && young[k] == PostAt(listings, more[k]))
            && (forall c: Cell :: c.0 == row && Gathered(listings, threshold, n, c) ==> c in more)
  {
    var page := listings[row].posts;
    var young := Fresh(page, threshold);
    more := RowCells(row, Upto(|young|));
    forall i: nat ensures i < |young| <==> Read(page, threshold, i) {
      FreshAreRead(page, threshold, i);
    }
    forall c: Cell | c.0 == row && Gathered(listings, threshold, n, c) ensures c in more {
      assert more[c.1] == c;
    }
  }

  lemma ListsOn(listings: seq<Fetch>, threshold: int, n: nat, posts: seq<Post>, at: seq<Cell>, row: nat)
    returns (at': seq<Cell>)
    requires Lists(listings, threshold, n, posts, at, row) && row < |listings| && listings[row].Page?
    requires row < n || row == |listings| - 1
    ensures Lists(listings, threshold, n, posts + Fresh(listings[row].posts, threshold), at', row + 1)
  {
    var more := RowRead(listings, threshold, n, row);
    at' := at + more;
    RisingOn(at, row, Upto(|more|));
    Appended(listings, threshold, n, posts, at, row, Fresh(listings[row].posts, threshold), more);
  }

  lemma Appended(listings: seq<Fetch>, threshold: int, n: nat, posts: seq<Post>, at: seq<Cell>, row: nat,
                 young: seq<Post>, more: seq<Cell>)
    requires Lists(listings, threshold, n, posts, at, row) && Rising(at + more) && |more| == |young|
    requires forall k :: 0 <= k < |more| ==>
               more[k].0 == row && Gathered(listings, threshold, n, more[k]) && young[k] == PostAt(listings, more[k])
    requires forall c: Cell :: c.0 == row && Gathered(listings, threshold, n, c) ==> c in more
    ensures Lists(listings, threshold, n, posts + young, at + more, row + 1)
  {
  }

  lemma ListsSkip(listings: seq<Fetch>, threshold: int, n: nat, posts: seq<Post>, at: seq<Cell>, row: nat, row': nat)
    requires Lists(listings, threshold, n, posts, at, row) && row <= row'
    requires forall c: Cell :: row <= c.0 < row' ==> !Gathered(listings, threshold, n, c)
    ensures Lists(listings, threshold, n, posts, at, row')
  {
  }

  lemma {:induction false} NewInOrder(pages: seq<Fetch>, listings: seq<Fetch>, threshold: int, n: nat, m: nat)
    returns (at: seq<Cell>)
    requires m <= n <= |pages| < |listings| && forall k :: 0 <= k < n ==> pages[k].Page? && listings[k] == pages[k]
    ensures Lists(listings, threshold, n, NewPosts(pages, threshold, m), at, m)
    decreases m
  {
    at := [];
    if m > 0 {
      at := NewInOrder(pages, listings, threshold, n, m - 1);
      var before := NewPosts(pages, threshold, m - 1);
      at := ListsOn(listings, threshold, n, before, at, m - 1);
      assert NewPosts(pages, threshold, m) == before + Fresh(listings[m - 1].posts, threshold);
    }
  }

  // What a job reads: the posts of the pages used, each up to its first stale one, and
  // those of the hot listing likewise.
  lemma FetchedInOrder(pages: seq<Fetch>, hot: Fetch, threshold: int) returns (at: seq<Cell>)
    requires ScanFrom(pages, threshold, 0).Used?
    ensures var n := ScanFrom(pages, threshold, 0).pages;
            Lists(pages + [hot], threshold, n, NewPosts(pages, threshold, n) + HotPosts(hot, threshold), at,
                  |pages| + 1)
  {
    var n, listings := ScanFrom(pages, threshold, 0).pages, pages + [hot];
    var posts := NewPosts(pages, threshold, n);
    at := NewInOrder(pages, listings, threshold, n, n);
    ListsSkip(listings, threshold, n, posts, at, n, |pages|);
    if hot.Page? {
      at := ListsOn(listings, threshold, n, posts, at, |pages|);
    } else {
      ListsSkip(listings, threshold, n, posts, at, |pages|, |pages| + 1);
      assert posts + [] == posts;
    }
  }

  // ---------- What is kept ----------

  // The posts collected are the first of their id among those read, in the order read;
  // and whatever is read has its id collected there or before.
  lemma CollectedInOrder(pages: seq<Fetch>, hot: Fetch, threshold: int) returns (at: seq<Cell>)
    requires ScanFrom(pages, threshold, 0).Used?
    ensures var n, listings := ScanFrom(pages, threshold, 0).pages, pages + [hot];
            var posts := Collected(pages, hot, threshold);
            && |at| == |posts| && Rising(at)
            && (forall k :: 0 <= k < |at| ==>
                  Gathered(listings, threshold, n, at[k]) && posts[k] == PostAt(listings, at[k]))
            && (forall c :: Gathered(listings, threshold, n, c) ==>
                  exists k ::
                    0 <= k < |at| && posts[k].id == PostAt(listings, c).id && (at[k] == c || Before(at[k], c)))
  {
    var n, listings := ScanFrom(pages, threshold, 0).pages, pages + [hot];
    var all := NewPosts(pages, threshold, n) + HotPosts(hot, threshold);
    var read := FetchedInOrder(pages, hot, threshold);
    at := KeptOf(listings, threshold, n, all, read);
  }

  lemma KeptOf(listings: seq<Fetch>, threshold: int, n: nat, all: seq<Post>, read: seq<Cell>) returns (at: seq<Cell>)
    requires Lists(listings, threshold, n, all, read, |listings|)
    ensures var posts := Dedup(all);
            && |at| == |posts| && Rising(at)
            && (forall k :: 0 <= k < |at| ==>
                  Gathered(listings, threshold, n, at[k]) && posts[k] == PostAt(listings, at[k]))
            && (forall c :: Gathered(listings, threshold, n, c) ==>
                  exists k ::
                    0 <= k < |at| && posts[k].id == PostAt(listings, c).id && (at[k] == c || Before(at[k], c)))
  {
    var posts := Dedup(all);
    var kept := DedupPositions(all);
    at := seq(|posts|, k requires 0 <= k < |posts| => read[kept[k]]);
    forall c | Gathered(listings, threshold, n, c)
      ensures exists k :: 0 <= k < |at| && posts[k].id == PostAt(listings, c).id && (at[k] == c || Before(at[k], c))
    {
      var i :| 0 <= i < |read| && read[i] == c;
      var k := FirstKept(all, kept, i);
      assert at[k] == read[kept[k]];
    }
  }

  // The post kept for the id of the i-th one read stands there or before.
  lemma FirstKept(all: seq<Post>, kept: seq<nat>, i: nat) returns (k: nat)
    requires i < |all| && Positions(all, Dedup(all), kept)
    ensures k < |kept| && Dedup(all)[k].id == all[i].id && kept[k] <= i
  {
    DedupKeepsIds(all);
    assert all[i] in all && HasId(all, all[i].id) && HasId(Dedup(all), all[i].id);
    var p :| p in Dedup(all) && p.id == all[i].id;
    k :| 0 <= k < |Dedup(all)| && Dedup(all)[k] == p;
    assert FirstAt(all, kept[k]) && all[kept[k]] == p;
  }
}
