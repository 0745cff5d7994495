// The score a hot post must reach to be trending: the middle of the week's top posts,
// sorted by descending score.

module Median {
  import opened Collection

  // ---------- The stable sort ----------

  predicate Descending(posts: seq<Post>) {
    forall i, j :: 0 <= i < j < |posts| ==> posts[i].score >= posts[j].score
  }

  // Where p goes: behind the last post that scores no less.
  function Place(posts: seq<Post>, p: Post): (at: nat)
    ensures at <= |posts| && (at > 0 ==> posts[at - 1].score >= p.score)
    ensures forall i :: at <= i < |posts| ==> posts[i].score < p.score
  {
    if posts == [] || posts[|posts| - 1].score >= p.score then |posts| else Place(posts[..|posts| - 1], p)
  }

  function Insert(posts: seq<Post>, p: Post): (longer: seq<Post>)
    ensures |longer| == |posts| + 1
  {
    var at := Place(posts, p);
    posts[..at] + [p] + posts[at..]
  }

  function Sorted(posts: seq<Post>): (sorted: seq<Post>)
    ensures |sorted| == |posts|
  {
    if posts == [] then [] else Insert(Sorted(posts[..|posts| - 1]), posts[|posts| - 1])
  }

  function Filter(posts: seq<Post>, f: Post -> bool): (some: seq<Post>) {
    if posts == [] then []
    else Filter(posts[..|posts| - 1], f) + if f(posts[|posts| - 1]) then [posts[|posts| - 1]] else []
  }

  lemma {:induction false} FilterConcat(a: seq<Post>, b: seq<Post>, f: Post -> bool)
    ensures Filter(a + b, f) == Filter(a, f) + Filter(b, f)
  {
    if b == [] {
      assert a + b == a;
    } else {
      var m := |b| - 1;
      FilterConcat(a, b[..m], f);
      assert (a + b)[..|a + b| - 1] == a + b[..m];
    }
  }

  lemma {:induction false} FilterMembers(posts: seq<Post>, f: Post -> bool)
    ensures forall p :: p in Filter(posts, f) <==> p in posts && f(p)
  {
    if posts != [] {
      FilterMembers(posts[..|posts| - 1], f);
      assert posts == posts[..|posts| - 1] + [posts[|posts| - 1]];
    }
  }

  lemma InsertKeepsOrder(posts: seq<Post>, p: Post)
    requires Descending(posts)
    ensures Descending(Insert(posts, p))
  {
  }

  lemma MoveFilters(a: seq<Post>, b: seq<Post>, c: seq<Post>, f: Post -> bool)
    ensures |Filter(a + b + c, f)| == |Filter(a + c + b, f)|
    ensures Filter(b, f) == [] || Filter(c, f) == [] ==> Filter(a + b + c, f) == Filter(a + c + b, f)
  {
    FilterConcat(a + b, c, f);
    FilterConcat(a, b, f);
    FilterConcat(a + c, b, f);
    FilterConcat(a, c, f);
  }

  lemma {:induction false} NoneFiltered(posts: seq<Post>, f: Post -> bool)
    requires forall p <- posts :: !f(p)
    ensures Filter(posts, f) == []
  {
    if posts != [] {
      NoneFiltered(posts[..|posts| - 1], f);
    }
  }

  // Inserting changes no filter's count, and no filter by score at all.
  lemma InsertFilters(posts: seq<Post>, p: Post, f: Post -> bool)
    ensures |Filter(Insert(posts, p), f)| == |Filter(posts + [p], f)|
    ensures (forall q :: f(q) ==> q.score == p.score) || !f(p) ==>
              Filter(Insert(posts, p), f) == Filter(posts + [p], f)
  {
    var at := Place(posts, p);
    MoveFilters(posts[..at], [p], posts[at..], f);
    assert posts == posts[..at] + posts[at..];
    if !f(p) {
      NoneFiltered([p], f);
    } else if forall q :: f(q) ==> q.score == p.score {
      NoneFiltered(posts[at..], f);
    }
  }

  function Scores(v: int): (f: Post -> bool) {
    (p: Post) => p.score == v
  }

  lemma {:induction false} SortedIsDescending(posts: seq<Post>)
    ensures Descending(Sorted(posts))
  {
    if posts != [] {
      var n := |posts| - 1;
      SortedIsDescending(posts[..n]);
      InsertKeepsOrder(Sorted(posts[..n]), posts[n]);
    }
  }

  lemma {:induction false} SortedMembers(posts: seq<Post>)
    ensures forall p :: p in Sorted(posts) <==> p in posts
  {
    if posts != [] {
      var n := |posts| - 1;
      var sorted := Sorted(posts[..n]);
      SortedMembers(posts[..n]);
      assert posts == posts[..n] + [posts[n]];
      assert sorted == sorted[..Place(sorted, posts[n])] + sorted[Place(sorted, posts[n])..];
    }
  }

  // What a filter finds before and behind the last post of a list.
  lemma FilterLast(posts: seq<Post>, f: Post -> bool)
    requires posts != []
    ensures var n := |posts| - 1;
            && Filter(posts, f) == Filter(posts[..n], f) + Filter([posts[n]], f)
            && Filter(Sorted(posts[..n]) + [posts[n]], f) == Filter(Sorted(posts[..n]), f) + Filter([posts[n]], f)
  {
    var n := |posts| - 1;
    assert posts == posts[..n] + [posts[n]];
    FilterConcat(posts[..n], [posts[n]], f);
    FilterConcat(Sorted(posts[..n]), [posts[n]], f);
  }

  lemma {:induction false} SortedKeepsScore(posts: seq<Post>, v: int)
    ensures Filter(Sorted(posts), Scores(v)) == Filter(posts, Scores(v))
  {
    if posts != [] {
      var n := |posts| - 1;
      SortedKeepsScore(posts[..n], v);
      InsertFilters(Sorted(posts[..n]), posts[n], Scores(v));
      FilterLast(posts, Scores(v));
    }
  }

  // Sorted is the stable descending sort: posts of one score keep their order.
  lemma SortedIsStable(posts: seq<Post>)
    ensures Descending(Sorted(posts)) && |Sorted(posts)| == |posts|
    ensures forall v :: Filter(Sorted(posts), Scores(v)) == Filter(posts, Scores(v))
    ensures forall p :: p in Sorted(posts) <==> p in posts
  {
    SortedIsDescending(posts);
    SortedMembers(posts);
    forall v ensures Filter(Sorted(posts), Scores(v)) == Filter(posts, Scores(v)) {
      SortedKeepsScore(posts, v);
    }
  }

  lemma {:induction false} SortedKeepsCounts(posts: seq<Post>, f: Post -> bool)
    ensures |Filter(Sorted(posts), f)| == |Filter(posts, f)|
  {
    if posts != [] {
      var n := |posts| - 1;
      SortedKeepsCounts(posts[..n], f);
      InsertFilters(Sorted(posts[..n]), posts[n], f);
      FilterLast(posts, f);
    }
  }

  // ---------- The median ----------

  function Threshold(top: seq<Post>): (score: int)
    requires top != []
  {
    Sorted(top)[|top| / 2].score
  }

  function AtLeast(m: int): (f: Post -> bool) {
    (p: Post) => p.score >= m
  }

  function AtMost(m: int): (f: Post -> bool) {
    (p: Post) => p.score <= m
  }

  lemma {:induction false} CountPrefix(posts: seq<Post>, k: nat, f: Post -> bool)
    requires k <= |posts| && forall i :: 0 <= i < k ==> f(posts[i])
    ensures |Filter(posts, f)| >= k
    decreases |posts|
  {
    if posts != [] {
      var n := |posts| - 1;
      CountPrefix(posts[..n], if k <= n then k else n, f);
    }
  }

  lemma {:induction false} CountSuffix(posts: seq<Post>, k: nat, f: Post -> bool)
    requires k <= |posts| && forall i :: k <= i < |posts| ==> f(posts[i])
    ensures |Filter(posts, f)| >= |posts| - k
    decreases |posts|
  {
    if k < |posts| {
      CountSuffix(posts[..|posts| - 1], k, f);
    }
  }

  lemma ThresholdIsScore(top: seq<Post>)
    requires top != []
    ensures exists p <- top :: p.score == Threshold(top)
  {
    SortedMembers(top);
    assert Sorted(top)[|top| / 2] in Sorted(top);
  }

  // In descending order, everything up to position k scores at least as much as the post
  // there, and everything from there on at most as much.
  lemma AroundPosition(sorted: seq<Post>, k: nat)
    requires Descending(sorted) && k < |sorted|
    ensures |Filter(sorted, AtLeast(sorted[k].score))| >= k + 1
    ensures |Filter(sorted, AtMost(sorted[k].score))| >= |sorted| - k
  {
    var m := sorted[k].score;
    forall i | 0 <= i < k + 1 ensures AtLeast(m)(sorted[i]) {
    }
    CountPrefix(sorted, k + 1, AtLeast(m));
    forall i | k <= i < |sorted| ensures AtMost(m)(sorted[i]) {
    }
    CountSuffix(sorted, k, AtMost(m));
  }

  // The threshold is the score of a top post, with more than half of the n posts,
  // floor(n/2) + 1, at or above it and at least n - floor(n/2) at or below it.
  lemma ThresholdIsMedian(top: seq<Post>)
    requires top != []
    ensures var m, n := Threshold(top), |top|;
            && (exists p <- top :: p.score == m)
            && |Filter(top, AtLeast(m))| >= n / 2 + 1
            && |Filter(top, AtMost(m))| >= n - n / 2
  {
    ThresholdIsScore(top);
    SortedIsDescending(top);
    AroundPosition(Sorted(top), |top| / 2);
    SortedKeepsCounts(top, AtLeast(Threshold(top)));
    SortedKeepsCounts(top, AtMost(Threshold(top)));
  }

  // ---------- In place ----------

  // s lists the posts with the one at position k moved down to position j.
  ghost predicate MovedTo(s: seq<Post>, posts: seq<Post>, k: nat, j: nat)
    requires j <= k < |posts|
  {
    && |s| == |posts| && s[j] == posts[k]
    && (forall i :: 0 <= i < j ==> s[i] == posts[i])
    && (forall i :: j < i <= k ==> s[i] == posts[i - 1])
    && (forall i :: k < i < |posts| ==> s[i] == posts[i])
  }

  lemma MovedOn(s: seq<Post>, posts: seq<Post>, k: nat, j: nat)
    requires 0 < j <= k < |posts| && MovedTo(s, posts, k, j)
    ensures MovedTo(s[j - 1 := s[j]][j := s[j - 1]], posts, k, j - 1)
  {
  }

  lemma MovedIsInsert(s: seq<Post>, posts: seq<Post>, k: nat, j: nat)
    requires j <= k < |posts| && MovedTo(s, posts, k, j) && (j > 0 ==> posts[j - 1].score >= posts[k].score)
    requires forall i :: j <= i < k ==> posts[i].score < posts[k].score
    ensures s == Insert(posts[..k], posts[k]) + posts[k + 1..]
  {
    assert j == Place(posts[..k], posts[k]);
    assert posts[..k][..j] == posts[..j] && posts[..k][j..] == posts[j..k];
    assert s == posts[..j] + [posts[k]] + posts[j..k] + posts[k + 1..];
  }

  method Swap(children: array<Post>, j: nat)
    requires 0 < j < children.Length
    modifies children
    ensures var s := old(children[..]); children[..] == s[j - 1 := s[j]][j := s[j - 1]]
  {
    children[j - 1], children[j] := children[j], children[j - 1];
  }

  // Swaps the post at k down past those that score less.
  method Sink(children: array<Post>, k: nat) returns (j: nat)
    requires k < children.Length
    modifies children
    ensures j <= k && MovedTo(children[..], old(children[..]), k, j)
    ensures var s := old(children[..]);
            && (j > 0 ==> s[j - 1].score >= s[k].score)
            && forall i :: j <= i < k ==> s[i].score < s[k].score
  {
    ghost var before := children[..];
    j := k;
    while j > 0 && children[j - 1].score < children[j].score
      invariant 0 <= j <= k && MovedTo(children[..], before, k, j)
      invariant forall i :: j <= i < k ==> before[i].score < before[k].score
    {
      MovedOn(children[..], before, k, j);
      Swap(children, j);
      j := j - 1;
    }
  }

  // Moves the post at k down to its place among the k sorted ones before it.
  method MoveDown(children: array<Post>, k: nat)
    requires k < children.Length
    modifies children
    ensures children[..] == Insert(old(children[..k]), old(children[k])) + old(children[k + 1..])
  {
    ghost var before := children[..];
    var j := Sink(children, k);
    MovedIsInsert(children[..], before, k, j);
    assert before[..k] == old(children[..k]) && before[k + 1..] == old(children[k + 1..]);
  }

  lemma SortedNext(posts: seq<Post>, k: nat)
    requires k < |posts|
    ensures Sorted(posts[..k + 1]) == Insert(Sorted(posts[..k]), posts[k])
  {
    assert posts[..k + 1][..k] == posts[..k] && posts[..k + 1][k] == posts[k];
  }

  lemma SortedOn(posts: seq<Post>, k: nat, s: seq<Post>)
    requires k < |posts| && s == Sorted(posts[..k]) + posts[k..]
    ensures |s| == |posts| && Insert(s[..k], s[k]) + s[k + 1..] == Sorted(posts[..k + 1]) + posts[k + 1..]
  {
    SortedNext(posts, k);
    Halves(Sorted(posts[..k]), posts[k..]);
    assert posts[k..][0] == posts[k] && posts[k..][1..] == posts[k + 1..];
  }

  lemma Halves(a: seq<Post>, b: seq<Post>)
    requires b != []
    ensures (a + b)[..|a|] == a && (a + b)[|a|] == b[0] && (a + b)[|a| + 1..] == b[1..]
  {
  }

  method SortByScore(children: array<Post>)
    modifies children
    ensures children[..] == Sorted(old(children[..]))
  {
    ghost var top := children[..];
    var k := 0;
    while k < children.Length
      invariant 0 <= k <= children.Length
      invariant children[..] == Sorted(top[..k]) + top[k..]
    {
      ghost var s := children[..];
      SortedOn(top, k, s);
      assert children[..k] == s[..k] && children[k + 1..] == s[k + 1..];
      MoveDown(children, k);
      k := k + 1;
    }
    assert top[..k] == top && top[k..] == [];
  }
}
