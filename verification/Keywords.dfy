// Keyword matching of watchers: split on '+' and ',', lower the haystack, look for
// every part.

module Keywords {

  // Lowering is per character; nothing else about it matters here.
  type Lowering = char -> char

  function Lower(lower: Lowering, s: string): (r: string)
    ensures |r| == |s|
    ensures forall i :: 0 <= i < |s| ==> r[i] == lower(s[i])
  {
    seq(|s|, i requires 0 <= i < |s| => lower(s[i]))
  }

  ghost predicate Idempotent(lower: Lowering) {
    forall c :: lower(lower(c)) == lower(c)
  }

  predicate Separator(c: char) {
    c == '+' || c == ','
  }

  predicate At(part: string, s: string, p: int) {
    0 <= p <= |s| - |part| && s[p..p + |part|] == part
  }

  ghost predicate Occurs(part: string, s: string) {
    exists p :: At(part, s, p)
  }

  ghost predicate NoSeparator(k: string, i: nat, j: nat)
    requires i <= j <= |k|
  {
    forall m :: i <= m < j ==> !Separator(k[m])
  }

  // k[i..j] is nonempty, free of separators, and cannot be extended.
  ghost predicate Run(k: string, i: int, j: int) {
    && 0 <= i < j <= |k|
    && NoSeparator(k, i, j)
    && (i > 0 ==> Separator(k[i - 1]))
    && (j < |k| ==> Separator(k[j]))
  }

  // The keyword matches when every maximal run occurs in the lowered haystack.
  ghost predicate Matches(lower: Lowering, keyword: string, haystack: string) {
    forall i, j :: Run(keyword, i, j) ==> Occurs(keyword[i..j], Lower(lower, haystack))
  }

  // strings.Contains
  method Contains(s: string, part: string) returns (found: bool)
    ensures found <==> Occurs(part, s)
  {
    var p := 0;
    while p + |part| <= |s|
      invariant forall q :: 0 <= q < p ==> !At(part, s, q)
    {
      if s[p..p + |part|] == part {
        assert At(part, s, p);
        return true;
      }
      p := p + 1;
    }
    return false;
  }

  // strings.FieldsFunc: the runs, in order of their ends.
  method Fields(k: string) returns (fields: seq<string>)
    ensures forall f :: f in fields <==> exists i, j :: Run(k, i, j) && f == k[i..j]
  {
    fields := [];
    var start := -1;
    var m := 0;
    while m < |k|
      invariant 0 <= m <= |k| && -1 <= start < m
      invariant start == -1 ==> m == 0 || Separator(k[m - 1])
      invariant start >= 0 ==> NoSeparator(k, start, m) && (start > 0 ==> Separator(k[start - 1]))
      invariant forall f <- fields :: exists i, j :: Run(k, i, j) && f == k[i..j]
      invariant forall i, j :: Run(k, i, j) && j < m ==> k[i..j] in fields
      invariant forall i, j :: Run(k, i, j) && j == m && start == -1 ==> k[i..j] in fields
    {
      if Separator(k[m]) {
        if start >= 0 {
          assert Run(k, start, m);
          fields := fields + [k[start..m]];
          OneRunEnds(k, start, m);
          start := -1;
        }
      } else if start < 0 {
        start := m;
      }
      m := m + 1;
    }
    if start >= 0 {
      assert Run(k, start, |k|);
      fields := fields + [k[start..]];
      OneRunEnds(k, start, |k|);
      assert k[start..] == k[start..|k|];
    }
  }

  // Only one run ends at a given position.
  lemma OneRunEnds(k: string, i: nat, j: nat)
    requires Run(k, i, j)
    ensures forall i' :: Run(k, i', j) ==> i' == i
  {
  }

  method KeywordMatches(lower: Lowering, keyword: string, haystack: string) returns (matches: bool)
    ensures matches <==> Matches(lower, keyword, haystack)
  {
    if keyword == "" {
      return true;
    }
    var keywords := Fields(keyword);
    var lowered := Lower(lower, haystack);
    var n := 0;
    while n < |keywords|
      invariant 0 <= n <= |keywords|
      invariant forall f <- keywords[..n] :: Occurs(f, lowered)
    {
      var found := Contains(lowered, keywords[n]);
      if !found {
        assert keywords[n] in keywords;
        return false;
      }
      n := n + 1;
    }
    assert keywords[..n] == keywords;
    return true;
  }

  // ---------- What a keyword means ----------

  // k lists the two keywords with a separator between them.
  ghost predicate Joins(k: string, k1: string, k2: string) {
    && |k| == |k1| + 1 + |k2| && Separator(k[|k1|])
    && (forall m :: 0 <= m < |k1| ==> k[m] == k1[m])
    && (forall m :: |k1| < m < |k| ==> k[m] == k2[m - |k1| - 1])
  }

  lemma RunInFirst(k: string, k1: string, k2: string, i: int, j: int)
    requires Joins(k, k1, k2)
    ensures Run(k1, i, j) <==> Run(k, i, j) && j <= |k1|
    ensures Run(k1, i, j) ==> k[i..j] == k1[i..j]
  {
    if 0 <= i < j <= |k1| {
      assert NoSeparator(k, i, j) <==> NoSeparator(k1, i, j);
    }
  }

  lemma RunInSecond(k: string, k1: string, k2: string, i: int, j: int)
    requires Joins(k, k1, k2)
    ensures var n := |k1| + 1;
            && (Run(k2, i, j) <==> Run(k, i + n, j + n) && i >= 0)
            && (Run(k2, i, j) ==> k[i + n..j + n] == k2[i..j])
  {
    var n := |k1| + 1;
    if 0 <= i < j <= |k2| {
      assert forall m :: i + n <= m < j + n ==> k[m] == k2[m - n];
      assert forall m :: i <= m < j ==> k2[m] == k[m + n];
      assert NoSeparator(k, i + n, j + n) <==> NoSeparator(k2, i, j);
    }
  }

  // No run of the whole crosses the separator.
  lemma RunOnOneSide(k: string, k1: string, k2: string, i: int, j: int)
    requires Joins(k, k1, k2) && Run(k, i, j)
    ensures j <= |k1| || i > |k1|
  {
  }

  // Joining two keywords with a comma, or with a plus, matches exactly when both match.
  lemma CommaIsAnd(lower: Lowering, k1: string, k2: string, haystack: string)
    ensures Matches(lower, k1 + "," + k2, haystack) <==> Matches(lower, k1, haystack) && Matches(lower, k2, haystack)
  {
    JoinedIsAnd(lower, k1 + "," + k2, k1, k2, haystack);
  }

  lemma PlusIsAnd(lower: Lowering, k1: string, k2: string, haystack: string)
    ensures Matches(lower, k1 + "+" + k2, haystack) <==> Matches(lower, k1, haystack) && Matches(lower, k2, haystack)
  {
    JoinedIsAnd(lower, k1 + "+" + k2, k1, k2, haystack);
  }

  lemma JoinedIsAnd(lower: Lowering, k: string, k1: string, k2: string, haystack: string)
    requires Joins(k, k1, k2)
    ensures Matches(lower, k, haystack) <==> Matches(lower, k1, haystack) && Matches(lower, k2, haystack)
  {
    var n := |k1| + 1;
    forall i, j ensures Run(k1, i, j) <==> Run(k, i, j) && j <= |k1|
                ensures Run(k1, i, j) ==> k[i..j] == k1[i..j]
    {
      RunInFirst(k, k1, k2, i, j);
    }
    forall i, j ensures Run(k2, i, j) ==> Run(k, i + n, j + n) && k[i + n..j + n] == k2[i..j] {
      RunInSecond(k, k1, k2, i, j);
    }
    forall i, j | Run(k, i, j)
      ensures Run(k1, i, j) || (Run(k2, i - n, j - n) && k[i..j] == k2[i - n..j - n])
    {
      RunOnOneSide(k, k1, k2, i, j);
      RunInSecond(k, k1, k2, i - n, j - n);
    }
  }

  lemma NoKeyword(lower: Lowering, haystack: string)
    ensures Matches(lower, "", haystack)
  {
  }

  lemma OccursBetween(part: string, s: string)
    ensures Occurs(part, s) <==> exists before, behind :: s == before + part + behind
  {
    if Occurs(part, s) {
      var p :| At(part, s, p);
      assert s == s[..p] + part + s[p + |part|..];
    }
    if exists before, behind :: s == before + part + behind {
      var before, behind :| s == before + part + behind;
      assert At(part, s, |before|);
    }
  }

  // A keyword without a comma or plus matches exactly when it stands in the lowered haystack.
  lemma WordMatches(lower: Lowering, keyword: string, haystack: string)
    requires keyword != "" && '+' !in keyword && ',' !in keyword
    ensures Matches(lower, keyword, haystack) <==>
              exists before, behind :: Lower(lower, haystack) == before + keyword + behind
  {
    assert forall i :: 0 <= i < |keyword| ==> keyword[i] in keyword;
    assert Run(keyword, 0, |keyword|) && keyword[0..|keyword|] == keyword;
    forall i, j | Run(keyword, i, j) ensures i == 0 && j == |keyword| {
    }
    OccursBetween(keyword, Lower(lower, haystack));
  }

  // Lowering the haystack before the call, as the subreddit worker does, changes nothing.
  lemma LoweredHaystack(lower: Lowering, keyword: string, haystack: string)
    requires Idempotent(lower)
    ensures Matches(lower, keyword, Lower(lower, haystack)) <==> Matches(lower, keyword, haystack)
  {
    assert Lower(lower, Lower(lower, haystack)) == Lower(lower, haystack);
  }
}
