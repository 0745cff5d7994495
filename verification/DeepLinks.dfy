// The links Bark notifications open: how they are printed from a payload's custom
// keys, how they are read back, and how the post id got into the payload.
//
// A string is a sequence of bytes, as Go's escaping sees it.

module DeepLinks {
  import opened Wrappers

  ghost predicate Bytes(s: string) {
    forall i :: 0 <= i < |s| ==> s[i] as int < 256
  }

  // ---------- Path escaping, sections 2.1 and 3.3 of RFC 3986 ----------

  predicate Alphanumeric(c: char) {
    'a' <= c <= 'z' || 'A' <= c <= 'Z' || '0' <= c <= '9'
  }

  // The characters url.PathEscape leaves alone.
  predicate Plain(c: char) {
    Alphanumeric(c) || c in "-_.~$&+:=@"
  }

  // What section 3.3 allows in a path segment besides percent-encoded bytes.
  predicate PathChar(c: char) {
    Alphanumeric(c) || c in "-._~" || c in "!$&'()*+,;=" || c in ":@"
  }

  function HexDigit(n: nat): (c: char)
    requires n < 16
    ensures HexValue(c) == Some(n)
  {
    if n < 10 then (n + '0' as int) as char else (n - 10 + 'A' as int) as char
  }

  function HexValue(c: char): (n: Option<nat>)
    ensures n.Some? ==> n.value < 16
  {
    if '0' <= c <= '9' then Some(c as int - '0' as int)
    else if 'A' <= c <= 'F' then Some(c as int - 'A' as int + 10)
    else if 'a' <= c <= 'f' then Some(c as int - 'a' as int + 10)
    else None
  }

  function EscapeByte(c: char): (s: string) {
    if Plain(c) then [c] else ['%', HexDigit(c as int / 16 % 16), HexDigit(c as int % 16)]
  }

  function Escape(s: string): (r: string) {
    if s == [] then [] else EscapeByte(s[0]) + Escape(s[1..])
  }

  function Unescape(s: string): (r: Option<string>)
    decreases |s|
  {
    if s == [] then Some([])
    else if s[0] == '%' then
      if |s| < 3 || HexValue(s[1]).None? || HexValue(s[2]).None? then None
      else
        var rest := Unescape(s[3..]);
        if rest.None? then None
        else Some([(16 * HexValue(s[1]).value + HexValue(s[2]).value) as char] + rest.value)
    else
      var rest := Unescape(s[1..]);
      if rest.None? then None else Some([s[0]] + rest.value)
  }

  lemma UnescapePercent(high: nat, low: nat, rest: string)
    requires high < 16 && low < 16
    ensures Unescape(['%', HexDigit(high), HexDigit(low)] + rest)
         == if Unescape(rest).None? then None else Some([(16 * high + low) as char] + Unescape(rest).value)
  {
    var s := ['%', HexDigit(high), HexDigit(low)] + rest;
    assert s[0] == '%' && HexValue(s[1]) == Some(high) && HexValue(s[2]) == Some(low) && s[3..] == rest;
  }

  lemma UnescapePlain(c: char, rest: string)
    requires c != '%'
    ensures Unescape([c] + rest) == if Unescape(rest).None? then None else Some([c] + Unescape(rest).value)
  {
    assert ([c] + rest)[0] == c && ([c] + rest)[1..] == rest;
  }

  // One escaped byte is read back as that byte.
  lemma UnescapeByte(c: char, rest: string)
    requires c as int < 256
    ensures Unescape(EscapeByte(c) + rest)
         == if Unescape(rest).None? then None else Some([c] + Unescape(rest).value)
  {
    if Plain(c) {
      UnescapePlain(c, rest);
    } else {
      UnescapePercent(c as int / 16 % 16, c as int % 16, rest);
    }
  }

  lemma {:induction false} EscapeRoundTrip(s: string)
    requires Bytes(s)
    ensures Unescape(Escape(s)) == Some(s)
  {
    if s != [] {
      EscapeRoundTrip(s[1..]);
      UnescapeByte(s[0], Escape(s[1..]));
      assert s == [s[0]] + s[1..];
    }
  }

  // Letters, digits and the ten other characters stay; every other byte becomes a percent
  // sign and its two digits, in upper case.
  lemma EscapedBytes(c: char)
    requires c as int < 256
    ensures EscapeByte(c)
         == if 'a' <= c <= 'z' || 'A' <= c <= 'Z' || '0' <= c <= '9' || c in "-_.~$&+:=@" then [c]
            else ['%', "0123456789ABCDEF"[c as int / 16], "0123456789ABCDEF"[c as int % 16]]
  {
    Digit(c as int / 16);
    Digit(c as int % 16);
  }

  lemma Digit(n: nat)
    requires n < 16
    ensures HexDigit(n) == "0123456789ABCDEF"[n]
  {
  }

  lemma {:induction false} EscapeAppends(a: string, b: string)
    ensures Escape(a + b) == Escape(a) + Escape(b)
  {
    if a == [] {
      assert a + b == b;
    } else {
      EscapeAppends(a[1..], b);
      EscapeHead(a, b);
      Regrouped(EscapeByte(a[0]), Escape(a[1..]), Escape(b));
    }
  }

  lemma EscapeHead(a: string, b: string)
    requires a != []
    ensures Escape(a + b) == EscapeByte(a[0]) + Escape(a[1..] + b)
  {
    assert (a + b)[0] == a[0] && (a + b)[1..] == a[1..] + b;
  }

  lemma Regrouped(a: string, b: string, c: string)
    ensures a + (b + c) == (a + b) + c
  {
  }

  // A segment as section 3.3 has it: path characters and percent-encoded bytes.
  predicate Segment(s: string) {
    if s == [] then true
    else if s[0] == '%' then |s| >= 3 && HexValue(s[1]).Some? && HexValue(s[2]).Some? && Segment(s[3..])
    else PathChar(s[0]) && Segment(s[1..])
  }

  lemma EscapedByte(c: char, rest: string)
    requires Segment(rest)
    ensures Segment(EscapeByte(c) + rest) && '/' !in EscapeByte(c)
  {
    var s := EscapeByte(c) + rest;
    if Plain(c) {
      assert s[0] == c && s[1..] == rest;
    } else {
      assert s[0] == '%' && s[3..] == rest;
    }
  }

  lemma {:induction false} EscapeIsSegment(s: string)
    ensures Segment(Escape(s)) && '/' !in Escape(s)
  {
    if s != [] {
      EscapeIsSegment(s[1..]);
      EscapedByte(s[0], Escape(s[1..]));
    }
  }

  // ---------- The link of a payload ----------

  // The custom keys a link is made of; one that the payload lacks is read as empty.
  datatype Customs = Customs(kind: Kind, post: string, subreddit: string, comment: string)

  // The payload's "type".
  datatype Kind = Username | PostReply | CommentReply | PrivateMessage | Untyped

  // A payload with a post to open.
  predicate HasPost(c: Customs) {
    !c.kind.PrivateMessage? && c.post != "" && c.subreddit != ""
  }

  const INBOX := "apollo://reborn/inbox"
  const HOST := "apollo:" + "//" + "reddit.com"
  const SUB := "/r/"
  const COMMENTS := "/comments/"
  const SLUG := "/_/"
  const CONTEXT := "/?context=1"

  function PostLink(subreddit: string, post: string): (url: string) {
    HOST + (SUB + (Escape(subreddit) + (COMMENTS + Escape(post))))
  }

  function CommentLink(subreddit: string, post: string, comment: string): (url: string) {
    HOST + (SUB + (Escape(subreddit) + (COMMENTS + (Escape(post) + (SLUG + (Escape(comment) + CONTEXT))))))
  }

  function ClickURL(c: Customs): (url: string) {
    if !HasPost(c) then INBOX
    else if c.comment != "" then CommentLink(c.subreddit, c.post, c.comment)
    else PostLink(c.subreddit, c.post)
  }

  // The text of every link.
  lemma LinkText(c: Customs)
    ensures ClickURL(c)
         == if c.kind == PrivateMessage || c.post == "" || c.subreddit == "" then "apollo://reborn/inbox"
            else if c.comment == "" then
              "apollo://reddit.com/r/" + Escape(c.subreddit) + "/comments/" + Escape(c.post)
            else
              "apollo://reddit.com/r/" + Escape(c.subreddit) + "/comments/" + Escape(c.post)
              + "/_/" + Escape(c.comment) + "/?context=1"
  {
    HostText();
    LinkParts(c, "apollo://reddit.com/r/", "/comments/", "/_/", "/?context=1");
  }

  lemma HostText()
    ensures HOST + SUB == "apollo://reddit.com/r/"
  {
  }

  lemma LinkParts(c: Customs, root: string, comments: string, slug: string, context: string)
    requires root == HOST + SUB && comments == COMMENTS && slug == SLUG && context == CONTEXT
    ensures var subreddit, post, comment := Escape(c.subreddit), Escape(c.post), Escape(c.comment);
            ClickURL(c)
            == if c.kind == PrivateMessage || c.post == "" || c.subreddit == "" then INBOX
               else if c.comment == "" then root + subreddit + comments + post
               else root + subreddit + comments + post + slug + comment + context
  {
    var subreddit, post, comment := Escape(c.subreddit), Escape(c.post), Escape(c.comment);
    Grouped2(HOST, SUB, subreddit, COMMENTS, post);
    Grouped4(HOST, SUB, subreddit, COMMENTS, post, SLUG, comment, CONTEXT);
  }

  lemma Grouped2(a: string, b: string, c: string, d: string, e: string)
    ensures a + (b + (c + (d + e))) == (a + b) + c + d + e
  {
  }

  lemma Grouped4(a: string, b: string, c: string, d: string, e: string, f: string, g: string, h: string)
    ensures a + (b + (c + (d + (e + (f + (g + h)))))) == (a + b) + c + d + e + f + g + h
  {
  }

  // ---------- Reading a link back ----------

  datatype Target =
    | ToInbox
    | ToPost(subreddit: string, post: string)
    | ToComment(subreddit: string, post: string, comment: string)

  // The position of the first slash, or the length.
  function Until(s: string): (n: nat)
    ensures n <= |s| && '/' !in s[..n] && (n < |s| ==> s[n] == '/')
  {
    if s == [] || s[0] == '/' then 0 else 1 + Until(s[1..])
  }

  lemma {:induction false} UntilRest(segment: string, rest: string)
    requires '/' !in segment && (rest == [] || rest[0] == '/')
    ensures Until(segment + rest) == |segment|
    ensures (segment + rest)[..|segment|] == segment && (segment + rest)[|segment|..] == rest
  {
    if segment == [] {
      assert segment + rest == rest;
    } else {
      UntilRest(segment[1..], rest);
      assert (segment + rest)[1..] == segment[1..] + rest;
    }
  }

  predicate Starts(prefix: string, s: string) {
    |prefix| <= |s| && s[..|prefix|] == prefix
  }

  lemma StartsRest(prefix: string, rest: string)
    ensures Starts(prefix, prefix + rest) && (prefix + rest)[|prefix|..] == rest
  {
  }

  function ReadPost(subreddit: string, post: string): (target: Option<Target>) {
    if Unescape(subreddit).None? || Unescape(post).None? then None
    else Some(ToPost(Unescape(subreddit).value, Unescape(post).value))
  }

  // After the post id: the end, or a comment.
  function ReadTail(subreddit: string, post: string, s: string): (target: Option<Target>) {
    var to := ReadPost(subreddit, post);
    if to.None? || s == [] then to
    else if !Starts(SLUG, s) then None
    else
      var t := s[|SLUG|..];
      var comment := Unescape(t[..Until(t)]);
      if t[Until(t)..] != CONTEXT || comment.None? then None
      else Some(ToComment(to.value.subreddit, to.value.post, comment.value))
  }

  function ReadThread(s: string): (target: Option<Target>) {
    var n := Until(s);
    if !Starts(COMMENTS, s[n..]) then None
    else
      var t := s[n..][|COMMENTS|..];
      ReadTail(s[..n], t[..Until(t)], t[Until(t)..])
  }

  function ReadLink(url: string): (target: Option<Target>) {
    if url == INBOX then Some(ToInbox)
    else if !Starts(HOST, url) || !Starts(SUB, url[|HOST|..]) then None
    else ReadThread(url[|HOST|..][|SUB|..])
  }

  // What a payload asks to be opened.
  function Wanted(c: Customs): (target: Target) {
    if !HasPost(c) then ToInbox
    else if c.comment != "" then ToComment(c.subreddit, c.post, c.comment)
    else ToPost(c.subreddit, c.post)
  }

  ghost predicate AllBytes(c: Customs) {
    Bytes(c.subreddit) && Bytes(c.post) && Bytes(c.comment)
  }

  lemma ReadSegments(a: string, b: string, tail: string)
    requires '/' !in a && '/' !in b && (tail == [] || tail[0] == '/')
    ensures ReadThread(a + (COMMENTS + (b + tail))) == ReadTail(a, b, tail)
  {
    UntilRest(a, COMMENTS + (b + tail));
    StartsRest(COMMENTS, b + tail);
    UntilRest(b, tail);
  }

  lemma ReadThreadOf(subreddit: string, post: string, tail: string)
    requires Bytes(subreddit) && Bytes(post) && (tail == [] || tail[0] == '/')
    ensures ReadThread(Escape(subreddit) + (COMMENTS + (Escape(post) + tail)))
         == ReadTail(Escape(subreddit), Escape(post), tail)
    ensures ReadPost(Escape(subreddit), Escape(post)) == Some(ToPost(subreddit, post))
  {
    EscapeIsSegment(subreddit);
    EscapeIsSegment(post);
    EscapeRoundTrip(subreddit);
    EscapeRoundTrip(post);
    ReadSegments(Escape(subreddit), Escape(post), tail);
  }

  lemma ReadTailOf(subreddit: string, post: string, comment: string)
    requires Bytes(subreddit) && Bytes(post) && Bytes(comment)
    ensures ReadTail(Escape(subreddit), Escape(post), SLUG + (Escape(comment) + CONTEXT))
         == Some(ToComment(subreddit, post, comment))
  {
    EscapeRoundTrip(subreddit);
    EscapeRoundTrip(post);
    EscapeRoundTrip(comment);
    EscapeIsSegment(comment);
    StartsRest(SLUG, Escape(comment) + CONTEXT);
    UntilRest(Escape(comment), CONTEXT);
  }

  lemma ReadLinkOf(rest: string)
    ensures ReadLink(HOST + (SUB + rest)) == ReadThread(rest)
  {
    StartsRest(HOST, SUB + rest);
    StartsRest(SUB, rest);
    assert HOST[10] == 'e' && HOST[11] == 'd' && INBOX[11] == 'b';
    assert (HOST + (SUB + rest))[11] == HOST[11];
  }

  // Every link is read back as what the payload asked for: subreddit, post and comment.
  lemma LinkRoundTrip(c: Customs)
    requires AllBytes(c)
    ensures ReadLink(ClickURL(c)) == Some(Wanted(c))
  {
    if Wanted(c).ToComment? {
      var tail := SLUG + (Escape(c.comment) + CONTEXT);
      ReadLinkOf(Escape(c.subreddit) + (COMMENTS + (Escape(c.post) + tail)));
      ReadThreadOf(c.subreddit, c.post, tail);
      ReadTailOf(c.subreddit, c.post, c.comment);
    } else if Wanted(c).ToPost? {
      assert Escape(c.post) + [] == Escape(c.post);
      ReadLinkOf(Escape(c.subreddit) + (COMMENTS + Escape(c.post)));
      ReadThreadOf(c.subreddit, c.post, []);
    }
  }

  // So two payloads share a link only when they ask for the same thing.
  lemma LinksAreInjective(a: Customs, b: Customs)
    requires AllBytes(a) && AllBytes(b)
    ensures ClickURL(a) == ClickURL(b) <==> Wanted(a) == Wanted(b)
  {
    LinkRoundTrip(a);
    LinkRoundTrip(b);
  }
}
