// From an inbox message to the link its notification opens.

module MessageLinks {
  import opened Wrappers
  import opened DeepLinks

  // ---------- The post id of a message's context ----------

  // The regular expression /r/[^/]*/comments/([^/]*)/ matched where s starts.
  function ReadID(s: string): (id: Option<string>) {
    if !Starts(SUB, s) then None
    else
      var t := s[|SUB|..];
      var u := t[Until(t)..];
      if !Starts(COMMENTS, u) then None
      else
        var v := u[|COMMENTS|..];
        if Until(v) == |v| then None else Some(v[..Until(v)])
  }

  function IDAt(s: string, p: nat): (id: Option<string>)
    requires p <= |s|
  {
    ReadID(s[p..])
  }

  // The leftmost match at or after p.
  function PostIDFrom(s: string, p: nat): (id: string)
    requires p <= |s|
    decreases |s| - p
  {
    if IDAt(s, p).Some? then IDAt(s, p).value
    else if p == |s| then ""
    else PostIDFrom(s, p + 1)
  }

  function PostIDFromContext(context: string): (id: string) {
    PostIDFrom(context, 0)
  }

  function Permalink(subreddit: string, post: string, tail: string): (s: string) {
    SUB + (subreddit + (COMMENTS + (post + (['/'] + tail))))
  }

  // A match is what the expression says: a permalink starts here.
  lemma MatchIsPermalink(s: string) returns (subreddit: string, id: string, tail: string)
    requires ReadID(s).Some?
    ensures ReadID(s) == Some(id) && '/' !in subreddit && '/' !in id && s == Permalink(subreddit, id, tail)
  {
    subreddit, id, tail := Parsed(SUB, COMMENTS, s);
  }

  // What is read between two fixed texts and a slash, whatever the texts.
  lemma Parsed(first: string, second: string, s: string) returns (subreddit: string, id: string, tail: string)
    requires Starts(first, s)
    requires var t := s[|first|..];
             var u := t[Until(t)..];
             Starts(second, u) && Until(u[|second|..]) < |u[|second|..]|
    ensures var t := s[|first|..];
            var v := t[Until(t)..][|second|..];
            id == v[..Until(v)] && '/' !in subreddit && '/' !in id
    ensures s == first + (subreddit + (second + (id + (['/'] + tail))))
  {
    var t := s[|first|..];
    CutOff(first, s);
    var u := t[Until(t)..];
    subreddit := t[..Until(t)];
    assert t == subreddit + u;
    CutOff(second, u);
    id, tail := CutAtSlash(u[|second|..]);
  }

  lemma CutOff(prefix: string, s: string)
    requires Starts(prefix, s)
    ensures s == prefix + s[|prefix|..]
  {
  }

  lemma CutAtSlash(v: string) returns (id: string, tail: string)
    requires Until(v) < |v|
    ensures id == v[..Until(v)] && '/' !in id && v == id + (['/'] + tail)
  {
    id, tail := v[..Until(v)], v[Until(v) + 1..];
  }

  lemma PermalinkMatches(subreddit: string, id: string, tail: string)
    requires '/' !in subreddit && '/' !in id
    ensures ReadID(Permalink(subreddit, id, tail)) == Some(id)
  {
    var v := id + (['/'] + tail);
    StartsRest(SUB, subreddit + (COMMENTS + v));
    UntilRest(subreddit, COMMENTS + v);
    StartsRest(COMMENTS, v);
    UntilRest(id, ['/'] + tail);
  }

  // The id of the leftmost permalink, or nothing when there is none.
  lemma {:induction false} LeftmostID(s: string, p: nat, first: nat)
    requires p <= first <= |s|
    requires forall q :: p <= q < first ==> IDAt(s, q).None?
    requires IDAt(s, first).Some? || first == |s|
    ensures PostIDFrom(s, p) == if IDAt(s, first).Some? then IDAt(s, first).value else ""
    decreases first - p
  {
    if p < first {
      LeftmostID(s, p + 1, first);
    }
  }

  // ---------- ... and of the links themselves ----------

  function Slashes(s: string): (n: nat) {
    if s == [] then 0 else (if s[0] == '/' then 1 else 0) + Slashes(s[1..])
  }

  lemma {:induction false} SlashesConcat(a: string, b: string)
    ensures Slashes(a + b) == Slashes(a) + Slashes(b)
  {
    if a == [] {
      assert a + b == b;
    } else {
      SlashesConcat(a[1..], b);
      assert (a + b)[1..] == a[1..] + b;
    }
  }

  lemma {:induction false} NoSlashes(s: string)
    requires '/' !in s
    ensures Slashes(s) == 0
  {
    if s != [] {
      NoSlashes(s[1..]);
    }
  }

  lemma TwoSlashes(name: string)
    requires '/' !in name
    ensures Slashes(['/'] + (name + ['/'])) == 2
  {
    assert Slashes(['/']) == 1 + Slashes([]);
    NoSlashes(name);
    SlashesConcat(name, ['/']);
    SlashesConcat(['/'], name + ['/']);
  }

  lemma MarkSlashes()
    ensures Slashes(SUB) == 2 && Slashes(COMMENTS) == 2
  {
    TwoSlashes("r");
    assert SUB == ['/'] + ("r" + ['/']);
    TwoSlashes("comments");
    assert COMMENTS == ['/'] + ("comments" + ['/']);
  }

  lemma MatchNeedsSlashes(s: string)
    requires ReadID(s).Some?
    ensures Slashes(s) >= 5
  {
    var subreddit, id, tail := MatchIsPermalink(s);
    MarkSlashes();
    SlashesConcat(SUB, subreddit + (COMMENTS + (id + (['/'] + tail))));
    SlashesConcat(subreddit, COMMENTS + (id + (['/'] + tail)));
    SlashesConcat(COMMENTS, id + (['/'] + tail));
    SlashesConcat(id, ['/'] + tail);
    SlashesConcat(['/'], tail);
  }

  lemma MatchStart(s: string)
    requires ReadID(s).Some?
    ensures |s| >= 3 && s[0] == '/' && s[1] == 'r' && s[2] == '/'
  {
    assert s[..3][0] == SUB[0] && s[..3][1] == SUB[1] && s[..3][2] == SUB[2];
  }

  lemma HostHasNoMatch(rest: string, p: nat)
    requires p < |HOST|
    ensures IDAt(HOST + rest, p).None?
  {
    var s := HOST + rest;
    if IDAt(s, p).Some? {
      MatchStart(s[p..]);
      assert s[p] == s[p..][0] && s[p + 1] == s[p..][1] && s[p + 2] == s[p..][2];
      HostSlashes(rest, p);
    }
  }

  lemma HostSlashes(rest: string, p: nat)
    requires p < |HOST| && p + 2 < |HOST + rest|
    ensures var s := HOST + rest; !(s[p] == '/' && s[p + 1] == 'r' && s[p + 2] == '/')
  {
    var scheme, name := "apollo:", "reddit.com";
    assert '/' !in scheme && '/' !in name;
    assert p < 7 ==> (HOST + rest)[p] == scheme[p];
    assert p > 8 ==> (HOST + rest)[p] == name[p - 9];
    assert (HOST + rest)[8] == '/' && (HOST + rest)[10] == name[1];
  }

  // A link yields the id that its path starts with, if any.
  lemma LinkID(path: string)
    requires ReadID(path).Some?
    ensures PostIDFromContext(HOST + path) == ReadID(path).value
  {
    StartsRest(HOST, path);
    forall p | 0 <= p < |HOST| ensures IDAt(HOST + path, p).None? {
      HostHasNoMatch(path, p);
    }
    LeftmostID(HOST + path, 0, |HOST|);
  }

  lemma NoLinkID(path: string)
    requires Slashes(path) < 5
    ensures PostIDFromContext(HOST + path) == ""
  {
    var s := HOST + path;
    forall p | 0 <= p <= |s| ensures IDAt(s, p).None? {
      if p < |HOST| {
        HostHasNoMatch(path, p);
      } else {
        var k := p - |HOST|;
        assert path == path[..k] + path[k..] && s[p..] == path[k..];
        SlashesConcat(path[..k], path[k..]);
        if IDAt(s, p).Some? {
          MatchNeedsSlashes(path[k..]);
        }
      }
    }
    LeftmostID(s, 0, |s|);
  }

  lemma SlugStarts(rest: string)
    ensures SLUG + rest == ['/'] + (['_', '/'] + rest)
  {
  }

  // A comment link gives back the escaped post id.
  lemma CommentLinkID(subreddit: string, post: string, comment: string)
    ensures PostIDFromContext(CommentLink(subreddit, post, comment)) == Escape(post)
  {
    EscapeIsSegment(subreddit);
    EscapeIsSegment(post);
    var tail := ['_', '/'] + (Escape(comment) + CONTEXT);
    SlugStarts(Escape(comment) + CONTEXT);
    PermalinkMatches(Escape(subreddit), Escape(post), tail);
    LinkID(Permalink(Escape(subreddit), Escape(post), tail));
  }

  // A post link does not: nothing follows the id.
  lemma PostLinkID(subreddit: string, post: string)
    ensures PostIDFromContext(PostLink(subreddit, post)) == ""
  {
    var a, b := Escape(subreddit), Escape(post);
    EscapeIsSegment(subreddit);
    EscapeIsSegment(post);
    MarkSlashes();
    NoSlashes(a);
    NoSlashes(b);
    SlashesConcat(SUB, a + (COMMENTS + b));
    SlashesConcat(a, COMMENTS + b);
    SlashesConcat(COMMENTS, b);
    NoLinkID(SUB + (a + (COMMENTS + b)));
  }

  // ---------- Splitting an id ----------

  // strings.Split
  function Split(s: string, c: char): (parts: seq<string>)
    ensures |parts| >= 1
  {
    if s == [] then [[]]
    else if s[0] == c then [[]] + Split(s[1..], c)
    else
      var parts := Split(s[1..], c);
      [[s[0]] + parts[0]] + parts[1..]
  }

  function SplitID(id: string): (parts: (string, string)) {
    var parts := Split(id, '_');
    if |parts| == 2 then (parts[0], parts[1]) else ("", "")
  }

  lemma {:induction false} SplitWhole(s: string, c: char)
    requires c !in s
    ensures Split(s, c) == [s]
  {
    if s != [] {
      SplitWhole(s[1..], c);
      assert [s[0]] + s[1..] == s;
    }
  }

  lemma {:induction false} SplitAt(a: string, c: char, b: string)
    requires c !in a
    ensures Split(a + ([c] + b), c) == [a] + Split(b, c)
  {
    var s := a + ([c] + b);
    if a == [] {
      assert s == [c] + b && s[1..] == b;
    } else {
      SplitAt(a[1..], c, b);
      assert s[1..] == a[1..] + ([c] + b);
      assert [a[0]] + a[1..] == a;
    }
  }

  lemma {:induction false} FirstOf(s: string, c: char) returns (a: string, b: string)
    requires c in s
    ensures s == a + ([c] + b) && c !in a
  {
    if s[0] == c {
      a, b := [], s[1..];
    } else {
      a, b := FirstOf(s[1..], c);
      a := [s[0]] + a;
    }
  }

  // An id splits into kind and rest exactly when it holds a single underscore.
  lemma SplitIDExactly(id: string, a: string, b: string)
    requires (a, b) != ("", "")
    ensures SplitID(id) == (a, b) <==> id == a + (['_'] + b) && '_' !in a && '_' !in b
  {
    assert (a + (['_'] + b))[|a|] == '_';
    if '_' !in id {
      SplitWhole(id, '_');
    } else {
      var x, y := FirstOf(id, '_');
      SplitAt(x, '_', y);
      if '_' in y {
        var x', y' := FirstOf(y, '_');
        SplitAt(x', '_', y');
      } else {
        SplitWhole(y, '_');
      }
      if '_' !in a && '_' !in b && id == a + (['_'] + b) {
        SplitAt(a, '_', b);
        SplitWhole(b, '_');
      }
    }
  }

  // ---------- The message's payload ----------

  datatype Message = Message(id: string, kind: string, form: string, subreddit: string, context: string)

  function ReplyKind(msg: Message): (kind: Option<Kind>) {
    if msg.form == "username_mention" then Some(Username)
    else if msg.form == "post_reply" then Some(PostReply)
    else if msg.form == "comment_reply" then Some(CommentReply)
    else None
  }

  predicate Reply(msg: Message) {
    msg.kind == "t1" && ReplyKind(msg).Some?
  }

  // The custom keys the link is made of.
  function MessageCustoms(msg: Message): (customs: Customs) {
    if Reply(msg) then Customs(ReplyKind(msg).value, PostIDFromContext(msg.context), msg.subreddit, msg.id)
    else if msg.kind == "t4" then Customs(PrivateMessage, "", msg.subreddit, msg.id)
    else Customs(Untyped, "", msg.subreddit, "")
  }

  lemma PermalinkPostID(subreddit: string, post: string, tail: string)
    requires '/' !in subreddit && '/' !in post
    ensures PostIDFromContext(Permalink(subreddit, post, tail)) == post
  {
    PermalinkMatches(subreddit, post, tail);
    var s := Permalink(subreddit, post, tail);
    assert s[0..] == s;
  }

  // What a message's notification opens.
  function Opens(msg: Message): (target: Option<Target>) {
    ReadLink(ClickURL(MessageCustoms(msg)))
  }

  lemma OpensPost(msg: Message, post: string)
    requires Bytes(msg.subreddit) && Bytes(msg.id) && Bytes(post) && PostIDFromContext(msg.context) == post
    ensures Opens(msg)
         == Some(if !Reply(msg) || post == "" || msg.subreddit == "" then ToInbox
                 else if msg.id == "" then ToPost(msg.subreddit, post)
                 else ToComment(msg.subreddit, post, msg.id))
  {
    LinkRoundTrip(MessageCustoms(msg));
  }

  // The three kinds of message that reply to the account or mention it.
  predicate RepliesOrMentions(msg: Message) {
    msg.kind == "t1" && (msg.form == "username_mention" || msg.form == "post_reply" || msg.form == "comment_reply")
  }

  lemma PermalinkText(subreddit: string, post: string, tail: string)
    ensures Permalink(subreddit, post, tail) == "/r/" + subreddit + "/comments/" + post + "/" + tail
  {
    Grouped(SUB, subreddit, COMMENTS, post, ['/'], tail);
  }

  lemma Grouped(a: string, b: string, c: string, d: string, e: string, f: string)
    ensures a + (b + (c + (d + (e + f)))) == a + b + c + d + e + f
  {
  }

  // A reply or mention whose context is a permalink opens its own comment, in the post
  // the permalink names; a private message, or anything else, opens the inbox.
  lemma MessageOpens(msg: Message, subreddit: string, post: string, tail: string)
    requires Bytes(msg.subreddit) && Bytes(msg.id) && Bytes(post)
    requires msg.context == "/r/" + subreddit + "/comments/" + post + "/" + tail
    requires '/' !in subreddit && '/' !in post
    ensures Opens(msg)
         == Some(if !RepliesOrMentions(msg) || post == "" || msg.subreddit == "" then ToInbox
                 else if msg.id == "" then ToPost(msg.subreddit, post)
                 else ToComment(msg.subreddit, post, msg.id))
  {
    PermalinkText(subreddit, post, tail);
    PermalinkPostID(subreddit, post, tail);
    OpensPost(msg, post);
    assert Reply(msg) <==> RepliesOrMentions(msg);
  }

  // Without a permalink in its context every message opens the inbox.
  lemma NoPermalinkOpensInbox(msg: Message)
    requires forall p :: 0 <= p <= |msg.context| ==> IDAt(msg.context, p).None?
    ensures ClickURL(MessageCustoms(msg)) == INBOX
  {
    LeftmostID(msg.context, 0, |msg.context|);
  }
}
