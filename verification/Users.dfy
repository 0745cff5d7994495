// The user worker: every listed post of a watched user is offered to every watcher of
// that user, and each alert moves the watcher's `last_notified_at` past the post.

module Users {
  import opened Wrappers
  import Keywords

  datatype Post = Post(id: string, created: int, subreddit: string, isPrivate: bool)

  // The watcher as the job read it; it is not read again.
  datatype Watcher = Watcher(id: nat, created: int, notified: int, subreddit: string)

  datatype Row = Row(user: nat, created: int, notified: int, subreddit: string, hits: nat)

  type Rows = map<nat, Row>

  datatype Alert = Alert(watcher: nat, post: string)

  // When the n-th increment of a job takes place.
  type Clock = nat -> int

  predicate Due(lower: Keywords.Lowering, w: Watcher, p: Post) {
    && !p.isPrivate
    && w.created <= p.created
    && w.notified <= p.created
    && (w.subreddit == "" || Keywords.Lower(lower, p.subreddit) == w.subreddit)
  }

  // ---------- The alerts of a job, and what they leave in the rows ----------

  function AlertsFor(lower: Keywords.Lowering, p: Post, watchers: seq<Watcher>): (alerts: seq<Alert>) {
    if watchers == [] then []
    else
      var n := |watchers| - 1;
      AlertsFor(lower, p, watchers[..n]) + if Due(lower, watchers[n], p) then [Alert(watchers[n].id, p.id)] else []
  }

  function Alerts(lower: Keywords.Lowering, posts: seq<Post>, watchers: seq<Watcher>): (alerts: seq<Alert>) {
    if posts == [] then []
    else
      var n := |posts| - 1;
      Alerts(lower, posts[..n], watchers) + AlertsFor(lower, posts[n], watchers)
  }

  // The alerts sent when only `left` increments succeed: an error ends the job.
  function Told(alerts: seq<Alert>, left: nat): (told: seq<Alert>) {
    if left < |alerts| then alerts[..left] else alerts
  }

  lemma ToldIsPrefix(alerts: seq<Alert>, left: nat)
    ensures var told := Told(alerts, left);
            told <= alerts && |told| <= left && (|told| == left || told == alerts)
  {
  }

  // Counting a hit of a missing row changes nothing and is no error.
  function Touch(rows: Rows, id: nat, now: int): (after: Rows) {
    if id in rows then rows[id := rows[id].(notified := now, hits := rows[id].hits + 1)] else rows
  }

  function Touched(rows: Rows, clock: Clock, told: seq<Alert>): (after: Rows) {
    if told == [] then rows
    else Touch(Touched(rows, clock, told[..|told| - 1]), told[|told| - 1].watcher, clock(|told| - 1))
  }

  function WithoutUser(rows: Rows, user: nat): (after: Rows) {
    map id | id in rows && rows[id].user != user :: rows[id]
  }

  // ---------- What a job tells ----------

  ghost predicate IsDue(lower: Keywords.Lowering, a: Alert, posts: seq<Post>, watchers: seq<Watcher>) {
    exists p, w :: p in posts && w in watchers && a == Alert(w.id, p.id) && Due(lower, w, p)
  }

  lemma {:induction false} AlertsForMembers(lower: Keywords.Lowering, p: Post, watchers: seq<Watcher>)
    ensures forall a :: a in AlertsFor(lower, p, watchers) <==>
              exists w :: w in watchers && a == Alert(w.id, p.id) && Due(lower, w, p)
  {
    if watchers != [] {
      var n := |watchers| - 1;
      AlertsForMembers(lower, p, watchers[..n]);
      assert watchers == watchers[..n] + [watchers[n]];
    }
  }

  // An uninterrupted job tells exactly the due pairs of a listed post and a watcher.
  lemma {:induction false} AlertsExactly(lower: Keywords.Lowering, posts: seq<Post>, watchers: seq<Watcher>)
    ensures forall a :: a in Alerts(lower, posts, watchers) <==> IsDue(lower, a, posts, watchers)
  {
    if posts != [] {
      var n := |posts| - 1;
      AlertsExactly(lower, posts[..n], watchers);
      AlertsForMembers(lower, posts[n], watchers);
      assert posts == posts[..n] + [posts[n]];
      forall a | IsDue(lower, a, posts[..n], watchers) ensures IsDue(lower, a, posts, watchers) {
        var p, w :| p in posts[..n] && w in watchers && a == Alert(w.id, p.id) && Due(lower, w, p);
        assert p in posts;
      }
    }
  }

  ghost predicate DistinctIds(watchers: seq<Watcher>) {
    forall i, j :: 0 <= i < j < |watchers| ==> watchers[i].id != watchers[j].id
  }

  ghost predicate DistinctPosts(posts: seq<Post>) {
    forall i, j :: 0 <= i < j < |posts| ==> posts[i].id != posts[j].id
  }

  ghost predicate Distinct(alerts: seq<Alert>) {
    forall i, j :: 0 <= i < j < |alerts| ==> alerts[i] != alerts[j]
  }

  lemma {:induction false} AlertsForDistinct(lower: Keywords.Lowering, p: Post, watchers: seq<Watcher>)
    requires DistinctIds(watchers)
    ensures Distinct(AlertsFor(lower, p, watchers))
  {
    if watchers != [] {
      var n := |watchers| - 1;
      var before := AlertsFor(lower, p, watchers[..n]);
      AlertsForDistinct(lower, p, watchers[..n]);
      AlertsForMembers(lower, p, watchers[..n]);
      forall i | 0 <= i < |before| ensures before[i] != Alert(watchers[n].id, p.id) {
        assert before[i] in before;
      }
    }
  }

  lemma {:induction false} AlertsDistinct(lower: Keywords.Lowering, posts: seq<Post>, watchers: seq<Watcher>)
    requires DistinctPosts(posts) && DistinctIds(watchers)
    ensures Distinct(Alerts(lower, posts, watchers))
  {
    if posts != [] {
      var n := |posts| - 1;
      var before, more := Alerts(lower, posts[..n], watchers), AlertsFor(lower, posts[n], watchers);
      AlertsDistinct(lower, posts[..n], watchers);
      AlertsExactly(lower, posts[..n], watchers);
      AlertsForDistinct(lower, posts[n], watchers);
      AlertsForMembers(lower, posts[n], watchers);
      forall i, j | 0 <= i < |before| && 0 <= j < |more| ensures before[i] != more[j] {
        assert before[i] in before && more[j] in more;
      }
    }
  }

  // ---------- In what order ----------

  // The watchers a post is due to, by position.
  lemma {:induction false} ForInOrder(lower: Keywords.Lowering, p: Post, watchers: seq<Watcher>) returns (js: seq<nat>)
    ensures |js| == |AlertsFor(lower, p, watchers)| && (forall i, j :: 0 <= i < j < |js| ==> js[i] < js[j])
    ensures forall k :: 0 <= k < |js| ==>
              && js[k] < |watchers| && Due(lower, watchers[js[k]], p)
              && AlertsFor(lower, p, watchers)[k] == Alert(watchers[js[k]].id, p.id)
    ensures forall j :: 0 <= j < |watchers| && Due(lower, watchers[j], p) ==> j in js
  {
    js := [];
    if watchers != [] {
      var n := |watchers| - 1;
      js := ForInOrder(lower, p, watchers[..n]);
      if Due(lower, watchers[n], p) {
        js := js + [n];
      }
    }
  }

  ghost predicate DueAt(lower: Keywords.Lowering, posts: seq<Post>, watchers: seq<Watcher>, c: Cell) {
    c.0 < |posts| && c.1 < |watchers| && Due(lower, watchers[c.1], posts[c.0])
  }

  // The alerts are those of all due positions, in the order of posts and then of watchers.
  ghost predicate InOrder(lower: Keywords.Lowering, posts: seq<Post>, watchers: seq<Watcher>, alerts: seq<Alert>,
                          at: seq<Cell>) {
    && |at| == |alerts| && Rising(at)
    && (forall k :: 0 <= k < |at| ==>
          DueAt(lower, posts, watchers, at[k]) && alerts[k] == Alert(watchers[at[k].1].id, posts[at[k].0].id))
    && (forall c :: DueAt(lower, posts, watchers, c) ==> c in at)
  }

  lemma InOrderOn(lower: Keywords.Lowering, posts: seq<Post>, p: Post, watchers: seq<Watcher>, alerts: seq<Alert>,
                  at: seq<Cell>, more: seq<Alert>, js: seq<nat>)
    requires InOrder(lower, posts, watchers, alerts, at)
    requires |js| == |more| && forall i, j :: 0 <= i < j < |js| ==> js[i] < js[j]
    requires forall k :: 0 <= k < |js| ==>
               js[k] < |watchers| && Due(lower, watchers[js[k]], p) && more[k] == Alert(watchers[js[k]].id, p.id)
    requires forall j :: 0 <= j < |watchers| && Due(lower, watchers[j], p) ==> j in js
    ensures InOrder(lower, posts + [p], watchers, alerts + more, at + RowCells(|posts|, js))
  {
    RisingOn(at, |posts|, js);
    forall c | DueAt(lower, posts + [p], watchers, c) ensures c in at + RowCells(|posts|, js) {
      if c.0 == |posts| {
        CellInRow(|posts|, js, c.1);
      } else {
        assert DueAt(lower, posts, watchers, c);
      }
    }
  }

  lemma CellInRow(row: nat, js: seq<nat>, j: nat)
    requires j in js
    ensures (row, j) in RowCells(row, js)
  {
    var k :| 0 <= k < |js| && js[k] == j;
    assert RowCells(row, js)[k] == (row, j);
  }

  lemma {:induction false} AlertsInOrder(lower: Keywords.Lowering, posts: seq<Post>, watchers: seq<Watcher>)
    returns (at: seq<Cell>)
    ensures InOrder(lower, posts, watchers, Alerts(lower, posts, watchers), at)
  {
    at := [];
    if posts != [] {
      var n := |posts| - 1;
      at := AlertsInOrder(lower, posts[..n], watchers);
      var js := ForInOrder(lower, posts[n], watchers);
      InOrderOn(lower, posts[..n], posts[n], watchers, Alerts(lower, posts[..n], watchers), at,
                AlertsFor(lower, posts[n], watchers), js);
      assert posts == posts[..n] + [posts[n]];
      at := at + RowCells(n, js);
    }
  }

  // ---------- What a job leaves ----------

  function HitsOf(told: seq<Alert>, id: nat): (n: nat) {
    if told == [] then 0
    else HitsOf(told[..|told| - 1], id) + if told[|told| - 1].watcher == id then 1 else 0
  }

  // The n-th alert is the row's last.
  ghost predicate LastFor(told: seq<Alert>, id: nat, n: nat) {
    n < |told| && told[n].watcher == id && forall m :: n < m < |told| ==> told[m].watcher != id
  }

  // A row changes only by its own alerts: one hit for each, and the time of the last.
  lemma {:induction false} TouchedRows(rows: Rows, clock: Clock, told: seq<Alert>)
    ensures var after := Touched(rows, clock, told);
            && after.Keys == rows.Keys
            && forall id <- rows ::
                 && after[id] == rows[id].(notified := after[id].notified, hits := rows[id].hits + HitsOf(told, id))
                 && (if HitsOf(told, id) == 0 then after[id].notified == rows[id].notified
                     else exists n: nat :: LastFor(told, id, n) && after[id].notified == clock(n))
  {
    if told != [] {
      var m := |told| - 1;
      TouchedRows(rows, clock, told[..m]);
      var before, after := Touched(rows, clock, told[..m]), Touched(rows, clock, told);
      forall id | id in rows
        ensures if HitsOf(told, id) == 0 then after[id].notified == rows[id].notified
                else exists n: nat :: LastFor(told, id, n) && after[id].notified == clock(n)
      {
        if told[m].watcher == id {
          assert LastFor(told, id, m) && after[id].notified == clock(m);
        } else if HitsOf(told[..m], id) != 0 {
          var n: nat :| LastFor(told[..m], id, n) && before[id].notified == clock(n);
          assert LastFor(told, id, n);
        }
      }
    }
  }

  // ---------- The consumer ----------

  // How far the removal of a user who takes no followers gets.
  datatype Removal = Refused | WatchersOnly | Complete

  class UsersConsumer {
    const lower: Keywords.Lowering
    var rows: Rows
    var sends: seq<Alert>             // every push attempt, in order

    constructor (lower: Keywords.Lowering, rows: Rows)
      ensures this.lower == lower && this.rows == rows && sends == []
    {
      this.lower, this.rows, sends := lower, rows, [];
    }

    // Who is to be told of one post.
    method Recipients(p: Post, watchers: seq<Watcher>) returns (notifs: seq<Watcher>)
      requires !p.isPrivate
      ensures Names(notifs, p) == AlertsFor(lower, p, watchers)
    {
      notifs := [];
      var i := 0;
      while i < |watchers|
        invariant 0 <= i <= |watchers|
        invariant Names(notifs, p) == AlertsFor(lower, p, watchers[..i])
      {
        var w := watchers[i];
        AlertsForNext(lower, p, watchers, i);
        i := i + 1;
        if w.created > p.created || w.notified > p.created {
          continue;
        }
        if w.subreddit != "" && Keywords.Lower(lower, p.subreddit) != w.subreddit {
          continue;
        }
        assert (notifs + [w])[..|notifs|] == notifs;
        notifs := notifs + [w];
      }
      assert watchers[..i] == watchers;
    }

    // What the job has told so far, from the rows and sends it started with.
    ghost predicate Done(rows0: Rows, sends0: seq<Alert>, clock: Clock, told: seq<Alert>)
      reads this
    {
      rows == Touched(rows0, clock, told) && sends == sends0 + told
    }

    // Counts a hit and sends, after `made` others.
    method Tell(a: Alert, clock: Clock, made: nat, ghost rows0: Rows, ghost sends0: seq<Alert>, ghost told: seq<Alert>)
      requires made == |told| && Done(rows0, sends0, clock, told)
      modifies this
      ensures Done(rows0, sends0, clock, told + [a])
    {
      TouchedMore(rows0, clock, told, a);
      rows := Touch(rows, a.watcher, clock(made));
      sends := sends + [a];
    }

    // One recipient after the other.
    method Notify(p: Post, notifs: seq<Watcher>, clock: Clock, made: nat, limit: nat,
                  ghost rows0: Rows, ghost sends0: seq<Alert>, ghost done: seq<Alert>)
      returns (failed: bool)
      requires made == |done| <= limit && Done(rows0, sends0, clock, done)
      modifies this
      ensures Done(rows0, sends0, clock, done + Told(Names(notifs, p), limit - made))
      ensures failed <==> limit - made < |notifs|
    {
      failed := false;
      ghost var names, told := Names(notifs, p), done;
      var i := 0;
      while i < |notifs|
        invariant 0 <= i <= |notifs| && made + i <= limit
        invariant told == done + names[..i] && Done(rows0, sends0, clock, told)
      {
        if made + i == limit {
          failed := true;
          return;
        }
        NamesAt(notifs, p, i);
        Tell(Alert(notifs[i].id, p.id), clock, made + i, rows0, sends0, told);
        told := told + [names[i]];
        i := i + 1;
      }
      assert names[..i] == names;
    }

    method NotifyPost(p: Post, watchers: seq<Watcher>, clock: Clock, made: nat, limit: nat,
                      ghost rows0: Rows, ghost sends0: seq<Alert>, ghost done: seq<Alert>)
      returns (made': nat, failed: bool)
      requires made == |done| <= limit && Done(rows0, sends0, clock, done)
      modifies this
      ensures Done(rows0, sends0, clock, done + Told(AlertsFor(lower, p, watchers), limit - made))
      ensures failed <==> limit - made < |AlertsFor(lower, p, watchers)|
      ensures !failed ==> made' == made + |AlertsFor(lower, p, watchers)|
    {
      if p.isPrivate {
        PrivateTellsNobody(lower, p, watchers);
        assert done + [] == done;
        return made, false;
      }
      var notifs := Recipients(p, watchers);
      failed := Notify(p, notifs, clock, made, limit, rows0, sends0, done);
      made' := made + |notifs|;
    }

    // One post after the i before it, which all were told of.
    method NotifyNext(posts: seq<Post>, i: nat, watchers: seq<Watcher>, clock: Clock, made: nat, limit: nat,
                      ghost rows0: Rows, ghost sends0: seq<Alert>)
      returns (made': nat, failed: bool)
      requires i < |posts| && made == |Alerts(lower, posts[..i], watchers)| <= limit
      requires Done(rows0, sends0, clock, Alerts(lower, posts[..i], watchers))
      modifies this
      ensures failed ==> Done(rows0, sends0, clock, Told(Alerts(lower, posts, watchers), limit))
      ensures !failed ==> made' == |Alerts(lower, posts[..i + 1], watchers)| <= limit
      ensures !failed ==> Done(rows0, sends0, clock, Alerts(lower, posts[..i + 1], watchers))
    {
      ghost var done := Alerts(lower, posts[..i], watchers);
      made', failed := NotifyPost(posts[i], watchers, clock, made, limit, rows0, sends0, done);
      if failed {
        ToldEarly(lower, posts, i, watchers, limit);
      } else {
        AlertsOn(lower, posts, i, watchers);
      }
    }

    method NotifyPosts(posts: seq<Post>, watchers: seq<Watcher>, clock: Clock, limit: nat)
      modifies this
      ensures Done(old(rows), old(sends), clock, Told(Alerts(lower, posts, watchers), limit))
    {
      var made := 0;
      var i := 0;
      ghost var rows0, sends0 := rows, sends;
      while i < |posts|
        invariant 0 <= i <= |posts| && made == |Alerts(lower, posts[..i], watchers)| <= limit
        invariant Done(rows0, sends0, clock, Alerts(lower, posts[..i], watchers))
      {
        var made', failed := NotifyNext(posts, i, watchers, clock, made, limit, rows0, sends0);
        if failed {
          return;
        }
        made := made';
        i := i + 1;
      }
      assert posts[..i] == posts;
    }

    // The whole job. A user found to take no followers loses the rows of every watcher,
    // but the watchers read before are still told of this page.
    method Consume(user: nat, watchers: seq<Watcher>, accepts: Option<bool>, removal: Removal, posts: Option<seq<Post>>,
                   clock: Clock, limit: nat)
      modifies this
      ensures watchers == [] || accepts.None? || (accepts == Some(false) && removal == Refused) ==>
                rows == old(rows) && sends == old(sends)
      ensures watchers != [] && accepts == Some(false) && removal == WatchersOnly ==>
                rows == WithoutUser(old(rows), user) && sends == old(sends)
      ensures watchers != [] && (accepts == Some(true) || (accepts == Some(false) && removal == Complete)) ==>
                var told := if posts.None? then [] else Told(Alerts(lower, posts.value, watchers), limit);
                var kept := if accepts.value then old(rows) else WithoutUser(old(rows), user);
                Done(kept, old(sends), clock, told)
    {
      if |watchers| == 0 || accepts.None? {
        return;
      }
      if !accepts.value {
        if removal == Refused {
          return;
        }
        rows := WithoutUser(rows, user);
        if removal == WatchersOnly {
          return;
        }
      }
      if posts.Some? {
        NotifyPosts(posts.value, watchers, clock, limit);
      }
    }
  }

  lemma TouchedNext(rows: Rows, clock: Clock, told: seq<Alert>, i: nat)
    requires i < |told|
    ensures Touched(rows, clock, told[..i + 1]) == Touch(Touched(rows, clock, told[..i]), told[i].watcher, clock(i))
  {
    assert told[..i + 1][..i] == told[..i];
  }

  lemma TouchedMore(rows: Rows, clock: Clock, told: seq<Alert>, a: Alert)
    ensures Touched(rows, clock, told + [a]) == Touch(Touched(rows, clock, told), a.watcher, clock(|told|))
  {
    assert (told + [a])[..|told|] == told;
  }

  lemma AlertsForNext(lower: Keywords.Lowering, p: Post, watchers: seq<Watcher>, i: nat)
    requires i < |watchers|
    ensures AlertsFor(lower, p, watchers[..i + 1])
         == AlertsFor(lower, p, watchers[..i])
            + if Due(lower, watchers[i], p) then [Alert(watchers[i].id, p.id)] else []
  {
    assert watchers[..i + 1][..i] == watchers[..i];
  }

  lemma AlertsOn(lower: Keywords.Lowering, posts: seq<Post>, i: nat, watchers: seq<Watcher>)
    requires i < |posts|
    ensures Alerts(lower, posts[..i + 1], watchers)
         == Alerts(lower, posts[..i], watchers) + AlertsFor(lower, posts[i], watchers)
  {
    assert posts[..i + 1][..i] == posts[..i];
  }

  ghost function Names(notifs: seq<Watcher>, p: Post): (alerts: seq<Alert>)
    ensures |alerts| == |notifs|
  {
    if notifs == [] then [] else Names(notifs[..|notifs| - 1], p) + [Alert(notifs[|notifs| - 1].id, p.id)]
  }

  lemma {:induction false} NamesAt(notifs: seq<Watcher>, p: Post, i: nat)
    requires i < |notifs|
    ensures Names(notifs, p)[i] == Alert(notifs[i].id, p.id)
    decreases |notifs|
  {
    if i < |notifs| - 1 {
      NamesAt(notifs[..|notifs| - 1], p, i);
    }
  }

  lemma {:induction false} PrivateTellsNobody(lower: Keywords.Lowering, p: Post, watchers: seq<Watcher>)
    requires p.isPrivate
    ensures AlertsFor(lower, p, watchers) == []
  {
    if watchers != [] {
      PrivateTellsNobody(lower, p, watchers[..|watchers| - 1]);
    }
  }

  lemma {:induction false} AlertsPrefix(lower: Keywords.Lowering, posts: seq<Post>, i: nat, watchers: seq<Watcher>)
    requires i <= |posts|
    ensures Alerts(lower, posts[..i], watchers) <= Alerts(lower, posts, watchers)
    decreases |posts|
  {
    if i == |posts| {
      assert posts[..i] == posts;
    } else {
      var n := |posts| - 1;
      assert posts[..n][..i] == posts[..i];
      AlertsPrefix(lower, posts[..n], i, watchers);
    }
  }

  // A job that fails at post i has told what it would have told, cut short.
  lemma ToldEarly(lower: Keywords.Lowering, posts: seq<Post>, i: nat, watchers: seq<Watcher>, limit: nat)
    requires i < |posts|
    requires var done, more := Alerts(lower, posts[..i], watchers), AlertsFor(lower, posts[i], watchers);
             |done| <= limit < |done| + |more|
    ensures var done, more := Alerts(lower, posts[..i], watchers), AlertsFor(lower, posts[i], watchers);
            Told(Alerts(lower, posts, watchers), limit) == done + Told(more, limit - |done|)
  {
    AlertsOn(lower, posts, i, watchers);
    AlertsPrefix(lower, posts, i + 1, watchers);
  }
}
