// The Live Activity worker: which comment of a thread a push shows, and what one job
// does to the activity's row.

module LiveActivities {
  import opened Wrappers
  import opened Collection
  import opened Median
  import Inbox

  const MINUTE := 60
  const CHECK_INTERVAL := 30
  const DURATION := 75 * MINUTE
  const GRACE := 10 * MINUTE

  // ---------- The comment shown ----------

  // The three windows, each wider than the one before.
  function Window(k: nat): (seconds: int) {
    if k == 0 then CHECK_INTERVAL else if k == 1 then CHECK_INTERVAL * 2 else CHECK_INTERVAL * 4
  }

  function After(cutoff: int): (f: Post -> bool) {
    (c: Post) => c.created > cutoff
  }

  // The comments in the first window, from window k on, that holds any.
  function Widened(comments: seq<Post>, now: int, k: nat): (candidates: seq<Post>)
    requires k <= 3
    decreases 3 - k
  {
    if k == 3 then []
    else
      var near := Filter(comments, After(now - Window(k)));
      if near != [] then near else Widened(comments, now, k + 1)
  }

  function Candidates(comments: seq<Post>, now: int): (candidates: seq<Post>) {
    Widened(comments, now, 0)
  }

  ghost predicate NoneWithin(comments: seq<Post>, now: int, seconds: int) {
    forall c <- comments :: c.created <= now - seconds
  }

  // The comments of the given window, no narrower one of which holds any.
  ghost predicate Nearest(comments: seq<Post>, now: int, candidates: seq<Post>, windows: seq<int>, j: nat) {
    && j < |windows|
    && (forall i :: 0 <= i < j ==> NoneWithin(comments, now, windows[i]))
    && forall c :: c in candidates <==> c in comments && c.created > now - windows[j]
  }

  lemma {:induction false} WidenedExactly(comments: seq<Post>, now: int, k: nat, windows: seq<int>) returns (j: nat)
    requires k <= 3 && |windows| == 3 && forall i :: 0 <= i < 3 ==> windows[i] == Window(i)
    requires forall i :: 0 <= i < k ==> NoneWithin(comments, now, windows[i])
    ensures var candidates := Widened(comments, now, k);
            if candidates == [] then forall i :: 0 <= i < 3 ==> NoneWithin(comments, now, windows[i])
            else Nearest(comments, now, candidates, windows, j)
    decreases 3 - k
  {
    j := k;
    if k < 3 {
      var near := Filter(comments, After(now - Window(k)));
      FilterMembers(comments, After(now - Window(k)));
      if near == [] {
        forall c | c in comments ensures c.created <= now - Window(k) {
          assert c !in near;
        }
        j := WidenedExactly(comments, now, k + 1, windows);
      }
    }
  }

  // The candidates are exactly the comments newer than the smallest of the three windows,
  // of 30, 60 and 120 seconds, that holds any, and there are none when the widest is empty.
  lemma CandidatesExactly(comments: seq<Post>, now: int) returns (j: nat)
    ensures var candidates := Candidates(comments, now);
            if candidates == [] then NoneWithin(comments, now, 120)
            else Nearest(comments, now, candidates, [30, 60, 120], j)
  {
    j := WidenedExactly(comments, now, 0, [30, 60, 120]);
    assert [30, 60, 120][2] == 120;
  }

  method SelectCandidates(comments: seq<Post>, now: int) returns (candidates: seq<Post>)
    ensures candidates == Candidates(comments, now)
  {
    candidates := [];
    var cutoffs := [now - CHECK_INTERVAL, now - CHECK_INTERVAL * 2, now - CHECK_INTERVAL * 4];
    var k := 0;
    while k < 3
      invariant 0 <= k <= 3 && candidates == []
      invariant Widened(comments, now, k) == Candidates(comments, now)
    {
      var i := 0;
      while i < |comments|
        invariant 0 <= i <= |comments|
        invariant candidates == Filter(comments[..i], After(cutoffs[k]))
      {
        assert comments[..i + 1][..i] == comments[..i];
        if comments[i].created > cutoffs[k] {
          candidates := candidates + [comments[i]];
        }
        i := i + 1;
      }
      assert comments[..i] == comments;
      if |candidates| > 0 {
        return;
      }
      k := k + 1;
    }
  }

  // A comment of maximal score, or none when there are no candidates. Which one of
  // several is left open, as an unstable sort leaves it.
  ghost predicate Best(candidates: seq<Post>, comment: Option<Post>) {
    if candidates == [] then comment == None
    else comment.Some? && comment.value in candidates && forall c <- candidates :: c.score <= comment.value.score
  }

  method PickBest(candidates: seq<Post>) returns (comment: Option<Post>)
    ensures comment.Some? <==> candidates != []
    ensures comment.Some? ==> comment.value in candidates
    ensures comment.Some? ==> forall c <- candidates :: c.score <= comment.value.score
  {
    var children := new Post[|candidates|](i requires 0 <= i < |candidates| => candidates[i]);
    assert children[..] == candidates;
    SortByScore(children);
    SortedIsStable(candidates);
    if |candidates| == 0 {
      return None;
    }
    ghost var sorted := Sorted(candidates);
    assert children[0] == sorted[0] && sorted[0] in candidates;
    forall c | c in candidates ensures c.score <= sorted[0].score {
      assert c in sorted;
    }
    return Some(children[0]);
  }

  // ---------- The rows ----------

  datatype Row = Row(
    account: string, thread: string, subreddit: string, development: bool, nextCheck: int, expires: int)

  class LiveActivityTable {
    var rows: map<string, Row>        // by device token

    constructor ()
      ensures rows == map[]
    {
      rows := map[];
    }

    // Registering again only renews the times: the row keeps its thread and account.
    method Create(token: string, account: string, thread: string, subreddit: string, development: bool, now: int)
      modifies this
      ensures rows.Keys == old(rows).Keys + {token}
      ensures rows[token]
              == if token in old(rows) then old(rows)[token].(nextCheck := now, expires := now + 75 * 60)
                 else Row(account, thread, subreddit, development, now, now + 75 * 60)
      ensures forall t <- old(rows) :: t != token ==> rows[t] == old(rows)[t]
    {
      if token in rows {
        rows := rows[token := rows[token].(nextCheck := now, expires := now + DURATION)];
      } else {
        rows := rows[token := Row(account, thread, subreddit, development, now, now + DURATION)];
      }
    }

    method RemoveStale(before: int)
      modifies this
      ensures forall t :: t in rows <==> t in old(rows) && old(rows)[t].expires >= before
      ensures forall t <- rows :: rows[t] == old(rows)[t]
    {
      rows := map t | t in rows && rows[t].expires >= before :: rows[t];
    }

    method Delete(token: string)
      modifies this
      ensures rows == old(rows) - {token}
    {
      rows := rows - {token};
    }
  }

  // ---------- One job ----------

  datatype Tokens = Current | Renewed | Revoked | Failed

  datatype Listing = Thread(comments: seq<Post>) | ThreadRevoked | ThreadFailed

  datatype Push = Push(token: string, final: bool, comment: Option<Post>, expires: int)

  // What a job meets on its way: whether APNs is configured, the account row if there is
  // one, the tokens, and the thread.
  datatype Setting = Setting(apns: bool, account: Option<Inbox.Account>, tokens: Tokens, thread: Listing)

  predicate Expired(row: Row, now: int) {
    row.expires < now
  }

  // Nothing to show, and the activity still has time to run.
  predicate Quiet(row: Row, comments: seq<Post>, now: int) {
    row.expires > now && Candidates(comments, now) == []
  }

  predicate Reads(env: Setting) {
    env.apns && env.account.Some? && (env.tokens.Current? || env.tokens.Renewed?) && env.thread.Thread?
  }

  predicate Attempts(env: Setting, row: Row, now: int) {
    Reads(env) && !Quiet(row, env.thread.comments, now)
  }

  // The row is dropped when it can no longer be served, when the push fails, and with
  // the final push.
  predicate Deletes(env: Setting, row: Row, now: int, sent: bool) {
    if !env.apns || env.account.None? then true
    else if env.tokens.Revoked? then true
    else if env.tokens.Failed? then false
    else if env.thread.ThreadRevoked? then true
    else Attempts(env, row, now) && (!sent || Expired(row, now))
  }

  // A job that reads the thread pushes exactly when the activity has no time left, or a
  // comment is less than two minutes old; no other job pushes.
  lemma PushesExactly(env: Setting, row: Row, now: int)
    ensures Attempts(env, row, now) <==>
              && env.apns && env.account.Some? && (env.tokens == Current || env.tokens == Renewed) && env.thread.Thread?
              && (row.expires <= now || exists c <- env.thread.comments :: c.created > now - 120)
  {
    if env.thread.Thread? {
      SomethingNear(env.thread.comments, now);
    }
  }

  lemma SomethingNear(comments: seq<Post>, now: int)
    ensures Candidates(comments, now) != [] <==> exists c <- comments :: c.created > now - 120
  {
    var candidates := Candidates(comments, now);
    var j := CandidatesExactly(comments, now);
    if candidates != [] {
      assert candidates[0] in candidates && [30, 60, 120][j] <= 120;
    }
  }

  // The row goes when the activity cannot be served any more: without APNs or an account,
  // with a revoked authorisation; when its push failed; and with the final push. It stays in
  // every other case, after a failed refresh or fetch among them.
  lemma RowGoesExactly(env: Setting, row: Row, now: int, sent: bool)
    ensures var authorised := env.tokens == Current || env.tokens == Renewed;
            Deletes(env, row, now, sent) <==>
              || !env.apns || env.account == None || env.tokens == Tokens.Revoked
              || (authorised && env.thread == ThreadRevoked)
              || (authorised && env.thread.Thread? && row.expires < now)
              || (authorised && env.thread.Thread? && !sent
                  && (row.expires <= now || exists c <- env.thread.comments :: c.created > now - 120))
  {
    PushesExactly(env, row, now);
  }

  class LiveActivitiesConsumer {
    const table: LiveActivityTable
    var pushes: seq<Push>
    var saved: seq<Inbox.Account>     // every write of the account row, in order

    constructor (table: LiveActivityTable)
      ensures this.table == table && pushes == [] && saved == []
    {
      this.table, pushes, saved := table, [], [];
    }

    method Consume(token: string, env: Setting, now: int, sent: bool)
      modifies this, table
      ensures table.rows ==
              if (token in old(table.rows) && Deletes(env, old(table.rows)[token], now, sent)) || !env.apns
              then old(table.rows) - {token} else old(table.rows)
      ensures if token in old(table.rows) && Attempts(env, old(table.rows)[token], now) then
                var row := old(table.rows)[token];
                exists comment ::
                  && Best(Candidates(env.thread.comments, now), comment)
                  && pushes == old(pushes) + [Push(token, Expired(row, now), comment, row.expires)]
              else pushes == old(pushes)
      // Renewed tokens are stored by writing the whole account row back as the job read it,
      // with the cursor and the count of that moment.
      ensures saved
           == old(saved) + if token in old(table.rows) && env.apns && env.account.Some? && env.tokens == Renewed
                           then [env.account.value] else []
    {
      if !env.apns {
        table.Delete(token);
        return;
      }
      if token !in table.rows {
        return;
      }
      var row := table.rows[token];
      if env.account.None? {
        table.Delete(token);
        return;
      }
      if env.tokens.Revoked? || env.tokens.Failed? {
        if env.tokens.Revoked? {
          table.Delete(token);
        }
        return;
      }
      if env.tokens.Renewed? {
        saved := saved + [env.account.value];
      }
      if !env.thread.Thread? {
        if env.thread.ThreadRevoked? {
          table.Delete(token);
        }
        return;
      }
      var comments := env.thread.comments;
      if |comments| == 0 && row.expires > now {
        assert Candidates([], now) == [];
        return;
      }
      var candidates := SelectCandidates(comments, now);
      if |candidates| == 0 && row.expires > now {
        return;
      }
      var comment := PickBest(candidates);
      assert Best(Candidates(comments, now), comment);
      pushes := pushes + [Push(token, row.expires < now, comment, row.expires)];
      if !sent {
        table.Delete(token);
      }
      if row.expires < now {
        table.Delete(token);
      }
    }
  }
}
