// The next_check_at claim query: each call takes the rows whose time has come,
// earliest first and at most LIMIT of them, and pushes their next check one interval
// into the future. It is a fair scheduler with a bound, as long as nothing else
// moves a row's next check.

module Claims {

  type Table = map<nat, int>      // row id to next_check_at

  datatype Queue = Users | Subreddits | StuckAccounts | LiveActivities

  function Limit(q: Queue): (n: nat) {
    match q
    case Users => 100
    case Subreddits => 100
    case StuckAccounts => 500
    case LiveActivities => 1000
  }

  function Interval(q: Queue): (seconds: nat) {
    match q
    case Users => 60
    case Subreddits => 120
    case StuckAccounts => 120
    case LiveActivities => 30
  }

  datatype Op =
    | Claim(now: int, ids: set<nat>)
    | Insert(now: int, id: nat)               // new rows are due at once
    | Remove(now: int, id: nat)
    | Touch(now: int, id: nat)                // re-registration
    | Restore(now: int, id: nat, next: int)   // whole-row write of an earlier snapshot

  function Due(t: Table, now: int): (ids: set<nat>) {
    set id | id in t && t[id] < now
  }

  // What the query may return: due rows only, as many as the limit allows, and no
  // claimed row comes after an unclaimed due one. Ties may fall either way.
  ghost predicate ClaimResult(t: Table, now: int, limit: nat, ids: set<nat>) {
    && ids <= Due(t, now)
    && |ids| == (if |Due(t, now)| < limit then |Due(t, now)| else limit)
    && forall a, b :: a in ids && b in Due(t, now) - ids ==> t[a] <= t[b]
  }

  ghost predicate Enabled(t: Table, op: Op, limit: nat) {
    match op
    case Claim(now, ids) => ClaimResult(t, now, limit, ids)
    case Insert(_, id) => id !in t
    case Remove(_, _) => true
    case Touch(_, id) => id in t
    case Restore(_, id, _) => id in t
  }

  function Apply(t: Table, op: Op, interval: nat): (after: Table) {
    match op
    case Claim(now, ids) => map id | id in t :: if id in ids then now + interval else t[id]
    case Insert(now, id) => t[id := now]
    case Remove(_, id) => t - {id}
    case Touch(now, id) => t[id := now]
    case Restore(_, id, next) => t[id := next]
  }

  ghost predicate Run(tables: seq<Table>, ops: seq<Op>, limit: nat, interval: nat) {
    && |tables| == |ops| + 1
    && (forall i :: 0 <= i < |ops| ==>
          Enabled(tables[i], ops[i], limit) && tables[i + 1] == Apply(tables[i], ops[i], interval))
    && (forall i, j :: 0 <= i <= j < |ops| ==> ops[i].now <= ops[j].now)
  }

  // The rows that may be claimed before r.
  function Ahead(t: Table, r: nat): (ids: set<nat>)
    requires r in t
  {
    set id | id in t && id != r && t[id] <= t[r]
  }

  function ClaimCount(ops: seq<Op>): (n: nat) {
    if ops == [] then 0
    else ClaimCount(ops[..|ops| - 1]) + if ops[|ops| - 1].Claim? then 1 else 0
  }

  // The rows that many full batches take.
  function Served(ops: seq<Op>, limit: nat): (n: nat) {
    if ops == [] then 0
    else Served(ops[..|ops| - 1], limit) + if ops[|ops| - 1].Claim? then limit else 0
  }

  lemma {:induction false} ServedIsProduct(ops: seq<Op>, limit: nat)
    ensures Served(ops, limit) == limit * ClaimCount(ops)
  {
    if ops != [] {
      ServedIsProduct(ops[..|ops| - 1], limit);
    }
  }

  // Nothing but claims puts the row off.
  ghost predicate Undisturbed(t: Table, op: Op, r: nat) {
    op.Claim? || op.id != r || (op.Restore? && r in t && op.next <= t[r])
  }

  // A whole-row write that puts a row ahead of r that was not.
  predicate Jump(t: Table, op: Op, r: nat) {
    op.Restore? && op.id != r && op.id in t && r in t && op.next <= t[r] < t[op.id]
  }

  function Jumps(tables: seq<Table>, ops: seq<Op>, r: nat): (n: nat)
    requires |ops| <= |tables|
  {
    if ops == [] then 0
    else
      var m := |ops| - 1;
      Jumps(tables, ops[..m], r) + if Jump(tables[m], ops[m], r) then 1 else 0
  }

  // ---------- What a call leaves due ----------

  // A claimed row is due again once more than the interval has passed; a new or
  // re-registered one as soon as time passes; one written back when its old time has come.
  // The rows an operation is not about stay due or not as they were.
  lemma DueAfter(t: Table, op: Op, limit: nat, interval: nat, id: nat, time: int)
    requires Enabled(t, op, limit)
    ensures id in Due(Apply(t, op, interval), time) <==>
              match op
              case Claim(now, ids) => if id in ids then time - now > interval else id in Due(t, time)
              case Insert(now, added) => if id == added then time > now else id in Due(t, time)
              case Touch(now, row) => if id == row then time > now else id in Due(t, time)
              case Restore(_, row, next) => if id == row then time > next else id in Due(t, time)
              case Remove(_, row) => id != row && id in Due(t, time)
  {
  }

  // ---------- Fairness ----------

  // A call that passes over a due row takes a full batch from the rows ahead of it.
  lemma PassedOver(t: Table, op: Op, limit: nat, interval: nat, r: nat)
    requires op.Claim? && Enabled(t, op, limit) && r in t && t[r] < op.now && r !in op.ids
    ensures var t' := Apply(t, op, interval);
            r in t' && t'[r] == t[r] && |Ahead(t', r)| + limit == |Ahead(t, r)|
  {
    var t' := Apply(t, op, interval);
    var due := Due(t, op.now);
    assert r in due;
    if |op.ids| == |due| {
      Proper(op.ids, due, r);
    }
    assert op.ids <= Ahead(t, r);
    assert Ahead(t', r) == Ahead(t, r) - op.ids;
  }

  lemma Proper(a: set<nat>, b: set<nat>, x: nat)
    requires a <= b && x in b && x !in a
    ensures |a| < |b|
  {
    assert a <= b - {x};
    Smaller(a, b - {x});
  }

  lemma {:induction false} Smaller(a: set<nat>, b: set<nat>)
    requires a <= b
    ensures |a| <= |b|
    decreases a
  {
    if a != {} {
      var x :| x in a;
      Smaller(a - {x}, b - {x});
    }
  }

  // No other operation puts a row ahead of a row that is already due.
  lemma NeverOvertaken(t: Table, op: Op, limit: nat, interval: nat, r: nat)
    requires !op.Claim? && !op.Restore? && Enabled(t, op, limit) && op.id != r && r in t && t[r] < op.now
    ensures var t' := Apply(t, op, interval);
            r in t' && t'[r] == t[r] && Ahead(t', r) <= Ahead(t, r) && |Ahead(t', r)| <= |Ahead(t, r)|
  {
    var t' := Apply(t, op, interval);
    assert Ahead(t', r) <= Ahead(t, r);
    Smaller(Ahead(t', r), Ahead(t, r));
  }

  // A whole-row write puts at most one row ahead, and none unless it is a jump.
  lemma RestoreJumps(t: Table, op: Op, limit: nat, interval: nat, r: nat)
    requires op.Restore? && Enabled(t, op, limit) && r in t && Undisturbed(t, op, r)
    ensures var t' := Apply(t, op, interval);
            && r in t' && t'[r] <= t[r]
            && |Ahead(t', r)| <= |Ahead(t, r)| + if Jump(t, op, r) then 1 else 0
  {
    var t' := Apply(t, op, interval);
    if Jump(t, op, r) {
      assert Ahead(t', r) <= Ahead(t, r) + {op.id};
      Smaller(Ahead(t', r), Ahead(t, r) + {op.id});
    } else {
      assert Ahead(t', r) <= Ahead(t, r);
      Smaller(Ahead(t', r), Ahead(t, r));
    }
  }

  lemma {:induction false} QueueShrinks(tables: seq<Table>, ops: seq<Op>, limit: nat, interval: nat, r: nat, n: nat)
    requires Run(tables, ops, limit, interval) && n <= |ops|
    requires r in tables[0]
    requires forall i :: 0 <= i < n ==> tables[0][r] < ops[i].now && Undisturbed(tables[i], ops[i], r)
    requires forall i :: 0 <= i < n && ops[i].Claim? ==> r !in ops[i].ids
    ensures r in tables[n] && tables[n][r] <= tables[0][r]
    ensures |Ahead(tables[n], r)| + Served(ops[..n], limit) <= |Ahead(tables[0], r)| + Jumps(tables, ops[..n], r)
  {
    if n > 0 {
      QueueShrinks(tables, ops, limit, interval, r, n - 1);
      assert ops[..n][..n - 1] == ops[..n - 1];
      var t, op := tables[n - 1], ops[n - 1];
      if op.Claim? {
        PassedOver(t, op, limit, interval, r);
      } else if op.Restore? {
        RestoreJumps(t, op, limit, interval, r);
      } else {
        NeverOvertaken(t, op, limit, interval, r);
      }
    }
  }

  // A row that waits through all calls had at least so many rows ahead of it.
  lemma Unclaimed(tables: seq<Table>, ops: seq<Op>, limit: nat, interval: nat, r: nat)
    requires Run(tables, ops, limit, interval) && r in tables[0]
    requires forall i :: 0 <= i < |ops| ==> tables[0][r] < ops[i].now && Undisturbed(tables[i], ops[i], r)
    requires forall i :: 0 <= i < |ops| && ops[i].Claim? ==> r !in ops[i].ids
    ensures limit * ClaimCount(ops) <= |Ahead(tables[0], r)| + Jumps(tables, ops, r)
  {
    QueueShrinks(tables, ops, limit, interval, r, |ops|);
    assert ops[..|ops|] == ops;
    ServedIsProduct(ops, limit);
  }

  // A due row with k rows ahead of it is claimed within (k + j) / LIMIT + 1 calls, which
  // is (k + j + 1) / LIMIT rounded up, where j is how often a whole-row write puts a row
  // ahead of it: whatever is claimed, inserted, removed, re-registered or written back
  // around it. Without such writes j is zero.
  lemma ClaimedWithinBound(tables: seq<Table>, ops: seq<Op>, limit: nat, interval: nat, r: nat)
    requires Run(tables, ops, limit, interval) && limit > 0
    requires r in tables[0]
    requires forall i :: 0 <= i < |ops| ==> tables[0][r] < ops[i].now && Undisturbed(tables[i], ops[i], r)
    requires ClaimCount(ops) >= (|Ahead(tables[0], r)| + Jumps(tables, ops, r)) / limit + 1
    ensures exists i :: 0 <= i < |ops| && ops[i].Claim? && r in ops[i].ids
  {
    var k := |Ahead(tables[0], r)| + Jumps(tables, ops, r);
    MoreThanQuotient(k, limit, ClaimCount(ops));
    if forall i :: 0 <= i < |ops| && ops[i].Claim? ==> r !in ops[i].ids {
      Unclaimed(tables, ops, limit, interval, r);
      assert false;
    }
  }

  lemma MoreThanQuotient(k: nat, limit: nat, calls: nat)
    requires limit > 0 && calls >= k / limit + 1
    ensures limit * calls > k
  {
    var q := k / limit;
    assert k == limit * q + k % limit;
    assert limit * calls >= limit * (q + 1);
  }

  // ---------- Spacing ----------

  // The operation leaves the row's next check at or after the given time, or deletes it.
  ghost predicate LeavesLate(op: Op, r: nat, time: int) {
    op.Claim? || op.id != r || op.Remove? || (op.Restore? && op.next >= time)
  }

  lemma {:induction false} NextStaysLate(tables: seq<Table>, ops: seq<Op>, limit: nat, interval: nat,
                                         r: nat, i: nat, n: nat)
    requires Run(tables, ops, limit, interval) && i < n <= |ops|
    requires ops[i].Claim? && r in ops[i].ids
    requires forall m :: i < m < n ==> LeavesLate(ops[m], r, ops[i].now + interval)
    ensures r in tables[n] ==> tables[n][r] >= ops[i].now + interval
    decreases n
  {
    if n > i + 1 {
      NextStaysLate(tables, ops, limit, interval, r, i, n - 1);
    }
  }

  // Two claims of one row are more than the interval apart unless the row was
  // re-registered, inserted anew, or overwritten with an earlier time in between.
  lemma ClaimsSpaced(tables: seq<Table>, ops: seq<Op>, limit: nat, interval: nat, r: nat, i: nat, j: nat)
    requires Run(tables, ops, limit, interval) && i < j < |ops|
    requires ops[i].Claim? && r in ops[i].ids && ops[j].Claim? && r in ops[j].ids
    requires forall m :: i < m < j ==> LeavesLate(ops[m], r, ops[i].now + interval)
    ensures ops[j].now > ops[i].now + interval
  {
    NextStaysLate(tables, ops, limit, interval, r, i, j);
  }

  // ---------- What a stale row write does ----------

  // A written-back value is one that the row had earlier in the run.
  ghost predicate Readable(tables: seq<Table>, ops: seq<Op>)
    requires |ops| <= |tables|
  {
    forall i :: 0 <= i < |ops| && ops[i].Restore? ==>
      exists m :: 0 <= m <= i && ops[i].id in tables[m] && tables[m][ops[i].id] == ops[i].next
  }

  // The account row carries next_stuck_notification_check_at, and every poll writes
  // the whole row back: a claim between its read and its write is undone. Then the
  // row can be claimed again at once, whatever the interval is.
  lemma StaleWriteUndoesClaim(interval: nat) returns (tables: seq<Table>, ops: seq<Op>)
    ensures Run(tables, ops, Limit(StuckAccounts), interval) && Readable(tables, ops) && |ops| == 3
    ensures ops[0].Claim? && ops[1].Restore? && ops[2].Claim? && ops[0].ids == ops[2].ids == {0}
    ensures ops[2].now == ops[0].now
  {
    var t0: Table := map[0 := 5];
    ops := [Claim(10, {0}), Restore(10, 0, 5), Claim(10, {0})];
    assert Due(t0, 10) == {0};
    var t1 := Apply(t0, ops[0], interval);
    var t2 := Apply(t1, ops[1], interval);
    assert t2 == t0;
    tables := [t0, t1, t2, t1];
    assert tables[0][0] == ops[1].next;
  }

  // ---------- Starvation ----------

  lemma {:induction false} SomeRows(n: nat) returns (ids: set<nat>)
    ensures |ids| == n && forall x :: x in ids ==> x < n
  {
    ids := {};
    if n > 0 {
      ids := SomeRows(n - 1);
      ids := ids + {n - 1};
    }
  }

  // Row r waits, due at 5; the other rows are due before it, at 4, once written back.
  function Waiting(ids: set<nat>, r: nat, back: set<nat>, interval: nat): (t: Table) {
    map id | id in ids + {r} :: if id == r then 5 else if id in back then 4 else 10 + interval
  }

  ghost predicate Starving(ids: set<nat>, r: nat, interval: nat, tables: seq<Table>, ops: seq<Op>) {
    && Run(tables, ops, |ids|, interval)
    && tables[0] == Waiting(ids, r, ids, interval)
    && forall i :: 0 <= i < |ops| ==>
         ops[i].now == 10 && (ops[i] == Claim(10, ids) || (ops[i].Restore? && ops[i].id in ids && ops[i].next == 4))
  }

  lemma StarveOn(ids: set<nat>, r: nat, interval: nat, tables: seq<Table>, ops: seq<Op>, op: Op)
    returns (tables': seq<Table>, ops': seq<Op>)
    requires Starving(ids, r, interval, tables, ops) && Enabled(tables[|ops|], op, |ids|)
    requires op == Claim(10, ids) || (op.Restore? && op.now == 10 && op.id in ids && op.next == 4)
    ensures Starving(ids, r, interval, tables', ops')
    ensures tables'[|ops'|] == Apply(tables[|ops|], op, interval)
    ensures ClaimCount(ops') == ClaimCount(ops) + if op.Claim? then 1 else 0
  {
    tables', ops' := tables + [Apply(tables[|ops|], op, interval)], ops + [op];
    assert ops'[..|ops|] == ops;
  }

  lemma OneBack(ids: set<nat>, r: nat, back: set<nat>, interval: nat, id: nat)
    requires r !in ids && back <= ids && id in ids - back
    ensures Enabled(Waiting(ids, r, back, interval), Restore(10, id, 4), |ids|)
    ensures Apply(Waiting(ids, r, back, interval), Restore(10, id, 4), interval)
         == Waiting(ids, r, back + {id}, interval)
  {
  }

  lemma {:induction false} WriteBack(ids: set<nat>, r: nat, interval: nat, tables: seq<Table>, ops: seq<Op>,
                                     back: set<nat>)
    returns (tables': seq<Table>, ops': seq<Op>)
    requires Starving(ids, r, interval, tables, ops) && r !in ids && back <= ids
    requires tables[|ops|] == Waiting(ids, r, back, interval)
    ensures Starving(ids, r, interval, tables', ops') && ClaimCount(ops') == ClaimCount(ops)
    ensures tables'[|ops'|] == Waiting(ids, r, ids, interval)
    decreases ids - back
  {
    tables', ops' := tables, ops;
    if id :| id in ids && id !in back {
      OneBack(ids, r, back, interval, id);
      tables', ops' := StarveOn(ids, r, interval, tables, ops, Restore(10, id, 4));
      tables', ops' := WriteBack(ids, r, interval, tables', ops', back + {id});
    } else {
      assert back == ids;
    }
  }

  lemma FullBatch(ids: set<nat>, r: nat, interval: nat)
    requires r !in ids
    ensures Enabled(Waiting(ids, r, ids, interval), Claim(10, ids), |ids|)
    ensures Apply(Waiting(ids, r, ids, interval), Claim(10, ids), interval) == Waiting(ids, r, {}, interval)
  {
    assert Due(Waiting(ids, r, ids, interval), 10) == ids + {r};
  }

  lemma {:induction false} StarveRounds(ids: set<nat>, r: nat, interval: nat, n: nat)
    returns (tables: seq<Table>, ops: seq<Op>)
    requires r !in ids
    ensures Starving(ids, r, interval, tables, ops) && ClaimCount(ops) == n
    ensures tables[|ops|] == Waiting(ids, r, ids, interval)
  {
    if n == 0 {
      tables, ops := [Waiting(ids, r, ids, interval)], [];
    } else {
      tables, ops := StarveRounds(ids, r, interval, n - 1);
      FullBatch(ids, r, interval);
      tables, ops := StarveOn(ids, r, interval, tables, ops, Claim(10, ids));
      tables, ops := WriteBack(ids, r, interval, tables, ops, {});
    }
  }

  // A starving run with values the rows had before: at any limit, rows written back after
  // every claim keep another due row waiting for any number of calls.
  lemma WritesStarve(limit: nat, interval: nat, n: nat) returns (tables: seq<Table>, ops: seq<Op>)
    requires limit > 0
    ensures Run(tables, ops, limit, interval) && Readable(tables, ops) && ClaimCount(ops) == n
    ensures limit in tables[0]
    ensures forall i :: 0 <= i < |ops| ==> tables[0][limit] < ops[i].now && Undisturbed(tables[i], ops[i], limit)
    ensures forall i :: 0 <= i < |ops| && ops[i].Claim? ==> limit !in ops[i].ids
  {
    var ids := SomeRows(limit);
    tables, ops := StarveRounds(ids, limit, interval, n);
    forall i | 0 <= i < |ops| && ops[i].Restore?
      ensures exists m :: 0 <= m <= i && ops[i].id in tables[m] && tables[m][ops[i].id] == ops[i].next
    {
      assert tables[0][ops[i].id] == 4;
    }
  }

  // So it is for the stuck accounts, whose rows every poll writes back: a due account may
  // wait for any number of batches of 500.
  lemma StaleWritesStarve(n: nat) returns (tables: seq<Table>, ops: seq<Op>, r: nat)
    ensures Run(tables, ops, 500, 120)
    ensures Readable(tables, ops) && ClaimCount(ops) == n && r in tables[0]
    ensures forall i :: 0 <= i < |ops| ==> tables[0][r] < ops[i].now && Undisturbed(tables[i], ops[i], r)
    ensures forall i :: 0 <= i < |ops| && ops[i].Claim? ==> r !in ops[i].ids
  {
    r := Limit(StuckAccounts);
    tables, ops := WritesStarve(r, Interval(StuckAccounts), n);
  }
}
