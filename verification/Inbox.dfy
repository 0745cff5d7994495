// What Reddit shows of an account's inbox, and what one inbox poll plans to do
// with a page of it.
//
// Messages are numbered by arrival, so a smaller number is an older message and
// the number stands for the message's full name. A message may be deleted by its
// author (it stays in listings, marked) and may leave the listings altogether;
// neither is ever undone.

module Inbox {
  import opened Wrappers

  datatype Message = Message(deleted: bool, listed: bool)
  type Box = seq<Message>

  // LastMessageID: None is the empty string.
  type Cursor = Option<nat>

  // The columns of the account row that the protocol moves.
  datatype Account = Account(cursor: Cursor, checkCount: nat)

  // A message as a listing response shows it.
  datatype Thing = Thing(id: nat, deleted: bool)

  // One push of a message to a device.
  datatype Push = Push(device: nat, id: nat)

  const POLL_LIMIT := 10
  const LISTING_LIMIT := 25

  ghost predicate Descending(s: seq<nat>) {
    forall i, j :: 0 <= i < j < |s| ==> s[i] > s[j]
  }

  ghost predicate Ascending(s: seq<nat>) {
    forall i, j :: 0 <= i < j < |s| ==> s[i] < s[j]
  }

  ghost predicate Distinct<T>(s: seq<T>) {
    forall i, j :: 0 <= i < j < |s| ==> s[i] != s[j]
  }

  // ---------- Listings ----------

  // Newest first, the listed messages among the `hi` oldest, at most `k` of them.
  function NewestBelow(box: Box, hi: nat, k: nat): (page: seq<nat>)
    requires hi <= |box|
  {
    if hi == 0 || k == 0 then []
    else if box[hi - 1].listed then [hi - 1] + NewestBelow(box, hi - 1, k - 1)
    else NewestBelow(box, hi - 1, k)
  }

  function Newest(box: Box, k: nat): (page: seq<nat>) {
    NewestBelow(box, |box|, k)
  }

  ghost predicate ListedBelow(box: Box, hi: nat, page: seq<nat>) {
    hi <= |box| && forall i :: 0 <= i < |page| ==> page[i] < hi && box[page[i]].listed
  }

  lemma Prepend(box: Box, hi: nat, rest: seq<nat>)
    requires 0 < hi <= |box| && box[hi - 1].listed
    requires Descending(rest) && ListedBelow(box, hi - 1, rest)
    ensures Descending([hi - 1] + rest) && ListedBelow(box, hi, [hi - 1] + rest)
  {
    var page := [hi - 1] + rest;
    forall i | 0 <= i < |page| ensures page[i] < hi && box[page[i]].listed {
      if i > 0 {
        assert page[i] == rest[i - 1];
      }
    }
    forall i, j | 0 <= i < j < |page| ensures page[i] > page[j] {
      assert page[j] == rest[j - 1];
    }
  }

  // A listing page holds listed messages, newest first, at most k of them.
  lemma {:induction false} PageMembers(box: Box, hi: nat, k: nat)
    requires hi <= |box|
    ensures var page := NewestBelow(box, hi, k);
            |page| <= k && Descending(page) && ListedBelow(box, hi, page)
  {
    if hi == 0 || k == 0 {
    } else if box[hi - 1].listed {
      PageMembers(box, hi - 1, k - 1);
      Prepend(box, hi, NewestBelow(box, hi - 1, k - 1));
    } else {
      PageMembers(box, hi - 1, k);
      assert ListedBelow(box, hi - 1, NewestBelow(box, hi, k));
    }
  }

  // It is a window: closed upwards, and short of k only when nothing is left out.
  lemma {:induction false} PageIsWindow(box: Box, hi: nat, k: nat)
    requires hi <= |box|
    ensures var page := NewestBelow(box, hi, k);
            && |page| <= k
            && Descending(page) && ListedBelow(box, hi, page)
            && (forall x <- page :: x < hi && box[x].listed)
            && (forall x <- page, y :: x < y < hi && box[y].listed ==> y in page)
            && (|page| < k ==> forall y :: 0 <= y < hi && box[y].listed ==> y in page)
  {
    PageMembers(box, hi, k);
    if hi == 0 || k == 0 {
    } else if box[hi - 1].listed {
      PageIsWindow(box, hi - 1, k - 1);
    } else {
      PageIsWindow(box, hi - 1, k);
    }
  }

  // A shorter page is a prefix of a longer one.
  lemma {:induction false} ShorterPage(box: Box, hi: nat, k: nat, k': nat)
    requires hi <= |box| && k <= k'
    ensures NewestBelow(box, hi, k) <= NewestBelow(box, hi, k')
  {
    if hi == 0 || k == 0 {
    } else if box[hi - 1].listed {
      ShorterPage(box, hi - 1, k - 1, k' - 1);
    } else {
      ShorterPage(box, hi - 1, k, k');
    }
  }

  // Only the listing flags below `hi` matter.
  lemma {:induction false} PageFrame(box: Box, box': Box, hi: nat, k: nat)
    requires hi <= |box| && hi <= |box'|
    requires forall x :: 0 <= x < hi ==> box[x].listed == box'[x].listed
    ensures NewestBelow(box, hi, k) == NewestBelow(box', hi, k)
  {
    if hi == 0 || k == 0 {
    } else if box[hi - 1].listed {
      PageFrame(box, box', hi - 1, k - 1);
    } else {
      PageFrame(box, box', hi - 1, k);
    }
  }

  // Arrivals only push old messages out of a page.
  lemma {:induction false} ArrivalsShrinkPage(box: Box, more: Box, hi: nat, k: nat, x: nat)
    requires |box| <= hi <= |box + more|
    requires x in NewestBelow(box + more, hi, k) && x < |box|
    ensures x in Newest(box, k)
    decreases hi
  {
    if hi == |box| {
      PageFrame(box + more, box, hi, k);
    } else if (box + more)[hi - 1].listed {
      ArrivalsShrinkPage(box, more, hi - 1, k - 1, x);
      ShorterPage(box, |box|, k - 1, k);
    } else {
      ArrivalsShrinkPage(box, more, hi - 1, k, x);
    }
  }

  // What a request with the given cursor may return: with no cursor the newest
  // messages, otherwise any newest-first selection strictly newer than it.
  ghost predicate Visible(box: Box, cursor: Cursor, x: nat) {
    match cursor
    case None => x in Newest(box, POLL_LIMIT)
    case Some(c) => c < x < |box| && box[x].listed
  }

  ghost predicate ValidPage(box: Box, cursor: Cursor, page: seq<nat>) {
    && (cursor.None? ==> page == Newest(box, POLL_LIMIT))
    && (cursor.Some? ==> |page| <= POLL_LIMIT && Descending(page) && forall x <- page :: Visible(box, cursor, x))
  }

  lemma ValidPageFacts(box: Box, cursor: Cursor, page: seq<nat>)
    requires ValidPage(box, cursor, page)
    ensures |page| <= 10 && Descending(page)
    ensures forall x <- page :: x < |box| && box[x].listed && Visible(box, cursor, x)
    ensures forall i :: 0 <= i < |page| ==> page[i] < |box|
  {
    PageIsWindow(box, |box|, POLL_LIMIT);
    forall i | 0 <= i < |page| ensures page[i] < |box| {
      assert page[i] in page;
    }
  }

  function Things(box: Box, page: seq<nat>): (things: seq<Thing>)
    requires forall i :: 0 <= i < |page| ==> page[i] < |box|
    ensures |things| == |page|
    ensures forall i :: 0 <= i < |page| ==> things[i] == Thing(page[i], box[page[i]].deleted)
  {
    seq(|page|, i requires 0 <= i < |page| => Thing(page[i], box[page[i]].deleted))
  }

  // ---------- Scanning a page ----------

  // The first undeleted message of a newest-first page.
  function FirstLive(things: seq<Thing>): (id: Option<nat>)
  {
    if things == [] then None
    else if !things[0].deleted then Some(things[0].id)
    else FirstLive(things[1..])
  }

  // The undeleted messages of a newest-first page, oldest first.
  function LiveOldestFirst(things: seq<Thing>): (ids: seq<nat>)
  {
    if things == [] then []
    else LiveOldestFirst(things[1..]) + (if things[0].deleted then [] else [things[0].id])
  }

  ghost predicate PageOrder(things: seq<Thing>) {
    forall i, j :: 0 <= i < j < |things| ==> things[i].id > things[j].id
  }

  // The live messages come out in ascending order; they are exactly the
  // undeleted ones, and the newest of them is FirstLive.
  lemma {:induction false} LiveScan(things: seq<Thing>)
    requires PageOrder(things)
    ensures var ids := LiveOldestFirst(things);
            && Ascending(ids)
            && (forall x :: x in ids <==> Thing(x, false) in things)
            && (FirstLive(things).None? <==> ids == [])
            && (FirstLive(things).Some? ==> ids != [] && FirstLive(things).value == ids[|ids| - 1])
  {
    if things != [] {
      var rest := things[1..];
      LiveScan(rest);
      assert things == [things[0]] + rest;
      var ids := LiveOldestFirst(rest);
      forall i | 0 <= i < |ids| ensures ids[i] < things[0].id {
        assert ids[i] in ids && Thing(ids[i], false) in rest;
      }
    }
  }

  // ---------- The plan of one poll ----------

  // The row writes come first, then the pushes; a crash cuts this short anywhere.
  datatype Plan = Plan(saves: seq<Account>, pushes: seq<Push>)

  function PushesOf(id: nat, devices: seq<nat>): (pushes: seq<Push>)
    ensures |pushes| == |devices|
    ensures forall i :: 0 <= i < |devices| ==> pushes[i] == Push(devices[i], id)
  {
    seq(|devices|, i requires 0 <= i < |devices| => Push(devices[i], id))
  }

  function AllPushes(ids: seq<nat>, devices: seq<nat>): (pushes: seq<Push>) {
    if ids == [] then [] else PushesOf(ids[0], devices) + AllPushes(ids[1..], devices)
  }

  function Advanced(account: Account, things: seq<Thing>): (after: Account) {
    match FirstLive(things)
    case Some(id) => account.(cursor := Some(id))
    case None => account
  }

  function PollPlan(account: Account, things: seq<Thing>, devices: seq<nat>): (plan: Plan) {
    if things == [] then Plan([], [])
    else
      var after := Advanced(account, things);
      var advance := if FirstLive(things).Some? then [after] else [];
      if account.checkCount == 0 then Plan(advance + [after.(checkCount := 1)], [])
      else Plan(advance, AllPushes(LiveOldestFirst(things), devices))
  }

  // The plan for a page of the given inbox.
  ghost function PagePlan(box: Box, account: Account, page: seq<nat>, devices: seq<nat>): (plan: Plan)
    requires ValidPage(box, account.cursor, page)
  {
    ValidPageFacts(box, account.cursor, page);
    PollPlan(account, Things(box, page), devices)
  }

  lemma LiveMembers(box: Box, page: seq<nat>)
    requires forall i :: 0 <= i < |page| ==> page[i] < |box|
    requires PageOrder(Things(box, page))
    ensures forall x :: x in LiveOldestFirst(Things(box, page)) <==> x in page && x < |box| && !box[x].deleted
  {
    var things := Things(box, page);
    LiveScan(things);
    forall x: nat ensures Thing(x, false) in things <==> x in page && x < |box| && !box[x].deleted {
      if x in page && x < |box| && !box[x].deleted {
        var i :| 0 <= i < |page| && page[i] == x;
        assert things[i] == Thing(x, false);
      }
    }
  }

  // The plan pushes exactly the undeleted messages of the page, oldest first, and
  // every row it writes points at the newest of them.
  lemma PlanShape(account: Account, things: seq<Thing>, devices: seq<nat>)
    requires PageOrder(things)
    ensures var ids := LiveOldestFirst(things);
            var after := if ids == [] then account else account.(cursor := Some(ids[|ids| - 1]));
            var plan := PollPlan(account, things, devices);
            && plan.pushes == (if account.checkCount > 0 then AllPushes(ids, devices) else [])
            && plan.saves == if things == [] then []
                             else (if ids == [] then [] else [after])
                                  + (if account.checkCount > 0 then [] else [after.(checkCount := 1)])
  {
    LiveScan(things);
    assert AllPushes([], devices) == [];
  }

  lemma PlanFacts(box: Box, account: Account, page: seq<nat>, devices: seq<nat>) returns (ids: seq<nat>)
    requires ValidPage(box, account.cursor, page)
    ensures Ascending(ids)
    ensures forall x :: x in ids <==> x in page && x < |box| && !box[x].deleted
    ensures var after := if ids == [] then account else account.(cursor := Some(ids[|ids| - 1]));
            var plan := PagePlan(box, account, page, devices);
            && plan.pushes == (if account.checkCount > 0 then AllPushes(ids, devices) else [])
            && plan.saves == if page == [] then []
                             else (if ids == [] then [] else [after])
                                  + (if account.checkCount > 0 then [] else [after.(checkCount := 1)])
  {
    ValidPageFacts(box, account.cursor, page);
    var things := Things(box, page);
    ids := LiveOldestFirst(things);
    LiveScan(things);
    LiveMembers(box, page);
    PlanShape(account, things, devices);
  }

  // ---------- Order of deliveries ----------

  // Per device, messages are pushed in strictly increasing age order.
  ghost predicate InOrder(log: seq<Push>) {
    forall i, j :: 0 <= i < j < |log| && log[i].device == log[j].device ==> log[i].id < log[j].id
  }

  ghost predicate AllOlder(log: seq<Push>, x: nat) {
    forall p <- log :: p.id < x
  }

  lemma {:induction false} AllPushesMembers(ids: seq<nat>, devices: seq<nat>, p: Push)
    ensures p in AllPushes(ids, devices) <==> p.id in ids && p.device in devices
  {
    if ids != [] {
      AllPushesMembers(ids[1..], devices, p);
      assert ids == [ids[0]] + ids[1..];
      assert p in PushesOf(ids[0], devices) <==> p.id == ids[0] && p.device in devices by {
        if p.id == ids[0] && p.device in devices {
          var i :| 0 <= i < |devices| && devices[i] == p.device;
          assert PushesOf(ids[0], devices)[i] == p;
        }
      }
    }
  }

  ghost predicate PushAt(ids: seq<nat>, devices: seq<nat>, push: Push, c: Cell) {
    c.0 < |ids| && c.1 < |devices| && push == Push(devices[c.1], ids[c.0])
  }

  // The pushes go message by message, and each message to all devices in their order.
  ghost predicate PushedAt(ids: seq<nat>, devices: seq<nat>, pushes: seq<Push>, at: seq<Cell>) {
    && |at| == |pushes| && Rising(at)
    && (forall k :: 0 <= k < |at| ==> PushAt(ids, devices, pushes[k], at[k]))
    && (forall i, j :: 0 <= i < |ids| && 0 <= j < |devices| ==> (i, j) in at)
  }

  function NextRows(at: seq<Cell>): (shifted: seq<Cell>)
    ensures |shifted| == |at| && forall k :: 0 <= k < |at| ==> shifted[k] == (at[k].0 + 1, at[k].1)
  {
    seq(|at|, k requires 0 <= k < |at| => (at[k].0 + 1, at[k].1))
  }

  function FirstRow(n: nat): (row: seq<Cell>)
    ensures |row| == n && forall j :: 0 <= j < n ==> row[j] == (0, j)
  {
    seq(n, j => (0, j))
  }

  lemma RowThenRest(n: nat, at: seq<Cell>)
    requires Rising(at)
    ensures Rising(FirstRow(n) + NextRows(at))
  {
    var all := FirstRow(n) + NextRows(at);
    forall i, j | 0 <= i < j < |all| ensures Before(all[i], all[j]) {
      if i >= n {
        assert Before(at[i - n], at[j - n]);
      }
    }
  }

  lemma CellOfRow(n: nat, at: seq<Cell>, i: nat, j: nat)
    requires if i == 0 then j < n else (i - 1, j) in at
    ensures (i, j) in FirstRow(n) + NextRows(at)
  {
    if i == 0 {
      assert (FirstRow(n) + NextRows(at))[j] == (i, j);
    } else {
      var k :| 0 <= k < |at| && at[k] == (i - 1, j);
      assert (FirstRow(n) + NextRows(at))[n + k] == (i, j);
    }
  }

  lemma PushedFirst(ids: seq<nat>, devices: seq<nat>, pushes: seq<Push>, at: seq<Cell>)
    requires ids != [] && PushedAt(ids[1..], devices, pushes, at)
    ensures PushedAt(ids, devices, PushesOf(ids[0], devices) + pushes, FirstRow(|devices|) + NextRows(at))
  {
    var n := |devices|;
    var all, at' := PushesOf(ids[0], devices) + pushes, FirstRow(n) + NextRows(at);
    RowThenRest(n, at);
    forall k | 0 <= k < |all| ensures PushAt(ids, devices, all[k], at'[k]) {
      if k >= n {
        assert PushAt(ids[1..], devices, pushes[k - n], at[k - n]);
      }
    }
    forall i, j | 0 <= i < |ids| && 0 <= j < |devices| ensures (i, j) in at' {
      CellOfRow(n, at, i, j);
    }
  }

  lemma {:induction false} AllPushesInOrder(ids: seq<nat>, devices: seq<nat>) returns (at: seq<Cell>)
    ensures PushedAt(ids, devices, AllPushes(ids, devices), at)
  {
    at := [];
    if ids != [] {
      at := AllPushesInOrder(ids[1..], devices);
      PushedFirst(ids, devices, AllPushes(ids[1..], devices), at);
      at := FirstRow(|devices|) + NextRows(at);
    }
  }

  // Newer messages, oldest first, extend an ordered log to an ordered log.
  lemma {:induction false} PushesKeepOrder(log: seq<Push>, ids: seq<nat>, devices: seq<nat>)
    requires InOrder(log) && Ascending(ids) && Distinct(devices)
    requires forall x <- ids :: AllOlder(log, x)
    ensures InOrder(log + AllPushes(ids, devices))
    decreases ids
  {
    if ids == [] {
      assert log + AllPushes(ids, devices) == log;
    } else {
      var block := PushesOf(ids[0], devices);
      assert ids[0] in ids;
      assert InOrder(log + block);
      forall x | x in ids[1..] ensures AllOlder(log + block, x) {
        assert x in ids && ids[0] < x;
      }
      PushesKeepOrder(log + block, ids[1..], devices);
      assert log + AllPushes(ids, devices) == (log + block) + AllPushes(ids[1..], devices);
    }
  }
}
