// What the cursor does not skip: with pages that start right above the cursor, no
// stuck check or registration, and a fixed list of devices, every message that was
// undeleted when fetched reaches every device exactly once, oldest first.

module CursorCoverage {
  import opened Wrappers
  import opened Inbox
  import P = CursorProtocol

  datatype State = State(box: Box, account: Account, log: seq<Push>)

  datatype Step = Arrive(more: Box) | Delete(who: set<nat>) | Unlist(who: set<nat>) | Poll(page: seq<nat>)

  // The position of the cursor; an empty cursor stands before every message.
  function Position(cursor: Cursor): (p: int) {
    if cursor.Some? then cursor.value else -1
  }

  // The page leaves out no listed message between the cursor and its newest one.
  ghost predicate Contiguous(box: Box, cursor: Cursor, page: seq<nat>) {
    && ValidPage(box, cursor, page)
    && forall x, y :: x in page && Position(cursor) < y < x < |box| && box[y].listed ==> y in page
  }

  ghost predicate Enabled(s: State, step: Step) {
    step.Poll? ==> Contiguous(s.box, s.account.cursor, step.page)
  }

  // A poll that is not cut short performs its whole plan.
  ghost function Apply(s: State, step: Step, devices: seq<nat>): (after: State)
    requires Enabled(s, step)
  {
    match step
    case Arrive(more) => s.(box := s.box + more)
    case Delete(who) => s.(box := P.Marked(s.box, who))
    case Unlist(who) => s.(box := P.Hidden(s.box, who))
    case Poll(page) =>
      var plan := PagePlan(s.box, s.account, page, devices);
      State(s.box, if plan.saves == [] then s.account else plan.saves[|plan.saves| - 1], s.log + plan.pushes)
  }

  ghost predicate Run(states: seq<State>, steps: seq<Step>, devices: seq<nat>) {
    && |states| == |steps| + 1
    && forall i :: 0 <= i < |steps| ==>
         Enabled(states[i], steps[i]) && states[i + 1] == Apply(states[i], steps[i], devices)
  }

  // The step fetches message x, undeleted.
  ghost predicate Fetched(s: State, step: Step, x: nat) {
    step.Poll? && x in step.page && x < |s.box| && !s.box[x].deleted
  }

  // The cursor's own message exists.
  ghost predicate Wf(s: State) {
    Position(s.account.cursor) < |s.box|
  }

  ghost predicate Delivered(s: State, x: nat, devices: seq<nat>) {
    forall d <- devices :: Push(d, x) in s.log
  }

  // Everything between the baseline and the cursor was delivered to every device
  // or is deleted or unlisted, and nothing else was delivered.
  ghost predicate Covered(s: State, base: int, devices: seq<nat>) {
    && -1 <= base <= Position(s.account.cursor) < |s.box|
    && InOrder(s.log)
    && (forall p <- s.log :: base < p.id <= Position(s.account.cursor) && p.device in devices)
    && (forall x :: base < x <= Position(s.account.cursor) && !s.box[x].deleted && s.box[x].listed
                    ==> Delivered(s, x, devices))
  }

  // The row after the writes of a poll that found the undeleted messages `ids`.
  lemma LastSave(account: Account, page: seq<nat>, ids: seq<nat>, saves: seq<Account>)
    requires ids != [] ==> page != []
    requires var after := if ids == [] then account else account.(cursor := Some(ids[|ids| - 1]));
             saves == if page == [] then []
                      else (if ids == [] then [] else [after])
                           + (if account.checkCount > 0 then [] else [after.(checkCount := 1)])
    ensures var last := if saves == [] then account else saves[|saves| - 1];
            && last.cursor == (if ids == [] then account.cursor else Some(ids[|ids| - 1]))
            && last.checkCount == (if page != [] && account.checkCount == 0 then 1 else account.checkCount)
  {
  }

  // What one poll does with the undeleted messages of its page.
  lemma PollEffect(s: State, page: seq<nat>, devices: seq<nat>) returns (ids: seq<nat>)
    requires Enabled(s, Poll(page))
    ensures Ascending(ids)
    ensures forall x :: x in ids <==> x in page && x < |s.box| && !s.box[x].deleted
    ensures forall x <- ids :: Position(s.account.cursor) < x || s.account.cursor.None?
    ensures var s' := Apply(s, Poll(page), devices);
            && s'.account.cursor == (if ids == [] then s.account.cursor else Some(ids[|ids| - 1]))
            && s'.log == (if s.account.checkCount == 0 then s.log else s.log + AllPushes(ids, devices))
            && s'.account.checkCount == (if page != [] && s.account.checkCount == 0 then 1 else s.account.checkCount)
  {
    ids := PlanFacts(s.box, s.account, page, devices);
    PageBeyond(s.box, s.account.cursor, page);
    assert ids != [] ==> ids[0] in ids;
    PlanApplied(s, page, devices, ids, PagePlan(s.box, s.account, page, devices));
  }

  lemma PageBeyond(box: Box, cursor: Cursor, page: seq<nat>)
    requires ValidPage(box, cursor, page)
    ensures forall x <- page :: Position(cursor) < x || cursor.None?
  {
  }

  lemma PlanApplied(s: State, page: seq<nat>, devices: seq<nat>, ids: seq<nat>, plan: Plan)
    requires Enabled(s, Poll(page)) && plan == PagePlan(s.box, s.account, page, devices) && (ids != [] ==> page != [])
    requires plan.pushes == if s.account.checkCount > 0 then AllPushes(ids, devices) else []
    requires var after := if ids == [] then s.account else s.account.(cursor := Some(ids[|ids| - 1]));
             plan.saves == if page == [] then []
                           else (if ids == [] then [] else [after])
                                + (if s.account.checkCount > 0 then [] else [after.(checkCount := 1)])
    ensures var s' := Apply(s, Poll(page), devices);
            && s'.account.cursor == (if ids == [] then s.account.cursor else Some(ids[|ids| - 1]))
            && s'.log == (if s.account.checkCount == 0 then s.log else s.log + AllPushes(ids, devices))
            && s'.account.checkCount == (if page != [] && s.account.checkCount == 0 then 1 else s.account.checkCount)
  {
    LastSave(s.account, page, ids, plan.saves);
    assert s.log + [] == s.log;
  }

  lemma {:induction false} AllPushesDelivers(ids: seq<nat>, devices: seq<nat>)
    ensures forall p: Push :: p in AllPushes(ids, devices) <==> p.id in ids && p.device in devices
  {
    forall p: Push ensures p in AllPushes(ids, devices) <==> p.id in ids && p.device in devices {
      AllPushesMembers(ids, devices, p);
    }
  }

  lemma NewestBounds(ids: seq<nat>)
    requires Ascending(ids) && ids != []
    ensures ids[|ids| - 1] in ids && forall x <- ids :: x <= ids[|ids| - 1]
  {
    forall x | x in ids ensures x <= ids[|ids| - 1] {
      var i :| 0 <= i < |ids| && ids[i] == x;
    }
  }

  // What is pushed lies between the baseline and the new cursor.
  lemma PushedUpTo(log: seq<Push>, ids: seq<nat>, devices: seq<nat>, base: int, c: int, c': int)
    requires forall p <- log :: base < p.id <= c && p.device in devices
    requires base <= c <= c' && forall x <- ids :: c < x <= c'
    ensures forall p <- log + AllPushes(ids, devices) :: base < p.id <= c' && p.device in devices
  {
    AllPushesDelivers(ids, devices);
  }

  lemma DeliveredMore(s: State, s': State, x: nat, devices: seq<nat>)
    requires Delivered(s, x, devices) && s.log <= s'.log
    ensures Delivered(s', x, devices)
  {
    assert forall p :: p in s.log ==> p in s'.log;
  }

  lemma PollDelivers(s: State, s': State, ids: seq<nat>, x: nat, devices: seq<nat>)
    requires s'.log == s.log + AllPushes(ids, devices) && x in ids
    ensures Delivered(s', x, devices)
  {
    AllPushesDelivers(ids, devices);
    forall d | d in devices ensures Push(d, x) in s'.log {
      assert Push(d, x) in AllPushes(ids, devices);
    }
  }

  // The cursor passes what it delivered before and what the poll delivers now.
  lemma PassedIsFetched(s: State, page: seq<nat>, ids: seq<nat>, x: nat)
    requires Enabled(s, Poll(page)) && Ascending(ids) && ids != []
    requires forall y :: y in ids <==> y in page && y < |s.box| && !s.box[y].deleted
    requires Position(s.account.cursor) < x <= ids[|ids| - 1] && x < |s.box|
    requires !s.box[x].deleted && s.box[x].listed
    ensures x in ids
  {
    var newest := ids[|ids| - 1];
    assert newest in ids && newest in page;
    assert x == newest || x in page;
  }

  lemma OlderThanFetched(s: State, base: int, ids: seq<nat>, devices: seq<nat>)
    requires Covered(s, base, devices) && forall x <- ids :: Position(s.account.cursor) < x
    ensures forall x <- ids :: AllOlder(s.log, x)
  {
  }

  // A state that differs from a covered one by the poll's pushes and its cursor.
  lemma CoveredOn(s: State, s': State, page: seq<nat>, ids: seq<nat>, base: int, devices: seq<nat>)
    requires Covered(s, base, devices) && Distinct(devices) && Enabled(s, Poll(page))
    requires Ascending(ids) && forall x :: x in ids <==> x in page && x < |s.box| && !s.box[x].deleted
    requires forall x <- ids :: Position(s.account.cursor) < x
    requires s'.box == s.box && s'.log == s.log + AllPushes(ids, devices)
    requires s'.account.cursor == if ids == [] then s.account.cursor else Some(ids[|ids| - 1])
    ensures Covered(s', base, devices)
  {
    var c, c' := Position(s.account.cursor), Position(s'.account.cursor);
    if ids != [] {
      NewestBounds(ids);
    }
    OlderThanFetched(s, base, ids, devices);
    PushesKeepOrder(s.log, ids, devices);
    PushedUpTo(s.log, ids, devices, base, c, c');
    forall x | base < x <= c' && !s.box[x].deleted && s.box[x].listed ensures Delivered(s', x, devices) {
      if x <= c {
        DeliveredMore(s, s', x, devices);
      } else {
        PassedIsFetched(s, page, ids, x);
        PollDelivers(s, s', ids, x, devices);
      }
    }
  }

  lemma PollCovers(s: State, page: seq<nat>, base: int, devices: seq<nat>)
    requires Covered(s, base, devices) && s.account.checkCount > 0 && Distinct(devices)
    requires Enabled(s, Poll(page))
    ensures Covered(Apply(s, Poll(page), devices), base, devices)
    ensures forall x :: Fetched(s, Poll(page), x) ==> Delivered(Apply(s, Poll(page), devices), x, devices)
  {
    var ids := PollEffect(s, page, devices);
    CoveredOn(s, Apply(s, Poll(page), devices), page, ids, base, devices);
    forall x | Fetched(s, Poll(page), x) ensures Delivered(Apply(s, Poll(page), devices), x, devices) {
      PollDelivers(s, Apply(s, Poll(page), devices), ids, x, devices);
    }
  }

  // The cursor moves exactly when the page holds an undeleted message, and then
  // strictly forward, to the newest of them.
  lemma CursorAdvances(s: State, page: seq<nat>, devices: seq<nat>)
    requires Enabled(s, Poll(page))
    ensures var before, after := s.account.cursor, Apply(s, Poll(page), devices).account.cursor;
            if exists x :: Fetched(s, Poll(page), x)
            then
              && Position(after) > Position(before)
              && after.Some? && Fetched(s, Poll(page), after.value)
              && forall x :: x > after.value ==> !Fetched(s, Poll(page), x)
            else after == before
  {
    var ids := PollEffect(s, page, devices);
    assert forall x :: x in ids <==> Fetched(s, Poll(page), x);
    if ids != [] {
      assert ids[|ids| - 1] in ids;
      assert forall i :: 0 <= i < |ids| ==> ids[i] <= ids[|ids| - 1];
    }
  }

  // The first poll that sees any message sends nothing; it only counts.
  lemma WarmUpIsSilent(s: State, page: seq<nat>, devices: seq<nat>)
    requires Enabled(s, Poll(page)) && s.account.checkCount == 0 && page != []
    ensures Apply(s, Poll(page), devices).log == s.log
    ensures Apply(s, Poll(page), devices).account.checkCount == 1
  {
    var _ := PollEffect(s, page, devices);
  }

  lemma {:induction false} CoveredHolds(states: seq<State>, steps: seq<Step>, devices: seq<nat>, n: nat)
    requires Run(states, steps, devices) && n < |states| && Distinct(devices)
    requires Wf(states[0]) && states[0].account.checkCount > 0 && states[0].log == []
    ensures Covered(states[n], Position(states[0].account.cursor), devices)
    ensures states[n].account.checkCount > 0
  {
    if n > 0 {
      CoveredHolds(states, steps, devices, n - 1);
      match steps[n - 1]
      case Poll(page) => PollCovers(states[n - 1], page, Position(states[0].account.cursor), devices);
      case Arrive(_) =>
      case Delete(_) =>
      case Unlist(_) =>
    }
  }

  lemma {:induction false} LogGrows(states: seq<State>, steps: seq<Step>, devices: seq<nat>, m: nat, n: nat)
    requires Run(states, steps, devices) && m <= n < |states|
    ensures states[m].log <= states[n].log
    decreases n
  {
    if m < n {
      LogGrows(states, steps, devices, m, n - 1);
      assert states[n - 1].log <= states[n].log by {
        assert states[n] == Apply(states[n - 1], steps[n - 1], devices);
      }
    }
  }

  // Every undeleted message that any poll of the run fetched is in the final log
  // once for each device, in order, and nothing the cursor passed was left out.
  lemma EveryFetchedMessageIsDelivered(states: seq<State>, steps: seq<Step>, devices: seq<nat>)
    requires Run(states, steps, devices) && Distinct(devices)
    requires Wf(states[0]) && states[0].account.checkCount > 0 && states[0].log == []
    ensures var final := states[|steps|];
            && Covered(final, Position(states[0].account.cursor), devices)
            && Distinct(final.log)
            && forall i, x :: 0 <= i < |steps| && Fetched(states[i], steps[i], x)
                              ==> Delivered(final, x, devices)
  {
    CoveredHolds(states, steps, devices, |steps|);
    forall i, x | 0 <= i < |steps| && Fetched(states[i], steps[i], x)
      ensures Delivered(states[|steps|], x, devices)
    {
      CoveredHolds(states, steps, devices, i);
      PollCovers(states[i], steps[i].page, Position(states[0].account.cursor), devices);
      LogGrows(states, steps, devices, i + 1, |steps|);
    }
  }

  // Registration leaves the count at zero, so what arrives before the first poll is
  // swallowed by the warm-up: no later poll pushes a message that the first one fetched.
  lemma WarmUpSwallows(states: seq<State>, steps: seq<Step>, devices: seq<nat>, n: nat)
    requires Run(states, steps, devices) && n < |states| && Distinct(devices)
    requires Wf(states[0]) && states[0].account.checkCount == 0 && states[0].log == []
    ensures forall x, p :: |steps| > 0 && Fetched(states[0], steps[0], x) && p in states[n].log ==> p.id != x
  {
    if n > 0 && exists x :: Fetched(states[0], steps[0], x) {
      var page := steps[0].page;
      WarmUpIsSilent(states[0], page, devices);
      CursorAdvances(states[0], page, devices);
      assert states[1] == Apply(states[0], steps[0], devices);
      assert Fetched(states[0], steps[0], states[1].account.cursor.value);
      CoveredHolds(states[1..], steps[1..], devices, n - 1);
      assert states[1..][n - 1] == states[n];
    }
  }
}
