// The inbox cursor protocol: polls, stuck checks, registrations and Live Activity jobs
// move one LastMessageID over an inbox that grows and suffers deletions, and a poll can
// crash between any two of its row writes and pushes.
//
// Every account write but a registration's is a whole-row write of an earlier snapshot,
// so the model lets the writers interleave: a poll keeps the row it read, and every
// other writer is split into the steps that look at the row or the inbox and the step
// that writes.

module CursorProtocol {
  import opened Wrappers
  import opened Inbox

  datatype Poll =
    | Read(account: Account)                              // row read, page not yet fetched
    | Running(saves: seq<Account>, pushes: seq<Push>)     // what is left of the plan

  // A row write in the making. `stale` marks what was looked at before a page was fetched
  // that some poll may still have to save, `overtaken` what a save has since gone past.
  datatype Proposal =
    | StuckRow(account: Account, stale: bool, overtaken: bool)               // row read, inbox not yet looked at
    | StuckReset(account: Account, stale: bool, overtaken: bool)             // to write the whole row
    | Registration(cursor: Cursor, stale: bool, overtaken: bool)             // to write last_message_id only
    | RowCopy(account: Account, stale: bool, overtaken: bool)                // to write the whole row back as read

  datatype State = State(box: Box, row: Account, polls: seq<Poll>, open: seq<Proposal>, log: seq<Push>)

  datatype Step =
    | Arrive(more: Box)
    | Delete(who: set<nat>)
    | Unlist(who: set<nat>)
    | PollRead
    | PollRefresh(k: nat)                                  // token refresh rewrites the snapshot
    | PollFetch(k: nat, page: seq<nat>, devices: seq<nat>)
    | PollSave(k: nat)
    | PollSaveLost(k: nat)                                 // the write fails and the error is ignored
    | PollPush(k: nat)
    | PollStop(k: nat)                                     // finished, failed or crashed
    | StuckRead
    | StuckView(index: nat, missing: bool)                 // missing: the lookup lost the cursor's thing
    | RegisterView
    | LiveRead                                             // a Live Activity job about to refresh tokens
    | Install(index: nat)
    | Drop(index: nat)

  function Marked(box: Box, who: set<nat>): (after: Box)
    ensures |after| == |box|
    ensures forall x :: 0 <= x < |box| ==> after[x] == box[x].(deleted := box[x].deleted || x in who)
  {
    seq(|box|, x requires 0 <= x < |box| => box[x].(deleted := box[x].deleted || x in who))
  }

  function Hidden(box: Box, who: set<nat>): (after: Box)
    ensures |after| == |box|
    ensures forall x :: 0 <= x < |box| ==> after[x] == box[x].(listed := box[x].listed && x !in who)
  {
    seq(|box|, x requires 0 <= x < |box| => box[x].(listed := box[x].listed && x !in who))
  }

  // The inbox as the stuck check sees it.
  function Listing(box: Box): (things: Option<seq<Thing>>) {
    PageIsWindow(box, |box|, LISTING_LIMIT);
    Some(Things(box, Newest(box, LISTING_LIMIT)))
  }

  // The stuck check restarts from the newest undeleted message of its listing.
  function ResetCursor(box: Box): (cursor: Cursor) {
    FirstLive(Listing(box).value)
  }

  // The stuck check leaves a cursor alone when its message was found, is undeleted
  // and is still in the listing.
  ghost predicate Stuck(box: Box, cursor: nat, missing: bool) {
    missing || cursor >= |box| || box[cursor].deleted || cursor !in Newest(box, LISTING_LIMIT)
  }

  // Registration seeds the cursor with the newest message, deleted or not.
  function SeedCursor(box: Box): (cursor: Cursor) {
    var page := Newest(box, 1);
    if page == [] then None else Some(page[0])
  }

  ghost predicate IsReading(s: State, k: nat) {
    k < |s.polls| && s.polls[k].Read?
  }

  ghost predicate IsSaving(s: State, k: nat) {
    k < |s.polls| && s.polls[k].Running? && s.polls[k].saves != []
  }

  ghost predicate IsPushing(s: State, k: nat) {
    k < |s.polls| && s.polls[k].Running? && s.polls[k].saves == [] && s.polls[k].pushes != []
  }

  ghost predicate Enabled(s: State, step: Step) {
    match step
    case PollRefresh(k) => IsReading(s, k)
    case PollFetch(k, page, devices) =>
      IsReading(s, k) && ValidPage(s.box, s.polls[k].account.cursor, page) && Distinct(devices)
    case PollSave(k) => IsSaving(s, k)
    case PollSaveLost(k) => IsSaving(s, k)
    case PollPush(k) => IsPushing(s, k)
    case PollStop(k) => k < |s.polls|
    case StuckView(i, missing) =>
      && i < |s.open| && s.open[i].StuckRow? && s.open[i].account.cursor.Some?
      && Stuck(s.box, s.open[i].account.cursor.value, missing)
    case Install(i) => i < |s.open| && !s.open[i].StuckRow?
    case Drop(i) => i < |s.open|
    case _ => true
  }

  function Aged(open: seq<Proposal>): (aged: seq<Proposal>)
    ensures |aged| == |open|
    ensures forall i :: 0 <= i < |open| ==> aged[i] == open[i].(stale := true)
  {
    seq(|open|, i requires 0 <= i < |open| => open[i].(stale := true))
  }

  // A write that would undo the save of a poll: a row copied before the save, or a
  // cursor taken from a look at the inbox before the poll's own.
  predicate Undoes(p: Proposal) {
    p.RowCopy? || (p.stale && !p.StuckRow?)
  }

  function Passed(open: seq<Proposal>): (passed: seq<Proposal>)
    ensures |passed| == |open|
    ensures forall i :: 0 <= i < |open| ==> passed[i] == open[i].(overtaken := open[i].overtaken || Undoes(open[i]))
  {
    seq(|open|, i requires 0 <= i < |open| => open[i].(overtaken := open[i].overtaken || Undoes(open[i])))
  }

  // The row that a writer leaves: a registration keeps every column but the cursor.
  function Installed(row: Account, p: Proposal): (after: Account) {
    if p.Registration? then row.(cursor := p.cursor) else p.account
  }

  ghost function Apply(s: State, step: Step): (after: State)
    requires Enabled(s, step)
  {
    match step
    case Arrive(more) => s.(box := s.box + more)
    case Delete(who) => s.(box := Marked(s.box, who))
    case Unlist(who) => s.(box := Hidden(s.box, who))
    case PollRead => s.(polls := s.polls + [Read(s.row)])
    case PollRefresh(k) => s.(row := s.polls[k].account)
    case PollFetch(k, page, devices) =>
      var plan := PagePlan(s.box, s.polls[k].account, page, devices);
      s.(polls := s.polls[k := Running(plan.saves, plan.pushes)], open := Aged(s.open))
    case PollSave(k) =>
      var poll := s.polls[k];
      s.(row := poll.saves[0], polls := s.polls[k := poll.(saves := poll.saves[1..])], open := Passed(s.open))
    case PollSaveLost(k) =>
      s.(polls := s.polls[k := s.polls[k].(saves := s.polls[k].saves[1..])])
    case PollPush(k) =>
      var poll := s.polls[k];
      s.(log := s.log + [poll.pushes[0]], polls := s.polls[k := poll.(pushes := poll.pushes[1..])])
    case PollStop(k) => s.(polls := Without(s.polls, k))
    case StuckRead => s.(open := s.open + [StuckRow(s.row, false, false)])
    case StuckView(i, _) =>
      s.(open := s.open[i := StuckReset(s.open[i].account.(cursor := ResetCursor(s.box)), false, false)])
    case RegisterView => s.(open := s.open + [Registration(SeedCursor(s.box), false, false)])
    case LiveRead => s.(open := s.open + [RowCopy(s.row, false, false)])
    case Install(i) => s.(row := Installed(s.row, s.open[i]), open := Without(s.open, i))
    case Drop(i) => s.(open := Without(s.open, i))
  }

  // ---------- The conditions on a run ----------

  function ProposedCursor(p: Proposal): (cursor: Cursor) {
    if p.Registration? then p.cursor else p.account.cursor
  }

  // No empty cursor is stored or about to be stored.
  ghost predicate NoEmptyCursor(s: State) {
    && s.row.cursor.Some?
    && (forall poll <- s.polls :: poll.Read? ==> poll.account.cursor.Some?)
    && (forall poll <- s.polls :: poll.Running? ==> forall a <- poll.saves :: a.cursor.Some?)
    && (forall p <- s.open :: ProposedCursor(p).Some?)
  }

  datatype Condition = OnePoll | SavesSucceed | NothingUndone | ListedUnderEmptyCursor

  ghost predicate Met(c: Condition, s: State, step: Step) {
    match c
    // A poll of the account begins only when no other is in progress.
    case OnePoll => step.PollRead? ==> s.polls == []
    // A poll that has something to push does not lose a row write unnoticed.
    case SavesSucceed => step.PollSaveLost? && IsSaving(s, step.k) ==> s.polls[step.k].pushes == []
    // Nobody writes what a save has gone past.
    case NothingUndone => step.Install? && step.index < |s.open| ==> !s.open[step.index].overtaken
    // Messages leave the listing only while no cursor is empty.
    case ListedUnderEmptyCursor => step.Unlist? ==> NoEmptyCursor(s)
  }

  ghost predicate Orderly(s: State, step: Step) {
    forall c: Condition :: Met(c, s, step)
  }

  // ---------- Runs ----------

  ghost predicate Init(s: State) {
    s.log == [] && s.open == [] && s.polls == [] && s.row == Account(SeedCursor(s.box), 0)
  }

  ghost predicate Run(states: seq<State>, steps: seq<Step>) {
    && |states| == |steps| + 1
    && Init(states[0])
    && forall i :: 0 <= i < |steps| ==> Enabled(states[i], steps[i]) && states[i + 1] == Apply(states[i], steps[i])
  }

  ghost predicate OrderlyRun(states: seq<State>, steps: seq<Step>) {
    Run(states, steps) && forall i :: 0 <= i < |steps| ==> Orderly(states[i], steps[i])
  }

  // ---------- The invariant ----------

  // Every undeleted message that the cursor still admits is newer than all of `sent`.
  ghost predicate SafeCursor(box: Box, sent: seq<Push>, cursor: Cursor) {
    forall x :: 0 <= x < |box| && Visible(box, cursor, x) && !box[x].deleted ==> AllOlder(sent, x)
  }

  // An account that counted no poll and has no cursor: its next poll only looks.
  predicate Blank(account: Account) {
    account.checkCount == 0 && account.cursor.None?
  }

  ghost predicate SafeAccount(box: Box, sent: seq<Push>, account: Account) {
    Blank(account) || SafeCursor(box, sent, account.cursor)
  }

  function Pending(s: State): (pushes: seq<Push>) {
    if s.polls != [] && s.polls[0].Running? then s.polls[0].pushes else []
  }

  // The pushes that the stored cursor must already account for: the pushes of a poll
  // count once its row writes are done.
  function Accounted(s: State): (sent: seq<Push>) {
    if s.polls != [] && s.polls[0].Running? && s.polls[0].saves == [] then s.log + s.polls[0].pushes else s.log
  }

  function Planned(s: State): (sent: seq<Push>) {
    s.log + Pending(s)
  }

  // What would undo a save need only account for the pushes of finished saves. A row read
  // by a stuck check that has not looked yet, or gone past by a save, is not written.
  ghost predicate SafeProposal(s: State, p: Proposal) {
    || p.StuckRow? || p.overtaken || (p.RowCopy? && Blank(p.account))
    || SafeCursor(s.box, if Undoes(p) then Accounted(s) else Planned(s), ProposedCursor(p))
  }

  ghost predicate SafePoll(s: State, poll: Poll) {
    match poll
    case Read(account) => SafeAccount(s.box, Accounted(s), account)
    case Running(saves, _) => forall a <- saves :: SafeCursor(s.box, Planned(s), a.cursor)
  }

  ghost predicate Inv(s: State) {
    && |s.polls| <= 1
    && InOrder(Planned(s))
    && AllOlder(Planned(s), |s.box|)
    && SafeAccount(s.box, Accounted(s), s.row)
    && (forall poll <- s.polls :: SafePoll(s, poll))
    && (forall p <- s.open :: SafeProposal(s, p))
  }

  // ---------- Safety of a cursor is stable ----------

  // Messages arrive at the newer end; flags only change one way.
  ghost predicate Evolves(box: Box, box': Box) {
    && |box| <= |box'|
    && forall x :: 0 <= x < |box| ==> (box[x].deleted ==> box'[x].deleted) && (box'[x].listed ==> box[x].listed)
  }

  ghost predicate SameListing(box: Box, box': Box) {
    |box| <= |box'| && forall x :: 0 <= x < |box| ==> box[x].listed == box'[x].listed
  }

  lemma SafeCursorStable(box: Box, box': Box, sent: seq<Push>, cursor: Cursor)
    requires Evolves(box, box') && SafeCursor(box, sent, cursor) && AllOlder(sent, |box|)
    requires cursor.None? ==> SameListing(box, box')
    ensures SafeCursor(box', sent, cursor)
  {
    forall x | 0 <= x < |box'| && Visible(box', cursor, x) && !box'[x].deleted ensures AllOlder(sent, x) {
      if x < |box| {
        if cursor.None? {
          var mid := box + box'[|box|..];
          PageFrame(box', mid, |mid|, POLL_LIMIT);
          ArrivalsShrinkPage(box, box'[|box|..], |mid|, POLL_LIMIT, x);
        }
        assert Visible(box, cursor, x);
      }
    }
  }

  lemma AccountedIsPlanned(s: State)
    ensures Accounted(s) <= Planned(s) && s.log <= Accounted(s)
  {
  }

  // Fewer pushes to account for is easier.
  lemma SafeFewer(box: Box, sent: seq<Push>, fewer: seq<Push>, cursor: Cursor)
    requires SafeCursor(box, sent, cursor) && fewer <= sent
    ensures SafeCursor(box, fewer, cursor)
  {
    assert forall x :: AllOlder(sent, x) ==> AllOlder(fewer, x);
  }

  lemma SafeAccountStable(box: Box, box': Box, sent: seq<Push>, account: Account)
    requires Evolves(box, box') && SafeAccount(box, sent, account) && AllOlder(sent, |box|)
    requires account.cursor.None? ==> SameListing(box, box')
    ensures SafeAccount(box', sent, account)
  {
    if !Blank(account) {
      SafeCursorStable(box, box', sent, account.cursor);
    }
  }

  lemma SafeAccountFewer(box: Box, sent: seq<Push>, fewer: seq<Push>, account: Account)
    requires SafeAccount(box, sent, account) && fewer <= sent
    ensures SafeAccount(box, fewer, account)
  {
    if !Blank(account) {
      SafeFewer(box, sent, fewer, account.cursor);
    }
  }

  lemma BoxStepKeepsInv(s: State, box': Box)
    requires Inv(s) && Evolves(s.box, box')
    requires NoEmptyCursor(s) || SameListing(s.box, box')
    ensures Inv(s.(box := box'))
  {
    var s' := s.(box := box');
    AccountedIsPlanned(s);
    assert forall x :: AllOlder(Planned(s), x) ==> AllOlder(Accounted(s), x);
    SafeAccountStable(s.box, box', Accounted(s), s.row);
    forall poll | poll in s.polls ensures SafePoll(s', poll) {
      match poll
      case Read(account) => SafeAccountStable(s.box, box', Accounted(s), account);
      case Running(saves, _) =>
        forall a | a in saves ensures SafeCursor(box', Planned(s), a.cursor) {
          SafeCursorStable(s.box, box', Planned(s), a.cursor);
        }
    }
    forall p | p in s.open ensures SafeProposal(s', p) {
      if !p.StuckRow? && !p.overtaken && !(p.RowCopy? && Blank(p.account)) {
        SafeCursorStable(s.box, box', if Undoes(p) then Accounted(s) else Planned(s), ProposedCursor(p));
      }
    }
  }

  // ---------- A fresh view admits nothing that exists ----------

  lemma {:induction false} FirstLiveFacts(things: seq<Thing>)
    requires PageOrder(things)
    ensures FirstLive(things).None? ==> forall t <- things :: t.deleted
    ensures FirstLive(things).Some? ==>
              && Thing(FirstLive(things).value, false) in things
              && forall t <- things :: t.id > FirstLive(things).value ==> t.deleted
  {
    if things != [] && things[0].deleted {
      FirstLiveFacts(things[1..]);
      assert things == [things[0]] + things[1..];
    }
  }

  // On a page of the inbox, everything above the first undeleted message is deleted.
  lemma FirstLiveOnPage(box: Box, page: seq<nat>)
    requires Descending(page) && forall i :: 0 <= i < |page| ==> page[i] < |box|
    ensures var first := FirstLive(Things(box, page));
            && (first.Some? ==> first.value in page)
            && forall i :: 0 <= i < |page| && (first.Some? ==> page[i] > first.value) ==> box[page[i]].deleted
  {
    var things := Things(box, page);
    FirstLiveFacts(things);
    if FirstLive(things).Some? {
      var j :| 0 <= j < |things| && things[j] == Thing(FirstLive(things).value, false);
      assert page[j] in page;
    }
    forall i | 0 <= i < |page| ensures things[i] in things {
    }
  }

  lemma ResetIsFresh(box: Box, sent: seq<Push>)
    ensures SafeCursor(box, sent, ResetCursor(box))
  {
    var view := Newest(box, LISTING_LIMIT);
    PageIsWindow(box, |box|, LISTING_LIMIT);
    FirstLiveOnPage(box, view);
    ShorterPage(box, |box|, POLL_LIMIT, LISTING_LIMIT);
    forall x | 0 <= x < |box| && Visible(box, ResetCursor(box), x) ensures box[x].deleted {
      assert x in view;
    }
  }

  lemma SeedIsFresh(box: Box, sent: seq<Push>)
    ensures SafeCursor(box, sent, SeedCursor(box))
  {
    var page := Newest(box, 1);
    PageIsWindow(box, |box|, 1);
    if page == [] {
      PageIsWindow(box, |box|, POLL_LIMIT);
    } else {
      assert page == [page[0]] && page[0] in page;
      assert forall y :: page[0] < y < |box| && box[y].listed ==> y in page;
    }
  }

  // ---------- The steps ----------

  // The newest undeleted message of a page admits none of the pushes up to it.
  lemma NewestIsSafe(box: Box, log: seq<Push>, account: Account, page: seq<nat>, devices: seq<nat>, ids: seq<nat>)
    requires SafeCursor(box, log, account.cursor) && ValidPage(box, account.cursor, page)
    requires Ascending(ids) && ids != [] && forall x :: x in ids <==> x in page && x < |box| && !box[x].deleted
    ensures SafeCursor(box, log + AllPushes(ids, devices), Some(ids[|ids| - 1]))
  {
    var newest := ids[|ids| - 1];
    ValidPageFacts(box, account.cursor, page);
    assert newest in ids && AllOlder(log, newest);
    forall p | p in log + AllPushes(ids, devices) ensures p.id <= newest {
      if p in AllPushes(ids, devices) {
        AllPushesMembers(ids, devices, p);
        var i :| 0 <= i < |ids| && ids[i] == p.id;
      }
    }
  }

  // The page of a blank account is the newest messages, so their newest undeleted one, or
  // an empty cursor if there is none, admits nothing that exists.
  lemma BlankIsFresh(box: Box, sent: seq<Push>, page: seq<nat>, ids: seq<nat>)
    requires ValidPage(box, None, page)
    requires Ascending(ids) && forall x :: x in ids <==> x in page && x < |box| && !box[x].deleted
    ensures SafeCursor(box, sent, if ids == [] then None else Some(ids[|ids| - 1]))
  {
    PageIsWindow(box, |box|, POLL_LIMIT);
    if ids != [] {
      var newest := ids[|ids| - 1];
      assert newest in ids;
      forall x | 0 <= x < |box| && Visible(box, Some(newest), x) ensures box[x].deleted {
        if x in ids {
          var i :| 0 <= i < |ids| && ids[i] == x;
        }
      }
    }
  }

  // The rows a plan writes are safe for everything the plan pushes.
  lemma PlannedRowsAreSafe(box: Box, log: seq<Push>, account: Account, page: seq<nat>, devices: seq<nat>)
    requires SafeAccount(box, log, account) && ValidPage(box, account.cursor, page)
    ensures var plan := PagePlan(box, account, page, devices);
            forall a <- plan.saves :: SafeCursor(box, log + plan.pushes, a.cursor)
  {
    var plan := PagePlan(box, account, page, devices);
    var ids := PlanFacts(box, account, page, devices);
    assert log + [] == log;
    assert AllPushes([], devices) == [];
    if Blank(account) {
      BlankIsFresh(box, log, page, ids);
    } else if ids != [] {
      NewestIsSafe(box, log, account, page, devices, ids);
      AccountedFewer(box, log, plan.pushes, AllPushes(ids, devices), ids[|ids| - 1]);
    }
  }

  lemma AccountedFewer(box: Box, log: seq<Push>, fewer: seq<Push>, pushes: seq<Push>, cursor: nat)
    requires SafeCursor(box, log + pushes, Some(cursor)) && (fewer == pushes || fewer == [])
    ensures SafeCursor(box, log + fewer, Some(cursor))
  {
    SafeFewer(box, log + pushes, log + fewer, Some(cursor));
  }

  // Fetching extends the ordered deliveries by the pushes of the plan.
  lemma PlannedPushesKeepOrder(box: Box, log: seq<Push>, account: Account, page: seq<nat>, devices: seq<nat>)
    requires SafeAccount(box, log, account) && ValidPage(box, account.cursor, page) && Distinct(devices)
    requires InOrder(log) && AllOlder(log, |box|)
    ensures var plan := PagePlan(box, account, page, devices);
            InOrder(log + plan.pushes) && AllOlder(log + plan.pushes, |box|)
  {
    var plan := PagePlan(box, account, page, devices);
    var ids := PlanFacts(box, account, page, devices);
    if account.checkCount == 0 {
      assert log + plan.pushes == log;
    } else {
      ValidPageFacts(box, account.cursor, page);
      forall x | x in ids ensures AllOlder(log, x) {
        assert Visible(box, account.cursor, x);
      }
      PushesKeepOrder(log, ids, devices);
      forall p | p in plan.pushes ensures p.id < |box| {
        AllPushesMembers(ids, devices, p);
      }
    }
  }

  lemma AgedFrom(open: seq<Proposal>, p: Proposal) returns (q: Proposal)
    requires p in Aged(open)
    ensures q in open && p == q.(stale := true)
  {
    var i :| 0 <= i < |open| && Aged(open)[i] == p;
    q := open[i];
  }

  // Before a fetch everything planned is done, and after it nothing more is.
  lemma FetchShape(s: State, k: nat, page: seq<nat>, devices: seq<nat>)
    requires |s.polls| <= 1 && Enabled(s, PollFetch(k, page, devices))
    ensures var s' := Apply(s, PollFetch(k, page, devices));
            var plan := PagePlan(s.box, s.polls[k].account, page, devices);
            && s'.polls == [Running(plan.saves, plan.pushes)] && s.polls == [s.polls[k]]
            && Planned(s) == s.log == Accounted(s)
            && Planned(s') == s.log + plan.pushes && Accounted(s') == s.log
  {
    var plan := PagePlan(s.box, s.polls[k].account, page, devices);
    var ids := PlanFacts(s.box, s.polls[k].account, page, devices);
    assert AllPushes([], devices) == [];
    assert plan.saves == [] ==> plan.pushes == [];
  }

  lemma FetchKeepsInv(s: State, k: nat, page: seq<nat>, devices: seq<nat>)
    requires Inv(s) && Enabled(s, PollFetch(k, page, devices))
    ensures Inv(Apply(s, PollFetch(k, page, devices)))
  {
    var account, s' := s.polls[k].account, Apply(s, PollFetch(k, page, devices));
    FetchShape(s, k, page, devices);
    assert s.polls[k] in s.polls;
    PlannedPushesKeepOrder(s.box, s.log, account, page, devices);
    PlannedRowsAreSafe(s.box, s.log, account, page, devices);
    forall p | p in s'.open ensures SafeProposal(s', p) {
      var q := AgedFrom(s.open, p);
      assert SafeProposal(s, q);
    }
  }

  lemma PassedFrom(open: seq<Proposal>, p: Proposal) returns (q: Proposal)
    requires p in Passed(open)
    ensures q in open && p == q.(overtaken := q.overtaken || Undoes(q))
  {
    var i :| 0 <= i < |open| && Passed(open)[i] == p;
    q := open[i];
  }

  // A poll's row write makes the row account for what is still to be pushed.
  lemma SaveKeepsInv(s: State, k: nat)
    requires Inv(s) && Enabled(s, PollSave(k))
    ensures Inv(Apply(s, PollSave(k)))
  {
    var s' := Apply(s, PollSave(k));
    var saves := s.polls[k].saves;
    assert s.polls[k] in s.polls && saves[0] in saves;
    assert s'.polls == [s.polls[k].(saves := saves[1..])];
    assert Planned(s') == Planned(s);
    AccountedIsPlanned(s');
    SafeFewer(s.box, Planned(s), Accounted(s'), s'.row.cursor);
    forall p | p in s'.open ensures SafeProposal(s', p) {
      var q := PassedFrom(s.open, p);
      assert SafeProposal(s, q);
    }
  }

  // A lost write of a poll with nothing to push does no harm.
  lemma LostKeepsInv(s: State, k: nat)
    requires Inv(s) && Enabled(s, PollSaveLost(k)) && s.polls[k].pushes == []
    ensures Inv(Apply(s, PollSaveLost(k)))
  {
    var s' := Apply(s, PollSaveLost(k));
    var saves := s.polls[k].saves;
    assert s.polls[k] in s.polls && s'.polls == [s.polls[k].(saves := saves[1..])];
    assert Planned(s') == Planned(s) == s.log == Accounted(s') == Accounted(s);
    forall p | p in s'.open ensures SafeProposal(s', p) {
      assert SafeProposal(s, p);
    }
  }

  lemma PushKeepsInv(s: State, k: nat)
    requires Inv(s) && Enabled(s, PollPush(k))
    ensures Inv(Apply(s, PollPush(k)))
  {
    var s' := Apply(s, PollPush(k));
    var pushes := s.polls[k].pushes;
    assert s.log + [pushes[0]] + pushes[1..] == s.log + pushes;
    assert Planned(s') == Planned(s) == Accounted(s') == Accounted(s);
    forall p | p in s'.open ensures SafeProposal(s', p) {
      assert SafeProposal(s, p);
    }
  }

  // A crash forgets the pushes still to be made.
  lemma StopKeepsInv(s: State, k: nat)
    requires Inv(s) && Enabled(s, PollStop(k))
    ensures Inv(Apply(s, PollStop(k)))
  {
    var s' := Apply(s, PollStop(k));
    assert s'.polls == [] && Planned(s') == s.log == Accounted(s');
    AccountedIsPlanned(s);
    SafeAccountFewer(s.box, Accounted(s), s.log, s.row);
    forall p | p in s.open ensures SafeProposal(s', p) {
      if !p.StuckRow? && !p.overtaken && !(p.RowCopy? && Blank(p.account)) {
        SafeFewer(s.box, if Undoes(p) then Accounted(s) else Planned(s), s.log, ProposedCursor(p));
      }
    }
  }

  lemma InstallKeepsInv(s: State, i: nat)
    requires Inv(s) && Enabled(s, Install(i)) && !s.open[i].overtaken
    ensures Inv(Apply(s, Install(i)))
  {
    var p, s' := s.open[i], Apply(s, Install(i));
    assert p in s.open && SafeProposal(s, p);
    AccountedIsPlanned(s);
    if !(p.RowCopy? && Blank(p.account)) {
      SafeFewer(s.box, if Undoes(p) then Accounted(s) else Planned(s), Accounted(s), ProposedCursor(p));
    }
    SameOtherwise(s, s');
  }

  // Safety of polls and proposals depends on the box, the log and the polls only.
  lemma SameOtherwise(s: State, s': State)
    requires s'.box == s.box && s'.log == s.log && s'.polls == s.polls
    ensures forall poll :: SafePoll(s, poll) ==> SafePoll(s', poll)
    ensures forall p :: SafeProposal(s, p) ==> SafeProposal(s', p)
    ensures Planned(s') == Planned(s) && Accounted(s') == Accounted(s)
  {
  }

  lemma ProposeKeepsInv(s: State, open': seq<Proposal>, p: Proposal)
    requires Inv(s) && SafeProposal(s, p) && forall q <- open' :: q in s.open || q == p
    ensures Inv(s.(open := open'))
  {
    SameOtherwise(s, s.(open := open'));
  }

  lemma OrderlyMeans(s: State, step: Step)
    requires Orderly(s, step)
    ensures Met(OnePoll, s, step) && Met(SavesSucceed, s, step)
    ensures Met(NothingUndone, s, step) && Met(ListedUnderEmptyCursor, s, step)
  {
  }

  lemma OrderlyStepKeepsInv(s: State, step: Step)
    requires Inv(s) && Enabled(s, step) && Orderly(s, step)
    ensures Inv(Apply(s, step))
  {
    var s' := Apply(s, step);
    OrderlyMeans(s, step);
    match step
    case Arrive(more) => BoxStepKeepsInv(s, s'.box);
    case Delete(who) => BoxStepKeepsInv(s, s'.box);
    case Unlist(who) => BoxStepKeepsInv(s, s'.box);
    case PollRead => ReadKeepsInv(s);
    case PollRefresh(k) =>
      assert s.polls[k] in s.polls;
      SameOtherwise(s, s');
    case PollFetch(k, page, devices) => FetchKeepsInv(s, k, page, devices);
    case PollSave(k) => SaveKeepsInv(s, k);
    case PollSaveLost(k) => LostKeepsInv(s, k);
    case PollPush(k) => PushKeepsInv(s, k);
    case PollStop(k) => StopKeepsInv(s, k);
    case StuckRead => ProposeKeepsInv(s, s'.open, StuckRow(s.row, false, false));
    case StuckView(i, _) =>
      ResetIsFresh(s.box, Planned(s));
      ProposeKeepsInv(s, s'.open, s'.open[i]);
    case RegisterView =>
      SeedIsFresh(s.box, Planned(s));
      ProposeKeepsInv(s, s'.open, Registration(SeedCursor(s.box), false, false));
    case LiveRead => ProposeKeepsInv(s, s'.open, RowCopy(s.row, false, false));
    case Install(i) => InstallKeepsInv(s, i);
    case Drop(i) => SameOtherwise(s, s');
  }

  lemma ReadKeepsInv(s: State)
    requires Inv(s) && s.polls == []
    ensures Inv(Apply(s, PollRead))
  {
    var s' := Apply(s, PollRead);
    assert Planned(s') == Planned(s) == s.log == Accounted(s') == Accounted(s);
    forall p | p in s.open ensures SafeProposal(s', p) {
      assert SafeProposal(s, p);
    }
  }

  // ---------- Main results ----------

  // A series of orderly steps from any state.
  ghost predicate OrderlyChain(states: seq<State>, steps: seq<Step>) {
    && |states| == |steps| + 1
    && forall i :: 0 <= i < |steps| ==>
         && Enabled(states[i], steps[i]) && Orderly(states[i], steps[i])
         && states[i + 1] == Apply(states[i], steps[i])
  }

  lemma {:induction false} ChainKeepsInv(states: seq<State>, steps: seq<Step>, n: nat)
    requires OrderlyChain(states, steps) && n < |states| && Inv(states[0])
    ensures Inv(states[n])
  {
    if n > 0 {
      ChainKeepsInv(states, steps, n - 1);
      OrderlyStepKeepsInv(states[n - 1], steps[n - 1]);
    }
  }

  lemma InvHolds(states: seq<State>, steps: seq<Step>, n: nat)
    requires OrderlyRun(states, steps) && n < |states|
    ensures Inv(states[n])
  {
    SeedIsFresh(states[0].box, []);
    ChainKeepsInv(states, steps, n);
  }

  lemma InvOrders(s: State)
    requires Inv(s)
    ensures InOrder(s.log) && Distinct(s.log)
  {
    assert forall i :: 0 <= i < |s.log| ==> Planned(s)[i] == s.log[i];
  }

  // Over every orderly run, each device is pushed messages in strictly increasing
  // order of age, so never the same message twice. When in addition no write sets a
  // count back, an uncounted row tells that nothing was pushed yet.
  lemma DeliveredInOrder(states: seq<State>, steps: seq<Step>, n: nat)
    requires OrderlyRun(states, steps) && n < |states|
    ensures InOrder(states[n].log)
    ensures Distinct(states[n].log)
    ensures CountStaysAll(states, steps) && states[n].row.checkCount == 0 ==> states[n].log == []
  {
    InvHolds(states, steps, n);
    InvOrders(states[n]);
    if CountStaysAll(states, steps) {
      CountTells(states, steps, n);
    }
  }

  // ---------- The warm-up ----------

  // A poll that read an uncounted row has nothing to push.
  ghost predicate Silent(s: State) {
    && s.log == []
    && forall k :: 0 <= k < |s.polls| ==>
         if s.polls[k].Read? then s.polls[k].account.checkCount == 0 else s.polls[k].pushes == []
  }

  lemma SilentStep(s: State, step: Step)
    requires Silent(s) && s.row.checkCount == 0 && Enabled(s, step)
    ensures Silent(Apply(s, step))
  {
    if step.PollFetch? {
      var _ := PlanFacts(s.box, s.polls[step.k].account, step.page, step.devices);
    }
  }

  // In every run, orderly or not, nothing is pushed before the account row has counted a
  // warm-up poll.
  lemma {:induction false} NothingBeforeWarmUp(states: seq<State>, steps: seq<Step>, n: nat)
    requires Run(states, steps) && n < |states|
    requires forall m :: 0 <= m < n ==> states[m].row.checkCount == 0
    ensures Silent(states[n]) && states[n].log == []
  {
    if n > 0 {
      NothingBeforeWarmUp(states, steps, n - 1);
      SilentStep(states[n - 1], steps[n - 1]);
    }
  }

  // No write sets a count back once anything is to be pushed.
  ghost predicate CountStays(s: State, step: Step) {
    step.Install? && step.index < |s.open| ==>
      Installed(s.row, s.open[step.index]).checkCount >= s.row.checkCount || Accounted(s) == []
  }

  ghost predicate Counted(sent: seq<Push>, account: Account) {
    account.checkCount == 0 ==> sent == []
  }

  ghost predicate CountInv(s: State) {
    && |s.polls| <= 1
    && Counted(Accounted(s), s.row)
    && forall poll <- s.polls ::
         match poll
         case Read(account) => Counted(s.log, account)
         case Running(saves, _) => forall a <- saves :: Counted(Planned(s), a)
  }

  lemma FetchKeepsCount(s: State, k: nat, page: seq<nat>, devices: seq<nat>)
    requires CountInv(s) && Enabled(s, PollFetch(k, page, devices))
    ensures CountInv(Apply(s, PollFetch(k, page, devices)))
  {
    FetchShape(s, k, page, devices);
    assert s.polls[k] in s.polls;
    var ids := PlanFacts(s.box, s.polls[k].account, page, devices);
    assert s.log + [] == s.log;
  }

  lemma SaveKeepsCount(s: State, k: nat)
    requires CountInv(s) && Enabled(s, PollSave(k))
    ensures CountInv(Apply(s, PollSave(k)))
  {
    var saves, s' := s.polls[k].saves, Apply(s, PollSave(k));
    assert s.polls[k] in s.polls && saves[0] in saves;
    assert s'.polls == [s.polls[k].(saves := saves[1..])];
    assert Planned(s') == Planned(s);
    AccountedIsPlanned(s');
  }

  lemma LostKeepsCount(s: State, k: nat)
    requires CountInv(s) && Enabled(s, PollSaveLost(k)) && s.polls[k].pushes == []
    ensures CountInv(Apply(s, PollSaveLost(k)))
  {
    var saves, s' := s.polls[k].saves, Apply(s, PollSaveLost(k));
    assert s.polls[k] in s.polls && s'.polls == [s.polls[k].(saves := saves[1..])];
    assert Planned(s') == Planned(s) == s.log == Accounted(s') == Accounted(s);
  }

  lemma PushKeepsCount(s: State, k: nat)
    requires CountInv(s) && Enabled(s, PollPush(k))
    ensures CountInv(Apply(s, PollPush(k)))
  {
    var s' := Apply(s, PollPush(k));
    var pushes := s.polls[k].pushes;
    assert s.log + [pushes[0]] + pushes[1..] == s.log + pushes;
    assert s'.polls == [s.polls[k].(pushes := pushes[1..])];
    assert Accounted(s') == Accounted(s);
  }

  lemma ReadKeepsCount(s: State)
    requires CountInv(s) && s.polls == []
    ensures CountInv(Apply(s, PollRead))
  {
    assert Apply(s, PollRead).polls == [Read(s.row)];
  }

  lemma StopKeepsCount(s: State, k: nat)
    requires CountInv(s) && Enabled(s, PollStop(k))
    ensures CountInv(Apply(s, PollStop(k)))
  {
    AccountedIsPlanned(s);
    assert Apply(s, PollStop(k)).polls == [];
  }

  // The count matters to the row, the polls and the log only.
  lemma RowKeepsCount(s: State, s': State)
    requires CountInv(s) && s'.polls == s.polls && s'.log == s.log && Counted(Accounted(s), s'.row)
    ensures CountInv(s')
  {
    assert Planned(s') == Planned(s) && Accounted(s') == Accounted(s);
  }

  lemma StepKeepsCount(s: State, step: Step)
    requires CountInv(s) && Enabled(s, step) && Orderly(s, step) && CountStays(s, step)
    ensures CountInv(Apply(s, step))
  {
    OrderlyMeans(s, step);
    match step
    case PollRead => ReadKeepsCount(s);
    case PollFetch(k, page, devices) => FetchKeepsCount(s, k, page, devices);
    case PollSave(k) => SaveKeepsCount(s, k);
    case PollSaveLost(k) => LostKeepsCount(s, k);
    case PollPush(k) => PushKeepsCount(s, k);
    case PollStop(k) => StopKeepsCount(s, k);
    case PollRefresh(k) =>
      assert s.polls[k] in s.polls;
      RowKeepsCount(s, Apply(s, step));
    case _ => RowKeepsCount(s, Apply(s, step));
  }

  ghost predicate CountStaysAll(states: seq<State>, steps: seq<Step>)
    requires |states| == |steps| + 1
  {
    forall i :: 0 <= i < |steps| ==> CountStays(states[i], steps[i])
  }

  lemma {:induction false} CountTells(states: seq<State>, steps: seq<Step>, n: nat)
    requires OrderlyRun(states, steps) && n < |states| && CountStaysAll(states, steps)
    ensures CountInv(states[n])
    ensures states[n].row.checkCount == 0 ==> states[n].log == []
  {
    if n > 0 {
      CountTells(states, steps, n - 1);
      StepKeepsCount(states[n - 1], steps[n - 1]);
    }
    AccountedIsPlanned(states[n]);
  }
}
