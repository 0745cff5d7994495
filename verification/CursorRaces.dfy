// Each of the four conditions of an orderly run is needed: a run that meets the other
// three lets a device be pushed messages out of order. Each lemma builds a whole run.

module CursorRaces {
  import opened Wrappers
  import opened Inbox
  import opened CursorProtocol

  const LIVE := Message(false, true)
  const GONE := Message(true, true)
  const PHONE := 7

  // The run meets every condition but `c`, if any.
  ghost predicate AllBut(c: Option<Condition>, states: seq<State>, steps: seq<Step>) {
    && Run(states, steps)
    && forall d: Condition, i :: c != Some(d) && 0 <= i < |steps| ==> Met(d, states[i], steps[i])
  }

  lemma Take(c: Option<Condition>, states: seq<State>, steps: seq<Step>, step: Step)
    returns (states': seq<State>, steps': seq<Step>)
    requires AllBut(c, states, steps) && Enabled(states[|steps|], step)
    requires forall d: Condition :: c != Some(d) ==> Met(d, states[|steps|], step)
    ensures AllBut(c, states', steps')
    ensures states'[|steps'|] == Apply(states[|steps|], step)
  {
    states', steps' := states + [Apply(states[|steps|], step)], steps + [step];
  }

  // With everything listed a page counts down from the newest message.
  lemma {:induction false} FullListing(box: Box, hi: nat, k: nat)
    requires hi <= |box| && forall x :: 0 <= x < hi ==> box[x].listed
    ensures var page := NewestBelow(box, hi, k);
            && |page| == (if hi < k then hi else k)
            && forall i :: 0 <= i < |page| ==> page[i] == hi - 1 - i
  {
    if hi != 0 && k != 0 {
      FullListing(box, hi - 1, k - 1);
    }
  }

  lemma SinglePlan(box: Box, account: Account, id: nat)
    requires id < |box| && box[id] == LIVE && account.checkCount == 1
    ensures PollPlan(account, Things(box, [id]), [PHONE])
            == Plan([account.(cursor := Some(id))], [Push(PHONE, id)])
  {
    var things := [Thing(id, false)];
    assert Things(box, [id]) == things;
    assert FirstLive(things) == Some(id);
    assert LiveOldestFirst(things) == LiveOldestFirst([]) + [id] == [id];
    assert AllPushes([id], [PHONE]) == PushesOf(id, [PHONE]) + AllPushes([], [PHONE]) == [Push(PHONE, id)];
  }

  // The state of an account between polls, at the given cursor.
  ghost predicate Settled(s: State, cursor: nat) {
    s.polls == [] && s.row == Account(Some(cursor), 1)
  }

  // The single new message `id` is on its way to the phone.
  ghost predicate Fetched(s: State, id: nat) {
    s.polls == [Running([Account(Some(id), 1)], [Push(PHONE, id)])]
  }

  lemma FetchOne(c: Option<Condition>, states: seq<State>, steps: seq<Step>, cursor: nat, id: nat)
    returns (states': seq<State>, steps': seq<Step>)
    requires AllBut(c, states, steps)
    requires var s := states[|steps|]; Settled(s, cursor) && cursor < id < |s.box| && s.box[id] == LIVE
    ensures AllBut(c, states', steps')
    ensures var s, s' := states[|steps|], states'[|steps'|];
            Fetched(s', id) && s' == s.(polls := s'.polls, open := Aged(s.open))
  {
    SinglePlan(states[|steps|].box, states[|steps|].row, id);
    states', steps' := Take(c, states, steps, PollRead);
    states', steps' := Take(c, states', steps', PollFetch(0, [id], [PHONE]));
  }

  // A poll that has fetched message `id` saves and pushes it.
  lemma FinishOne(c: Option<Condition>, states: seq<State>, steps: seq<Step>, id: nat)
    returns (states': seq<State>, steps': seq<Step>)
    requires AllBut(c, states, steps) && Fetched(states[|steps|], id)
    ensures AllBut(c, states', steps')
    ensures var s, s' := states[|steps|], states'[|steps'|];
            && Settled(s', id)
            && s' == s.(polls := [], row := s'.row, open := Passed(s.open), log := s.log + [Push(PHONE, id)])
  {
    states', steps' := Take(c, states, steps, PollSave(0));
    states', steps' := Take(c, states', steps', PollPush(0));
    states', steps' := Take(c, states', steps', PollStop(0));
  }

  lemma PollOne(c: Option<Condition>, states: seq<State>, steps: seq<Step>, cursor: nat, id: nat)
    returns (states': seq<State>, steps': seq<Step>)
    requires AllBut(c, states, steps)
    requires var s := states[|steps|]; Settled(s, cursor) && cursor < id < |s.box| && s.box[id] == LIVE
    ensures AllBut(c, states', steps')
    ensures var s, s' := states[|steps|], states'[|steps'|];
            && Settled(s', id)
            && s' == s.(row := s'.row, open := Passed(Aged(s.open)), log := s.log + [Push(PHONE, id)])
  {
    states', steps' := FetchOne(c, states, steps, cursor, id);
    states', steps' := FinishOne(c, states', steps', id);
  }

  // A registered account before its warm-up poll: message 0 seeded the cursor and
  // message 1 has arrived.
  lemma Registered(c: Option<Condition>) returns (states: seq<State>, steps: seq<Step>)
    ensures AllBut(c, states, steps)
    ensures states[|steps|] == State([LIVE, LIVE], Account(Some(0), 0), [], [], [])
  {
    var s := State([LIVE], Account(Some(0), 0), [], [], []);
    FullListing(s.box, 1, 1);
    assert Init(s);
    states, steps := [s], [];
    states, steps := Take(c, states, steps, Arrive([LIVE]));
    assert [LIVE] + [LIVE] == [LIVE, LIVE];
  }

  lemma WarmUpPlan()
    ensures PollPlan(Account(Some(0), 0), Things([LIVE, LIVE], [1]), [PHONE])
         == Plan([Account(Some(1), 0), Account(Some(1), 1)], [])
  {
    assert Things([LIVE, LIVE], [1]) == [Thing(1, false)];
  }

  // The warm-up poll has fetched message 1.
  lemma WarmUpFetch(c: Option<Condition>, states: seq<State>, steps: seq<Step>)
    returns (states': seq<State>, steps': seq<Step>)
    requires AllBut(c, states, steps)
    requires var s := states[|steps|]; s.box == [LIVE, LIVE] && s.row == Account(Some(0), 0) && s.polls == []
    ensures AllBut(c, states', steps')
    ensures var s, poll := states[|steps|], Running([Account(Some(1), 0), Account(Some(1), 1)], []);
            states'[|steps'|] == s.(polls := [poll], open := Aged(s.open))
  {
    states', steps' := Take(c, states, steps, PollRead);
    WarmUpPlan();
    states', steps' := Take(c, states', steps', PollFetch(0, [1], [PHONE]));
  }

  // It moves the cursor to message 1 and sends nothing.
  lemma WarmUp(c: Option<Condition>, states: seq<State>, steps: seq<Step>)
    returns (states': seq<State>, steps': seq<Step>)
    requires AllBut(c, states, steps)
    requires var s := states[|steps|]; s.box == [LIVE, LIVE] && s.row == Account(Some(0), 0) && s.polls == []
    ensures AllBut(c, states', steps')
    ensures var s := states[|steps|];
            states'[|steps'|] == s.(row := Account(Some(1), 1), open := Passed(Aged(s.open)))
  {
    states', steps' := WarmUpFetch(c, states, steps);
    var open := states'[|steps'|].open;
    assert Passed(Passed(open)) == Passed(open);
    states', steps' := Take(c, states', steps', PollSave(0));
    states', steps' := Take(c, states', steps', PollSave(0));
    states', steps' := Take(c, states', steps', PollStop(0));
  }

  lemma WarmedUp(c: Option<Condition>) returns (states: seq<State>, steps: seq<Step>)
    ensures AllBut(c, states, steps)
    ensures states[|steps|] == State([LIVE, LIVE], Account(Some(1), 1), [], [], [])
  {
    states, steps := Registered(c);
    states, steps := WarmUp(c, states, steps);
  }

  // ... and message 2 has arrived.
  lemma NewMessage(c: Option<Condition>) returns (states: seq<State>, steps: seq<Step>)
    ensures AllBut(c, states, steps)
    ensures states[|steps|] == State([LIVE, LIVE, LIVE], Account(Some(1), 1), [], [], [])
  {
    states, steps := WarmedUp(c);
    states, steps := Take(c, states, steps, Arrive([LIVE]));
    assert states[|steps|].box == [LIVE, LIVE, LIVE];
  }

  lemma Resent(log: seq<Push>)
    requires log == [Push(PHONE, 2), Push(PHONE, 2)]
    ensures !InOrder(log)
  {
    assert log[0].device == log[1].device && log[0].id == log[1].id;
  }

  // Message 2 was pushed, and a write in the making sets the cursor back to message 1.
  lemma UndoneResends(states: seq<State>, steps: seq<Step>) returns (states': seq<State>, steps': seq<Step>)
    requires AllBut(Some(NothingUndone), states, steps)
    requires var s := states[|steps|];
             && s.box == [LIVE, LIVE, LIVE] && Settled(s, 2) && s.log == [Push(PHONE, 2)]
             && |s.open| == 1 && !s.open[0].StuckRow? && Installed(s.row, s.open[0]) == Account(Some(1), 1)
    ensures AllBut(Some(NothingUndone), states', steps')
    ensures states'[|steps'|].log == [Push(PHONE, 2), Push(PHONE, 2)] && !InOrder(states'[|steps'|].log)
  {
    states', steps' := Take(Some(NothingUndone), states, steps, Install(0));
    states', steps' := PollOne(Some(NothingUndone), states', steps', 1, 2);
    Resent(states'[|steps'|].log);
  }

  // A registration that looked at the inbox before a poll wrote the row, and writes
  // its cursor after it, makes the next poll push the same message again.
  lemma RacingRegistrationResends() returns (states: seq<State>, steps: seq<Step>)
    ensures AllBut(Some(NothingUndone), states, steps)
    ensures states[|steps|].log == [Push(PHONE, 2), Push(PHONE, 2)] && !InOrder(states[|steps|].log)
  {
    var c := Some(NothingUndone);
    states, steps := WarmedUp(c);
    FullListing([LIVE, LIVE], 2, 1);
    states, steps := Take(c, states, steps, RegisterView);
    states, steps := Take(c, states, steps, Arrive([LIVE]));
    assert states[|steps|].box == [LIVE, LIVE, LIVE];
    states, steps := PollOne(c, states, steps, 1, 2);
    states, steps := UndoneResends(states, steps);
  }

  // So does a stuck check: its lookup lost the cursor's message, and it looked at the
  // inbox before the new message arrived.
  lemma RacingStuckCheckResends() returns (states: seq<State>, steps: seq<Step>)
    ensures AllBut(Some(NothingUndone), states, steps)
    ensures states[|steps|].log == [Push(PHONE, 2), Push(PHONE, 2)] && !InOrder(states[|steps|].log)
  {
    var c := Some(NothingUndone);
    states, steps := WarmedUp(c);
    states, steps := Take(c, states, steps, StuckRead);
    ResetIsNewest();
    states, steps := Take(c, states, steps, StuckView(0, true));
    states, steps := Take(c, states, steps, Arrive([LIVE]));
    assert states[|steps|].box == [LIVE, LIVE, LIVE];
    states, steps := PollOne(c, states, steps, 1, 2);
    states, steps := UndoneResends(states, steps);
  }

  lemma ResetIsNewest()
    ensures ResetCursor([LIVE, LIVE]) == Some(1)
  {
    FullListing([LIVE, LIVE], 2, LISTING_LIMIT);
    assert Newest([LIVE, LIVE], LISTING_LIMIT) == [1, 0];
  }

  // So does a Live Activity job that refreshes its tokens: it read the row before the
  // poll saved, even after the poll's fetch, and writes it back as it was.
  lemma TokenRefreshResends() returns (states: seq<State>, steps: seq<Step>)
    ensures AllBut(Some(NothingUndone), states, steps)
    ensures states[|steps|].log == [Push(PHONE, 2), Push(PHONE, 2)] && !InOrder(states[|steps|].log)
  {
    var c := Some(NothingUndone);
    states, steps := NewMessage(c);
    states, steps := FetchOne(c, states, steps, 1, 2);
    states, steps := Take(c, states, steps, LiveRead);
    states, steps := FinishOne(c, states, steps, 2);
    states, steps := UndoneResends(states, steps);
  }

  // A failed cursor write goes unnoticed: the pushes still happen, and the next poll
  // starts from the old cursor.
  lemma LostWriteResends() returns (states: seq<State>, steps: seq<Step>)
    ensures AllBut(Some(SavesSucceed), states, steps)
    ensures states[|steps|].log == [Push(PHONE, 2), Push(PHONE, 2)] && !InOrder(states[|steps|].log)
  {
    var c := Some(SavesSucceed);
    states, steps := NewMessage(c);
    states, steps := FetchOne(c, states, steps, 1, 2);
    states, steps := Take(c, states, steps, PollSaveLost(0));
    states, steps := Take(c, states, steps, PollPush(0));
    states, steps := Take(c, states, steps, PollStop(0));
    states, steps := PollOne(c, states, steps, 1, 2);
    Resent(states[|steps|].log);
  }

  // Two polls of one account have fetched message 2.
  lemma BothFetched() returns (states: seq<State>, steps: seq<Step>)
    ensures AllBut(Some(OnePoll), states, steps)
    ensures var poll := Running([Account(Some(2), 1)], [Push(PHONE, 2)]);
            states[|steps|] == State([LIVE, LIVE, LIVE], Account(Some(1), 1), [poll, poll], [], [])
  {
    states, steps := NewMessage(Some(OnePoll));
    states, steps := FetchOne(Some(OnePoll), states, steps, 1, 2);
    states, steps := Take(Some(OnePoll), states, steps, PollRead);
    SinglePlan(states[|steps|].box, Account(Some(1), 1), 2);
    states, steps := Take(Some(OnePoll), states, steps, PollFetch(1, [2], [PHONE]));
  }

  // Two polls of one account that read the row before either saves push the same message.
  lemma OverlappingPollsResend() returns (states: seq<State>, steps: seq<Step>)
    ensures AllBut(Some(OnePoll), states, steps)
    ensures states[|steps|].log == [Push(PHONE, 2), Push(PHONE, 2)] && !InOrder(states[|steps|].log)
  {
    states, steps := BothFetched();
    states, steps := Take(Some(OnePoll), states, steps, PollSave(0));
    states, steps := Take(Some(OnePoll), states, steps, PollPush(0));
    states, steps := Take(Some(OnePoll), states, steps, PollStop(0));
    assert Fetched(states[|steps|], 2);
    states, steps := FinishOne(Some(OnePoll), states, steps, 2);
    Resent(states[|steps|].log);
  }

  // The stuck check also writes back the count it read. One that began before the warm-up
  // poll sets the count back to zero after pushes were made, though the run is orderly,
  // and the next poll is a warm-up again.
  lemma StuckCheckUncounts() returns (states: seq<State>, steps: seq<Step>)
    ensures OrderlyRun(states, steps) && !CountStaysAll(states, steps)
    ensures states[|steps|].row == Account(Some(2), 0) && states[|steps|].log == [Push(PHONE, 2)]
  {
    states, steps := UncountedRow();
    ResetIsSecond();
    states, steps := Take(None, states, steps, StuckView(0, true));
    states, steps := Take(None, states, steps, Install(0));
    AllIsOrderly(states, steps);
    if CountStaysAll(states, steps) {
      CountTells(states, steps, |steps|);
    }
  }

  lemma AllIsOrderly(states: seq<State>, steps: seq<Step>)
    requires AllBut(None, states, steps)
    ensures OrderlyRun(states, steps)
  {
    forall i | 0 <= i < |steps| ensures Orderly(states[i], steps[i]) {
      forall d: Condition ensures Met(d, states[i], steps[i]) {
        assert None != Some(d);
      }
    }
  }

  // The row read before the warm-up is still open after message 2 was pushed.
  lemma UncountedRow() returns (states: seq<State>, steps: seq<Step>)
    ensures AllBut(None, states, steps)
    ensures var stuck := StuckRow(Account(Some(0), 0), true, false);
            states[|steps|] == State([LIVE, LIVE, LIVE], Account(Some(2), 1), [], [stuck], [Push(PHONE, 2)])
  {
    states, steps := Registered(None);
    states, steps := Take(None, states, steps, StuckRead);
    states, steps := WarmUp(None, states, steps);
    states, steps := Take(None, states, steps, Arrive([LIVE]));
    assert states[|steps|].box == [LIVE, LIVE, LIVE];
    states, steps := PollOne(None, states, steps, 1, 2);
  }

  lemma ResetIsSecond()
    ensures ResetCursor([LIVE, LIVE, LIVE]) == Some(2)
  {
    FullListing([LIVE, LIVE, LIVE], 3, LISTING_LIMIT);
    assert Newest([LIVE, LIVE, LIVE], LISTING_LIMIT) == [2, 1, 0];
  }

  // 25 deleted messages on top make the stuck check empty the cursor.
  lemma ResetIsEmpty(box: Box)
    requires |box| == 28 && forall x :: 0 <= x < 28 ==> box[x] == if x < 3 then LIVE else GONE
    ensures ResetCursor(box) == None && Stuck(box, 2, false)
  {
    FullListing(box, 28, LISTING_LIMIT);
    var view := Newest(box, LISTING_LIMIT);
    PageIsWindow(box, |box|, LISTING_LIMIT);
    var things := Things(box, view);
    FirstLiveFacts(things);
  }

  // Message 2 was pushed; then 25 deleted messages emptied the cursor.
  lemma EmptiedCursor() returns (states: seq<State>, steps: seq<Step>)
    ensures AllBut(Some(ListedUnderEmptyCursor), states, steps)
    ensures var s := states[|steps|];
            && s.polls == [] && s.open == [] && s.row == Account(None, 1) && s.log == [Push(PHONE, 2)]
            && |s.box| == 28 && forall x :: 0 <= x < 3 ==> s.box[x] == LIVE
  {
    var c := Some(ListedUnderEmptyCursor);
    states, steps := NewMessage(c);
    states, steps := PollOne(c, states, steps, 1, 2);
    states, steps := Take(Some(ListedUnderEmptyCursor), states, steps, Arrive(seq(LISTING_LIMIT, _ => GONE)));
    ResetIsEmpty(states[|steps|].box);
    states, steps := Take(Some(ListedUnderEmptyCursor), states, steps, StuckRead);
    states, steps := Take(Some(ListedUnderEmptyCursor), states, steps, StuckView(0, false));
    states, steps := Take(Some(ListedUnderEmptyCursor), states, steps, Install(0));
  }

  // When such messages then leave the listing, the next page reaches back to
  // messages that were already pushed.
  lemma UnlistingUnderEmptyCursorResends() returns (states: seq<State>, steps: seq<Step>)
    ensures AllBut(Some(ListedUnderEmptyCursor), states, steps)
    ensures !InOrder(states[|steps|].log)
  {
    states, steps := EmptiedCursor();
    var gone: seq<nat> := seq(LISTING_LIMIT, i => i + 3);
    states, steps := Take(Some(ListedUnderEmptyCursor), states, steps, Unlist(set x | x in gone));
    forall x | 3 <= x < 28 ensures x in gone {
      assert gone[x - 3] == x;
    }
    states, steps := RepushOld(states, steps);
  }

  lemma {:induction false} SkipUnlisted(box: Box, hi: nat, k: nat)
    requires 3 <= hi <= |box| && 3 <= k && forall x :: 3 <= x < hi ==> !box[x].listed
    requires forall x :: 0 <= x < 3 ==> box[x].listed
    ensures NewestBelow(box, hi, k) == [2, 1, 0]
  {
    if hi == 3 {
      FullListing(box, 3, k);
    } else {
      SkipUnlisted(box, hi - 1, k);
    }
  }

  lemma OldPagePlan(box: Box)
    requires |box| == 28 && forall x :: 0 <= x < 3 ==> box[x] == LIVE
    ensures var plan := PollPlan(Account(None, 1), Things(box, [2, 1, 0]), [PHONE]);
            && plan.saves == [Account(Some(2), 1)]
            && plan.pushes != [] && plan.pushes[0] == Push(PHONE, 0)
  {
    var things := Things(box, [2, 1, 0]);
    assert things == [Thing(2, false), Thing(1, false), Thing(0, false)];
    assert LiveOldestFirst(things[3..]) == [];
    assert LiveOldestFirst(things[2..]) == [0];
    assert LiveOldestFirst(things[1..]) == [0, 1];
    assert AllPushes([0, 1, 2], [PHONE])[0] == Push(PHONE, 0);
  }

  lemma RepushOld(states: seq<State>, steps: seq<Step>) returns (states': seq<State>, steps': seq<Step>)
    requires AllBut(Some(ListedUnderEmptyCursor), states, steps)
    requires var s := states[|steps|];
             && s.polls == [] && s.open == [] && s.row == Account(None, 1) && s.log == [Push(PHONE, 2)]
             && |s.box| == 28 && (forall x :: 0 <= x < 3 ==> s.box[x] == LIVE)
             && (forall x :: 3 <= x < 28 ==> !s.box[x].listed)
    ensures AllBut(Some(ListedUnderEmptyCursor), states', steps')
    ensures !InOrder(states'[|steps'|].log)
  {
    var s := states[|steps|];
    SkipUnlisted(s.box, 28, POLL_LIMIT);
    states', steps' := Take(Some(ListedUnderEmptyCursor), states, steps, PollRead);
    OldPagePlan(s.box);
    states', steps' := Take(Some(ListedUnderEmptyCursor), states', steps', PollFetch(0, [2, 1, 0], [PHONE]));
    states', steps' := Take(Some(ListedUnderEmptyCursor), states', steps', PollSave(0));
    states', steps' := Take(Some(ListedUnderEmptyCursor), states', steps', PollPush(0));
    var log := states'[|steps'|].log;
    assert log == [Push(PHONE, 2), Push(PHONE, 0)];
    assert log[0].device == log[1].device && log[0].id > log[1].id;
  }
}
