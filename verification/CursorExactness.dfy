// When an account that nobody is working on is safe: exactly when no orderly future
// pushes its devices a message out of order.

module CursorExactness {
  import opened Wrappers
  import opened Inbox
  import opened CursorProtocol

  // No poll and no other writer is under way.
  ghost predicate Settled(s: State) {
    s.polls == [] && s.open == []
  }

  // Everything pushed so far exists, and was pushed in order.
  ghost predicate Clean(s: State) {
    InOrder(s.log) && AllOlder(s.log, |s.box|)
  }

  ghost predicate StaysOrdered(s: State) {
    forall states: seq<State>, steps :: OrderlyChain(states, steps) && states[0] == s ==> InOrder(states[|steps|].log)
  }

  lemma Extend(states: seq<State>, steps: seq<Step>, step: Step) returns (states': seq<State>, steps': seq<Step>)
    requires OrderlyChain(states, steps) && Enabled(states[|steps|], step) && Orderly(states[|steps|], step)
    ensures OrderlyChain(states', steps') && states'[0] == states[0]
    ensures states'[|steps'|] == Apply(states[|steps|], step)
  {
    states', steps' := states + [Apply(states[|steps|], step)], steps + [step];
  }

  // ---------- A safe account ----------

  lemma SafeStaysOrdered(s: State)
    requires Settled(s) && Clean(s) && SafeAccount(s.box, s.log, s.row)
    ensures StaysOrdered(s)
  {
    assert Planned(s) == s.log == Accounted(s);
    forall states: seq<State>, steps | OrderlyChain(states, steps) && states[0] == s
      ensures InOrder(states[|steps|].log)
    {
      ChainKeepsInv(states, steps, |steps|);
      InvOrders(states[|steps|]);
    }
  }

  // ---------- An unsafe cursor ----------

  // A page that shows message x.
  function PageOf(box: Box, cursor: Cursor, x: nat): (page: seq<nat>) {
    if cursor.None? then Newest(box, POLL_LIMIT) else [x]
  }

  lemma PageShows(box: Box, cursor: Cursor, x: nat)
    requires Visible(box, cursor, x)
    ensures ValidPage(box, cursor, PageOf(box, cursor, x)) && x in PageOf(box, cursor, x)
  {
  }

  // The rest of a poll whose turn it is to write a row.
  lemma {:induction false} SaveAll(states: seq<State>, steps: seq<Step>)
    returns (states': seq<State>, steps': seq<Step>)
    requires OrderlyChain(states, steps)
    requires var s := states[|steps|]; |s.polls| == 1 && s.polls[0].Running?
    ensures OrderlyChain(states', steps') && states'[0] == states[0]
    ensures var s, s' := states[|steps|], states'[|steps'|];
            s'.box == s.box && s'.log == s.log && s'.polls == [Running([], s.polls[0].pushes)]
    decreases |states[|steps|].polls[0].saves|
  {
    states', steps' := states, steps;
    var s := states[|steps|];
    if s.polls[0].saves == [] {
      assert s.polls == [Running([], s.polls[0].pushes)];
    } else {
      states', steps' := Extend(states, steps, PollSave(0));
      states', steps' := SaveAll(states', steps');
    }
  }

  // ... and to push.
  lemma {:induction false} PushAll(states: seq<State>, steps: seq<Step>)
    returns (states': seq<State>, steps': seq<Step>)
    requires OrderlyChain(states, steps)
    requires var s := states[|steps|]; |s.polls| == 1 && s.polls[0].Running? && s.polls[0].saves == []
    ensures OrderlyChain(states', steps') && states'[0] == states[0]
    ensures states'[|steps'|].log == states[|steps|].log + states[|steps|].polls[0].pushes
    decreases |states[|steps|].polls[0].pushes|
  {
    states', steps' := states, steps;
    var s := states[|steps|];
    var pushes := s.polls[0].pushes;
    if pushes == [] {
      assert s.log + pushes == s.log;
    } else {
      states', steps' := Extend(states, steps, PollPush(0));
      assert s.log + [pushes[0]] + pushes[1..] == s.log + pushes;
      states', steps' := PushAll(states', steps');
    }
  }

  // One whole poll of a counted account, of the given page and device.
  lemma WholePoll(states: seq<State>, steps: seq<Step>, page: seq<nat>, device: nat)
    returns (states': seq<State>, steps': seq<Step>)
    requires OrderlyChain(states, steps) && Settled(states[|steps|]) && states[|steps|].row.checkCount > 0
    requires ValidPage(states[|steps|].box, states[|steps|].row.cursor, page)
    ensures OrderlyChain(states', steps') && states'[0] == states[0]
    ensures var s := states[|steps|];
            states'[|steps'|].log == s.log + PagePlan(s.box, s.row, page, [device]).pushes
  {
    states', steps' := Extend(states, steps, PollRead);
    states', steps' := Extend(states', steps', PollFetch(0, page, [device]));
    states', steps' := SaveAll(states', steps');
    states', steps' := PushAll(states', steps');
  }

  lemma Repeats(log: seq<Push>, more: seq<Push>, p: Push, q: Push)
    requires p in log && q in more && p.device == q.device && q.id <= p.id
    ensures !InOrder(log + more)
  {
    var i :| 0 <= i < |log| && log[i] == p;
    var j :| 0 <= j < |more| && more[j] == q;
    assert (log + more)[i] == p && (log + more)[|log| + j] == q;
  }

  // A counted account with an unsafe cursor pushes out of order at its next poll.
  lemma UnsafePollRepeats(states: seq<State>, steps: seq<Step>, x: nat, p: Push)
    returns (states': seq<State>, steps': seq<Step>)
    requires OrderlyChain(states, steps) && Settled(states[|steps|]) && states[|steps|].row.checkCount > 0
    requires var s := states[|steps|];
             x < |s.box| && Visible(s.box, s.row.cursor, x) && !s.box[x].deleted && p in s.log && x <= p.id
    ensures OrderlyChain(states', steps') && states'[0] == states[0] && !InOrder(states'[|steps'|].log)
  {
    var s := states[|steps|];
    var page := PageOf(s.box, s.row.cursor, x);
    PageShows(s.box, s.row.cursor, x);
    var ids := PlanFacts(s.box, s.row, page, [p.device]);
    AllPushesMembers(ids, [p.device], Push(p.device, x));
    states', steps' := WholePoll(states, steps, page, p.device);
    Repeats(s.log, PagePlan(s.box, s.row, page, [p.device]).pushes, p, Push(p.device, x));
  }

  // An uncounted account whose cursor is not empty counts a warm-up poll that finds a
  // deleted message only, and keeps its cursor.
  lemma CountedFirst(s: State) returns (states: seq<State>, steps: seq<Step>)
    requires Settled(s) && s.row.checkCount == 0 && s.row.cursor.Some? && s.row.cursor.value < |s.box|
    ensures OrderlyChain(states, steps) && states[0] == s
    ensures var s' := states[|steps|];
            && Settled(s') && s'.log == s.log && s'.row == s.row.(checkCount := 1)
            && s'.box == s.box + [Message(true, true)]
  {
    states, steps := Extend([s], [], Arrive([Message(true, true)]));
    states, steps := Extend(states, steps, PollRead);
    states, steps := FetchDeleted(states, steps);
    states, steps := Extend(states, steps, PollSave(0));
    states, steps := Extend(states, steps, PollStop(0));
  }

  // The newest message is deleted and alone on the page.
  lemma FetchDeleted(states: seq<State>, steps: seq<Step>) returns (states': seq<State>, steps': seq<Step>)
    requires OrderlyChain(states, steps)
    requires var s := states[|steps|];
             && s.polls == [Read(s.row)] && s.open == [] && s.row.checkCount == 0 && s.row.cursor.Some?
             && s.row.cursor.value < |s.box| - 1 && s.box[|s.box| - 1] == Message(true, true)
    ensures OrderlyChain(states', steps') && states'[0] == states[0]
    ensures var s := states[|steps|];
            states'[|steps'|] == s.(polls := [Running([s.row.(checkCount := 1)], [])])
  {
    var s := states[|steps|];
    var page := [|s.box| - 1];
    DeletedPlan(s.box, s.row, page);
    states', steps' := Extend(states, steps, PollFetch(0, page, []));
  }

  lemma DeletedPlan(box: Box, account: Account, page: seq<nat>)
    requires ValidPage(box, account.cursor, page) && page != [] && account.checkCount == 0
    requires forall x <- page :: x < |box| && box[x].deleted
    ensures PagePlan(box, account, page, []) == Plan([account.(checkCount := 1)], [])
  {
    var ids := PlanFacts(box, account, page, []);
    assert forall i :: 0 <= i < |ids| ==> ids[i] in ids;
  }

  lemma UnsafeBreaks(s: State) returns (states: seq<State>, steps: seq<Step>)
    requires Settled(s) && !SafeAccount(s.box, s.log, s.row)
    ensures OrderlyChain(states, steps) && states[0] == s && !InOrder(states[|steps|].log)
  {
    var x :| 0 <= x < |s.box| && Visible(s.box, s.row.cursor, x) && !s.box[x].deleted && !AllOlder(s.log, x);
    var p :| p in s.log && x <= p.id;
    states, steps := [s], [];
    if s.row.checkCount == 0 {
      states, steps := CountedFirst(s);
    }
    states, steps := UnsafePollRepeats(states, steps, x, p);
  }

  // ---------- Exactly ----------

  // An account that nobody is working on gets its messages in order in every orderly
  // future exactly when it is blank, or every undeleted message that its cursor still
  // admits is newer than all that was pushed.
  lemma SettledExactly(s: State)
    requires Settled(s) && Clean(s)
    ensures SafeAccount(s.box, s.log, s.row) <==> StaysOrdered(s)
  {
    if SafeAccount(s.box, s.log, s.row) {
      SafeStaysOrdered(s);
    } else {
      var states, steps := UnsafeBreaks(s);
    }
  }

  // ---------- In any state ----------

  lemma StaysLater(states: seq<State>, steps: seq<Step>)
    requires OrderlyChain(states, steps) && StaysOrdered(states[0])
    ensures StaysOrdered(states[|steps|])
  {
    var t := states[|steps|];
    forall states': seq<State>, steps' | OrderlyChain(states', steps') && states'[0] == t
      ensures InOrder(states'[|steps'|].log)
    {
      var whole, all := states + states'[1..], steps + steps';
      assert forall i :: 0 <= i <= |steps'| ==> whole[|steps| + i] == states'[i];
      assert OrderlyChain(whole, all) && whole[0] == states[0] && whole[|all|] == states'[|steps'|];
    }
  }

  // Every poll may die and every other writer give up.
  lemma {:induction false} Abandon(states: seq<State>, steps: seq<Step>)
    returns (states': seq<State>, steps': seq<Step>)
    requires OrderlyChain(states, steps)
    ensures OrderlyChain(states', steps') && states'[0] == states[0]
    ensures states'[|steps'|] == states[|steps|].(polls := [], open := [])
    decreases |states[|steps|].polls| + |states[|steps|].open|
  {
    states', steps' := states, steps;
    var s := states[|steps|];
    if s.polls != [] {
      states', steps' := Extend(states, steps, PollStop(0));
      states', steps' := Abandon(states', steps');
    } else if s.open != [] {
      states', steps' := Extend(states, steps, Drop(0));
      states', steps' := Abandon(states', steps');
    }
  }

  // Whatever is under way, a stored row that is not safe can push out of order, and so
  // can a write in the making that no save has gone past.
  lemma RowsMustBeSafe(s: State)
    requires Clean(s) && StaysOrdered(s)
    ensures SafeAccount(s.box, s.log, s.row)
    ensures forall i :: 0 <= i < |s.open| && !s.open[i].StuckRow? && !s.open[i].overtaken ==>
              SafeAccount(s.box, s.log, Installed(s.row, s.open[i]))
  {
    RowMustBeSafe([s], []);
    forall i | 0 <= i < |s.open| && !s.open[i].StuckRow? && !s.open[i].overtaken
      ensures SafeAccount(s.box, s.log, Installed(s.row, s.open[i]))
    {
      var states, steps := Extend([s], [], Install(i));
      RowMustBeSafe(states, steps);
    }
  }

  lemma RowMustBeSafe(states: seq<State>, steps: seq<Step>)
    requires OrderlyChain(states, steps) && StaysOrdered(states[0]) && Clean(states[|steps|])
    ensures var t := states[|steps|]; SafeAccount(t.box, t.log, t.row)
  {
    var states', steps' := Abandon(states, steps);
    StaysLater(states', steps');
    SettledExactly(states'[|steps'|]);
  }

  // ---------- What every run keeps ----------

  ghost predicate PushesExist(s: State) {
    && AllOlder(s.log, |s.box|)
    && forall k :: 0 <= k < |s.polls| && s.polls[k].Running? ==> AllOlder(s.polls[k].pushes, |s.box|)
  }

  lemma StepKeepsPushes(s: State, step: Step)
    requires PushesExist(s) && Enabled(s, step)
    ensures PushesExist(Apply(s, step))
  {
    if step.PollFetch? {
      var account := s.polls[step.k].account;
      var ids := PlanFacts(s.box, account, step.page, step.devices);
      forall p | p in PagePlan(s.box, account, step.page, step.devices).pushes ensures p.id < |s.box| {
        AllPushesMembers(ids, step.devices, p);
      }
    } else if step.PollPush? {
      var pushes := s.polls[step.k].pushes;
      assert pushes[0] in pushes && forall p <- pushes[1..] :: p in pushes;
    }
  }

  // Whatever is pushed exists, in every run, orderly or not. So the exact condition holds
  // for every settled state that a run reaches without disorder.
  lemma {:induction false} PushedExist(states: seq<State>, steps: seq<Step>, n: nat)
    requires Run(states, steps) && n < |states|
    ensures PushesExist(states[n])
  {
    if n > 0 {
      PushedExist(states, steps, n - 1);
      StepKeepsPushes(states[n - 1], steps[n - 1]);
    }
  }

  lemma ReachedExactly(states: seq<State>, steps: seq<Step>)
    requires Run(states, steps) && Settled(states[|steps|]) && InOrder(states[|steps|].log)
    ensures var s := states[|steps|]; SafeAccount(s.box, s.log, s.row) <==> StaysOrdered(s)
  {
    PushedExist(states, steps, |steps|);
    SettledExactly(states[|steps|]);
  }
}
