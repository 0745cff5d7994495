// A job of the notifications worker, cut anywhere, is a series of poll steps of the cursor
// protocol.

module NotificationRuns {
  import opened Wrappers
  import opened Inbox
  import opened CursorProtocol
  import N = Notifications
  import J = NotificationJobs
  import Sender

  lemma Then(states: seq<State>, steps: seq<Step>, step: Step) returns (states': seq<State>, steps': seq<Step>)
    requires Run(states, steps) && Enabled(states[|steps|], step)
    ensures Run(states', steps') && steps <= steps' && states <= states'
    ensures states'[|steps'|] == Apply(states[|steps|], step)
  {
    states', steps' := states + [Apply(states[|steps|], step)], steps + [step];
  }

  // The first m row writes of a poll.
  lemma {:induction false} SaveSteps(states: seq<State>, steps: seq<Step>, k: nat, m: nat)
    returns (states': seq<State>, steps': seq<Step>)
    requires Run(states, steps) && k < |states[|steps|].polls| && states[|steps|].polls[k].Running?
    requires m <= |states[|steps|].polls[k].saves|
    ensures Run(states', steps') && steps <= steps' && states <= states'
    ensures var s := states[|steps|];
            var poll := s.polls[k];
            states'[|steps'|]
            == s.(row := if m == 0 then s.row else poll.saves[m - 1], open := if m == 0 then s.open else Passed(s.open),
                  polls := s.polls[k := Running(poll.saves[m..], poll.pushes)])
    decreases m
  {
    states', steps' := states, steps;
    if m > 0 {
      states', steps' := SaveSteps(states, steps, k, m - 1);
      assert Passed(Passed(states[|steps|].open)) == Passed(states[|steps|].open);
      states', steps' := Then(states', steps', PollSave(k));
    }
  }

  // The first q pushes of a poll that has nothing left to write.
  lemma {:induction false} PushSteps(states: seq<State>, steps: seq<Step>, k: nat, q: nat)
    returns (states': seq<State>, steps': seq<Step>)
    requires Run(states, steps) && k < |states[|steps|].polls| && states[|steps|].polls[k].Running?
    requires states[|steps|].polls[k].saves == [] && q <= |states[|steps|].polls[k].pushes|
    ensures Run(states', steps') && steps <= steps' && states <= states'
    ensures var s := states[|steps|];
            var pushes := s.polls[k].pushes;
            states'[|steps'|] == s.(log := s.log + pushes[..q], polls := s.polls[k := Running([], pushes[q..])])
    decreases q
  {
    states', steps' := states, steps;
    var s := states[|steps|];
    var pushes := s.polls[k].pushes;
    if q == 0 {
      assert s.log + pushes[..0] == s.log && pushes[0..] == pushes;
    } else {
      states', steps' := PushSteps(states, steps, k, q - 1);
      assert s.log + pushes[..q] == s.log + pushes[..q - 1] + [pushes[q - 1]];
      states', steps' := Then(states', steps', PollPush(k));
    }
  }

  lemma PlanSteps(states: seq<State>, steps: seq<Step>, k: nat, m: nat, q: nat)
    returns (states': seq<State>, steps': seq<Step>)
    requires Run(states, steps) && k < |states[|steps|].polls| && states[|steps|].polls[k].Running?
    requires var poll := states[|steps|].polls[k];
             m <= |poll.saves| && q <= |poll.pushes| && (q > 0 ==> m == |poll.saves|)
    ensures Run(states', steps') && steps <= steps' && states <= states'
    ensures var s := states[|steps|];
            var poll := s.polls[k];
            states'[|steps'|]
            == s.(row := if m == 0 then s.row else poll.saves[m - 1], open := if m == 0 then s.open else Passed(s.open),
                  polls := Without(s.polls, k), log := s.log + poll.pushes[..q])
  {
    var s := states[|steps|];
    states', steps' := SaveSteps(states, steps, k, m);
    if q > 0 {
      states', steps' := PushSteps(states', steps', k, q);
    } else {
      assert s.log + s.polls[k].pushes[..0] == s.log;
    }
    states', steps' := Then(states', steps', PollStop(k));
    assert states'[|steps'|].polls == Without(s.polls, k);
  }

  // Whatever prefix of a page's effects takes place before the job ends or dies, poll
  // steps of the protocol leave the same row and push the same messages.
  lemma CutIsPollSteps(apns: bool, wire: N.Gateway, states: seq<State>, steps: seq<Step>, k: nat,
                       page: seq<nat>, devices: seq<Sender.Device>, n: nat)
    returns (states': seq<State>, steps': seq<Step>)
    requires Run(states, steps) && IsReading(states[|steps|], k) && Distinct(N.Ids(devices))
    requires ValidPage(states[|steps|].box, states[|steps|].polls[k].account.cursor, page)
    requires forall i :: 0 <= i < |page| ==> page[i] < |states[|steps|].box|
    requires var s := states[|steps|];
             n <= |N.PageTrace(apns, wire, s.polls[k].account, Things(s.box, page), Some(devices))|
    ensures Run(states', steps') && steps <= steps' && states <= states'
    ensures var s := states[|steps|];
            var cut := N.PageTrace(apns, wire, s.polls[k].account, Things(s.box, page), Some(devices))[..n];
            var saved := n > 0 && PagePlan(s.box, s.polls[k].account, page, N.Ids(devices)).saves != [];
            states'[|steps'|]
            == s.(row := N.RowAfter(s.row, cut), polls := Without(s.polls, k), log := s.log + N.Pushes(cut),
                  open := if saved then Passed(Aged(s.open)) else Aged(s.open))
  {
    var s := states[|steps|];
    var account, things := s.polls[k].account, Things(s.box, page);
    var plan := PagePlan(s.box, account, page, N.Ids(devices));
    var cut := N.PageTrace(apns, wire, account, things, Some(devices))[..n];
    N.CrashCutsThePlan(apns, wire, s.row, account, things, devices, n);
    var m := if n < |plan.saves| then n else |plan.saves|;
    states', steps' := Then(states, steps, PollFetch(k, page, N.Ids(devices)));
    states', steps' := PlanSteps(states', steps', k, m, |N.Pushes(cut)|);
    assert states'[|steps'|].polls == Without(s.polls, k);
  }

  // ---------- The whole job ----------

  lemma {:induction false} SendPageToNobody(apns: bool, wire: N.Gateway, things: seq<Thing>)
    ensures N.SendPage(apns, wire, [], things) == []
  {
    if things != [] {
      SendPageToNobody(apns, wire, things[1..]);
    }
  }

  // When the device query failed, a page is handled as if there were no devices.
  lemma NoDevices(apns: bool, wire: N.Gateway, account: Account, things: seq<Thing>,
                  devices: Option<seq<Sender.Device>>)
    ensures N.PageTrace(apns, wire, account, things, devices)
         == N.PageTrace(apns, wire, account, things, Some(if devices.Some? then devices.value else []))
  {
    SendPageToNobody(apns, wire, things);
  }

  // The effects of a cut: first the refresh's row write, then part of the page's effects,
  // then what touches neither the row nor the devices' screens.
  lemma CutParts(head: seq<N.Effect>, page: seq<N.Effect>, tail: seq<N.Effect>, n: nat)
    returns (first: seq<N.Effect>, m: nat, rest: seq<N.Effect>)
    requires n <= |head + page + tail|
    ensures m <= |page| && (head + page + tail)[..n] == first + page[..m] + rest
    ensures first == (if n < |head| then head[..n] else head) && (forall e <- rest :: e in tail)
    ensures n < |head| ==> m == 0 && rest == []
  {
    if n < |head| {
      first, m, rest := head[..n], 0, [];
    } else if n < |head| + |page| {
      first, m, rest := head, n - |head|, [];
    } else {
      first, m, rest := head, |page|, tail[..n - |head| - |page|];
    }
  }

  lemma ReadCut(row: Account, first: seq<N.Effect>, middle: seq<N.Effect>, rest: seq<N.Effect>)
    requires forall e <- first :: e.Save?
    requires forall e <- rest :: !e.Save? && !e.Deliver?
    ensures N.Pushes(first + middle + rest) == N.Pushes(middle)
    ensures N.RowAfter(row, first + middle + rest) == N.RowAfter(N.RowAfter(row, first), middle)
  {
    N.PushesAppend(first + middle, rest);
    N.PushesAppend(first, middle);
    J.NothingPushed(first);
    J.NothingPushed(rest);
    assert [] + N.Pushes(middle) + [] == N.Pushes(middle);
    RowRead(row, first, middle, rest);
  }

  lemma RowRead(row: Account, first: seq<N.Effect>, middle: seq<N.Effect>, rest: seq<N.Effect>)
    requires forall e <- rest :: !e.Save?
    ensures N.RowAfter(row, first + middle + rest) == N.RowAfter(N.RowAfter(row, first), middle)
  {
    J.WrittenAppend(first + middle, rest);
    J.WrittenAppend(first, middle);
    J.WrittenNone(rest);
    J.RowIsLastWritten(row, first + middle + rest);
    J.RowIsLastWritten(row, first);
    J.RowIsLastWritten(N.RowAfter(row, first), middle);
  }

  // What a cut of a job says of the row and the pushes: the refresh's row write, if it was
  // made, and the first m effects of the page.
  lemma JobCut(apns: bool, wire: N.Gateway, job: N.Job, n: nat, row: Account)
    returns (first: seq<N.Effect>, middle: seq<N.Effect>, m: nat)
    requires job.account.Some? && n <= |N.JobTrace(apns, wire, job)|
    ensures first == [] || first == [N.Save(job.account.value)]
    ensures middle
         == if J.Gets(job) then N.PageTrace(apns, wire, job.account.value, job.fetch.things, job.devices) else []
    ensures m <= |middle|
    ensures var cut := N.JobTrace(apns, wire, job)[..n];
            && N.Pushes(cut) == N.Pushes(middle[..m])
            && N.RowAfter(row, cut) == N.RowAfter(N.RowAfter(row, first), middle[..m])
  {
    var head, tail, rest;
    head, middle, tail := J.JobSplit(apns, wire, job);
    first, m, rest := CutParts(head, middle, tail, n);
    ReadCut(row, first, middle[..m], rest);
  }

  // The token refresh writes the row as the poll read it.
  lemma RefreshSteps(states: seq<State>, steps: seq<Step>, k: nat, first: seq<N.Effect>)
    returns (states': seq<State>, steps': seq<Step>)
    requires Run(states, steps) && IsReading(states[|steps|], k)
    requires first == [] || first == [N.Save(states[|steps|].polls[k].account)]
    ensures Run(states', steps') && steps <= steps' && states <= states'
    ensures states'[|steps'|] == states[|steps|].(row := N.RowAfter(states[|steps|].row, first))
  {
    states', steps' := states, steps;
    if first != [] {
      states', steps' := Then(states, steps, PollRefresh(k));
    }
  }

  // The first m effects of the page, and then the end.
  lemma PageSteps(apns: bool, wire: N.Gateway, states: seq<State>, steps: seq<Step>, k: nat,
                  page: seq<nat>, devices: Option<seq<Sender.Device>>, m: nat)
    returns (states': seq<State>, steps': seq<Step>)
    requires Run(states, steps) && IsReading(states[|steps|], k)
    requires devices.Some? ==> Distinct(N.Ids(devices.value))
    requires ValidPage(states[|steps|].box, states[|steps|].polls[k].account.cursor, page)
    requires forall i :: 0 <= i < |page| ==> page[i] < |states[|steps|].box|
    requires var s := states[|steps|];
             m <= |N.PageTrace(apns, wire, s.polls[k].account, Things(s.box, page), devices)|
    ensures Run(states', steps') && steps <= steps' && states <= states'
    ensures var s, s' := states[|steps|], states'[|steps'|];
            var cut := N.PageTrace(apns, wire, s.polls[k].account, Things(s.box, page), devices)[..m];
            && s' == s.(row := N.RowAfter(s.row, cut), polls := Without(s.polls, k), log := s.log + N.Pushes(cut),
                        open := s'.open)
            && s'.open in [Aged(s.open), Passed(Aged(s.open))]
  {
    var s := states[|steps|];
    NoDevices(apns, wire, s.polls[k].account, Things(s.box, page), devices);
    states', steps' := CutIsPollSteps(apns, wire, states, steps, k, page,
                                      if devices.Some? then devices.value else [], m);
  }

  // Whatever prefix of a job's effects takes place before the job ends or dies, from the
  // row it read on, poll steps of the protocol leave the same row and push the same
  // messages; nothing but the flags of what others have in the making changes besides.
  lemma JobCutIsPollSteps(apns: bool, wire: N.Gateway, states: seq<State>, steps: seq<Step>, k: nat,
                          job: N.Job, page: seq<nat>, n: nat)
    returns (states': seq<State>, steps': seq<Step>)
    requires Run(states, steps) && IsReading(states[|steps|], k)
    requires job.account == Some(states[|steps|].polls[k].account)
    requires job.devices.Some? ==> Distinct(N.Ids(job.devices.value))
    requires J.Gets(job) ==>
               && ValidPage(states[|steps|].box, states[|steps|].polls[k].account.cursor, page)
               && (forall i :: 0 <= i < |page| ==> page[i] < |states[|steps|].box|)
               && job.fetch.things == Things(states[|steps|].box, page)
    requires n <= |N.JobTrace(apns, wire, job)|
    ensures Run(states', steps') && steps <= steps' && states <= states'
    ensures var s, s' := states[|steps|], states'[|steps'|];
            var cut := N.JobTrace(apns, wire, job)[..n];
            && s' == s.(row := N.RowAfter(s.row, cut), polls := Without(s.polls, k), log := s.log + N.Pushes(cut),
                        open := s'.open)
            && s'.open in [s.open, Aged(s.open), Passed(Aged(s.open))]
  {
    var first, middle, m := JobCut(apns, wire, job, n, states[|steps|].row);
    states', steps' := RefreshSteps(states, steps, k, first);
    if J.Gets(job) {
      states', steps' := PageSteps(apns, wire, states', steps', k, page, job.devices, m);
    } else {
      assert middle[..m] == [] && states'[|steps'|].log + [] == states'[|steps'|].log;
      states', steps' := Then(states', steps', PollStop(k));
    }
  }
}
