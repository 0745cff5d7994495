// The notifications worker: one job polls one account's inbox, moves the cursor
// and pushes what is new. Every effect a job has on the outside is recorded in
// order, so a crash is a prefix of the record.

module Notifications {
  import opened Wrappers
  import opened Inbox
  import opened Sender

  datatype Effect =
    | Save(account: Account)            // whole-row write of the account
    | Revoke                            // deleteAccount
    | Deliver(device: nat, id: nat)     // one push attempt
    | Unregister(device: nat)           // device row deleted
    | Unlock                            // lock key deleted
    | Ack                               // delivery acknowledged

  datatype Refresh = NotNeeded | Refreshed | RefreshRevoked | RefreshFailed
  datatype Fetch = Page(things: seq<Thing>) | FetchRevoked | FetchFailed

  // Everything a job learns from the outside.
  datatype Job = Job(
    tooOld: bool,                       // the lock's remaining time reads zero
    account: Option<Account>,           // the row, if the account is registered
    refresh: Refresh,
    fetch: Fetch,
    devices: Option<seq<Device>>)       // notifiable devices, unless the query failed

  type Gateway = (Device, nat) -> Wire

  // ---------- The effects of a job ----------

  function SendOne(apns: bool, wire: Gateway, device: Device, id: nat): (effects: seq<Effect>) {
    [Deliver(device.id, id)]
    + if Send(apns, device, wire(device, id)).shouldUnregister then [Unregister(device.id)] else []
  }

  function SendToAll(apns: bool, wire: Gateway, devices: seq<Device>, id: nat): (effects: seq<Effect>) {
    if devices == [] then []
    else
      var n := |devices| - 1;
      SendToAll(apns, wire, devices[..n], id) + SendOne(apns, wire, devices[n], id)
  }

  // Pages come newest first; sends go oldest first.
  function SendPage(apns: bool, wire: Gateway, devices: seq<Device>, things: seq<Thing>): (effects: seq<Effect>) {
    if things == [] then []
    else
      SendPage(apns, wire, devices, things[1..])
      + if things[0].deleted then [] else SendToAll(apns, wire, devices, things[0].id)
  }

  function Saves(rows: seq<Account>): (effects: seq<Effect>) {
    if rows == [] then [] else [Save(rows[0])] + Saves(rows[1..])
  }

  // The part of a page's trace after the row writes.
  function PageSends(apns: bool, wire: Gateway, account: Account, things: seq<Thing>, devices: Option<seq<Device>>):
    (effects: seq<Effect>)
  {
    if account.checkCount == 0 || devices.None? then [] else SendPage(apns, wire, devices.value, things)
  }

  function PageTrace(apns: bool, wire: Gateway, account: Account, things: seq<Thing>, devices: Option<seq<Device>>):
    (effects: seq<Effect>)
  {
    Saves(PollPlan(account, things, []).saves) + PageSends(apns, wire, account, things, devices)
  }

  function RefreshTrace(account: Account, refresh: Refresh): (effects: seq<Effect>) {
    match refresh
    case NotNeeded => []
    case Refreshed => [Save(account)]
    case RefreshRevoked => [Revoke]
    case RefreshFailed => []
  }

  function FetchTrace(apns: bool, wire: Gateway, account: Account, job: Job): (effects: seq<Effect>) {
    match job.fetch
    case FetchFailed => []
    case FetchRevoked => [Revoke]
    case Page(things) => PageTrace(apns, wire, account, things, job.devices)
  }

  function PollTrace(apns: bool, wire: Gateway, account: Account, job: Job): (effects: seq<Effect>) {
    if job.refresh.RefreshFailed? || job.refresh.RefreshRevoked? then RefreshTrace(account, job.refresh)
    else RefreshTrace(account, job.refresh) + FetchTrace(apns, wire, account, job)
  }

  function JobTrace(apns: bool, wire: Gateway, job: Job): (effects: seq<Effect>) {
    if job.tooOld then [Ack]
    else
      (if job.account.Some? then PollTrace(apns, wire, job.account.value, job) else []) + [Unlock, Ack]
  }

  // ---------- Reading a trace ----------

  // The account row after the effects so far: the last row written.
  function RowAfter(row: Account, effects: seq<Effect>): (after: Account) {
    if effects == [] then row
    else
      var last := effects[|effects| - 1];
      if last.Save? then last.account else RowAfter(row, effects[..|effects| - 1])
  }

  function PushOf(e: Effect): (pushes: seq<Push>) {
    if e.Deliver? then [Push(e.device, e.id)] else []
  }

  function Pushes(effects: seq<Effect>): (pushes: seq<Push>) {
    if effects == [] then [] else PushOf(effects[0]) + Pushes(effects[1..])
  }

  lemma Associative<T>(a: seq<T>, b: seq<T>, c: seq<T>)
    ensures a + (b + c) == (a + b) + c
  {
  }

  lemma PushesHead(e: Effect, a: seq<Effect>, b: seq<Effect>)
    requires a != [] && a[0] == e
    ensures Pushes(a) == PushOf(e) + Pushes(a[1..])
    ensures Pushes(a + b) == PushOf(e) + Pushes(a[1..] + b)
  {
    assert (a + b)[0] == e && (a + b)[1..] == a[1..] + b;
  }

  lemma {:induction false} PushesAppend(a: seq<Effect>, b: seq<Effect>)
    ensures Pushes(a + b) == Pushes(a) + Pushes(b)
  {
    if a == [] {
      assert a + b == b;
    } else {
      PushesAppend(a[1..], b);
      PushesHead(a[0], a, b);
      Associative(PushOf(a[0]), Pushes(a[1..]), Pushes(b));
    }
  }

  function Ids(devices: seq<Device>): (ids: seq<nat>)
    ensures |ids| == |devices|
    ensures forall i :: 0 <= i < |devices| ==> ids[i] == devices[i].id
  {
    seq(|devices|, i requires 0 <= i < |devices| => devices[i].id)
  }

  lemma SendOnePushes(apns: bool, wire: Gateway, device: Device, id: nat)
    ensures Pushes(SendOne(apns, wire, device, id)) == [Push(device.id, id)]
  {
    var one := SendOne(apns, wire, device, id);
    assert Pushes(one[1..]) == [] by {
      if one[1..] != [] {
        assert Pushes(one[1..][1..]) == [];
      }
    }
  }

  lemma {:induction false} SendToAllPushes(apns: bool, wire: Gateway, devices: seq<Device>, id: nat)
    ensures Pushes(SendToAll(apns, wire, devices, id)) == PushesOf(id, Ids(devices))
  {
    if devices != [] {
      var n := |devices| - 1;
      SendToAllPushes(apns, wire, devices[..n], id);
      SendOnePushes(apns, wire, devices[n], id);
      PushesAppend(SendToAll(apns, wire, devices[..n], id), SendOne(apns, wire, devices[n], id));
      assert PushesOf(id, Ids(devices)) == PushesOf(id, Ids(devices[..n])) + [Push(devices[n].id, id)];
    }
  }

  lemma {:induction false} AllPushesSnoc(ids: seq<nat>, id: nat, devices: seq<nat>)
    ensures AllPushes(ids + [id], devices) == AllPushes(ids, devices) + PushesOf(id, devices)
  {
    if ids == [] {
      assert ids + [id] == [id];
      assert AllPushes([id][1..], devices) == [];
    } else {
      AllPushesSnoc(ids[1..], id, devices);
      assert (ids + [id])[1..] == ids[1..] + [id];
    }
  }

  // The sends of a page are the pushes of the plan: every undeleted message, oldest
  // first, to every device.
  lemma {:induction false} SendPagePushes(apns: bool, wire: Gateway, devices: seq<Device>, things: seq<Thing>)
    ensures Pushes(SendPage(apns, wire, devices, things)) == AllPushes(LiveOldestFirst(things), Ids(devices))
  {
    if things != [] {
      SendPagePushes(apns, wire, devices, things[1..]);
      var older := LiveOldestFirst(things[1..]);
      if things[0].deleted {
        assert LiveOldestFirst(things) == older + [] == older;
        var earlier := SendPage(apns, wire, devices, things[1..]);
        assert SendPage(apns, wire, devices, things) == earlier + [] == earlier;
      } else {
        PushesAppend(SendPage(apns, wire, devices, things[1..]), SendToAll(apns, wire, devices, things[0].id));
        SendToAllPushes(apns, wire, devices, things[0].id);
        AllPushesSnoc(older, things[0].id, Ids(devices));
      }
    }
  }

  // A poll that gets a page performs the plan of the cursor protocol: all its row
  // writes first, then its pushes, in that order.
  lemma PageFollowsPlan(apns: bool, wire: Gateway, account: Account, things: seq<Thing>, devices: seq<Device>)
    ensures var plan := PollPlan(account, things, Ids(devices));
            var sends := PageSends(apns, wire, account, things, Some(devices));
            && PageTrace(apns, wire, account, things, Some(devices)) == Saves(plan.saves) + sends
            && (forall i :: 0 <= i < |sends| ==> sends[i].Deliver? || sends[i].Unregister?)
            && Pushes(sends) == plan.pushes
  {
    SendPagePushes(apns, wire, devices, things);
    SendPageEffects(apns, wire, devices, things);
    var sends := SendPage(apns, wire, devices, things);
    assert forall i :: 0 <= i < |sends| ==> sends[i] in sends;
    assert AllPushes([], Ids(devices)) == [];
  }

  lemma {:induction false} SavesAt(rows: seq<Account>)
    ensures |Saves(rows)| == |rows|
    ensures forall i :: 0 <= i < |rows| ==> Saves(rows)[i] == Save(rows[i])
  {
    if rows != [] {
      SavesAt(rows[1..]);
    }
  }

  lemma {:induction false} RowAfterTrace(row: Account, effects: seq<Effect>, n: nat)
    requires n <= |effects|
    requires forall i :: n <= i < |effects| ==> !effects[i].Save?
    ensures RowAfter(row, effects) == RowAfter(row, effects[..n])
    decreases |effects|
  {
    if n == |effects| {
      assert effects[..n] == effects;
    } else {
      var shorter := effects[..|effects| - 1];
      RowAfterTrace(row, shorter, n);
      assert shorter[..n] == effects[..n];
    }
  }

  // Where a list of row writes and sends is cut.
  lemma CutEffects(row: Account, rows: seq<Account>, sends: seq<Effect>, n: nat)
    requires n <= |rows| + |sends| && |Saves(rows)| == |rows|
    requires forall i :: 0 <= i < |sends| ==> !sends[i].Save?
    ensures var cut := (Saves(rows) + sends)[..n];
            var m := if n < |rows| then n else |rows|;
            && RowAfter(row, cut) == (if m == 0 then row else rows[m - 1])
            && Pushes(cut) <= Pushes(sends)
            && (n <= |rows| ==> Pushes(cut) == [])
  {
    SavesAt(rows);
    if n <= |rows| {
      assert (Saves(rows) + sends)[..n] == Saves(rows)[..n];
      PushesNone(Saves(rows)[..n]);
    } else {
      CutSends(row, Saves(rows), sends, n - |rows|);
      assert (Saves(rows) + sends)[..n] == Saves(rows) + sends[..n - |rows|];
    }
  }

  // A crash leaves the row at one of the plan's writes, and pushes are only made once
  // all of them are done; what was pushed is a prefix of the plan's pushes. `row` is the
  // stored row, which need not be the snapshot any more.
  lemma CrashCutsThePlan(apns: bool, wire: Gateway, row: Account, account: Account, things: seq<Thing>,
                         devices: seq<Device>, n: nat)
    requires n <= |PageTrace(apns, wire, account, things, Some(devices))|
    ensures var plan := PollPlan(account, things, Ids(devices));
            var cut := PageTrace(apns, wire, account, things, Some(devices))[..n];
            var m := if n < |plan.saves| then n else |plan.saves|;
            && RowAfter(row, cut) == (if m == 0 then row else plan.saves[m - 1])
            && Pushes(cut) <= plan.pushes
            && (n <= |plan.saves| ==> Pushes(cut) == [])
  {
    var rows := PollPlan(account, things, Ids(devices)).saves;
    PageFollowsPlan(apns, wire, account, things, devices);
    SavesAt(rows);
    CutEffects(row, rows, PageSends(apns, wire, account, things, Some(devices)), n);
  }

  lemma CutSends(account: Account, saves: seq<Effect>, sends: seq<Effect>, k: nat)
    requires k <= |sends|
    requires forall i :: 0 <= i < |saves| ==> saves[i].Save?
    requires forall i :: 0 <= i < |sends| ==> !sends[i].Save?
    ensures RowAfter(account, saves + sends[..k]) == RowAfter(account, saves)
    ensures Pushes(saves + sends[..k]) <= Pushes(sends)
  {
    RowAfterTrace(account, saves + sends[..k], |saves|);
    assert (saves + sends[..k])[..|saves|] == saves;
    SavesPushNothing(saves, sends[..k]);
    PushesPrefix(sends, k);
  }

  lemma PushesPrefix(effects: seq<Effect>, k: nat)
    requires k <= |effects|
    ensures Pushes(effects[..k]) <= Pushes(effects)
  {
    var a, b := effects[..k], effects[k..];
    assert a + b == effects;
    PushesAppend(a, b);
  }

  lemma SavesPushNothing(saves: seq<Effect>, more: seq<Effect>)
    requires forall i :: 0 <= i < |saves| ==> saves[i].Save?
    ensures Pushes(saves + more) == Pushes(more)
  {
    PushesAppend(saves, more);
    PushesNone(saves);
    assert [] + Pushes(more) == Pushes(more);
  }

  lemma {:induction false} PushesNone(effects: seq<Effect>)
    requires forall i :: 0 <= i < |effects| ==> effects[i].Save?
    ensures Pushes(effects) == []
  {
    if effects != [] {
      PushesNone(effects[1..]);
    }
  }

  // The lock is deleted before the delivery is acknowledged, both at the very end;
  // only the too-old exit leaves the lock in place.
  lemma UnlockThenAck(apns: bool, wire: Gateway, job: Job)
    ensures var t := JobTrace(apns, wire, job);
            && t != [] && t[|t| - 1] == Ack
            && (forall i :: 0 <= i < |t| - 1 ==> t[i] != Ack)
            && (if job.tooOld then Unlock !in t
                else |t| >= 2 && t[|t| - 2] == Unlock && forall i :: 0 <= i < |t| - 2 ==> t[i] != Unlock)
  {
    if !job.tooOld && job.account.Some? {
      PollTraceEffects(apns, wire, job.account.value, job);
      var work := PollTrace(apns, wire, job.account.value, job);
      var t := JobTrace(apns, wire, job);
      assert t == work + [Unlock, Ack];
      forall i | 0 <= i < |t| - 2 ensures t[i] != Ack && t[i] != Unlock {
        assert t[i] == work[i] && work[i] in work;
      }
    }
  }

  lemma PollTraceEffects(apns: bool, wire: Gateway, account: Account, job: Job)
    ensures forall e <- PollTrace(apns, wire, account, job) :: e != Ack && e != Unlock
  {
    if job.fetch.Page? {
      var things := job.fetch.things;
      SavesEffects(PollPlan(account, things, []).saves);
      if job.devices.Some? {
        SendPageEffects(apns, wire, job.devices.value, things);
      }
    }
  }

  lemma {:induction false} SavesEffects(rows: seq<Account>)
    ensures forall e <- Saves(rows) :: e.Save?
  {
    if rows != [] {
      SavesEffects(rows[1..]);
    }
  }

  lemma {:induction false} SavesSnoc(rows: seq<Account>, last: Account)
    ensures Saves(rows + [last]) == Saves(rows) + [Save(last)]
  {
    if rows == [] {
      assert Saves([last][1..]) == [];
    } else {
      SavesSnoc(rows[1..], last);
      assert (rows + [last])[1..] == rows[1..] + [last];
    }
  }

  // A device is unregistered by the sends of a page exactly when it is an APNs
  // device, APNs is configured, and one of its sends of the page failed.
  ghost predicate FailedSend(apns: bool, wire: Gateway, device: Device, ids: seq<nat>) {
    !device.bark && apns && exists id <- ids :: !wire(device, id).Accepted?
  }

  lemma {:induction false} SendToAllEffects(apns: bool, wire: Gateway, devices: seq<Device>, id: nat)
    ensures forall e <- SendToAll(apns, wire, devices, id) :: e.Deliver? || e.Unregister?
    ensures forall d :: Unregister(d) in SendToAll(apns, wire, devices, id)
              <==> exists device <- devices :: device.id == d && FailedSend(apns, wire, device, [id])
  {
    if devices != [] {
      var n := |devices| - 1;
      SendToAllEffects(apns, wire, devices[..n], id);
      assert devices == devices[..n] + [devices[n]];
      assert id in [id];
    }
  }

  lemma {:induction false} SendPageEffects(apns: bool, wire: Gateway, devices: seq<Device>, things: seq<Thing>)
    ensures forall e <- SendPage(apns, wire, devices, things) :: e.Deliver? || e.Unregister?
    ensures forall d :: Unregister(d) in SendPage(apns, wire, devices, things)
              <==> exists device <- devices :: device.id == d && FailedSend(apns, wire, device, LiveOldestFirst(things))
  {
    if things != [] {
      SendPageEffects(apns, wire, devices, things[1..]);
      var ids := LiveOldestFirst(things);
      var older := LiveOldestFirst(things[1..]);
      if !things[0].deleted {
        SendToAllEffects(apns, wire, devices, things[0].id);
        forall device: Device
          ensures FailedSend(apns, wire, device, ids)
                  <==> FailedSend(apns, wire, device, older) || FailedSend(apns, wire, device, [things[0].id])
        {
          assert things[0].id in [things[0].id] && things[0].id in ids;
          assert forall x :: x in older ==> x in ids;
        }
      } else {
        assert ids == older;
      }
    }
  }

  lemma BarkOnlyUnregistersNobody(wire: Gateway, job: Job, d: nat)
    ensures Unregister(d) !in JobTrace(false, wire, job)
  {
    if !job.tooOld && job.account.Some? && job.fetch.Page? {
      var things := job.fetch.things;
      SavesEffects(PollPlan(job.account.value, things, []).saves);
      if job.devices.Some? {
        SendPageEffects(false, wire, job.devices.value, things);
      }
    }
  }

  // ---------- The consumer ----------

  class NotificationsConsumer {
    const apns: bool
    const wire: Gateway
    const row0: Account          // the row and the devices table before the job
    const registered0: set<nat>

    var row: Account             // the database row
    var registered: set<nat>     // the devices table
    var locked: bool             // the account's lock key
    var trace: seq<Effect>

    // The state is what the recorded effects made of the initial state.
    ghost predicate Valid()
      reads this
    {
      && row == RowAfter(row0, trace)
      && (forall d :: d in registered <==> d in registered0 && Unregister(d) !in trace)
      && (locked <==> Unlock !in trace)
    }

    constructor (apns: bool, wire: Gateway, row: Account, registered: set<nat>)
      ensures Valid() && trace == []
      ensures this.apns == apns && this.wire == wire && row0 == row && registered0 == registered
    {
      this.apns, this.wire, this.row0, this.registered0 := apns, wire, row, registered;
      this.row, this.registered, locked, trace := row, registered, true, [];
    }

    // Every effect changes the state it names and is recorded.
    method Perform(e: Effect)
      requires Valid()
      modifies this
      ensures Valid() && trace == old(trace) + [e]
    {
      match e {
        case Save(account) => row := account;
        case Unregister(device) => registered := registered - {device};
        case Unlock => locked := false;
        case _ =>
      }
      trace := trace + [e];
      assert trace[..|trace| - 1] == old(trace);
    }

    // One message to every device, in the order of the list.
    method SendMessage(devices: seq<Device>, id: nat)
      requires Valid()
      modifies this
      ensures Valid() && trace == old(trace) + SendToAll(apns, wire, devices, id)
    {
      var i := 0;
      while i < |devices|
        invariant 0 <= i <= |devices|
        invariant Valid() && trace == old(trace) + SendToAll(apns, wire, devices[..i], id)
      {
        assert devices[..i + 1][..i] == devices[..i];
        Perform(Deliver(devices[i].id, id));
        var res := Send(apns, devices[i], wire(devices[i], id));
        if res.shouldUnregister {
          Perform(Unregister(devices[i].id));
        }
        i := i + 1;
      }
      assert devices[..i] == devices;
    }

    // The send loop runs from the end of the page to its start.
    method SendAll(devices: seq<Device>, things: seq<Thing>)
      requires Valid()
      modifies this
      ensures Valid() && trace == old(trace) + SendPage(apns, wire, devices, things)
    {
      var i := |things|;
      while i > 0
        invariant 0 <= i <= |things|
        invariant Valid() && trace == old(trace) + SendPage(apns, wire, devices, things[i..])
      {
        ghost var newer := SendPage(apns, wire, devices, things[i..]);
        i := i - 1;
        assert things[i..][1..] == things[i + 1..];
        if !things[i].deleted {
          SendMessage(devices, things[i].id);
          assert trace == old(trace) + (newer + SendToAll(apns, wire, devices, things[i].id));
        } else {
          assert newer + [] == newer;
        }
      }
    }

    // The page loop stops at the first undeleted message, stores it and breaks.
    method AdvanceCursor(account: Account, things: seq<Thing>) returns (after: Account)
      requires Valid()
      modifies this
      ensures Valid() && after == Advanced(account, things)
      ensures trace == old(trace) + Saves(if FirstLive(things).Some? then [after] else [])
    {
      after := account;
      var i := 0;
      while i < |things|
        invariant 0 <= i <= |things|
        invariant FirstLive(things) == FirstLive(things[i..])
        invariant Valid() && after == account && trace == old(trace)
      {
        if !things[i].deleted {
          after := account.(cursor := Some(things[i].id));
          Perform(Save(after));
          assert Saves([after][1..]) == [];
          return;
        }
        assert things[i..][1..] == things[i + 1..];
        i := i + 1;
      }
    }

    method HandlePage(account: Account, things: seq<Thing>, devices: Option<seq<Device>>)
      requires Valid()
      modifies this
      ensures Valid() && trace == old(trace) + PageTrace(apns, wire, account, things, devices)
    {
      ghost var start := trace;
      if |things| == 0 {
        assert PageTrace(apns, wire, account, things, devices) == [];
        return;
      }
      var after := AdvanceCursor(account, things);
      ghost var advance := if FirstLive(things).Some? then [after] else [];
      if account.checkCount == 0 {
        after := after.(checkCount := 1);
        Perform(Save(after));
        SavesSnoc(advance, after);
        assert trace == start + (Saves(advance + [after]) + []);
      } else if devices.Some? {
        SendAll(devices.value, things);
        assert trace == start + (Saves(advance) + SendPage(apns, wire, devices.value, things));
      } else {
        assert trace == start + (Saves(advance) + []);
      }
    }

    method RefreshTokens(account: Account, refresh: Refresh) returns (ok: bool)
      requires Valid()
      modifies this
      ensures Valid() && trace == old(trace) + RefreshTrace(account, refresh)
      ensures ok <==> refresh.NotNeeded? || refresh.Refreshed?
    {
      match refresh {
        case RefreshFailed => ok := false;
        case RefreshRevoked =>
          Perform(Revoke);
          ok := false;
        case Refreshed =>
          Perform(Save(account));
          ok := true;
        case NotNeeded => ok := true;
      }
    }

    method FetchInbox(account: Account, job: Job)
      requires Valid()
      modifies this
      ensures Valid() && trace == old(trace) + FetchTrace(apns, wire, account, job)
    {
      match job.fetch {
        case FetchFailed =>
        case FetchRevoked => Perform(Revoke);
        case Page(things) => HandlePage(account, things, job.devices);
      }
    }

    method Poll(account: Account, job: Job)
      requires Valid()
      modifies this
      ensures Valid() && trace == old(trace) + PollTrace(apns, wire, account, job)
    {
      ghost var start := trace;
      var ok := RefreshTokens(account, job.refresh);
      if ok {
        FetchInbox(account, job);
        Associative(start, RefreshTrace(account, job.refresh), FetchTrace(apns, wire, account, job));
      }
    }

    // One job. Deferred calls run last-in-first-out, so the lock goes before the ack.
    method Consume(job: Job)
      requires Valid()
      modifies this
      ensures Valid() && trace == old(trace) + JobTrace(apns, wire, job)
    {
      if job.tooOld {
        Perform(Ack);
        return;
      }
      if job.account.Some? {
        Poll(job.account.value, job);
      }
      Perform(Unlock);
      Perform(Ack);
    }
  }
}
