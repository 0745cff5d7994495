// What a whole job of the notifications worker does, said of what it learned: which rows
// it writes, what it pushes, when it revokes the account and which devices it removes.

module NotificationJobs {
  import opened Wrappers
  import opened Inbox
  import opened Sender
  import opened Notifications

  // The job comes to ask for the inbox.
  predicate Asks(job: Job) {
    !job.tooOld && job.account.Some? && (job.refresh == NotNeeded || job.refresh == Refreshed)
  }

  // ... and gets a page of it.
  predicate Gets(job: Job) {
    Asks(job) && job.fetch.Page?
  }

  // The rows written, in order.
  function Written(effects: seq<Effect>): (rows: seq<Account>) {
    if effects == [] then []
    else (if effects[0].Save? then [effects[0].account] else []) + Written(effects[1..])
  }

  // ---------- Reading traces piece by piece ----------

  lemma {:induction false} WrittenAppend(a: seq<Effect>, b: seq<Effect>)
    ensures Written(a + b) == Written(a) + Written(b)
  {
    if a == [] {
      assert a + b == b;
    } else {
      WrittenAppend(a[1..], b);
      assert (a + b)[0] == a[0] && (a + b)[1..] == a[1..] + b;
      Associative(if a[0].Save? then [a[0].account] else [], Written(a[1..]), Written(b));
    }
  }

  lemma {:induction false} WrittenSaves(rows: seq<Account>)
    ensures Written(Saves(rows)) == rows
  {
    if rows != [] {
      WrittenSaves(rows[1..]);
      assert Saves(rows)[1..] == Saves(rows[1..]);
    }
  }

  lemma {:induction false} WrittenNone(effects: seq<Effect>)
    requires forall e <- effects :: !e.Save?
    ensures Written(effects) == []
  {
    if effects != [] {
      assert effects[0] in effects;
      WrittenNone(effects[1..]);
    }
  }

  lemma {:induction false} NothingPushed(effects: seq<Effect>)
    requires forall e <- effects :: !e.Deliver?
    ensures Pushes(effects) == []
  {
    if effects != [] {
      assert effects[0] in effects;
      NothingPushed(effects[1..]);
    }
  }

  // The row after a trace is the last one written.
  lemma {:induction false} RowIsLastWritten(row: Account, effects: seq<Effect>)
    ensures var rows := Written(effects);
            RowAfter(row, effects) == if rows == [] then row else rows[|rows| - 1]
  {
    if effects != [] {
      var m := |effects| - 1;
      RowIsLastWritten(row, effects[..m]);
      WrittenAppend(effects[..m], [effects[m]]);
      assert effects == effects[..m] + [effects[m]];
      assert Written([effects[m]]) == if effects[m].Save? then [effects[m].account] else [] by {
        assert [effects[m]][1..] == [];
      }
    }
  }

  // ---------- The parts of a job ----------

  // What the refresh leaves, what the page asks for, and the end.
  lemma JobSplit(apns: bool, wire: Gateway, job: Job) returns (head: seq<Effect>, page: seq<Effect>, tail: seq<Effect>)
    ensures JobTrace(apns, wire, job) == head + page + tail
    ensures head
         == if !job.tooOld && job.account.Some? && job.refresh == Refreshed then [Save(job.account.value)] else []
    ensures page == if Gets(job) then PageTrace(apns, wire, job.account.value, job.fetch.things, job.devices) else []
    ensures var revokes := job.refresh == RefreshRevoked || (Asks(job) && job.fetch == FetchRevoked);
            tail == if job.tooOld then [Ack]
                    else if job.account.Some? && revokes then [Revoke, Unlock, Ack] else [Unlock, Ack]
  {
    head := if !job.tooOld && job.account.Some? && job.refresh == Refreshed then [Save(job.account.value)] else [];
    page := if Gets(job) then PageTrace(apns, wire, job.account.value, job.fetch.things, job.devices) else [];
    var revokes := job.refresh == RefreshRevoked || (Asks(job) && job.fetch == FetchRevoked);
    tail := if job.tooOld then [Ack]
            else if job.account.Some? && revokes then [Revoke, Unlock, Ack] else [Unlock, Ack];
    assert [Revoke] + [Unlock, Ack] == [Revoke, Unlock, Ack];
  }

  lemma PageParts(apns: bool, wire: Gateway, account: Account, things: seq<Thing>, devices: Option<seq<Device>>)
    ensures var trace := PageTrace(apns, wire, account, things, devices);
            && Written(trace) == PollPlan(account, things, []).saves
            && Pushes(trace) == (if devices.Some? then PollPlan(account, things, Ids(devices.value)).pushes else [])
            && (forall e <- trace :: e.Save? || e.Deliver? || e.Unregister?)
  {
    var rows, sends := PollPlan(account, things, []).saves, PageSends(apns, wire, account, things, devices);
    SavesEffects(rows);
    if devices.Some? {
      PageFollowsPlan(apns, wire, account, things, devices.value);
      SendPageEffects(apns, wire, devices.value, things);
    }
    WrittenAppend(Saves(rows), sends);
    WrittenSaves(rows);
    WrittenNone(sends);
    assert forall i :: 0 <= i < |Saves(rows)| ==> Saves(rows)[i] in Saves(rows);
    SavesPushNothing(Saves(rows), sends);
  }

  // The same, with what the middle part writes and pushes.
  lemma JobParts(apns: bool, wire: Gateway, job: Job)
    returns (t: seq<Effect>, head: seq<Effect>, page: seq<Effect>, tail: seq<Effect>)
    ensures t == JobTrace(apns, wire, job) && t == head + page + tail
    ensures head
         == if !job.tooOld && job.account.Some? && job.refresh == Refreshed then [Save(job.account.value)] else []
    ensures Written(page) == if Gets(job) then PollPlan(job.account.value, job.fetch.things, []).saves else []
    ensures Pushes(page) == if Gets(job) && job.devices.Some?
                            then PollPlan(job.account.value, job.fetch.things, Ids(job.devices.value)).pushes else []
    ensures forall e <- page :: e.Save? || e.Deliver? || e.Unregister?
    ensures !Gets(job) ==> page == []
    ensures forall e <- tail :: e == Revoke || e == Unlock || e == Ack
    ensures Revoke in tail <==>
              && !job.tooOld && job.account.Some?
              && (job.refresh == RefreshRevoked || (Asks(job) && job.fetch == FetchRevoked))
  {
    head, page, tail := JobSplit(apns, wire, job);
    t := head + page + tail;
    if Gets(job) {
      PageParts(apns, wire, job.account.value, job.fetch.things, job.devices);
    }
  }

  // ---------- What a job does ----------

  // A job that gets a page pushes what the plan of the poll pushes; no other job pushes.
  lemma JobPushes(apns: bool, wire: Gateway, job: Job)
    ensures Pushes(JobTrace(apns, wire, job))
         == if Gets(job) && job.devices.Some?
            then PollPlan(job.account.value, job.fetch.things, Ids(job.devices.value)).pushes else []
  {
    var t, head, page, tail := JobParts(apns, wire, job);
    PushesAppend(head + page, tail);
    PushesAppend(head, page);
    NothingPushed(head);
    NothingPushed(tail);
    assert [] + Pushes(page) + [] == Pushes(page);
  }

  // A job writes the row when it has refreshed its tokens, and then as the plan of the poll
  // writes it; it leaves the row as it wrote it last.
  lemma JobWrites(apns: bool, wire: Gateway, job: Job, row: Account)
    ensures var refreshed := !job.tooOld && job.account.Some? && job.refresh == Refreshed;
            var rows := (if refreshed then [job.account.value] else [])
                        + (if Gets(job) then PollPlan(job.account.value, job.fetch.things, []).saves else []);
            && Written(JobTrace(apns, wire, job)) == rows
            && RowAfter(row, JobTrace(apns, wire, job)) == if rows == [] then row else rows[|rows| - 1]
  {
    var t, head, page, tail := JobParts(apns, wire, job);
    WrittenAppend(head + page, tail);
    WrittenAppend(head, page);
    WrittenNone(tail);
    assert head != [] ==> head[1..] == [];
    assert Written(head) + Written(page) + [] == Written(head) + Written(page);
    RowIsLastWritten(row, t);
  }

  // The account is revoked exactly when the refresh, or a request for the inbox that was
  // made, reported a revocation; and then nothing is pushed and no device removed.
  lemma JobRevokes(apns: bool, wire: Gateway, job: Job)
    ensures var t := JobTrace(apns, wire, job);
            && (Revoke in t <==>
                  && !job.tooOld && job.account.Some?
                  && (job.refresh == RefreshRevoked || (Asks(job) && job.fetch == FetchRevoked)))
            && (Revoke in t ==> forall e <- t :: !e.Deliver? && !e.Unregister?)
  {
    var t, head, page, tail := JobParts(apns, wire, job);
    OnlyTailRevokes(head, page, tail);
  }

  lemma OnlyTailRevokes(head: seq<Effect>, page: seq<Effect>, tail: seq<Effect>)
    requires (forall e <- head :: e.Save?) && (forall e <- page :: e != Revoke)
    requires (forall e <- tail :: e == Revoke || e == Unlock || e == Ack) && (Revoke in tail ==> page == [])
    ensures Revoke in head + page + tail <==> Revoke in tail
    ensures Revoke in tail ==> forall e <- head + page + tail :: !e.Deliver? && !e.Unregister?
  {
  }

  lemma PageUnregisters(apns: bool, wire: Gateway, account: Account, things: seq<Thing>, devices: Option<seq<Device>>,
                        d: nat)
    ensures Unregister(d) in PageTrace(apns, wire, account, things, devices) <==>
              && devices.Some? && account.checkCount > 0
              && exists device <- devices.value, id <- LiveOldestFirst(things) ::
                   device.id == d && !device.bark && apns && wire(device, id) != Accepted
  {
    SavesEffects(PollPlan(account, things, []).saves);
    if devices.Some? {
      SendPageEffects(apns, wire, devices.value, things);
    }
  }

  // A device is removed exactly when the job had a page to push from and a push to the
  // device, one of APNs, did not go through.
  lemma JobUnregisters(apns: bool, wire: Gateway, job: Job, d: nat)
    ensures Unregister(d) in JobTrace(apns, wire, job) <==>
              && Gets(job) && job.devices.Some? && job.account.value.checkCount > 0
              && exists device <- job.devices.value, id <- LiveOldestFirst(job.fetch.things) ::
                   device.id == d && !device.bark && apns && wire(device, id) != Accepted
  {
    var head, page, tail := JobSplit(apns, wire, job);
    assert Unregister(d) in head + page + tail <==> Unregister(d) in page;
    if Gets(job) {
      PageUnregisters(apns, wire, job.account.value, job.fetch.things, job.devices, d);
    }
  }

  // ---------- In what order ----------

  // Rows are written before anything is pushed, and a device is removed right after the
  // push to it that failed.
  ghost predicate Orderly(t: seq<Effect>) {
    && (forall i, j :: 0 <= i < j < |t| && t[i].Deliver? ==> !t[j].Save?)
    && (forall i :: 0 <= i < |t| && t[i].Unregister? ==> i > 0 && t[i - 1].Deliver? && t[i - 1].device == t[i].device)
  }

  ghost predicate Prompt(t: seq<Effect>) {
    forall i :: 0 <= i < |t| && t[i].Unregister? ==> i > 0 && t[i - 1].Deliver? && t[i - 1].device == t[i].device
  }

  lemma PromptAppend(a: seq<Effect>, b: seq<Effect>)
    requires Prompt(a) && Prompt(b)
    ensures Prompt(a + b)
  {
  }

  lemma {:induction false} SendToAllIsPrompt(apns: bool, wire: Gateway, devices: seq<Device>, id: nat)
    ensures Prompt(SendToAll(apns, wire, devices, id))
  {
    if devices != [] {
      var n := |devices| - 1;
      SendToAllIsPrompt(apns, wire, devices[..n], id);
      PromptAppend(SendToAll(apns, wire, devices[..n], id), SendOne(apns, wire, devices[n], id));
    }
  }

  lemma {:induction false} SendPageIsPrompt(apns: bool, wire: Gateway, devices: seq<Device>, things: seq<Thing>)
    ensures Prompt(SendPage(apns, wire, devices, things))
  {
    if things != [] {
      SendPageIsPrompt(apns, wire, devices, things[1..]);
      var now := if things[0].deleted then [] else SendToAll(apns, wire, devices, things[0].id);
      SendToAllIsPrompt(apns, wire, devices, things[0].id);
      PromptAppend(SendPage(apns, wire, devices, things[1..]), now);
    }
  }

  lemma PageIsOrderly(apns: bool, wire: Gateway, account: Account, things: seq<Thing>, devices: Option<seq<Device>>)
    returns (rows: seq<Effect>, sends: seq<Effect>)
    ensures PageTrace(apns, wire, account, things, devices) == rows + sends
    ensures (forall i :: 0 <= i < |rows| ==> rows[i].Save?) && Prompt(sends) && forall e <- sends :: !e.Save?
  {
    rows := Saves(PollPlan(account, things, []).saves);
    sends := PageSends(apns, wire, account, things, devices);
    SavesAt(PollPlan(account, things, []).saves);
    if devices.Some? {
      SendPageIsPrompt(apns, wire, devices.value, things);
      SendPageEffects(apns, wire, devices.value, things);
    }
  }

  lemma JobIsOrderly(apns: bool, wire: Gateway, job: Job)
    ensures Orderly(JobTrace(apns, wire, job))
  {
    var head, page, tail := JobSplit(apns, wire, job);
    var rows: seq<Effect>, sends: seq<Effect> := [], [];
    if Gets(job) {
      rows, sends := PageIsOrderly(apns, wire, job.account.value, job.fetch.things, job.devices);
    }
    InOrderAround(head + rows, sends, tail);
    Associative(head, rows, sends);
    assert head + page == head + rows + sends;
  }

  lemma InOrderAround(rows: seq<Effect>, sends: seq<Effect>, tail: seq<Effect>)
    requires forall i :: 0 <= i < |rows| ==> rows[i].Save?
    requires Prompt(sends) && forall e <- sends :: !e.Save?
    requires forall i :: 0 <= i < |tail| ==> tail[i] == Revoke || tail[i] == Unlock || tail[i] == Ack
    ensures Orderly(rows + sends + tail)
  {
    var t := rows + sends + tail;
    PromptAppend(rows, sends);
    PromptAppend(rows + sends, tail);
    forall i, j | 0 <= i < j < |t| && t[i].Deliver? ensures !t[j].Save? {
      assert j < |rows| + |sends| ==> t[j] == sends[j - |rows|] && t[j] in sends;
    }
  }
}
