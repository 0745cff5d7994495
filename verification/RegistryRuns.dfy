// Runs of the registry, one repository operation at a time: registrations that save an
// account and then associate it, revocations that detach an account's devices and then
// delete it, and everything else in between.

module RegistryRuns {
  import opened Wrappers
  import opened Registry

  datatype Revocation = Revocation(account: string, devices: seq<nat>)

  datatype State = State(t: Tables, registering: seq<Link>, revoking: seq<Revocation>)

  datatype Step =
    | Save(row: Device)
    | Unregister(token: string)
    | Watch(watcher: Watcher)
    | Unwatch(ids: set<nat>)
    | Notify(device: nat, account: string, flags: Flags)
    | Detach(device: nat, account: string)
    | Register(device: nat, account: string)        // the account row is saved ...
    | Complete(j: nat)                              // ... and associated
    | Abandon(j: nat)
    | Revoke(account: string, devices: seq<nat>)    // the account's devices are read ...
    | RevokeNext(j: nat)                            // ... detached one by one ...
    | RevokeEnd(j: nat)                             // ... and the account deleted
    | RevokeAbandon(j: nat)

  ghost predicate Enabled(s: State, step: Step) {
    match step
    case Complete(j) => j < |s.registering|
    case Abandon(j) => j < |s.registering|
    case Revoke(account, devices) =>
      account in s.t.deleted && forall d :: d in devices <==> (d, account) in s.t.links
    case RevokeNext(j) => j < |s.revoking| && s.revoking[j].devices != []
    case RevokeEnd(j) => j < |s.revoking| && s.revoking[j].devices == []
    case RevokeAbandon(j) => j < |s.revoking|
    case _ => true
  }

  ghost function Apply(s: State, step: Step): (after: State)
    requires Enabled(s, step)
  {
    match step
    case Save(device) => s.(t := SaveDevice(s.t, device))
    case Unregister(token) => s.(t := DeleteDevice(s.t, token))
    case Watch(watcher) => s.(t := CreateWatcher(s.t, watcher))
    case Unwatch(ids) => s.(t := DeleteWatchers(s.t, ids))
    case Notify(device, account, flags) => s.(t := SetNotifiable(s.t, device, account, flags))
    case Detach(device, account) => s.(t := Disassociate(s.t, device, account))
    case Register(device, account) =>
      s.(t := SaveAccount(s.t, account), registering := s.registering + [(device, account)])
    case Complete(j) =>
      s.(t := Associate(s.t, s.registering[j].0, s.registering[j].1), registering := Without(s.registering, j))
    case Abandon(j) => s.(registering := Without(s.registering, j))
    case Revoke(account, devices) => s.(revoking := s.revoking + [Revocation(account, devices)])
    case RevokeNext(j) =>
      var r := s.revoking[j];
      s.(t := Disassociate(s.t, r.devices[0], r.account), revoking := s.revoking[j := r.(devices := r.devices[1..])])
    case RevokeEnd(j) => s.(t := DeleteAccount(s.t, s.revoking[j].account), revoking := Without(s.revoking, j))
    case RevokeAbandon(j) => s.(revoking := Without(s.revoking, j))
  }

  // No account is registered while it is being revoked ...
  ghost predicate RegistersApart(s: State, step: Step) {
    step.Register? ==> forall r <- s.revoking :: r.account != step.account
  }

  // ... nor revoked while it is being registered.
  ghost predicate RevokesApart(s: State, step: Step) {
    step.Revoke? ==> forall l <- s.registering :: l.1 != step.account
  }

  ghost predicate Apart(s: State, step: Step) {
    RegistersApart(s, step) && RevokesApart(s, step)
  }

  const EMPTY := State(Tables(map[], map[], map[], map[], 0), [], [])

  ghost predicate Run(states: seq<State>, steps: seq<Step>) {
    && |states| == |steps| + 1
    && states[0] == EMPTY
    && forall i :: 0 <= i < |steps| ==> Enabled(states[i], steps[i]) && states[i + 1] == Apply(states[i], steps[i])
  }

  ghost predicate Orderly(states: seq<State>, steps: seq<Step>)
    requires |states| == |steps| + 1
  {
    forall i :: 0 <= i < |steps| ==> Apart(states[i], steps[i])
  }

  // ---------- Every run: rows refer to rows that exist ----------

  lemma ReferencesKept(s: State, step: Step)
    requires References(s.t) && Enabled(s, step)
    ensures References(Apply(s, step).t)
  {
    match step
    case Save(device) => SaveDeviceKeeps(s.t, device);
    case Unregister(token) => DeleteDeviceKeeps(s.t, token);
    case _ =>
  }

  lemma {:induction false} ReferencesHold(states: seq<State>, steps: seq<Step>, n: nat)
    requires Run(states, steps) && n <= |steps|
    ensures References(states[n].t)
  {
    if n > 0 {
      ReferencesHold(states, steps, n - 1);
      ReferencesKept(states[n - 1], steps[n - 1]);
    }
  }

  // ---------- Every run: flags last ----------

  // The step sets the flags of the association, or ends it.
  ghost predicate Changes(s: State, step: Step, l: Link)
    requires Enabled(s, step)
  {
    match step
    case Notify(device, account, _) => (device, account) == l
    case Detach(device, account) => (device, account) == l
    case RevokeNext(j) => (s.revoking[j].devices[0], s.revoking[j].account) == l
    case Unregister(token) => l.0 in s.t.devices && s.t.devices[l.0].token == token
    case _ => false
  }

  ghost predicate SameFlags(t: Tables, t': Tables, l: Link)
    requires l in t.links
  {
    l in t'.links && t'.links[l] == t.links[l]
  }

  lemma OtherDeviceGone(t: Tables, token: string, l: Link)
    requires References(t) && l in t.links && t.devices[l.0].token != token
    ensures SameFlags(t, DeleteDevice(t, token), l)
  {
  }

  lemma FlagsKept(s: State, step: Step, l: Link)
    requires References(s.t) && Enabled(s, step) && l in s.t.links && !Changes(s, step, l)
    ensures SameFlags(s.t, Apply(s, step).t, l)
  {
    match step
    case Unregister(token) => OtherDeviceGone(s.t, token, l);
    case Complete(j) => assert Apply(s, step).t.links == Associate(s.t, s.registering[j].0, s.registering[j].1).links;
    case Notify(device, account, flags) =>
      assert Apply(s, step).t.links == SetNotifiable(s.t, device, account, flags).links;
    case RevokeNext(j) =>
      assert Apply(s, step).t.links == s.t.links - {(s.revoking[j].devices[0], s.revoking[j].account)};
    case Detach(device, account) => assert Apply(s, step).t.links == s.t.links - {(device, account)};
    case _ => assert Apply(s, step).t.links == s.t.links;
  }

  // What a device was last told of an account, to notify it or to mute it, holds until it
  // is told otherwise or the association ends, whatever is registered or revoked besides.
  lemma {:induction false} FlagsLast(states: seq<State>, steps: seq<Step>, l: Link, flags: Flags, m: nat, n: nat)
    requires Run(states, steps) && m < n <= |steps| && steps[m] == Notify(l.0, l.1, flags) && l in states[m].t.links
    requires forall i :: m < i < n ==> !Changes(states[i], steps[i], l)
    ensures l in states[n].t.links && states[n].t.links[l] == flags
    decreases n
  {
    if n > m + 1 {
      FlagsLast(states, steps, l, flags, m, n - 1);
      ReferencesHold(states, steps, n - 1);
      FlagsKept(states[n - 1], steps[n - 1], l);
    }
  }

  // ---------- Orderly runs: deleted accounts are on no device ----------

  // A revocation still has to visit every device its account is on.
  ghost predicate Covers(t: Tables, r: Revocation) {
    forall l <- t.links :: l.1 == r.account ==> l.0 in r.devices
  }

  ghost predicate Inv(s: State) {
    && References(s.t) && Detached(s.t)
    && (forall l <- s.registering :: l.1 in s.t.deleted && !s.t.deleted[l.1])
    && (forall r <- s.revoking :: Covers(s.t, r))
    && (forall l <- s.registering, r <- s.revoking :: l.1 != r.account)
  }

  lemma TableStepKeepsInv(s: State, step: Step)
    requires Inv(s) && (step.Save? || step.Unregister? || step.Watch? || step.Unwatch? || step.Notify? || step.Detach?)
    ensures Inv(Apply(s, step))
  {
    ReferencesKept(s, step);
    var t := Apply(s, step).t;
    assert t.deleted == s.t.deleted;
    assert forall l <- t.links :: l in s.t.links;
    forall r | r in s.revoking ensures Covers(t, r) {
      assert Covers(s.t, r);
    }
  }

  lemma RegisterKeepsInv(s: State, device: nat, account: string)
    requires Inv(s) && Apart(s, Register(device, account))
    ensures Inv(Apply(s, Register(device, account)))
  {
    ReferencesKept(s, Register(device, account));
    forall r | r in s.revoking ensures Covers(SaveAccount(s.t, account), r) {
      assert Covers(s.t, r);
    }
  }

  lemma CompleteKeepsInv(s: State, j: nat)
    requires Inv(s) && j < |s.registering|
    ensures Inv(Apply(s, Complete(j)))
  {
    ReferencesKept(s, Complete(j));
    var l := s.registering[j];
    assert l in s.registering;
    forall r | r in s.revoking ensures Covers(Associate(s.t, l.0, l.1), r) {
      assert Covers(s.t, r);
    }
  }

  lemma RevokeNextKeepsInv(s: State, j: nat)
    requires Inv(s) && Enabled(s, RevokeNext(j))
    ensures Inv(Apply(s, RevokeNext(j)))
  {
    ReferencesKept(s, RevokeNext(j));
    var r, s' := s.revoking[j], Apply(s, RevokeNext(j));
    assert r in s.revoking && Covers(s.t, r);
    forall q | q in s'.revoking ensures Covers(s'.t, q) && forall l <- s.registering :: l.1 != q.account {
      var i :| 0 <= i < |s'.revoking| && s'.revoking[i] == q;
      assert s.revoking[i] in s.revoking && Covers(s.t, s.revoking[i]);
    }
  }

  lemma RevokeEndKeepsInv(s: State, j: nat)
    requires Inv(s) && Enabled(s, RevokeEnd(j))
    ensures Inv(Apply(s, RevokeEnd(j)))
  {
    ReferencesKept(s, RevokeEnd(j));
    var r, s' := s.revoking[j], Apply(s, RevokeEnd(j));
    assert r in s.revoking && Covers(s.t, r);
    forall q | q in s'.revoking ensures Covers(s'.t, q) {
      assert Covers(s.t, q);
    }
  }

  lemma StepKeepsInv(s: State, step: Step)
    requires Inv(s) && Enabled(s, step) && Apart(s, step)
    ensures Inv(Apply(s, step))
  {
    match step
    case Register(device, account) => RegisterKeepsInv(s, device, account);
    case Complete(j) => CompleteKeepsInv(s, j);
    case Abandon(_) =>
    case Revoke(_, _) =>
    case RevokeNext(j) => RevokeNextKeepsInv(s, j);
    case RevokeEnd(j) => RevokeEndKeepsInv(s, j);
    case RevokeAbandon(_) =>
    case _ => TableStepKeepsInv(s, step);
  }

  lemma {:induction false} InvHolds(states: seq<State>, steps: seq<Step>, n: nat)
    requires Run(states, steps) && Orderly(states, steps) && n <= |steps|
    ensures Inv(states[n])
  {
    if n > 0 {
      InvHolds(states, steps, n - 1);
      StepKeepsInv(states[n - 1], steps[n - 1]);
    }
  }

  // Every association and watcher refers to rows that exist, in every run; in orderly
  // runs a soft-deleted account is on no device, and none of its watchers is handed to
  // a worker until it is associated again.
  lemma RegistryTheorem(states: seq<State>, steps: seq<Step>, n: nat, kind: nat, watchee: nat)
    requires Run(states, steps) && n <= |steps|
    ensures References(states[n].t)
    ensures Orderly(states, steps) ==> Detached(states[n].t)
    ensures Orderly(states, steps) ==>
              var t := states[n].t;
              forall w <- WatchersFor(t, kind, watchee) :: !t.deleted[t.watchers[w].account]
  {
    ReferencesHold(states, steps, n);
    if Orderly(states, steps) {
      InvHolds(states, steps, n);
      DetachedIsSilent(states[n].t, kind, watchee);
    }
  }

  // ---------- Why the two must stay apart ----------

  ghost predicate AllRegistersApart(states: seq<State>, steps: seq<Step>) {
    Run(states, steps) && forall i :: 0 <= i < |steps| ==> RegistersApart(states[i], steps[i])
  }

  ghost predicate AllRevokesApart(states: seq<State>, steps: seq<Step>) {
    Run(states, steps) && forall i :: 0 <= i < |steps| ==> RevokesApart(states[i], steps[i])
  }

  lemma Then(states: seq<State>, steps: seq<Step>, step: Step) returns (states': seq<State>, steps': seq<Step>)
    requires Run(states, steps) && Enabled(states[|steps|], step)
    ensures Run(states', steps') && states'[|steps'|] == Apply(states[|steps|], step)
    ensures AllRegistersApart(states, steps) && RegistersApart(states[|steps|], step) ==>
              AllRegistersApart(states', steps')
    ensures AllRevokesApart(states, steps) && RevokesApart(states[|steps|], step) ==> AllRevokesApart(states', steps')
  {
    states', steps' := states + [Apply(states[|steps|], step)], steps + [step];
  }

  // A registration half done: the account is saved and watched, but not associated.
  lemma HalfRegistered(phone: Device, account: string, w: Watcher) returns (states: seq<State>, steps: seq<Step>)
    requires w.device == 0 && w.account == account
    ensures AllRegistersApart(states, steps) && AllRevokesApart(states, steps)
    ensures states[|steps|]
         == State(Tables(map[account := false], map[0 := phone], map[], map[1 := w], 2), [(0, account)], [])
  {
    states, steps := [EMPTY], [];
    states, steps := Then(states, steps, Save(phone));
    states, steps := Then(states, steps, Register(0, account));
    states, steps := Then(states, steps, Watch(w));
  }

  // The account is deleted, yet on a device, and its watcher is handed to the workers.
  ghost predicate DeletedButWatched(t: Tables, account: string, kind: nat, watchee: nat) {
    t.deleted == map[account := true] && (0, account) in t.links && WatchersFor(t, kind, watchee) == {1}
  }

  // Both are half done.
  ghost predicate Crossed(s: State, phone: Device, account: string, w: Watcher) {
    s == State(Tables(map[account := false], map[0 := phone], map[], map[1 := w], 2), [(0, account)],
               [Revocation(account, [])])
  }

  lemma FinishBoth(states: seq<State>, steps: seq<Step>, phone: Device, account: string, w: Watcher)
    returns (states': seq<State>, steps': seq<Step>)
    requires Run(states, steps) && w.device == 0 && w.account == account && Crossed(states[|steps|], phone, account, w)
    ensures AllRegistersApart(states, steps) ==> AllRegistersApart(states', steps')
    ensures AllRevokesApart(states, steps) ==> AllRevokesApart(states', steps')
    ensures Run(states', steps') && DeletedButWatched(states'[|steps'|].t, account, w.kind, w.watchee)
  {
    states', steps' := Then(states, steps, RevokeEnd(0));
    assert states'[|steps'|].t == Tables(map[account := true], map[0 := phone], map[], map[1 := w], 2);
    states', steps' := Then(states', steps', Complete(0));
    assert states'[|steps'|].t == WatchedTables(phone, account, w);
  }

  function WatchedTables(phone: Device, account: string, w: Watcher): (t: Tables)
    requires w.device == 0 && w.account == account
    ensures DeletedButWatched(t, account, w.kind, w.watchee)
  {
    Tables(map[account := true], map[0 := phone], map[(0, account) := DEFAULTS], map[1 := w], 2)
  }

  // A revocation that falls between the two halves of a registration.
  lemma RevokedHalfwayStaysWatched(phone: Device, account: string, kind: nat, watchee: nat)
    returns (states: seq<State>, steps: seq<Step>)
    ensures AllRegistersApart(states, steps)
    ensures DeletedButWatched(states[|steps|].t, account, kind, watchee)
  {
    var w := Watcher(0, account, kind, watchee);
    states, steps := HalfRegistered(phone, account, w);
    states, steps := Then(states, steps, Revoke(account, []));
    states, steps := FinishBoth(states, steps, phone, account, w);
  }

  // A revocation that has found the account on no device, as its association failed.
  lemma RevocationBegun(phone: Device, account: string, w: Watcher) returns (states: seq<State>, steps: seq<Step>)
    requires w.device == 0 && w.account == account
    ensures AllRevokesApart(states, steps)
    ensures states[|steps|]
         == State(Tables(map[account := false], map[0 := phone], map[], map[1 := w], 2), [], [Revocation(account, [])])
  {
    states, steps := HalfRegistered(phone, account, w);
    states, steps := Then(states, steps, Abandon(0));
    states, steps := Then(states, steps, Revoke(account, []));
  }

  // A registration that begins within a revocation.
  lemma RegisteredMidwayStaysWatched(phone: Device, account: string, kind: nat, watchee: nat)
    returns (states: seq<State>, steps: seq<Step>)
    ensures AllRevokesApart(states, steps)
    ensures DeletedButWatched(states[|steps|].t, account, kind, watchee)
  {
    var w := Watcher(0, account, kind, watchee);
    states, steps := RevocationBegun(phone, account, w);
    states, steps := Then(states, steps, Register(0, account));
    states, steps := FinishBoth(states, steps, phone, account, w);
  }
}
