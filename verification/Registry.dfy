// The registry tables: accounts, devices, which account is registered on which device,
// and the watchers. An account is known by its username, which is unique; a device or
// watcher by a serial id, never used again.

module Registry {

  datatype Device = Device(token: string, bark: bool)

  // One row of devices_accounts.
  datatype Flags = Flags(inbox: bool, watcher: bool, mute: bool)

  const DEFAULTS := Flags(true, true, false)

  datatype Watcher = Watcher(device: nat, account: string, kind: nat, watchee: nat)

  type Link = (nat, string)        // device and account

  datatype Tables = Tables(
    deleted: map<string, bool>,    // the accounts, and whether each is soft-deleted
    devices: map<nat, Device>,
    links: map<Link, Flags>,
    watchers: map<nat, Watcher>,
    next: nat)

  // ---------- The repository's operations ----------

  function SaveAccount(t: Tables, username: string): (after: Tables) {
    t.(deleted := t.deleted[username := false])
  }

  function DeleteAccount(t: Tables, username: string): (after: Tables) {
    if username in t.deleted then t.(deleted := t.deleted[username := true]) else t
  }

  // The foreign keys refuse a device or account that is not there.
  predicate CanAssociate(t: Tables, device: nat, account: string) {
    device in t.devices && account in t.deleted
  }

  function Associate(t: Tables, device: nat, account: string): (after: Tables) {
    if !CanAssociate(t, device, account) || (device, account) in t.links then t
    else t.(links := t.links[(device, account) := DEFAULTS])
  }

  function Disassociate(t: Tables, device: nat, account: string): (after: Tables) {
    t.(links := t.links - {(device, account)})
  }

  function SetNotifiable(t: Tables, device: nat, account: string, flags: Flags): (after: Tables) {
    if (device, account) in t.links then t.(links := t.links[(device, account) := flags]) else t
  }

  function SaveDevice(t: Tables, device: Device): (after: Tables) {
    if exists d <- t.devices :: t.devices[d].token == device.token then
      t.(devices := map d | d in t.devices :: if t.devices[d].token == device.token then device else t.devices[d])
    else
      t.(devices := t.devices[t.next := device], next := t.next + 1)
  }

  function Holders(t: Tables, token: string): (ids: set<nat>) {
    set d | d in t.devices && t.devices[d].token == token
  }

  // Deleting a device takes its links and watchers along.
  function DeleteDevice(t: Tables, token: string): (after: Tables) {
    var gone := Holders(t, token);
    t.(devices := t.devices - gone,
       links := map l | l in t.links && l.0 !in gone :: t.links[l],
       watchers := map w | w in t.watchers && t.watchers[w].device !in gone :: t.watchers[w])
  }

  function CreateWatcher(t: Tables, w: Watcher): (after: Tables) {
    if !CanAssociate(t, w.device, w.account) then t
    else t.(watchers := t.watchers[t.next := w], next := t.next + 1)
  }

  function DeleteWatchers(t: Tables, ids: set<nat>): (after: Tables) {
    t.(watchers := t.watchers - ids)
  }

  // The watchers a worker is given; whether the account is deleted is not looked at.
  function WatchersFor(t: Tables, kind: nat, watchee: nat): (ids: set<nat>) {
    set w | w in t.watchers && Serves(t, t.watchers[w], kind, watchee)
  }

  predicate Serves(t: Tables, w: Watcher, kind: nat, watchee: nat) {
    && w.kind == kind && w.watchee == watchee
    && (w.device, w.account) in t.links
    && t.links[(w.device, w.account)].watcher && !t.links[(w.device, w.account)].mute
  }

  function InboxDevices(t: Tables, account: string): (ids: set<nat>) {
    set l | l in t.links && l.1 == account && t.links[l].inbox :: l.0
  }

  // ---------- What the tables keep ----------

  ghost predicate References(t: Tables) {
    && (forall l <- t.links :: l.0 in t.devices && l.1 in t.deleted)
    && (forall w <- t.watchers :: t.watchers[w].device in t.devices && t.watchers[w].account in t.deleted)
    && (forall d <- t.devices :: d < t.next)
    && (forall w <- t.watchers :: w < t.next)
    && (forall d, e :: d in t.devices && e in t.devices && t.devices[d].token == t.devices[e].token ==> d == e)
  }

  // A soft-deleted account is registered on no device.
  ghost predicate Detached(t: Tables) {
    forall l <- t.links :: l.1 in t.deleted && !t.deleted[l.1]
  }

  lemma SaveDeviceKeeps(t: Tables, device: Device)
    requires References(t)
    ensures References(SaveDevice(t, device)) && SaveDevice(t, device).links == t.links
    ensures t.devices.Keys <= SaveDevice(t, device).devices.Keys
  {
  }

  lemma DeleteDeviceKeeps(t: Tables, token: string)
    requires References(t)
    ensures References(DeleteDevice(t, token))
    ensures forall l :: l in DeleteDevice(t, token).links <==> l in t.links && t.devices[l.0].token != token
    ensures forall w :: w in DeleteDevice(t, token).watchers <==>
              w in t.watchers && t.devices[t.watchers[w].device].token != token
  {
    var after := DeleteDevice(t, token);
    forall d, e | d in after.devices && e in after.devices && after.devices[d].token == after.devices[e].token
      ensures d == e
    {
      assert t.devices[d].token == t.devices[e].token;
    }
  }

  // No watcher of a soft-deleted account is handed out, and no device to push its inbox to.
  lemma DetachedIsSilent(t: Tables, kind: nat, watchee: nat)
    requires References(t) && Detached(t)
    ensures forall w <- WatchersFor(t, kind, watchee) :: !t.deleted[t.watchers[w].account]
    ensures forall a <- t.deleted :: t.deleted[a] ==> InboxDevices(t, a) == {}
  {
  }

  // Saving a device stores it under its token: in the row that has the token, or in a new
  // one; no other device changes.
  lemma SaveDeviceStores(t: Tables, device: Device) returns (d: nat)
    requires References(t)
    ensures var after := SaveDevice(t, device);
            && d in after.devices && after.devices[d] == device
            && (if exists e <- t.devices :: t.devices[e].token == device.token
                then d in t.devices && t.devices[d].token == device.token && after.devices.Keys == t.devices.Keys
                else d == t.next && after.devices.Keys == t.devices.Keys + {d})
            && (forall e <- t.devices :: e != d ==> after.devices[e] == t.devices[e])
            && after == t.(devices := after.devices, next := after.next)
  {
    if exists e <- t.devices :: t.devices[e].token == device.token {
      d :| d in t.devices && t.devices[d].token == device.token;
    } else {
      d := t.next;
    }
  }

  // The flags of an association govern its watchers and its inbox, and nobody else's.
  lemma FlagsGovern(t: Tables, device: nat, account: string, flags: Flags, w: nat, kind: nat, watchee: nat)
    requires (device, account) in t.links && w in t.watchers
    ensures var after, watcher := SetNotifiable(t, device, account, flags), t.watchers[w];
            if watcher.device == device && watcher.account == account
            then w in WatchersFor(after, kind, watchee) <==>
                   watcher.kind == kind && watcher.watchee == watchee && flags.watcher && !flags.mute
            else w in WatchersFor(after, kind, watchee) <==> w in WatchersFor(t, kind, watchee)
    ensures forall d, a ::
              d in InboxDevices(SetNotifiable(t, device, account, flags), a) <==>
                if d == device && a == account then flags.inbox else d in InboxDevices(t, a)
  {
    var after := SetNotifiable(t, device, account, flags);
    forall d, a ensures d in InboxDevices(after, a) <==>
                          if d == device && a == account then flags.inbox else d in InboxDevices(t, a)
    {
      InboxOf(after, d, a);
      InboxOf(t, d, a);
    }
  }

  lemma InboxOf(t: Tables, device: nat, account: string)
    ensures device in InboxDevices(t, account) <==>
              (device, account) in t.links && t.links[(device, account)].inbox
  {
    if (device, account) in t.links && t.links[(device, account)].inbox {
      var l: Link := (device, account);
      assert l in t.links && l.1 == account && l.0 == device;
    }
  }

  // An account taken off a device gets nothing there any more; nothing else changes.
  lemma DisassociatedIsSilent(t: Tables, device: nat, account: string, w: nat, kind: nat, watchee: nat)
    requires w in t.watchers
    ensures var after, watcher := Disassociate(t, device, account), t.watchers[w];
            if watcher.device == device && watcher.account == account then w !in WatchersFor(after, kind, watchee)
            else w in WatchersFor(after, kind, watchee) <==> w in WatchersFor(t, kind, watchee)
    ensures forall d, a ::
              d in InboxDevices(Disassociate(t, device, account), a) <==>
                !(d == device && a == account) && d in InboxDevices(t, a)
  {
    var after := Disassociate(t, device, account);
    forall d, a ensures d in InboxDevices(after, a) <==> !(d == device && a == account) && d in InboxDevices(t, a) {
      InboxOf(after, d, a);
      InboxOf(t, d, a);
    }
  }

  // A new watcher is refused unless its device and account exist; otherwise it is served at
  // once where its association lets it be.
  lemma CreatedIsServed(t: Tables, w: Watcher)
    requires References(t)
    ensures var after := CreateWatcher(t, w);
            if w.device !in t.devices || w.account !in t.deleted then after == t
            else
              && after.watchers == t.watchers[t.next := w]
              && after == t.(watchers := after.watchers, next := after.next)
              && (t.next in WatchersFor(after, w.kind, w.watchee) <==>
                    (w.device, w.account) in t.links
                    && t.links[(w.device, w.account)].watcher && !t.links[(w.device, w.account)].mute)
  {
  }

  // A deleted watcher is served no more; the others are as before.
  lemma DeletedAreNotServed(t: Tables, ids: set<nat>, w: nat, kind: nat, watchee: nat)
    ensures w in WatchersFor(DeleteWatchers(t, ids), kind, watchee) <==> w !in ids && w in WatchersFor(t, kind, watchee)
  {
  }

  // The global mute silences an association's watchers, but not its inbox.
  lemma MuteSparesTheInbox(t: Tables, device: nat, account: string, flags: Flags, kind: nat, watchee: nat)
    requires (device, account) in t.links && flags.mute
    ensures var muted := SetNotifiable(t, device, account, flags);
            && (device in InboxDevices(muted, account) <==> flags.inbox)
            && forall w <- WatchersFor(muted, kind, watchee) ::
                 (muted.watchers[w].device, muted.watchers[w].account) != (device, account)
  {
    var muted := SetNotifiable(t, device, account, flags);
    assert device in InboxDevices(muted, account) ==>
        exists l :: l in muted.links && l.1 == account && l.0 == device && muted.links[l].inbox;
  }

  // Registering an account again brings its watchers back, with the flags of a new
  // association: a mute set before the revocation is forgotten.
  lemma ReassociationForgetsFlags(t: Tables, device: nat, account: string, w: nat)
    requires References(t) && w in t.watchers && t.watchers[w].device == device && t.watchers[w].account == account
    ensures var revoked := DeleteAccount(Disassociate(t, device, account), account);
            var again := Associate(SaveAccount(revoked, account), device, account);
            && w !in WatchersFor(revoked, t.watchers[w].kind, t.watchers[w].watchee)
            && w in WatchersFor(again, t.watchers[w].kind, t.watchers[w].watchee)
            && again.links[(device, account)] == DEFAULTS
  {
  }
}
