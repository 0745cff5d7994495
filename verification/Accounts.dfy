// Registering all of a device's accounts at once, and revoking one account, as the loops
// that do it.

module Accounts {
  import opened Wrappers
  import opened Registry
  import Keywords

  // How a registration ends: it is refused before a row is written, its row cannot be
  // saved, its association fails, or it succeeds.
  datatype Outcome = Refused | Unsaved | Unassociated | Succeeded

  datatype Request = Request(username: string, outcome: Outcome)

  // ---------- What a device's accounts are ----------

  function Current(t: Tables, device: nat): (accounts: set<string>) {
    set l | l in t.links && l.0 == device && l.1 in t.deleted && !t.deleted[l.1] :: l.1
  }

  function Names(lower: Keywords.Lowering, accounts: set<string>): (names: set<string>) {
    set a | a in accounts :: Keywords.Lower(lower, a)
  }

  function Requested(reqs: seq<Request>): (accounts: set<string>) {
    set r | r in reqs :: r.username
  }

  // The accounts the device has and the request does not name.
  function Unrequested(lower: Keywords.Lowering, t: Tables, device: nat, reqs: seq<Request>): (accounts: set<string>) {
    set a | a in Current(t, device) && Keywords.Lower(lower, a) !in Names(lower, Requested(reqs))
  }

  function Elements(accounts: seq<string>): (members: set<string>) {
    set a | a in accounts
  }

  // No two accounts share a name but for case.
  ghost predicate Lone(lower: Keywords.Lowering, accounts: set<string>) {
    forall a, b :: a in accounts && b in accounts && Keywords.Lower(lower, a) == Keywords.Lower(lower, b) ==> a == b
  }

  // The tables after the given accounts have been saved and associated.
  function Registered(t: Tables, device: nat, reqs: seq<Request>): (after: Tables) {
    if reqs == [] then t
    else
      var before := Registered(t, device, reqs[..|reqs| - 1]);
      var username := reqs[|reqs| - 1].username;
      Associate(SaveAccount(before, username), device, username)
  }

  lemma RequestedSnoc(reqs: seq<Request>, i: nat)
    requires i < |reqs|
    ensures Requested(reqs[..i + 1]) == Requested(reqs[..i]) + {reqs[i].username}
  {
    assert reqs[..i + 1] == reqs[..i] + [reqs[i]];
  }

  // The given accounts are added and undeleted, the flags of those already there are
  // kept, and nothing else is touched.
  ghost predicate Grown(t: Tables, device: nat, accounts: set<string>, after: Tables) {
    && References(after)
    && after == t.(links := after.links, deleted := after.deleted)
    && (forall l :: l in after.links <==> l in t.links || (l.0 == device && l.1 in accounts))
    && (forall l <- after.links :: after.links[l] == if l in t.links then t.links[l] else DEFAULTS)
    && after.deleted.Keys == t.deleted.Keys + accounts
    && (forall a <- after.deleted :: after.deleted[a] == (a !in accounts && t.deleted[a]))
  }

  lemma OneMore(t: Tables, device: nat, username: string)
    requires References(t) && device in t.devices
    ensures var after := Associate(SaveAccount(t, username), device, username);
            && References(after)
            && after == t.(links := after.links, deleted := t.deleted[username := false])
            && after.links == if (device, username) in t.links then t.links else t.links[(device, username) := DEFAULTS]
  {
  }

  lemma GrownByOne(t: Tables, device: nat, accounts: set<string>, mid: Tables, username: string)
    requires Grown(t, device, accounts, mid) && device in t.devices
    ensures Grown(t, device, accounts + {username}, Associate(SaveAccount(mid, username), device, username))
  {
    OneMore(mid, device, username);
    var links := Associate(SaveAccount(mid, username), device, username).links;
    forall l ensures l in links <==> l in t.links || (l.0 == device && l.1 in accounts + {username}) {
      assert l in links <==> l in mid.links || l == (device, username);
    }
  }

  lemma {:induction false} RegisteredTables(t: Tables, device: nat, reqs: seq<Request>)
    requires References(t) && device in t.devices
    ensures Grown(t, device, Requested(reqs), Registered(t, device, reqs))
  {
    if reqs != [] {
      var n := |reqs| - 1;
      RegisteredTables(t, device, reqs[..n]);
      RequestedSnoc(reqs, n);
      assert reqs[..n + 1] == reqs;
      GrownByOne(t, device, Requested(reqs[..n]), Registered(t, device, reqs[..n]), reqs[n].username);
    }
  }

  // ---------- Reconciliation ----------

  // What is left of the map from names to accounts once the requested names are struck
  // out: one account for every name not requested.
  ghost predicate Leftover(lower: Keywords.Lowering, accounts: set<string>, m: map<string, string>) {
    && m.Keys == Names(lower, accounts)
    && forall k <- m :: m[k] in accounts && Keywords.Lower(lower, m[k]) == k
  }

  // Each account left over is taken off the device.
  function Reconciled(t: Tables, device: nat, m: map<string, string>): (after: Tables) {
    Off(t, device, m.Values)
  }

  function Off(t: Tables, device: nat, accounts: set<string>): (after: Tables) {
    t.(links := map l | l in t.links && !(l.0 == device && l.1 in accounts) :: t.links[l])
  }

  lemma OffOne(t: Tables, device: nat, accounts: set<string>, a: string)
    ensures Disassociate(Off(t, device, accounts), device, a) == Off(t, device, accounts + {a})
  {
  }

  lemma ReconciledAccounts(lower: Keywords.Lowering, t: Tables, device: nat, reqs: seq<Request>, m: map<string, string>)
    requires References(t) && device in t.devices
    requires Leftover(lower, Unrequested(lower, t, device, reqs), m)
    ensures var after := Reconciled(Registered(t, device, reqs), device, m);
            forall a :: a in Current(after, device) <==>
              a in Requested(reqs) || (a in Current(t, device) && a !in m.Values)
  {
    RegisteredTables(t, device, reqs);
    var mid := Registered(t, device, reqs);
    var after := Reconciled(mid, device, m);
    forall a
      ensures a in Current(after, device) <==> a in Requested(reqs) || (a in Current(t, device) && a !in m.Values)
    {
      assert a in Current(after, device) <==> (device, a) in after.links && a in after.deleted && !after.deleted[a];
      assert a in Current(t, device) <==> (device, a) in t.links && a in t.deleted && !t.deleted[a];
      if a in m.Values {
        var k :| k in m && m[k] == a;
        assert a in Requested(reqs) ==> Keywords.Lower(lower, a) in Names(lower, Requested(reqs));
      }
    }
  }

  // The device ends up with exactly the requested names, when, and only when, no two of
  // its unrequested accounts differ in case alone.
  lemma ReconciledNames(lower: Keywords.Lowering, t: Tables, device: nat, reqs: seq<Request>, m: map<string, string>)
    requires References(t) && device in t.devices
    requires Leftover(lower, Unrequested(lower, t, device, reqs), m)
    ensures var after := Reconciled(Registered(t, device, reqs), device, m);
            Names(lower, Current(after, device)) == Names(lower, Requested(reqs))
            <==> Lone(lower, Unrequested(lower, t, device, reqs))
  {
    var after := Reconciled(Registered(t, device, reqs), device, m);
    var wanted, others := Names(lower, Requested(reqs)), Unrequested(lower, t, device, reqs);
    ReconciledAccounts(lower, t, device, reqs, m);
    assert wanted <= Names(lower, Current(after, device));
    if Lone(lower, others) {
      forall a | a in Current(after, device) ensures Keywords.Lower(lower, a) in wanted {
        if Keywords.Lower(lower, a) !in wanted {
          Struck(lower, others, m, a);
        }
      }
      assert Names(lower, Current(after, device)) <= wanted;
    } else {
      var a, b :| a in others && b in others && Keywords.Lower(lower, a) == Keywords.Lower(lower, b) && a != b;
      var kept := if m[Keywords.Lower(lower, a)] == a then b else a;
      NotStruck(lower, others, m, kept);
      assert kept in Current(after, device);
      assert Keywords.Lower(lower, kept) in Names(lower, Current(after, device));
    }
  }

  lemma Struck(lower: Keywords.Lowering, others: set<string>, m: map<string, string>, a: string)
    requires Leftover(lower, others, m) && Lone(lower, others) && a in others
    ensures a in m.Values
  {
    assert Keywords.Lower(lower, a) in m.Keys;
    assert m[Keywords.Lower(lower, a)] == a;
  }

  lemma NotStruck(lower: Keywords.Lowering, others: set<string>, m: map<string, string>, a: string)
    requires Leftover(lower, others, m) && a in others && m[Keywords.Lower(lower, a)] != a
    ensures a !in m.Values
  {
  }

  // ---------- The loops ----------

  function DevicesOf(t: Tables, account: string): (devices: set<nat>) {
    set l | l in t.links && l.1 == account :: l.0
  }

  lemma OneDeviceLess(t: Tables, account: string, device: nat)
    requires device in DevicesOf(t, account)
    ensures DevicesOf(Disassociate(t, device, account), account) == DevicesOf(t, account) - {device}
  {
    var after := Disassociate(t, device, account);
    forall d ensures d in DevicesOf(after, account) <==> d in DevicesOf(t, account) && d != device {
      assert d in DevicesOf(t, account) <==> (d, account) in t.links;
      assert d in DevicesOf(after, account) <==> (d, account) in after.links;
    }
  }

  // The position of the first request that does not succeed.
  function FirstFailure(reqs: seq<Request>, i: nat): (n: nat)
    requires i <= |reqs|
    ensures i <= n <= |reqs| && (forall k :: i <= k < n ==> reqs[k].outcome == Succeeded)
    ensures n < |reqs| ==> reqs[n].outcome != Succeeded
    decreases |reqs| - i
  {
    if i == |reqs| || reqs[i].outcome != Succeeded then i else FirstFailure(reqs, i + 1)
  }

  // What a registration that fails leaves: a saved account, if it came that far.
  function Failed(t: Tables, req: Request): (after: Tables) {
    if req.outcome == Unassociated then SaveAccount(t, req.username) else t
  }

  class Store {
    var t: Tables

    constructor (t: Tables)
      ensures this.t == t
    {
      this.t := t;
    }

    // The accounts of a device, in whatever order the query returns them.
    method AccountsOf(device: nat) returns (accounts: seq<string>)
      ensures forall a :: a in accounts <==> a in Current(t, device)
    {
      accounts := [];
      var rest := Current(t, device);
      while rest != {}
        invariant forall a :: a in Current(t, device) <==> a in accounts || a in rest
        decreases |rest|
      {
        var a :| a in rest;
        accounts := accounts + [a];
        rest := rest - {a};
      }
    }

    // Which account stands for a name that several share is left to the order.
    method ByName(lower: Keywords.Lowering, device: nat) returns (m: map<string, string>)
      ensures Leftover(lower, Current(t, device), m)
    {
      var accounts := AccountsOf(device);
      m := map[];
      var i := 0;
      while i < |accounts|
        invariant 0 <= i <= |accounts|
        invariant Leftover(lower, Elements(accounts[..i]), m)
      {
        assert accounts[..i + 1] == accounts[..i] + [accounts[i]];
        assert Elements(accounts[..i + 1]) == Elements(accounts[..i]) + {accounts[i]};
        NamesAdd(lower, Elements(accounts[..i]), accounts[i]);
        m := m[Keywords.Lower(lower, accounts[i]) := accounts[i]];
        i := i + 1;
      }
      assert accounts[..i] == accounts;
      assert Elements(accounts) == Current(t, device);
    }

    method Register(device: nat, req: Request) returns (ok: bool)
      modifies this
      ensures ok <==> req.outcome == Succeeded
      ensures ok ==> t == Associate(SaveAccount(old(t), req.username), device, req.username)
      ensures !ok ==> t == Failed(old(t), req)
    {
      if req.outcome == Refused || req.outcome == Unsaved {
        return false;
      }
      t := SaveAccount(t, req.username);
      if req.outcome == Unassociated {
        return false;
      }
      t := Associate(t, device, req.username);
      return true;
    }

    // Registers the requests in turn and strikes their names out of m.
    method RegisterAll(lower: Keywords.Lowering, device: nat, reqs: seq<Request>, m0: map<string, string>)
      returns (ok: bool, m: map<string, string>)
      requires References(t) && device in t.devices && Leftover(lower, Current(t, device), m0)
      modifies this
      ensures ok <==> FirstFailure(reqs, 0) == |reqs|
      ensures ok ==> t == Registered(old(t), device, reqs)
      ensures ok ==> Leftover(lower, Unrequested(lower, old(t), device, reqs), m)
      ensures !ok ==>
                var n := FirstFailure(reqs, 0);
                n < |reqs| && t == Failed(Registered(old(t), device, reqs[..n]), reqs[n])
    {
      m := m0;
      var i := 0;
      assert Unrequested(lower, t, device, reqs[..0]) == Current(t, device);
      while i < |reqs|
        invariant 0 <= i <= |reqs| && FirstFailure(reqs, 0) == FirstFailure(reqs, i)
        invariant t == Registered(old(t), device, reqs[..i])
        invariant Leftover(lower, Unrequested(lower, old(t), device, reqs[..i]), m)
      {
        StrikeOut(lower, old(t), device, reqs, i, m);
        m := m - {Keywords.Lower(lower, reqs[i].username)};
        ok := Register(device, reqs[i]);
        if !ok {
          return;
        }
        assert reqs[..i + 1][..i] == reqs[..i];
        i := i + 1;
      }
      assert reqs[..i] == reqs;
      ok := true;
    }

    method RemoveAll(device: nat, m: map<string, string>)
      modifies this
      ensures t == Reconciled(old(t), device, m)
    {
      var rest := m.Values;
      ghost var gone: set<string> := {};
      assert t.links == Off(t, device, {}).links;
      while rest != {}
        invariant gone + rest == m.Values && t == Off(old(t), device, gone)
        decreases |rest|
      {
        var a :| a in rest;
        OffOne(old(t), device, gone, a);
        t := Disassociate(t, device, a);
        rest := rest - {a};
        gone := gone + {a};
      }
    }

    // The bulk registration. If it succeeds the device has the requested names, exactly
    // when its other accounts differ in more than case; if it fails, the accounts before
    // the failure are associated and nothing is removed. No other device is touched.
    method UpsertAccounts(lower: Keywords.Lowering, device: Option<nat>, reqs: seq<Request>) returns (ok: bool)
      requires References(t) && (device.Some? ==> device.value in t.devices)
      modifies this
      ensures ok <==> device.Some? && FirstFailure(reqs, 0) == |reqs|
      ensures device.None? ==> t == old(t)
      ensures ok ==>
                (Names(lower, Current(t, device.value)) == Names(lower, Requested(reqs))
                 <==> Lone(lower, Unrequested(lower, old(t), device.value, reqs)))
      ensures ok ==>
                forall a ::
                  (device.value, a) in t.links && a in t.deleted && !t.deleted[a] ==>
                    || (exists r <- reqs :: r.username == a)
                    || ((device.value, a) in old(t).links && a in old(t).deleted && !old(t).deleted[a])
      ensures ok ==> forall r <- reqs :: (device.value, r.username) in t.links
      ensures ok ==> t.deleted.Keys == old(t).deleted.Keys + Requested(reqs)
                     && forall a <- t.deleted :: t.deleted[a] == (a !in Requested(reqs) && old(t).deleted[a])
      ensures !ok && device.Some? ==>
                var n := FirstFailure(reqs, 0);
                && n < |reqs|
                && t.deleted.Keys == old(t).deleted.Keys + Requested(reqs[..n])
                                     + (if reqs[n].outcome == Unassociated then {reqs[n].username} else {})
      ensures forall a <- t.deleted :: t.deleted[a] ==> a in old(t).deleted && old(t).deleted[a]
      ensures !ok && device.Some? ==>
                forall l :: l in t.links <==>
                  l in old(t).links || (l.0 == device.value && l.1 in Requested(reqs[..FirstFailure(reqs, 0)]))
      ensures device.Some? ==>
                (forall l: Link :: l.0 != device.value ==> (l in t.links <==> l in old(t).links))
                && (forall l <- t.links :: l in old(t).links ==> t.links[l] == old(t).links[l])
    {
      if device.None? {
        return false;
      }
      var d := device.value;
      var m := ByName(lower, d);
      ok, m := RegisterAll(lower, d, reqs, m);
      if !ok {
        RegisteredTables(old(t), d, reqs[..FirstFailure(reqs, 0)]);
        return;
      }
      RegisteredTables(old(t), d, reqs);
      ReconciledNames(lower, old(t), d, reqs, m);
      ReconciledAccounts(lower, old(t), d, reqs, m);
      RemoveAll(d, m);
    }

    // The account's devices, then the account; only `limit` of these writes succeed, and an
    // error stops the rest.
    method DeleteAccount(account: string, limit: nat) returns (ok: bool)
      requires References(t) && account in t.deleted
      modifies this
      ensures ok <==> |DevicesOf(old(t), account)| < limit
      ensures |DevicesOf(t, account)| == if ok then 0 else |DevicesOf(old(t), account)| - limit
      ensures ok ==> t.deleted == old(t).deleted[account := true] && forall l <- t.links :: l.1 != account
      ensures !ok ==> t.deleted == old(t).deleted
      ensures forall l <- old(t).links :: l.1 != account ==> l in t.links && t.links[l] == old(t).links[l]
      ensures forall l <- t.links :: l in old(t).links
      ensures t == old(t).(links := t.links, deleted := t.deleted)
    {
      var rest := DevicesOf(t, account);
      var calls := 0;
      while rest != {}
        invariant t == old(t).(links := t.links) && rest == DevicesOf(t, account)
        invariant |rest| + calls == |DevicesOf(old(t), account)| && calls <= limit
        invariant forall l <- t.links :: l in old(t).links && t.links[l] == old(t).links[l]
        invariant forall l <- t.links :: l.1 == account ==> l.0 in rest
        invariant forall l <- old(t).links :: l.1 != account ==> l in t.links
        decreases |rest|
      {
        if calls == limit {
          return false;
        }
        var d :| d in rest;
        OneDeviceLess(t, account, d);
        t := Disassociate(t, d, account);
        rest := rest - {d};
        calls := calls + 1;
      }
      if calls == limit {
        return false;
      }
      t := Registry.DeleteAccount(t, account);
      assert DevicesOf(t, account) == {};
      return true;
    }
  }

  lemma NamesAdd(lower: Keywords.Lowering, accounts: set<string>, a: string)
    ensures Names(lower, accounts + {a}) == Names(lower, accounts) + {Keywords.Lower(lower, a)}
  {
  }

  lemma StrikeOut(lower: Keywords.Lowering, t: Tables, device: nat, reqs: seq<Request>, i: nat, m: map<string, string>)
    requires i < |reqs| && Leftover(lower, Unrequested(lower, t, device, reqs[..i]), m)
    ensures Leftover(lower, Unrequested(lower, t, device, reqs[..i + 1]), m - {Keywords.Lower(lower, reqs[i].username)})
  {
    var name := Keywords.Lower(lower, reqs[i].username);
    var before, after := Unrequested(lower, t, device, reqs[..i]), Unrequested(lower, t, device, reqs[..i + 1]);
    RequestedSnoc(reqs, i);
    NamesAdd(lower, Requested(reqs[..i]), reqs[i].username);
    assert after == set a | a in before && Keywords.Lower(lower, a) != name;
    assert Names(lower, after) == Names(lower, before) - {name};
  }
}
