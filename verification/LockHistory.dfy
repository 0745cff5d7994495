// What the batch lock guarantees about history: grants of one id, and publications
// of one id, are kept apart in every run, whatever crashes, fails or is requeued.

module LockHistory {
  import opened LockProtocol

  // ---------- History: two grants of one id ----------

  // Some consumer deleted the id's lock after history position i and before j.
  ghost predicate UnlockedBetween(h: seq<Event>, id: Id, i: int, j: int) {
    exists k :: i < k < j && 0 <= k < |h| && h[k].Unlocked? && h[k].id == id
  }

  lemma UnlockedLater(h: seq<Event>, h': seq<Event>, id: Id, i: int, j: int, j': int)
    requires UnlockedBetween(h, id, i, j) && h <= h' && j <= j'
    ensures UnlockedBetween(h', id, i, j')
  {
    var k :| i < k < j && 0 <= k < |h| && h[k].Unlocked? && h[k].id == id;
    assert h'[k] == h[k];
  }

  ghost predicate SameGrantee(h: seq<Event>, i: nat, j: nat)
    requires i < |h| && j < |h|
  {
    h[i].Locked? && h[j].Locked? && h[i].id == h[j].id
  }

  ghost predicate Spaced(h: seq<Event>, i: nat, j: nat)
    requires i < |h| && j < |h|
  {
    UnlockedBetween(h, h[i].id, i, j) || h[i].at + 300 <= h[j].at
  }

  ghost predicate GrantsSpaced(h: seq<Event>) {
    forall i, j :: 0 <= i < j < |h| && SameGrantee(h, i, j) ==> Spaced(h, i, j)
  }

  // A grant that nobody released still stands in the lock table or has run its time.
  ghost predicate Outstanding(s: State, i: nat)
    requires i < |s.history| && s.history[i].Locked?
  {
    var e := s.history[i];
    || UnlockedBetween(s.history, e.id, i, |s.history|)
    || (e.id in s.locks && e.at + LOCK_SECONDS <= s.locks[e.id])
    || e.at + LOCK_SECONDS <= s.now
  }

  ghost predicate HistoryInv(s: State) {
    && (forall i :: 0 <= i < |s.history| ==> s.history[i].at <= s.now)
    && (forall i :: 0 <= i < |s.history| && s.history[i].Locked? ==> Outstanding(s, i))
    && GrantsSpaced(s.history)
  }

  lemma OutstandingStays(s: State, s': State, i: nat)
    requires i < |s.history| && s.history[i].Locked? && Outstanding(s, i) && s.history[i].at <= s.now
    requires s.history <= s'.history && s.now <= s'.now
    requires forall id :: id in s.locks && id !in s'.locks ==> UnlockedBetween(s'.history, id, i, |s'.history|)
    requires forall id :: id in s.locks && id in s'.locks ==>
               s'.locks[id] == s.locks[id] || s.now + LOCK_SECONDS <= s'.locks[id]
    ensures Outstanding(s', i)
  {
    var e := s.history[i];
    assert s'.history[i] == e;
    if UnlockedBetween(s.history, e.id, i, |s.history|) {
      UnlockedLater(s.history, s'.history, e.id, i, |s.history|, |s'.history|);
    }
  }

  lemma SpacedStays(h: seq<Event>, h': seq<Event>)
    requires GrantsSpaced(h) && h <= h'
    requires forall i, j :: 0 <= i < j < |h'| && |h| <= j && SameGrantee(h', i, j) ==> Spaced(h', i, j)
    ensures GrantsSpaced(h')
  {
    forall i, j | 0 <= i < j < |h| && SameGrantee(h', i, j) ensures Spaced(h', i, j) {
      assert SameGrantee(h, i, j) && Spaced(h, i, j);
      if UnlockedBetween(h, h[i].id, i, j) {
        UnlockedLater(h, h', h[i].id, i, j, j);
      }
    }
  }

  lemma StepKeepsHistory(s: State, step: Step)
    requires HistoryInv(s) && Enabled(s, step)
    ensures HistoryInv(Apply(s, step))
  {
    var s' := Apply(s, step);
    var n := |s.history|;
    if step.Release? {
      assert s'.history[n] == Unlocked(s.jobs[step.grant].id, s.now);
    }
    forall i | 0 <= i < n && s.history[i].Locked? ensures Outstanding(s', i) {
      OutstandingStays(s, s', i);
    }
    forall i, j | 0 <= i < j < |s'.history| && n <= j && SameGrantee(s'.history, i, j)
      ensures Spaced(s'.history, i, j)
    {
      assert Outstanding(s, i);
      if UnlockedBetween(s.history, s.history[i].id, i, n) {
        UnlockedLater(s.history, s'.history, s.history[i].id, i, n, j);
      }
    }
    SpacedStays(s.history, s'.history);
  }

  // In every run, between two grants of one id a consumer deleted that id's lock or
  // at least 300 seconds passed.
  lemma {:induction false} BatchLockHistory(states: seq<State>, steps: seq<Step>, n: nat)
    requires Run(states, steps) && n < |states|
    ensures HistoryInv(states[n]) && GrantsSpaced(states[n].history)
  {
    if n > 0 {
      BatchLockHistory(states, steps, n - 1);
      StepKeepsHistory(states[n - 1], steps[n - 1]);
    }
  }

  // ---------- History: publications ----------

  // The position of the grant a publication belongs to.
  ghost predicate GrantOf(h: seq<Event>, l: int, p: int) {
    && 0 <= l < p < |h| && h[p].Published? && h[l].Locked?
    && h[l].grant == h[p].grant && h[l].id == h[p].id
  }

  ghost predicate NumbersDistinct(h: seq<Event>) {
    && (forall i, j :: 0 <= i < j < |h| && h[i].Locked? && h[j].Locked? ==> h[i].grant != h[j].grant)
    && (forall i, j :: 0 <= i < j < |h| && h[i].Published? && h[j].Published? ==> h[i].grant != h[j].grant)
  }

  ghost predicate HasGrant(h: seq<Event>, grant: nat, id: Id) {
    exists l :: 0 <= l < |h| && h[l].Locked? && h[l].grant == grant && h[l].id == id
  }

  // Every job comes from one grant of its id; a publication follows its grant and
  // happens once.
  ghost predicate PublishInv(s: State) {
    Numbered(s) && Rooted(s)
  }

  ghost predicate Numbered(s: State) {
    && NumbersDistinct(s.history)
    && (forall i :: 0 <= i < |s.history| && !s.history[i].Unlocked? ==> s.history[i].grant < s.grants)
    && (forall p :: 0 <= p < |s.history| && s.history[p].Published? ==> !InPhase(s, s.history[p].grant, Granted))
    && (forall g <- s.jobs :: g < s.grants)
  }

  ghost predicate Rooted(s: State) {
    && (forall p :: 0 <= p < |s.history| && s.history[p].Published?
                    ==> HasGrant(s.history[..p], s.history[p].grant, s.history[p].id))
    && (forall g <- s.jobs :: HasGrant(s.history, g, s.jobs[g].id))
  }

  lemma HasGrantStays(h: seq<Event>, h': seq<Event>, grant: nat, id: Id)
    requires HasGrant(h, grant, id) && h <= h'
    ensures HasGrant(h', grant, id)
  {
    var l :| 0 <= l < |h| && h[l].Locked? && h[l].grant == grant && h[l].id == id;
    assert h'[l] == h[l];
  }

  lemma StepKeepsNumbers(s: State, step: Step)
    requires Numbered(s) && Enabled(s, step)
    ensures Numbered(Apply(s, step))
  {
  }

  lemma StepKeepsRoots(s: State, step: Step)
    requires Rooted(s) && Enabled(s, step)
    ensures Rooted(Apply(s, step))
  {
    var s' := Apply(s, step);
    var n := |s.history|;
    assert s.history[..n] == s.history;
    forall p | 0 <= p < |s'.history| && s'.history[p].Published?
      ensures HasGrant(s'.history[..p], s'.history[p].grant, s'.history[p].id)
    {
      assert s'.history[..p] == s.history[..p];
    }
    forall g | g in s'.jobs ensures HasGrant(s'.history, g, s'.jobs[g].id) {
      if step == Lock(s'.jobs[g].id) && g == s.grants {
        assert s'.history[n] == Locked(g, s'.jobs[g].id, s.now);
      } else {
        HasGrantStays(s.history, s'.history, g, s.jobs[g].id);
      }
    }
  }

  lemma {:induction false} PublishInvHolds(states: seq<State>, steps: seq<Step>, n: nat)
    requires Run(states, steps) && n < |states|
    ensures PublishInv(states[n])
  {
    if n > 0 {
      PublishInvHolds(states, steps, n - 1);
      StepKeepsNumbers(states[n - 1], steps[n - 1]);
      StepKeepsRoots(states[n - 1], steps[n - 1]);
    }
  }

  // The step ends the grant's job: its publication failed, it was too old, or it is done.
  predicate Ends(step: Step, g: nat) {
    match step
    case PublishFails(grant) => grant == g
    case TooOld(grant) => grant == g
    case Acknowledge(grant) => grant == g
    case _ => false
  }

  // A grant whose job has ended never has a job again: nothing is published for it, taken
  // or requeued any more.
  lemma {:induction false} EndedForGood(states: seq<State>, steps: seq<Step>, i: nat, n: nat, g: nat)
    requires Run(states, steps) && i < n < |states| && Ends(steps[i], g)
    ensures g !in states[n].jobs && g < states[n].grants
    decreases n
  {
    if n == i + 1 {
      PublishInvHolds(states, steps, i);
    } else {
      EndedForGood(states, steps, i, n - 1, g);
    }
  }

  // Two publications of one id belong to two different grants, and those grants are
  // 300 seconds apart or separated by a lock deletion. Requeueing a job, duplicate
  // candidates and failed publications add no publication and do not weaken this.
  lemma PublicationsSpaced(states: seq<State>, steps: seq<Step>, n: nat, i: nat, j: nat) returns (a: nat, b: nat)
    requires Run(states, steps) && n < |states|
    requires var h := states[n].history;
             i < j < |h| && h[i].Published? && h[j].Published? && h[i].id == h[j].id
    ensures var h := states[n].history;
            && a < b < |h|
            && ((GrantOf(h, a, i) && GrantOf(h, b, j)) || (GrantOf(h, a, j) && GrantOf(h, b, i)))
            && Spaced(h, a, b)
  {
    BatchLockHistory(states, steps, n);
    PublishInvHolds(states, steps, n);
    var h := states[n].history;
    var l :| 0 <= l < i && h[..i][l].Locked? && h[..i][l].grant == h[i].grant && h[..i][l].id == h[i].id;
    var m :| 0 <= m < j && h[..j][m].Locked? && h[..j][m].grant == h[j].grant && h[..j][m].id == h[j].id;
    assert GrantOf(h, l, i) && GrantOf(h, m, j);
    a, b := if l < m then l else m, if l < m then m else l;
    assert SameGrantee(h, a, b);
  }

  // ---------- Publications at their own times ----------

  ghost predicate InTime(h: seq<Event>) {
    forall i, j :: 0 <= i <= j < |h| ==> h[i].at <= h[j].at
  }

  lemma {:induction false} HistoryInTime(states: seq<State>, steps: seq<Step>, n: nat)
    requires Run(states, steps) && n < |states|
    ensures InTime(states[n].history)
  {
    if n > 0 {
      HistoryInTime(states, steps, n - 1);
      BatchLockHistory(states, steps, n - 1);
    }
  }

  // Published at the clock reading of its lock, before anybody deletes that lock.
  ghost predicate Tight(h: seq<Event>) {
    forall l, p :: GrantOf(h, l, p) ==> h[p].at == h[l].at && !UnlockedBetween(h, h[p].id, l, p)
  }

  // With tight publication, two publications of one id are themselves 300 seconds apart
  // or separated by a deletion of the id's lock.
  lemma TightPublicationsSpaced(states: seq<State>, steps: seq<Step>, n: nat, i: nat, j: nat)
    requires Run(states, steps) && n < |states| && Tight(states[n].history)
    requires var h := states[n].history;
             i < j < |h| && h[i].Published? && h[j].Published? && h[i].id == h[j].id
    ensures var h := states[n].history; Spaced(h, i, j)
  {
    var h := states[n].history;
    var id := h[i].id;
    HistoryInTime(states, steps, n);
    var a, b := PublicationsSpaced(states, steps, n, i, j);
    if GrantOf(h, a, i) && GrantOf(h, b, j) {
      if UnlockedBetween(h, id, a, b) {
        var k :| a < k < b && 0 <= k < |h| && h[k].Unlocked? && h[k].id == id;
        assert k <= i ==> UnlockedBetween(h, id, a, i);
        assert UnlockedBetween(h, id, i, j);
      }
    }
  }

  // ---------- Why publication must be tight ----------

  lemma Then(states: seq<State>, steps: seq<Step>, step: Step) returns (states': seq<State>, steps': seq<Step>)
    requires Run(states, steps) && Enabled(states[|steps|], step)
    ensures Run(states', steps') && states'[|steps'|] == Apply(states[|steps|], step)
  {
    states', steps' := states + [Apply(states[|steps|], step)], steps + [step];
  }

  // A publication that comes late, after its lock was granted, is followed at once by the
  // next one, though nobody deleted a lock.
  lemma LatePublication() returns (states: seq<State>, steps: seq<Step>)
    ensures Run(states, steps)
    ensures states[|steps|].history
         == [Locked(0, "a", 0), Published(0, "a", LOCK_SECONDS - 1), Locked(1, "a", LOCK_SECONDS),
             Published(1, "a", LOCK_SECONDS)]
    ensures !Spaced(states[|steps|].history, 1, 3)
  {
    states, steps := [State(0, map[], map[], 0, [])], [];
    states, steps := Then(states, steps, Lock("a"));
    states, steps := Then(states, steps, Tick(LOCK_SECONDS - 1));
    states, steps := Then(states, steps, Publish(0));
    states, steps := Then(states, steps, Tick(1));
    states, steps := Then(states, steps, Lock("a"));
    states, steps := Then(states, steps, Publish(1));
  }

  // A job that outlived its lock.
  lemma Outlived() returns (states: seq<State>, steps: seq<Step>)
    ensures Run(states, steps)
    ensures states[|steps|]
         == State(LOCK_SECONDS, map["a" := LOCK_SECONDS], map[0 := Job("a", 0, Executing)], 1,
                  [Locked(0, "a", 0), Published(0, "a", 0)])
  {
    states, steps := [State(0, map[], map[], 0, [])], [];
    states, steps := Then(states, steps, Lock("a"));
    states, steps := Then(states, steps, Publish(0));
    states, steps := Then(states, steps, Take(0));
    states, steps := Then(states, steps, Tick(LOCK_SECONDS));
  }

  // Such a job may delete its successor's lock before the successor is published; then
  // two publications follow each other at once, each at its lock's clock reading.
  lemma UnlockBeforePublication() returns (states: seq<State>, steps: seq<Step>)
    ensures Run(states, steps)
    ensures var now := LOCK_SECONDS;
            states[|steps|].history
            == [Locked(0, "a", 0), Published(0, "a", 0), Locked(1, "a", now), Unlocked("a", now),
                Locked(2, "a", now), Published(1, "a", now), Published(2, "a", now)]
    ensures !Spaced(states[|steps|].history, 5, 6)
  {
    states, steps := Outlived();
    states, steps := Then(states, steps, Lock("a"));
    states, steps := Then(states, steps, Release(0));
    states, steps := Then(states, steps, Lock("a"));
    states, steps := Then(states, steps, Publish(1));
    states, steps := Then(states, steps, Publish(2));
  }
}
