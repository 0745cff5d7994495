// The "already notified" keys of the watcher workers: one key for each device and
// post, kept for a window that equals the age limit of the posts.
//
// A job reads the clock twice: for the age limit when it starts, and for the keys
// while it runs. `latency` bounds the difference; zero is a job at one clock reading.

module NotifiedKeys {

  type Key = (nat, string)        // device and post
  type Keys = map<Key, int>       // expiry

  const DAY := 24 * 60 * 60
  const SUBREDDIT_WINDOW := DAY
  const TRENDING_WINDOW := 2 * DAY

  predicate Live(keys: Keys, k: Key, now: int) {
    k in keys && now < keys[k]
  }

  datatype Attempt = Attempt(watcher: nat, device: nat, post: string)

  function KeyOf(a: Attempt): (k: Key) {
    (a.device, a.post)
  }

  type Births = string -> int      // when each post was created

  datatype Job = Job(start: int, now: int, sends: seq<Attempt>)

  // What one job may do, whatever it decides to match: a key that stands is left
  // alone, every send sets a key that did not stand, and only posts young enough at
  // the start of the job are sent.
  ghost predicate JobEffect(keys: Keys, keys': Keys, job: Job, window: int, births: Births) {
    && (forall k <- keys :: k in keys' && (keys'[k] == keys[k] || (keys'[k] == job.now + window && keys[k] <= job.now)))
    && (forall a <- job.sends ::
          && KeyOf(a) in keys' && keys'[KeyOf(a)] == job.now + window
          && !Live(keys, KeyOf(a), job.now)
          && births(a.post) >= job.start - window)
    && (forall i, j :: 0 <= i < j < |job.sends| ==> KeyOf(job.sends[i]) != KeyOf(job.sends[j]))
  }

  // The job is not slower than the latency, and no post it sends is younger than that.
  ghost predicate Punctual(job: Job, latency: int, births: Births) {
    && 0 <= job.now - job.start <= latency
    && forall a <- job.sends :: births(a.post) < job.now - latency
  }

  ghost predicate Run(tables: seq<Keys>, jobs: seq<Job>, window: int, latency: int, births: Births) {
    && |tables| == |jobs| + 1
    && tables[0] == map[]
    && forall i :: 0 <= i < |jobs| ==>
         JobEffect(tables[i], tables[i + 1], jobs[i], window, births) && Punctual(jobs[i], latency, births)
  }

  function Log(jobs: seq<Job>): (log: seq<Attempt>) {
    if jobs == [] then [] else Log(jobs[..|jobs| - 1]) + jobs[|jobs| - 1].sends
  }

  lemma LogOfTwo(jobs: seq<Job>)
    requires |jobs| == 2
    ensures Log(jobs) == jobs[0].sends + jobs[1].sends
  {
    assert jobs[..1][..0] == [] && jobs[..1][0] == jobs[0];
    assert Log(jobs[..1]) == Log([]) + jobs[0].sends == jobs[0].sends;
  }

  // Every send so far left a key, and the key outlives the post's eligibility.
  ghost predicate Remembered(keys: Keys, log: seq<Attempt>, window: int, latency: int, births: Births) {
    forall a <- log :: KeyOf(a) in keys && births(a.post) < keys[KeyOf(a)] - window - latency
  }

  ghost predicate AtMostOnce(log: seq<Attempt>) {
    forall i, j :: 0 <= i < j < |log| ==> KeyOf(log[i]) != KeyOf(log[j])
  }

  lemma {:induction false} NeverNotifiedTwice(tables: seq<Keys>, jobs: seq<Job>, window: int, latency: int,
                                              births: Births, n: nat)
    requires Run(tables, jobs, window, latency, births) && n <= |jobs| && window >= 0
    ensures AtMostOnce(Log(jobs[..n]))
    ensures Remembered(tables[n], Log(jobs[..n]), window, latency, births)
  {
    if n > 0 {
      NeverNotifiedTwice(tables, jobs, window, latency, births, n - 1);
      var log, job := Log(jobs[..n - 1]), jobs[n - 1];
      assert jobs[..n][..n - 1] == jobs[..n - 1];
      assert JobEffect(tables[n - 1], tables[n], job, window, births);
      NotSentBefore(tables[n - 1], tables[n], log, job, window, latency, births);
    }
  }

  lemma NotSentBefore(keys: Keys, keys': Keys, log: seq<Attempt>, job: Job, window: int, latency: int, births: Births)
    requires JobEffect(keys, keys', job, window, births) && Punctual(job, latency, births) && window >= 0
    requires Remembered(keys, log, window, latency, births)
    ensures forall a, b :: a in log && b in job.sends ==> KeyOf(a) != KeyOf(b)
    ensures Remembered(keys', log + job.sends, window, latency, births)
  {
  }

  // ---------- The age condition is exact ----------

  // A run of jobs within the latency that may also send posts younger than it.
  ghost predicate SlowRun(tables: seq<Keys>, jobs: seq<Job>, window: int, latency: int, births: Births) {
    && |tables| == |jobs| + 1
    && tables[0] == map[]
    && forall i :: 0 <= i < |jobs| ==>
         JobEffect(tables[i], tables[i + 1], jobs[i], window, births) && 0 <= jobs[i].now - jobs[i].start <= latency
  }

  lemma {:induction false} KeysGrow(tables: seq<Keys>, jobs: seq<Job>, window: int, latency: int, births: Births,
                                    m: nat, n: nat, k: Key)
    requires SlowRun(tables, jobs, window, latency, births) && window >= 0 && m <= n <= |jobs| && k in tables[m]
    ensures k in tables[n] && tables[m][k] <= tables[n][k]
    decreases n
  {
    if m < n {
      KeysGrow(tables, jobs, window, latency, births, m, n - 1, k);
      assert JobEffect(tables[n - 1], tables[n], jobs[n - 1], window, births);
    }
  }

  // Job i sends the attempt at time `sent`, and the later job j sends its key again.
  ghost predicate SentAgain(tables: seq<Keys>, jobs: seq<Job>, i: nat, j: nat, a: Attempt, sent: int,
                            window: int, latency: int, births: Births) {
    && SlowRun(tables, jobs, window, latency, births) && i < j < |jobs|
    && a in jobs[i].sends && jobs[i].now == sent
    && exists b :: b in jobs[j].sends && KeyOf(b) == KeyOf(a)
  }

  lemma AgainOnlyIfYoung(tables: seq<Keys>, jobs: seq<Job>, i: nat, j: nat, a: Attempt, sent: int,
                         window: int, latency: int, births: Births)
    requires SentAgain(tables, jobs, i, j, a, sent, window, latency, births) && window >= 0
    ensures births(a.post) >= sent - latency
  {
    var b :| b in jobs[j].sends && KeyOf(b) == KeyOf(a);
    assert JobEffect(tables[i], tables[i + 1], jobs[i], window, births);
    assert JobEffect(tables[j], tables[j + 1], jobs[j], window, births);
    KeysGrow(tables, jobs, window, latency, births, i + 1, j, KeyOf(a));
  }

  // A post sent so soon after its birth is sent again by a job that starts when the key
  // still stands and reads the keys when it has expired.
  lemma SlowJobsSendTwice(a: Attempt, sent: int, window: int, latency: int, births: Births)
    returns (tables: seq<Keys>, jobs: seq<Job>)
    requires 0 <= latency <= window && births(a.post) >= sent - latency
    ensures SentAgain(tables, jobs, 0, 1, a, sent, window, latency, births) && |jobs| == 2
    ensures jobs[0].now <= jobs[1].start && !AtMostOnce(Log(jobs))
  {
    var k := KeyOf(a);
    jobs := [Job(sent, sent, [a]), Job(sent + window - latency, sent + window, [a])];
    tables := [map[], map[k := sent + window], map[k := sent + 2 * window]];
    assert a in jobs[1].sends;
    assert jobs[..1] == [jobs[0]] && jobs[..1][..0] == [];
    assert Log(jobs[..1]) == Log([]) + [a];
    var log := Log(jobs);
    assert log == [a] + [a] && KeyOf(log[0]) == KeyOf(log[1]);
  }

  // A post sent at time `sent` can be sent again in a run of the given latency exactly
  // when it was then no older than that latency. For jobs at one clock reading the
  // condition of Punctual says: created before it is sent.
  lemma SecondNotification(a: Attempt, sent: int, window: int, latency: int, births: Births)
    requires 0 <= latency <= window
    ensures (exists tables, jobs, i, j :: SentAgain(tables, jobs, i, j, a, sent, window, latency, births))
            <==> births(a.post) >= sent - latency
  {
    if births(a.post) >= sent - latency {
      var tables, jobs := SlowJobsSendTwice(a, sent, window, latency, births);
      assert SentAgain(tables, jobs, 0, 1, a, sent, window, latency, births);
    }
    if exists tables, jobs, i, j :: SentAgain(tables, jobs, i, j, a, sent, window, latency, births) {
      var tables, jobs, i, j :| SentAgain(tables, jobs, i, j, a, sent, window, latency, births);
      AgainOnlyIfYoung(tables, jobs, i, j, a, sent, window, latency, births);
    }
  }

  // ---------- What the jobs count ----------

  // Incrementing the hits of a missing row changes nothing and is no error.
  function Bump(hits: map<nat, nat>, id: nat): (after: map<nat, nat>) {
    if id in hits then hits[id := hits[id] + 1] else hits
  }

  function Count(log: seq<Attempt>, watcher: nat): (n: nat) {
    if log == [] then 0
    else Count(log[..|log| - 1], watcher) + if log[|log| - 1].watcher == watcher then 1 else 0
  }

  lemma {:induction false} CountAppend(a: seq<Attempt>, b: seq<Attempt>, watcher: nat)
    ensures Count(a + b, watcher) == Count(a, watcher) + Count(b, watcher)
  {
    if b == [] {
      assert a + b == a;
    } else {
      var m := |b| - 1;
      CountAppend(a, b[..m], watcher);
      assert (a + b)[..|a + b| - 1] == a + b[..m];
    }
  }

  function NewKeys(before: Keys, after: Keys): (ks: set<Key>) {
    set k | k in after && !(k in before && before[k] == after[k])
  }

  // Every attempt has its own key among the given ones.
  ghost predicate Keyed(log: seq<Attempt>, ks: set<Key>) {
    && (forall i :: 0 <= i < |log| ==> KeyOf(log[i]) in ks)
    && (forall i, j :: 0 <= i < j < |log| ==> KeyOf(log[i]) != KeyOf(log[j]))
  }

  lemma KeyedOn(log: seq<Attempt>, ks: set<Key>, a: Attempt)
    requires Keyed(log, ks) && KeyOf(a) !in ks
    ensures Keyed(log, ks + {KeyOf(a)}) && Keyed(log + [a], ks + {KeyOf(a)})
  {
  }

  // A key set because it did not stand is a new one.
  lemma NewKey(keys0: Keys, keys: Keys, k: Key, now: int, window: int)
    requires !Live(keys, k, now) && window > 0
    requires forall c <- keys0 :: c in keys
    requires forall c <- NewKeys(keys0, keys) :: keys[c] == now + window && !Live(keys0, c, now)
    ensures var keys' := keys[k := now + window];
            && !Live(keys0, k, now)
            && k !in NewKeys(keys0, keys)
            && NewKeys(keys0, keys') == NewKeys(keys0, keys) + {k}
  {
  }
}
