// What a job that goes through posts and watchers in order must send: the first offer for
// every key that did not stand, in the order of posts and then of watchers. Stated by
// positions, without saying how a job finds them.

module Offers {
  import opened Wrappers
  import opened NotifiedKeys

  // ---------- Offers ----------

  // The attempt that post i and watcher j would make, if the watcher wants the post.
  type Grid = seq<seq<Option<Attempt>>>

  ghost predicate Offered(offers: Grid, c: Cell) {
    c.0 < |offers| && c.1 < |offers[c.0]| && offers[c.0][c.1].Some?
  }

  function OfferAt(offers: Grid, c: Cell): (a: Attempt)
    requires Offered(offers, c)
  {
    offers[c.0][c.1].value
  }

  // The position offers the key.
  ghost predicate OffersKey(offers: Grid, c: Cell, k: Key) {
    Offered(offers, c) && KeyOf(OfferAt(offers, c)) == k
  }

  // The first offer for its key, which did not stand when the job began.
  ghost predicate Chosen(offers: Grid, keys: Keys, now: int, c: Cell) {
    && Offered(offers, c)
    && !Live(keys, KeyOf(OfferAt(offers, c)), now)
    && forall b :: Before(b, c) ==> !OffersKey(offers, b, KeyOf(OfferAt(offers, c)))
  }

  // The attempts are those of the chosen positions before `end`, each once and in order.
  ghost predicate Exactly(offers: Grid, keys: Keys, now: int, made: seq<Attempt>, at: seq<Cell>, end: Cell) {
    && |at| == |made| && Rising(at)
    && (forall k :: 0 <= k < |at| ==>
          Before(at[k], end) && Chosen(offers, keys, now, at[k]) && made[k] == OfferAt(offers, at[k]))
    && (forall c :: Before(c, end) && Chosen(offers, keys, now, c) ==> c in at)
  }

  // A job that has come to `here` has also set the key of everything offered so far.
  ghost predicate Tracks(offers: Grid, keys0: Keys, now: int, keys: Keys, made: seq<Attempt>, at: seq<Cell>,
                         here: Cell)
  {
    && Exactly(offers, keys0, now, made, at, here)
    && (forall k :: Live(keys0, k, now) ==> Live(keys, k, now))
    && (forall c :: Before(c, here) && Offered(offers, c) ==> Live(keys, KeyOf(OfferAt(offers, c)), now))
    && (forall k :: Live(keys, k, now) && !Live(keys0, k, now) ==>
          exists c :: Before(c, here) && OffersKey(offers, c, k))
  }

  lemma TracksNothing(offers: Grid, keys: Keys, now: int)
    ensures Tracks(offers, keys, now, keys, [], [], (0, 0))
  {
  }

  // Nothing is offered between two positions.
  ghost predicate Gap(offers: Grid, here: Cell, there: Cell) {
    forall c :: Offered(offers, c) ==> (Before(c, there) <==> Before(c, here))
  }

  lemma TracksGap(offers: Grid, keys0: Keys, now: int, keys: Keys, made: seq<Attempt>, at: seq<Cell>,
                  here: Cell, there: Cell)
    requires Tracks(offers, keys0, now, keys, made, at, here) && Gap(offers, here, there)
    ensures Tracks(offers, keys0, now, keys, made, at, there)
  {
  }

  // The key stands already: set by an earlier offer, or from before the job.
  lemma TracksStanding(offers: Grid, keys0: Keys, now: int, keys: Keys, made: seq<Attempt>, at: seq<Cell>, here: Cell)
    requires Tracks(offers, keys0, now, keys, made, at, here)
    requires Offered(offers, here) && Live(keys, KeyOf(OfferAt(offers, here)), now)
    ensures Tracks(offers, keys0, now, keys, made, at, (here.0, here.1 + 1))
  {
    assert forall c :: Before(c, (here.0, here.1 + 1)) ==> Before(c, here) || c == here;
  }

  lemma FirstForKey(offers: Grid, keys0: Keys, now: int, keys: Keys, made: seq<Attempt>, at: seq<Cell>, here: Cell)
    requires Tracks(offers, keys0, now, keys, made, at, here)
    requires Offered(offers, here) && !Live(keys, KeyOf(OfferAt(offers, here)), now)
    ensures Chosen(offers, keys0, now, here)
  {
    forall b | Before(b, here) ensures !OffersKey(offers, b, KeyOf(OfferAt(offers, here))) {
    }
  }

  // It does not stand: the offer is the first of its key.
  lemma TracksMade(offers: Grid, keys0: Keys, now: int, keys: Keys, made: seq<Attempt>, at: seq<Cell>, here: Cell,
                   window: int)
    requires Tracks(offers, keys0, now, keys, made, at, here) && window > 0
    requires Offered(offers, here) && !Live(keys, KeyOf(OfferAt(offers, here)), now)
    ensures var a := OfferAt(offers, here);
            Tracks(offers, keys0, now, keys[KeyOf(a) := now + window], made + [a], at + [here], (here.0, here.1 + 1))
  {
    var a, there := OfferAt(offers, here), (here.0, here.1 + 1);
    FirstForKey(offers, keys0, now, keys, made, at, here);
    assert forall c :: Before(c, there) ==> Before(c, here) || c == here;
    assert OffersKey(offers, here, KeyOf(a));
    var keys' := keys[KeyOf(a) := now + window];
    forall c | Before(c, there) && Chosen(offers, keys0, now, c) ensures c in at + [here] {
      assert Before(c, here) ==> c in at;
    }
    forall k | Live(keys', k, now) && !Live(keys0, k, now)
      ensures exists c :: Before(c, there) && OffersKey(offers, c, k)
    {
      if k != KeyOf(a) {
        var c :| Before(c, here) && OffersKey(offers, c, k);
        assert Before(c, there);
      }
    }
  }

  // Whatever is offered has a first offer for its key.
  lemma {:induction false} FirstOffer(offers: Grid, c: Cell, k: Key) returns (first: Cell)
    requires OffersKey(offers, c, k)
    ensures OffersKey(offers, first, k) && forall b :: Before(b, first) ==> !OffersKey(offers, b, k)
    decreases c.0, c.1
  {
    if b :| Before(b, c) && OffersKey(offers, b, k) {
      first := FirstOffer(offers, b, k);
    } else {
      first := c;
    }
  }

  // So every offer is made to its device, now or before.
  lemma EveryOfferMade(offers: Grid, keys: Keys, now: int, made: seq<Attempt>, at: seq<Cell>, end: Cell, c: Cell)
    requires Exactly(offers, keys, now, made, at, end) && Offered(offers, c)
    requires forall b :: Offered(offers, b) ==> Before(b, end)
    ensures Live(keys, KeyOf(OfferAt(offers, c)), now) || exists a <- made :: KeyOf(a) == KeyOf(OfferAt(offers, c))
  {
    var k := KeyOf(OfferAt(offers, c));
    if !Live(keys, k, now) {
      var first := FirstOffer(offers, c, k);
      assert Chosen(offers, keys, now, first);
      var i :| 0 <= i < |at| && at[i] == first;
      assert made[i] in made && KeyOf(made[i]) == k;
    }
  }
}
