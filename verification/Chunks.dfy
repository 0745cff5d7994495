// Enqueueing accounts: the id list is cut into 60 slices, one for each second.

module Chunks {

  const SECONDS := 60

  // The ceiling of n / 60.
  function ChunkSize(n: nat): (size: nat)
    ensures size * SECONDS >= n && (size == 0 || (size - 1) * SECONDS < n)
  {
    (n + SECONDS - 1) / SECONDS
  }

  function Min(a: int, b: int): (m: int) {
    if a < b then a else b
  }

  function Concat<T>(chunks: seq<seq<T>>): (all: seq<T>) {
    if chunks == [] then [] else Concat(chunks[..|chunks| - 1]) + chunks[|chunks| - 1]
  }

  // Index i sits in slice i / size at offset i % size.
  ghost predicate Placed<T>(chunks: seq<seq<T>>, ids: seq<T>, size: nat, i: nat)
    requires size > 0 && i < |ids|
  {
    && i / size < |chunks|
    && i % size < |chunks[i / size]|
    && chunks[i / size][i % size] == ids[i]
  }

  ghost predicate AllPlaced<T>(chunks: seq<seq<T>>, ids: seq<T>, size: nat, upto: nat)
    requires upto <= |ids|
  {
    size > 0 ==> forall j :: 0 <= j < upto ==> Placed(chunks, ids, size, j)
  }

  lemma Times(a: nat, b: nat, size: nat)
    requires a <= b
    ensures a * size <= b * size
  {
  }

  lemma Distribute(i: nat, size: nat)
    ensures (i + 1) * size == i * size + size
  {
  }

  lemma Offset(i: nat, size: nat, k: nat)
    requires size > 0 && k * size <= i < k * size + size
    ensures i / size == k && i % size == i - k * size
  {
    var q := i / size;
    if q < k {
      Times(q + 1, k, size);
    } else if q > k {
      Times(k + 1, q, size);
    }
  }

  // Appending the next slice places the next indices.
  lemma PlacedNext<T>(chunks: seq<seq<T>>, ids: seq<T>, size: nat, left: nat, right: nat)
    requires left <= right <= |ids| && right <= |chunks| * size + size
    requires left == Min(|chunks| * size, |ids|)
    requires AllPlaced(chunks, ids, size, left)
    ensures AllPlaced(chunks + [ids[left..right]], ids, size, right)
  {
    forall j | 0 <= j < right && size > 0 ensures Placed(chunks + [ids[left..right]], ids, size, j) {
      if j < left {
        assert Placed(chunks, ids, size, j);
      } else {
        Offset(j, size, |chunks|);
      }
    }
  }

  // The slices concatenate back to the list, none is longer than the ceiling, and
  // every index lands where division says.
  method Split<T>(ids: seq<T>) returns (chunks: seq<seq<T>>)
    ensures |chunks| == 60
    ensures Concat(chunks) == ids
    ensures forall c <- chunks :: |c| <= ChunkSize(|ids|)
    ensures AllPlaced(chunks, ids, ChunkSize(|ids|), |ids|) && (ids != [] ==> ChunkSize(|ids|) > 0)
  {
    chunks := [];
    var size := ChunkSize(|ids|);
    var i := 0;
    ghost var done := 0;
    while i < SECONDS
      invariant 0 <= i <= SECONDS && |chunks| == i
      invariant done == Min(i * size, |ids|) && 0 <= i * size
      invariant Concat(chunks) == ids[..done]
      invariant forall c <- chunks :: |c| <= size
      invariant AllPlaced(chunks, ids, size, done)
    {
      var left := i * size;
      var right := (i + 1) * size;
      Distribute(i, size);
      if left > |ids| {
        left := |ids|;
      }
      if right > |ids| {
        right := |ids|;
      }
      PlacedNext(chunks, ids, size, left, right);
      ConcatNext(chunks, ids, left, right);
      chunks := chunks + [ids[left..right]];
      i := i + 1;
      done := right;
    }
    assert ids[..|ids|] == ids;
  }

  lemma ConcatNext<T>(chunks: seq<seq<T>>, ids: seq<T>, left: nat, right: nat)
    requires left <= right <= |ids| && Concat(chunks) == ids[..left]
    ensures Concat(chunks + [ids[left..right]]) == ids[..right]
  {
    var longer := chunks + [ids[left..right]];
    assert longer[..|chunks|] == chunks;
    assert ids[..left] + ids[left..right] == ids[..right];
  }
}
