/**
 * The bounded experience buffer of src/swarm/learning/ExperienceReplay.ts. Experiences are
 * opaque values; the random draw of `sampleBatch` is a free choice among unused indices.
 */
module Replay {
  import opened Counting

  /** `addExperience` on a value: a full buffer first drops its oldest entry (`shift`), then the new one is appended. */
  function Added<E>(buffer: seq<E>, maxSize: int, e: E): seq<E>
  {
    (if |buffer| >= maxSize && buffer != [] then buffer[1..] else buffer) + [e]
  }

  /**
   * With room to spare nothing is dropped; otherwise exactly the oldest is. The newest
   * experience is always last, and the buffer is always a suffix of everything added.
   */
  lemma AddedSpec<E>(buffer: seq<E>, maxSize: int, e: E)
    ensures |Added(buffer, maxSize, e)| > 0 && Added(buffer, maxSize, e)[|Added(buffer, maxSize, e)| - 1] == e
    ensures |buffer| < maxSize ==> Added(buffer, maxSize, e) == buffer + [e]
    ensures |buffer| >= maxSize && buffer != [] ==> Added(buffer, maxSize, e) == buffer[1..] + [e]
    ensures Added(buffer, maxSize, e) == (buffer + [e])[|buffer + [e]| - |Added(buffer, maxSize, e)|..]
  {
  }

  /** For maxSize ≥ 1 a buffer within the bound stays within it. */
  lemma AddedBounded<E>(buffer: seq<E>, maxSize: int, e: E)
    requires 1 <= maxSize && |buffer| <= maxSize
    ensures |Added(buffer, maxSize, e)| <= maxSize
    ensures |buffer| == maxSize ==> |Added(buffer, maxSize, e)| == maxSize
  {
  }

  /** After n additions into an empty buffer, it holds the last min(n, maxSize) of them, in order. */
  function AddAll<E>(buffer: seq<E>, maxSize: int, es: seq<E>): seq<E>
  {
    if es == [] then buffer else Added(AddAll(buffer, maxSize, es[..|es| - 1]), maxSize, es[|es| - 1])
  }

  lemma {:induction false} AddAllKeepsNewest<E>(maxSize: int, es: seq<E>)
    requires maxSize >= 1
    ensures var n := if |es| < maxSize then |es| else maxSize;
      AddAll([], maxSize, es) == es[|es| - n..]
  {
    if es != [] {
      var init := es[..|es| - 1];
      AddAllKeepsNewest(maxSize, init);
      var n := if |init| < maxSize then |init| else maxSize;
      assert es[|es| - 1..] == [es[|es| - 1]];
      if |init| < maxSize {
        assert init[|init| - n..] + [es[|es| - 1]] == es[|es| - (n + 1)..];
      } else {
        assert init[|init| - n..][1..] + [es[|es| - 1]] == es[|es| - maxSize..];
      }
    }
  }

  /** The number of entries `sampleBatch` returns: min(batchSize, size), and none for a non-positive batch. */
  function SampleCount(batchSize: int, size: nat): nat
  {
    if batchSize <= 0 then 0 else if batchSize < size then batchSize else size
  }

  /** Entry k of the sample is the buffer entry at index k of the chosen indices. */
  ghost predicate SampledFrom<E>(r: seq<E>, indices: seq<nat>, buffer: seq<E>)
  {
    && |r| == |indices|
    && Distinct(indices)
    && (forall k :: 0 <= k < |indices| ==> indices[k] < |buffer|)
    && (forall k :: 0 <= k < |indices| ==> r[k] == buffer[indices[k]])
  }

  /** The indices below n. */
  function Below(n: nat): (r: set<nat>)
    ensures |r| == n
    ensures forall i: nat :: i in r <==> i < n
  {
    if n == 0 then {} else Below(n - 1) + {n - 1}
  }

  /** The elements of a list, which are no more than its length. */
  function Elems(xs: seq<nat>): (r: set<nat>)
    ensures |r| <= |xs|
    ensures forall x :: x in r <==> x in xs
  {
    if xs == [] then {}
    else
      var init := xs[..|xs| - 1];
      assert xs == init + [xs[|xs| - 1]];
      Elems(init) + {xs[|xs| - 1]}
  }

  /** Fewer indices than n leave some index below n unused. */
  lemma FreshIndex(indices: seq<nat>, n: nat)
    requires |indices| < n
    ensures exists i: nat :: i < n && i !in indices
  {
    if forall i: nat :: i < n ==> i in indices {
      assert Below(n) <= Elems(indices);
      SubsetCard(Below(n), Elems(indices));
    }
  }

  lemma SubsetCard(a: set<nat>, b: set<nat>)
    requires a <= b
    ensures |a| <= |b|
  {
    assert b == a + (b - a);
  }

  class ExperienceReplay<E> {
    var buffer: seq<E>
    const maxSize: int

    constructor (maxSize: int)
      ensures buffer == [] && this.maxSize == maxSize
    {
      buffer := [];
      this.maxSize := maxSize;
    }

    /** `addExperience`. */
    method AddExperience(e: E)
      modifies this
      ensures buffer == Added(old(buffer), maxSize, e)
    {
      if |buffer| >= maxSize && buffer != [] {
        buffer := buffer[1..];
      }
      buffer := buffer + [e];
    }

    /**
     * `sampleBatch`: draws indices until min(batchSize, size) distinct ones are held, then
     * returns their entries in draw order. Each draw here is one unused index.
     */
    method SampleBatch(batchSize: int) returns (r: seq<E>, indices: seq<nat>)
      ensures buffer == [] ==> r == []
      ensures |r| == SampleCount(batchSize, |buffer|)
      ensures SampledFrom(r, indices, buffer)
    {
      if |buffer| == 0 {
        return [], [];
      }
      var target := SampleCount(batchSize, |buffer|);
      indices := [];
      while |indices| < target
        invariant |indices| <= target
        invariant Distinct(indices)
        invariant forall k :: 0 <= k < |indices| ==> indices[k] < |buffer|
        decreases target - |indices|
      {
        FreshIndex(indices, |buffer|);
        var i: nat :| i < |buffer| && i !in indices;
        DistinctSnoc(indices, i);
        indices := indices + [i];
      }
      var b := buffer;
      r := seq(|indices|, k requires 0 <= k < |indices| => b[indices[k]]);
    }

    /** `getSize`. */
    function GetSize(): (n: nat)
      reads this
      ensures n == |buffer|
    {
      |buffer|
    }

    /** `clear`. */
    method Clear()
      modifies this
      ensures buffer == [] && GetSize() == 0
    {
      buffer := [];
    }
  }
}
