/**
 * A JavaScript Map (or plain object) used as a counter: `m.set(k, (m.get(k) || 0) + 1)`.
 * Keys remember their first-insertion order, as a JavaScript Map does.
 */
module Counting {

  datatype Tally<K> = Tally(keys: seq<K>, counts: map<K, nat>)

  predicate Distinct<K(==)>(s: seq<K>)
  {
    forall i, j :: 0 <= i < j < |s| ==> s[i] != s[j]
  }

  /** Appending a new element keeps a list free of repeats. */
  lemma DistinctSnoc<K>(xs: seq<K>, x: K)
    requires Distinct(xs) && x !in xs
    ensures Distinct(xs + [x])
  {
    forall i, j | 0 <= i < j < |xs + [x]| ensures (xs + [x])[i] != (xs + [x])[j] {
      if j == |xs| {
        assert (xs + [x])[i] == xs[i];
      }
    }
  }

  /** The order list names each counted key exactly once. */
  ghost predicate WellFormed<K(!new)>(t: Tally<K>)
  {
    Distinct(t.keys) && forall k :: k in t.counts <==> k in t.keys
  }

  function Empty<K>(): Tally<K>
  {
    Tally([], map[])
  }

  /** `m.get(k) || 0`. */
  function Count<K>(t: Tally<K>, k: K): nat
  {
    if k in t.counts then t.counts[k] else 0
  }

  /** One `m.set(k, (m.get(k) || 0) + 1)`. */
  function Bump<K>(t: Tally<K>, k: K): Tally<K>
  {
    if k in t.counts then Tally(t.keys, t.counts[k := t.counts[k] + 1])
    else Tally(t.keys + [k], t.counts[k := 1])
  }

  function SumOver<K>(keys: seq<K>, counts: map<K, nat>): nat
  {
    if keys == [] then 0
    else (if keys[0] in counts then counts[keys[0]] else 0) + SumOver(keys[1..], counts)
  }

  /** The sum of all counts. */
  function Total<K>(t: Tally<K>): nat
  {
    SumOver(t.keys, t.counts)
  }

  /** How often k occurs in s. */
  function Occurrences<K(==)>(s: seq<K>, k: K): nat
  {
    if s == [] then 0 else Occurrences(s[..|s| - 1], k) + (if s[|s| - 1] == k then 1 else 0)
  }

  lemma OccurrencesSnoc<K>(s: seq<K>, x: K, k: K)
    ensures Occurrences(s + [x], k) == Occurrences(s, k) + (if x == k then 1 else 0)
  {
    assert (s + [x])[..|s|] == s;
  }

  /** The counter a forEach loop builds from the keys it visits, in order. */
  function TallyOf<K>(ks: seq<K>): Tally<K>
  {
    if ks == [] then Empty() else Bump(TallyOf(ks[..|ks| - 1]), ks[|ks| - 1])
  }

  lemma {:induction false} SumOverOutside<K>(keys: seq<K>, counts: map<K, nat>, k: K, v: nat)
    requires k !in keys
    ensures SumOver(keys, counts[k := v]) == SumOver(keys, counts)
  {
    if keys != [] {
      SumOverOutside(keys[1..], counts, k, v);
    }
  }

  lemma {:induction false} SumOverBump<K>(keys: seq<K>, counts: map<K, nat>, k: K)
    requires Distinct(keys) && k in keys && k in counts
    ensures SumOver(keys, counts[k := counts[k] + 1]) == SumOver(keys, counts) + 1
  {
    if keys[0] == k {
      assert k !in keys[1..] by {
        forall i | 0 <= i < |keys[1..]| ensures keys[1..][i] != k {
          assert keys[1..][i] == keys[i + 1];
        }
      }
      SumOverOutside(keys[1..], counts, k, counts[k] + 1);
    } else {
      assert Distinct(keys[1..]) by {
        forall i, j | 0 <= i < j < |keys[1..]| ensures keys[1..][i] != keys[1..][j] {
          assert keys[1..][i] == keys[i + 1] && keys[1..][j] == keys[j + 1];
        }
      }
      SumOverBump(keys[1..], counts, k);
    }
  }

  lemma {:induction false} SumOverAppend<K>(keys: seq<K>, k: K, counts: map<K, nat>)
    ensures SumOver(keys + [k], counts) == SumOver(keys, counts) + (if k in counts then counts[k] else 0)
  {
    if keys != [] {
      assert (keys + [k])[1..] == keys[1..] + [k];
      SumOverAppend(keys[1..], k, counts);
    }
  }

  /** One bump keeps the counter well formed, adds one to the total and one to the key's count. */
  lemma BumpSpec<K(!new)>(t: Tally<K>, k: K)
    requires WellFormed(t)
    ensures WellFormed(Bump(t, k))
    ensures Total(Bump(t, k)) == Total(t) + 1
    ensures Count(Bump(t, k), k) == Count(t, k) + 1
    ensures forall j :: j != k ==> Count(Bump(t, k), j) == Count(t, j)
    ensures k in Bump(t, k).counts
  {
    if k in t.counts {
      SumOverBump(t.keys, t.counts, k);
    } else {
      SumOverAppend(t.keys, k, t.counts[k := 1]);
      SumOverOutside(t.keys, t.counts, k, 1);
      var r := Bump(t, k);
      forall i, j | 0 <= i < j < |r.keys| ensures r.keys[i] != r.keys[j] {
        if j == |t.keys| {
          assert r.keys[i] == t.keys[i];
        }
      }
    }
  }

  /**
   * A counter built by visiting ks holds exactly the keys of ks, counts each key's
   * occurrences, and its counts sum to |ks|.
   */
  lemma {:induction false} TallyOfSpec<K(!new)>(ks: seq<K>)
    ensures WellFormed(TallyOf(ks))
    ensures Total(TallyOf(ks)) == |ks|
    ensures forall k :: Count(TallyOf(ks), k) == Occurrences(ks, k)
    ensures forall k :: k in TallyOf(ks).counts <==> k in ks
  {
    if ks != [] {
      var init := ks[..|ks| - 1];
      var last := ks[|ks| - 1];
      var prev := TallyOf(init);
      TallyOfSpec(init);
      BumpSpec(prev, last);
      assert ks == init + [last];
      assert TallyOf(ks) == Bump(prev, last);
      forall k ensures Count(TallyOf(ks), k) == Occurrences(ks, k) {
        OccurrencesSnoc(init, last, k);
      }
      forall k ensures k in TallyOf(ks).counts <==> k in ks {
        assert k in ks <==> k in init || k == last;
      }
    }
  }
}
