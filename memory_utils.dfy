/** The pure helpers of src/lib/utils/memory.ts. */
module MemoryUtils {
  import opened Wrappers
  import opened Types
  import opened Counting

  /** `tags.filter(tag => contextTags.has(tag)).length`; repeated tags count each time. */
  function Overlap(tags: seq<string>, contextTags: set<string>): nat
  {
    if tags == [] then 0 else (if tags[0] in contextTags then 1 else 0) + Overlap(tags[1..], contextTags)
  }

  lemma {:induction false} OverlapBound(tags: seq<string>, contextTags: set<string>)
    ensures Overlap(tags, contextTags) <= |tags|
  {
    if tags != [] {
      OverlapBound(tags[1..], contextTags);
    }
  }

  /** `calculateMemoryResonance`: 0.6 energy plus 0.4 times the share of tags in context (0 for no tags). */
  function Resonance(m: Memory, contextTags: set<string>): real
  {
    var tagFactor := if |m.tags| > 0 then Overlap(m.tags, contextTags) as real / |m.tags| as real else 0.0;
    m.energy * 0.6 + tagFactor * 0.4
  }

  lemma ShareInUnit(a: nat, b: nat)
    requires 0 < b && a <= b
    ensures 0.0 <= a as real / b as real <= 1.0
  {
    var x := a as real / b as real;
    assert x * b as real == a as real;
  }

  /** For energy in [0, 1] the resonance lies in [0, 1]. */
  lemma ResonanceInUnit(m: Memory, contextTags: set<string>)
    requires 0.0 <= m.energy <= 1.0
    ensures 0.0 <= Resonance(m, contextTags) <= 1.0
  {
    if |m.tags| > 0 {
      OverlapBound(m.tags, contextTags);
      ShareInUnit(Overlap(m.tags, contextTags), |m.tags|);
    }
  }

  /** With all tags in context the resonance is 0.6 energy + 0.4; with none it is 0.6 energy. */
  lemma ResonanceExtremes(m: Memory, contextTags: set<string>)
    ensures (forall i :: 0 <= i < |m.tags| ==> m.tags[i] !in contextTags) ==>
      Resonance(m, contextTags) == m.energy * 0.6
    ensures |m.tags| > 0 && (forall i :: 0 <= i < |m.tags| ==> m.tags[i] in contextTags) ==>
      Resonance(m, contextTags) == m.energy * 0.6 + 0.4
  {
    OverlapAll(m.tags, contextTags);
    if |m.tags| > 0 {
      ShareOfAll(|m.tags|);
    }
  }

  lemma ShareOfAll(n: nat)
    requires n > 0
    ensures n as real / n as real == 1.0 && 0 as real / n as real == 0.0
  {
    var q := n as real / n as real;
    assert q * n as real == n as real;
  }

  lemma {:induction false} OverlapAll(tags: seq<string>, contextTags: set<string>)
    ensures (forall i :: 0 <= i < |tags| ==> tags[i] !in contextTags) ==> Overlap(tags, contextTags) == 0
    ensures (forall i :: 0 <= i < |tags| ==> tags[i] in contextTags) ==> Overlap(tags, contextTags) == |tags|
  {
    if tags != [] {
      OverlapAll(tags[1..], contextTags);
      assert forall i :: 0 <= i < |tags[1..]| ==> tags[1..][i] == tags[i + 1];
    }
  }

  /** Non-increasing keys from left to right. */
  ghost predicate SortedBy(ms: seq<Memory>, key: Memory -> real)
  {
    forall i, j :: 0 <= i < j < |ms| ==> key(ms[i]) >= key(ms[j])
  }

  /** Inserts x in front of the first element whose key it is not above. */
  function Insert(x: Memory, ms: seq<Memory>, key: Memory -> real): (r: seq<Memory>)
    requires SortedBy(ms, key)
    ensures multiset(r) == multiset(ms) + multiset{x}
    ensures |r| == |ms| + 1
    ensures r[0] == x || (ms != [] && r[0] == ms[0])
    ensures SortedBy(r, key)
  {
    if ms == [] || key(x) >= key(ms[0]) then [x] + ms
    else
      var rest := Insert(x, ms[1..], key);
      assert multiset(ms) == multiset{ms[0]} + multiset(ms[1..]) by { assert ms == [ms[0]] + ms[1..]; }
      assert key(ms[0]) >= key(rest[0]);
      var r := [ms[0]] + rest;
      assert SortedBy(r, key) by {
        forall i, j | 0 <= i < j < |r| ensures key(r[i]) >= key(r[j]) {
          if i == 0 && j > 1 {
            assert key(rest[0]) >= key(rest[j - 1]);
          }
        }
      }
      r
  }

  function SortBy(ms: seq<Memory>, key: Memory -> real): (r: seq<Memory>)
    ensures multiset(r) == multiset(ms)
    ensures SortedBy(r, key)
  {
    if ms == [] then []
    else
      assert ms == [ms[0]] + ms[1..];
      Insert(ms[0], SortBy(ms[1..], key), key)
  }

  /** The memories whose key is k, in their order. */
  function Ties(ms: seq<Memory>, key: Memory -> real, k: real): seq<Memory>
  {
    if ms == [] then [] else (if key(ms[0]) == k then [ms[0]] else []) + Ties(ms[1..], key, k)
  }

  /** Ties of a sequence with x in front. */
  lemma TiesCons(x: Memory, ms: seq<Memory>, key: Memory -> real, k: real)
    ensures Ties([x] + ms, key, k) == (if key(x) == k then [x] else []) + Ties(ms, key, k)
  {
    assert ([x] + ms)[0] == x && ([x] + ms)[1..] == ms;
  }

  /** Inserting x puts it in front of every element with the same key. */
  lemma {:induction false} InsertTies(x: Memory, ms: seq<Memory>, key: Memory -> real, k: real)
    requires SortedBy(ms, key)
    ensures Ties(Insert(x, ms, key), key, k) == (if key(x) == k then [x] else []) + Ties(ms, key, k)
  {
    if ms == [] || key(x) >= key(ms[0]) {
      assert Insert(x, ms, key) == [x] + ms;
      TiesCons(x, ms, key, k);
    } else {
      var head, tail := ms[0], ms[1..];
      var rest := Insert(x, tail, key);
      assert Insert(x, ms, key) == [head] + rest;
      assert ms == [head] + tail;
      InsertTies(x, tail, key, k);
      TiesCons(head, rest, key, k);
      TiesCons(head, tail, key, k);
      if key(x) == k {
        assert key(head) != k;
      } else if key(head) == k {
        assert Ties(ms, key, k) == [head] + Ties(tail, key, k);
      }
    }
  }

  /** The sort is stable: the memories of each key keep their input order. */
  lemma {:induction false} SortByStable(ms: seq<Memory>, key: Memory -> real, k: real)
    ensures Ties(SortBy(ms, key), key, k) == Ties(ms, key, k)
  {
    if ms != [] {
      SortByStable(ms[1..], key, k);
      InsertTies(ms[0], SortBy(ms[1..], key), key, k);
    }
  }

  /** The sort key of `sortMemoriesByResonance`: a memory's resonance under the context tags. */
  function ResonanceKey(contextTags: set<string>): Memory -> real
  {
    m => Resonance(m, contextTags)
  }

  /**
   * `sortMemoriesByResonance`: a new sequence holding the same memories, in non-increasing
   * resonance order, with memories of equal resonance in their input order (the input is a
   * value, so it is left as it was).
   */
  function SortByResonance(ms: seq<Memory>, contextTags: set<string>): (r: seq<Memory>)
    ensures multiset(r) == multiset(ms)
    ensures forall i, j :: 0 <= i < j < |r| ==> Resonance(r[i], contextTags) >= Resonance(r[j], contextTags)
    ensures forall k :: Ties(r, ResonanceKey(contextTags), k) == Ties(ms, ResonanceKey(contextTags), k)
  {
    var key := ResonanceKey(contextTags);
    forall k ensures Ties(SortBy(ms, key), key, k) == Ties(ms, key, k) {
      SortByStable(ms, key, k);
    }
    SortBy(ms, key)
  }

  /** `filterMemoriesByType`: exactly the memories of the given type. */
  function FilterByType(ms: seq<Memory>, t: MemoryType): (r: seq<Memory>)
    ensures forall m :: m in r <==> m in ms && m.mtype == t
    ensures |r| <= |ms|
  {
    if ms == [] then []
    else (if ms[0].mtype == t then [ms[0]] else []) + FilterByType(ms[1..], t)
  }

  /** The filter keeps input order: filtering a concatenation concatenates the filtered parts. */
  lemma {:induction false} FilterByTypeConcat(a: seq<Memory>, b: seq<Memory>, t: MemoryType)
    ensures FilterByType(a + b, t) == FilterByType(a, t) + FilterByType(b, t)
  {
    if a == [] {
      assert a + b == b;
    } else {
      assert (a + b)[0] == a[0];
      assert (a + b)[1..] == a[1..] + b;
      FilterByTypeConcat(a[1..], b, t);
    }
  }

  function TypesOf(ms: seq<Memory>): (r: seq<MemoryType>)
    ensures |r| == |ms| && forall i :: 0 <= i < |ms| ==> r[i] == ms[i].mtype
  {
    if ms == [] then [] else [ms[0].mtype] + TypesOf(ms[1..])
  }

  function EnergySum(ms: seq<Memory>): real
  {
    if ms == [] then 0.0 else ms[0].energy + EnergySum(ms[1..])
  }

  function ConnectionCount(ms: seq<Memory>): nat
  {
    if ms == [] then 0 else |ms[0].connections| + ConnectionCount(ms[1..])
  }

  /** The result of `getMemoryStats`; avgEnergy is None where the source divides 0 by 0 (NaN). */
  datatype MemoryStats = MemoryStats(
    typeCount: Tally<MemoryType>,
    avgEnergy: Option<real>,
    connectionCount: nat,
    totalMemories: nat)

  function GetMemoryStats(ms: seq<Memory>): MemoryStats
  {
    MemoryStats(
      TallyOf(TypesOf(ms)),
      if |ms| == 0 then None else Some(EnergySum(ms) / |ms| as real),
      ConnectionCount(ms),
      |ms|)
  }

  lemma TypesOfSnoc(init: seq<Memory>, last: Memory)
    ensures TypesOf(init + [last]) == TypesOf(init) + [last.mtype]
  {
    assert |TypesOf(init + [last])| == |TypesOf(init) + [last.mtype]|;
  }

  lemma FilterSnocLength(init: seq<Memory>, last: Memory, t: MemoryType)
    ensures |FilterByType(init + [last], t)| == |FilterByType(init, t)| + (if last.mtype == t then 1 else 0)
  {
    FilterByTypeConcat(init, [last], t);
    assert [last][1..] == [];
  }

  lemma {:induction false} OccurrencesOfTypes(ms: seq<Memory>, t: MemoryType)
    ensures Occurrences(TypesOf(ms), t) == |FilterByType(ms, t)|
  {
    if ms != [] {
      var init := ms[..|ms| - 1];
      var last := ms[|ms| - 1];
      assert ms == init + [last];
      OccurrencesOfTypes(init, t);
      FilterSnocLength(init, last, t);
      TypesOfSnoc(init, last);
      OccurrencesSnoc(TypesOf(init), last.mtype, t);
    }
  }

  /**
   * The type counts sum to totalMemories, which is the input length; each type's count is
   * the number of memories of that type, and a type is a key exactly when some memory has
   * it; the average energy is defined exactly for non-empty input.
   */
  lemma MemoryStatsSpec(ms: seq<Memory>)
    ensures Total(GetMemoryStats(ms).typeCount) == GetMemoryStats(ms).totalMemories == |ms|
    ensures forall t :: Count(GetMemoryStats(ms).typeCount, t) == |FilterByType(ms, t)|
    ensures forall t :: t in GetMemoryStats(ms).typeCount.counts <==> exists i :: 0 <= i < |ms| && ms[i].mtype == t
    ensures GetMemoryStats(ms).avgEnergy.None? <==> ms == []
  {
    var types := TypesOf(ms);
    var tally := TallyOf(types);
    assert GetMemoryStats(ms).typeCount == tally;
    TallyOfSpec(types);
    forall t ensures Count(tally, t) == |FilterByType(ms, t)| {
      OccurrencesOfTypes(ms, t);
    }
    forall t ensures t in tally.counts <==> exists i :: 0 <= i < |ms| && ms[i].mtype == t {
      if t in types {
        var i :| 0 <= i < |types| && types[i] == t;
        assert ms[i].mtype == t;
      } else {
        assert forall i :: 0 <= i < |ms| ==> ms[i].mtype == types[i];
      }
    }
  }

  /** For energies in [0, 1] the average energy lies in [0, 1]. */
  lemma AverageEnergyInUnit(ms: seq<Memory>)
    requires ms != []
    requires forall i :: 0 <= i < |ms| ==> 0.0 <= ms[i].energy <= 1.0
    ensures 0.0 <= GetMemoryStats(ms).avgEnergy.value <= 1.0
  {
    EnergySumBound(ms);
    var n := |ms| as real;
    var avg := EnergySum(ms) / n;
    assert avg * n == EnergySum(ms);
  }

  lemma {:induction false} EnergySumBound(ms: seq<Memory>)
    requires forall i :: 0 <= i < |ms| ==> 0.0 <= ms[i].energy <= 1.0
    ensures 0.0 <= EnergySum(ms) <= |ms| as real
  {
    if ms != [] {
      assert forall i :: 0 <= i < |ms[1..]| ==> ms[1..][i] == ms[i + 1];
      EnergySumBound(ms[1..]);
    }
  }
}
