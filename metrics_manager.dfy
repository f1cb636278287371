/**
 * The metrics bookkeeping of src/lib/core/MetricsManager.ts: a bounded cache of computed
 * metrics, a time-windowed history, and three counters rebuilt from the stored records.
 */
module MetricsManagement {
  import opened Wrappers
  import opened Types
  import opened Counting
  import opened Config
  import opened Metrics

  // ---------------------------------------------------------------------------------------
  // The cache: a JavaScript Map from time key to metrics, keys in insertion order

  datatype CacheState = CacheState(order: seq<int>, entries: map<int, SystemMetrics>)

  /** The key list names each cached key exactly once. */
  ghost predicate CacheValid(c: CacheState)
  {
    Distinct(c.order) && forall k :: k in c.entries <==> k in c.order
  }

  /**
   * `updateCache`: `set` keeps a present key's position and appends a new one; when the
   * size then exceeds CACHE_SIZE the first key is deleted.
   */
  function CacheSet(c: CacheState, key: int, metrics: SystemMetrics): CacheState
  {
    var order := if key in c.order then c.order else c.order + [key];
    var entries := c.entries[key := metrics];
    if |order| > CACHE_SIZE then CacheState(order[1..], entries - {order[0]}) else CacheState(order, entries)
  }

  /**
   * The cache stays well formed; the entry just written is present; a cache within the
   * bound stays within it; and an eviction removes exactly the earliest-inserted key.
   */
  lemma CacheSetSpec(c: CacheState, key: int, metrics: SystemMetrics)
    requires CacheValid(c) && |c.order| <= CACHE_SIZE
    ensures var r := CacheSet(c, key, metrics);
      && CacheValid(r)
      && key in r.entries && r.entries[key] == metrics
      && |r.order| <= CACHE_SIZE
      && (forall k :: k in c.entries && k != key && k in r.entries ==> r.entries[k] == c.entries[k])
      && (key in c.entries || |c.order| < CACHE_SIZE ==> r.entries.Keys == c.entries.Keys + {key})
      && (key !in c.entries && |c.order| == CACHE_SIZE ==>
            r.order == c.order[1..] + [key] && r.entries.Keys == c.entries.Keys - {c.order[0]} + {key})
  {
    var order := if key in c.order then c.order else c.order + [key];
    if key !in c.order {
      DistinctSnoc(c.order, key);
    }
    if |order| > CACHE_SIZE {
      assert order[|order| - 1] == key;
      forall k ensures k in order[1..] <==> k in order && k != order[0] {
        if k in order && k != order[0] {
          var i :| 0 <= i < |order| && order[i] == k;
          assert order[1..][i - 1] == k;
        }
      }
    }
  }

  // ---------------------------------------------------------------------------------------
  // The history

  /** The entries stamped after the cutoff, in order. */
  function After(h: seq<SystemMetrics>, cutoff: int): (r: seq<SystemMetrics>)
    ensures |r| <= |h|
    ensures forall m :: m in r <==> m in h && m.timestamp > cutoff
  {
    if h == [] then []
    else
      var rest := After(h[..|h| - 1], cutoff);
      assert h == h[..|h| - 1] + [h[|h| - 1]];
      if h[|h| - 1].timestamp > cutoff then rest + [h[|h| - 1]] else rest
  }

  /** Filtering appended entries filters the old ones and the new ones separately. */
  lemma {:induction false} AfterAppend(h: seq<SystemMetrics>, more: seq<SystemMetrics>, cutoff: int)
    ensures After(h + more, cutoff) == After(h, cutoff) + After(more, cutoff)
  {
    if more == [] {
      assert h + more == h;
    } else {
      var init := more[..|more| - 1];
      AfterAppend(h, init, cutoff);
      assert (h + more)[..|h + more| - 1] == h + init;
      assert (h + more)[|h + more| - 1] == more[|more| - 1];
    }
  }

  /** A list filtered at one cutoff and then at a later one is the list filtered at the later one. */
  lemma {:induction false} AfterAfter(h: seq<SystemMetrics>, c1: int, c2: int)
    requires c1 <= c2
    ensures After(After(h, c1), c2) == After(h, c2)
  {
    if h != [] {
      var init := h[..|h| - 1];
      AfterAfter(init, c1, c2);
      var last := h[|h| - 1];
      if last.timestamp > c1 {
        AfterAppend(After(init, c1), [last], c2);
      }
    }
  }

  /** `getHistory(duration)` expressed on After: now − timestamp ≤ duration is timestamp > now − duration − 1. */
  function HistoryWithin(h: seq<SystemMetrics>, now: int, duration: int): (r: seq<SystemMetrics>)
    ensures forall m :: m in r <==> m in h && now - m.timestamp <= duration
  {
    After(h, now - duration - 1)
  }

  /** `updateHistory`: the new entry is appended, then only the last HISTORY_DURATION is kept. */
  function Recorded(h: seq<SystemMetrics>, metrics: SystemMetrics, now: int): seq<SystemMetrics>
  {
    After(h + [metrics], now - HISTORY_DURATION)
  }

  /**
   * After an update the history holds exactly the old entries still within the window,
   * followed by the new one when it is within the window itself.
   */
  lemma RecordedSpec(h: seq<SystemMetrics>, metrics: SystemMetrics, now: int)
    ensures Recorded(h, metrics, now) ==
      After(h, now - HISTORY_DURATION) + (if metrics.timestamp > now - HISTORY_DURATION then [metrics] else [])
    ensures metrics.timestamp == now ==> Recorded(h, metrics, now)[|Recorded(h, metrics, now)| - 1] == metrics
  {
    AfterAppend(h, [metrics], now - HISTORY_DURATION);
    assert [metrics][..0] == [];
  }

  // ---------------------------------------------------------------------------------------
  // The counters

  /** `Math.floor(x * 10) / 10`, kept as the tenths count before formatting. */
  function Bin(x: real): int
  {
    (x * 10.0).Floor
  }

  function EnergyBins(ms: seq<Memory>): (r: seq<int>)
    ensures |r| == |ms| && forall i :: 0 <= i < |ms| ==> r[i] == Bin(ms[i].energy)
  {
    seq(|ms|, i requires 0 <= i < |ms| => Bin(ms[i].energy))
  }

  function ResonanceBins(ms: seq<Memory>): (r: seq<int>)
    ensures |r| == |ms| && forall i :: 0 <= i < |ms| ==> r[i] == Bin(ms[i].resonance)
  {
    seq(|ms|, i requires 0 <= i < |ms| => Bin(ms[i].resonance))
  }

  /** `if (memory.lastAccessed)`: present and not 0. */
  predicate WasAccessed(m: Memory)
  {
    m.lastAccessed.Some? && m.lastAccessed.value != 0
  }

  /** `Math.floor((now - lastAccessed) / (1000 * 60 * 60))`; Dafny's division by a positive divisor floors. */
  function HoursSince(m: Memory, now: int): int
    requires WasAccessed(m)
  {
    (now - m.lastAccessed.value) / HOUR_MS
  }

  /** The hour bins `updateAccessPatterns` counts, one per accessed record, in order. */
  function AccessHours(ms: seq<Memory>, now: int): seq<int>
  {
    if ms == [] then []
    else
      var rest := AccessHours(ms[..|ms| - 1], now);
      if WasAccessed(ms[|ms| - 1]) then rest + [HoursSince(ms[|ms| - 1], now)] else rest
  }

  /** The records that have been accessed. */
  function Accessed(ms: seq<Memory>): (r: seq<Memory>)
    ensures forall m :: m in r <==> m in ms && WasAccessed(m)
  {
    if ms == [] then []
    else
      var rest := Accessed(ms[..|ms| - 1]);
      assert ms == ms[..|ms| - 1] + [ms[|ms| - 1]];
      if WasAccessed(ms[|ms| - 1]) then rest + [ms[|ms| - 1]] else rest
  }

  /** Each accessed record contributes one hour bin, its own, in order; the others none. */
  lemma {:induction false} AccessHoursSpec(ms: seq<Memory>, now: int)
    ensures var a := Accessed(ms);
      && |AccessHours(ms, now)| == |a| <= |ms|
      && forall i :: 0 <= i < |a| ==> AccessHours(ms, now)[i] == HoursSince(a[i], now)
  {
    if ms != [] {
      AccessHoursSpec(ms[..|ms| - 1], now);
    }
  }

  /**
   * Both distributions count every record once; the access patterns count exactly the
   * accessed records.
   */
  lemma DistributionTotals(ms: seq<Memory>, now: int)
    ensures WellFormed(TallyOf(EnergyBins(ms))) && Total(TallyOf(EnergyBins(ms))) == |ms|
    ensures WellFormed(TallyOf(ResonanceBins(ms))) && Total(TallyOf(ResonanceBins(ms))) == |ms|
    ensures WellFormed(TallyOf(AccessHours(ms, now))) && Total(TallyOf(AccessHours(ms, now))) == |Accessed(ms)|
    ensures (forall i :: 0 <= i < |ms| ==> !WasAccessed(ms[i])) ==> TallyOf(AccessHours(ms, now)).keys == []
  {
    TallyOfSpec(EnergyBins(ms));
    TallyOfSpec(ResonanceBins(ms));
    TallyOfSpec(AccessHours(ms, now));
    AccessHoursSpec(ms, now);
    if forall i :: 0 <= i < |ms| ==> !WasAccessed(ms[i]) {
      if Accessed(ms) != [] {
        assert Accessed(ms)[0] in ms;
      }
    }
  }

  /** For energies in [0, 1] the energy bins run from 0 to 10, one per tenth. */
  lemma BinRange(x: real)
    requires 0.0 <= x <= 1.0
    ensures 0 <= Bin(x) <= 10
    ensures Bin(x) as real <= x * 10.0 < Bin(x) as real + 1.0
  {
  }

  // ---------------------------------------------------------------------------------------
  // The manager

  class MetricsManager {
    /** The value of the `metrics` subject. */
    var current: Option<SystemMetrics>
    var history: seq<SystemMetrics>
    var cache: CacheState
    var energyDistribution: Tally<int>
    var resonanceDistribution: Tally<int>
    var accessPatterns: Tally<int>

    /** The cache is well formed and within its bound. */
    ghost predicate Valid()
      reads this
    {
      CacheValid(cache) && |cache.order| <= CACHE_SIZE
    }

    constructor ()
      ensures Valid()
      ensures current == None && history == [] && cache == CacheState([], map[])
      ensures energyDistribution == Empty() && resonanceDistribution == Empty() && accessPatterns == Empty()
    {
      current := None;
      history := [];
      cache := CacheState([], map[]);
      energyDistribution := Empty();
      resonanceDistribution := Empty();
      accessPatterns := Empty();
    }

    /** `getHistory(duration)`: the entries at most `duration` old; the history is not touched. */
    function GetHistory(now: int, duration: int): (r: seq<SystemMetrics>)
      reads this
      ensures |r| <= |history|
      ensures forall m :: m in r <==> m in history && now - m.timestamp <= duration
    {
      HistoryWithin(history, now, duration)
    }

    /** `updateCache`. */
    method UpdateCache(key: int, metrics: SystemMetrics)
      requires Valid()
      modifies this
      ensures Valid()
      ensures cache == CacheSet(old(cache), key, metrics)
      ensures key in cache.entries && cache.entries[key] == metrics
      ensures history == old(history) && current == old(current)
      ensures energyDistribution == old(energyDistribution) && resonanceDistribution == old(resonanceDistribution)
      ensures accessPatterns == old(accessPatterns)
    {
      CacheSetSpec(cache, key, metrics);
      var order := if key in cache.order then cache.order else cache.order + [key];
      var entries := cache.entries[key := metrics];
      if |order| > CACHE_SIZE {
        cache := CacheState(order[1..], entries - {order[0]});
      } else {
        cache := CacheState(order, entries);
      }
    }

    /** `updateHistory`. */
    method UpdateHistory(metrics: SystemMetrics, now: int)
      modifies this
      ensures history == Recorded(old(history), metrics, now)
      ensures cache == old(cache) && current == old(current)
      ensures energyDistribution == old(energyDistribution) && resonanceDistribution == old(resonanceDistribution)
      ensures accessPatterns == old(accessPatterns)
    {
      history := After(history + [metrics], now - HISTORY_DURATION);
    }

    /**
     * `getCurrentMetrics`: a cached entry for this time is returned as it is; otherwise the
     * metrics of the records are computed and cached. `memories` is the table's contents.
     */
    method GetCurrentMetrics(memories: seq<Memory>, now: int) returns (r: SystemMetrics)
      requires Valid()
      modifies this
      ensures Valid()
      ensures now in old(cache.entries) ==> r == old(cache.entries)[now] && cache == old(cache)
      ensures now !in old(cache.entries) ==>
        r == CalculateMetrics(memories, now) && cache == CacheSet(old(cache), now, r)
      ensures history == old(history) && current == old(current)
      ensures energyDistribution == old(energyDistribution) && resonanceDistribution == old(resonanceDistribution)
      ensures accessPatterns == old(accessPatterns)
    {
      if now in cache.entries {
        return cache.entries[now];
      }
      r := CalculateMetrics(memories, now);
      UpdateCache(now, r);
    }

    /** `updateMetrics`: publishes the current metrics and records them in the history. */
    method UpdateMetrics(memories: seq<Memory>, now: int)
      requires Valid()
      modifies this
      ensures Valid()
      ensures current.Some?
      ensures now in old(cache.entries) ==> current.value == old(cache.entries)[now]
      ensures now !in old(cache.entries) ==> current.value == CalculateMetrics(memories, now)
      ensures history == Recorded(old(history), current.value, now)
    {
      var metrics := GetCurrentMetrics(memories, now);
      current := Some(metrics);
      UpdateHistory(metrics, now);
    }

    /** `updateDistributions`: both counters cleared, then one bump per record. */
    method UpdateDistributions(memories: seq<Memory>)
      modifies this
      ensures energyDistribution == TallyOf(EnergyBins(memories))
      ensures resonanceDistribution == TallyOf(ResonanceBins(memories))
      ensures history == old(history) && cache == old(cache) && current == old(current)
      ensures accessPatterns == old(accessPatterns)
    {
      energyDistribution := Empty();
      resonanceDistribution := Empty();
      var i := 0;
      while i < |memories|
        invariant 0 <= i <= |memories|
        invariant energyDistribution == TallyOf(EnergyBins(memories[..i]))
        invariant resonanceDistribution == TallyOf(ResonanceBins(memories[..i]))
        invariant history == old(history) && cache == old(cache) && current == old(current)
        invariant accessPatterns == old(accessPatterns)
      {
        assert EnergyBins(memories[..i + 1]) == EnergyBins(memories[..i]) + [Bin(memories[i].energy)];
        assert ResonanceBins(memories[..i + 1]) == ResonanceBins(memories[..i]) + [Bin(memories[i].resonance)];
        energyDistribution := Bump(energyDistribution, Bin(memories[i].energy));
        resonanceDistribution := Bump(resonanceDistribution, Bin(memories[i].resonance));
        i := i + 1;
      }
      assert memories[..|memories|] == memories;
    }

    /** `updateAccessPatterns`: the counter cleared, then one bump per accessed record. */
    method UpdateAccessPatterns(memories: seq<Memory>, now: int)
      modifies this
      ensures accessPatterns == TallyOf(AccessHours(memories, now))
      ensures history == old(history) && cache == old(cache) && current == old(current)
      ensures energyDistribution == old(energyDistribution) && resonanceDistribution == old(resonanceDistribution)
    {
      accessPatterns := Empty();
      var i := 0;
      while i < |memories|
        invariant 0 <= i <= |memories|
        invariant accessPatterns == TallyOf(AccessHours(memories[..i], now))
        invariant history == old(history) && cache == old(cache) && current == old(current)
        invariant energyDistribution == old(energyDistribution) && resonanceDistribution == old(resonanceDistribution)
      {
        assert memories[..i + 1][..i] == memories[..i];
        if WasAccessed(memories[i]) {
          accessPatterns := Bump(accessPatterns, HoursSince(memories[i], now));
        }
        i := i + 1;
      }
      assert memories[..|memories|] == memories;
    }

    /** `getEnergyDistribution`: rebuilt from the records, then returned as a value. */
    method GetEnergyDistribution(memories: seq<Memory>) returns (r: Tally<int>)
      modifies this
      ensures r == TallyOf(EnergyBins(memories)) && Total(r) == |memories|
      ensures history == old(history) && cache == old(cache) && current == old(current)
      ensures energyDistribution == r && resonanceDistribution == TallyOf(ResonanceBins(memories))
      ensures accessPatterns == old(accessPatterns)
    {
      UpdateDistributions(memories);
      DistributionTotals(memories, 0);
      r := energyDistribution;
    }

    /** `getResonanceDistribution`. */
    method GetResonanceDistribution(memories: seq<Memory>) returns (r: Tally<int>)
      modifies this
      ensures r == TallyOf(ResonanceBins(memories)) && Total(r) == |memories|
      ensures history == old(history) && cache == old(cache) && current == old(current)
      ensures resonanceDistribution == r && energyDistribution == TallyOf(EnergyBins(memories))
      ensures accessPatterns == old(accessPatterns)
    {
      UpdateDistributions(memories);
      DistributionTotals(memories, 0);
      r := resonanceDistribution;
    }

    /** `getAccessPatterns`. */
    method GetAccessPatterns(memories: seq<Memory>, now: int) returns (r: Tally<int>)
      modifies this
      ensures r == TallyOf(AccessHours(memories, now)) && Total(r) == |Accessed(memories)|
      ensures history == old(history) && cache == old(cache) && current == old(current)
      ensures accessPatterns == r
      ensures energyDistribution == old(energyDistribution) && resonanceDistribution == old(resonanceDistribution)
    {
      UpdateAccessPatterns(memories, now);
      DistributionTotals(memories, now);
      r := accessPatterns;
    }
  }
}
