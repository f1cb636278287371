/** The system-metrics calculator of src/lib/utils/metrics.ts: pure functions of the stored records. */
module Metrics {
  import opened Types
  import opened Counting
  import opened Config
  import opened MemoryUtils

  /** The result of `calculateMetrics` (its optional distribution fields are never set there). */
  datatype SystemMetrics = SystemMetrics(
    memoryCount: nat,
    averageEnergy: real,
    activeConnections: real,
    systemLoad: real,
    memoryTypeDistribution: Tally<MemoryType>,
    recentChanges: nat,
    timestamp: int)

  /** One record's contribution to the average: its weighted resonance and energy. */
  function Score(m: Memory): real
  {
    m.resonance * WEIGHT_RESONANCE + m.energy * WEIGHT_ENERGY
  }

  /** The `reduce` sum of the scores. */
  function ScoreSum(ms: seq<Memory>): real
  {
    if ms == [] then 0.0 else ScoreSum(ms[..|ms| - 1]) + Score(ms[|ms| - 1])
  }

  /** `calculateAverageEnergy`: 0 for no records, otherwise the mean score. */
  function AverageEnergy(ms: seq<Memory>): real
  {
    if |ms| == 0 then 0.0 else ScoreSum(ms) / |ms| as real
  }

  /** `calculateActiveConnections`: the connection entries, halved since each link is listed on both sides. */
  function ActiveConnections(ms: seq<Memory>): real
  {
    ConnectionCount(ms) as real / 2.0
  }

  /** `calculateSystemLoad`: a weighted sum of the record and connection counts, capped at 1. */
  function SystemLoad(ms: seq<Memory>): (load: real)
    ensures load <= 1.0
    ensures load >= 0.0
  {
    var memoryFactor := |ms| as real / METRICS_BATCH_SIZE;
    var connectionFactor := ActiveConnections(ms) / (METRICS_BATCH_SIZE * 5.0);
    var raw := memoryFactor * WEIGHT_MEMORY + connectionFactor * WEIGHT_CONNECTIONS;
    if raw < 1.0 then raw else 1.0
  }

  /** `calculateTypeDistribution`: one count per memory type present, in first-seen order. */
  function TypeDistribution(ms: seq<Memory>): Tally<MemoryType>
  {
    TallyOf(TypesOf(ms))
  }

  /** Whether a record changed within the last update interval. */
  predicate IsRecent(m: Memory, now: int)
  {
    now - m.timestamp < UPDATE_INTERVAL
  }

  /** The records `calculateRecentChanges` keeps, in order. */
  function Recent(ms: seq<Memory>, now: int): (r: seq<Memory>)
    ensures |r| <= |ms|
    ensures forall m :: m in r <==> m in ms && IsRecent(m, now)
  {
    if ms == [] then []
    else
      var rest := Recent(ms[..|ms| - 1], now);
      assert ms == ms[..|ms| - 1] + [ms[|ms| - 1]];
      if IsRecent(ms[|ms| - 1], now) then rest + [ms[|ms| - 1]] else rest
  }

  /** `calculateMetrics`. */
  function CalculateMetrics(ms: seq<Memory>, now: int): SystemMetrics
  {
    SystemMetrics(|ms|, AverageEnergy(ms), ActiveConnections(ms), SystemLoad(ms),
                  TypeDistribution(ms), |Recent(ms, now)|, now)
  }

  datatype LoadLevel = Low | Medium | High

  /** `getLoadThreshold`. */
  function LoadThreshold(load: real): (level: LoadLevel)
    ensures level == High <==> load >= HIGH_LOAD
    ensures level == Medium <==> MEDIUM_LOAD <= load < HIGH_LOAD
    ensures level == Low <==> load < MEDIUM_LOAD
  {
    if load >= HIGH_LOAD then High
    else if load >= MEDIUM_LOAD then Medium
    else Low
  }

  function Rank(level: LoadLevel): nat
  {
    match level
    case Low => 0
    case Medium => 1
    case High => 2
  }

  // ---------------------------------------------------------------------------------------
  // Properties

  lemma {:induction false} ScoreSumBound(ms: seq<Memory>)
    requires forall i :: 0 <= i < |ms| ==> 0.0 <= ms[i].energy <= 1.0 && 0.0 <= ms[i].resonance <= 1.0
    ensures 0.0 <= ScoreSum(ms) <= |ms| as real
  {
    if ms != [] {
      ScoreSumBound(ms[..|ms| - 1]);
    }
  }

  /** With energy and resonance in [0, 1] the weights sum to 1, so the average lies in [0, 1]; no records give 0. */
  lemma AverageEnergyInUnit(ms: seq<Memory>)
    requires forall i :: 0 <= i < |ms| ==> 0.0 <= ms[i].energy <= 1.0 && 0.0 <= ms[i].resonance <= 1.0
    ensures 0.0 <= AverageEnergy(ms) <= 1.0
    ensures ms == [] ==> AverageEnergy(ms) == 0.0
  {
    if ms != [] {
      ScoreSumBound(ms);
      var n := |ms| as real;
      assert AverageEnergy(ms) * n == ScoreSum(ms);
    }
  }

  /** All records alike: the average is that record's own score. */
  lemma {:induction false} AverageOfUniform(ms: seq<Memory>, m: Memory)
    requires ms != [] && forall i :: 0 <= i < |ms| ==> ms[i] == m
    ensures AverageEnergy(ms) == Score(m)
  {
    ScoreSumUniform(ms, m);
  }

  lemma {:induction false} ScoreSumUniform(ms: seq<Memory>, m: Memory)
    requires forall i :: 0 <= i < |ms| ==> ms[i] == m
    ensures ScoreSum(ms) == |ms| as real * Score(m)
  {
    if ms != [] {
      ScoreSumUniform(ms[..|ms| - 1], m);
    }
  }

  lemma {:induction false} ConnectionCountSnoc(ms: seq<Memory>, m: Memory)
    ensures ConnectionCount(ms + [m]) == ConnectionCount(ms) + |m.connections|
  {
    if ms == [] {
      assert [] + [m] == [m];
    } else {
      assert (ms + [m])[1..] == ms[1..] + [m];
      ConnectionCountSnoc(ms[1..], m);
    }
  }

  /** One more record never lowers the system load. */
  lemma SystemLoadMonotone(ms: seq<Memory>, m: Memory)
    ensures SystemLoad(ms) <= SystemLoad(ms + [m])
  {
    ConnectionCountSnoc(ms, m);
  }

  /** The type counts sum to the number of records, and a type is a key exactly when some record has it. */
  lemma TypeDistributionSpec(ms: seq<Memory>)
    ensures Total(TypeDistribution(ms)) == |ms|
    ensures forall t :: t in TypeDistribution(ms).counts <==> exists i :: 0 <= i < |ms| && ms[i].mtype == t
    ensures forall t :: Count(TypeDistribution(ms), t) == |FilterByType(ms, t)|
    ensures TypeDistribution(ms) == GetMemoryStats(ms).typeCount
  {
    MemoryStatsSpec(ms);
  }

  /** Every record counts as recent exactly when all of them changed within the interval. */
  lemma {:induction false} RecentAll(ms: seq<Memory>, now: int)
    ensures |Recent(ms, now)| == |ms| <==> forall i :: 0 <= i < |ms| ==> IsRecent(ms[i], now)
  {
    if ms != [] {
      var init := ms[..|ms| - 1];
      var last := ms[|ms| - 1];
      RecentAll(init, now);
      assert forall i :: 0 <= i < |init| ==> init[i] == ms[i];
      if IsRecent(last, now) {
        assert Recent(ms, now) == Recent(init, now) + [last];
      } else {
        assert Recent(ms, now) == Recent(init, now);
        assert |Recent(init, now)| <= |init| < |ms|;
        assert !IsRecent(ms[|ms| - 1], now);
      }
    }
  }

  /** The load level never falls as the load rises. */
  lemma LoadThresholdMonotone(a: real, b: real)
    requires a <= b
    ensures Rank(LoadThreshold(a)) <= Rank(LoadThreshold(b))
  {
  }

  /** The metrics record counts every record, and its parts keep their bounds. */
  lemma CalculateMetricsSpec(ms: seq<Memory>, now: int)
    ensures var s := CalculateMetrics(ms, now);
      && s.memoryCount == |ms| == Total(s.memoryTypeDistribution)
      && s.recentChanges <= s.memoryCount
      && 0.0 <= s.systemLoad <= 1.0
      && s.activeConnections >= 0.0
      && s.timestamp == now
  {
    TypeDistributionSpec(ms);
  }
}
