/**
  The `Metric` flag enumeration of vsbenchmark/utils.py.

  A Python `Flag` value is a combination of single flags; here it is the set
  of its tags. `auto()` numbers the declared flags 1, 2, 4, 8, 16, and a
  combination's `.value` is the sum of the bits of its members; `ValueOf` and
  `FromValue` are that encoding and its inverse.
 */
module Metrics {

  /** The five single flags, in declaration order. */
  datatype Flag = Time | Fps | Efficiency | CpuUsage | MemoryUsage

  /** Any combination of flags; the empty set is `Metric(0)`. */
  type Metric = set<Flag>

  const TIME: Metric := {Time}
  const FPS: Metric := {Fps}
  const EFFICIENCY: Metric := {Efficiency}
  const CPU_USAGE: Metric := {CpuUsage}
  const MEMORY_USAGE: Metric := {MemoryUsage}

  /** Every declared flag at once. */
  const ALL: Metric := TIME + FPS + EFFICIENCY + CPU_USAGE + MEMORY_USAGE

  /** The single flags in declaration order. */
  const Singles: seq<Metric> := [TIME, FPS, EFFICIENCY, CPU_USAGE, MEMORY_USAGE]

  /** The bit `auto()` assigns to a flag: 2 to the power of its declaration index. */
  function Bit(f: Flag): nat
  {
    match f
    case Time => 1
    case Fps => 2
    case Efficiency => 4
    case CpuUsage => 8
    case MemoryUsage => 16
  }

  /** The integer `.value` of a flag combination. */
  function ValueOf(m: Metric): (v: nat)
    ensures v < 32
    ensures forall f :: f in m ==> Bit(f) <= v
  {
    (if Time in m then 1 else 0)
    + (if Fps in m then 2 else 0)
    + (if Efficiency in m then 4 else 0)
    + (if CpuUsage in m then 8 else 0)
    + (if MemoryUsage in m then 16 else 0)
  }

  /** `Metric(v)`: the combination whose value is `v`. */
  function FromValue(v: nat): Metric
    requires v < 32
  {
    (if v % 2 == 1 then {Time} else {})
    + (if (v / 2) % 2 == 1 then {Fps} else {})
    + (if (v / 4) % 2 == 1 then {Efficiency} else {})
    + (if (v / 8) % 2 == 1 then {CpuUsage} else {})
    + (if (v / 16) % 2 == 1 then {MemoryUsage} else {})
  }

  /** Decoding the value of a combination gives the combination back. */
  lemma ValueRoundTrip(m: Metric)
    ensures FromValue(ValueOf(m)) == m
  {
  }

  /** Every value below 32 is the value of exactly the combination it decodes to. */
  lemma FromValueRoundTrip(v: nat)
    requires v < 32
    ensures ValueOf(FromValue(v)) == v
  {
    BitsSum(v);
  }

  /** The binary digits of a number below 32 add back up to it. */
  lemma BitsSum(v: nat)
    requires v < 32
    ensures v % 2 + 2 * ((v / 2) % 2) + 4 * ((v / 4) % 2) + 8 * ((v / 8) % 2) + 16 * ((v / 16) % 2) == v
  {
    var q1 := v / 2;
    var q2 := q1 / 2;
    var q3 := q2 / 2;
    assert v / 4 == q2 && v / 8 == q3 && v / 16 == q3 / 2;
  }

  /** Every flag is in `ALL`. */
  lemma InAll(f: Flag)
    ensures f in ALL
  {
    match f
    case Time =>
    case Fps =>
    case Efficiency =>
    case CpuUsage =>
    case MemoryUsage =>
  }

  /** Only the empty combination has value 0. */
  lemma ValueZeroIffEmpty(m: Metric)
    ensures ValueOf(m) == 0 <==> m == {}
  {
    if m != {} {
      var f :| f in m;
      assert Bit(f) >= 1;
    }
  }

  /** Two combinations are equal exactly when their values are. */
  lemma ValueOfInjective(a: Metric, b: Metric)
    ensures ValueOf(a) == ValueOf(b) <==> a == b
  {
    if ValueOf(a) == ValueOf(b) {
      ValueRoundTrip(a);
      ValueRoundTrip(b);
    }
  }

  /** The five single flags are distinct, pairwise disjoint, and each holds one bit. */
  lemma SinglesDisjoint()
    ensures |Singles| == 5
    ensures forall i, j :: 0 <= i < j < 5 ==> Singles[i] !! Singles[j] && Singles[i] != Singles[j]
    ensures forall i :: 0 <= i < 5 ==> |Singles[i]| == 1 && ValueOf(Singles[i]) == Pow2(i)
  {
    assert Pow2(0) == 1 && Pow2(1) == 2 && Pow2(2) == 4 && Pow2(3) == 8 && Pow2(4) == 16;
  }

  /** 2 to the power `n`. */
  function Pow2(n: nat): nat
  {
    if n == 0 then 1 else 2 * Pow2(n - 1)
  }

  /** `ALL` is exactly the union of the single flags: it holds every flag and has value 31. */
  lemma AllIsUnionOfSingles()
    ensures forall f: Flag :: f in ALL
    ensures ALL == Singles[0] + Singles[1] + Singles[2] + Singles[3] + Singles[4]
    ensures ValueOf(ALL) == 31
  {
    forall f: Flag ensures f in ALL {
      InAll(f);
    }
  }

  /** Every single flag, and every combination of flags, lies within `ALL`. */
  lemma EveryMetricWithinAll(m: Metric)
    ensures m <= ALL
    ensures forall i :: 0 <= i < |Singles| ==> Singles[i] <= ALL
  {
    forall f | f in m ensures f in ALL {
      InAll(f);
    }
  }

  /** `ALL` is not a single concrete metric. */
  lemma AllIsNotSingle()
    ensures |ALL| == 5
    ensures forall f: Flag :: ALL != {f}
    ensures forall i :: 0 <= i < |Singles| ==> ALL != Singles[i]
  {
    AllIsUnionOfSingles();
    var s: set<Flag> := {Time, Fps, Efficiency, CpuUsage, MemoryUsage};
    assert ALL == s;
  }

  /** The metrics `compare_functions` accepts: `metric in [Metric.TIME, Metric.FPS]`. */
  predicate IsComparable(m: Metric)
  {
    m == TIME || m == FPS
  }

  /** A metric is comparable exactly when it is the single flag TIME or the single flag FPS;
      `ALL`, the empty combination and every multi-flag combination are refused. */
  lemma ComparableIffTimeOrFps(m: Metric)
    ensures IsComparable(m) <==> |m| == 1 && (Time in m || Fps in m)
    ensures |m| != 1 ==> !IsComparable(m)
    ensures !IsComparable(ALL)
  {
    if |m| == 1 {
      var f :| f in m;
      assert |m - {f}| == 0;
      assert m == {f} by {
        assert m - {f} == {};
      }
    }
    AllIsNotSingle();
  }
}
