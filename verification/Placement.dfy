/** Node placement: a fold over candidate nodes with a comparison that tolerates differences up to 1e-9.
    Floating point is modelled over the reals. */
module Placement {
  import opened Records
  import opened Strings

  const EPS := 0.000000001
  const CPU_WEIGHT := 0.35
  const MEM_WEIGHT := 0.65

  /** What one candidate brings: CPU and memory already allocated on the node plus what is requested. */
  datatype Candidate = Candidate(node: string, cpu: int, mem: int)

  // ---- scores ----

  /** resourceRatio */
  function Ratio(value: int, limit: int): (r: real)
    ensures r >= 0.0
  {
    if value <= 0 || limit <= 0 then 0.0 else value as real / limit as real
  }

  function MemRatio(c: Candidate, cls: CpuClass): real { Ratio(c.mem, cls.memoryLimit) }

  function CpuRatio(c: Candidate, cls: CpuClass): real { Ratio(c.cpu, cls.limit) }

  /** staticAllocationScore */
  function Score(c: Candidate, cls: CpuClass): real {
    CpuRatio(c, cls) * CPU_WEIGHT + MemRatio(c, cls) * MEM_WEIGHT
  }

  /** betterStaticAllocationNode */
  predicate Better(c: Candidate, best: Candidate, cls: CpuClass, preferred: string) {
    if Score(c, cls) < Score(best, cls) - EPS then true
    else if Score(c, cls) > Score(best, cls) + EPS then false
    else if MemRatio(c, cls) < MemRatio(best, cls) - EPS then true
    else if MemRatio(c, cls) > MemRatio(best, cls) + EPS then false
    else if CpuRatio(c, cls) < CpuRatio(best, cls) - EPS then true
    else if CpuRatio(c, cls) > CpuRatio(best, cls) + EPS then false
    else if c.node == preferred && best.node != preferred then true
    else if c.node != preferred && best.node == preferred then false
    else Less(c.node, best.node)
  }

  /** The order the tolerance stands in for: lexicographic on score, memory ratio, cpu ratio, preferred node, name. */
  predicate Exactly(c: Candidate, d: Candidate, cls: CpuClass, preferred: string) {
    if Score(c, cls) != Score(d, cls) then Score(c, cls) < Score(d, cls)
    else if MemRatio(c, cls) != MemRatio(d, cls) then MemRatio(c, cls) < MemRatio(d, cls)
    else if CpuRatio(c, cls) != CpuRatio(d, cls) then CpuRatio(c, cls) < CpuRatio(d, cls)
    else if (c.node == preferred) != (d.node == preferred) then c.node == preferred
    else Less(c.node, d.node)
  }

  /** Limits small enough that two different scores differ by more than the tolerance. */
  predicate Resolvable(cls: CpuClass) {
    cls.limit > 0 && cls.memoryLimit > 0 && 20 * cls.limit * cls.memoryLimit < 1_000_000_000
  }

  function Clamp(n: int): (m: int)
    ensures m >= 0
  {
    if n <= 0 then 0 else n
  }

  /** With positive limits a ratio is an integer over the limit. */
  lemma RatioIsFraction(value: int, limit: int)
    requires limit > 0
    ensures Ratio(value, limit) == Clamp(value) as real / limit as real
    ensures Ratio(value, limit) * limit as real == Clamp(value) as real
  {
    Cancel(Clamp(value) as real, limit as real);
  }

  lemma Cancel(x: real, y: real)
    requires y != 0.0
    ensures x / y * y == x
  {
  }

  /** Two ratios of one limit are equal or at least 1/limit apart. */
  lemma RatioGap(a: int, b: int, limit: int)
    requires 0 < limit < 50_000_000
    ensures Ratio(a, limit) == Ratio(b, limit) || Ratio(a, limit) < Ratio(b, limit) - EPS || Ratio(a, limit) > Ratio(b, limit) + EPS
  {
    RatioIsFraction(a, limit);
    RatioIsFraction(b, limit);
    Apart(Ratio(a, limit), Ratio(b, limit), limit, Clamp(a), Clamp(b));
  }

  /** Reals whose multiples by `k` are integers, with k below 1e9, are equal or more than 1e-9 apart. */
  lemma Apart(x: real, y: real, k: int, m: int, n: int)
    requires 0 < k < 1_000_000_000
    requires x * k as real == m as real && y * k as real == n as real
    ensures x == y || x < y - EPS || x > y + EPS
  {
    var d := x - y;
    assert d * k as real == (m - n) as real;
    if m == n {
      Zero(d, k as real);
    } else if m > n {
      Big(d, k as real);
    } else {
      assert (-d) * k as real == (n - m) as real;
      Big(-d, k as real);
    }
  }

  lemma Zero(d: real, k: real)
    requires k > 0.0 && d * k == 0.0
    ensures d == 0.0
  {
  }

  lemma Big(d: real, k: real)
    requires 0.0 < k < 1_000_000_000.0 && d * k >= 1.0
    ensures d > EPS
  {
    if d <= EPS {
      Times(d, EPS, k);
      Times(k, 1_000_000_000.0, EPS);
    }
  }

  lemma Times(a: real, b: real, k: real)
    requires a <= b && k > 0.0
    ensures a * k <= b * k
    ensures a < b ==> a * k < b * k
  {
  }

  /** 20 * C * M times a score is an integer: 7 * cpu * M + 13 * mem * C. */
  lemma ScoreIsFraction(c: Candidate, cls: CpuClass)
    requires cls.limit > 0 && cls.memoryLimit > 0
    ensures Score(c, cls) * (20 * cls.limit * cls.memoryLimit) as real
         == (7 * Clamp(c.cpu) * cls.memoryLimit + 13 * Clamp(c.mem) * cls.limit) as real
  {
    var C, M := cls.limit as real, cls.memoryLimit as real;
    var p, q := CpuRatio(c, cls), MemRatio(c, cls);
    RatioIsFraction(c.cpu, cls.limit);
    RatioIsFraction(c.mem, cls.memoryLimit);
    assert (20 * cls.limit * cls.memoryLimit) as real == 20.0 * C * M;
    calc {
      (p * CPU_WEIGHT + q * MEM_WEIGHT) * (20.0 * C * M);
      { Expand(p, q, C, M); }
      7.0 * (p * C) * M + 13.0 * (q * M) * C;
      7.0 * (Clamp(c.cpu) as real) * M + 13.0 * (Clamp(c.mem) as real) * C;
      (7 * Clamp(c.cpu) * cls.memoryLimit + 13 * Clamp(c.mem) * cls.limit) as real;
    }
  }

  lemma Expand(p: real, q: real, C: real, M: real)
    ensures (p * CPU_WEIGHT + q * MEM_WEIGHT) * (20.0 * C * M) == 7.0 * (p * C) * M + 13.0 * (q * M) * C
  {
  }

  /** Under the bound the tolerant comparison is the exact lexicographic one. */
  lemma BetterIsExact(c: Candidate, d: Candidate, cls: CpuClass, preferred: string)
    requires Resolvable(cls)
    ensures Better(c, d, cls, preferred) == Exactly(c, d, cls, preferred)
  {
    var k := 20 * cls.limit * cls.memoryLimit;
    LimitsBelow(cls);
    ScoreIsFraction(c, cls);
    ScoreIsFraction(d, cls);
    Apart(Score(c, cls), Score(d, cls), k, 7 * Clamp(c.cpu) * cls.memoryLimit + 13 * Clamp(c.mem) * cls.limit,
          7 * Clamp(d.cpu) * cls.memoryLimit + 13 * Clamp(d.mem) * cls.limit);
    RatioGap(c.mem, d.mem, cls.memoryLimit);
    RatioGap(c.cpu, d.cpu, cls.limit);
  }

  // ---- the exact order in whole numbers ----

  /** 7 parts of CPU and 13 parts of memory, each against its limit; a negative allocation weighs nothing. */
  function Weight(c: Candidate, cls: CpuClass): int {
    7 * Clamp(c.cpu) * cls.memoryLimit + 13 * Clamp(c.mem) * cls.limit
  }

  /** The lighter node wins, then the one with less memory in use, then the preferred one, then the first by name. The CPU
      ratio never decides: it is the same when weight and memory are. */
  predicate Lighter(c: Candidate, d: Candidate, cls: CpuClass, preferred: string) {
    if Weight(c, cls) != Weight(d, cls) then Weight(c, cls) < Weight(d, cls)
    else if Clamp(c.mem) != Clamp(d.mem) then Clamp(c.mem) < Clamp(d.mem)
    else if c.node == preferred && d.node != preferred then true
    else if c.node != preferred && d.node == preferred then false
    else Less(c.node, d.node)
  }

  lemma Scaled(x: real, y: real, k: int, m: int, n: int)
    requires k > 0 && x * k as real == m as real && y * k as real == n as real
    ensures x < y <==> m < n
    ensures x == y <==> m == n
  {
    if x < y {
      Times(x, y, k as real);
    } else if y < x {
      Times(y, x, k as real);
    }
  }

  lemma Factor(a: int, b: int, k: int)
    requires k > 0 && 7 * a * k == 7 * b * k
    ensures a == b
  {
    assert (a - b) * k == 0;
  }

  lemma ProductIsPositive(a: int, b: int)
    requires a > 0 && b > 0
    ensures 20 * a * b > 0
  {
    assert a * b > 0;
  }

  lemma ScoreIsWeight(c: Candidate, d: Candidate, cls: CpuClass)
    requires cls.limit > 0 && cls.memoryLimit > 0
    ensures Score(c, cls) < Score(d, cls) <==> Weight(c, cls) < Weight(d, cls)
    ensures Score(c, cls) == Score(d, cls) <==> Weight(c, cls) == Weight(d, cls)
  {
    hide Score, Clamp;
    ScoreIsFraction(c, cls);
    ScoreIsFraction(d, cls);
    ProductIsPositive(cls.limit, cls.memoryLimit);
    Scaled(Score(c, cls), Score(d, cls), 20 * cls.limit * cls.memoryLimit, Weight(c, cls), Weight(d, cls));
  }

  lemma RatioIsClamp(a: int, b: int, limit: int)
    requires limit > 0
    ensures Ratio(a, limit) < Ratio(b, limit) <==> Clamp(a) < Clamp(b)
    ensures Ratio(a, limit) == Ratio(b, limit) <==> Clamp(a) == Clamp(b)
  {
    RatioIsFraction(a, limit);
    RatioIsFraction(b, limit);
    Scaled(Ratio(a, limit), Ratio(b, limit), limit, Clamp(a), Clamp(b));
  }

  lemma EqualWeight(c: Candidate, d: Candidate, cls: CpuClass)
    requires cls.memoryLimit > 0 && Weight(c, cls) == Weight(d, cls) && Clamp(c.mem) == Clamp(d.mem)
    ensures Clamp(c.cpu) == Clamp(d.cpu)
  {
    Factor(Clamp(c.cpu), Clamp(d.cpu), cls.memoryLimit);
  }

  lemma ExactlyIsLighter(c: Candidate, d: Candidate, cls: CpuClass, preferred: string)
    requires cls.limit > 0 && cls.memoryLimit > 0
    ensures Exactly(c, d, cls, preferred) <==> Lighter(c, d, cls, preferred)
  {
    hide Score, Ratio, Weight, Clamp;
    ScoreIsWeight(c, d, cls);
    RatioIsClamp(c.mem, d.mem, cls.memoryLimit);
    RatioIsClamp(c.cpu, d.cpu, cls.limit);
    if Weight(c, cls) == Weight(d, cls) && Clamp(c.mem) == Clamp(d.mem) {
      EqualWeight(c, d, cls);
    }
  }

  lemma LimitsBelow(cls: CpuClass)
    requires Resolvable(cls)
    ensures cls.limit < 50_000_000 && cls.memoryLimit < 50_000_000
    ensures 0 < 20 * cls.limit * cls.memoryLimit
  {
    assert cls.limit * cls.memoryLimit >= cls.limit;
    assert cls.limit * cls.memoryLimit >= cls.memoryLimit;
  }

  lemma ExactlyIsStrictTotal(c: Candidate, d: Candidate, cls: CpuClass, preferred: string)
    ensures !(Exactly(c, d, cls, preferred) && Exactly(d, c, cls, preferred))
    ensures c.node != d.node ==> Exactly(c, d, cls, preferred) || Exactly(d, c, cls, preferred)
  {
    LessIsTotal(c.node, d.node);
  }

  lemma ExactlyIsTransitive(c: Candidate, d: Candidate, e: Candidate, cls: CpuClass, preferred: string)
    requires Exactly(c, d, cls, preferred) && Exactly(d, e, cls, preferred)
    ensures Exactly(c, e, cls, preferred)
  {
    if Less(c.node, d.node) && Less(d.node, e.node) {
      LessIsTransitive(c.node, d.node, e.node);
    }
  }

  // ---- the fold ----

  /** lowestStaticAllocationNode over a non-empty candidate list, from left to right. */
  function Best(cs: seq<Candidate>, cls: CpuClass, preferred: string): Candidate
    requires cs != []
  {
    if |cs| == 1 then cs[0]
    else
      var best := Best(cs[..|cs| - 1], cls, preferred);
      var last := cs[|cs| - 1];
      if Better(last, best, cls, preferred) then last else best
  }

  ghost predicate DistinctNodes(cs: seq<Candidate>) {
    forall i, j :: 0 <= i < j < |cs| ==> cs[i].node != cs[j].node
  }

  ghost predicate IsLeast(c: Candidate, cs: seq<Candidate>, cls: CpuClass, preferred: string) {
    c in cs && forall d :: d in cs && d != c ==> Exactly(c, d, cls, preferred)
  }

  /** The fold returns the unique minimum of the exact order. */
  lemma {:induction false} BestIsLeast(cs: seq<Candidate>, cls: CpuClass, preferred: string)
    requires cs != [] && DistinctNodes(cs) && Resolvable(cls)
    ensures IsLeast(Best(cs, cls, preferred), cs, cls, preferred)
    decreases |cs|
  {
    if |cs| > 1 {
      var init, last := cs[..|cs| - 1], cs[|cs| - 1];
      BestIsLeast(init, cls, preferred);
      var best := Best(init, cls, preferred);
      BetterIsExact(last, best, cls, preferred);
      ExactlyIsStrictTotal(last, best, cls, preferred);
      assert cs == init + [last];
      assert best.node != last.node by {
        var i :| 0 <= i < |init| && init[i] == best;
        assert cs[i] == best;
      }
      if Better(last, best, cls, preferred) {
        forall d | d in cs && d != last
          ensures Exactly(last, d, cls, preferred)
        {
          if d != best { ExactlyIsTransitive(last, best, d, cls, preferred); }
        }
      }
    }
  }

  /** Placement does not depend on the order in which the candidates are listed. */
  lemma PlacementIgnoresOrder(cs: seq<Candidate>, ds: seq<Candidate>, cls: CpuClass, preferred: string)
    requires cs != [] && DistinctNodes(cs) && DistinctNodes(ds) && Resolvable(cls)
    requires forall c :: c in cs <==> c in ds
    ensures ds != [] && Best(cs, cls, preferred) == Best(ds, cls, preferred)
  {
    assert cs[0] in ds;
    BestIsLeast(cs, cls, preferred);
    BestIsLeast(ds, cls, preferred);
    ExactlyIsStrictTotal(Best(cs, cls, preferred), Best(ds, cls, preferred), cls, preferred);
  }

  /** Whatever the limits, each comparison gives away at most 1e-9, so the winner is within n * 1e-9 of every candidate. */
  lemma {:induction false} BestIsNearlyLeast(cs: seq<Candidate>, cls: CpuClass, preferred: string, c: Candidate)
    requires c in cs
    ensures Score(Best(cs, cls, preferred), cls) <= Score(c, cls) + |cs| as real * EPS
    decreases |cs|
  {
    if |cs| > 1 {
      var init, last := cs[..|cs| - 1], cs[|cs| - 1];
      assert cs == init + [last];
      assert |cs| as real == |init| as real + 1.0;
      if c in init {
        BestIsNearlyLeast(init, cls, preferred, c);
      }
    }
  }

  /** The bound matters: with a large memory limit the tolerant comparison is not transitive, and listing the same
      three nodes in two orders places the machine on two different nodes. */
  lemma ToleranceCanDecideByOrder()
    ensures var cls := CpuClass(1, 1_000_000_000_000, []);
            var x, y, z := Candidate("x", 0, 1846), Candidate("y", 0, 923), Candidate("z", 0, 0);
            Best([z, y, x], cls, "") == x && Best([x, y, z], cls, "") == z
  {
    var cls := CpuClass(1, 1_000_000_000_000, []);
    var x, y, z := Candidate("x", 0, 1846), Candidate("y", 0, 923), Candidate("z", 0, 0);
    assert Less("y", "z") && Less("x", "y") && !Less("y", "x");
    assert Better(y, z, cls, "") && Better(x, y, cls, "");
    assert !Better(y, x, cls, "") && Better(z, x, cls, "");
    assert [z, y, x][..2] == [z, y] && [z, y][..1] == [z];
    assert [x, y, z][..2] == [x, y] && [x, y][..1] == [x];
    assert Best([z, y], cls, "") == y;
    assert Best([x, y], cls, "") == x;
  }
}
