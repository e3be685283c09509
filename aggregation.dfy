/** `_median_stats_run` (decisiveml/montecarlo.py) after its runs: the
    per-run statistics collected key by key, the continuous keys reduced to
    their median and the two 0/1 flags to their percentage over the runs. */
module Aggregation {
  import opened Numeric
  import opened Statistics
  import opened PathSimulation

  /** The dict of lists `montecarlo`: one column per key of the run stats. */
  datatype Columns = Columns(
    profit: seq<real>,
    returnsPct: seq<real>,
    drawdownPct: seq<real>,
    isRuined: seq<real>,
    isProfitable: seq<real>,
    returnsPerDrawdown: seq<real>)

  /** The dict `median_montecarlo` for one starting equity. */
  datatype AggregateStats = AggregateStats(
    profit: real,
    returnsPct: real,
    drawdownPct: real,
    isRuined: real,
    isProfitable: real,
    returnsPerDrawdown: real,
    equity: int)

  /** One field of every run, in run order. The ensures repeat the body
      for the verifier: the column lemmas below need them. */
  function Project(ps: seq<PathStats>, f: PathStats -> real): (c: seq<real>)
    ensures |c| == |ps|
    ensures forall i :: 0 <= i < |ps| ==> c[i] == f(ps[i])
  {
    seq(|ps|, i requires 0 <= i < |ps| => f(ps[i]))
  }

  /** The numeric value of each key of the run stats. */
  function ProfitField(p: PathStats): real { p.profit }
  function ReturnsPctField(p: PathStats): real { p.returnsPct as real }
  function DrawdownPctField(p: PathStats): real { p.drawdownPct }
  function IsRuinedField(p: PathStats): real { p.isRuined as real }
  function IsProfitableField(p: PathStats): real { p.isProfitable as real }
  function ReturnsPerDrawdownField(p: PathStats): real { p.returnsPerDrawdown }

  /** The columns built from a list of runs. */
  function ColumnsOf(ps: seq<PathStats>): Columns
  {
    Columns(
      Project(ps, ProfitField),
      Project(ps, ReturnsPctField),
      Project(ps, DrawdownPctField),
      Project(ps, IsRuinedField),
      Project(ps, IsProfitableField),
      Project(ps, ReturnsPerDrawdownField))
  }

  /** `montecarlo[k].append(v)` for every key of one run's stats. */
  function AppendRun(c: Columns, p: PathStats): Columns
  {
    Columns(
      c.profit + [p.profit],
      c.returnsPct + [p.returnsPct as real],
      c.drawdownPct + [p.drawdownPct],
      c.isRuined + [p.isRuined as real],
      c.isProfitable + [p.isProfitable as real],
      c.returnsPerDrawdown + [p.returnsPerDrawdown])
  }

  /** Appending a run's stats key by key gives the columns of the longer list. */
  lemma AppendRunColumns(ps: seq<PathStats>, p: PathStats)
    ensures AppendRun(ColumnsOf(ps), p) == ColumnsOf(ps + [p])
  {
    var c, d := AppendRun(ColumnsOf(ps), p), ColumnsOf(ps + [p]);
    assert c.profit == d.profit;
    assert c.returnsPct == d.returnsPct;
    assert c.drawdownPct == d.drawdownPct;
    assert c.isRuined == d.isRuined;
    assert c.isProfitable == d.isProfitable;
    assert c.returnsPerDrawdown == d.returnsPerDrawdown;
  }

  /** `100 * sum(flags) / runs`. */
  function Percent(flags: seq<real>, runs: nat): real
    requires runs > 0
  {
    100.0 * Sum(flags) / runs as real
  }

  /** `count` out of `runs` as a percentage. */
  function Share(count: nat, runs: nat): real
    requires runs > 0
  {
    100.0 * count as real / runs as real
  }

  lemma ShareBound(count: nat, runs: nat)
    requires 0 <= count <= runs && runs > 0
    ensures 0.0 <= Share(count, runs) <= 100.0
  {
    var q, x, r := Share(count, runs), count as real, runs as real;
    assert q * r == 100.0 * x;
  }

  /** The percentage of a column of 0/1 flags over as many runs is the share
      of ones, between 0 and 100. */
  lemma PercentOfFlags(flags: seq<real>, runs: nat)
    requires runs > 0 && |flags| == runs && IsFlagSeq(flags)
    ensures Percent(flags, runs) == Share(CountOnes(flags), runs)
    ensures 0.0 <= Percent(flags, runs) <= 100.0
  {
    SumOfFlags(flags);
    ShareBound(CountOnes(flags), runs);
  }

  /** The keys of the dict `_random_trade` returns. */
  datatype Key = Profit | ReturnsPct | DrawdownPct | IsRuined | IsProfitable | ReturnsPerDrawdown

  /** The column `montecarlo[k]`. */
  function Column(c: Columns, k: Key): seq<real>
  {
    match k
    case Profit => c.profit
    case ReturnsPct => c.returnsPct
    case DrawdownPct => c.drawdownPct
    case IsRuined => c.isRuined
    case IsProfitable => c.isProfitable
    case ReturnsPerDrawdown => c.returnsPerDrawdown
  }

  /** The test on line 145 as it is written: a disjunction of two
      inequalities, which no key falsifies. */
  predicate MedianTestAsWritten(k: Key)
  {
    k != IsRuined || k != IsProfitable
  }

  /** The test the comment on line 144 asks for: skip the two flags. */
  predicate MedianTest(k: Key)
  {
    k != IsRuined && k != IsProfitable
  }

  /** The written test keeps every key, the two flags included. */
  lemma MedianTestAsWrittenKeepsFlags(k: Key)
    ensures MedianTestAsWritten(k)
    ensures MedianTestAsWritten(IsRuined) && !MedianTest(IsRuined)
    ensures MedianTestAsWritten(IsProfitable) && !MedianTest(IsProfitable)
  {
  }

  /** The intended test keeps exactly the four continuous keys. */
  lemma MedianTestSkipsFlags(k: Key)
    ensures !MedianTest(k) <==> k == IsRuined || k == IsProfitable
  {
  }

  /** The loop on lines 143-146 for one key: the median of the key's column
      when the test keeps the key. A skipped key is absent from the dict
      until lines 151-156 set it; 0.0 stands in for the absence. */
  function KeyMedian(c: Columns, k: Key, keep: Key -> bool): real
    requires |Column(c, k)| > 0
  {
    if keep(k) then Median(Column(c, k)) else 0.0
  }

  /** Lines 142-157 with the median test `keep`: medians of the kept keys,
      the two flags then set to their percentage over the runs, and the
      starting equity recorded. */
  function AggregateWith(c: Columns, startingEquity: int, runs: nat, keep: Key -> bool): AggregateStats
    requires runs > 0
    requires |c.profit| > 0 && |c.returnsPct| > 0 && |c.drawdownPct| > 0
    requires |c.isRuined| > 0 && |c.isProfitable| > 0 && |c.returnsPerDrawdown| > 0
  {
    var medians := AggregateStats(
      KeyMedian(c, Profit, keep),
      KeyMedian(c, ReturnsPct, keep),
      KeyMedian(c, DrawdownPct, keep),
      KeyMedian(c, IsRuined, keep),
      KeyMedian(c, IsProfitable, keep),
      KeyMedian(c, ReturnsPerDrawdown, keep),
      startingEquity);
    medians.(isRuined := Percent(c.isRuined, runs), isProfitable := Percent(c.isProfitable, runs))
  }

  /** Lines 142-157 exactly as written: every key is medianed. */
  function AggregateAsWritten(c: Columns, startingEquity: int, runs: nat): AggregateStats
    requires runs > 0
    requires |c.profit| > 0 && |c.returnsPct| > 0 && |c.drawdownPct| > 0
    requires |c.isRuined| > 0 && |c.isProfitable| > 0 && |c.returnsPerDrawdown| > 0
  {
    AggregateWith(c, startingEquity, runs, MedianTestAsWritten)
  }

  /** Lines 142-157 with the intended test: only the continuous keys are
      medianed. */
  function Aggregate(c: Columns, startingEquity: int, runs: nat): AggregateStats
    requires runs > 0
    requires |c.profit| > 0 && |c.returnsPct| > 0 && |c.drawdownPct| > 0
    requires |c.isRuined| > 0 && |c.isProfitable| > 0 && |c.returnsPerDrawdown| > 0
  {
    AggregateWith(c, startingEquity, runs, MedianTest)
  }

  /** The medians the written test takes of the two flags are overwritten
      before the dict is returned, so both tests give the same aggregate. */
  lemma AggregateAsWrittenAgrees(c: Columns, startingEquity: int, runs: nat)
    requires runs > 0
    requires |c.profit| > 0 && |c.returnsPct| > 0 && |c.drawdownPct| > 0
    requires |c.isRuined| > 0 && |c.isProfitable| > 0 && |c.returnsPerDrawdown| > 0
    ensures AggregateAsWritten(c, startingEquity, runs) == Aggregate(c, startingEquity, runs)
  {
  }

  /** The flag columns of a run list hold only 0s and 1s. */
  lemma FlagColumns(ps: seq<PathStats>)
    ensures IsFlagSeq(ColumnsOf(ps).isRuined) && IsFlagSeq(ColumnsOf(ps).isProfitable)
  {
    var c := ColumnsOf(ps);
    forall i | 0 <= i < |ps|
      ensures c.isRuined[i] == 0.0 || c.isRuined[i] == 1.0
      ensures c.isProfitable[i] == 0.0 || c.isProfitable[i] == 1.0
    {
      assert c.isRuined[i] == ps[i].isRuined as real;
      assert c.isProfitable[i] == ps[i].isProfitable as real;
    }
  }

  /** Columns of equal, positive length: what the runs loop produces. */
  predicate WellFormed(c: Columns, runs: nat)
  {
    && |c.profit| == runs && |c.returnsPct| == runs && |c.drawdownPct| == runs
    && |c.isRuined| == runs && |c.isProfitable| == runs && |c.returnsPerDrawdown| == runs
  }

  lemma ColumnsWellFormed(ps: seq<PathStats>)
    ensures WellFormed(ColumnsOf(ps), |ps|)
    ensures IsFlagSeq(ColumnsOf(ps).isRuined) && IsFlagSeq(ColumnsOf(ps).isProfitable)
  {
    FlagColumns(ps);
  }

  /** The two flags of the aggregate of `runs` runs: the share of runs that
      were ruined, and of runs that were profitable, each in [0, 100]. */
  lemma AggregateFlags(c: Columns, startingEquity: int, runs: nat)
    requires runs > 0 && WellFormed(c, runs)
    requires IsFlagSeq(c.isRuined) && IsFlagSeq(c.isProfitable)
    ensures Aggregate(c, startingEquity, runs).isRuined == Share(CountOnes(c.isRuined), runs)
    ensures 0.0 <= Aggregate(c, startingEquity, runs).isRuined <= 100.0
    ensures Aggregate(c, startingEquity, runs).isProfitable == Share(CountOnes(c.isProfitable), runs)
    ensures 0.0 <= Aggregate(c, startingEquity, runs).isProfitable <= 100.0
  {
    var a := Aggregate(c, startingEquity, runs);
    assert a.isRuined == Percent(c.isRuined, runs);
    assert a.isProfitable == Percent(c.isProfitable, runs);
    PercentOfFlags(c.isRuined, runs);
    PercentOfFlags(c.isProfitable, runs);
  }

  /** The continuous fields of an aggregate are the medians of their
      columns, so each lies between the column's least and greatest value;
      the aggregate records the starting equity it was run at. */
  lemma AggregateMedians(c: Columns, startingEquity: int, runs: nat)
    requires runs > 0 && WellFormed(c, runs)
    ensures var a := Aggregate(c, startingEquity, runs);
      && a.profit == Median(c.profit) && Min(c.profit) <= a.profit <= Max(c.profit)
      && a.returnsPct == Median(c.returnsPct) && Min(c.returnsPct) <= a.returnsPct <= Max(c.returnsPct)
      && a.drawdownPct == Median(c.drawdownPct) && Min(c.drawdownPct) <= a.drawdownPct <= Max(c.drawdownPct)
      && a.returnsPerDrawdown == Median(c.returnsPerDrawdown)
      && Min(c.returnsPerDrawdown) <= a.returnsPerDrawdown <= Max(c.returnsPerDrawdown)
      && a.equity == startingEquity
  {
    MedianWithinRange(c.profit);
    MedianWithinRange(c.returnsPct);
    MedianWithinRange(c.drawdownPct);
    MedianWithinRange(c.returnsPerDrawdown);
  }

  /** When every run's drawdown is non-negative, so is the median drawdown. */
  lemma AggregateDrawdownNonNegative(ps: seq<PathStats>, startingEquity: int, runs: nat)
    requires |ps| == runs > 0
    requires forall i :: 0 <= i < |ps| ==> ps[i].drawdownPct >= 0.0
    ensures Aggregate(ColumnsOf(ps), startingEquity, runs).drawdownPct >= 0.0
  {
    var col := ColumnsOf(ps).drawdownPct;
    MinMaxBound(col);
    MedianWithinRange(col);
    var j :| 0 <= j < |col| && col[j] == Min(col);
    assert col[j] == DrawdownPctField(ps[j]);
  }

  lemma ProjectConcat(a: seq<PathStats>, b: seq<PathStats>, f: PathStats -> real)
    ensures Project(a + b, f) == Project(a, f) + Project(b, f)
  {
  }

  /** Projecting with element j taken out removes exactly f(qs[j]). */
  lemma ProjectWithout(qs: seq<PathStats>, j: nat, f: PathStats -> real)
    requires j < |qs|
    ensures multiset(Project(qs, f)) == multiset(Project(qs[..j] + qs[j + 1..], f)) + multiset{f(qs[j])}
  {
    var left, right := qs[..j], qs[j + 1..];
    assert qs == left + [qs[j]] + right;
    ProjectConcat(left + [qs[j]], right, f);
    ProjectConcat(left, [qs[j]], f);
    ProjectConcat(left, right, f);
    assert Project([qs[j]], f) == [f(qs[j])];
  }

  /** Taking element j out of qs takes one copy of it out of the multiset. */
  lemma WithoutOne(qs: seq<PathStats>, j: nat)
    requires j < |qs|
    ensures multiset(qs[..j] + qs[j + 1..]) == multiset(qs) - multiset{qs[j]}
  {
    assert qs == qs[..j] + [qs[j]] + qs[j + 1..];
  }

  /** Projecting a field keeps a permutation a permutation. */
  lemma {:induction false} ProjectPermutation(ps: seq<PathStats>, qs: seq<PathStats>, f: PathStats -> real)
    requires multiset(ps) == multiset(qs)
    ensures multiset(Project(ps, f)) == multiset(Project(qs, f))
    decreases |ps|
  {
    if ps == [] {
      assert |qs| == |multiset(qs)| == 0;
    } else {
      var n := |ps|;
      var x := ps[n - 1];
      assert x in multiset(qs);
      var j :| 0 <= j < |qs| && qs[j] == x;
      var init, rest := ps[..n - 1] + ps[n..], qs[..j] + qs[j + 1..];
      WithoutOne(ps, n - 1);
      WithoutOne(qs, j);
      ProjectPermutation(init, rest, f);
      ProjectWithout(ps, n - 1, f);
      ProjectWithout(qs, j, f);
    }
  }

  /** Permuting the runs permutes every column. */
  lemma ColumnsOfPermutation(ps: seq<PathStats>, qs: seq<PathStats>)
    requires multiset(ps) == multiset(qs)
    ensures var c, d := ColumnsOf(ps), ColumnsOf(qs);
      && multiset(c.profit) == multiset(d.profit)
      && multiset(c.returnsPct) == multiset(d.returnsPct)
      && multiset(c.drawdownPct) == multiset(d.drawdownPct)
      && multiset(c.isRuined) == multiset(d.isRuined)
      && multiset(c.isProfitable) == multiset(d.isProfitable)
      && multiset(c.returnsPerDrawdown) == multiset(d.returnsPerDrawdown)
  {
    ProjectPermutation(ps, qs, ProfitField);
    ProjectPermutation(ps, qs, ReturnsPctField);
    ProjectPermutation(ps, qs, DrawdownPctField);
    ProjectPermutation(ps, qs, IsRuinedField);
    ProjectPermutation(ps, qs, IsProfitableField);
    ProjectPermutation(ps, qs, ReturnsPerDrawdownField);
  }

  lemma PercentOfPermutation(a: seq<real>, b: seq<real>, runs: nat)
    requires runs > 0 && multiset(a) == multiset(b)
    ensures Percent(a, runs) == Percent(b, runs)
  {
    SumPermutation(a, b);
  }

  lemma SameLengthOfPermutation(a: seq<real>, b: seq<real>)
    requires multiset(a) == multiset(b)
    ensures |a| == |b|
  {
    assert |a| == |multiset(a)| && |b| == |multiset(b)|;
  }

  /** Columns that hold the same values in another order aggregate alike. */
  lemma AggregateOfPermutedColumns(c: Columns, d: Columns, startingEquity: int, runs: nat)
    requires runs > 0 && WellFormed(c, runs)
    requires multiset(c.profit) == multiset(d.profit)
    requires multiset(c.returnsPct) == multiset(d.returnsPct)
    requires multiset(c.drawdownPct) == multiset(d.drawdownPct)
    requires multiset(c.isRuined) == multiset(d.isRuined)
    requires multiset(c.isProfitable) == multiset(d.isProfitable)
    requires multiset(c.returnsPerDrawdown) == multiset(d.returnsPerDrawdown)
    ensures WellFormed(d, runs)
    ensures Aggregate(c, startingEquity, runs) == Aggregate(d, startingEquity, runs)
  {
    SameLengthOfPermutation(c.profit, d.profit);
    SameLengthOfPermutation(c.returnsPct, d.returnsPct);
    SameLengthOfPermutation(c.drawdownPct, d.drawdownPct);
    SameLengthOfPermutation(c.isRuined, d.isRuined);
    SameLengthOfPermutation(c.isProfitable, d.isProfitable);
    SameLengthOfPermutation(c.returnsPerDrawdown, d.returnsPerDrawdown);
    MedianOfPermutation(c.profit, d.profit);
    MedianOfPermutation(c.returnsPct, d.returnsPct);
    MedianOfPermutation(c.drawdownPct, d.drawdownPct);
    MedianOfPermutation(c.returnsPerDrawdown, d.returnsPerDrawdown);
    PercentOfPermutation(c.isRuined, d.isRuined, runs);
    PercentOfPermutation(c.isProfitable, d.isProfitable, runs);
  }

  /** The aggregate does not depend on the order in which the runs finished. */
  lemma AggregateOfPermutation(ps: seq<PathStats>, qs: seq<PathStats>, startingEquity: int, runs: nat)
    requires |ps| == runs > 0 && multiset(ps) == multiset(qs)
    ensures |qs| == runs
    ensures Aggregate(ColumnsOf(ps), startingEquity, runs) == Aggregate(ColumnsOf(qs), startingEquity, runs)
  {
    assert |qs| == |multiset(qs)| == |multiset(ps)| == |ps|;
    ColumnsWellFormed(ps);
    ColumnsWellFormed(qs);
    ColumnsOfPermutation(ps, qs);
    AggregateOfPermutedColumns(ColumnsOf(ps), ColumnsOf(qs), startingEquity, runs);
  }
}
