/** The `MonteCarlo` engine of decisiveml/montecarlo.py: settings, one
    simulated path per call of `_random_trade`, 2500 paths aggregated per
    starting equity, a sweep over a ladder of starting equities, and the
    recommendation drawn from the sweep.

    Each method runs the source's loops over the object's fields and is
    proved equal to a specification function of the inputs, the settings
    and the random tape; lemmas state what those functions mean. */
module MonteCarloEngine {
  import opened Outcomes
  import opened Numeric
  import opened Sampler
  import opened PathSimulation
  import opened Statistics
  import opened Aggregation
  import opened Ladder

  /** `_MONTECARLO_RUNS`: the number of paths per starting equity. */
  const MonteCarloRuns: nat := 2500

  /** The risk-of-ruin target `recommendation` asks `best_run` for, and the
      two thresholds of its pass/fail rule. */
  const DefaultRiskOfRuinPct: real := 10.0
  const MaxRuinPctToPass: real := 10.0
  const MinReturnsPerDrawdownToPass: real := 2.0

  /** What a simulation reads from the object: the trade list and the two
      attributes `settings` fills in (None until then). */
  datatype Config = Config(trades: seq<real>, tradesPerYear: Option<int>, ruinEquity: Option<real>)

  /** The best run extended as `recommendation` extends it. Dates are day
      numbers. */
  datatype RecommendationResult = RecommendationResult(
    best: AggregateStats,
    isPass: bool,
    startDate: int,
    endDate: int,
    months: real,
    avgMonthlyProfit: real)

  // ---------------------------------------------------------------------
  // Settings

  /** `int(num_trades_total * 365 / days)`. */
  function TradesPerYear(numTradesTotal: nat, days: int): int
    requires days != 0
  {
    Trunc((numTradesTotal * 365) as real / days as real)
  }

  /** Trades per year is the yearly rate of trades rounded toward zero: for
      a positive span, the whole number of trades per 365 days; for a
      negative span, the negated rate. Either way it is 0 (and then fails
      the assertion in `_random_trade`) when there are fewer trades than
      years in the span. */
  lemma TradesPerYearMeaning(numTradesTotal: nat, days: int)
    requires days != 0
    ensures days > 0 ==> TradesPerYear(numTradesTotal, days) == (numTradesTotal * 365) / days
    ensures days < 0 ==> TradesPerYear(numTradesTotal, days) == -((numTradesTotal * 365) / -days)
    ensures days > 0 ==> (TradesPerYear(numTradesTotal, days) == 0 <==> numTradesTotal * 365 < days)
    ensures days < 0 ==> (TradesPerYear(numTradesTotal, days) == 0 <==> numTradesTotal * 365 < -days)
  {
    var a := numTradesTotal * 365;
    TruncOfQuotient(a, days);
    if days > 0 {
      QuotientZero(a, days);
    } else {
      QuotientZero(a, -days);
    }
  }

  // ---------------------------------------------------------------------
  // One path

  /** Draws consumed by one path: `num_trades_per_year` when positive. */
  function Stride(cfg: Config): nat
  {
    if cfg.tradesPerYear.Some? then RangeLength(cfg.tradesPerYear.value) else 0
  }

  /** The two assertions at the top of `_random_trade`. */
  predicate AssertionsHold(cfg: Config)
  {
    && cfg.tradesPerYear.Some? && cfg.tradesPerYear.value != 0
    && cfg.ruinEquity.Some? && cfg.ruinEquity.value != 0.0
  }

  /** `_random_trade(starting_equity)` when the next draw is tape[pos]. */
  function RandomTradeSpec(cfg: Config, startingEquity: int, tape: nat -> Draw, pos: nat): Result<PathStats>
  {
    if !AssertionsHold(cfg) then Err(AssertionFailed)
    else if cfg.tradesPerYear.value > 0 && |cfg.trades| == 0 then Err(IndexOutOfRange)
    else
      PathOf(startingEquity as real, cfg.ruinEquity.value,
             Sample(cfg.trades, cfg.tradesPerYear.value, tape, pos))
  }

  /** Settings under which a path can always be drawn. */
  predicate Usable(cfg: Config)
  {
    AssertionsHold(cfg) && (cfg.tradesPerYear.value > 0 ==> |cfg.trades| > 0)
  }

  /** A path fails only on what the assertions reject, an empty trade list
      with a positive draw count, or a division by zero in the statistics;
      from a positive starting equity with usable settings it never fails. */
  lemma RandomTradeOutcome(cfg: Config, startingEquity: int, tape: nat -> Draw, pos: nat)
    ensures !AssertionsHold(cfg) <==> RandomTradeSpec(cfg, startingEquity, tape, pos) == Err(AssertionFailed)
    ensures AssertionsHold(cfg) && !Usable(cfg) <==>
              RandomTradeSpec(cfg, startingEquity, tape, pos) == Err(IndexOutOfRange)
    ensures Usable(cfg) && RandomTradeSpec(cfg, startingEquity, tape, pos).Err? ==>
              RandomTradeSpec(cfg, startingEquity, tape, pos).error == DivisionByZero
    ensures Usable(cfg) && startingEquity > 0 ==> RandomTradeSpec(cfg, startingEquity, tape, pos).Ok?
  {
    if Usable(cfg) {
      var sample := Sample(cfg.trades, cfg.tradesPerYear.value, tape, pos);
      PathFailsIff(startingEquity as real, cfg.ruinEquity.value, sample);
      if startingEquity > 0 {
        MaxDrawdownSucceeds(startingEquity as real, sample, |sample|);
      }
    }
  }

  // ---------------------------------------------------------------------
  // Repeated simulation steps

  /** A list of values in front of a computation that may fail. */
  function Prepend<T>(xs: seq<T>, r: Result<seq<T>>): Result<seq<T>>
  {
    match r
    case Err(e) => Err(e)
    case Ok(ys) => Ok(xs + ys)
  }

  /** Tape position of run i when each run draws `stride` values. */
  function Offset(pos: nat, i: nat, stride: nat): nat
  {
    if i == 0 then pos else Offset(pos, i - 1, stride) + stride
  }

  /** Run i starts i strides after the first. */
  lemma {:induction false} OffsetIsProduct(pos: nat, i: nat, stride: nat)
    ensures Offset(pos, i, stride) == pos + i * stride
  {
    if i > 0 {
      OffsetIsProduct(pos, i - 1, stride);
    }
  }

  lemma OffsetNext(pos: nat, i: nat, stride: nat)
    ensures Offset(pos, i + 1, stride) == Offset(pos, i, stride) + stride
    ensures Offset(pos + stride, i, stride) == Offset(pos, i + 1, stride)
  {
    OffsetIsProduct(pos, i, stride);
    OffsetIsProduct(pos, i + 1, stride);
    OffsetIsProduct(pos + stride, i, stride);
  }

  /** n runs of `step`, the first drawing from tape position pos and each
      next one `stride` positions further on; the first failure is the
      result. */
  function Repeat<T>(step: nat -> Result<T>, stride: nat, pos: nat, n: nat): (r: Result<seq<T>>)
    ensures r.Ok? ==> |r.value| == n
    decreases n
  {
    if n == 0 then Ok([])
    else
      match step(pos)
      case Err(e) => Err(e)
      case Ok(x) => Prepend([x], Repeat(step, stride, pos + stride, n - 1))
  }

  /** Run i of a successful repetition is `step` at pos + i * stride. */
  lemma {:induction false} RepeatPointwise<T>(step: nat -> Result<T>, stride: nat, pos: nat, n: nat)
    requires Repeat(step, stride, pos, n).Ok?
    ensures forall i {:trigger Repeat(step, stride, pos, n).value[i]} :: 0 <= i < n ==> step(Offset(pos, i, stride)) == Ok(Repeat(step, stride, pos, n).value[i])
    decreases n
  {
    if n > 0 {
      var xs := Repeat(step, stride, pos, n).value;
      var rest := Repeat(step, stride, pos + stride, n - 1);
      assert rest.Ok? && xs == [xs[0]] + rest.value;
      RepeatPointwise(step, stride, pos + stride, n - 1);
      forall i | 0 < i < n
        ensures step(Offset(pos, i, stride)) == Ok(xs[i])
      {
        OffsetNext(pos, i - 1, stride);
        assert xs[i] == rest.value[i - 1];
      }
    }
  }

  /** The first |xs| runs of a repetition succeeded with xs. */
  ghost predicate Repeated<T>(step: nat -> Result<T>, stride: nat, pos: nat, xs: seq<T>)
  {
    forall j {:trigger xs[j]} :: 0 <= j < |xs| ==> step(Offset(pos, j, stride)) == Ok(xs[j])
  }

  lemma RepeatedExtend<T>(step: nat -> Result<T>, stride: nat, pos: nat, xs: seq<T>, x: T)
    requires Repeated(step, stride, pos, xs)
    requires step(Offset(pos, |xs|, stride)) == Ok(x)
    ensures Repeated(step, stride, pos, xs + [x])
  {
    var ys := xs + [x];
    forall j {:trigger ys[j]} | 0 <= j < |ys|
      ensures step(Offset(pos, j, stride)) == Ok(ys[j])
    {
      if j < |xs| { assert ys[j] == xs[j]; }
    }
  }

  /** A repetition whose first n runs all succeed yields their results. */
  lemma {:induction false} RepeatOfPointwise<T>(step: nat -> Result<T>, stride: nat, pos: nat, xs: seq<T>)
    requires Repeated(step, stride, pos, xs)
    ensures Repeat(step, stride, pos, |xs|) == Ok(xs)
    decreases |xs|
  {
    if xs != [] {
      assert step(Offset(pos, 0, stride)) == Ok(xs[0]);
      forall j | 0 <= j < |xs| - 1
        ensures step(Offset(pos + stride, j, stride)) == Ok(xs[1..][j])
      {
        OffsetNext(pos, j, stride);
        assert step(Offset(pos, j + 1, stride)) == Ok(xs[j + 1]);
      }
      RepeatOfPointwise(step, stride, pos + stride, xs[1..]);
      assert xs == [xs[0]] + xs[1..];
    }
  }

  /** A repetition whose first runs succeed and whose next run fails
      fails with that run's error. */
  lemma {:induction false} RepeatFailsAt<T>(step: nat -> Result<T>, stride: nat, pos: nat, xs: seq<T>, n: nat)
    requires |xs| < n
    requires Repeated(step, stride, pos, xs)
    requires step(Offset(pos, |xs|, stride)).Err?
    ensures Repeat(step, stride, pos, n) == Err(step(Offset(pos, |xs|, stride)).error)
    decreases |xs|
  {
    if xs != [] {
      assert step(Offset(pos, 0, stride)) == Ok(xs[0]);
      forall j | 0 <= j < |xs| - 1
        ensures step(Offset(pos + stride, j, stride)) == Ok(xs[1..][j])
      {
        OffsetNext(pos, j, stride);
        assert step(Offset(pos, j + 1, stride)) == Ok(xs[j + 1]);
      }
      OffsetNext(pos, |xs| - 1, stride);
      RepeatFailsAt(step, stride, pos + stride, xs[1..], n - 1);
    } else {
      assert Offset(pos, 0, stride) == pos;
    }
  }

  lemma {:induction false} RepeatSucceeds<T>(step: nat -> Result<T>, stride: nat, pos: nat, n: nat)
    requires forall p :: step(p).Ok?
    ensures Repeat(step, stride, pos, n).Ok?
    decreases n
  {
    if n > 0 {
      RepeatSucceeds(step, stride, pos + stride, n - 1);
    }
  }

  /** An error no single step raises is not raised by the repetition. */
  lemma {:induction false} RepeatAvoids<T>(step: nat -> Result<T>, stride: nat, pos: nat, n: nat, e: Error)
    requires forall p :: step(p) != Err(e)
    ensures Repeat(step, stride, pos, n) != Err(e)
    decreases n
  {
    if n > 0 {
      RepeatAvoids(step, stride, pos + stride, n - 1, e);
    }
  }

  /** `step` on each argument in order, the first drawing from tape position
      pos and each next one `stride` positions further on; the first failure
      is the result. */
  function Each<A, T>(step: (A, nat) -> Result<T>, args: seq<A>, stride: nat, pos: nat): (r: Result<seq<T>>)
    ensures r.Ok? ==> |r.value| == |args|
    decreases |args|
  {
    if args == [] then Ok([])
    else
      match step(args[0], pos)
      case Err(e) => Err(e)
      case Ok(x) => Prepend([x], Each(step, args[1..], stride, pos + stride))
  }

  /** The first |xs| steps of an `Each` succeeded with xs. */
  ghost predicate Pointwise<A, T>(step: (A, nat) -> Result<T>, args: seq<A>, stride: nat, pos: nat, xs: seq<T>)
  {
    && |xs| <= |args|
    && forall k {:trigger xs[k]} :: 0 <= k < |xs| ==> step(args[k], Offset(pos, k, stride)) == Ok(xs[k])
  }

  lemma PointwiseExtend<A, T>(step: (A, nat) -> Result<T>, args: seq<A>, stride: nat, pos: nat, xs: seq<T>, x: T)
    requires Pointwise(step, args, stride, pos, xs) && |xs| < |args|
    requires step(args[|xs|], Offset(pos, |xs|, stride)) == Ok(x)
    ensures Pointwise(step, args, stride, pos, xs + [x])
  {
    var ys := xs + [x];
    forall k {:trigger ys[k]} | 0 <= k < |ys|
      ensures step(args[k], Offset(pos, k, stride)) == Ok(ys[k])
    {
      if k < |xs| { assert ys[k] == xs[k]; }
    }
  }

  /** Result j of a successful `Each` is `step` on argument j at
      pos + j * stride. */
  lemma {:induction false} EachPointwise<A, T>(step: (A, nat) -> Result<T>, args: seq<A>, stride: nat, pos: nat)
    requires Each(step, args, stride, pos).Ok?
    ensures forall j {:trigger Each(step, args, stride, pos).value[j]} :: 0 <= j < |args| ==> step(args[j], Offset(pos, j, stride)) == Ok(Each(step, args, stride, pos).value[j])
    decreases |args|
  {
    if args != [] {
      var xs := Each(step, args, stride, pos).value;
      var rest := Each(step, args[1..], stride, pos + stride);
      assert rest.Ok? && xs == [xs[0]] + rest.value;
      EachPointwise(step, args[1..], stride, pos + stride);
      forall j | 0 < j < |args|
        ensures step(args[j], Offset(pos, j, stride)) == Ok(xs[j])
      {
        OffsetNext(pos, j - 1, stride);
        assert args[j] == args[1..][j - 1];
        assert xs[j] == rest.value[j - 1];
      }
    }
  }

  /** `Each` whose steps on all arguments succeed yields their results. */
  lemma {:induction false} EachOfPointwise<A, T>(step: (A, nat) -> Result<T>, args: seq<A>, stride: nat, pos: nat, xs: seq<T>)
    requires Pointwise(step, args, stride, pos, xs) && |xs| == |args|
    ensures Each(step, args, stride, pos) == Ok(xs)
    decreases |xs|
  {
    if xs != [] {
      assert step(args[0], Offset(pos, 0, stride)) == Ok(xs[0]);
      forall k | 0 <= k < |xs| - 1
        ensures step(args[1..][k], Offset(pos + stride, k, stride)) == Ok(xs[1..][k])
      {
        OffsetNext(pos, k, stride);
        assert step(args[k + 1], Offset(pos, k + 1, stride)) == Ok(xs[k + 1]);
      }
      EachOfPointwise(step, args[1..], stride, pos + stride, xs[1..]);
      assert xs == [xs[0]] + xs[1..];
    }
  }

  /** `Each` whose first steps succeed and whose next step fails fails
      with that step's error. */
  lemma {:induction false} EachFailsAt<A, T>(step: (A, nat) -> Result<T>, args: seq<A>, stride: nat, pos: nat, xs: seq<T>)
    requires Pointwise(step, args, stride, pos, xs) && |xs| < |args|
    requires step(args[|xs|], Offset(pos, |xs|, stride)).Err?
    ensures Each(step, args, stride, pos) == Err(step(args[|xs|], Offset(pos, |xs|, stride)).error)
    decreases |xs|
  {
    if xs != [] {
      assert step(args[0], Offset(pos, 0, stride)) == Ok(xs[0]);
      var tail := args[1..];
      forall k | 0 <= k < |xs| - 1
        ensures step(tail[k], Offset(pos + stride, k, stride)) == Ok(xs[1..][k])
      {
        OffsetNext(pos, k, stride);
        assert tail[k] == args[k + 1];
        assert step(args[k + 1], Offset(pos, k + 1, stride)) == Ok(xs[k + 1]);
      }
      OffsetNext(pos, |xs| - 1, stride);
      assert tail[|xs| - 1] == args[|xs|];
      EachFailsAt(step, tail, stride, pos + stride, xs[1..]);
      var e := step(args[|xs|], Offset(pos, |xs|, stride)).error;
      assert Each(step, tail, stride, pos + stride) == Err(e);
      assert Offset(pos, 0, stride) == pos;
      assert Each(step, args, stride, pos) == Prepend([xs[0]], Each(step, tail, stride, pos + stride));
    } else {
      assert args[|xs|] == args[0] && Offset(pos, |xs|, stride) == pos;
    }
  }

  lemma {:induction false} EachSucceeds<A, T>(step: (A, nat) -> Result<T>, args: seq<A>, stride: nat, pos: nat)
    requires forall a, p :: a in args ==> step(a, p).Ok?
    ensures Each(step, args, stride, pos).Ok?
    decreases |args|
  {
    if args != [] {
      assert args[0] in args;
      EachSucceeds(step, args[1..], stride, pos + stride);
    }
  }

  /** An error no single step raises is not raised by `Each`. */
  lemma {:induction false} EachAvoids<A, T>(step: (A, nat) -> Result<T>, args: seq<A>, stride: nat, pos: nat, e: Error)
    requires forall a, p :: step(a, p) != Err(e)
    ensures Each(step, args, stride, pos) != Err(e)
    decreases |args|
  {
    if args != [] {
      EachAvoids(step, args[1..], stride, pos + stride, e);
    }
  }

  // ---------------------------------------------------------------------
  // Runs at one starting equity

  /** `_random_trade(starting_equity)` as a function of the tape position. */
  function TradeAt(cfg: Config, startingEquity: int, tape: nat -> Draw): nat -> Result<PathStats>
  {
    (p: nat) => RandomTradeSpec(cfg, startingEquity, tape, p)
  }

  /** Draws consumed by one starting equity: 2500 paths. */
  function Block(cfg: Config): nat
  {
    MonteCarloRuns * Stride(cfg)
  }

  /** The 2500 paths of `_median_stats_run`. */
  function PathsSpec(cfg: Config, startingEquity: int, tape: nat -> Draw, pos: nat): Result<seq<PathStats>>
  {
    Repeat(TradeAt(cfg, startingEquity, tape), Stride(cfg), pos, MonteCarloRuns)
  }

  /** `_median_stats_run(starting_equity)`: 2500 paths aggregated. */
  function MedianStatsSpec(cfg: Config, startingEquity: int, tape: nat -> Draw, pos: nat): (r: Result<AggregateStats>)
    ensures r.Ok? ==> r.value.equity == startingEquity
  {
    match PathsSpec(cfg, startingEquity, tape, pos)
    case Err(e) => Err(e)
    case Ok(ps) =>
      ColumnsWellFormed(ps);
      Ok(Aggregate(ColumnsOf(ps), startingEquity, MonteCarloRuns))
  }

  /** Path i of the 2500 is `_random_trade` on its own stretch of the
      tape, starting at pos + i * Stride(cfg). */
  lemma PathsArePathwise(cfg: Config, startingEquity: int, tape: nat -> Draw, pos: nat)
    requires PathsSpec(cfg, startingEquity, tape, pos).Ok?
    ensures |PathsSpec(cfg, startingEquity, tape, pos).value| == MonteCarloRuns
    ensures forall i {:trigger PathsSpec(cfg, startingEquity, tape, pos).value[i]} :: 0 <= i < MonteCarloRuns ==>
              TradeAt(cfg, startingEquity, tape)(Offset(pos, i, Stride(cfg)))
              == Ok(PathsSpec(cfg, startingEquity, tape, pos).value[i])
  {
    RepeatPointwise(TradeAt(cfg, startingEquity, tape), Stride(cfg), pos, MonteCarloRuns);
  }

  /** The first |ps| paths have been drawn into ps, each on its own
      stretch of the tape. */
  ghost predicate PathsPrefix(cfg: Config, startingEquity: int, tape: nat -> Draw, pos: nat, ps: seq<PathStats>)
  {
    Repeated(TradeAt(cfg, startingEquity, tape), Stride(cfg), pos, ps)
  }

  lemma PathsExtend(cfg: Config, startingEquity: int, tape: nat -> Draw, pos: nat, ps: seq<PathStats>, p: PathStats)
    requires PathsPrefix(cfg, startingEquity, tape, pos, ps)
    requires RandomTradeSpec(cfg, startingEquity, tape, Offset(pos, |ps|, Stride(cfg))) == Ok(p)
    ensures PathsPrefix(cfg, startingEquity, tape, pos, ps + [p])
  {
    RepeatedExtend(TradeAt(cfg, startingEquity, tape), Stride(cfg), pos, ps, p);
  }

  lemma PathsOfPointwise(cfg: Config, startingEquity: int, tape: nat -> Draw, pos: nat, ps: seq<PathStats>)
    requires PathsPrefix(cfg, startingEquity, tape, pos, ps) && |ps| == MonteCarloRuns
    ensures PathsSpec(cfg, startingEquity, tape, pos) == Ok(ps)
  {
    RepeatOfPointwise(TradeAt(cfg, startingEquity, tape), Stride(cfg), pos, ps);
  }

  lemma PathsFailAt(cfg: Config, startingEquity: int, tape: nat -> Draw, pos: nat, ps: seq<PathStats>)
    requires PathsPrefix(cfg, startingEquity, tape, pos, ps) && |ps| < MonteCarloRuns
    requires RandomTradeSpec(cfg, startingEquity, tape, Offset(pos, |ps|, Stride(cfg))).Err?
    ensures MedianStatsSpec(cfg, startingEquity, tape, pos) ==
              Err(RandomTradeSpec(cfg, startingEquity, tape, Offset(pos, |ps|, Stride(cfg))).error)
  {
    RepeatFailsAt(TradeAt(cfg, startingEquity, tape), Stride(cfg), pos, ps, MonteCarloRuns);
  }

  /** The aggregate holds the ruined and the profitable share of the 2500
      paths, each in [0, 100], and the median of every other field. */
  lemma MedianStatsMeaning(cfg: Config, startingEquity: int, tape: nat -> Draw, pos: nat, ps: seq<PathStats>)
    requires PathsSpec(cfg, startingEquity, tape, pos) == Ok(ps)
    ensures MedianStatsSpec(cfg, startingEquity, tape, pos).Ok?
    ensures var c := ColumnsOf(ps);
            var a := MedianStatsSpec(cfg, startingEquity, tape, pos).value;
      && a.isRuined == Share(CountOnes(c.isRuined), MonteCarloRuns) && 0.0 <= a.isRuined <= 100.0
      && a.isProfitable == Share(CountOnes(c.isProfitable), MonteCarloRuns) && 0.0 <= a.isProfitable <= 100.0
      && a.profit == Median(c.profit)
      && a.returnsPct == Median(c.returnsPct)
      && a.drawdownPct == Median(c.drawdownPct)
      && a.returnsPerDrawdown == Median(c.returnsPerDrawdown)
  {
    ColumnsWellFormed(ps);
    AggregateFlags(ColumnsOf(ps), startingEquity, MonteCarloRuns);
    AggregateMedians(ColumnsOf(ps), startingEquity, MonteCarloRuns);
  }

  /** With the key test exactly as written on line 145 of decisiveml/montecarlo.py, which
      also medians the two flag columns, the aggregate is the same. */
  lemma MedianStatsAsWritten(cfg: Config, startingEquity: int, tape: nat -> Draw, pos: nat, ps: seq<PathStats>)
    requires PathsSpec(cfg, startingEquity, tape, pos) == Ok(ps)
    ensures |ps| == MonteCarloRuns
    ensures MedianStatsSpec(cfg, startingEquity, tape, pos)
            == Ok(AggregateAsWritten(ColumnsOf(ps), startingEquity, MonteCarloRuns))
  {
    PathsArePathwise(cfg, startingEquity, tape, pos);
    ColumnsWellFormed(ps);
    AggregateAsWrittenAgrees(ColumnsOf(ps), startingEquity, MonteCarloRuns);
  }

  /** `_median_stats_run` fails only with an error a single path raises,
      and never from a positive starting equity with usable settings. */
  lemma MedianStatsOutcome(cfg: Config, startingEquity: int, tape: nat -> Draw, pos: nat)
    ensures Usable(cfg) && startingEquity > 0 ==> MedianStatsSpec(cfg, startingEquity, tape, pos).Ok?
    ensures MedianStatsSpec(cfg, startingEquity, tape, pos) != Err(ZeroRangeStep)
    ensures MedianStatsSpec(cfg, startingEquity, tape, pos) != Err(ExcessiveBaseEquity)
  {
    var step := TradeAt(cfg, startingEquity, tape);
    forall p: nat
      ensures step(p) != Err(ZeroRangeStep) && step(p) != Err(ExcessiveBaseEquity)
      ensures Usable(cfg) && startingEquity > 0 ==> step(p).Ok?
    {
      RandomTradeOutcome(cfg, startingEquity, tape, p);
    }
    RepeatAvoids(step, Stride(cfg), pos, MonteCarloRuns, ZeroRangeStep);
    RepeatAvoids(step, Stride(cfg), pos, MonteCarloRuns, ExcessiveBaseEquity);
    if Usable(cfg) && startingEquity > 0 {
      RepeatSucceeds(step, Stride(cfg), pos, MonteCarloRuns);
    }
  }

  // ---------------------------------------------------------------------
  // The sweep

  /** `_median_stats_run` as a function of the level and the tape position. */
  function MedianAt(cfg: Config, tape: nat -> Draw): (int, nat) -> Result<AggregateStats>
  {
    (startingEquity: int, p: nat) => MedianStatsSpec(cfg, startingEquity, tape, p)
  }

  /** `_run_equity_list(levels)`: one aggregate per level in order, each
      level drawing its 2500 paths from where the previous one stopped. */
  function SweepSpec(cfg: Config, levels: seq<int>, tape: nat -> Draw, pos: nat): Result<seq<AggregateStats>>
  {
    Each(MedianAt(cfg, tape), levels, Block(cfg), pos)
  }

  /** The first |rs| levels have been aggregated into rs, each on its own
      stretch of the tape. */
  ghost predicate SweptPrefix(cfg: Config, levels: seq<int>, tape: nat -> Draw, pos: nat, rs: seq<AggregateStats>)
  {
    Pointwise(MedianAt(cfg, tape), levels, Block(cfg), pos, rs)
  }

  lemma SweptExtend(cfg: Config, levels: seq<int>, tape: nat -> Draw, pos: nat, rs: seq<AggregateStats>, x: AggregateStats)
    requires SweptPrefix(cfg, levels, tape, pos, rs) && |rs| < |levels|
    requires MedianStatsSpec(cfg, levels[|rs|], tape, Offset(pos, |rs|, Block(cfg))) == Ok(x)
    ensures SweptPrefix(cfg, levels, tape, pos, rs + [x])
  {
    PointwiseExtend(MedianAt(cfg, tape), levels, Block(cfg), pos, rs, x);
  }

  lemma SweepOfPointwise(cfg: Config, levels: seq<int>, tape: nat -> Draw, pos: nat, rs: seq<AggregateStats>)
    requires SweptPrefix(cfg, levels, tape, pos, rs) && |rs| == |levels|
    ensures SweepSpec(cfg, levels, tape, pos) == Ok(rs)
  {
    EachOfPointwise(MedianAt(cfg, tape), levels, Block(cfg), pos, rs);
  }

  lemma SweepFailsAt(cfg: Config, levels: seq<int>, tape: nat -> Draw, pos: nat, rs: seq<AggregateStats>)
    requires SweptPrefix(cfg, levels, tape, pos, rs) && |rs| < |levels|
    requires MedianStatsSpec(cfg, levels[|rs|], tape, Offset(pos, |rs|, Block(cfg))).Err?
    ensures SweepSpec(cfg, levels, tape, pos) ==
              Err(MedianStatsSpec(cfg, levels[|rs|], tape, Offset(pos, |rs|, Block(cfg))).error)
  {
    EachFailsAt(MedianAt(cfg, tape), levels, Block(cfg), pos, rs);
  }

  /** Level j of a successful sweep is `_median_stats_run` at that level
      on its own stretch of the tape, starting at pos + j * Block(cfg), so
      the equity column of the sweep is the level list. */
  lemma SweepIsPerLevel(cfg: Config, levels: seq<int>, tape: nat -> Draw, pos: nat)
    requires SweepSpec(cfg, levels, tape, pos).Ok?
    ensures |SweepSpec(cfg, levels, tape, pos).value| == |levels|
    ensures forall j {:trigger SweepSpec(cfg, levels, tape, pos).value[j]} :: 0 <= j < |levels| ==>
              MedianAt(cfg, tape)(levels[j], Offset(pos, j, Block(cfg))) == Ok(SweepSpec(cfg, levels, tape, pos).value[j])
    ensures forall j :: 0 <= j < |levels| ==> SweepSpec(cfg, levels, tape, pos).value[j].equity == levels[j]
  {
    EachPointwise(MedianAt(cfg, tape), levels, Block(cfg), pos);
  }

  /** A sweep fails only with an error a single path raises, and never on
      positive levels with usable settings. */
  lemma SweepOutcome(cfg: Config, levels: seq<int>, tape: nat -> Draw, pos: nat)
    ensures Usable(cfg) && (forall j :: 0 <= j < |levels| ==> levels[j] > 0) ==>
              SweepSpec(cfg, levels, tape, pos).Ok?
    ensures SweepSpec(cfg, levels, tape, pos) != Err(ZeroRangeStep)
    ensures SweepSpec(cfg, levels, tape, pos) != Err(ExcessiveBaseEquity)
  {
    var step := MedianAt(cfg, tape);
    forall l: int, p: nat
      ensures step(l, p) != Err(ZeroRangeStep) && step(l, p) != Err(ExcessiveBaseEquity)
      ensures Usable(cfg) && l > 0 ==> step(l, p).Ok?
    {
      MedianStatsOutcome(cfg, l, tape, p);
    }
    EachAvoids(step, levels, Block(cfg), pos, ZeroRangeStep);
    EachAvoids(step, levels, Block(cfg), pos, ExcessiveBaseEquity);
    if Usable(cfg) && (forall j :: 0 <= j < |levels| ==> levels[j] > 0) {
      EachSucceeds(step, levels, Block(cfg), pos);
    }
  }

  /** `run(base_equity, steps)`. */
  function RunSpec(cfg: Config, baseEquity: int, steps: int, tape: nat -> Draw, pos: nat): Result<seq<AggregateStats>>
  {
    if StepSize(baseEquity) == 0 then Err(ZeroRangeStep)
    else SweepSpec(cfg, Levels(baseEquity, steps), tape, pos)
  }

  /** `run` rejects a base equity between -3 and 3 (a zero range step). From
      a base of at least 4 with usable settings it succeeds with one
      aggregate per level, `steps` of them, at equities base + i * (base / 4),
      strictly increasing. */
  lemma RunTable(cfg: Config, baseEquity: int, steps: int, tape: nat -> Draw, pos: nat)
    ensures RunSpec(cfg, baseEquity, steps, tape, pos) == Err(ZeroRangeStep) <==> -3 <= baseEquity <= 3
    ensures baseEquity >= 4 && Usable(cfg) ==> RunSpec(cfg, baseEquity, steps, tape, pos).Ok?
    ensures baseEquity >= 4 && RunSpec(cfg, baseEquity, steps, tape, pos).Ok? ==>
      var t := RunSpec(cfg, baseEquity, steps, tape, pos).value;
      && |t| == RangeLength(steps)
      && (forall i :: 0 <= i < |t| ==> t[i].equity == baseEquity + i * (baseEquity / 4))
      && (forall i, j :: 0 <= i < j < |t| ==> t[i].equity < t[j].equity)
  {
    StepSizeMeaning(baseEquity);
    if StepSize(baseEquity) != 0 {
      SweepOutcome(cfg, Levels(baseEquity, steps), tape, pos);
    }
    if baseEquity >= 4 {
      LevelsAscend(baseEquity, steps);
      if RunSpec(cfg, baseEquity, steps, tape, pos).Ok? {
        SweepIsPerLevel(cfg, Levels(baseEquity, steps), tape, pos);
      }
    }
  }

  // ---------------------------------------------------------------------
  // The recommendation

  /** Index of the first run whose risk of ruin is below the target. */
  function FirstBelow(runs: seq<AggregateStats>, target: real): (r: Option<nat>)
    ensures r.Some? ==> r.value < |runs| && runs[r.value].isRuined < target
    ensures r.Some? ==> forall j :: 0 <= j < r.value ==> runs[j].isRuined >= target
    ensures r.None? ==> forall j :: 0 <= j < |runs| ==> runs[j].isRuined >= target
  {
    if runs == [] then None
    else if runs[0].isRuined < target then Some(0)
    else
      match FirstBelow(runs[1..], target)
      case None => None
      case Some(i) => Some(i + 1)
  }

  /** `best_run(target)` for a non-empty list of runs. */
  function BestOf(runs: seq<AggregateStats>, target: real): Option<AggregateStats>
  {
    match FirstBelow(runs, target)
    case None => None
    case Some(i) => Some(runs[i])
  }

  /** The rest of `recommendation` once a best run is found. */
  function Recommend(best: AggregateStats, startDate: int, endDate: int): Result<RecommendationResult>
  {
    var months := (endDate - startDate) as real / 30.0;
    if months == 0.0 then Err(DivisionByZero)
    else
      var isPass := !(best.isRuined > MaxRuinPctToPass || best.returnsPerDrawdown < MinReturnsPerDrawdownToPass);
      Ok(RecommendationResult(best, isPass, startDate, endDate, months, best.profit / months))
  }

  /** `recommendation(start_date, end_date)` over the stored runs. */
  function RecommendationSpec(runs: Option<seq<AggregateStats>>, startDate: int, endDate: int): Result<RecommendationResult>
  {
    if runs.None? || runs.value == [] then Err(AssertionFailed)
    else
      match BestOf(runs.value, DefaultRiskOfRuinPct)
      case None => Err(ExcessiveBaseEquity)
      case Some(best) => Recommend(best, startDate, endDate)
  }

  /** `recommendation` fails on missing runs and raises ExcessiveBaseEquity
      when every level is at or above a 10% risk of ruin. Otherwise it
      recommends the first run below 10%, and a zero month count fails
      exactly when such a run exists and the two dates coincide. The run
      passes iff its risk is at most 10% and its return per drawdown at
      least 2; being below 10% already, iff the ratio is at least 2. */
  lemma RecommendationMeaning(runs: Option<seq<AggregateStats>>, startDate: int, endDate: int)
    ensures RecommendationSpec(runs, startDate, endDate) == Err(AssertionFailed) <==> runs.None? || runs.value == []
    ensures RecommendationSpec(runs, startDate, endDate) == Err(ExcessiveBaseEquity) <==>
              runs.Some? && runs.value != [] &&
              forall j :: 0 <= j < |runs.value| ==> runs.value[j].isRuined >= DefaultRiskOfRuinPct
    ensures RecommendationSpec(runs, startDate, endDate) == Err(DivisionByZero) <==>
              runs.Some? && startDate == endDate &&
              exists i :: 0 <= i < |runs.value| && runs.value[i].isRuined < DefaultRiskOfRuinPct
    ensures RecommendationSpec(runs, startDate, endDate).Ok? ==>
      var rec := RecommendationSpec(runs, startDate, endDate).value;
      && (exists i :: 0 <= i < |runs.value| && runs.value[i] == rec.best
            && rec.best.isRuined < DefaultRiskOfRuinPct
            && forall j :: 0 <= j < i ==> runs.value[j].isRuined >= DefaultRiskOfRuinPct)
      && (rec.isPass <==> rec.best.isRuined <= MaxRuinPctToPass && rec.best.returnsPerDrawdown >= MinReturnsPerDrawdownToPass)
      && (rec.isPass <==> rec.best.returnsPerDrawdown >= MinReturnsPerDrawdownToPass)
      && rec.months * 30.0 == (endDate - startDate) as real
      && rec.avgMonthlyProfit * rec.months == rec.best.profit
  {
    if runs.Some? && runs.value != [] {
      var f := FirstBelow(runs.value, DefaultRiskOfRuinPct);
      if exists i :: 0 <= i < |runs.value| && runs.value[i].isRuined < DefaultRiskOfRuinPct {
        assert f.Some?;
      }
      if f.Some? {
        var months := (endDate - startDate) as real / 30.0;
        if months != 0.0 {
          RatioTimesDivisor(runs.value[f.value].profit, months);
        } else {
          assert (endDate - startDate) as real == months * 30.0;
        }
      }
    }
  }

  // ---------------------------------------------------------------------
  // The object

  class MonteCarlo {
    const tradesList: seq<real>
    const numTradesTotal: nat
    var numTradesPerYear: Option<int>
    var ruinEquity: Option<real>
    var runs: Option<seq<AggregateStats>>

    /** The fields a simulation reads. */
    function Current(): Config
      reads this`numTradesPerYear, this`ruinEquity
    {
      Config(tradesList, numTradesPerYear, ruinEquity)
    }

    constructor (tradesList: seq<real>)
      ensures this.tradesList == tradesList && numTradesTotal == |tradesList|
      ensures numTradesPerYear == None && ruinEquity == None && runs == None
    {
      this.tradesList := tradesList;
      numTradesTotal := |tradesList|;
      numTradesPerYear := None;
      ruinEquity := None;
      runs := None;
    }

    /** `settings`: the ruin level is stored first, so it stays set even when
        a zero day span then fails the trades-per-year division. */
    method Settings(ruinEquity: real, startDate: int, endDate: int) returns (r: Outcome)
      modifies this`ruinEquity, this`numTradesPerYear
      ensures this.ruinEquity == Some(ruinEquity)
      ensures r == (if endDate == startDate then Fail(DivisionByZero) else Pass)
      ensures r.Pass? ==> numTradesPerYear == Some(TradesPerYear(numTradesTotal, endDate - startDate))
      ensures r.Fail? ==> numTradesPerYear == old(numTradesPerYear)
    {
      SetRuinEquity(ruinEquity);
      r := SetTradesPerYear(startDate, endDate);
    }

    method SetRuinEquity(ruinEquity: real)
      modifies this`ruinEquity
      ensures this.ruinEquity == Some(ruinEquity)
    {
      this.ruinEquity := Some(ruinEquity);
    }

    method SetTradesPerYear(startDate: int, endDate: int) returns (r: Outcome)
      modifies this`numTradesPerYear
      ensures r == (if endDate == startDate then Fail(DivisionByZero) else Pass)
      ensures r.Pass? ==> numTradesPerYear == Some(TradesPerYear(numTradesTotal, endDate - startDate))
      ensures r.Fail? ==> numTradesPerYear == old(numTradesPerYear)
    {
      var days := endDate - startDate;
      if days == 0 {
        return Fail(DivisionByZero);
      }
      numTradesPerYear := Some(Trunc((numTradesTotal * 365) as real / days as real));
      r := Pass;
    }

    /** `_random_trade(starting_equity)`: draw a path, scan it for ruin with
        an early exit, then compute the statistics over the whole path. */
    method RandomTrade(startingEquity: int, rng: Rng) returns (r: Result<PathStats>)
      modifies rng
      ensures r == RandomTradeSpec(Current(), startingEquity, rng.tape, old(rng.pos))
      ensures r.Ok? ==> rng.pos == old(rng.pos) + Stride(Current())
    {
      if numTradesPerYear.None? || numTradesPerYear.value == 0 {
        return Err(AssertionFailed);
      }
      if ruinEquity.None? || ruinEquity.value == 0.0 {
        return Err(AssertionFailed);
      }
      var ruin := ruinEquity.value;
      var chosen := Choices(tradesList, numTradesPerYear.value, rng);
      if chosen.Err? {
        return Err(chosen.error);
      }
      var trades := chosen.value;
      r := PathStatistics(startingEquity as real, ruin, trades);
    }

    /** The statistics `_random_trade` computes over one drawn path. */
    static method PathStatistics(start: real, ruin: real, trades: seq<real>) returns (r: Result<PathStats>)
      ensures r == PathOf(start, ruin, trades)
    {
      var isRuined := RuinScan(start, ruin, trades);
      var profit := Sum(trades);
      if start == 0.0 {
        return Err(DivisionByZero);
      }
      var returnsPct := Trunc(100.0 * ((start + profit) / start - 1.0));
      var drawdown := Drawdown(start, trades);
      if drawdown.Err? {
        return Err(drawdown.error);
      }
      var drawdownPct := drawdown.value;
      var isProfitable: Flag := if profit >= 0.0 then 1 else 0;
      var returnsPerDrawdown := if drawdownPct == 0.0 then 0.0 else returnsPct as real / drawdownPct;
      r := Ok(PathStats(profit, returnsPct, drawdownPct, isRuined, isProfitable, returnsPerDrawdown));
    }

    /** The ruin scan of `_random_trade`: walk the path and stop at the
        first equity below the ruin level. */
    static method RuinScan(start: real, ruin: real, trades: seq<real>) returns (isRuined: Flag)
      ensures isRuined == 1 <==> Ruined(start, ruin, trades)
    {
      isRuined := 0;
      var equity := start;
      var i := 0;
      while i < |trades|
        invariant 0 <= i <= |trades|
        invariant equity == Equity(start, trades, i)
        invariant forall n :: 1 <= n <= i ==> Equity(start, trades, n) >= ruin
      {
        EquityStep(start, trades, i);
        equity := equity + trades[i];
        if equity < ruin {
          isRuined := 1;
          return;
        }
        i := i + 1;
      }
    }

    /** `_drawdown(starting_equity, trades)`: the largest fall below the
        running high-water mark, in percent of that mark. */
    static method Drawdown(startingEquity: real, trades: seq<real>) returns (r: Result<real>)
      ensures r == MaxDrawdown(startingEquity, trades, |trades|)
      ensures r.Err? <==> exists n :: 1 <= n <= |trades| && ZeroHwmDip(startingEquity, trades, n)
      ensures r.Ok? ==> r.value >= 0.0
      ensures r.Ok? ==> forall n :: 1 <= n <= |trades| && Dip(startingEquity, trades, n) && Hwm(startingEquity, trades, n) != 0.0 ==>
                Instant(startingEquity, trades, n) <= r.value
      ensures r.Ok? ==> (r.value == 0.0
                || exists n :: 1 <= n <= |trades| && Dip(startingEquity, trades, n) && Hwm(startingEquity, trades, n) != 0.0
                     && r.value == Instant(startingEquity, trades, n))
    {
      var equity := startingEquity;
      var hwm := startingEquity;
      var maxDrawdownPct := 0.0;
      var drawdownPct := 0.0;
      for i := 0 to |trades|
        invariant equity == Equity(startingEquity, trades, i)
        invariant hwm == Hwm(startingEquity, trades, i)
        invariant MaxDrawdown(startingEquity, trades, i) == Ok(maxDrawdownPct)
      {
        EquityStep(startingEquity, trades, i);
        equity := equity + trades[i];
        if equity > hwm {
          hwm := equity;
        }
        if equity < hwm {
          if hwm == 0.0 {
            MaxDrawdownErrPersists(startingEquity, trades, i + 1, |trades|);
            MaxDrawdownFailsIff(startingEquity, trades, |trades|);
            return Err(DivisionByZero);
          }
          drawdownPct := 100.0 * (1.0 - equity / hwm);
          if drawdownPct > maxDrawdownPct {
            maxDrawdownPct := drawdownPct;
          }
        }
      }
      MaxDrawdownFailsIff(startingEquity, trades, |trades|);
      MaxDrawdownIsMaximum(startingEquity, trades, |trades|);
      r := Ok(maxDrawdownPct);
    }

    /** `_median_stats_run(starting_equity)`: 2500 paths collected key by
        key, then aggregated. */
    method MedianStatsRun(startingEquity: int, rng: Rng) returns (r: Result<AggregateStats>)
      modifies rng
      ensures r == MedianStatsSpec(Current(), startingEquity, rng.tape, old(rng.pos))
      ensures r.Ok? ==> rng.pos == old(rng.pos) + MonteCarloRuns * Stride(Current())
    {
      ghost var cfg := Current();
      ghost var stride := Stride(cfg);
      ghost var tape, pos0 := rng.tape, rng.pos;
      var montecarlo := Columns([], [], [], [], [], []);
      ghost var paths: seq<PathStats> := [];
      assert montecarlo == ColumnsOf(paths);
      var i := 0;
      while i < MonteCarloRuns
        invariant 0 <= i <= MonteCarloRuns
        invariant |paths| == i
        invariant rng.pos == Offset(pos0, i, stride)
        invariant PathsPrefix(cfg, startingEquity, tape, pos0, paths)
        invariant montecarlo == ColumnsOf(paths)
      {
        ghost var before := rng.pos;
        var stats := RandomTrade(startingEquity, rng);
        assert stats == RandomTradeSpec(cfg, startingEquity, tape, Offset(pos0, i, stride));
        if stats.Err? {
          PathsFailAt(cfg, startingEquity, tape, pos0, paths);
          return Err(stats.error);
        }
        assert rng.pos == before + stride;
        PathsExtend(cfg, startingEquity, tape, pos0, paths, stats.value);
        AppendRunColumns(paths, stats.value);
        OffsetNext(pos0, i, stride);
        montecarlo := AppendRun(montecarlo, stats.value);
        paths := paths + [stats.value];
        i := i + 1;
      }
      OffsetIsProduct(pos0, MonteCarloRuns, stride);
      PathsOfPointwise(cfg, startingEquity, tape, pos0, paths);
      ColumnsWellFormed(paths);
      r := Ok(Aggregate(montecarlo, startingEquity, MonteCarloRuns));
    }

    /** `run(base_equity, steps=11)`. */
    method Run(baseEquity: int, rng: Rng, steps: int := 11) returns (r: Result<seq<AggregateStats>>)
      modifies this`runs, rng
      ensures r == RunSpec(old(Current()), baseEquity, steps, rng.tape, old(rng.pos))
      ensures r.Ok? ==> runs == Some(r.value)
      ensures r.Ok? ==> rng.pos == old(rng.pos) + |r.value| * Block(old(Current()))
      ensures r.Err? ==> runs == old(runs)
    {
      ghost var cfg := Current();
      var stepSize := StepSize(baseEquity);
      var endEq := baseEquity + stepSize * steps;
      if stepSize == 0 {
        return Err(ZeroRangeStep);
      }
      var startingEquities := Range(baseEquity, endEq, stepSize);
      assert startingEquities == Levels(baseEquity, steps);
      r := RunEquityList(startingEquities, rng);
      assert Current() == cfg;
    }

    /** `_run_equity_list(starting_equities_list)`: `self.runs` is replaced
        only once every level has been aggregated. */
    method RunEquityList(startingEquities: seq<int>, rng: Rng) returns (r: Result<seq<AggregateStats>>)
      modifies this`runs, rng
      ensures r == SweepSpec(Current(), startingEquities, rng.tape, old(rng.pos))
      ensures r.Ok? ==> runs == Some(r.value)
      ensures r.Ok? ==> rng.pos == old(rng.pos) + |startingEquities| * Block(Current())
      ensures r.Err? ==> runs == old(runs)
    {
      ghost var cfg := Current();
      ghost var block := Block(cfg);
      ghost var tape, pos0 := rng.tape, rng.pos;
      var results: seq<AggregateStats> := [];
      for j := 0 to |startingEquities|
        invariant Current() == cfg
        invariant |results| == j
        invariant rng.pos == Offset(pos0, j, block)
        invariant SweptPrefix(cfg, startingEquities, tape, pos0, results)
        invariant runs == old(runs)
      {
        ghost var before := rng.pos;
        var median := MedianStatsRun(startingEquities[j], rng);
        assert Current() == cfg;
        assert median == MedianStatsSpec(cfg, startingEquities[j], tape, Offset(pos0, j, block));
        if median.Err? {
          SweepFailsAt(cfg, startingEquities, tape, pos0, results);
          return Err(median.error);
        }
        assert rng.pos == before + block;
        OffsetNext(pos0, j, block);
        SweptExtend(cfg, startingEquities, tape, pos0, results, median.value);
        results := results + [median.value];
      }
      OffsetIsProduct(pos0, |startingEquities|, block);
      SweepOfPointwise(cfg, startingEquities, tape, pos0, results);
      runs := Some(results);
      r := Ok(results);
    }

    /** `best_run(target_risk_of_ruin_pct=10)`: the first run, in sweep
        order, whose risk of ruin is below the target. */
    method BestRun(target: real := DefaultRiskOfRuinPct) returns (r: Result<Option<AggregateStats>>)
      ensures r == if runs.None? || runs.value == [] then Err(AssertionFailed) else Ok(BestOf(runs.value, target))
      ensures r.Ok? && r.value.Some? ==>
                exists i :: 0 <= i < |runs.value| && runs.value[i] == r.value.value
                  && r.value.value.isRuined < target
                  && forall j :: 0 <= j < i ==> runs.value[j].isRuined >= target
      ensures r.Ok? && r.value.None? ==> forall j :: 0 <= j < |runs.value| ==> runs.value[j].isRuined >= target
    {
      if runs.None? || runs.value == [] {
        return Err(AssertionFailed);
      }
      var all := runs.value;
      for i := 0 to |all|
        invariant forall j :: 0 <= j < i ==> all[j].isRuined >= target
      {
        if all[i].isRuined < target {
          FirstBelowIsFirst(all, target, i);
          return Ok(Some(all[i]));
        }
      }
      return Ok(None);
    }

    /** `recommendation(start_date, end_date)`. */
    method Recommendation(startDate: int, endDate: int) returns (r: Result<RecommendationResult>)
      ensures r == RecommendationSpec(runs, startDate, endDate)
    {
      var best := BestRun();
      if best.Err? {
        return Err(best.error);
      }
      if best.value.None? {
        return Err(ExcessiveBaseEquity);
      }
      var myRec := best.value.value;
      var isPass: bool;
      if myRec.isRuined > MaxRuinPctToPass || myRec.returnsPerDrawdown < MinReturnsPerDrawdownToPass {
        isPass := false;
      } else {
        isPass := true;
      }
      var months := (endDate - startDate) as real / 30.0;
      if months == 0.0 {
        return Err(DivisionByZero);
      }
      r := Ok(RecommendationResult(myRec, isPass, startDate, endDate, months, myRec.profit / months));
    }
  }

  /** The first index below the target is the one `FirstBelow` finds. */
  lemma FirstBelowIsFirst(runs: seq<AggregateStats>, target: real, i: nat)
    requires i < |runs| && runs[i].isRuined < target
    requires forall j :: 0 <= j < i ==> runs[j].isRuined >= target
    ensures FirstBelow(runs, target) == Some(i)
  {
  }
}
