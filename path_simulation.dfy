/** One simulated path of `_random_trade` and `_drawdown`
    (decisiveml/montecarlo.py): equity after each trade, the running
    high-water mark, the maximum drawdown, the ruin flag and the path's
    statistics, all as functions of the sampled trades. The class in
    montecarlo.dfy runs the source's loops and is proved equal to these. */
module PathSimulation {
  import opened Outcomes
  import opened Numeric

  /** A 0/1 indicator, as the source stores `is_ruined` and `is_profitable`. */
  type Flag = x: int | 0 <= x <= 1

  /** The dict `_random_trade` returns. */
  datatype PathStats = PathStats(
    profit: real,
    returnsPct: int,
    drawdownPct: real,
    isRuined: Flag,
    isProfitable: Flag,
    returnsPerDrawdown: real)

  /** Equity after the first n trades of the path. */
  function Equity(start: real, trades: seq<real>, n: nat): real
    requires n <= |trades|
  {
    start + Sum(trades[..n])
  }

  lemma EquityStep(start: real, trades: seq<real>, n: nat)
    requires n < |trades|
    ensures Equity(start, trades, n + 1) == Equity(start, trades, n) + trades[n]
  {
    assert trades[..n + 1] == trades[..n] + [trades[n]];
    SumAppend(trades[..n], trades[n]);
  }

  /** The high-water mark after the first n trades: raised to the equity
      whenever the equity exceeds it. */
  function Hwm(start: real, trades: seq<real>, n: nat): real
    requires n <= |trades|
  {
    if n == 0 then start
    else
      var h := Hwm(start, trades, n - 1);
      var e := Equity(start, trades, n);
      if e > h then e else h
  }

  /** The high-water mark is the maximum of the starting equity and every
      equity seen so far. */
  lemma {:induction false} HwmIsMaximum(start: real, trades: seq<real>, n: nat)
    requires n <= |trades|
    ensures Hwm(start, trades, n) >= start
    ensures forall j :: 1 <= j <= n ==> Hwm(start, trades, n) >= Equity(start, trades, j)
    ensures Hwm(start, trades, n) == start
            || exists j :: 1 <= j <= n && Hwm(start, trades, n) == Equity(start, trades, j)
  {
    if n > 0 {
      HwmIsMaximum(start, trades, n - 1);
    }
  }

  /** The high-water mark never falls. */
  lemma {:induction false} HwmMonotone(start: real, trades: seq<real>, n: nat, m: nat)
    requires n <= m <= |trades|
    ensures Hwm(start, trades, n) <= Hwm(start, trades, m)
  {
    if n < m {
      HwmMonotone(start, trades, n, m - 1);
    }
  }

  /** Equity below its high-water mark after n trades. */
  predicate Dip(start: real, trades: seq<real>, n: nat)
    requires n <= |trades|
  {
    Equity(start, trades, n) < Hwm(start, trades, n)
  }

  /** The instantaneous drawdown `100 * (1 - equity / hwm)` after n trades. */
  function Instant(start: real, trades: seq<real>, n: nat): real
    requires n <= |trades| && Hwm(start, trades, n) != 0.0
  {
    100.0 * (1.0 - Equity(start, trades, n) / Hwm(start, trades, n))
  }

  /** A dip against a zero high-water mark: the division `_drawdown` cannot do. */
  predicate ZeroHwmDip(start: real, trades: seq<real>, n: nat)
    requires n <= |trades|
  {
    Dip(start, trades, n) && Hwm(start, trades, n) == 0.0
  }

  /** The value `_drawdown` holds in `max_drawdown_pct` after n trades. */
  function MaxDrawdown(start: real, trades: seq<real>, n: nat): Result<real>
    requires n <= |trades|
  {
    if n == 0 then Ok(0.0)
    else
      match MaxDrawdown(start, trades, n - 1)
      case Err(e) => Err(e)
      case Ok(m) =>
        if !Dip(start, trades, n) then Ok(m)
        else if Hwm(start, trades, n) == 0.0 then Err(DivisionByZero)
        else
          var d := Instant(start, trades, n);
          Ok(if d > m then d else m)
  }

  /** Once `_drawdown` has failed it stays failed. */
  lemma {:induction false} MaxDrawdownErrPersists(start: real, trades: seq<real>, n: nat, m: nat)
    requires n <= m <= |trades| && MaxDrawdown(start, trades, n).Err?
    ensures MaxDrawdown(start, trades, m).Err?
  {
    if n < m {
      MaxDrawdownErrPersists(start, trades, n, m - 1);
    }
  }

  /** `_drawdown` fails exactly when some dip meets a zero high-water mark. */
  lemma {:induction false} MaxDrawdownFailsIff(start: real, trades: seq<real>, n: nat)
    requires n <= |trades|
    ensures MaxDrawdown(start, trades, n).Err? <==> exists j :: 1 <= j <= n && ZeroHwmDip(start, trades, j)
    ensures MaxDrawdown(start, trades, n).Err? ==> MaxDrawdown(start, trades, n).error == DivisionByZero
  {
    if n > 0 {
      MaxDrawdownFailsIff(start, trades, n - 1);
      if MaxDrawdown(start, trades, n).Err? && MaxDrawdown(start, trades, n - 1).Ok? {
        assert ZeroHwmDip(start, trades, n);
      }
      if exists j :: 1 <= j <= n && ZeroHwmDip(start, trades, j) {
        var j :| 1 <= j <= n && ZeroHwmDip(start, trades, j);
        if j < n {
          assert MaxDrawdown(start, trades, n - 1).Err?;
        }
      }
    }
  }

  /** When it succeeds, the maximum drawdown is the largest instantaneous
      drawdown over all dips, or 0 when the path never dips. */
  lemma {:induction false} MaxDrawdownIsMaximum(start: real, trades: seq<real>, n: nat)
    requires n <= |trades|
    requires MaxDrawdown(start, trades, n).Ok?
    ensures MaxDrawdown(start, trades, n).value >= 0.0
    ensures forall j :: 1 <= j <= n && Dip(start, trades, j) && Hwm(start, trades, j) != 0.0 ==>
              Instant(start, trades, j) <= MaxDrawdown(start, trades, n).value
    ensures MaxDrawdown(start, trades, n).value == 0.0
            || exists j :: 1 <= j <= n && Dip(start, trades, j) && Hwm(start, trades, j) != 0.0
                 && MaxDrawdown(start, trades, n).value == Instant(start, trades, j)
  {
    if n > 0 {
      MaxDrawdownIsMaximum(start, trades, n - 1);
    }
  }

  /** A positive starting equity keeps the high-water mark positive, so
      `_drawdown` never divides by zero. */
  lemma MaxDrawdownSucceeds(start: real, trades: seq<real>, n: nat)
    requires n <= |trades| && start > 0.0
    ensures MaxDrawdown(start, trades, n).Ok?
  {
    MaxDrawdownFailsIff(start, trades, n);
    forall j | 1 <= j <= n
      ensures !ZeroHwmDip(start, trades, j)
    {
      HwmIsMaximum(start, trades, j);
    }
  }

  /** With no losing trade the equity is its own high-water mark at every step. */
  lemma {:induction false} HwmOfGains(start: real, trades: seq<real>, n: nat)
    requires n <= |trades|
    requires forall i :: 0 <= i < |trades| ==> trades[i] >= 0.0
    ensures Hwm(start, trades, n) == Equity(start, trades, n)
  {
    if n > 0 {
      HwmOfGains(start, trades, n - 1);
      EquityStep(start, trades, n - 1);
    } else {
      assert trades[..0] == [];
    }
  }

  /** A path of gains only has no drawdown. */
  lemma {:induction false} NoDrawdownForGains(start: real, trades: seq<real>, n: nat)
    requires n <= |trades|
    requires forall i :: 0 <= i < |trades| ==> trades[i] >= 0.0
    ensures MaxDrawdown(start, trades, n) == Ok(0.0)
  {
    if n > 0 {
      NoDrawdownForGains(start, trades, n - 1);
      HwmOfGains(start, trades, n);
    }
  }

  /** While the equity stays positive the drawdown stays below 100%. */
  lemma {:induction false} DrawdownBelowHundred(start: real, trades: seq<real>, n: nat)
    requires n <= |trades| && start > 0.0
    requires forall j :: 1 <= j <= n ==> Equity(start, trades, j) > 0.0
    ensures MaxDrawdown(start, trades, n).Ok? && MaxDrawdown(start, trades, n).value < 100.0
  {
    if n > 0 {
      DrawdownBelowHundred(start, trades, n - 1);
      HwmIsMaximum(start, trades, n);
      var e, h := Equity(start, trades, n), Hwm(start, trades, n);
      assert h > 0.0;
      PositiveRatio(e, h);
      assert Instant(start, trades, n) == 100.0 * (1.0 - e / h) < 100.0;
    }
  }

  /** Once the equity falls below zero the drawdown exceeds 100%: from 100,
      one trade of -200 leaves -100 against a high-water mark of 100. */
  lemma DrawdownCanExceedHundred()
    ensures MaxDrawdown(100.0, [-200.0], 1) == Ok(200.0)
  {
    assert [-200.0][..1] == [-200.0];
    assert [-200.0][..0] == [];
    assert Equity(100.0, [-200.0], 1) == -100.0;
    assert Hwm(100.0, [-200.0], 1) == 100.0;
  }

  /** From a positive start, once the equity falls below zero the maximum
      drawdown exceeds 100%. */
  lemma DrawdownAboveHundred(start: real, trades: seq<real>, j: nat)
    requires start > 0.0 && 1 <= j <= |trades| && Equity(start, trades, j) < 0.0
    ensures MaxDrawdown(start, trades, |trades|).Ok?
    ensures MaxDrawdown(start, trades, |trades|).value > 100.0
  {
    MaxDrawdownSucceeds(start, trades, |trades|);
    HwmIsMaximum(start, trades, j);
    var e, h := Equity(start, trades, j), Hwm(start, trades, j);
    assert h > 0.0 && Dip(start, trades, j);
    assert e / h < 0.0;
    MaxDrawdownIsMaximum(start, trades, |trades|);
  }

  lemma PositiveRatio(e: real, h: real)
    requires e > 0.0 && h > 0.0
    ensures e / h > 0.0
  {
  }

  /** Some prefix of the path takes the equity below the ruin level. */
  predicate Ruined(start: real, ruinEquity: real, trades: seq<real>)
  {
    exists n :: 1 <= n <= |trades| && Equity(start, trades, n) < ruinEquity
  }

  /** The statistics `_random_trade` computes for a sampled path. Profit,
      returns and drawdown are taken over the whole path whatever the ruin
      scan found. */
  function PathOf(start: real, ruinEquity: real, trades: seq<real>): Result<PathStats>
  {
    var profit := Sum(trades);
    if start == 0.0 then Err(DivisionByZero)
    else
      var returnsPct := Trunc(100.0 * ((start + profit) / start - 1.0));
      match MaxDrawdown(start, trades, |trades|)
      case Err(e) => Err(e)
      case Ok(dd) =>
        Ok(PathStats(
             profit,
             returnsPct,
             dd,
             if Ruined(start, ruinEquity, trades) then 1 else 0,
             if profit >= 0.0 then 1 else 0,
             if dd == 0.0 then 0.0 else returnsPct as real / dd))
  }

  /** A path fails only on a zero starting equity or a zero high-water-mark
      dip; the ruin level plays no part. */
  lemma PathFailsIff(start: real, ruinEquity: real, trades: seq<real>)
    ensures PathOf(start, ruinEquity, trades).Err? <==>
              start == 0.0 || exists j :: 1 <= j <= |trades| && ZeroHwmDip(start, trades, j)
    ensures PathOf(start, ruinEquity, trades).Err? ==> PathOf(start, ruinEquity, trades).error == DivisionByZero
  {
    MaxDrawdownFailsIff(start, trades, |trades|);
  }

  /** The return written `(start + profit) / start - 1` is profit over start. */
  lemma ReturnsAlgebra(start: real, profit: real)
    requires start != 0.0
    ensures (start + profit) / start - 1.0 == profit / start
  {
    var q := profit / start;
    var t := (start + profit) / start;
    assert start * q == profit;
    assert start * t == start + profit;
    assert start * (t - 1.0 - q) == 0.0;
    ProductZero(start, t - 1.0 - q);
  }

  lemma ProductZero(x: real, y: real)
    requires x != 0.0 && x * y == 0.0
    ensures y == 0.0
  {
  }

  lemma RatioTimesDivisor(x: real, d: real)
    requires d != 0.0
    ensures (x / d) * d == x
  {
  }

  /** The two flags of a path: ruined iff some prefix takes the equity below
      the ruin level, profitable iff the path ends no lower than it began. */
  lemma PathFlagsMeaning(start: real, ruinEquity: real, trades: seq<real>)
    requires PathOf(start, ruinEquity, trades).Ok?
    ensures PathOf(start, ruinEquity, trades).value.isRuined == 1 <==>
              exists n :: 1 <= n <= |trades| && Equity(start, trades, n) < ruinEquity
    ensures PathOf(start, ruinEquity, trades).value.isProfitable == 1 <==>
              Equity(start, trades, |trades|) >= start
  {
    assert trades[..|trades|] == trades;
  }

  /** A path's drawdown is non-negative and bounds every instantaneous
      drawdown; its return-per-drawdown ratio is 0 without drawdown and
      otherwise multiplies back to the return. */
  lemma PathDrawdownMeaning(start: real, ruinEquity: real, trades: seq<real>)
    requires PathOf(start, ruinEquity, trades).Ok?
    ensures PathOf(start, ruinEquity, trades).value.drawdownPct >= 0.0
    ensures forall j :: 1 <= j <= |trades| && Dip(start, trades, j) && Hwm(start, trades, j) != 0.0 ==>
              Instant(start, trades, j) <= PathOf(start, ruinEquity, trades).value.drawdownPct
    ensures PathOf(start, ruinEquity, trades).value.drawdownPct == 0.0 ==>
              PathOf(start, ruinEquity, trades).value.returnsPerDrawdown == 0.0
    ensures PathOf(start, ruinEquity, trades).value.drawdownPct != 0.0 ==>
              PathOf(start, ruinEquity, trades).value.returnsPerDrawdown * PathOf(start, ruinEquity, trades).value.drawdownPct
              == PathOf(start, ruinEquity, trades).value.returnsPct as real
  {
    var p := PathOf(start, ruinEquity, trades).value;
    var dd := MaxDrawdown(start, trades, |trades|);
    assert dd == Ok(p.drawdownPct);
    MaxDrawdownIsMaximum(start, trades, |trades|);
    if p.drawdownPct != 0.0 {
      assert p.returnsPerDrawdown == p.returnsPct as real / p.drawdownPct;
      RatioTimesDivisor(p.returnsPct as real, p.drawdownPct);
    }
  }

  /** A path's return is the truncated percentage gain over the start. */
  lemma PathReturnsMeaning(start: real, ruinEquity: real, trades: seq<real>)
    requires PathOf(start, ruinEquity, trades).Ok?
    ensures PathOf(start, ruinEquity, trades).value.returnsPct
            == Trunc(100.0 * ((Equity(start, trades, |trades|) - start) / start))
  {
    assert trades[..|trades|] == trades;
    ReturnsAlgebra(start, Sum(trades));
  }

  /** The early exit of the ruin scan does not shorten the path: two ruin
      levels give the same statistics except for the ruin flag. */
  lemma RuinDoesNotTruncate(start: real, ruinA: real, ruinB: real, trades: seq<real>)
    ensures PathOf(start, ruinA, trades).Ok? <==> PathOf(start, ruinB, trades).Ok?
    ensures PathOf(start, ruinA, trades).Ok? ==>
              PathOf(start, ruinA, trades).value.(isRuined := 0) == PathOf(start, ruinB, trades).value.(isRuined := 0)
  {
  }

  /** More starting capital never ruins a path that less capital survives. */
  lemma RuinMonotoneInEquity(low: real, high: real, ruinEquity: real, trades: seq<real>)
    requires low <= high
    ensures Ruined(high, ruinEquity, trades) ==> Ruined(low, ruinEquity, trades)
  {
    if Ruined(high, ruinEquity, trades) {
      var n :| 1 <= n <= |trades| && Equity(high, trades, n) < ruinEquity;
      assert Equity(low, trades, n) < ruinEquity;
    }
  }

  /** A path of gains only, from a non-zero start, has no drawdown, a zero
      ratio and counts as profitable. */
  lemma GainsOnlyPath(start: real, ruinEquity: real, trades: seq<real>)
    requires start != 0.0
    requires forall i :: 0 <= i < |trades| ==> trades[i] >= 0.0
    ensures PathOf(start, ruinEquity, trades).Ok?
    ensures PathOf(start, ruinEquity, trades).value.drawdownPct == 0.0
    ensures PathOf(start, ruinEquity, trades).value.returnsPerDrawdown == 0.0
    ensures PathOf(start, ruinEquity, trades).value.isProfitable == 1
  {
    NoDrawdownForGains(start, trades, |trades|);
    SumNonNegative(trades);
  }
}
