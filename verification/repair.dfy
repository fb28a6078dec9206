/**
 * Repairs of the merged table in `integracion_limpieza_datos.py` (the line
 * numbers below are that script's) that rewrite cells and never remove
 * rows: negative amounts become 0, missing amounts take the mean of the
 * present ones, missing customer names become "Desconocido".
 */
module Repair {
  import opened Wrappers
  import opened Tables
  import opened Filtering

  predicate IsNegative(r: Row) {
    r.importe.Some? && r.importe.value < 0.0
  }

  predicate IsNonNegativeOrMissing(a: Option<real>) {
    a.Some? ==> a.value >= 0.0
  }

  function ClampAmount(a: Option<real>): (clamped: Option<real>) {
    if a.Some? && a.value < 0.0 then Some(0.0) else a
  }

  /** Every present negative amount becomes exactly 0; nothing else changes. */
  function CorrectNegatives(rows: seq<Row>): (out: seq<Row>)
    ensures |out| == |rows|
    ensures forall i :: 0 <= i < |rows| ==>
      out[i] == rows[i].(importe := out[i].importe) &&
      out[i].importe.Some? == rows[i].importe.Some? &&
      IsNonNegativeOrMissing(out[i].importe) &&
      (IsNegative(rows[i]) ==> out[i].importe == Some(0.0)) &&
      (!IsNegative(rows[i]) ==> out[i] == rows[i])
  {
    seq(|rows|, i requires 0 <= i < |rows| => rows[i].(importe := ClampAmount(rows[i].importe)))
  }

  /** With no negative amount, the correction changes nothing (the script skips it). */
  lemma NoNegativesUnchanged(rows: seq<Row>)
    requires Count(IsNegative, rows) == 0
    ensures CorrectNegatives(rows) == rows
  {
    CountZero(IsNegative, rows);
    assert forall i :: 0 <= i < |rows| ==> rows[i] in rows;
  }

  // ---------------------------------------------------------------------
  // Mean imputation

  predicate HasAmount(r: Row) {
    r.importe.Some?
  }

  predicate MissingAmount(r: Row) {
    r.importe.None?
  }

  /** The sum of the present amounts (missing ones are skipped). */
  function AmountSum(rows: seq<Row>): (sum: real) {
    if rows == [] then 0.0
    else (if rows[0].importe.Some? then rows[0].importe.value else 0.0) + AmountSum(rows[1..])
  }

  /** `x` added once per present amount. */
  function PresentTimes(rows: seq<Row>, x: real): (total: real) {
    if rows == [] then 0.0
    else (if rows[0].importe.Some? then x else 0.0) + PresentTimes(rows[1..], x)
  }

  lemma {:induction false} PresentTimesCount(rows: seq<Row>, x: real)
    ensures PresentTimes(rows, x) == (Count(HasAmount, rows) as real) * x
  {
    if rows != [] {
      PresentTimesCount(rows[1..], x);
      var n := Count(HasAmount, rows[1..]) as real;
      assert (n + 1.0) * x == n * x + x;
    }
  }

  lemma {:induction false} AmountSumBetween(rows: seq<Row>, lo: real, hi: real)
    requires forall r :: r in rows && r.importe.Some? ==> lo <= r.importe.value <= hi
    ensures PresentTimes(rows, lo) <= AmountSum(rows) <= PresentTimes(rows, hi)
  {
    if rows != [] {
      assert rows[0] in rows;
      forall r | r in rows[1..] && r.importe.Some?
        ensures lo <= r.importe.value <= hi
      {
        assert r in rows;
      }
      AmountSumBetween(rows[1..], lo, hi);
    }
  }

  lemma AmountSumBounds(rows: seq<Row>, lo: real, hi: real)
    requires forall r :: r in rows && r.importe.Some? ==> lo <= r.importe.value <= hi
    ensures (Count(HasAmount, rows) as real) * lo <= AmountSum(rows) <= (Count(HasAmount, rows) as real) * hi
  {
    AmountSumBetween(rows, lo, hi);
    PresentTimesCount(rows, lo);
    PresentTimesCount(rows, hi);
  }

  lemma QuotientBounds(sum: real, n: real, lo: real, hi: real)
    requires n > 0.0 && n * lo <= sum <= n * hi
    ensures lo <= sum / n <= hi
  {
    assert (sum / n) * n == sum;
  }

  /**
   * Line 59: the mean of the present amounts, the value that times their
   * number gives their sum; None when every amount is missing (pandas gives
   * NaN).
   */
  function MeanAmount(rows: seq<Row>): (m: Option<real>)
    ensures m.Some? <==> exists r :: r in rows && r.importe.Some?
    ensures m.Some? ==> m.value * (Count(HasAmount, rows) as real) == AmountSum(rows)
  {
    CountZero(HasAmount, rows);
    var n := Count(HasAmount, rows);
    if n == 0 then None
    else
      var mean := AmountSum(rows) / (n as real);
      assert mean * (n as real) == AmountSum(rows);
      Some(mean)
  }

  /** The mean exists exactly when some amount is present, and lies between any bounds of the present amounts. */
  lemma MeanBounds(rows: seq<Row>, lo: real, hi: real)
    requires forall r :: r in rows && r.importe.Some? ==> lo <= r.importe.value <= hi
    ensures MeanAmount(rows).Some? <==> exists r :: r in rows && r.importe.Some?
    ensures MeanAmount(rows).Some? ==> lo <= MeanAmount(rows).value <= hi
  {
    CountZero(HasAmount, rows);
    AmountSumBounds(rows, lo, hi);
    var n := Count(HasAmount, rows) as real;
    if n > 0.0 {
      QuotientBounds(AmountSum(rows), n, lo, hi);
    }
  }

  /** The mean of amounts that are all non-negative is non-negative. */
  lemma MeanNonNegative(rows: seq<Row>)
    requires forall r :: r in rows ==> IsNonNegativeOrMissing(r.importe)
    requires exists r :: r in rows && r.importe.Some?
    ensures MeanAmount(rows).Some? && MeanAmount(rows).value >= 0.0
  {
    var hi: real := 0.0;
    var k :| k in rows && k.importe.Some?;
    hi := MaxAmount(rows, k.importe.value);
    MeanBounds(rows, 0.0, hi);
  }

  /** An upper bound of the present amounts, at least `seed`. */
  function MaxAmount(rows: seq<Row>, seed: real): (m: real)
    ensures m >= seed
    ensures forall r :: r in rows && r.importe.Some? ==> r.importe.value <= m
  {
    if rows == [] then seed
    else
      var rest := MaxAmount(rows[1..], seed);
      assert forall r :: r in rows ==> r == rows[0] || r in rows[1..];
      if rows[0].importe.Some? && rows[0].importe.value > rest then rows[0].importe.value else rest
  }

  /** `fillna(m)`: every missing amount becomes `m`; present amounts and other columns stay. */
  function FillAmounts(rows: seq<Row>, m: real): (out: seq<Row>)
    ensures |out| == |rows|
    ensures forall i :: 0 <= i < |rows| ==>
      (rows[i].importe.Some? ==> out[i] == rows[i]) &&
      (rows[i].importe.None? ==> out[i] == rows[i].(importe := Some(m)))
  {
    seq(|rows|, i requires 0 <= i < |rows| => if rows[i].importe.None? then rows[i].(importe := Some(m)) else rows[i])
  }

  /**
   * Lines 58-60: when an amount is missing, fill the missing ones with the
   * mean of the present ones; with no present amount the mean is NaN and
   * filling with NaN changes nothing.
   */
  function ImputeMissing(rows: seq<Row>): (out: seq<Row>)
    ensures |out| == |rows|
    ensures forall i :: 0 <= i < |rows| ==>
      (rows[i].importe.Some? ==> out[i] == rows[i]) &&
      (rows[i].importe.None? ==> out[i] == rows[i].(importe := MeanAmount(rows)))
  {
    CountZero(MissingAmount, rows);
    assert forall i :: 0 <= i < |rows| ==> rows[i] in rows;
    var m := MeanAmount(rows);
    if Count(MissingAmount, rows) > 0 && m.Some? then FillAmounts(rows, m.value) else rows
  }

  /**
   * Lines 46-61: negative correction followed by mean imputation over the
   * corrected amounts; no row is removed and only amounts change.
   */
  function SanitizeAmounts(rows: seq<Row>): (out: seq<Row>)
    ensures |out| == |rows|
    ensures forall i :: 0 <= i < |rows| ==> out[i] == rows[i].(importe := out[i].importe)
  {
    ImputeMissing(CorrectNegatives(rows))
  }

  /**
   * After sanitising, no row is removed and only amounts change; amounts
   * that were non-negative stay; a missing amount takes the mean of the
   * corrected amounts; and, when any amount is present, every amount is
   * present and non-negative.
   */
  lemma SanitizedAmounts(rows: seq<Row>)
    ensures |SanitizeAmounts(rows)| == |rows|
    ensures forall i :: 0 <= i < |rows| ==> SanitizeAmounts(rows)[i] == rows[i].(importe := SanitizeAmounts(rows)[i].importe)
    ensures forall i :: 0 <= i < |rows| && rows[i].importe.Some? && rows[i].importe.value >= 0.0 ==> SanitizeAmounts(rows)[i] == rows[i]
    ensures forall i :: 0 <= i < |rows| && rows[i].importe.None? && MeanAmount(CorrectNegatives(rows)).Some? ==>
      SanitizeAmounts(rows)[i].importe == MeanAmount(CorrectNegatives(rows))
    ensures (exists r :: r in rows && r.importe.Some?) ==>
      forall r :: r in SanitizeAmounts(rows) ==> r.importe.Some? && r.importe.value >= 0.0
  {
    var c := CorrectNegatives(rows);
    var out := SanitizeAmounts(rows);
    CountZero(MissingAmount, c);
    if exists r :: r in rows && r.importe.Some? {
      var r :| r in rows && r.importe.Some?;
      var i :| 0 <= i < |rows| && rows[i] == r;
      assert c[i] in c;
      MeanNonNegative(c);
      forall o | o in out
        ensures o.importe.Some? && o.importe.value >= 0.0
      {
        var j :| 0 <= j < |out| && out[j] == o;
        if c[j].importe.None? {
          assert c[j] in c;
        }
      }
    }
  }

  /** When every amount is missing, every amount stays missing: no mean exists to impute. */
  lemma AllMissingStaysMissing(rows: seq<Row>)
    requires forall r :: r in rows ==> r.importe.None?
    ensures SanitizeAmounts(rows) == rows
  {
    var c := CorrectNegatives(rows);
    assert c == rows;
    CountZero(HasAmount, rows);
  }

  // ---------------------------------------------------------------------
  // Name fill

  predicate MissingName(r: Row) {
    r.nombre.None?
  }

  /** `fillna('Desconocido')` on the name column. */
  function FillNames(rows: seq<Row>): (out: seq<Row>)
    ensures |out| == |rows|
    ensures forall i :: 0 <= i < |rows| ==>
      out[i].nombre.Some? &&
      (rows[i].nombre.None? ==> out[i] == rows[i].(nombre := Some(UNKNOWN_NAME))) &&
      (rows[i].nombre.Some? ==> out[i] == rows[i])
  {
    seq(|rows|, i requires 0 <= i < |rows| =>
      if rows[i].nombre.None? then rows[i].(nombre := Some(UNKNOWN_NAME)) else rows[i])
  }

  /** With no missing name, the fill changes nothing (the script skips it). */
  lemma NoMissingNamesUnchanged(rows: seq<Row>)
    requires Count(MissingName, rows) == 0
    ensures FillNames(rows) == rows
  {
    CountZero(MissingName, rows);
    assert forall i :: 0 <= i < |rows| ==> rows[i] in rows;
  }
}
