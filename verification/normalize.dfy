/**
 * The sale-date normaliser of `integracion_limpieza_datos.py` (the line
 * numbers below are that script's): parse every date, drop the rows whose
 * date is missing or unparsable, keep only 2000-01-01 <= date <= now, and
 * rewrite the survivors' dates as `YYYY-MM-DD`.  The parser is a parameter: it is
 * the element-wise parser the date library settles on for the column.
 */
module Normalize {
  import opened Wrappers
  import opened Dates
  import opened Tables
  import opened Filtering

  /** What the parser makes of a cell: text is parsed, a missing value is "not a time", a timestamp stays. */
  function ParsedAt(c: DateCell, parse: string -> Option<Instant>): (parsed: Option<Instant>) {
    match c
    case Text(Some(t)) => parse(t)
    case Text(None) => None
    case Stamp(x) => x
  }

  /**
   * Line 78: the date column becomes a timestamp column; each cell holds
   * what the parser makes of it and no other column changes.
   */
  function ParseDates(rows: seq<Row>, parse: string -> Option<Instant>): (out: seq<Row>)
    ensures |out| == |rows|
    ensures forall i :: 0 <= i < |rows| ==>
      out[i] == rows[i].(fecha := out[i].fecha) && out[i].fecha == Stamp(ParsedAt(rows[i].fecha, parse))
    ensures forall r :: r in out ==> r.fecha.Stamp?
  {
    seq(|rows|, i requires 0 <= i < |rows| => rows[i].(fecha := Stamp(ParsedAt(rows[i].fecha, parse))))
  }

  /** A missing date cell: missing text or "not a time". */
  predicate IsUndated(r: Row) {
    r.fecha == Text(None) || r.fecha == Stamp(None)
  }

  predicate HasDate(r: Row) {
    !IsUndated(r)
  }

  /**
   * Line 85: `dropna(subset=['fecha_venta'])`: every survivor is a dated
   * input row, and exactly as many rows go as are undated.
   */
  function DropUndated(rows: seq<Row>): (out: seq<Row>)
    ensures forall r :: r in out ==> r in rows && HasDate(r)
    ensures |out| + Count(IsUndated, rows) == |rows|
  {
    FilterCount(HasDate, IsUndated, rows);
    Filter(HasDate, rows)
  }

  /** The row's timestamp lies in [2000-01-01, now]; "not a time" compares false. */
  predicate InRangeRow(r: Row, now: Instant) {
    r.fecha.Stamp? && r.fecha.at.Some? && InRange(r.fecha.at.value, now)
  }

  /** The row's timestamp is before 2000-01-01 or after now; "not a time" compares false. */
  predicate OutOfRangeRow(r: Row, now: Instant) {
    r.fecha.Stamp? && r.fecha.at.Some? &&
    (!InstantLe(MIN_INSTANT, r.fecha.at.value) || !InstantLe(r.fecha.at.value, now))
  }

  function KeepInRange(now: Instant): (keep: Row -> bool) {
    r => InRangeRow(r, now)
  }

  function OutOfRangeAt(now: Instant): (outside: Row -> bool) {
    r => OutOfRangeRow(r, now)
  }

  /**
   * Lines 95-98: when some row is out of range, keep only the rows in range.
   * Survivors are input rows; once every row is dated, every survivor lies
   * in [2000-01-01, now], whether or not the filter ran.
   */
  function RangeStage(rows: seq<Row>, now: Instant): (out: seq<Row>)
    ensures |out| <= |rows|
    ensures forall r :: r in out ==> r in rows
    ensures (forall r :: r in rows ==> r.fecha.Stamp? && r.fecha.at.Some?) ==>
      forall r :: r in out ==> InRangeRow(r, now)
  {
    CountZero(OutOfRangeAt(now), rows);
    if Count(OutOfRangeAt(now), rows) > 0 then Filter(KeepInRange(now), rows) else rows
  }

  /**
   * `.dt.strftime('%Y-%m-%d')`: a timestamp becomes canonical text that
   * reads back as its date; "not a time" becomes missing.
   */
  function FormatCell(c: DateCell): (f: DateCell)
    ensures c.Stamp? && c.at.Some? ==>
      f.Text? && f.text.Some? && IsIsoShape(f.text.value) && ParseIsoDate(f.text.value) == Some(c.at.value.date)
    ensures c == Stamp(None) ==> f == Text(None)
  {
    match c
    case Stamp(Some(t)) => FormatThenParse(t.date); Text(Some(FormatDate(t.date)))
    case Stamp(None) => Text(None)
    case Text(x) => Text(x)
  }

  /**
   * Line 104: every timestamp is rewritten as canonical text of its date;
   * no row is removed and no other column changes.
   */
  function FormatDates(rows: seq<Row>): (out: seq<Row>)
    ensures |out| == |rows|
    ensures forall i :: 0 <= i < |rows| ==> out[i] == rows[i].(fecha := out[i].fecha)
    ensures forall i :: 0 <= i < |rows| && rows[i].fecha.Stamp? && rows[i].fecha.at.Some? ==>
      out[i].fecha.Text? && out[i].fecha.text.Some? && IsIsoShape(out[i].fecha.text.value) &&
      ParseIsoDate(out[i].fecha.text.value) == Some(rows[i].fecha.at.value.date)
  {
    seq(|rows|, i requires 0 <= i < |rows| => rows[i].(fecha := FormatCell(rows[i].fecha)))
  }

  /**
   * Lines 78-104, step by step as the script runs them: never more rows
   * than the input, and every date left is clean.
   */
  function NormalizeDates(rows: seq<Row>, parse: string -> Option<Instant>, now: Instant): (out: seq<Row>)
    ensures |out| <= |rows|
    ensures forall i :: 0 <= i < |out| ==> DateClean(out[i], now)
  {
    var ranged := RangeStage(DropUndated(ParseDates(rows, parse)), now);
    assert forall i :: 0 <= i < |ranged| ==> ranged[i] in ranged;
    FormatDates(ranged)
  }

  // ---------------------------------------------------------------------
  // The same normaliser, one row at a time

  /** What becomes of one row: dropped (None), or kept with its date rewritten. */
  function NormalizeRow(r: Row, parse: string -> Option<Instant>, now: Instant): (kept: Option<Row>) {
    match ParsedAt(r.fecha, parse)
    case None => None
    case Some(t) => if InRange(t, now) then Some(r.(fecha := Text(Some(FormatDate(t.date))))) else None
  }

  function NormalizeEachRow(rows: seq<Row>, parse: string -> Option<Instant>, now: Instant): (normalized: seq<Row>) {
    if rows == [] then []
    else
      Survivor(rows[0], parse, now) + NormalizeEachRow(rows[1..], parse, now)
  }

  /** After parsing and dropping, every row carries a timestamp. */
  lemma DroppedAreStamped(rows: seq<Row>, parse: string -> Option<Instant>)
    ensures forall r :: r in DropUndated(ParseDates(rows, parse)) ==> r.fecha.Stamp? && r.fecha.at.Some?
  {
    var p := ParseDates(rows, parse);
    forall r | r in DropUndated(p)
      ensures r.fecha.Stamp? && r.fecha.at.Some?
    {
      var i :| 0 <= i < |p| && p[i] == r;
    }
  }

  /**
   * Once every row carries a timestamp, the range stage keeps exactly the
   * rows in range, in order, and the out-of-range count it reports is the
   * number of rows it removes.
   */
  lemma RangeStageFilters(rows: seq<Row>, now: Instant)
    requires forall r :: r in rows ==> r.fecha.Stamp? && r.fecha.at.Some?
    ensures RangeStage(rows, now) == Filter(KeepInRange(now), rows)
    ensures |RangeStage(rows, now)| + Count(OutOfRangeAt(now), rows) == |rows|
  {
    FilterCount(KeepInRange(now), OutOfRangeAt(now), rows);
    if Count(OutOfRangeAt(now), rows) == 0 {
      CountZero(OutOfRangeAt(now), rows);
      FilterAllKept(KeepInRange(now), rows);
    }
  }

  function Survivor(r: Row, parse: string -> Option<Instant>, now: Instant): (survivors: seq<Row>) {
    match NormalizeRow(r, parse, now)
    case Some(o) => [o]
    case None => []
  }

  lemma ParseDatesCons(rows: seq<Row>, parse: string -> Option<Instant>)
    requires rows != []
    ensures ParseDates(rows, parse) == ParseDates([rows[0]], parse) + ParseDates(rows[1..], parse)
  {
  }

  lemma FormatDatesAppend(a: seq<Row>, b: seq<Row>)
    ensures FormatDates(a + b) == FormatDates(a) + FormatDates(b)
  {
  }

  lemma SingleRowStages(r: Row, parse: string -> Option<Instant>, now: Instant)
    ensures FormatDates(Filter(KeepInRange(now), DropUndated(ParseDates([r], parse)))) == Survivor(r, parse, now)
  {
    var p := ParseDates([r], parse);
    assert p == [r.(fecha := Stamp(ParsedAt(r.fecha, parse)))];
    assert p[1..] == [];
  }

  lemma {:induction false} StagesPerRow(rows: seq<Row>, parse: string -> Option<Instant>, now: Instant)
    ensures FormatDates(Filter(KeepInRange(now), DropUndated(ParseDates(rows, parse)))) == NormalizeEachRow(rows, parse, now)
  {
    if rows != [] {
      var head, rest := ParseDates([rows[0]], parse), ParseDates(rows[1..], parse);
      ParseDatesCons(rows, parse);
      FilterAppend(HasDate, head, rest);
      FilterAppend(KeepInRange(now), DropUndated(head), DropUndated(rest));
      FormatDatesAppend(Filter(KeepInRange(now), DropUndated(head)), Filter(KeepInRange(now), DropUndated(rest)));
      SingleRowStages(rows[0], parse, now);
      StagesPerRow(rows[1..], parse, now);
      assert NormalizeEachRow(rows, parse, now) == Survivor(rows[0], parse, now) + NormalizeEachRow(rows[1..], parse, now);
    }
  }

  /** The four column-wide steps do to each row exactly what the one-row normaliser does, in order. */
  lemma NormalizeDatesPerRow(rows: seq<Row>, parse: string -> Option<Instant>, now: Instant)
    ensures NormalizeDates(rows, parse, now) == NormalizeEachRow(rows, parse, now)
  {
    DroppedAreStamped(rows, parse);
    RangeStageFilters(DropUndated(ParseDates(rows, parse)), now);
    StagesPerRow(rows, parse, now);
  }

  /** The output rows are exactly the kept rows, each from some input row. */
  lemma {:induction false} EachRowSources(rows: seq<Row>, parse: string -> Option<Instant>, now: Instant)
    ensures forall o :: o in NormalizeEachRow(rows, parse, now) ==> exists r :: r in rows && NormalizeRow(r, parse, now) == Some(o)
    ensures forall r :: r in rows && NormalizeRow(r, parse, now).Some? ==> NormalizeRow(r, parse, now).value in NormalizeEachRow(rows, parse, now)
    ensures |NormalizeEachRow(rows, parse, now)| <= |rows|
  {
    if rows != [] {
      EachRowSources(rows[1..], parse, now);
      assert forall r :: r in rows ==> r == rows[0] || r in rows[1..];
    }
  }

  /** The sale date of a cleaned row: canonical text of a day in [2000-01-01, today]. */
  predicate DateClean(o: Row, now: Instant) {
    o.fecha.Text? && o.fecha.text.Some? && IsIsoShape(o.fecha.text.value) &&
    var d := ParseIsoDate(o.fecha.text.value);
    d.Some? && DateLe(MIN_DATE, d.value) && DateLe(d.value, now.date)
  }

  /** A kept row differs from its source only in the date, which is clean and is the parsed day of the source's date. */
  lemma NormalizedRowClean(r: Row, parse: string -> Option<Instant>, now: Instant)
    requires NormalizeRow(r, parse, now).Some?
    ensures var o := NormalizeRow(r, parse, now).value;
      o == r.(fecha := o.fecha) && DateClean(o, now) &&
      ParsedAt(r.fecha, parse).Some? && InRange(ParsedAt(r.fecha, parse).value, now) &&
      ParseIsoDate(o.fecha.text.value) == Some(ParsedAt(r.fecha, parse).value.date)
  {
    var t := ParsedAt(r.fecha, parse).value;
    FormatThenParse(t.date);
    InRangeDays(t, now);
  }

  /**
   * Normalisation keeps exactly the rows whose date parses to a timestamp
   * in [2000-01-01, now], in their original order, each rewritten as the
   * one-row normaliser says; every date it emits is clean.
   */
  lemma NormalizedDates(rows: seq<Row>, parse: string -> Option<Instant>, now: Instant)
    ensures NormalizeDates(rows, parse, now) == NormalizeEachRow(rows, parse, now)
    ensures |NormalizeDates(rows, parse, now)| <= |rows|
    ensures forall o :: o in NormalizeDates(rows, parse, now) ==>
      DateClean(o, now) && exists r :: r in rows && NormalizeRow(r, parse, now) == Some(o)
    ensures forall r :: r in rows && NormalizeRow(r, parse, now).Some? ==>
      NormalizeRow(r, parse, now).value in NormalizeDates(rows, parse, now)
  {
    NormalizeDatesPerRow(rows, parse, now);
    EachRowSources(rows, parse, now);
    forall o | o in NormalizeDates(rows, parse, now)
      ensures DateClean(o, now)
    {
      var r :| r in rows && NormalizeRow(r, parse, now) == Some(o);
      NormalizedRowClean(r, parse, now);
    }
  }

  /** The unparsable-date drop removes exactly the undated rows, keeps order, and its count is the number removed. */
  lemma DropUndatedExactly(rows: seq<Row>)
    ensures forall r :: r in DropUndated(rows) <==> r in rows && HasDate(r)
    ensures |DropUndated(rows)| + Count(IsUndated, rows) == |rows|
    ensures forall a, b :: DropUndated(a + b) == DropUndated(a) + DropUndated(b)
  {
    forall r | r in rows && HasDate(r)
      ensures r in DropUndated(rows)
    {
      FilterKeepsAccepted(HasDate, rows, r);
    }
    FilterCount(HasDate, IsUndated, rows);
    forall a, b
      ensures DropUndated(a + b) == DropUndated(a) + DropUndated(b)
    {
      FilterAppend(HasDate, a, b);
    }
  }

  // ---------------------------------------------------------------------
  // Idempotence

  /** The parser reads canonical `YYYY-MM-DD` text as that day at midnight. */
  ghost predicate ReadsIso(parse: string -> Option<Instant>) {
    forall s :: ParseIsoDate(s).Some? ==> parse(s) == Some(Midnight(ParseIsoDate(s).value))
  }

  lemma RowIdempotent(r: Row, parse: string -> Option<Instant>, now: Instant)
    requires ReadsIso(parse) && NormalizeRow(r, parse, now).Some?
    ensures NormalizeRow(NormalizeRow(r, parse, now).value, parse, now) == NormalizeRow(r, parse, now)
  {
    var t := ParsedAt(r.fecha, parse).value;
    FormatThenParse(t.date);
    InRangeDays(t, now);
    MidnightInRange(t.date, now);
  }

  lemma {:induction false} EachRowIdempotent(rows: seq<Row>, parse: string -> Option<Instant>, now: Instant)
    requires ReadsIso(parse)
    ensures NormalizeEachRow(NormalizeEachRow(rows, parse, now), parse, now) == NormalizeEachRow(rows, parse, now)
  {
    if rows != [] {
      var tail := NormalizeEachRow(rows[1..], parse, now);
      EachRowIdempotent(rows[1..], parse, now);
      match NormalizeRow(rows[0], parse, now)
      case None =>
        assert NormalizeEachRow(rows, parse, now) == tail;
      case Some(o) =>
        RowIdempotent(rows[0], parse, now);
        assert ([o] + tail)[0] == o && ([o] + tail)[1..] == tail;
    }
  }

  /**
   * With a parser that reads canonical dates back, normalising the
   * normaliser's output changes nothing: formatting is idempotent and no
   * further row is dropped.
   */
  lemma NormalizeIdempotent(rows: seq<Row>, parse: string -> Option<Instant>, now: Instant)
    requires ReadsIso(parse)
    ensures NormalizeDates(NormalizeDates(rows, parse, now), parse, now) == NormalizeDates(rows, parse, now)
  {
    NormalizeDatesPerRow(rows, parse, now);
    NormalizeDatesPerRow(NormalizeDates(rows, parse, now), parse, now);
    EachRowIdempotent(rows, parse, now);
  }
}
