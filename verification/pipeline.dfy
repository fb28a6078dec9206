/**
 * The cleaning script `integracion_limpieza_datos.py` (the line numbers
 * below are that script's): merge, then repair and normalise the merged
 * table in place, each block guarded by the presence of its column.
 */
module Pipeline {
  import opened Wrappers
  import opened Dates
  import opened Tables
  import opened Filtering
  import opened Join
  import opened Repair
  import opened Normalize

  /** Lines 46-69: the amount and name repairs, each guarded by its column; no row is removed and only amounts and names change. */
  function RepairRows(columns: set<string>, rows: seq<Row>): (out: seq<Row>)
    ensures |out| == |rows|
    ensures forall i :: 0 <= i < |rows| ==> out[i] == rows[i].(importe := out[i].importe, nombre := out[i].nombre)
    ensures AMOUNT_COLUMN !in columns ==> forall i :: 0 <= i < |rows| ==> out[i].importe == rows[i].importe
    ensures NAME_COLUMN !in columns ==> forall i :: 0 <= i < |rows| ==> out[i].nombre == rows[i].nombre
  {
    var amounts := if AMOUNT_COLUMN in columns then SanitizeAmounts(rows) else rows;
    if NAME_COLUMN in columns then FillNames(amounts) else amounts
  }

  /**
   * Lines 46-105 as one function of the merged rows: never more rows than
   * merged, every date clean when the date column is present, and the rows
   * left untouched when no guarded column is.
   */
  function CleanRows(columns: set<string>, rows: seq<Row>, parse: string -> Option<Instant>, now: Instant): (out: seq<Row>)
    ensures |out| <= |rows|
    ensures DATE_COLUMN in columns ==> forall i :: 0 <= i < |out| ==> DateClean(out[i], now)
    ensures AMOUNT_COLUMN !in columns && NAME_COLUMN !in columns && DATE_COLUMN !in columns ==> out == rows
  {
    var repaired := RepairRows(columns, rows);
    if DATE_COLUMN in columns then NormalizeDates(repaired, parse, now) else repaired
  }

  predicate AmountClean(r: Row) {
    r.importe.Some? && r.importe.value >= 0.0
  }

  predicate NameClean(r: Row) {
    r.nombre.Some?
  }

  /** The repairs keep every row, change only amounts and names, and leave them clean. */
  lemma RepairedInvariants(columns: set<string>, rows: seq<Row>)
    ensures |RepairRows(columns, rows)| == |rows|
    ensures forall i :: 0 <= i < |rows| ==> SamePassThrough(rows[i], RepairRows(columns, rows)[i])
    ensures AMOUNT_COLUMN in columns && (exists r :: r in rows && r.importe.Some?) ==>
      forall o :: o in RepairRows(columns, rows) ==> AmountClean(o)
    ensures NAME_COLUMN in columns ==> forall o :: o in RepairRows(columns, rows) ==> NameClean(o)
  {
    var amounts := if AMOUNT_COLUMN in columns then SanitizeAmounts(rows) else rows;
    var names := RepairRows(columns, rows);
    SanitizedAmounts(rows);
    if AMOUNT_COLUMN in columns && exists r :: r in rows && r.importe.Some? {
      assert forall a :: a in amounts ==> AmountClean(a);
      forall n | n in names
        ensures AmountClean(n)
      {
        var i :| 0 <= i < |names| && names[i] == n;
        assert amounts[i] in amounts;
      }
    }
  }

  /**
   * The invariants of the cleaned table: never more rows than merged; an
   * amount present and non-negative (when the merged table had any amount);
   * a name present; a canonical date in [2000-01-01, today]; and every row
   * descends from a merged row whose pass-through columns it keeps.
   */
  lemma CleanedInvariants(columns: set<string>, rows: seq<Row>, parse: string -> Option<Instant>, now: Instant)
    ensures |CleanRows(columns, rows, parse, now)| <= |rows|
    ensures AMOUNT_COLUMN in columns && (exists r :: r in rows && r.importe.Some?) ==>
      forall o :: o in CleanRows(columns, rows, parse, now) ==> AmountClean(o)
    ensures NAME_COLUMN in columns ==> forall o :: o in CleanRows(columns, rows, parse, now) ==> NameClean(o)
    ensures DATE_COLUMN in columns ==> forall o :: o in CleanRows(columns, rows, parse, now) ==> DateClean(o, now)
    ensures forall o :: o in CleanRows(columns, rows, parse, now) ==> exists r :: r in rows && SamePassThrough(r, o)
  {
    RepairedInvariants(columns, rows);
    if DATE_COLUMN in columns {
      NormalizedDates(RepairRows(columns, rows), parse, now);
    }
    CleanedDescend(columns, rows, parse, now);
  }

  /** Every cleaned row keeps the pass-through columns of some merged row. */
  lemma CleanedDescend(columns: set<string>, rows: seq<Row>, parse: string -> Option<Instant>, now: Instant)
    ensures forall o :: o in CleanRows(columns, rows, parse, now) ==> exists r :: r in rows && SamePassThrough(r, o)
  {
    var repaired := RepairRows(columns, rows);
    if DATE_COLUMN in columns {
      NormalizedDates(repaired, parse, now);
    }
    forall o | o in CleanRows(columns, rows, parse, now)
      ensures exists r :: r in rows && SamePassThrough(r, o)
    {
      var n: Row;
      if DATE_COLUMN in columns {
        n :| n in repaired && NormalizeRow(n, parse, now) == Some(o);
      } else {
        n := o;
      }
      var i :| 0 <= i < |repaired| && repaired[i] == n;
      assert rows[i] in rows;
    }
  }

  /**
   * With the amount column present but every amount missing, the cleaned
   * amounts stay missing: pandas' mean of no values is NaN and filling
   * with NaN changes nothing.
   */
  lemma AllMissingAmountsStayMissing(columns: set<string>, rows: seq<Row>, parse: string -> Option<Instant>, now: Instant)
    requires AMOUNT_COLUMN in columns && forall r :: r in rows ==> r.importe.None?
    ensures forall o :: o in CleanRows(columns, rows, parse, now) ==> o.importe.None?
  {
    AllMissingStaysMissing(rows);
    var names := RepairRows(columns, rows);
    assert forall n :: n in names ==> n.importe.None?;
    if DATE_COLUMN in columns {
      NormalizedDates(names, parse, now);
    }
  }

  /** The counts the script reports as it goes. */
  datatype Report = Report(
    negativesCorrected: nat,
    imputedMean: Option<real>,
    namesFilled: nat,
    unparsableDropped: nat,
    outOfRangeDropped: nat)

  /** The report of a run in which no guarded column is present. */
  const NO_REPORT: Report := Report(0, None, 0, 0, 0)

  /**
   * What the script prints while cleaning the merged rows (lines 54, 61, 67,
   * 86 and 99), each count taken from the table as it is when its block
   * runs, and zero or no mean when that block's column is absent.  With the
   * date column present the two drop counts add up to the rows removed.
   */
  function CleanReport(columns: set<string>, rows: seq<Row>, parse: string -> Option<Instant>, now: Instant): (r: Report)
    ensures AMOUNT_COLUMN !in columns ==> r.negativesCorrected == 0 && r.imputedMean == None
    ensures NAME_COLUMN !in columns ==> r.namesFilled == 0
    ensures DATE_COLUMN !in columns ==> r.unparsableDropped == 0 && r.outOfRangeDropped == 0
    ensures r.imputedMean.Some? ==> exists o :: o in rows && o.importe.None?
    ensures DATE_COLUMN in columns ==>
      |CleanRows(columns, rows, parse, now)| + r.unparsableDropped + r.outOfRangeDropped == |rows|
  {
    var corrected := CorrectNegatives(rows);
    var amounts := if AMOUNT_COLUMN in columns then SanitizeAmounts(rows) else rows;
    var parsed := ParseDates(RepairRows(columns, rows), parse);
    var dated := DropUndated(parsed);
    DroppedAreStamped(RepairRows(columns, rows), parse);
    RangeStageFilters(dated, now);
    CountZero(MissingAmount, corrected);
    assert forall i :: 0 <= i < |rows| ==> corrected[i] in corrected;
    Report(
      if AMOUNT_COLUMN in columns then Count(IsNegative, rows) else 0,
      if AMOUNT_COLUMN in columns && Count(MissingAmount, corrected) > 0 then MeanAmount(corrected) else None,
      if NAME_COLUMN in columns then Count(MissingName, amounts) else 0,
      if DATE_COLUMN in columns then Count(IsUndated, parsed) else 0,
      if DATE_COLUMN in columns then Count(OutOfRangeAt(now), dated) else 0)
  }

  /** The merged table, changed in place by the cleaning steps. */
  class MergedFrame {
    const columns: set<string>
    var rows: seq<Row>

    constructor (t: Table<Row>)
      ensures columns == t.columns && rows == t.rows
    {
      columns := t.columns;
      rows := t.rows;
    }

    /** Lines 51-53: overwrite negative amounts with 0 and report how many there were. */
    method CorrectNegativeAmounts() returns (corrected: nat)
      modifies this
      ensures rows == CorrectNegatives(old(rows))
      ensures corrected == Count(IsNegative, old(rows))
    {
      corrected := Count(IsNegative, rows);
      if corrected > 0 {
        rows := CorrectNegatives(rows);
      } else {
        NoNegativesUnchanged(rows);
      }
    }

    /** Lines 58-60: when an amount is missing, fill the missing amounts with the mean of the present ones. */
    method ImputeMissingAmounts() returns (mean: Option<real>)
      modifies this
      ensures rows == ImputeMissing(old(rows))
      ensures mean == if Count(MissingAmount, old(rows)) > 0 then MeanAmount(old(rows)) else None
    {
      mean := None;
      if Count(MissingAmount, rows) > 0 {
        mean := MeanAmount(rows);
        if mean.Some? {
          rows := FillAmounts(rows, mean.value);
        }
      }
    }

    /** Lines 66-68: fill missing names with "Desconocido" and report how many there were. */
    method FillMissingNames() returns (filled: nat)
      modifies this
      ensures rows == FillNames(old(rows))
      ensures filled == Count(MissingName, old(rows))
    {
      filled := Count(MissingName, rows);
      if filled > 0 {
        rows := FillNames(rows);
      } else {
        NoMissingNamesUnchanged(rows);
      }
    }

    /** Line 78: parse the date column; unparsable values become "not a time". */
    method ParseDateColumn(parse: string -> Option<Instant>)
      modifies this
      ensures rows == ParseDates(old(rows), parse)
    {
      rows := ParseDates(rows, parse);
    }

    /** Lines 81-85: drop the rows whose date is missing and report how many. */
    method DropUnparsableDates() returns (removed: nat)
      modifies this
      ensures rows == DropUndated(old(rows))
      ensures removed == Count(IsUndated, old(rows)) && |rows| + removed == |old(rows)|
    {
      DropUndatedExactly(rows);
      removed := Count(IsUndated, rows);
      if removed > 0 {
        rows := DropUndated(rows);
      } else {
        CountZero(IsUndated, rows);
        FilterAllKept(HasDate, rows);
      }
    }

    /** Lines 90-98: count the rows outside [2000-01-01, now] and, if any, keep only the rows inside. */
    method FilterDateRange(now: Instant) returns (removed: nat)
      modifies this
      ensures rows == RangeStage(old(rows), now)
      ensures removed == Count(OutOfRangeAt(now), old(rows))
    {
      removed := Count(OutOfRangeAt(now), rows);
      if removed > 0 {
        rows := Filter(KeepInRange(now), rows);
      }
    }

    /** Line 104: rewrite every date as `YYYY-MM-DD`. */
    method FormatDateColumn()
      modifies this
      ensures rows == FormatDates(old(rows))
    {
      rows := FormatDates(rows);
    }

    /** Lines 46-105: the repair and normalisation blocks, each guarded by its column. */
    method Clean(parse: string -> Option<Instant>, now: Instant) returns (report: Report)
      modifies this
      ensures rows == CleanRows(columns, old(rows), parse, now)
      ensures report == CleanReport(columns, old(rows), parse, now)
      ensures |rows| + report.unparsableDropped + report.outOfRangeDropped == |old(rows)|
    {
      report := NO_REPORT;
      if AMOUNT_COLUMN in columns {
        var corrected := CorrectNegativeAmounts();
        var mean := ImputeMissingAmounts();
        report := report.(negativesCorrected := corrected, imputedMean := mean);
      }
      assert |rows| == |old(rows)|;
      if NAME_COLUMN in columns {
        var filled := FillMissingNames();
        report := report.(namesFilled := filled);
      }
      if DATE_COLUMN in columns {
        ParseDateColumn(parse);
        var unparsable := DropUnparsableDates();
        ghost var dated := rows;
        RangeStageFilters(dated, now);
        var outOfRange := FilterDateRange(now);
        FormatDateColumn();
        report := report.(unparsableDropped := unparsable, outOfRangeDropped := outOfRange);
      }
    }
  }

  /**
   * Lines 24-105: merge on `cliente_id` (failing, before any repair, when
   * either table lacks it) and clean the merged table; the result satisfies
   * the cleaned-table invariants.
   */
  method RunPipeline(sales: Table<SaleRow>, customers: Table<CustomerRow>, parse: string -> Option<Instant>, now: Instant)
    returns (result: Result<Table<Row>, JoinError>, report: Report)
    ensures result.Failure? <==> KEY_COLUMN !in sales.columns || KEY_COLUMN !in customers.columns
    ensures result.Failure? ==> report == NO_REPORT
    ensures result.Success? ==>
      report == CleanReport(result.value.columns, InnerJoin(sales.rows, customers.rows), parse, now)
    ensures result.Success? ==>
      var merged := InnerJoin(sales.rows, customers.rows);
      var out := result.value.rows;
      result.value.columns == sales.columns + customers.columns &&
      out == CleanRows(result.value.columns, merged, parse, now) &&
      |out| <= |merged| &&
      (AMOUNT_COLUMN in sales.columns && (exists r :: r in merged && r.importe.Some?) ==> forall o :: o in out ==> AmountClean(o)) &&
      (NAME_COLUMN in customers.columns ==> forall o :: o in out ==> NameClean(o)) &&
      (DATE_COLUMN in sales.columns ==> forall o :: o in out ==> DateClean(o, now))
  {
    match Merge(sales, customers)
    case Failure(e) =>
      result := Failure(e);
      report := NO_REPORT;
    case Success(merged) =>
      var frame := new MergedFrame(merged);
      report := frame.Clean(parse, now);
      CleanedInvariants(merged.columns, merged.rows, parse, now);
      result := Success(Table(frame.columns, frame.rows));
  }
}
