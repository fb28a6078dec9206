/** Worked examples: what the model of the cleaning script computes on small tables, proved as lemmas. */
module Scenarios {
  import opened Wrappers
  import opened Dates
  import opened Tables
  import opened Filtering
  import opened Join
  import opened Repair
  import opened Normalize
  import opened Pipeline

  /** A parser that accepts exactly the canonical `YYYY-MM-DD` strings, at midnight. */
  function IsoParser(s: string): (r: Option<Instant>)
    ensures ParseIsoDate(s).Some? ==> r == Some(Midnight(ParseIsoDate(s).value))
    ensures ParseIsoDate(s).None? ==> r.None?
  {
    match ParseIsoDate(s)
    case Some(d) => Some(Midnight(d))
    case None => None
  }

  const NOW: Instant := Timestamp(Date(2026, 10, 11), 12 * 3600 * 1_000_000_000)

  lemma IsoParserReadsIso()
    ensures ReadsIso(IsoParser)
  {
  }

  lemma ReadsCanonical(d: CalendarDate, s: string)
    requires FormatDate(d) == s
    ensures IsoParser(s) == Some(Midnight(d))
  {
    FormatThenParse(d);
  }

  lemma PadYear(y: nat, text: string)
    requires 1000 <= y <= 9999 && |text| == 4
    requires text[0] == DigitChar(y / 1000) && text[1] == DigitChar(y / 100 % 10)
    requires text[2] == DigitChar(y / 10 % 10) && text[3] == DigitChar(y % 10)
    ensures PadDigits(y, 4) == text
  {
    assert y / 10 / 10 / 10 / 10 == 0;
    assert PadDigits(y / 10 / 10 / 10, 1) == [text[0]];
    assert PadDigits(y / 10 / 10, 2) == text[..2];
    assert PadDigits(y / 10, 3) == text[..3];
  }

  lemma PadTwo(v: nat, text: string)
    requires v < 100 && |text| == 2 && text[0] == DigitChar(v / 10) && text[1] == DigitChar(v % 10)
    ensures PadDigits(v, 2) == text
  {
    assert v / 10 / 10 == 0;
    assert PadDigits(v / 10, 1) == [text[0]];
  }

  lemma Format20210501()
    ensures FormatDate(Date(2021, 5, 1)) == "2021-05-01"
  {
    PadYear(2021, "2021");
    PadTwo(5, "05");
    PadTwo(1, "01");
  }

  lemma Format19990101()
    ensures FormatDate(Date(1999, 1, 1)) == "1999-01-01"
  {
    PadYear(1999, "1999");
    PadTwo(1, "01");
  }

  lemma Format20990101()
    ensures FormatDate(Date(2099, 1, 1)) == "2099-01-01"
  {
    PadYear(2099, "2099");
    PadTwo(1, "01");
  }

  /** Month 13 does not exist: the text does not parse. */
  lemma Month13Unparsable()
    ensures IsoParser("2022-13-40") == None
  {
    var s := "2022-13-40";
    assert s[5..7] == "13";
    assert DigitsValue("13") == 13 by {
      assert "13"[..1] == "1";
    }
  }

  const SALES: seq<SaleRow> := [SaleRow(Some(1), Some(-5.0), Some("2022-13-40"), map[]), SaleRow(Some(2), None, Some("2021-05-01"), map[])]
  const CUSTOMERS: seq<CustomerRow> := [CustomerRow(Some(1), None, map[]), CustomerRow(Some(2), Some("Ana"), map[])]
  const ALL_COLUMNS: set<string> := {KEY_COLUMN, AMOUNT_COLUMN, DATE_COLUMN, NAME_COLUMN}
  const ROW1: Row := Row(Some(1), Some(-5.0), Text(Some("2022-13-40")), map[], None, map[])
  const ROW2: Row := Row(Some(2), None, Text(Some("2021-05-01")), map[], Some("Ana"), map[])

  lemma ScenarioMerge()
    ensures InnerJoin(SALES, CUSTOMERS) == [ROW1, ROW2]
  {
    assert PairsFrom(SALES, CUSTOMERS, 2, 0) == [];
    assert PairsFrom(SALES, CUSTOMERS, 1, 2) == [];
    assert PairsFrom(SALES, CUSTOMERS, 1, 1) == [(1, 1)];
    assert PairsFrom(SALES, CUSTOMERS, 1, 0) == [(1, 1)];
    assert PairsFrom(SALES, CUSTOMERS, 0, 2) == [(1, 1)];
    assert PairsFrom(SALES, CUSTOMERS, 0, 1) == [(1, 1)];
    assert MatchingPairs(SALES, CUSTOMERS) == [(0, 0), (1, 1)];
  }

  lemma ScenarioRepair()
    ensures RepairRows(ALL_COLUMNS, [ROW1, ROW2]) ==
      [ROW1.(importe := Some(0.0), nombre := Some(UNKNOWN_NAME)), ROW2.(importe := Some(0.0))]
  {
    var corrected := CorrectNegatives([ROW1, ROW2]);
    assert corrected == [ROW1.(importe := Some(0.0)), ROW2];
    assert Count(HasAmount, corrected) == 1 && AmountSum(corrected) == 0.0 by {
      assert corrected[1..] == [ROW2] && corrected[1..][1..] == [];
      assert AmountSum(corrected[1..]) == 0.0;
    }
    assert Count(MissingAmount, corrected) == 1 by {
      assert corrected[1..] == [ROW2] && corrected[1..][1..] == [];
    }
  }

  lemma ScenarioNormalize()
    ensures NormalizeDates([ROW1.(importe := Some(0.0), nombre := Some(UNKNOWN_NAME)), ROW2.(importe := Some(0.0))], IsoParser, NOW) ==
      [Row(Some(2), Some(0.0), Text(Some("2021-05-01")), map[], Some("Ana"), map[])]
  {
    var rows := [ROW1.(importe := Some(0.0), nombre := Some(UNKNOWN_NAME)), ROW2.(importe := Some(0.0))];
    Month13Unparsable();
    Format20210501();
    ReadsCanonical(Date(2021, 5, 1), "2021-05-01");
    assert NormalizeRow(rows[0], IsoParser, NOW) == None;
    assert NormalizeRow(rows[1], IsoParser, NOW) == Some(rows[1]);
    assert rows[1..][1..] == [];
    NormalizeDatesPerRow(rows, IsoParser, NOW);
  }

  /**
   * Sale 1 (amount -5, date "2022-13-40") and sale 2 (amount missing, date
   * "2021-05-01") against customers 1 (no name) and 2 ("Ana"): sale 1's
   * amount is corrected to 0 and then its row is dropped for its
   * unparsable date; sale 2 takes the mean 0 of the corrected amounts,
   * keeps the name "Ana" and the date "2021-05-01".
   */
  lemma TwoSalesScenario()
    ensures CleanRows(ALL_COLUMNS, InnerJoin(SALES, CUSTOMERS), IsoParser, NOW) ==
      [Row(Some(2), Some(0.0), Text(Some("2021-05-01")), map[], Some("Ana"), map[])]
  {
    ScenarioMerge();
    ScenarioRepair();
    ScenarioNormalize();
  }

  /** A sale dated 1999-01-01 parses but falls before 2000-01-01 and is dropped. */
  lemma TooOldDropped(r: Row)
    requires r.fecha == Text(Some("1999-01-01"))
    ensures NormalizeDates([r], IsoParser, NOW) == []
  {
    Format19990101();
    ReadsCanonical(Date(1999, 1, 1), "1999-01-01");
    assert NormalizeRow(r, IsoParser, NOW) == None;
    NormalizeDatesPerRow([r], IsoParser, NOW);
  }

  /** A sale dated 2099-01-01 lies after the run date and is dropped. */
  lemma FutureDropped(r: Row)
    requires r.fecha == Text(Some("2099-01-01"))
    ensures NormalizeDates([r], IsoParser, NOW) == []
  {
    Format20990101();
    ReadsCanonical(Date(2099, 1, 1), "2099-01-01");
    assert NormalizeRow(r, IsoParser, NOW) == None;
    NormalizeDatesPerRow([r], IsoParser, NOW);
  }

  /** Two customers sharing an identifier turn one sale into two merged rows. */
  lemma DuplicateCustomerMultiplies(s: SaleRow, c1: CustomerRow, c2: CustomerRow)
    requires c1.clienteId == s.clienteId && c2.clienteId == s.clienteId
    ensures InnerJoin([s], [c1, c2]) == [Combine(s, c1), Combine(s, c2)]
  {
    var sales, customers := [s], [c1, c2];
    assert PairsFrom(sales, customers, 1, 0) == [];
    assert PairsFrom(sales, customers, 0, 2) == [];
    assert PairsFrom(sales, customers, 0, 1) == [(0, 1)];
    assert MatchingPairs(sales, customers) == [(0, 0), (0, 1)];
  }

  /** Missing identifiers match each other in the merge. */
  lemma MissingKeysMatch(s: SaleRow, c: CustomerRow)
    requires s.clienteId == None && c.clienteId == None
    ensures InnerJoin([s], [c]) == [Combine(s, c)]
  {
    assert PairsFrom([s], [c], 1, 0) == [];
    assert PairsFrom([s], [c], 0, 1) == [];
    assert MatchingPairs([s], [c]) == [(0, 0)];
  }
}
