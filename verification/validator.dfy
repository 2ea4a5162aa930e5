/** Aggregate validation of the merged rows before indicators are computed. */
module Validator {
  import opened Values

  datatype ValidationSummary = ValidationSummary(
    totalRows: nat,
    validRows: nat,
    invalidRows: int,
    missingTicker: nat,
    missingPrice: nat,
    completenessRatio: real)

  /** `DataValidationError`: every merged row lacks a ticker or a price. */
  datatype ValidationError = AllRowsInvalid

  /** `row.get(key) in (None, "", "nan")`. */
  predicate IsMissing(row: Row, key: string)
  {
    var v := Get(row, key);
    v == Null || v == Str("") || v == Str("nan")
  }

  /** Which counter a row lands in: the ticker is checked before the price. */
  datatype Verdict = NoTicker | NoPrice | Complete

  function Classify(row: Row): (d: Verdict)
    ensures d == NoTicker <==> IsMissing(row, "ticker_symbol")
    ensures d == NoPrice <==> !IsMissing(row, "ticker_symbol") && IsMissing(row, "stock_price")
  {
    if IsMissing(row, "ticker_symbol") then NoTicker
    else if IsMissing(row, "stock_price") then NoPrice
    else Complete
  }

  /** How many of `rows` classify as `d`. */
  function CountVerdict(rows: seq<Row>, d: Verdict): (n: nat)
    ensures n <= |rows|
  {
    if |rows| == 0 then 0
    else CountVerdict(rows[..|rows| - 1], d) + (if Classify(rows[|rows| - 1]) == d then 1 else 0)
  }

  function CountMissingTicker(rows: seq<Row>): nat { CountVerdict(rows, NoTicker) }

  function CountMissingPrice(rows: seq<Row>): nat { CountVerdict(rows, NoPrice) }

  function CountValid(rows: seq<Row>): nat { CountVerdict(rows, Complete) }

  /** `valid / total`, 0.0 for no rows. */
  function Ratio(valid: nat, total: nat): (q: real)
    requires valid <= total
    ensures 0.0 <= q <= 1.0
    ensures total == 0 ==> q == 0.0
    ensures total > 0 ==> q * total as real == valid as real
    ensures total > 0 ==> (q == 1.0 <==> valid == total)
  {
    if total > 0 then
      var q := valid as real / total as real;
      assert q * total as real == valid as real;
      assert q == 1.0 ==> valid as real == total as real;
      q
    else 0.0
  }

  /** `validate_merged_rows`. */
  method ValidateMergedRows(rows: seq<Row>) returns (r: Result<ValidationSummary, ValidationError>)
    ensures r.Failure? <==> |rows| > 0 && CountValid(rows) == 0
    ensures r.Success? ==>
              && r.value.totalRows == |rows|
              && r.value.validRows == CountValid(rows)
              && r.value.missingTicker == CountMissingTicker(rows)
              && r.value.missingPrice == CountMissingPrice(rows)
              && r.value.invalidRows == |rows| - CountValid(rows)
              && r.value.completenessRatio == Ratio(CountValid(rows), |rows|)
  {
    var total := |rows|;
    var missingTicker, missingPrice, valid := 0, 0, 0;
    var i := 0;
    while i < |rows|
      invariant 0 <= i <= |rows|
      invariant missingTicker == CountVerdict(rows[..i], NoTicker)
      invariant missingPrice == CountVerdict(rows[..i], NoPrice)
      invariant valid == CountVerdict(rows[..i], Complete)
    {
      var row := rows[i];
      assert rows[..i + 1][..i] == rows[..i];
      if IsMissing(row, "ticker_symbol") {
        missingTicker := missingTicker + 1;
      } else if IsMissing(row, "stock_price") {
        missingPrice := missingPrice + 1;
      } else {
        valid := valid + 1;
      }
      i := i + 1;
    }
    assert rows[..|rows|] == rows;
    var invalid := total - valid;
    if total > 0 && valid == 0 {
      return Failure(AllRowsInvalid);
    }
    var ratio := if total > 0 then valid as real / total as real else 0.0;
    r := Success(ValidationSummary(total, valid, invalid, missingTicker, missingPrice, ratio));
  }

  /** Each row lands in exactly one of the three counters. */
  lemma {:induction false} CountsPartition(rows: seq<Row>)
    ensures CountValid(rows) + CountMissingTicker(rows) + CountMissingPrice(rows) == |rows|
  {
    if |rows| > 0 {
      CountsPartition(rows[..|rows| - 1]);
    }
  }

  /** A row with neither ticker nor price counts only as missing a ticker. */
  lemma TickerCheckedFirst(row: Row)
    requires IsMissing(row, "ticker_symbol") && IsMissing(row, "stock_price")
    ensures CountMissingTicker([row]) == 1 && CountMissingPrice([row]) == 0 && CountValid([row]) == 0
  {
    assert [row][..0] == [];
  }

  /** Rows that each carry a ticker and a price are all valid. */
  lemma {:induction false} AllPresentAllValid(rows: seq<Row>)
    requires forall k :: 0 <= k < |rows| ==> !IsMissing(rows[k], "ticker_symbol") && !IsMissing(rows[k], "stock_price")
    ensures CountValid(rows) == |rows|
    ensures CountMissingTicker(rows) == 0 && CountMissingPrice(rows) == 0
  {
    if |rows| > 0 {
      var init := rows[..|rows| - 1];
      assert forall k :: 0 <= k < |init| ==> init[k] == rows[k];
      AllPresentAllValid(init);
    }
  }

  /** The three-row example: KCB, EQTY and SCOM with prices. */
  lemma ThreeValidRows()
    ensures var rows := [
              map["ticker_symbol" := Str("KCB"), "stock_price" := Num(21.95)],
              map["ticker_symbol" := Str("EQTY"), "stock_price" := Num(34.2)],
              map["ticker_symbol" := Str("SCOM"), "stock_price" := Num(19.45)]];
            CountValid(rows) == 3 && |rows| - CountValid(rows) == 0
            && CountValid(rows) as real / |rows| as real == 1.0
  {
    var rows := [
      map["ticker_symbol" := Str("KCB"), "stock_price" := Num(21.95)],
      map["ticker_symbol" := Str("EQTY"), "stock_price" := Num(34.2)],
      map["ticker_symbol" := Str("SCOM"), "stock_price" := Num(19.45)]];
    AllPresentAllValid(rows);
  }
}
