/** Merging the current stock rows with the current analysis rows on the
    trimmed ticker symbol. The reference functions and the loops are written
    for any key function `tickerOf`; the pipeline uses `TickerOf`. The
    dictionary keyed by ticker is modelled by its key order (`order`, Python's insertion order) and its contents
    (`byTicker`). */
module Fetcher {
  import opened Values

  // ---------------------------------------------------------------------
  // Reference functions

  /** Distinct tickers in order of first appearance; a ticker already
      present keeps its place, as a Python dict key does when reassigned. */
  function Order(tickerOf: Row -> string, rows: seq<Row>): (order: seq<string>)
    ensures forall t :: t in order ==> t != ""
  {
    if |rows| == 0 then []
    else
      var prev := Order(tickerOf, rows[..|rows| - 1]);
      var t := tickerOf(rows[|rows| - 1]);
      if t == "" || t in prev then prev else prev + [t]
  }

  predicate Distinct(s: seq<string>)
  {
    forall i, j :: 0 <= i < j < |s| ==> s[i] != s[j]
  }

  /** The stock row a ticker starts from: the last stock row carrying it,
      or the empty dict. */
  function StockBase(tickerOf: Row -> string, rows: seq<Row>, t: string): Row
  {
    if |rows| == 0 then map[]
    else if tickerOf(rows[|rows| - 1]) == t then rows[|rows| - 1]
    else StockBase(tickerOf, rows[..|rows| - 1], t)
  }

  /** `merged.update(row)` for each analysis row carrying ticker `t`, in order. */
  function Overlay(tickerOf: Row -> string, base: Row, rows: seq<Row>, t: string): Row
  {
    if |rows| == 0 then base
    else
      var m := Overlay(tickerOf, base, rows[..|rows| - 1], t);
      if tickerOf(rows[|rows| - 1]) == t then m + rows[|rows| - 1] else m
  }

  /** The merged row of one ticker. */
  function MergedRow(tickerOf: Row -> string, stockRows: seq<Row>, analysisRows: seq<Row>, t: string): Row
  {
    Overlay(tickerOf, StockBase(tickerOf, stockRows, t), analysisRows, t)
  }

  /** What `merge_current_data` returns. */
  function Merge(tickerOf: Row -> string, stockRows: seq<Row>, analysisRows: seq<Row>): seq<Row>
  {
    var order := Order(tickerOf, stockRows + analysisRows);
    seq(|order|, i requires 0 <= i < |order| => MergedRow(tickerOf, stockRows, analysisRows, order[i]))
  }

  // ---------------------------------------------------------------------
  // The merge itself

  /** `DataFetcher.merge_current_data`: rows are keyed by their trimmed
      `ticker_symbol`. */
  method MergeCurrentData(stockRows: seq<Row>, analysisRows: seq<Row>) returns (merged: seq<Row>)
    ensures merged == Merge(TickerOf, stockRows, analysisRows)
  {
    merged := MergeOn(TickerOf, stockRows, analysisRows);
  }

  /** `merge_current_data`, for any way `tickerOf` of reading a row's key:
      index the stock rows, lay the analysis rows over them, and list the
      dictionary's values in key order. */
  method MergeOn(tickerOf: Row -> string, stockRows: seq<Row>, analysisRows: seq<Row>) returns (merged: seq<Row>)
    ensures merged == Merge(tickerOf, stockRows, analysisRows)
  {
    var order, byTicker := IndexStockRows(tickerOf, stockRows);
    order, byTicker := ApplyAnalysisRows(tickerOf, stockRows, analysisRows, order, byTicker);
    merged := seq(|order|, k requires 0 <= k < |order| => byTicker[order[k]]);
  }

  /** The first loop: `by_ticker[ticker] = {**row}` for every stock row
      with a non-blank ticker. */
  method IndexStockRows(tickerOf: Row -> string, stockRows: seq<Row>)
    returns (order: seq<string>, byTicker: map<string, Row>)
    ensures order == Order(tickerOf, stockRows)
    ensures forall t :: t in byTicker <==> t in order
    ensures forall t :: t in byTicker ==> byTicker[t] == StockBase(tickerOf, stockRows, t)
  {
    order, byTicker := [], map[];
    var i := 0;
    while i < |stockRows|
      invariant 0 <= i <= |stockRows|
      invariant order == Order(tickerOf, stockRows[..i])
      invariant forall t :: t in byTicker <==> t in order
      invariant forall t :: t in byTicker ==> byTicker[t] == StockBase(tickerOf, stockRows[..i], t)
    {
      var row := stockRows[i];
      assert stockRows[..i + 1][..i] == stockRows[..i];
      var ticker := tickerOf(row);
      if ticker != "" {
        if ticker !in byTicker {
          order := order + [ticker];
        }
        byTicker := byTicker[ticker := row];
      }
      i := i + 1;
    }
    assert stockRows[..|stockRows|] == stockRows;
  }

  /** The second loop: `by_ticker.get(ticker, {})` updated with every
      analysis row with a non-blank ticker. */
  method ApplyAnalysisRows(tickerOf: Row -> string, stockRows: seq<Row>, analysisRows: seq<Row>,
                           order0: seq<string>, byTicker0: map<string, Row>)
    returns (order: seq<string>, byTicker: map<string, Row>)
    requires order0 == Order(tickerOf, stockRows)
    requires forall t :: t in byTicker0 <==> t in order0
    requires forall t :: t in byTicker0 ==> byTicker0[t] == StockBase(tickerOf, stockRows, t)
    ensures order == Order(tickerOf, stockRows + analysisRows)
    ensures forall t :: t in byTicker <==> t in order
    ensures forall t :: t in byTicker ==> byTicker[t] == MergedRow(tickerOf, stockRows, analysisRows, t)
  {
    order, byTicker := order0, byTicker0;
    assert stockRows + analysisRows[..0] == stockRows;
    var j := 0;
    while j < |analysisRows|
      invariant 0 <= j <= |analysisRows|
      invariant order == Order(tickerOf, stockRows + analysisRows[..j])
      invariant forall t :: t in byTicker <==> t in order
      invariant forall t :: t in byTicker ==> byTicker[t] == Overlay(tickerOf, StockBase(tickerOf, stockRows, t), analysisRows[..j], t)
    {
      var row := analysisRows[j];
      AnalysisStep(tickerOf, stockRows, analysisRows, j);
      var ticker := tickerOf(row);
      if ticker != "" {
        var current: Row := map[];
        if ticker in byTicker {
          current := byTicker[ticker];
        } else {
          order := order + [ticker];
          AbsentTicker(tickerOf, stockRows, analysisRows[..j], ticker);
        }
        byTicker := byTicker[ticker := current + row];
      }
      j := j + 1;
    }
    assert analysisRows[..|analysisRows|] == analysisRows;
  }

  /** How one more analysis row changes the order and the merged rows. */
  lemma AnalysisStep(tickerOf: Row -> string, stockRows: seq<Row>, analysisRows: seq<Row>, j: nat)
    requires j < |analysisRows|
    ensures var prev := Order(tickerOf, stockRows + analysisRows[..j]);
            var t := tickerOf(analysisRows[j]);
            Order(tickerOf, stockRows + analysisRows[..j + 1]) == (if t == "" || t in prev then prev else prev + [t])
    ensures forall t :: Overlay(tickerOf, StockBase(tickerOf, stockRows, t), analysisRows[..j + 1], t)
                        == var m := Overlay(tickerOf, StockBase(tickerOf, stockRows, t), analysisRows[..j], t);
                           if tickerOf(analysisRows[j]) == t then m + analysisRows[j] else m
  {
    var before := stockRows + analysisRows[..j];
    assert (stockRows + analysisRows[..j + 1])[..|before|] == before;
    assert (stockRows + analysisRows[..j + 1])[|before|] == analysisRows[j];
    assert analysisRows[..j + 1][..j] == analysisRows[..j];
  }

  // ---------------------------------------------------------------------
  // Properties

  /** A ticker is in the order exactly when some row carries it. */
  lemma {:induction false} OrderMembers(tickerOf: Row -> string, rows: seq<Row>, t: string)
    ensures t in Order(tickerOf, rows) <==> t != "" && exists k :: 0 <= k < |rows| && tickerOf(rows[k]) == t
  {
    if |rows| > 0 {
      var init := rows[..|rows| - 1];
      OrderMembers(tickerOf, init, t);
      if exists k :: 0 <= k < |init| && tickerOf(init[k]) == t {
        var k :| 0 <= k < |init| && tickerOf(init[k]) == t;
        assert tickerOf(rows[k]) == t;
      }
      if exists k :: 0 <= k < |rows| && tickerOf(rows[k]) == t {
        var k :| 0 <= k < |rows| && tickerOf(rows[k]) == t;
        if k < |init| {
          assert tickerOf(init[k]) == t;
        }
      }
    }
  }

  /** No ticker is listed twice: one merged row per ticker. */
  lemma {:induction false} OrderDistinct(tickerOf: Row -> string, rows: seq<Row>)
    ensures Distinct(Order(tickerOf, rows))
  {
    if |rows| > 0 {
      OrderDistinct(tickerOf, rows[..|rows| - 1]);
    }
  }

  /** The order of a prefix of the rows is a prefix of the order. */
  lemma {:induction false} OrderPrefix(tickerOf: Row -> string, rows: seq<Row>, n: nat)
    requires n <= |rows|
    ensures var p := Order(tickerOf, rows[..n]); |p| <= |Order(tickerOf, rows)| && Order(tickerOf, rows)[..|p|] == p
  {
    if n < |rows| {
      var init := rows[..|rows| - 1];
      assert init[..n] == rows[..n];
      OrderPrefix(tickerOf, init, n);
    } else {
      assert rows[..n] == rows;
    }
  }

  /** Tickers are listed in order of first appearance: a ticker that first
      appears at row `a` comes before one that first appears at a later row `b`. */
  lemma OrderFirstAppearance(tickerOf: Row -> string, rows: seq<Row>, a: nat, b: nat)
    requires a < b < |rows|
    requires tickerOf(rows[a]) != "" && tickerOf(rows[b]) != ""
    requires forall k :: 0 <= k < b ==> tickerOf(rows[k]) != tickerOf(rows[b])
    ensures exists i, j :: 0 <= i < j < |Order(tickerOf, rows)|
                           && Order(tickerOf, rows)[i] == tickerOf(rows[a]) && Order(tickerOf, rows)[j] == tickerOf(rows[b])
  {
    var ta, tb := tickerOf(rows[a]), tickerOf(rows[b]);
    var before := Order(tickerOf, rows[..b]);
    assert rows[..b + 1][..b] == rows[..b];
    assert rows[..b][a] == rows[a];
    OrderMembers(tickerOf, rows[..b], ta);
    OrderMembers(tickerOf, rows[..b], tb);
    assert tb !in before;
    var after := Order(tickerOf, rows[..b + 1]);
    assert after == before + [tb];
    OrderPrefix(tickerOf, rows, b + 1);
    var i :| 0 <= i < |before| && before[i] == ta;
    assert Order(tickerOf, rows)[i] == after[i] == ta;
    assert Order(tickerOf, rows)[|before|] == after[|before|] == tb;
  }

  /** Each later stock row for a ticker replaces the earlier one wholesale. */
  lemma {:induction false} StockBaseLast(tickerOf: Row -> string, rows: seq<Row>, t: string, k: nat)
    requires k < |rows| && tickerOf(rows[k]) == t
    requires forall j :: k < j < |rows| ==> tickerOf(rows[j]) != t
    ensures StockBase(tickerOf, rows, t) == rows[k]
  {
    if k < |rows| - 1 {
      var init := rows[..|rows| - 1];
      StockBaseLast(tickerOf, init, t, k);
    }
  }

  /** A ticker no stock row carries starts from the empty dict. */
  lemma {:induction false} StockBaseNone(tickerOf: Row -> string, rows: seq<Row>, t: string)
    requires forall j :: 0 <= j < |rows| ==> tickerOf(rows[j]) != t
    ensures StockBase(tickerOf, rows, t) == map[]
  {
    if |rows| > 0 {
      var init := rows[..|rows| - 1];
      assert forall j :: 0 <= j < |init| ==> init[j] == rows[j];
      StockBaseNone(tickerOf, init, t);
    }
  }

  /** Rows of other tickers leave the merged row alone. */
  lemma {:induction false} OverlayNone(tickerOf: Row -> string, base: Row, rows: seq<Row>, t: string)
    requires forall j :: 0 <= j < |rows| ==> tickerOf(rows[j]) != t
    ensures Overlay(tickerOf, base, rows, t) == base
  {
    if |rows| > 0 {
      var init := rows[..|rows| - 1];
      assert forall j :: 0 <= j < |init| ==> init[j] == rows[j];
      OverlayNone(tickerOf, base, init, t);
    }
  }

  /** A ticker met for the first time has no stock row and no earlier
      analysis row, so it starts from the empty dict. */
  lemma AbsentTicker(tickerOf: Row -> string, stockRows: seq<Row>, analysisRows: seq<Row>, t: string)
    requires t != "" && t !in Order(tickerOf, stockRows + analysisRows)
    ensures Overlay(tickerOf, StockBase(tickerOf, stockRows, t), analysisRows, t) == map[]
  {
    var all := stockRows + analysisRows;
    OrderMembers(tickerOf, all, t);
    forall j | 0 <= j < |stockRows| ensures tickerOf(stockRows[j]) != t {
      assert all[j] == stockRows[j];
    }
    forall j | 0 <= j < |analysisRows| ensures tickerOf(analysisRows[j]) != t {
      assert all[|stockRows| + j] == analysisRows[j];
    }
    StockBaseNone(tickerOf, stockRows, t);
    OverlayNone(tickerOf, map[], analysisRows, t);
  }

  /** A field set by an analysis row of the ticker takes the value of the
      last such row that carries the field. */
  lemma {:induction false} OverlayLastWriter(tickerOf: Row -> string, base: Row, rows: seq<Row>, t: string, field: string, k: nat)
    requires k < |rows| && tickerOf(rows[k]) == t && field in rows[k]
    requires forall j :: k < j < |rows| && tickerOf(rows[j]) == t ==> field !in rows[j]
    ensures field in Overlay(tickerOf, base, rows, t) && Overlay(tickerOf, base, rows, t)[field] == rows[k][field]
  {
    var init := rows[..|rows| - 1];
    if k < |rows| - 1 {
      OverlayLastWriter(tickerOf, base, init, t, field, k);
    }
  }

  /** A field no analysis row of the ticker carries keeps its stock value,
      and is present exactly when the stock row has it. */
  lemma {:induction false} OverlayKeepsBase(tickerOf: Row -> string, base: Row, rows: seq<Row>, t: string, field: string)
    requires forall j :: 0 <= j < |rows| && tickerOf(rows[j]) == t ==> field !in rows[j]
    ensures field in Overlay(tickerOf, base, rows, t) <==> field in base
    ensures field in base ==> Overlay(tickerOf, base, rows, t)[field] == base[field]
  {
    if |rows| > 0 {
      var init := rows[..|rows| - 1];
      assert forall j :: 0 <= j < |init| ==> init[j] == rows[j];
      OverlayKeepsBase(tickerOf, base, init, t, field);
    }
  }

  /** The merged rows are one per distinct non-blank ticker of either list,
      and a ticker with a blank symbol never produces one. */
  lemma MergeShape(tickerOf: Row -> string, stockRows: seq<Row>, analysisRows: seq<Row>)
    ensures |Merge(tickerOf, stockRows, analysisRows)| == |Order(tickerOf, stockRows + analysisRows)|
    ensures Distinct(Order(tickerOf, stockRows + analysisRows))
    ensures forall t :: t in Order(tickerOf, stockRows + analysisRows) <==>
              t != "" && exists k :: 0 <= k < |stockRows + analysisRows| && tickerOf((stockRows + analysisRows)[k]) == t
  {
    OrderDistinct(tickerOf, stockRows + analysisRows);
    forall t ensures t in Order(tickerOf, stockRows + analysisRows) <==>
              t != "" && exists k :: 0 <= k < |stockRows + analysisRows| && tickerOf((stockRows + analysisRows)[k]) == t
    {
      OrderMembers(tickerOf, stockRows + analysisRows, t);
    }
  }
}
