/** The market classifiers `classify_market_insights`,
    `classify_weekly_market_insights` and `classify_monthly_market_insights`:
    a trend from the mean change over the batch of indicator rows, and the
    gainers and losers at the two ends of one ranking by that change. */
module Market {
  import opened Values
  import opened Series
  import opened Calculator

  /** The three report cadences. */
  datatype Horizon = Daily | Weekly | Monthly

  datatype Trend = Bullish | Bearish | Flat | InsufficientData

  /** A KeyError when a listed column occurs in no row. */
  datatype MarketError = ColumnMissing(column: Field)

  /** One `to_dict("records")` entry: the listed columns, in order. */
  type Record = seq<(Field, Value)>

  /** The summary dict. The mean is absent for an empty batch. */
  datatype Insights = Insights(trend: Trend, meanChange: Option<real>, gainers: seq<Record>, losers: seq<Record>)

  /** The change column each cadence ranks by. */
  function ChangeField(h: Horizon): Field
  {
    match h
    case Daily => Change1d
    case Weekly => Change1w
    case Monthly => Change1m
  }

  /** How many gainers and losers each cadence lists. */
  function ListSize(h: Horizon): nat
  {
    match h
    case Daily => 5
    case Weekly => 10
    case Monthly => 15
  }

  /** The columns each cadence lists, the change column last. */
  function Columns(h: Horizon): (cs: seq<Field>)
    ensures |cs| > 0 && cs[|cs| - 1] == ChangeField(h)
  {
    match h
    case Daily => [TickerSymbol, Change1d]
    case Weekly => [TickerSymbol, CompanyName, StockPrice, Change1w]
    case Monthly => [TickerSymbol, CompanyName, StockPrice, MarketCap, Change1m]
  }

  /** A cell of `pd.DataFrame(rows)`: a key the row lacks reads as nan. */
  function Cell(row: IndicatorRow, f: Field): Value
  {
    if f in row then row[f] else NaN
  }

  /** The change after `pd.to_numeric(errors="coerce")`; None is nan. */
  function Change(row: IndicatorRow, h: Horizon): Option<real>
  {
    FiniteOf(Cell(row, ChangeField(h)))
  }

  /** One row of the frame once the change column is coerced: the coerced
      change beside the row as given. */
  datatype Entry = Entry(change: Option<real>, row: IndicatorRow)

  /** The frame after `pd.to_numeric(frame[change], errors="coerce")`. */
  function Coerce(rows: seq<IndicatorRow>, h: Horizon): (es: seq<Entry>)
    ensures |es| == |rows|
  {
    seq(|rows|, k requires 0 <= k < |rows| => Entry(Change(rows[k], h), rows[k]))
  }

  /** The defined changes, in frame order. */
  function Defined(es: seq<Entry>): (xs: seq<real>)
    ensures |xs| <= |es|
  {
    if |es| == 0 then []
    else Defined(es[..|es| - 1]) + (match es[|es| - 1].change case Some(x) => [x] case None => [])
  }

  /** `np.nanmean` of the change column, or 0.0 when no change is defined. */
  function MeanChange(es: seq<Entry>): real
  {
    var xs := Defined(es);
    if |xs| > 0 then Mean(xs) else 0.0
  }

  function TrendOf(mean: real): (t: Trend)
    ensures t == Bullish <==> mean > 0.0
    ensures t == Bearish <==> mean < 0.0
    ensures t == Flat <==> mean == 0.0
  {
    if mean > 0.0 then Bullish else if mean < 0.0 then Bearish else Flat
  }

  // ---------------------------------------------------------------------
  // The ranking

  /** `a` may come before `b` in `sort_values(ascending=False,
      na_position="last")`. */
  predicate Ahead(a: Option<real>, b: Option<real>)
  {
    b.None? || (a.Some? && a.value >= b.value)
  }

  predicate Ranked(es: seq<Entry>)
  {
    forall i, j :: 0 <= i < j < |es| ==> Ahead(es[i].change, es[j].change)
  }

  lemma AheadTotal(a: Option<real>, b: Option<real>)
    ensures Ahead(a, b) || Ahead(b, a)
  {
  }

  /** Put one entry into a list ahead of the first entry it is ranked
      ahead of. */
  function Insert(x: Entry, s: seq<Entry>): (r: seq<Entry>)
    ensures |r| == |s| + 1
  {
    if |s| == 0 then [x]
    else if Ahead(x.change, s[0].change) then [x] + s
    else [s[0]] + Insert(x, s[1..])
  }

  /** An entry ranked ahead of the head of a ranked list can lead it. */
  lemma AheadOfAll(x: Entry, s: seq<Entry>)
    requires Ranked(s) && |s| > 0 && Ahead(x.change, s[0].change)
    ensures Ranked([x] + s)
  {
    var r := [x] + s;
    forall i, j | 0 <= i < j < |r| ensures Ahead(r[i].change, r[j].change) {
      assert r[j] == s[j - 1];
      if i > 0 { assert r[i] == s[i - 1]; }
    }
  }

  /** The head of a ranked list stays ahead of the rest after an insertion
      of an entry it is ahead of. */
  lemma BehindHead(y: Entry, x: Entry, tail: seq<Entry>, rest: seq<Entry>)
    requires Ranked([y] + tail) && Ranked(rest)
    requires Ahead(y.change, x.change)
    requires multiset(rest) == multiset(tail) + multiset{x}
    ensures Ranked([y] + rest)
  {
    var r := [y] + rest;
    var s := [y] + tail;
    forall i, j | 0 <= i < j < |r| ensures Ahead(r[i].change, r[j].change) {
      assert r[0] == y && s[0] == y;
      assert r[j] == rest[j - 1];
      if i > 0 {
        assert r[i] == rest[i - 1];
      } else {
        assert rest[j - 1] in multiset(rest);
        if rest[j - 1] != x {
          assert rest[j - 1] in multiset(tail);
          var k :| 0 <= k < |tail| && tail[k] == rest[j - 1];
          assert s[k + 1] == tail[k];
        }
      }
    }
  }

  /** Inserting into a ranked list keeps it ranked and adds exactly the
      one entry. */
  lemma {:induction false} InsertRanked(x: Entry, s: seq<Entry>)
    requires Ranked(s)
    ensures Ranked(Insert(x, s)) && multiset(Insert(x, s)) == multiset(s) + multiset{x}
  {
    if |s| == 0 {
    } else if Ahead(x.change, s[0].change) {
      AheadOfAll(x, s);
    } else {
      var tail := s[1..];
      assert Ranked(tail) by {
        forall i, j | 0 <= i < j < |tail| ensures Ahead(tail[i].change, tail[j].change) {
          assert tail[i] == s[i + 1] && tail[j] == s[j + 1];
        }
      }
      InsertRanked(x, tail);
      assert s == [s[0]] + tail;
      BehindHead(s[0], x, tail, Insert(x, tail));
    }
  }

  /** `frame.sort_values(change, ascending=False, na_position="last")`, as
      an insertion sort: one ranking among those the sort may return. */
  function Order(es: seq<Entry>): (r: seq<Entry>)
    ensures |r| == |es|
  {
    if |es| == 0 then [] else Insert(es[|es| - 1], Order(es[..|es| - 1]))
  }

  /** The ranking holds every entry once and puts the entries in
      descending order of change, undefined changes last. */
  lemma {:induction false} OrderRanked(es: seq<Entry>)
    ensures Ranked(Order(es)) && multiset(Order(es)) == multiset(es)
  {
    if |es| > 0 {
      var init := es[..|es| - 1];
      OrderRanked(init);
      InsertRanked(es[|es| - 1], Order(init));
      assert es == init + [es[|es| - 1]];
    }
  }

  // ---------------------------------------------------------------------
  // The listed records

  /** `fillna(0.0)`: nan and None are shown as 0.0. */
  function Fill(v: Value): (w: Value)
    ensures w != Null && w != NaN
    ensures v != Null && v != NaN ==> w == v
  {
    if v == Null || v == NaN then Num(0.0) else v
  }

  /** A listed cell: the change column after coercion, the others as
      they are. */
  function Listed(e: Entry, f: Field, h: Horizon): Value
  {
    if f == ChangeField(h) then
      match e.change case Some(x) => Num(x) case None => NaN
    else Cell(e.row, f)
  }

  /** `[[columns]].fillna(0.0).to_dict("records")` of one entry. */
  function Project(e: Entry, h: Horizon): (rec: Record)
    ensures |rec| == |Columns(h)|
    ensures forall k :: 0 <= k < |rec| ==> rec[k].0 == Columns(h)[k] && rec[k].1 != Null && rec[k].1 != NaN
    ensures forall k :: 0 <= k < |rec| ==> rec[k] == (Columns(h)[k], Fill(Listed(e, Columns(h)[k], h)))
  {
    var cs := Columns(h);
    seq(|cs|, k requires 0 <= k < |cs| => (cs[k], Fill(Listed(e, cs[k], h))))
  }

  function ProjectAll(es: seq<Entry>, h: Horizon): (recs: seq<Record>)
    ensures |recs| == |es|
    ensures forall k :: 0 <= k < |es| ==> recs[k] == Project(es[k], h)
    ensures Shown(recs)
  {
    seq(|es|, k requires 0 <= k < |es| => Project(es[k], h))
  }

  function Min(a: nat, b: nat): nat
  {
    if a <= b then a else b
  }

  /** `head(n)`. */
  function Head(s: seq<Entry>, n: nat): seq<Entry>
  {
    s[..Min(n, |s|)]
  }

  /** `tail(n)`. */
  function Last(s: seq<Entry>, n: nat): seq<Entry>
  {
    s[|s| - Min(n, |s|)..]
  }

  /** Whether a column is in `pd.DataFrame(rows)`: some row has the key. */
  predicate InFrame(rows: seq<IndicatorRow>, f: Field)
  {
    exists k :: 0 <= k < |rows| && f in rows[k]
  }

  /** The first listed column, other than the change column the classifier
      adds itself, that no row has. */
  function MissingColumn(rows: seq<IndicatorRow>, cs: seq<Field>, h: Horizon): (m: Option<Field>)
    ensures m.None? <==> forall k :: 0 <= k < |cs| && cs[k] != ChangeField(h) ==> InFrame(rows, cs[k])
    ensures m.Some? ==> m.value in cs && m.value != ChangeField(h) && !InFrame(rows, m.value)
  {
    if |cs| == 0 then None
    else if cs[0] != ChangeField(h) && !InFrame(rows, cs[0]) then Some(cs[0])
    else
      var m := MissingColumn(rows, cs[1..], h);
      assert forall k :: 1 <= k < |cs| ==> cs[k] == cs[1..][k - 1];
      m
  }

  /** A market classifier for one cadence. */
  function Classify(rows: seq<IndicatorRow>, h: Horizon): (r: Result<Insights, MarketError>)
    ensures |rows| == 0 ==> r == Success(Insights(InsufficientData, None, [], []))
    ensures r.Failure? <==> |rows| > 0 && MissingColumn(rows, Columns(h), h).Some?
    ensures r.Success? && |rows| > 0 ==>
              && r.value.trend == TrendOf(MeanChange(Coerce(rows, h)))
              && r.value.meanChange == Some(MeanChange(Coerce(rows, h)))
              && |r.value.gainers| == Min(ListSize(h), |rows|)
              && |r.value.losers| == Min(ListSize(h), |rows|)
  {
    if |rows| == 0 then Success(Insights(InsufficientData, None, [], []))
    else
      var missing := MissingColumn(rows, Columns(h), h);
      if missing.Some? then Failure(ColumnMissing(missing.value))
      else
        var frame := Coerce(rows, h);
        var mean := MeanChange(frame);
        var ordered := Order(frame);
        Success(Insights(TrendOf(mean), Some(mean),
                         ProjectAll(Head(ordered, ListSize(h)), h),
                         ProjectAll(Last(ordered, ListSize(h)), h)))
  }

  // ---------------------------------------------------------------------
  // Properties

  /** The defined changes are exactly the changes of the entries that are
      not nan. */
  lemma {:induction false} DefinedEntries(es: seq<Entry>, x: real)
    ensures x in Defined(es) <==> exists k :: 0 <= k < |es| && es[k].change == Some(x)
  {
    if |es| > 0 {
      var init := es[..|es| - 1];
      DefinedEntries(init, x);
      assert forall k :: 0 <= k < |init| ==> init[k] == es[k];
    }
  }

  /** The defined changes are exactly the coerced changes of the rows that
      are not nan. */
  lemma DefinedMembers(rows: seq<IndicatorRow>, h: Horizon, x: real)
    ensures x in Defined(Coerce(rows, h)) <==> exists k :: 0 <= k < |rows| && Change(rows[k], h) == Some(x)
  {
    var es := Coerce(rows, h);
    DefinedEntries(es, x);
    assert forall k :: 0 <= k < |rows| ==> es[k].change == Change(rows[k], h);
  }

  /** With no defined change the mean is 0.0 and the trend flat. */
  lemma NoneDefinedFlat(rows: seq<IndicatorRow>, h: Horizon)
    requires forall k :: 0 <= k < |rows| ==> Change(rows[k], h).None?
    ensures MeanChange(Coerce(rows, h)) == 0.0 && TrendOf(MeanChange(Coerce(rows, h))) == Flat
  {
    var xs := Defined(Coerce(rows, h));
    if |xs| > 0 {
      DefinedMembers(rows, h, xs[0]);
      assert false;
    }
  }

  /** The mean lies between the smallest and the largest defined change,
      each of which some row has. */
  lemma MeanBetweenChanges(rows: seq<IndicatorRow>, h: Horizon)
    requires exists k :: 0 <= k < |rows| && Change(rows[k], h).Some?
    ensures exists i :: 0 <= i < |rows| && Change(rows[i], h).Some? && Change(rows[i], h).value <= MeanChange(Coerce(rows, h))
    ensures exists j :: 0 <= j < |rows| && Change(rows[j], h).Some? && MeanChange(Coerce(rows, h)) <= Change(rows[j], h).value
  {
    var k :| 0 <= k < |rows| && Change(rows[k], h).Some?;
    var xs := Defined(Coerce(rows, h));
    DefinedMembers(rows, h, Change(rows[k], h).value);
    MeanWithinRange(xs);
    MinOfBounds(xs);
    MaxOfBounds(xs);
    var a :| 0 <= a < |xs| && xs[a] == MinOf(xs);
    var b :| 0 <= b < |xs| && xs[b] == MaxOf(xs);
    DefinedMembers(rows, h, xs[a]);
    DefinedMembers(rows, h, xs[b]);
  }

  /** The trend is bullish when every defined change is positive and
      bearish when every one is negative. */
  lemma TrendOfSigns(rows: seq<IndicatorRow>, h: Horizon)
    requires exists k :: 0 <= k < |rows| && Change(rows[k], h).Some?
    ensures (forall k :: 0 <= k < |rows| && Change(rows[k], h).Some? ==> Change(rows[k], h).value > 0.0) ==>
              TrendOf(MeanChange(Coerce(rows, h))) == Bullish
    ensures (forall k :: 0 <= k < |rows| && Change(rows[k], h).Some? ==> Change(rows[k], h).value < 0.0) ==>
              TrendOf(MeanChange(Coerce(rows, h))) == Bearish
  {
    MeanBetweenChanges(rows, h);
  }

  /** No value of the records is nan or None. */
  predicate Shown(recs: seq<Record>)
  {
    forall i: int, k: int :: 0 <= i < |recs| && 0 <= k < |recs[i]| ==> recs[i][k].1 != Null && recs[i][k].1 != NaN
  }

  /** Every listed gainer and loser value is shown. */
  lemma ListedAreFilled(rows: seq<IndicatorRow>, h: Horizon)
    requires Classify(rows, h).Success?
    ensures Shown(Classify(rows, h).value.gainers) && Shown(Classify(rows, h).value.losers)
  {
    if |rows| > 0 {
      var ordered := Order(Coerce(rows, h));
      assert Shown(ProjectAll(Head(ordered, ListSize(h)), h));
      assert Shown(ProjectAll(Last(ordered, ListSize(h)), h));
    }
  }

  /** Gainers are the first and losers the last entries of the ranking of
      the coerced frame. */
  lemma GainersAndLosers(rows: seq<IndicatorRow>, h: Horizon)
    requires |rows| > 0 && Classify(rows, h).Success?
    ensures var ins, n := Classify(rows, h).value, Min(ListSize(h), |rows|);
            && ins.gainers == ProjectAll(Order(Coerce(rows, h))[..n], h)
            && ins.losers == ProjectAll(Order(Coerce(rows, h))[|rows| - n..], h)
  {
  }

  /** Each ranked entry is one of the rows beside its own coerced change. */
  lemma RankedFromRows(rows: seq<IndicatorRow>, h: Horizon, i: nat)
    requires i < |rows|
    ensures var e := Order(Coerce(rows, h))[i];
            e.row in rows && e.change == Change(e.row, h)
  {
    var es := Coerce(rows, h);
    OrderRanked(es);
    var e := Order(es)[i];
    assert e in multiset(Order(es));
    assert e in es;
    var k :| 0 <= k < |es| && es[k] == e;
    assert es[k] == Entry(Change(rows[k], h), rows[k]);
  }

  /** When the batch holds at least twice the list size, every gainer is
      ranked ahead of every loser. */
  lemma GainersAheadOfLosers(es: seq<Entry>, h: Horizon, i: nat, j: nat)
    requires |es| >= 2 * ListSize(h)
    requires i < ListSize(h) && j < ListSize(h)
    ensures var ordered := Order(es);
            Ahead(ordered[i].change, ordered[|es| - ListSize(h) + j].change)
  {
    OrderRanked(es);
  }

  // ---------------------------------------------------------------------
  // The daily example

  /** Three rows whose daily changes are 1.1, -2.3 and 0.3. */
  predicate DailyExample(a: IndicatorRow, b: IndicatorRow, c: IndicatorRow)
  {
    Cell(a, Change1d) == Num(1.1) && Cell(b, Change1d) == Num(-2.3) && Cell(c, Change1d) == Num(0.3)
  }

  /** The example's coerced frame. */
  lemma DailyExampleFrame(a: IndicatorRow, b: IndicatorRow, c: IndicatorRow)
    requires DailyExample(a, b, c)
    ensures Coerce([a, b, c], Daily) == [Entry(Some(1.1), a), Entry(Some(-2.3), b), Entry(Some(0.3), c)]
  {
    assert Change(a, Daily) == Some(1.1) && Change(b, Daily) == Some(-2.3) && Change(c, Daily) == Some(0.3);
  }

  /** The defined changes of a frame extended by one entry. */
  lemma DefinedSnoc(es: seq<Entry>, e: Entry)
    ensures Defined(es + [e]) == Defined(es) + (if e.change.Some? then [e.change.value] else [])
  {
    assert (es + [e])[..|es|] == es;
  }

  /** The sum of a series extended by one value. */
  lemma SumSnoc(s: seq<real>, x: real)
    ensures Sum(s + [x]) == Sum(s) + x
  {
    assert (s + [x])[..|s|] == s;
  }

  lemma ExampleSum()
    ensures Sum([1.1, -2.3, 0.3]) == -0.9
  {
    SumSnoc([], 1.1);
    SumSnoc([1.1], -2.3);
    SumSnoc([1.1, -2.3], 0.3);
    assert [] + [1.1] == [1.1] && [1.1] + [-2.3] == [1.1, -2.3] && [1.1, -2.3] + [0.3] == [1.1, -2.3, 0.3];
  }

  /** The example's changes average -0.3: a bearish trend. */
  lemma DailyExampleTrend(a: IndicatorRow, b: IndicatorRow, c: IndicatorRow)
    requires DailyExample(a, b, c)
    ensures MeanChange(Coerce([a, b, c], Daily)) == -0.3
    ensures TrendOf(MeanChange(Coerce([a, b, c], Daily))) == Bearish
  {
    DailyExampleFrame(a, b, c);
    var ea, eb, ec := Entry(Some(1.1), a), Entry(Some(-2.3), b), Entry(Some(0.3), c);
    DefinedSnoc([], ea);
    DefinedSnoc([ea], eb);
    DefinedSnoc([ea, eb], ec);
    assert [] + [ea] == [ea] && [ea] + [eb] == [ea, eb] && [ea, eb] + [ec] == [ea, eb, ec];
    assert Defined([ea, eb, ec]) == [1.1, -2.3, 0.3];
    ExampleSum();
    assert Mean([1.1, -2.3, 0.3]) == -0.9 / 3.0;
  }

  /** The ranking of a frame extended by one entry. */
  lemma OrderSnoc(es: seq<Entry>, e: Entry)
    ensures Order(es + [e]) == Insert(e, Order(es))
  {
    assert (es + [e])[..|es|] == es;
  }

  /** The example ranks its rows first, third, second. */
  lemma DailyExampleOrder(a: IndicatorRow, b: IndicatorRow, c: IndicatorRow)
    requires DailyExample(a, b, c)
    ensures Order(Coerce([a, b, c], Daily)) == [Entry(Some(1.1), a), Entry(Some(0.3), c), Entry(Some(-2.3), b)]
  {
    DailyExampleFrame(a, b, c);
    var ea, eb, ec := Entry(Some(1.1), a), Entry(Some(-2.3), b), Entry(Some(0.3), c);
    OrderSnoc([], ea);
    OrderSnoc([ea], eb);
    OrderSnoc([ea, eb], ec);
    assert [] + [ea] == [ea] && [ea] + [eb] == [ea, eb] && [ea, eb] + [ec] == [ea, eb, ec];
    assert Insert(eb, [ea]) == [ea] + Insert(eb, []) by { assert [ea][1..] == []; }
    assert Insert(ec, [ea, eb]) == [ea] + Insert(ec, [eb]) by { assert [ea, eb][1..] == [eb]; }
  }

  /** A daily record: the ticker, then the coerced change. */
  lemma DailyRecord(e: Entry, x: real)
    requires e.change == Some(x)
    ensures Project(e, Daily) == [(TickerSymbol, Fill(Cell(e.row, TickerSymbol))), (Change1d, Num(x))]
  {
  }

  /** With a ticker column, the example lists its rows first, third,
      second as gainers and, all three fitting in five, as losers too. */
  lemma DailyExampleInsights(a: IndicatorRow, b: IndicatorRow, c: IndicatorRow)
    requires DailyExample(a, b, c) && TickerSymbol in a
    ensures var listed := [[(TickerSymbol, Fill(Cell(a, TickerSymbol))), (Change1d, Num(1.1))],
                           [(TickerSymbol, Fill(Cell(c, TickerSymbol))), (Change1d, Num(0.3))],
                           [(TickerSymbol, Fill(Cell(b, TickerSymbol))), (Change1d, Num(-2.3))]];
            Classify([a, b, c], Daily) == Success(Insights(Bearish, Some(-0.3), listed, listed))
  {
    var rows := [a, b, c];
    assert InFrame(rows, TickerSymbol) by { assert TickerSymbol in rows[0]; }
    assert MissingColumn(rows, Columns(Daily), Daily).None?;
    DailyExampleTrend(a, b, c);
    DailyExampleOrder(a, b, c);
    var ordered := Order(Coerce(rows, Daily));
    assert Head(ordered, 5) == ordered && Last(ordered, 5) == ordered;
    DailyRecord(ordered[0], 1.1);
    DailyRecord(ordered[1], 0.3);
    DailyRecord(ordered[2], -2.3);
    var listed := [[(TickerSymbol, Fill(Cell(a, TickerSymbol))), (Change1d, Num(1.1))],
                   [(TickerSymbol, Fill(Cell(c, TickerSymbol))), (Change1d, Num(0.3))],
                   [(TickerSymbol, Fill(Cell(b, TickerSymbol))), (Change1d, Num(-2.3))]];
    assert ProjectAll(ordered, Daily) == listed;
    assert Classify(rows, Daily) == Success(Insights(TrendOf(MeanChange(Coerce(rows, Daily))), Some(MeanChange(Coerce(rows, Daily))),
                                                     ProjectAll(Head(ordered, 5), Daily), ProjectAll(Last(ordered, 5), Daily)));
  }
}
