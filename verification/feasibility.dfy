/** Static feasibility analysis: which catalogue indicators the data source
    can support, joining each indicator against a table of required fields
    and a table of fields each source is known to carry. */
module Feasibility {
  import opened Values
  import opened Registry

  datatype Status = Calculable | PartiallyCalculable | NotCalculable

  datatype FeasibilityRecord = FeasibilityRecord(
    indicator: string,
    category: string,
    status: Status,
    source: string,
    missingData: seq<string>,
    notes: string)

  /** One row of the requirements table: the field paths an indicator needs
      and the source that should carry them. */
  datatype Requirement = Requirement(fields: seq<string>, source: string)

  /** The two static tables, passed in as configuration. */
  datatype Tables = Tables(requirements: map<string, Requirement>, available: map<string, set<string>>)

  const Src: string := "stockanalysis_stocks"
  const History: string := "historical_prices"

  const IndicatorRequirements: map<string, Requirement> := map[
    "Stock Price" := Requirement(["stock_price"], Src),
    "Price Change 1D (%)" := Requirement(["stock_change"], Src),
    "Volume" := Requirement(["price_metrics.volume"], Src),
    "Market Cap" := Requirement(["overview_metrics.marketCap"], Src),
    "PE Ratio" := Requirement(["overview_metrics.pe_ratio"], Src),
    "PB Ratio" := Requirement(["overview_metrics.pb_ratio"], Src),
    "PS Ratio" := Requirement(["overview_metrics.ps_ratio"], Src),
    "Dividend Yield" := Requirement(["dividends_metrics.dividendYield"], Src),
    "52 Week Low" := Requirement(["price_metrics.low52"], Src),
    "52 Week High" := Requirement(["price_metrics.high52"], Src),
    "Price Change 1W" := Requirement([History], Src),
    "Price Change 1M" := Requirement([History], Src),
    "Price Change 3M" := Requirement([History], Src),
    "Total Return 1M" := Requirement(["performance_metrics.tr1m"], Src),
    "Total Return 1Y" := Requirement(["performance_metrics.tr1y"], Src),
    "Total Return 6M" := Requirement(["performance_metrics.tr6m"], Src),
    "Total Return YTD" := Requirement(["performance_metrics.trYTD"], Src),
    "Return CAGR 1Y" := Requirement([History], Src),
    "20-Day Moving Average" := Requirement([History], Src),
    "50-Day Moving Average" := Requirement([History], Src),
    "200-Day Moving Average" := Requirement([History], Src),
    "Relative Strength Index (RSI)" := Requirement([History], Src)
  ]

  const AvailableFieldHints: map<string, set<string>> := map[
    Src := {
      "ticker_symbol", "company_name", "rank", "stock_price", "stock_change",
      "scraped_at", "overview_metrics", "performance_metrics",
      "dividends_metrics", "price_metrics", "profile_metrics",
      "overview_metrics.marketCap", "overview_metrics.revenue",
      "overview_metrics.revenueGrowth", "overview_metrics.pe_ratio",
      "overview_metrics.pb_ratio", "overview_metrics.ps_ratio",
      "dividends_metrics.dividendYield", "dividends_metrics.dps",
      "dividends_metrics.payoutRatio", "price_metrics.low52",
      "price_metrics.high52", "price_metrics.volume",
      "performance_metrics.tr1m", "performance_metrics.tr1y",
      "performance_metrics.tr6m", "performance_metrics.trYTD",
      History
    }
  ]

  const Shipped: Tables := Tables(IndicatorRequirements, AvailableFieldHints)

  const UnmappedMissing: string := "explicit field mapping not yet available"

  // ---------------------------------------------------------------------
  // Python's ordering of str values and sorted()

  /** `a <= b` on Python strings: lexicographic by code point. */
  predicate StrLe(a: string, b: string)
  {
    |a| == 0 || (|b| > 0 && (a[0] < b[0] || (a[0] == b[0] && StrLe(a[1..], b[1..]))))
  }

  lemma {:induction false} StrLeTotal(a: string, b: string)
    ensures StrLe(a, b) || StrLe(b, a)
  {
    if |a| > 0 && |b| > 0 && a[0] == b[0] {
      StrLeTotal(a[1..], b[1..]);
    }
  }

  lemma {:induction false} StrLeTrans(a: string, b: string, c: string)
    requires StrLe(a, b) && StrLe(b, c)
    ensures StrLe(a, c)
  {
    if |a| > 0 && a[0] == b[0] && b[0] == c[0] {
      StrLeTrans(a[1..], b[1..], c[1..]);
    }
  }

  lemma {:induction false} StrLeAntisymmetric(a: string, b: string)
    requires StrLe(a, b) && StrLe(b, a)
    ensures a == b
  {
    if |a| > 0 {
      StrLeAntisymmetric(a[1..], b[1..]);
      assert a == [a[0]] + a[1..] && b == [b[0]] + b[1..];
    }
  }

  lemma {:induction false} StrLeReflexive(a: string)
    ensures StrLe(a, a)
  {
    if |a| > 0 { StrLeReflexive(a[1..]); }
  }

  predicate SortedStrings(s: seq<string>)
  {
    forall i, j :: 0 <= i < j < |s| ==> StrLe(s[i], s[j])
  }

  function InsertString(x: string, s: seq<string>): (r: seq<string>)
    requires SortedStrings(s)
    ensures SortedStrings(r) && multiset(r) == multiset(s) + multiset{x}
  {
    if |s| == 0 then [x]
    else if StrLe(x, s[0]) then
      BelowHead(x, s);
      ConsSorted(x, s);
      [x] + s
    else
      StrLeTotal(x, s[0]);
      var rest := InsertString(x, s[1..]);
      assert s == [s[0]] + s[1..];
      BelowAll(s[0], x, s[1..], rest);
      ConsSorted(s[0], rest);
      [s[0]] + rest
  }

  /** A string no greater than the head of a sorted list is no greater
      than any of its elements. */
  lemma BelowHead(x: string, s: seq<string>)
    requires SortedStrings(s) && |s| > 0 && StrLe(x, s[0])
    ensures forall j :: 0 <= j < |s| ==> StrLe(x, s[j])
  {
    forall j | 0 <= j < |s| ensures StrLe(x, s[j]) {
      if j > 0 { StrLeTrans(x, s[0], s[j]); }
    }
  }

  /** A lower bound of a sorted list can be put in front of it. */
  lemma ConsSorted(h: string, s: seq<string>)
    requires SortedStrings(s)
    requires forall j :: 0 <= j < |s| ==> StrLe(h, s[j])
    ensures SortedStrings([h] + s)
  {
    var r := [h] + s;
    forall i, j | 0 <= i < j < |r| ensures StrLe(r[i], r[j]) {
      assert r[j] == s[j - 1];
      if i > 0 { assert r[i] == s[i - 1]; }
    }
  }

  /** A lower bound of a sorted tail and of the inserted string bounds the
      result of the insertion. */
  lemma BelowAll(h: string, x: string, tail: seq<string>, rest: seq<string>)
    requires forall j :: 0 <= j < |tail| ==> StrLe(h, tail[j])
    requires StrLe(h, x)
    requires multiset(rest) == multiset(tail) + multiset{x}
    ensures forall j :: 0 <= j < |rest| ==> StrLe(h, rest[j])
  {
    forall j | 0 <= j < |rest| ensures StrLe(h, rest[j]) {
      assert rest[j] in multiset(rest);
      if rest[j] != x {
        assert rest[j] in multiset(tail);
        var i :| 0 <= i < |tail| && tail[i] == rest[j];
      }
    }
  }

  /** `sorted(xs)` for strings. */
  function SortStrings(s: seq<string>): (r: seq<string>)
    ensures SortedStrings(r) && multiset(r) == multiset(s)
  {
    if |s| == 0 then []
    else
      assert s == [s[0]] + s[1..];
      InsertString(s[0], SortStrings(s[1..]))
  }

  lemma HeadIsLeast(a: seq<string>, x: string)
    requires SortedStrings(a) && x in multiset(a)
    ensures StrLe(a[0], x)
  {
    var i :| 0 <= i < |a| && a[i] == x;
    if i == 0 { StrLeReflexive(x); }
  }

  /** Dropping the head of a list drops one copy of it from the multiset. */
  lemma DropHead(a: seq<string>)
    requires |a| > 0
    ensures multiset(a[1..]) == multiset(a) - multiset{a[0]}
  {
    assert a == [a[0]] + a[1..];
  }

  /** Two sorted lists with the same elements are the same list, so
      `sorted` does not depend on the order in which a set is iterated. */
  lemma {:induction false} SortedUnique(a: seq<string>, b: seq<string>)
    requires SortedStrings(a) && SortedStrings(b) && multiset(a) == multiset(b)
    ensures a == b
  {
    if |a| > 0 {
      assert |b| == |a| by { assert |multiset(b)| == |multiset(a)|; }
      assert a[0] == b[0] by {
        assert a[0] in multiset(a) && b[0] in multiset(b);
        HeadIsLeast(a, b[0]);
        HeadIsLeast(b, a[0]);
        StrLeAntisymmetric(a[0], b[0]);
      }
      DropHead(a);
      DropHead(b);
      assert SortedStrings(a[1..]) && SortedStrings(b[1..]);
      SortedUnique(a[1..], b[1..]);
      assert a == [a[0]] + a[1..] && b == [b[0]] + b[1..];
    }
  }

  // ---------------------------------------------------------------------
  // Classification

  /** No string occurs twice. */
  predicate NoRepeats(s: seq<string>)
  {
    forall i, j :: 0 <= i < j < |s| ==> s[i] != s[j]
  }

  /** The required fields the available set does not contain, each once,
      as iterating the set of required fields gives them. */
  function Absent(fields: seq<string>, available: set<string>): (r: seq<string>)
    ensures forall f :: f in r <==> f in fields && f !in available
    ensures NoRepeats(r)
    ensures |r| <= |fields|
  {
    if |fields| == 0 then []
    else
      var rest := Absent(fields[1..], available);
      if fields[0] in available || fields[0] in fields[1..] then rest
      else
        assert forall k :: 0 <= k < |rest| ==> rest[k] != fields[0];
        [fields[0]] + rest
  }

  /** A list without repeats holds each string at most once. */
  lemma {:induction false} NoRepeatsCount(s: seq<string>, x: string)
    requires NoRepeats(s)
    ensures multiset(s)[x] <= 1
  {
    if |s| > 0 {
      var tail := s[1..];
      assert NoRepeats(tail) by {
        forall i, j | 0 <= i < j < |tail| ensures tail[i] != tail[j] {
          assert tail[i] == s[i + 1] && tail[j] == s[j + 1];
        }
      }
      NoRepeatsCount(tail, x);
      assert s == [s[0]] + tail;
      if s[0] == x {
        assert x !in tail by {
          forall k | 0 <= k < |tail| ensures tail[k] != x { assert tail[k] == s[k + 1]; }
        }
      }
    }
  }

  /** A rearrangement of a list without repeats has none either. */
  lemma PermutationNoRepeats(a: seq<string>, b: seq<string>)
    requires NoRepeats(a) && multiset(a) == multiset(b)
    ensures NoRepeats(b)
  {
    forall i, j | 0 <= i < j < |b| ensures b[i] != b[j] {
      if b[i] == b[j] {
        var x := b[i];
        assert b == b[..j] + [x] + b[j + 1..];
        assert x in b[..j];
        assert multiset(b)[x] == multiset(b[..j])[x] + 1 + multiset(b[j + 1..])[x];
        NoRepeatsCount(a, x);
        assert false;
      }
    }
  }

  /** Nothing is missing exactly when every required field is available. */
  lemma {:induction false} AbsentWhenAllAvailable(fields: seq<string>, available: set<string>)
    ensures Absent(fields, available) == [] <==> forall f :: f in fields ==> f in available
  {
    if |fields| > 0 {
      AbsentWhenAllAvailable(fields[1..], available);
      assert forall f :: f in fields[1..] ==> f in fields;
      assert fields == [fields[0]] + fields[1..];
    }
  }

  /** The record `analyze_feasibility` emits for one indicator. */
  function Assess(t: Tables, ind: IndicatorDefinition): (r: FeasibilityRecord)
    ensures r.indicator == ind.name && r.category == ind.category
    ensures ind.name !in t.requirements ==>
              r.status == NotCalculable && r.source == "unknown" && r.missingData == [UnmappedMissing]
    ensures ind.name in t.requirements ==>
              var req := t.requirements[ind.name];
              var available := if req.source in t.available then t.available[req.source] else {};
              && r.source == req.source
              && r.status != NotCalculable
              && (r.status == Calculable <==> r.missingData == [])
              && SortedStrings(r.missingData) && NoRepeats(r.missingData)
              && (forall f :: f in r.missingData <==> f in req.fields && f !in available)
  {
    if ind.name !in t.requirements then
      FeasibilityRecord(ind.name, ind.category, NotCalculable, "unknown", [UnmappedMissing],
                        "Needs additional mapped fields or financial statements.")
    else
      var req := t.requirements[ind.name];
      var available := if req.source in t.available then t.available[req.source] else {};
      var missing := SortStrings(Absent(req.fields, available));
      assert forall f :: f in missing <==> f in multiset(Absent(req.fields, available));
      PermutationNoRepeats(Absent(req.fields, available), missing);
      if |missing| > 0 then
        FeasibilityRecord(ind.name, ind.category, PartiallyCalculable, req.source, missing,
                          "Some required fields are missing.")
      else
        FeasibilityRecord(ind.name, ind.category, Calculable, req.source, missing,
                          "Required fields available.")
  }

  /** `analyze_feasibility`: one record per indicator, in input order. */
  method AnalyzeFeasibility(t: Tables, indicators: seq<IndicatorDefinition>)
    returns (records: seq<FeasibilityRecord>)
    ensures |records| == |indicators|
    ensures forall i :: 0 <= i < |indicators| ==> records[i] == Assess(t, indicators[i])
  {
    records := [];
    var i := 0;
    while i < |indicators|
      invariant 0 <= i <= |indicators|
      invariant |records| == i
      invariant forall k :: 0 <= k < i ==> records[k] == Assess(t, indicators[k])
    {
      records := records + [Assess(t, indicators[i])];
      i := i + 1;
    }
  }

  function CountStatus(records: seq<FeasibilityRecord>, s: Status): (n: nat)
    ensures n <= |records|
  {
    if |records| == 0 then 0
    else CountStatus(records[..|records| - 1], s) + (if records[|records| - 1].status == s then 1 else 0)
  }

  /** Extending a prefix by one record counts that record once. */
  lemma CountStatusStep(records: seq<FeasibilityRecord>, i: nat, s: Status)
    requires i < |records|
    ensures CountStatus(records[..i + 1], s) == CountStatus(records[..i], s) + (if records[i].status == s then 1 else 0)
  {
    assert records[..i + 1][..i] == records[..i];
  }

  /** `summarize_feasibility`: all three statuses, each with its count; the
      counts add up to the number of records. */
  method SummarizeFeasibility(records: seq<FeasibilityRecord>) returns (summary: map<Status, nat>)
    ensures summary.Keys == {Calculable, PartiallyCalculable, NotCalculable}
    ensures forall s :: s in summary ==> summary[s] == CountStatus(records, s)
    ensures summary[Calculable] + summary[PartiallyCalculable] + summary[NotCalculable] == |records|
  {
    summary := map[Calculable := 0, PartiallyCalculable := 0, NotCalculable := 0];
    var i := 0;
    while i < |records|
      invariant 0 <= i <= |records|
      invariant summary.Keys == {Calculable, PartiallyCalculable, NotCalculable}
      invariant forall s :: s in summary ==> summary[s] == CountStatus(records[..i], s)
    {
      var status := records[i].status;
      forall s | s in summary { CountStatusStep(records, i, s); }
      summary := summary[status := summary[status] + 1];
      i := i + 1;
    }
    assert records[..|records|] == records;
    StatusPartition(records);
  }

  /** Every record has exactly one of the three statuses. */
  lemma {:induction false} StatusPartition(records: seq<FeasibilityRecord>)
    ensures CountStatus(records, Calculable) + CountStatus(records, PartiallyCalculable)
            + CountStatus(records, NotCalculable) == |records|
  {
    if |records| > 0 {
      StatusPartition(records[..|records| - 1]);
    }
  }

  /** With the shipped tables every mapped indicator's fields are all
      available, so every mapped indicator is calculable. */
  lemma ShippedMappedAreCalculable(ind: IndicatorDefinition)
    requires ind.name in IndicatorRequirements
    ensures Assess(Shipped, ind).status == Calculable
    ensures Assess(Shipped, ind).missingData == []
  {
    var req := IndicatorRequirements[ind.name];
    assert req.source == Src;
    var available := AvailableFieldHints[Src];
    assert forall f :: f in req.fields ==> f in available;
    AbsentWhenAllAvailable(req.fields, available);
    assert SortStrings(Absent(req.fields, available)) == [];
  }
}
