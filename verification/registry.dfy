/** The indicator catalogue parser: a listing of indicator names, one per
    line, grouped under a closed set of section headers. */
module Registry {
  import opened Values

  datatype IndicatorDefinition = IndicatorDefinition(name: string, category: string)

  const SectionNames: set<string> := {
    "Basic Information", "Price and Volume", "Valuation Ratios",
    "Performance Metrics", "Price Levels", "Company Information",
    "Revenue and Growth", "Profitability", "Earnings", "Cash Flow",
    "Balance Sheet", "Margins and Ratios", "Debt and Leverage",
    "Efficiency and Turnover", "Dividends and Shareholder Returns",
    "Market and Technical Indicators", "Shares and Ownership",
    "Earnings and Dividend Dates", "Return on Investment",
    "Employee and Revenue Metrics", "Miscellaneous"
  }

  /** Column-header boilerplate that is neither a header nor an indicator. */
  const SkipItems: set<string> := {"No.", "Symbol", "Company Name"}

  const Uncategorized: string := "Uncategorized"

  /** The closed vocabulary the parser recognises: header lines and skipped
      lines. `Catalogue` is the one the repository ships. */
  datatype Vocabulary = Vocabulary(headers: set<string>, skips: set<string>)

  const Catalogue: Vocabulary := Vocabulary(SectionNames, SkipItems)

  /** A stripped line that switches the current category. */
  predicate IsHeader(v: Vocabulary, line: string)
  {
    line != "" && line in v.headers
  }

  /** A stripped line that becomes an indicator entry. */
  predicate Emits(v: Vocabulary, line: string)
  {
    line != "" && line !in v.headers && line !in v.skips
  }

  /** The category in force after `lines`: the last header among them, or
      "Uncategorized" when there is none. */
  function HeaderAfter(v: Vocabulary, lines: seq<string>): string
  {
    if |lines| == 0 then Uncategorized
    else if IsHeader(v, Strip(lines[|lines| - 1])) then Strip(lines[|lines| - 1])
    else HeaderAfter(v, lines[..|lines| - 1])
  }

  /** The entries the catalogue `lines` denotes: one per emitting line, in
      line order, tagged with the header in force before that line. */
  function Entries(v: Vocabulary, lines: seq<string>): seq<IndicatorDefinition>
  {
    if |lines| == 0 then []
    else
      var init := lines[..|lines| - 1];
      var line := Strip(lines[|lines| - 1]);
      Entries(v, init) + (if Emits(v, line) then [IndicatorDefinition(line, HeaderAfter(v, init))] else [])
  }

  /** The names of the emitting lines, stripped, in order. */
  function KeptLines(v: Vocabulary, lines: seq<string>): seq<string>
  {
    if |lines| == 0 then []
    else
      var line := Strip(lines[|lines| - 1]);
      KeptLines(v, lines[..|lines| - 1]) + (if Emits(v, line) then [line] else [])
  }

  /** `parse_indicators` over the lines of the file. */
  method ParseIndicators(v: Vocabulary, rawLines: seq<string>) returns (parsed: seq<IndicatorDefinition>)
    ensures parsed == Entries(v, rawLines)
  {
    var lines := seq(|rawLines|, i requires 0 <= i < |rawLines| => Strip(rawLines[i]));
    var currentSection := Uncategorized;
    parsed := [];
    var i := 0;
    while i < |lines|
      invariant 0 <= i <= |lines|
      invariant currentSection == HeaderAfter(v, rawLines[..i])
      invariant parsed == Entries(v, rawLines[..i])
    {
      var line := lines[i];
      ParseStep(v, rawLines, i);
      if line == "" {
      } else if line in v.headers {
        currentSection := line;
      } else if line in v.skips {
      } else {
        parsed := parsed + [IndicatorDefinition(line, currentSection)];
      }
      i := i + 1;
    }
    assert rawLines[..|rawLines|] == rawLines;
  }

  /** One more line: a header replaces the category in force, and an
      emitting line appends one entry. */
  lemma ParseStep(v: Vocabulary, lines: seq<string>, i: nat)
    requires i < |lines|
    ensures var line := Strip(lines[i]);
            && HeaderAfter(v, lines[..i + 1]) == (if IsHeader(v, line) then line else HeaderAfter(v, lines[..i]))
            && Entries(v, lines[..i + 1]) == Entries(v, lines[..i])
               + (if Emits(v, line) then [IndicatorDefinition(line, HeaderAfter(v, lines[..i]))] else [])
  {
    var pre := lines[..i + 1];
    assert pre[..i] == lines[..i];
    assert pre[i] == lines[i];
  }

  /** A header followed by no other header is the category in force. */
  lemma {:induction false} HeaderAfterLastHeader(v: Vocabulary, lines: seq<string>, j: nat)
    requires j < |lines| && IsHeader(v, Strip(lines[j]))
    requires forall k :: j < k < |lines| ==> !IsHeader(v, Strip(lines[k]))
    ensures HeaderAfter(v, lines) == Strip(lines[j])
  {
    if j < |lines| - 1 {
      var init := lines[..|lines| - 1];
      assert forall k :: 0 <= k < |init| ==> init[k] == lines[k];
      HeaderAfterLastHeader(v, init, j);
    }
  }

  /** With no header line, everything is "Uncategorized". */
  lemma {:induction false} HeaderAfterNoHeader(v: Vocabulary, lines: seq<string>)
    requires forall k :: 0 <= k < |lines| ==> !IsHeader(v, Strip(lines[k]))
    ensures HeaderAfter(v, lines) == Uncategorized
  {
    if |lines| > 0 {
      var init := lines[..|lines| - 1];
      assert forall k :: 0 <= k < |init| ==> init[k] == lines[k];
      HeaderAfterNoHeader(v, init);
    }
  }

  lemma {:induction false} HeaderAfterKnown(v: Vocabulary, lines: seq<string>)
    ensures HeaderAfter(v, lines) == Uncategorized || IsHeader(v, HeaderAfter(v, lines))
  {
    if |lines| > 0 {
      HeaderAfterKnown(v, lines[..|lines| - 1]);
    }
  }

  /** Every entry's category is a known header or "Uncategorized"; every
      name is a stripped, non-blank line that is neither header nor skip. */
  lemma {:induction false} EntriesWellFormed(v: Vocabulary, lines: seq<string>)
    ensures forall e :: e in Entries(v, lines) ==>
              Emits(v, e.name) && Strip(e.name) == e.name
              && (e.category == Uncategorized || IsHeader(v, e.category))
  {
    if |lines| > 0 {
      var init := lines[..|lines| - 1];
      EntriesWellFormed(v, init);
      HeaderAfterKnown(v, init);
      StripIdempotent(lines[|lines| - 1]);
    }
  }

  /** The names are exactly the emitting lines, stripped and in order, so
      there are never more entries than lines. */
  lemma {:induction false} EntriesNames(v: Vocabulary, lines: seq<string>)
    ensures |Entries(v, lines)| == |KeptLines(v, lines)| <= |lines|
    ensures forall k :: 0 <= k < |Entries(v, lines)| ==> Entries(v, lines)[k].name == KeptLines(v, lines)[k]
  {
    if |lines| > 0 {
      EntriesNames(v, lines[..|lines| - 1]);
    }
  }

  /** Parsing a longer listing only appends entries. */
  lemma {:induction false} EntriesPrefix(v: Vocabulary, lines: seq<string>, i: nat)
    requires i <= |lines|
    ensures |Entries(v, lines[..i])| <= |Entries(v, lines)|
    ensures Entries(v, lines[..i]) == Entries(v, lines)[..|Entries(v, lines[..i])|]
  {
    if i < |lines| {
      var init := lines[..|lines| - 1];
      assert init[..i] == lines[..i];
      EntriesPrefix(v, init, i);
    } else {
      assert lines[..i] == lines;
    }
  }

  /** An emitting line i yields the entry at position |Entries(v, lines[..i])|,
      named by the stripped line and filed under the header last seen
      before it. */
  lemma EntryOfLine(v: Vocabulary, lines: seq<string>, i: nat)
    requires i < |lines| && Emits(v, Strip(lines[i]))
    ensures |Entries(v, lines[..i])| < |Entries(v, lines)|
    ensures Entries(v, lines)[|Entries(v, lines[..i])|] ==
              IndicatorDefinition(Strip(lines[i]), HeaderAfter(v, lines[..i]))
  {
    var pre := lines[..i + 1];
    assert pre[..i] == lines[..i];
    assert pre[|pre| - 1] == lines[i];
    assert Entries(v, pre) == Entries(v, lines[..i]) + [IndicatorDefinition(Strip(lines[i]), HeaderAfter(v, lines[..i]))];
    EntriesPrefix(v, lines, i + 1);
  }

  /** The names filed under `category`, in input order. */
  function NamesIn(defs: seq<IndicatorDefinition>, category: string): seq<string>
  {
    if |defs| == 0 then []
    else
      var d := defs[|defs| - 1];
      NamesIn(defs[..|defs| - 1], category) + (if d.category == category then [d.name] else [])
  }

  /** The categories that occur, in order of first occurrence. */
  function Categories(defs: seq<IndicatorDefinition>): (cats: seq<string>)
    ensures forall c :: c in cats <==> NamesIn(defs, c) != []
    ensures forall a, b :: 0 <= a < b < |cats| ==> cats[a] != cats[b]
  {
    if |defs| == 0 then []
    else
      var init := defs[..|defs| - 1];
      var c := defs[|defs| - 1].category;
      Categories(init) + (if c in Categories(init) then [] else [c])
  }

  /** Some name is filed under `c` exactly when some indicator has that
      category. */
  lemma {:induction false} NamesInOccur(defs: seq<IndicatorDefinition>, c: string)
    ensures NamesIn(defs, c) != [] <==> exists k :: 0 <= k < |defs| && defs[k].category == c
  {
    if |defs| > 0 {
      var init := defs[..|defs| - 1];
      var d := defs[|defs| - 1];
      NamesInOccur(init, c);
      assert NamesIn(defs, c) == NamesIn(init, c) + (if d.category == c then [d.name] else []);
      if exists k :: 0 <= k < |init| && init[k].category == c {
        var k :| 0 <= k < |init| && init[k].category == c;
        assert defs[k] == init[k];
      }
      if exists k :: 0 <= k < |defs| && defs[k].category == c {
        var k :| 0 <= k < |defs| && defs[k].category == c;
        if k < |init| {
          assert init[k] == defs[k];
        }
      }
    }
  }

  /** A category is listed exactly when some indicator is filed under it. */
  lemma CategoriesOccur(defs: seq<IndicatorDefinition>, c: string)
    ensures c in Categories(defs) <==> exists k :: 0 <= k < |defs| && defs[k].category == c
  {
    NamesInOccur(defs, c);
  }

  /** The categories of a prefix of the definitions are a prefix of the
      categories of all of them: a later definition never moves an earlier
      category. */
  lemma {:induction false} CategoriesPrefix(defs: seq<IndicatorDefinition>, n: nat)
    requires n <= |defs|
    ensures var p := Categories(defs[..n]); |p| <= |Categories(defs)| && Categories(defs)[..|p|] == p
  {
    if n < |defs| {
      var init := defs[..|defs| - 1];
      assert init[..n] == defs[..n];
      CategoriesPrefix(init, n);
    } else {
      assert defs[..n] == defs;
    }
  }

  /** A category used before `b` is among the categories of `defs[..b]`. */
  lemma CategoriesUsedBefore(defs: seq<IndicatorDefinition>, a: nat, b: nat)
    requires a < b <= |defs|
    ensures defs[a].category in Categories(defs[..b])
  {
    assert defs[..b][a] == defs[a];
    CategoriesOccur(defs[..b], defs[a].category);
  }

  /** A category first used at `b` is appended after those of `defs[..b]`. */
  lemma CategoriesNew(defs: seq<IndicatorDefinition>, b: nat)
    requires b < |defs|
    requires forall k :: 0 <= k < b ==> defs[k].category != defs[b].category
    ensures Categories(defs[..b + 1]) == Categories(defs[..b]) + [defs[b].category]
  {
    var cb := defs[b].category;
    assert defs[..b + 1][..b] == defs[..b];
    assert defs[..b + 1][b] == defs[b];
    CategoriesOccur(defs[..b], cb);
    assert forall k :: 0 <= k < b ==> defs[..b][k] == defs[k];
  }

  /** Categories are listed in order of first use: a category used at `a`
      comes before one first used at a later position `b`. */
  lemma CategoriesFirstUse(defs: seq<IndicatorDefinition>, a: nat, b: nat)
    requires a < b < |defs|
    requires forall k :: 0 <= k < b ==> defs[k].category != defs[b].category
    ensures exists i, j :: 0 <= i < j < |Categories(defs)|
                           && Categories(defs)[i] == defs[a].category && Categories(defs)[j] == defs[b].category
  {
    var ca, cb := defs[a].category, defs[b].category;
    var before := Categories(defs[..b]);
    var after := Categories(defs[..b + 1]);
    CategoriesUsedBefore(defs, a, b);
    CategoriesNew(defs, b);
    CategoriesPrefix(defs, b + 1);
    var i :| 0 <= i < |before| && before[i] == ca;
    assert Categories(defs)[i] == after[i] == ca;
    assert Categories(defs)[|before|] == after[|before|] == cb;
  }

  /** `build_indicator_map`: category to the names filed under it. */
  method BuildIndicatorMap(defs: seq<IndicatorDefinition>) returns (out: map<string, seq<string>>)
    ensures forall c :: c in out <==> c in Categories(defs)
    ensures forall c :: c in out ==> out[c] == NamesIn(defs, c)
  {
    out := map[];
    var i := 0;
    while i < |defs|
      invariant 0 <= i <= |defs|
      invariant forall c :: c in out <==> NamesIn(defs[..i], c) != []
      invariant forall c :: c in out ==> out[c] == NamesIn(defs[..i], c)
    {
      var d := defs[i];
      ghost var pre := defs[..i + 1];
      assert pre[..i] == defs[..i] && pre[i] == d;
      assert forall c :: NamesIn(pre, c) == NamesIn(defs[..i], c) + (if d.category == c then [d.name] else []);
      var names := if d.category in out then out[d.category] else [];
      out := out[d.category := names + [d.name]];
      i := i + 1;
    }
    assert defs[..|defs|] == defs;
  }

  function SumLengths(cats: seq<string>, defs: seq<IndicatorDefinition>): nat
  {
    if |cats| == 0 then 0 else |NamesIn(defs, cats[0])| + SumLengths(cats[1..], defs)
  }

  function Occurrences(cats: seq<string>, c: string): nat
  {
    if |cats| == 0 then 0 else (if cats[0] == c then 1 else 0) + Occurrences(cats[1..], c)
  }

  lemma {:induction false} SumLengthsStep(cats: seq<string>, defs: seq<IndicatorDefinition>)
    requires |defs| > 0
    ensures SumLengths(cats, defs) ==
            SumLengths(cats, defs[..|defs| - 1]) + Occurrences(cats, defs[|defs| - 1].category)
  {
    if |cats| > 0 {
      SumLengthsStep(cats[1..], defs);
    }
  }

  lemma {:induction false} OccurrencesDistinct(cats: seq<string>, c: string)
    requires forall a, b :: 0 <= a < b < |cats| ==> cats[a] != cats[b]
    ensures Occurrences(cats, c) == if c in cats then 1 else 0
  {
    if |cats| > 0 {
      OccurrencesDistinct(cats[1..], c);
      if cats[0] == c {
        assert c !in cats[1..] by {
          forall k | 0 <= k < |cats[1..]| ensures cats[1..][k] != c { assert cats[k + 1] != cats[0]; }
        }
      }
    }
  }

  lemma {:induction false} SumLengthsAppend(a: seq<string>, b: seq<string>, defs: seq<IndicatorDefinition>)
    ensures SumLengths(a + b, defs) == SumLengths(a, defs) + SumLengths(b, defs)
  {
    if |a| == 0 {
      assert a + b == b;
    } else {
      assert (a + b)[0] == a[0];
      assert (a + b)[1..] == a[1..] + b;
      SumLengthsAppend(a[1..], b, defs);
    }
  }

  lemma {:induction false} NamesInAbsent(defs: seq<IndicatorDefinition>, c: string)
    requires c !in Categories(defs)
    ensures NamesIn(defs, c) == []
  {
    if |defs| > 0 {
      var init := defs[..|defs| - 1];
      assert c !in Categories(init);
      NamesInAbsent(init, c);
    }
  }

  /** The groups of `build_indicator_map` partition the entries: their
      sizes add up to the number of indicators. */
  lemma {:induction false} GroupSizesSum(defs: seq<IndicatorDefinition>)
    ensures SumLengths(Categories(defs), defs) == |defs|
  {
    if |defs| > 0 {
      var init := defs[..|defs| - 1];
      var c := defs[|defs| - 1].category;
      GroupSizesSum(init);
      var cats := Categories(defs);
      SumLengthsStep(cats, defs);
      OccurrencesDistinct(cats, c);
      if c in Categories(init) {
        assert cats == Categories(init);
      } else {
        SumLengthsAppend(Categories(init), [c], init);
        NamesInAbsent(init, c);
        assert SumLengths([c], init) == 0;
      }
    }
  }
}
