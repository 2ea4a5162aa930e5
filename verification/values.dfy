/** JSON-like row values, as the data store returns them, and the Python
    built-ins the pipeline applies to them: `str()`, `str.strip()`,
    `float()` and truthiness. */
module Values {

  datatype Option<T> = None | Some(value: T)

  datatype Result<T, E> = Success(value: T) | Failure(error: E)

  /** One field value. `NaN` is a non-finite float: nan, or an infinity
      produced by numpy division, folded into it; `Obj` is a nested
      mapping, kept as its ordered list of entries, because Python dicts
      remember insertion order. */
  datatype Value =
    | Null
    | Bool(b: bool)
    | Int(i: int)
    | Num(r: real)
    | NaN
    | Str(s: string)
    | Obj(entries: seq<(string, Value)>)

  /** A top-level row: field name to value. */
  type Row = map<string, Value>

  /** `row.get(key)`: a missing key reads as None. */
  function Get(row: Row, key: string): Value
  {
    if key in row then row[key] else Null
  }

  /** `dict(entries).get(key)`: building a dict from entries keeps the last
      value given for a key, so the lookup finds the last occurrence. */
  function Lookup(entries: seq<(string, Value)>, key: string): (v: Value)
    ensures (forall i :: 0 <= i < |entries| ==> entries[i].0 != key) ==> v == Null
    ensures v != Null ==> exists i :: 0 <= i < |entries| && entries[i] == (key, v)
  {
    if |entries| == 0 then Null
    else if entries[|entries| - 1].0 == key then entries[|entries| - 1].1
    else Lookup(entries[..|entries| - 1], key)
  }

  // ---------------------------------------------------------------------
  // Whitespace and str.strip()

  /** The ASCII characters Python's str.isspace() accepts: space, tab, the
      line and page breaks, and the four separators 0x1C to 0x1F. */
  predicate IsSpace(c: char)
  {
    || c == ' ' || c == '\t' || c == '\n' || c == '\r' || c == '\U{000B}' || c == '\U{000C}'
    || ('\U{001C}' <= c <= '\U{001F}')
  }

  function TrimStart(s: string): string
  {
    if |s| > 0 && IsSpace(s[0]) then TrimStart(s[1..]) else s
  }

  function TrimEnd(s: string): string
  {
    if |s| > 0 && IsSpace(s[|s| - 1]) then TrimEnd(s[..|s| - 1]) else s
  }

  /** Trimming the front drops a run of leading whitespace, stopping at the
      first other character. */
  lemma {:induction false} TrimStartShape(s: string)
    ensures var r := TrimStart(s);
            && |r| <= |s| && r == s[|s| - |r|..]
            && (forall k :: 0 <= k < |s| - |r| ==> IsSpace(s[k]))
            && (r == [] || !IsSpace(r[0]))
  {
    if |s| > 0 && IsSpace(s[0]) {
      TrimStartShape(s[1..]);
      var r := TrimStart(s[1..]);
      assert s[1..][|s| - 1 - |r|..] == s[|s| - |r|..];
      forall k | 0 <= k < |s| - |r| ensures IsSpace(s[k]) {
        if k > 0 { assert s[k] == s[1..][k - 1]; }
      }
    }
  }

  /** Trimming the back drops a run of trailing whitespace. */
  lemma {:induction false} TrimEndShape(s: string)
    ensures var r := TrimEnd(s);
            && |r| <= |s| && r == s[..|r|]
            && (forall k :: |r| <= k < |s| ==> IsSpace(s[k]))
            && (r == [] || !IsSpace(r[|r| - 1]))
  {
    if |s| > 0 && IsSpace(s[|s| - 1]) {
      var init := s[..|s| - 1];
      TrimEndShape(init);
      var r := TrimEnd(init);
      assert init[..|r|] == s[..|r|];
      forall k | |r| <= k < |s| ensures IsSpace(s[k]) {
        if k < |s| - 1 { assert s[k] == init[k]; }
      }
    }
  }

  /** `s.strip()`. */
  function Strip(s: string): string
  {
    TrimEnd(TrimStart(s))
  }

  /** `s.strip()` is the contiguous middle of `s` left after removing
      leading and trailing whitespace. */
  lemma StripShape(s: string)
    ensures exists i, j :: 0 <= i <= j <= |s| && Strip(s) == s[i..j]
                           && (forall k :: 0 <= k < i ==> IsSpace(s[k]))
                           && (forall k :: j <= k < |s| ==> IsSpace(s[k]))
    ensures var r := Strip(s); r == [] || (!IsSpace(r[0]) && !IsSpace(r[|r| - 1]))
  {
    var t := TrimStart(s);
    TrimStartShape(s);
    var r := TrimEnd(t);
    TrimEndShape(t);
    assert r == s[|s| - |t|..|s| - |t| + |r|];
  }

  /** A string with no whitespace at either end is its own strip. */
  lemma {:induction false} StripUnpadded(s: string)
    requires s == [] || (!IsSpace(s[0]) && !IsSpace(s[|s| - 1]))
    ensures Strip(s) == s
  {
  }

  /** Stripping twice is stripping once. */
  lemma StripIdempotent(s: string)
    ensures Strip(Strip(s)) == Strip(s)
  {
    StripShape(s);
    StripUnpadded(Strip(s));
  }

  /** A line strips to the empty string exactly when it is all whitespace. */
  lemma StripEmptyIffBlank(s: string)
    ensures Strip(s) == [] <==> forall k :: 0 <= k < |s| ==> IsSpace(s[k])
  {
    StripShape(s);
    if Strip(s) == [] {
      var i, j :| 0 <= i <= j <= |s| && Strip(s) == s[i..j]
                  && (forall k :: 0 <= k < i ==> IsSpace(s[k]))
                  && (forall k :: j <= k < |s| ==> IsSpace(s[k]));
      assert i == j;
      forall k | 0 <= k < |s| ensures IsSpace(s[k]) {
        if k >= i { assert k >= j; }
      }
    }
    if forall k :: 0 <= k < |s| ==> IsSpace(s[k]) {
      TrimStartShape(s);
    }
  }

  // ---------------------------------------------------------------------
  // Decimal text: str() of an int and float() of a decimal string

  predicate IsDigit(c: char) { '0' <= c <= '9' }

  predicate AllDigits(s: string) { forall k :: 0 <= k < |s| ==> IsDigit(s[k]) }

  function DigitChar(d: nat): (c: char)
    requires d < 10
    ensures IsDigit(c) && (c as int) - ('0' as int) == d
  {
    (('0' as int) + d) as char
  }

  /** The decimal digits of `n`, most significant first, as Python's str(n). */
  function NatText(n: nat): (s: string)
    ensures |s| > 0 && AllDigits(s)
  {
    if n < 10 then [DigitChar(n)] else NatText(n / 10) + [DigitChar(n % 10)]
  }

  /** `str(i)` for a Python int. */
  function IntText(i: int): string
  {
    if i < 0 then "-" + NatText(-i) else NatText(i)
  }

  /** The number a string of decimal digits denotes. */
  function DigitsValue(s: string): nat
    requires AllDigits(s)
  {
    if |s| == 0 then 0
    else DigitsValue(s[..|s| - 1]) * 10 + ((s[|s| - 1] as int) - ('0' as int))
  }

  function Pow10(k: nat): (p: nat)
    ensures p >= 1
  {
    if k == 0 then 1 else 10 * Pow10(k - 1)
  }

  /** Index of the first '.' in `s`, or |s| when there is none. */
  function DotIndex(s: string): (k: nat)
    ensures k <= |s|
    ensures k < |s| ==> s[k] == '.'
    ensures forall j :: 0 <= j < k ==> s[j] != '.'
  {
    if |s| == 0 then 0
    else if s[0] == '.' then 0
    else 1 + DotIndex(s[1..])
  }

  /** An unsigned decimal `ddd`, `ddd.ddd`, `ddd.` or `.ddd`. */
  function ParseUnsigned(t: string): Option<real>
  {
    var k := DotIndex(t);
    var whole := t[..k];
    var frac := if k < |t| then t[k + 1..] else "";
    if AllDigits(whole) && AllDigits(frac) && |whole| + |frac| > 0 then
      Some(DigitsValue(whole) as real + DigitsValue(frac) as real / Pow10(|frac|) as real)
    else None
  }

  /** `float(s)` for a string: surrounding whitespace, an optional sign and
      an unsigned decimal. */
  function ParseNumber(s: string): Option<real>
  {
    var t := Strip(s);
    if |t| > 0 && (t[0] == '+' || t[0] == '-') then
      match ParseUnsigned(t[1..])
      case None => None
      case Some(x) => Some(if t[0] == '-' then -x else x)
    else ParseUnsigned(t)
  }

  lemma {:induction false} DigitsValueOfNatText(n: nat)
    ensures DigitsValue(NatText(n)) == n
  {
    if n >= 10 {
      var s := NatText(n);
      assert s[..|s| - 1] == NatText(n / 10);
      DigitsValueOfNatText(n / 10);
    }
  }

  lemma NatTextParses(m: nat)
    ensures ParseUnsigned(NatText(m)) == Some(m as real)
  {
    var d := NatText(m);
    assert forall k :: 0 <= k < |d| ==> d[k] != '.';
    assert d[..|d|] == d;
    DigitsValueOfNatText(m);
  }

  /** float(str(i)) == i: the text Python prints for an int reads back as
      the same number. */
  lemma {:induction false} ParseIntText(i: int)
    ensures ParseNumber(IntText(i)) == Some(i as real)
  {
    var m: nat := if i < 0 then -i else i;
    var d := NatText(m);
    assert IsDigit(d[0]) && IsDigit(d[|d| - 1]);
    StripUnpadded(IntText(i));
    NatTextParses(m);
    if i < 0 {
      assert IntText(i)[1..] == d;
    } else {
      assert IntText(i) == d;
    }
  }

  // ---------------------------------------------------------------------
  // Python built-ins on values

  /** A Python float: a finite real, or one of nan, inf and -inf (kept as a
      single non-finite value). */
  datatype Float = Finite(x: real) | NonFinite

  /** ASCII `str.lower()` of one character. */
  function Lower(c: char): (d: char)
    ensures !('A' <= d <= 'Z')
    ensures 'a' <= c <= 'z' || '0' <= c <= '9' ==> d == c
  {
    if 'A' <= c <= 'Z' then (c as int - 'A' as int + 'a' as int) as char else c
  }

  function LowerString(s: string): (t: string)
    ensures |t| == |s| && forall k :: 0 <= k < |s| ==> t[k] == Lower(s[k])
  {
    seq(|s|, k requires 0 <= k < |s| => Lower(s[k]))
  }

  /** `lower()` is idempotent, and leaves a string without upper-case
      letters as it is. */
  lemma LowerStringFixed(s: string)
    ensures LowerString(LowerString(s)) == LowerString(s)
    ensures (forall k :: 0 <= k < |s| ==> !('A' <= s[k] <= 'Z')) ==> LowerString(s) == s
  {
  }

  /** The spellings float() reads as nan or an infinity, in any letter case,
      with an optional sign. */
  predicate IsNonFiniteText(s: string)
  {
    var t := LowerString(Strip(s));
    var body := if |t| > 0 && (t[0] == '+' || t[0] == '-') then t[1..] else t;
    body == "nan" || body == "inf" || body == "infinity"
  }

  /** `float(s)` for a string. */
  function ParseFloat(s: string): (r: Option<Float>)
    ensures IsNonFiniteText(s) ==> r == Some(NonFinite)
    ensures !IsNonFiniteText(s) ==> (r.Some? <==> ParseNumber(s).Some?)
    ensures r.Some? && r.value.Finite? ==> ParseNumber(s) == Some(r.value.x)
  {
    if IsNonFiniteText(s) then Some(NonFinite)
    else match ParseNumber(s)
      case None => None
      case Some(x) => Some(Finite(x))
  }

  /** `_to_float(value)`: None and anything float() rejects give None. */
  function ToFloat(v: Value): (r: Option<Float>)
    ensures v.Num? ==> r == Some(Finite(v.r))
    ensures v.Int? ==> r == Some(Finite(v.i as real))
    ensures v.NaN? ==> r == Some(NonFinite)
    ensures v.Null? || v.Obj? ==> r == None
  {
    match v
    case Null => None
    case Bool(b) => Some(Finite(if b then 1.0 else 0.0))
    case Int(i) => Some(Finite(i as real))
    case Num(r) => Some(Finite(r))
    case NaN => Some(NonFinite)
    case Str(s) => ParseFloat(s)
    case Obj(_) => None
  }

  /** `pd.to_numeric(value, errors="coerce")` kept only when it is a finite
      number. pandas' `dropna()` and `notna()` drop only nan and keep the
      infinities; since `Float` folds the infinities into nan, they are
      dropped here as well. */
  function FiniteOf(v: Value): (r: Option<real>)
    ensures r.Some? <==> ToFloat(v).Some? && ToFloat(v).value.Finite?
    ensures r.Some? ==> ToFloat(v) == Some(Finite(r.value))
  {
    match ToFloat(v)
    case Some(Finite(x)) => Some(x)
    case _ => None
  }

  /** A float as a value: a non-finite float becomes NaN. */
  function FloatValue(f: Float): Value
  {
    match f
    case Finite(x) => Num(x)
    case NonFinite => NaN
  }

  /** `str(value)`. */
  function Text(v: Value): string
  {
    match v
    case Null => "None"
    case Bool(b) => if b then "True" else "False"
    case Int(i) => IntText(i)
    case Num(_) => "<float>"
    case NaN => "nan"
    case Str(s) => s
    case Obj(e) => if |e| == 0 then "{}" else "{...}"
  }

  /** `str(row.get("ticker_symbol", "")).strip()`. */
  function TickerOf(row: Row): (t: string)
    ensures "ticker_symbol" !in row ==> t == ""
    ensures "ticker_symbol" in row && row["ticker_symbol"].Null? ==> t == "None"
  {
    var t := Strip(if "ticker_symbol" in row then Text(row["ticker_symbol"]) else "");
    assert "ticker_symbol" in row && row["ticker_symbol"].Null? ==> t == "None" by {
      if "ticker_symbol" in row && row["ticker_symbol"].Null? { StripUnpadded("None"); }
    }
    t
  }

  /** Python truthiness: None, False, zero, "" and {} are false; NaN is true. */
  predicate Truthy(v: Value)
  {
    match v
    case Null => false
    case Bool(b) => b
    case Int(i) => i != 0
    case Num(r) => r != 0.0
    case NaN => true
    case Str(s) => s != ""
    case Obj(e) => |e| != 0
  }
}
