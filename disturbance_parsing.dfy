/** The text-level helpers of the Disturbance component: recognising a
    disturbance year, reading a year out of a file path, expanding "(min,max)"
    range filters, and naming the layers handed to the tiler
    (gcbmwalltowall/component/disturbance.py). */
module DisturbanceParsing {
  import opened Common

  // ---------------------------------------------------------------------------
  // _looks_like_disturbance_year

  /** Python's str() of an attribute value. */
  function ValueText(v: Value): string
  {
    match v
    case NoneV => "None"
    case IntV(i) => IntToString(i)
    case StrV(s) => s
    case NaN => "nan"
  }

  /** Python's int() of an attribute value; None where int() raises. */
  function ValueAsInt(v: Value): Option<int>
  {
    match v
    case NoneV => None
    case IntV(i) => Some(i)
    case StrV(s) => ParseInt(s)
    case NaN => None
  }

  /** A value is taken for a disturbance year when its text has four characters
      and it converts to an integer strictly between 1000 and 2500. */
  predicate LooksLikeDisturbanceYear(v: Value)
  {
    |ValueText(v)| == 4 && ValueAsInt(v).Some? && 1000 < ValueAsInt(v).value < 2500
  }

  /** What the test accepts, case by case: integers 1001..2499 and four-digit
      texts with a value in that range; the bounds 1000 and 2500 are rejected. */
  lemma LooksLikeDisturbanceYearCases(v: Value)
    ensures LooksLikeDisturbanceYear(v) <==>
      || (v.IntV? && 1000 < v.i < 2500)
      || (v.StrV? && |v.s| == 4 && AllDigits(v.s) && 1000 < DigitsValue(v.s) < 2500)
  {
    match v
    case IntV(i) => IntToStringHasFourChars(i);
    case StrV(s) =>
    case NoneV =>
    case NaN =>
  }

  // ---------------------------------------------------------------------------
  // _try_parse_year: the last of the non-overlapping four-digit runs that
  // re.findall(r"(\d{4})", path) reports, scanning left to right.

  predicate FourDigitsAt(s: string, k: int)
  {
    0 <= k && k + 4 <= |s| && AllDigits(s[k..k + 4])
  }

  /** The start positions of the matches of \d{4} at or after `from`. */
  function MatchStarts(s: string, from: nat): seq<nat>
    decreases |s| - from
  {
    if from + 4 > |s| then []
    else if FourDigitsAt(s, from) then [from] + MatchStarts(s, from + 4)
    else MatchStarts(s, from + 1)
  }

  function TryParseYear(path: string): Option<int>
  {
    var starts := MatchStarts(path, 0);
    if starts == [] then None
    else
      var k := starts[|starts| - 1];
      if FourDigitsAt(path, k) then Some(DigitsValue(path[k..k + 4])) else None
  }

  /** No run of four digits starts in [lo, hi). */
  ghost predicate NoRunIn(s: string, lo: int, hi: int)
  {
    forall k :: lo <= k < hi ==> !FourDigitsAt(s, k)
  }

  /** No run of four digits starts at or after `lo`. */
  ghost predicate NoRunFrom(s: string, lo: int)
  {
    forall k :: lo <= k ==> !FourDigitsAt(s, k)
  }

  /** What a left-to-right scan for non-overlapping runs of four digits
      reports from `from` on: runs, in order and not overlapping, each the
      leftmost run that starts after the previous one ends, and no run after
      the last. */
  ghost predicate IsScan(s: string, from: nat, starts: seq<nat>)
  {
    && (forall m :: 0 <= m < |starts| ==> from <= starts[m] && FourDigitsAt(s, starts[m]))
    && (forall m, n :: 0 <= m < n < |starts| ==> starts[m] + 4 <= starts[n])
    && (if starts == [] then NoRunFrom(s, from) else NoRunIn(s, from, starts[0]))
    && (forall m :: 0 <= m < |starts| - 1 ==> NoRunIn(s, starts[m] + 4, starts[m + 1]))
    && (starts != [] ==> NoRunFrom(s, starts[|starts| - 1] + 4))
  }

  /** A run at `from` followed by a scan from `from + 4` is a scan from `from`. */
  lemma ScanHit(s: string, from: nat, rest: seq<nat>)
    requires FourDigitsAt(s, from) && IsScan(s, from + 4, rest)
    ensures IsScan(s, from, [from] + rest)
  {
    var r := [from] + rest;
    assert forall m :: 1 <= m < |r| ==> r[m] == rest[m - 1];
    forall m, n | 0 <= m < n < |r| ensures r[m] + 4 <= r[n] {
      if m > 0 {
        assert r[m] == rest[m - 1] && r[n] == rest[n - 1];
      }
    }
    forall m | 0 <= m < |r| - 1 ensures NoRunIn(s, r[m] + 4, r[m + 1]) {
      if m > 0 {
        assert r[m] == rest[m - 1] && r[m + 1] == rest[m];
      }
    }
    if rest != [] {
      assert r[|r| - 1] == rest[|rest| - 1];
    }
  }

  /** A scan from `from + 1`, when no run starts at `from`, is a scan from `from`. */
  lemma ScanSkip(s: string, from: nat, r: seq<nat>)
    requires !FourDigitsAt(s, from) && IsScan(s, from + 1, r)
    ensures IsScan(s, from, r)
  {
  }

  /** A scan from `from` that starts with a run at `from` continues with a scan
      from `from + 4`. */
  lemma ScanTail(s: string, from: nat, starts: seq<nat>)
    requires IsScan(s, from, starts) && starts != [] && starts[0] == from
    ensures IsScan(s, from + 4, starts[1..])
  {
    var rest := starts[1..];
    assert forall m :: 0 <= m < |rest| ==> rest[m] == starts[m + 1];
    forall m | 0 <= m < |rest| ensures from + 4 <= rest[m] && FourDigitsAt(s, rest[m]) {
      assert starts[0] + 4 <= starts[m + 1];
    }
    forall m | 0 <= m < |rest| - 1 ensures NoRunIn(s, rest[m] + 4, rest[m + 1]) {
      assert NoRunIn(s, starts[m + 1] + 4, starts[m + 2]);
    }
    if rest == [] {
      assert NoRunFrom(s, from + 4);
    } else {
      assert NoRunIn(s, starts[0] + 4, starts[1]);
      assert rest[|rest| - 1] == starts[|starts| - 1];
    }
  }

  /** The matches found are such a scan. */
  lemma {:induction false} MatchStartsFacts(s: string, from: nat)
    ensures IsScan(s, from, MatchStarts(s, from))
    ensures MatchStarts(s, from) == [] <==> NoRunFrom(s, from)
    decreases |s| - from
  {
    if from + 4 > |s| {
      assert MatchStarts(s, from) == [];
    } else if FourDigitsAt(s, from) {
      MatchStartsFacts(s, from + 4);
      ScanHit(s, from, MatchStarts(s, from + 4));
    } else {
      MatchStartsFacts(s, from + 1);
      ScanSkip(s, from, MatchStarts(s, from + 1));
    }
  }

  /** The scan is unique: any sequence with the properties of a scan is the
      list of matches found. */
  lemma {:induction false} ScanIsMatchStarts(s: string, from: nat, starts: seq<nat>)
    requires IsScan(s, from, starts)
    ensures starts == MatchStarts(s, from)
    decreases |s| - from
  {
    if from + 4 > |s| {
    } else if FourDigitsAt(s, from) {
      assert starts != [] && starts[0] == from;
      ScanTail(s, from, starts);
      ScanIsMatchStarts(s, from + 4, starts[1..]);
      assert starts == [from] + starts[1..];
    } else {
      assert IsScan(s, from + 1, starts);
      ScanIsMatchStarts(s, from + 1, starts);
    }
  }

  /** A year is read from the path exactly when the path (directories included)
      holds four consecutive digits; the year is the value of the last match of
      the left-to-right scan, and no run of four digits starts after it. */
  lemma TryParseYearFacts(path: string)
    ensures TryParseYear(path).None? <==> forall k :: !FourDigitsAt(path, k)
    ensures var starts := MatchStarts(path, 0);
      IsScan(path, 0, starts)
      && (TryParseYear(path).Some? ==>
            var l := starts[|starts| - 1];
            && FourDigitsAt(path, l)
            && TryParseYear(path).value == DigitsValue(path[l..l + 4])
            && forall j :: l + 4 <= j ==> !FourDigitsAt(path, j))
    ensures TryParseYear(path).Some? ==> 0 <= TryParseYear(path).value <= 9999
  {
    MatchStartsFacts(path, 0);
    var starts := MatchStarts(path, 0);
    if starts != [] {
      var k := starts[|starts| - 1];
      assert FourDigitsAt(path, k);
      DigitsBelow(path[k..k + 4]);
      assert Pow10(4) == 10000;
    }
  }

  /** On "12345" the scan finds 1234 alone, and that is the year read. */
  lemma FindallIsLeftmost()
    ensures MatchStarts("12345", 0) == [0] && TryParseYear("12345") == Some(1234)
  {
    var s := "12345";
    assert FourDigitsAt(s, 0) by { assert s[0..4] == "1234"; }
    assert MatchStarts(s, 4) == [];
    assert s[0..4] == "1234";
    assert DigitsValue("1234") == 1234 by {
      assert "1234"[..3] == "123" && "123"[..2] == "12" && "12"[..1] == "1" && "1"[..0] == "";
    }
  }

  lemma {:induction false} DigitsBelow(s: string)
    requires AllDigits(s)
    ensures DigitsValue(s) < Pow10(|s|)
  {
    if s != [] {
      DigitsBelow(s[..|s| - 1]);
    }
  }

  // ---------------------------------------------------------------------------
  // _parse_filter_value

  /** A configured filter: one value, or a list of values. */
  datatype FilterValue = One(v: Value) | Many(vs: seq<Value>)

  predicate Parenthesised(s: string)
  {
    // a single "(" neither ends with ")" nor is ")", so two characters are implied
    |s| >= 2 && StartsWith(s, "(") && EndsWith(s, ")")
  }

  /** list(range(lo, hi + 1)) */
  function InclusiveRange(lo: int, hi: int): (r: seq<Value>)
    ensures |r| == if lo <= hi then hi - lo + 1 else 0
    ensures forall k :: 0 <= k < |r| ==> r[k] == IntV(lo + k)
    ensures forall v: Value :: v in r <==> v.IntV? && lo <= v.i <= hi
  {
    var r := seq(if lo <= hi then hi - lo + 1 else 0, k => IntV(lo + k));
    assert forall v: Value :: v.IntV? && lo <= v.i <= hi ==> r[v.i - lo] == v;
    r
  }

  function TrimSpaces(s: string): (r: string)
    ensures |r| <= |s|
    decreases |s|
  {
    if s != [] && s[0] == ' ' then TrimSpaces(s[1..])
    else if s != [] && s[|s| - 1] == ' ' then TrimSpaces(s[..|s| - 1])
    else s
  }

  function IndexOfComma(s: string): (k: nat)
    ensures k <= |s|
    ensures k < |s| ==> s[k] == ','
    ensures forall j :: 0 <= j < k ==> s[j] != ','
  {
    if s == [] then 0 else if s[0] == ',' then 0 else 1 + IndexOfComma(s[1..])
  }

  /** The two integers of "(min,max)", each optionally surrounded by spaces;
      None for any other text between the parentheses. */
  function ParseRangeBounds(s: string): Option<(int, int)>
    requires Parenthesised(s)
  {
    var inner := s[1..|s| - 1];
    var comma := IndexOfComma(inner);
    if comma == |inner| then None
    else
      match (ParseInt(TrimSpaces(inner[..comma])), ParseInt(TrimSpaces(inner[comma + 1..])))
      case (Some(lo), Some(hi)) => Some((lo, hi))
      case _ => None
  }

  /** A text of the form "(min,max)" becomes the inclusive integer list
      min..max (empty when min > max); a parenthesised text that is not two
      integers is an error; every other filter is kept as configured. */
  function ParseFilterValue(f: FilterValue): (r: Result<FilterValue>)
    ensures !(f.One? && f.v.StrV? && Parenthesised(f.v.s)) ==> r == Ok(f)
    ensures r.Ok? && r.value != f ==> r.value.Many? && forall v :: v in r.value.vs ==> v.IntV?
  {
    match f
    case One(StrV(s)) =>
      if Parenthesised(s) then
        match ParseRangeBounds(s)
        case Some((lo, hi)) => Ok(Many(InclusiveRange(lo, hi)))
        case None => Err(UnparseableRange(s))
      else Ok(f)
    case _ => Ok(f)
  }

  /** The text written for a range filter. */
  function RangeText(lo: int, hi: int): string
  {
    "(" + IntToString(lo) + "," + IntToString(hi) + ")"
  }

  lemma NoSpacesTrim(s: string)
    requires AllDigits(s) || (s != [] && s[0] == '-' && AllDigits(s[1..]))
    ensures TrimSpaces(s) == s
  {
    if s != [] {
      assert s[0] != ' ';
      assert s[|s| - 1] != ' ';
    }
  }

  lemma NoComma(s: string)
    requires AllDigits(s) || (s != [] && s[0] == '-' && AllDigits(s[1..]))
    ensures IndexOfComma(s) == |s|
  {
    forall k | 0 <= k < |s| ensures s[k] != ',' {
      if !AllDigits(s) && k > 0 {
        assert s[k] == s[1..][k - 1];
      }
    }
  }

  lemma IndexOfCommaAppend(a: string, b: string)
    requires IndexOfComma(a) == |a|
    ensures IndexOfComma(a + "," + b) == |a|
  {
    var s := a + "," + b;
    assert forall j :: 0 <= j < |a| ==> s[j] == a[j];
    assert s[|a|] == ',';
  }

  lemma IntTextShape(i: int)
    ensures var t := IntToString(i); AllDigits(t) || (t != [] && t[0] == '-' && AllDigits(t[1..]))
  {
    if i < 0 {
      assert IntToString(i)[1..] == NatToString(-i);
    }
  }

  /** The bounds read back from the text written for min..max are min and max. */
  lemma RangeBoundsRoundTrip(lo: int, hi: int)
    ensures Parenthesised(RangeText(lo, hi)) && ParseRangeBounds(RangeText(lo, hi)) == Some((lo, hi))
  {
    var a, b := IntToString(lo), IntToString(hi);
    var s := RangeText(lo, hi);
    assert Parenthesised(s);
    var inner := s[1..|s| - 1];
    assert inner == a + "," + b;
    IntTextShape(lo);
    IntTextShape(hi);
    NoComma(a);
    IndexOfCommaAppend(a, b);
    var comma := IndexOfComma(inner);
    assert comma == |a|;
    assert inner[..comma] == a;
    assert inner[comma + 1..] == b;
    NoSpacesTrim(a);
    NoSpacesTrim(b);
    ParseIntRoundTrip(lo);
    ParseIntRoundTrip(hi);
    assert ParseInt(TrimSpaces(inner[..comma])) == Some(lo);
    assert ParseInt(TrimSpaces(inner[comma + 1..])) == Some(hi);
  }

  /** Range filters round-trip: the text written for min..max is expanded to
      exactly the integers min..max. */
  lemma RangeFilterRoundTrip(lo: int, hi: int)
    ensures ParseFilterValue(One(StrV(RangeText(lo, hi)))) == Ok(Many(InclusiveRange(lo, hi)))
  {
    RangeBoundsRoundTrip(lo, hi);
  }

  // ---------------------------------------------------------------------------
  // Layer paths and _make_tiler_name

  /** pathlib's name: the text after the last separator. */
  function PathName(p: string): string
  {
    p[LastIndexOf(p, '/') + 1..]
  }

  /** pathlib's suffix: from the last dot of the name, unless the dot starts or
      ends the name. */
  function PathSuffix(p: string): string
  {
    var name := PathName(p);
    var i := LastIndexOf(name, '.');
    if 0 < i < |name| - 1 then name[i..] else ""
  }

  /** pathlib's stem: the name without its suffix. */
  function PathStem(p: string): (stem: string)
    ensures stem + PathSuffix(p) == PathName(p)
  {
    var name := PathName(p);
    var i := LastIndexOf(name, '.');
    if 0 < i < |name| - 1 then name[..i] else name
  }

  /** "_".join of the configured name (or the file's stem when no name is
      configured) and the arguments that are not None. */
  function MakeTilerName(configuredName: Option<string>, path: string, args: seq<Option<string>>): string
  {
    var base := if configuredName.Some? && configuredName.value != "" then configuredName.value else PathStem(path);
    JoinUnderscore([base] + Present(args))
  }

  function Present(args: seq<Option<string>>): (r: seq<string>)
    ensures |r| <= |args|
  {
    if args == [] then []
    else (if args[0].Some? then [args[0].value] else []) + Present(args[1..])
  }

  lemma {:induction false} JoinUnderscoreSnoc(parts: seq<string>, last: string)
    requires parts != []
    ensures JoinUnderscore(parts + [last]) == JoinUnderscore(parts) + "_" + last
  {
    if |parts| == 1 {
      assert parts + [last] == [parts[0], last];
    } else {
      assert (parts + [last])[1..] == parts[1..] + [last];
      JoinUnderscoreSnoc(parts[1..], last);
    }
  }

  lemma PresentSnoc(args: seq<Option<string>>, last: string)
    ensures Present(args + [Some(last)]) == Present(args) + [last]
  {
    if args == [] {
      assert args + [Some(last)] == [Some(last)];
    } else {
      assert (args + [Some(last)])[1..] == args[1..] + [Some(last)];
      PresentSnoc(args[1..], last);
    }
  }

  /** Adding an argument appends "_" and its text to the name. */
  lemma TilerNameWithArgument(configuredName: Option<string>, path: string, args: seq<Option<string>>, x: string)
    ensures MakeTilerName(configuredName, path, args + [Some(x)]) == MakeTilerName(configuredName, path, args) + "_" + x
  {
    var base := if configuredName.Some? && configuredName.value != "" then configuredName.value else PathStem(path);
    PresentSnoc(args, x);
    assert [base] + Present(args + [Some(x)]) == ([base] + Present(args)) + [x];
    JoinUnderscoreSnoc([base] + Present(args), x);
  }

  /** The split layers of one file are named with the suffixes 0..n-1, so two
      different split indices never give the same tiler name. */
  lemma SplitNamesDistinct(configuredName: Option<string>, path: string, sublayer: Option<string>, i: nat, j: nat)
    requires i != j
    ensures MakeTilerName(configuredName, path, [sublayer, Some(IntToString(i))])
         != MakeTilerName(configuredName, path, [sublayer, Some(IntToString(j))])
  {
    assert [sublayer] + [Some(IntToString(i))] == [sublayer, Some(IntToString(i))];
    assert [sublayer] + [Some(IntToString(j))] == [sublayer, Some(IntToString(j))];
    TilerNameWithArgument(configuredName, path, [sublayer], IntToString(i));
    TilerNameWithArgument(configuredName, path, [sublayer], IntToString(j));
    var p := MakeTilerName(configuredName, path, [sublayer]) + "_";
    if p + IntToString(i) == p + IntToString(j) {
      assert IntToString(i) == (p + IntToString(i))[|p|..];
      assert IntToString(j) == (p + IntToString(j))[|p|..];
      IntToStringInjective(i, j);
    }
  }
}
