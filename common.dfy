/** Shared vocabulary of the model: optional values and results, the dynamic
    values that attribute tables and configuration files carry, the errors the
    modelled code raises, decimal text for integers and a few sequence helpers. */
module Common {

  datatype Option<+T> = None | Some(value: T)

  /** An operation that either yields a value or raises one of the modelled errors. */
  datatype Result<+T> = Ok(value: T) | Err(error: Error)

  /** A dynamically typed value as it appears in an attribute table, a CSV cell or a
      configuration entry: Python's None, an integer, a text, or a missing numeric
      cell (pandas' NaN). */
  datatype Value = NoneV | IntV(i: int) | StrV(s: string) | NaN

  /** The exceptions (and the one process exit) raised by the modelled code. */
  datatype Error =
    | PatternDirectoryMissing(dir: string)     // logging.fatal + sys.exit
    | YearNotInFilename(path: string)          // RuntimeError
    | NoDisturbanceYear(path: string)          // RuntimeError
    | NoDisturbanceType(path: string)          // RuntimeError
    | UnparseableRange(text: string)           // eval of "(min,max)" fails
    | TypeMismatch                             // TypeError
    | MissingKey(key: string)                  // KeyError
    | IndexOutOfRange                          // IndexError
    | MissingTransition                        // AttributeError on a None transition
    | DuplicateDisturbanceOrder                // ValueError
    | PathNotFound(path: string)               // ValueError / FileNotFoundError
    | LayerNotFound                            // IOError
    | FieldsNotInHeader                        // ValueError from csv.DictWriter
    | InvalidWindow(reason: WindowProblem)     // ValueError from read_dataset
    | NotAnInteger(text: string)               // ValueError from int()

  datatype WindowProblem = SizeBelowOne | NegativeOffset | XOutOfBounds | YOutOfBounds

  /** A CSV cell by position; pandas pads a short row with missing cells. */
  function Cell(row: seq<Value>, k: nat): Value
  {
    if k < |row| then row[k] else NaN
  }

  /** Python truthiness of a configuration value (None, 0 and "" are false). */
  predicate Truthy(v: Value)
  {
    match v
    case NoneV => false
    case IntV(i) => i != 0
    case StrV(s) => s != ""
    case NaN => true
  }

  // ---------------------------------------------------------------------------
  // Decimal text of integers (Python's str(int)) and strict integer parsing

  predicate IsDigit(c: char) { '0' <= c <= '9' }

  predicate AllDigits(s: string) { forall k :: 0 <= k < |s| ==> IsDigit(s[k]) }

  function DigitChar(d: nat): (c: char)
    requires d < 10
    ensures IsDigit(c)
  {
    ['0', '1', '2', '3', '4', '5', '6', '7', '8', '9'][d]
  }

  function DigitValue(c: char): (d: nat)
    requires IsDigit(c)
    ensures d < 10 && DigitChar(d) == c
  {
    c as int - '0' as int
  }

  /** The value of a run of decimal digits, most significant first. */
  function DigitsValue(s: string): nat
    requires AllDigits(s)
  {
    if s == [] then 0 else 10 * DigitsValue(s[..|s| - 1]) + DigitValue(s[|s| - 1])
  }

  /** The decimal text of a natural number, without leading zeros. */
  function NatToString(n: nat): (s: string)
    ensures s != [] && AllDigits(s)
    decreases n
  {
    if n < 10 then [DigitChar(n)] else NatToString(n / 10) + [DigitChar(n % 10)]
  }

  /** Python's str() of an int. */
  function IntToString(i: int): string
  {
    if i < 0 then "-" + NatToString(-i) else NatToString(i)
  }

  /** Python's int() of a text, restricted to an optional minus sign followed by
      ASCII decimal digits. */
  function ParseInt(s: string): Option<int>
  {
    if |s| > 0 && AllDigits(s) then Some(DigitsValue(s))
    else if |s| > 1 && s[0] == '-' && AllDigits(s[1..]) then Some(0 - DigitsValue(s[1..]) as int)
    else None
  }

  lemma {:induction false} NatToStringValue(n: nat)
    ensures DigitsValue(NatToString(n)) == n
    decreases n
  {
    if n >= 10 {
      var s := NatToString(n);
      NatToStringValue(n / 10);
      assert s[..|s| - 1] == NatToString(n / 10);
      assert s[|s| - 1] == DigitChar(n % 10);
    }
  }

  /** Decimal text read back gives the integer it was made from. */
  lemma ParseIntRoundTrip(i: int)
    ensures ParseInt(IntToString(i)) == Some(i)
  {
    var n: nat := if i < 0 then -i else i;
    var t := NatToString(n);
    NatToStringValue(n);
    if i < 0 {
      var s := "-" + t;
      assert IntToString(i) == s;
      assert s[1..] == t;
      assert !AllDigits(s) by { assert !IsDigit(s[0]); }
    } else {
      assert IntToString(i) == t;
    }
  }

  lemma IntToStringInjective(i: int, j: int)
    requires IntToString(i) == IntToString(j)
    ensures i == j
  {
    ParseIntRoundTrip(i);
    ParseIntRoundTrip(j);
  }

  function Pow10(k: nat): (p: nat)
    ensures p >= 1
  {
    if k == 0 then 1 else 10 * Pow10(k - 1)
  }

  lemma {:induction false} NatToStringLength(n: nat, k: nat)
    requires k >= 1
    ensures |NatToString(n)| <= k <==> n < Pow10(k)
    decreases n
  {
    if n >= 10 {
      if k == 1 {
        assert |NatToString(n)| >= 2;
      } else {
        NatToStringLength(n / 10, k - 1);
        assert n / 10 < Pow10(k - 1) <==> n < 10 * Pow10(k - 1);
      }
    } else {
      assert Pow10(k) >= 10 by { assert Pow10(k) == 10 * Pow10(k - 1); }
    }
  }

  /** Python's str(i) has exactly four characters for the integers 1000..9999
      and -999..-100. */
  lemma IntToStringHasFourChars(i: int)
    ensures |IntToString(i)| == 4 <==> (1000 <= i <= 9999 || -999 <= i <= -100)
  {
    assert Pow10(2) == 100 && Pow10(3) == 1000 && Pow10(4) == 10000;
    var n: nat := if i < 0 then -i else i;
    NatToStringLength(n, 3);
    NatToStringLength(n, 4);
    if i < 0 {
      NatToStringLength(n, 2);
    }
  }

  // ---------------------------------------------------------------------------
  // Texts

  predicate StartsWith(s: string, prefix: string)
  {
    |prefix| <= |s| && s[..|prefix|] == prefix
  }

  predicate EndsWith(s: string, suffix: string)
  {
    |suffix| <= |s| && s[|s| - |suffix|..] == suffix
  }

  /** Python's `part in s` for texts. */
  predicate Contains(s: string, part: string)
  {
    exists k :: 0 <= k <= |s| - |part| && OccursAt(s, part, k)
  }

  predicate OccursAt(s: string, part: string, k: int)
  {
    0 <= k <= |s| - |part| && s[k..k + |part|] == part
  }

  /** "_".join(parts) */
  function JoinUnderscore(parts: seq<string>): string
  {
    if parts == [] then ""
    else if |parts| == 1 then parts[0]
    else parts[0] + "_" + JoinUnderscore(parts[1..])
  }

  // ---------------------------------------------------------------------------
  // Sequences

  function Concat<T>(ss: seq<seq<T>>): seq<T>
  {
    if ss == [] then [] else ss[0] + Concat(ss[1..])
  }

  /** Concatenating one more part appends it. */
  lemma {:induction false} ConcatAppend<T>(ss: seq<seq<T>>, s: seq<T>)
    ensures Concat(ss + [s]) == Concat(ss) + s
    decreases |ss|
  {
    if ss == [] {
      assert [s][1..] == [];
    } else {
      assert (ss + [s])[1..] == ss[1..] + [s];
      ConcatAppend(ss[1..], s);
    }
  }

  function Filter<T(!new)>(s: seq<T>, keep: T -> bool): (r: seq<T>)
    ensures |r| <= |s|
    ensures forall x :: x in r ==> x in s && keep(x)
  {
    if s == [] then [] else (if keep(s[0]) then [s[0]] else []) + Filter(s[1..], keep)
  }

  predicate NoDuplicates<T(==)>(s: seq<T>)
  {
    forall i, j :: 0 <= i < j < |s| ==> s[i] != s[j]
  }

  lemma {:induction false} FilterConcat<T(!new)>(a: seq<T>, b: seq<T>, keep: T -> bool)
    ensures Filter(a + b, keep) == Filter(a, keep) + Filter(b, keep)
  {
    if a == [] {
      assert a + b == b;
    } else {
      var head: seq<T> := if keep(a[0]) then [a[0]] else [];
      assert (a + b)[0] == a[0];
      assert (a + b)[1..] == a[1..] + b;
      FilterConcat(a[1..], b, keep);
      calc {
        Filter(a + b, keep);
        head + Filter(a[1..] + b, keep);
        head + (Filter(a[1..], keep) + Filter(b, keep));
        (head + Filter(a[1..], keep)) + Filter(b, keep);
      }
    }
  }

  /** Filtering one more element of `s`. */
  lemma FilterSnoc<T(!new)>(s: seq<T>, i: nat, keep: T -> bool)
    requires i < |s|
    ensures Filter(s[..i + 1], keep) == Filter(s[..i], keep) + (if keep(s[i]) then [s[i]] else [])
  {
    assert s[..i + 1] == s[..i] + [s[i]];
    FilterConcat(s[..i], [s[i]], keep);
    assert [s[i]][1..] == [];
  }

  /** The distinct elements of `s`, each at the place of its last occurrence. */
  function Dedup<T(==,!new)>(s: seq<T>): (r: seq<T>)
    ensures NoDuplicates(r)
    ensures forall x :: x in r <==> x in s
    ensures |r| <= |s|
  {
    if s == [] then []
    else if s[0] in s[1..] then Dedup(s[1..])
    else [s[0]] + Dedup(s[1..])
  }

  lemma {:induction false} FilterKeeps<T(!new)>(s: seq<T>, keep: T -> bool, x: T)
    requires x in s && keep(x)
    ensures x in Filter(s, keep)
  {
    if s[0] != x {
      FilterKeeps(s[1..], keep, x);
    }
  }

  /** The distinct elements of `s` in order of first appearance (the keys of a
      Python dict filled from `s`, or pandas' `unique`). */
  function Distinct<T(==,!new)>(s: seq<T>): (r: seq<T>)
    ensures NoDuplicates(r)
    ensures forall x :: x in r <==> x in s
    ensures |r| <= |s|
    decreases |s|
  {
    if s == [] then []
    else
      var prefix := Distinct(s[..|s| - 1]);
      assert forall x :: x in s <==> x in s[..|s| - 1] || x == s[|s| - 1];
      if s[|s| - 1] in prefix then prefix else prefix + [s[|s| - 1]]
  }

  /** The first components of a sequence of pairs (the keys of an
      insertion-ordered dictionary). */
  function Firsts<A, B>(pairs: seq<(A, B)>): (r: seq<A>)
    ensures |r| == |pairs| && forall k :: 0 <= k < |pairs| ==> r[k] == pairs[k].0
  {
    seq(|pairs|, k requires 0 <= k < |pairs| => pairs[k].0)
  }

  /** The second components of a sequence of pairs (the dictionary's values). */
  function Seconds<A, B>(pairs: seq<(A, B)>): (r: seq<B>)
    ensures |r| == |pairs| && forall k :: 0 <= k < |pairs| ==> r[k] == pairs[k].1
  {
    seq(|pairs|, k requires 0 <= k < |pairs| => pairs[k].1)
  }

  /** The index of the last occurrence of `c` in `s`, or -1 (str.rfind). */
  function LastIndexOf(s: string, c: char): (k: int)
    ensures -1 <= k < |s|
    ensures k >= 0 ==> s[k] == c
    ensures forall j :: k < j < |s| ==> s[j] != c
  {
    if s == [] then -1
    else if s[|s| - 1] == c then |s| - 1
    else LastIndexOf(s[..|s| - 1], c)
  }

  /** `x` occurs in `s` before any occurrence of `y`. */
  ghost predicate OccursBefore<T>(s: seq<T>, x: T, y: T)
  {
    exists p :: 0 <= p < |s| && s[p] == x && forall q :: 0 <= q <= p ==> s[q] != y
  }

  /** Distinct keeps the order of first appearance: of two of its elements,
      the earlier one occurs in `s` before any occurrence of the later one. */
  lemma {:induction false} DistinctOrderAt<T(!new)>(s: seq<T>, i: nat, j: nat)
    requires i < j < |Distinct(s)|
    ensures OccursBefore(s, Distinct(s)[i], Distinct(s)[j])
    decreases |s|
  {
    var n := |s| - 1;
    var prefix := Distinct(s[..n]);
    var r := Distinct(s);
    if j < |prefix| {
      assert r[i] == prefix[i] && r[j] == prefix[j];
      DistinctOrderAt(s[..n], i, j);
      var p :| 0 <= p < n && s[..n][p] == prefix[i] && forall q :: 0 <= q <= p ==> s[..n][q] != prefix[j];
      assert s[p] == r[i];
      forall q | 0 <= q <= p ensures s[q] != r[j] {
        assert s[..n][q] != prefix[j];
      }
    } else {
      assert r[j] == s[n] && s[n] !in s[..n];
      assert r[i] == prefix[i] && prefix[i] in s[..n];
      var p :| 0 <= p < n && s[..n][p] == r[i];
      forall q | 0 <= q <= p ensures s[q] != r[j] {
        assert s[q] == s[..n][q];
      }
    }
  }

  lemma DistinctOrder<T(!new)>(s: seq<T>)
    ensures var r := Distinct(s);
      forall i, j :: 0 <= i < j < |r| ==> OccursBefore(s, r[i], r[j])
  {
    var r := Distinct(s);
    forall i, j | 0 <= i < j < |r| ensures OccursBefore(s, r[i], r[j]) {
      DistinctOrderAt(s, i, j);
    }
  }

  /** The index of the first element satisfying `p`, if any. */
  function FirstIndex<T>(s: seq<T>, p: T -> bool): (r: Option<nat>)
    ensures r.Some? ==> r.value < |s| && p(s[r.value]) && forall j :: 0 <= j < r.value ==> !p(s[j])
    ensures r.None? ==> forall j :: 0 <= j < |s| ==> !p(s[j])
  {
    if s == [] then None
    else if p(s[0]) then Some(0)
    else
      match FirstIndex(s[1..], p)
      case None => None
      case Some(k) => Some(k + 1)
  }
}
