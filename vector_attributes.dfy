/** The vector attribute table: the distinct values of a vector layer's
    attributes, rewritten through an optional lookup table of (original,
    replacement) column pairs, and the tiler arguments built from them. The
    layer and the lookup file are read through the LayerFiles oracle; the two
    caches the source keeps on its class become the VectorCaches class. */
module VectorAttributes {
  import opened Common
  import opened DisturbanceParsing

  // ---------------------------------------------------------------------------
  // _is_null

  /** A character that Python's str.isspace counts as whitespace. */
  predicate IsSpaceChar(c: char)
  {
    '\t' <= c <= '\r' || '\U{1c}' <= c <= ' ' || c == '\U{85}' || c == '\U{a0}'
    || c == '\U{1680}' || '\U{2000}' <= c <= '\U{200a}' || c == '\U{2028}'
    || c == '\U{2029}' || c == '\U{202f}' || c == '\U{205f}' || c == '\U{3000}'
  }

  /** A lookup cell that carries no substitution: anything but a text (a missing
      cell is NaN), the empty text, or a text made only of whitespace. */
  predicate IsNull(v: Value)
  {
    !v.StrV? || v.s == [] || forall k :: 0 <= k < |v.s| ==> IsSpaceChar(v.s[k])
  }

  /** Exactly the texts with a character other than whitespace take part in a
      substitution. */
  lemma NotNullIffContent(v: Value)
    ensures !IsNull(v) <==> v.StrV? && exists k :: 0 <= k < |v.s| && !IsSpaceChar(v.s[k])
  {
  }

  // ---------------------------------------------------------------------------
  // _load_substitutions

  /** The lookup CSV as pandas reads it with every column as text: a header and
      rows of cells. Column names are distinct (pandas renames repeated ones). */
  datatype LookupCsv = LookupCsv(header: seq<string>, rows: seq<seq<Value>>)

  /** header[::2]: the original-value columns, each named after the attribute
      whose values it rewrites. */
  function EvenColumns(header: seq<string>): (r: seq<string>)
    ensures |r| == (|header| + 1) / 2
    ensures forall q :: 0 <= q < |r| ==> r[q] == header[2 * q]
  {
    if |header| <= 1 then header else [header[0]] + EvenColumns(header[2..])
  }

  /** One attribute's substitutions: forward, original to replacement, or
      inverted, replacement to the originals in row order. */
  datatype Entry = Forward(f: map<string, string>) | Inverted(i: map<string, seq<string>>)

  type Table = map<string, Entry>

  function EmptyEntry(invert: bool): Entry
  {
    if invert then Inverted(map[]) else Forward(map[])
  }

  function InitialTable(header: seq<string>, invert: bool): (t: Table)
    ensures forall a :: a in t <==> a in EvenColumns(header)
  {
    map a | a in EvenColumns(header) :: EmptyEntry(invert)
  }

  /** One row's pair of cells applied to an attribute's entry; a pair with a
      null cell is skipped. */
  function Step(e: Entry, original: Value, replacement: Value): (r: Entry)
    ensures r.Forward? == e.Forward?
  {
    if IsNull(original) || IsNull(replacement) then e
    else
      match e
      case Forward(f) => Forward(f[original.s := replacement.s])
      case Inverted(i) =>
        Inverted(i[replacement.s := (if replacement.s in i then i[replacement.s] else []) + [original.s]])
  }

  /** The first `p` column pairs of one row applied to the table. */
  function RowStep(t: Table, header: seq<string>, row: seq<Value>, p: nat): Table
    requires 2 * p <= |header|
  {
    if p == 0 then t
    else
      var before := RowStep(t, header, row, p - 1);
      var a := header[2 * (p - 1)];
      if a in before then before[a := Step(before[a], Cell(row, 2 * (p - 1)), Cell(row, 2 * p - 1))]
      else before
  }

  /** Every row applied in order, each over all of its column pairs. */
  function RowsStep(t: Table, header: seq<string>, rows: seq<seq<Value>>): Table
    requires |header| % 2 == 0
    decreases |rows|
  {
    if rows == [] then t
    else RowStep(RowsStep(t, header, rows[..|rows| - 1]), header, rows[|rows| - 1], |header| / 2)
  }

  /** _load_substitutions: no lookup path gives no substitutions, a missing file
      is an error, and an odd number of columns fails on the first row at the
      unpaired column. */
  function SubstitutionsSpec(lookupPath: Option<string>, lookup: Option<LookupCsv>, invert: bool): Result<Table>
  {
    if lookupPath.None? then Ok(map[])
    else if lookup.None? then Err(PathNotFound(lookupPath.value))
    else
      var l := lookup.value;
      if |l.header| % 2 == 1 then
        if l.rows == [] then Ok(InitialTable(l.header, invert)) else Err(IndexOutOfRange)
      else Ok(RowsStep(InitialTable(l.header, invert), l.header, l.rows))
  }

  method LoadSubstitutions(lookupPath: Option<string>, lookup: Option<LookupCsv>, invert: bool)
    returns (r: Result<Table>)
    ensures r == SubstitutionsSpec(lookupPath, lookup, invert)
  {
    if lookupPath.None? {
      return Ok(map[]);
    }
    if lookup.None? {
      return Err(PathNotFound(lookupPath.value));
    }
    var l := lookup.value;
    var t := InitialTable(l.header, invert);
    if |l.header| % 2 == 1 {
      if l.rows == [] {
        return Ok(t);
      }
      return Err(IndexOutOfRange);
    }
    var i := 0;
    while i < |l.rows|
      invariant 0 <= i <= |l.rows|
      invariant t == RowsStep(InitialTable(l.header, invert), l.header, l.rows[..i])
    {
      t := ApplyRow(t, l.header, l.rows[i]);
      assert l.rows[..i + 1][..i] == l.rows[..i];
      i := i + 1;
    }
    assert l.rows[..|l.rows|] == l.rows;
    return Ok(t);
  }

  /** One row's column pairs applied to the table, left to right. */
  method ApplyRow(t0: Table, header: seq<string>, row: seq<Value>) returns (t: Table)
    ensures t == RowStep(t0, header, row, |header| / 2)
  {
    t := t0;
    var p := 0;
    while p < |header| / 2
      invariant 0 <= p <= |header| / 2
      invariant t == RowStep(t0, header, row, p)
    {
      var a := header[2 * p];
      if a in t {
        t := t[a := Step(t[a], Cell(row, 2 * p), Cell(row, 2 * p + 1))];
      }
      p := p + 1;
    }
  }

  // ---------------------------------------------------------------------------
  // Each attribute column on its own

  /** The entry one pair of columns (c, c + 1) reaches over the rows by itself. */
  function ColumnFold(e: Entry, rows: seq<seq<Value>>, c: nat): (r: Entry)
    ensures r.Forward? == e.Forward?
    decreases |rows|
  {
    if rows == [] then e
    else Step(ColumnFold(e, rows[..|rows| - 1], c), Cell(rows[|rows| - 1], c), Cell(rows[|rows| - 1], c + 1))
  }

  lemma {:induction false} RowStepAt(t: Table, header: seq<string>, row: seq<Value>, p: nat, q: nat)
    requires 2 * p <= |header| && 2 * q + 1 < |header| && NoDuplicates(header)
    requires header[2 * q] in t
    ensures RowStep(t, header, row, p).Keys == t.Keys
    ensures RowStep(t, header, row, p)[header[2 * q]] ==
      if q < p then Step(t[header[2 * q]], Cell(row, 2 * q), Cell(row, 2 * q + 1)) else t[header[2 * q]]
  {
    if p > 0 {
      RowStepAt(t, header, row, p - 1, q);
      assert q != p - 1 ==> header[2 * (p - 1)] != header[2 * q];
    }
  }

  lemma {:induction false} RowsStepAt(t: Table, header: seq<string>, rows: seq<seq<Value>>, q: nat)
    requires |header| % 2 == 0 && 2 * q + 1 < |header| && NoDuplicates(header)
    requires header[2 * q] in t
    ensures RowsStep(t, header, rows).Keys == t.Keys
    ensures RowsStep(t, header, rows)[header[2 * q]] == ColumnFold(t[header[2 * q]], rows, 2 * q)
    decreases |rows|
  {
    if rows != [] {
      var prefix := rows[..|rows| - 1];
      RowsStepAt(t, header, prefix, q);
      RowStepAt(RowsStep(t, header, prefix), header, rows[|rows| - 1], |header| / 2, q);
    }
  }

  /** Each attribute's substitutions are what its own pair of columns yields,
      whatever the other columns hold. */
  lemma SubstitutionsByColumn(path: string, l: LookupCsv, invert: bool, q: nat)
    requires |l.header| % 2 == 0 && 2 * q + 1 < |l.header| && NoDuplicates(l.header)
    ensures SubstitutionsSpec(Some(path), Some(l), invert).Ok?
    ensures SubstitutionsSpec(Some(path), Some(l), invert).value.Keys == set a | a in EvenColumns(l.header)
    ensures l.header[2 * q] in SubstitutionsSpec(Some(path), Some(l), invert).value
    ensures SubstitutionsSpec(Some(path), Some(l), invert).value[l.header[2 * q]]
         == ColumnFold(EmptyEntry(invert), l.rows, 2 * q)
  {
    assert EvenColumns(l.header)[q] == l.header[2 * q];
    RowsStepAt(InitialTable(l.header, invert), l.header, l.rows, q);
  }

  /** Row `i` substitutes in columns (c, c + 1): both of its cells are non-null texts. */
  predicate Substitutes(row: seq<Value>, c: nat)
  {
    !IsNull(Cell(row, c)) && !IsNull(Cell(row, c + 1))
  }

  /** Every forward substitution comes from a row that substitutes exactly that
      pair, and every original of a substituting row has one. */
  lemma {:induction false} ForwardFromRow(rows: seq<seq<Value>>, c: nat, o: string)
    ensures var f := ColumnFold(Forward(map[]), rows, c).f;
      o in f ==> exists i :: 0 <= i < |rows| && Substitutes(rows[i], c)
                          && Cell(rows[i], c) == StrV(o) && Cell(rows[i], c + 1) == StrV(f[o])
    ensures (exists i :: 0 <= i < |rows| && Substitutes(rows[i], c) && Cell(rows[i], c) == StrV(o))
            ==> o in ColumnFold(Forward(map[]), rows, c).f
    decreases |rows|
  {
    if rows != [] {
      var prefix := rows[..|rows| - 1];
      var last := rows[|rows| - 1];
      ForwardFromRow(prefix, c, o);
      var f0 := ColumnFold(Forward(map[]), prefix, c).f;
      var f := ColumnFold(Forward(map[]), rows, c).f;
      if o in f {
        if Substitutes(last, c) && Cell(last, c) == StrV(o) {
          assert Cell(rows[|rows| - 1], c + 1) == StrV(f[o]);
        } else {
          var i :| 0 <= i < |prefix| && Substitutes(prefix[i], c)
                   && Cell(prefix[i], c) == StrV(o) && Cell(prefix[i], c + 1) == StrV(f0[o]);
          assert rows[i] == prefix[i];
        }
      }
      if exists i :: 0 <= i < |rows| && Substitutes(rows[i], c) && Cell(rows[i], c) == StrV(o) {
        var i :| 0 <= i < |rows| && Substitutes(rows[i], c) && Cell(rows[i], c) == StrV(o);
        if i < |prefix| {
          assert prefix[i] == rows[i];
        }
      }
    }
  }

  /** Later rows overwrite earlier ones: the forward substitution of an
      original is the replacement of the last row that substitutes it. */
  lemma {:induction false} LastRowWins(rows: seq<seq<Value>>, c: nat, i: nat)
    requires i < |rows| && Substitutes(rows[i], c)
    requires forall j :: i < j < |rows| && Substitutes(rows[j], c) ==> Cell(rows[j], c) != Cell(rows[i], c)
    ensures Cell(rows[i], c).s in ColumnFold(Forward(map[]), rows, c).f
    ensures ColumnFold(Forward(map[]), rows, c).f[Cell(rows[i], c).s] == Cell(rows[i], c + 1).s
    decreases |rows|
  {
    var prefix := rows[..|rows| - 1];
    if i < |rows| - 1 {
      assert prefix[i] == rows[i];
      LastRowWins(prefix, c, i);
    }
  }

  /** The originals that rows substituting `r` name, in row order. */
  function Originals(rows: seq<seq<Value>>, c: nat, r: string): (os: seq<string>)
  {
    var hits := Filter(rows, ReplacedBy(c, r));
    seq(|hits|, k requires 0 <= k < |hits| => assert hits[k] in hits; Cell(hits[k], c).s)
  }

  function ReplacedBy(c: nat, r: string): seq<Value> -> bool
  {
    (row: seq<Value>) => Substitutes(row, c) && Cell(row, c + 1) == StrV(r)
  }

  lemma {:induction false} OriginalsSnoc(rows: seq<seq<Value>>, c: nat, r: string)
    requires rows != []
    ensures Originals(rows, c, r) == Originals(rows[..|rows| - 1], c, r)
      + (if ReplacedBy(c, r)(rows[|rows| - 1]) then [Cell(rows[|rows| - 1], c).s] else [])
  {
    var prefix := rows[..|rows| - 1];
    var last := rows[|rows| - 1];
    assert rows == prefix + [last];
    FilterConcat(prefix, [last], ReplacedBy(c, r));
    assert Filter([last], ReplacedBy(c, r)) == if ReplacedBy(c, r)(last) then [last] else [];
  }

  /** The inverted substitutions of a replacement list the originals of every
      row that substitutes it, in row order, and only replacements some row
      names are present. */
  lemma {:induction false} InvertedLists(rows: seq<seq<Value>>, c: nat, r: string)
    ensures var inv := ColumnFold(Inverted(map[]), rows, c).i;
      (r in inv <==> Originals(rows, c, r) != []) && (r in inv ==> inv[r] == Originals(rows, c, r))
    decreases |rows|
  {
    if rows == [] {
      assert Filter(rows, ReplacedBy(c, r)) == [];
    } else {
      InvertedLists(rows[..|rows| - 1], c, r);
      OriginalsSnoc(rows, c, r);
    }
  }

  /** The two directions agree: an original whose forward substitution is `r`
      is listed under `r` in the inverted substitutions, and every original
      listed under some replacement has a forward substitution. */
  lemma ForwardAndInvertedAgree(rows: seq<seq<Value>>, c: nat, o: string, r: string)
    ensures var f := ColumnFold(Forward(map[]), rows, c).f;
            var inv := ColumnFold(Inverted(map[]), rows, c).i;
            (o in f && f[o] == r ==> r in inv && o in inv[r])
            && (r in inv && o in inv[r] ==> o in f)
  {
    var f := ColumnFold(Forward(map[]), rows, c).f;
    var inv := ColumnFold(Inverted(map[]), rows, c).i;
    ForwardFromRow(rows, c, o);
    InvertedLists(rows, c, r);
    var hits := Filter(rows, ReplacedBy(c, r));
    if o in f && f[o] == r {
      var i :| 0 <= i < |rows| && Substitutes(rows[i], c) && Cell(rows[i], c) == StrV(o) && Cell(rows[i], c + 1) == StrV(r);
      FilterKeeps(rows, ReplacedBy(c, r), rows[i]);
      var k :| 0 <= k < |hits| && hits[k] == rows[i];
      assert Originals(rows, c, r)[k] == o;
    }
    if r in inv && o in inv[r] {
      var k :| 0 <= k < |hits| && Originals(rows, c, r)[k] == o;
      assert hits[k] in rows && ReplacedBy(c, r)(hits[k]);
      var i :| 0 <= i < |rows| && rows[i] == hits[k];
    }
  }

  // ---------------------------------------------------------------------------
  // Filter translation (to_tiler_args filters by original layer values)

  /** The originals a user filter value stands for: the inverted substitutions
      of that value when it is a replacement, otherwise the value itself. */
  function TranslateValue(v: Value, inverse: map<string, seq<string>>): (r: seq<Value>)
  {
    if v.StrV? && v.s in inverse then seq(|inverse[v.s]|, k requires 0 <= k < |inverse[v.s]| => StrV(inverse[v.s][k]))
    else [v]
  }

  /** A list filter is translated value by value and flattened in order; a
      single value is translated on its own. */
  function TranslateFilterSpec(f: FilterValue, inverse: map<string, seq<string>>): seq<Value>
  {
    match f
    case One(v) => TranslateValue(v, inverse)
    case Many(vs) => Concat(seq(|vs|, k requires 0 <= k < |vs| => TranslateValue(vs[k], inverse)))
  }

  method TranslateFilter(f: FilterValue, inverse: map<string, seq<string>>) returns (r: seq<Value>)
    ensures r == TranslateFilterSpec(f, inverse)
  {
    match f
    case One(v) =>
      r := TranslateValue(v, inverse);
    case Many(vs) =>
      r := [];
      ghost var parts: seq<seq<Value>> := [];
      for i := 0 to |vs|
        invariant parts == seq(i, k requires 0 <= k < i => TranslateValue(vs[k], inverse))
        invariant r == Concat(parts)
      {
        ConcatAppend(parts, TranslateValue(vs[i], inverse));
        r := r + TranslateValue(vs[i], inverse);
        parts := parts + [TranslateValue(vs[i], inverse)];
      }
  }

  /** Filtering by a replacement selects exactly the originals of the rows
      that substitute it; a value no row substitutes into is kept as given. */
  lemma TranslateValueByRows(rows: seq<seq<Value>>, c: nat, v: Value, x: Value)
    ensures var inverse := ColumnFold(Inverted(map[]), rows, c).i;
      x in TranslateValue(v, inverse) <==>
        if v.StrV? && Originals(rows, c, v.s) != [] then x.StrV? && x.s in Originals(rows, c, v.s)
        else x == v
  {
    var inverse := ColumnFold(Inverted(map[]), rows, c).i;
    if v.StrV? {
      InvertedLists(rows, c, v.s);
      if v.s in inverse {
        var t := TranslateValue(v, inverse);
        if x in t {
          var k :| 0 <= k < |t| && t[k] == x;
        }
        if x.StrV? && x.s in inverse[v.s] {
          var k :| 0 <= k < |inverse[v.s]| && inverse[v.s][k] == x.s;
          assert t[k] == x;
        }
      }
    }
  }

  /** Each original a replacement stands for comes from a row that substitutes it. */
  lemma OriginalsFromRows(rows: seq<seq<Value>>, c: nat, r: string, o: string)
    ensures o in Originals(rows, c, r) <==>
      exists i :: 0 <= i < |rows| && Substitutes(rows[i], c) && Cell(rows[i], c) == StrV(o) && Cell(rows[i], c + 1) == StrV(r)
  {
    var hits := Filter(rows, ReplacedBy(c, r));
    if o in Originals(rows, c, r) {
      var k :| 0 <= k < |hits| && Originals(rows, c, r)[k] == o;
      assert hits[k] in rows && ReplacedBy(c, r)(hits[k]);
      var i :| 0 <= i < |rows| && rows[i] == hits[k];
    }
    if exists i :: 0 <= i < |rows| && Substitutes(rows[i], c) && Cell(rows[i], c) == StrV(o) && Cell(rows[i], c + 1) == StrV(r) {
      var i :| 0 <= i < |rows| && Substitutes(rows[i], c) && Cell(rows[i], c) == StrV(o) && Cell(rows[i], c + 1) == StrV(r);
      FilterKeeps(rows, ReplacedBy(c, r), rows[i]);
      var k :| 0 <= k < |hits| && hits[k] == rows[i];
      assert Originals(rows, c, r)[k] == o;
    }
  }

  // ---------------------------------------------------------------------------
  // Attribute data

  /** One attribute's cached data: each distinct raw value with its substitute,
      in the order the layer listed them (a Python dict). */
  type AttributeData = seq<(Value, Value)>

  function Raws(d: AttributeData): seq<Value>
  {
    seq(|d|, k requires 0 <= k < |d| => d[k].0)
  }

  function SubstitutedValues(d: AttributeData): seq<Value>
  {
    seq(|d|, k requires 0 <= k < |d| => d[k].1)
  }

  /** substitutions.get(value, value): only a text the lookup lists is rewritten. */
  function Substitute(v: Value, forward: map<string, string>): Value
  {
    if v.StrV? && v.s in forward then StrV(forward[v.s]) else v
  }

  /** The forward substitutions of an attribute, or none. */
  function ForwardOf(t: Table, a: string): map<string, string>
  {
    if a in t && t[a].Forward? then t[a].f else map[]
  }

  function InverseOf(t: Table, a: string): map<string, seq<string>>
  {
    if a in t && t[a].Inverted? then t[a].i else map[]
  }

  /** Each key with its substitute. */
  function Paired(keys: seq<Value>, forward: map<string, string>): (d: AttributeData)
    ensures |d| == |keys|
  {
    seq(|keys|, k requires 0 <= k < |keys| => (keys[k], Substitute(keys[k], forward)))
  }

  function AttributeDataSpec(values: seq<Value>, forward: map<string, string>): AttributeData
  {
    Paired(Distinct(values), forward)
  }

  /** Each distinct raw value appears once, every raw value of the layer
      appears, and each carries its substitute. */
  lemma AttributeDataFacts(values: seq<Value>, forward: map<string, string>)
    ensures var d := AttributeDataSpec(values, forward);
      NoDuplicates(Raws(d))
      && (forall v :: v in Raws(d) <==> v in values)
      && forall k :: 0 <= k < |d| ==> d[k].1 == Substitute(d[k].0, forward)
  {
    assert Raws(AttributeDataSpec(values, forward)) == Distinct(values);
  }

  /** Without substitutions an attribute's data maps each value to itself. */
  lemma NoSubstitutionKeepsValues(values: seq<Value>)
    ensures SubstitutedValues(AttributeDataSpec(values, map[])) == Distinct(values)
  {
  }

  lemma PairedSnoc(keys: seq<Value>, v: Value, forward: map<string, string>)
    ensures Paired(keys + [v], forward) == Paired(keys, forward) + [(v, Substitute(v, forward))]
  {
    var d := Paired(keys, forward);
    var d' := Paired(keys + [v], forward);
    assert forall k :: 0 <= k < |d| ==> d'[k] == d[k];
    assert d'[|d|] == (v, Substitute(v, forward));
  }

  lemma DistinctSnoc(values: seq<Value>, v: Value)
    ensures Distinct(values + [v]) == if v in Distinct(values) then Distinct(values) else Distinct(values) + [v]
  {
    var all := values + [v];
    assert all[..|all| - 1] == values;
  }

  lemma AttributeDataSnoc(values: seq<Value>, v: Value, forward: map<string, string>)
    ensures Raws(AttributeDataSpec(values, forward)) == Distinct(values)
    ensures AttributeDataSpec(values + [v], forward) ==
      AttributeDataSpec(values, forward) + (if v in Distinct(values) then [] else [(v, Substitute(v, forward))])
  {
    var keys := Distinct(values);
    DistinctSnoc(values, v);
    assert Raws(Paired(keys, forward)) == keys;
    if v !in keys {
      PairedSnoc(keys, v, forward);
    }
  }

  method BuildAttributeData(values: seq<Value>, forward: map<string, string>) returns (d: AttributeData)
    ensures d == AttributeDataSpec(values, forward)
  {
    d := [];
    for i := 0 to |values|
      invariant d == AttributeDataSpec(values[..i], forward)
    {
      AttributeDataSnoc(values[..i], values[i], forward);
      assert values[..i + 1] == values[..i] + [values[i]];
      // assigning a value already present stores the same substitute in place
      if values[i] !in Raws(d) {
        d := d + [(values[i], Substitute(values[i], forward))];
      }
    }
    assert values[..|values|] == values;
  }

  // ---------------------------------------------------------------------------
  // The table, the files it reads and the class-level caches

  /** A vector layer with an optional lookup table and layer name; also the key
      under which the caches keep what was read from it. */
  datatype VectorAttributeTable = VectorAttributeTable(layerPath: string, lookupPath: Option<string>, layer: Option<string>)

  /** The constructor: a missing layer file is an error, and an empty lookup
      path means no lookup table. */
  function NewVectorAttributeTable(layerPath: string, lookupPath: Option<string>, layer: Option<string>, layerExists: bool)
    : (r: Result<VectorAttributeTable>)
    ensures r.Err? <==> !layerExists
    ensures r.Ok? ==> (r.value.layerPath == layerPath && r.value.layer == layer
                       && (r.value.lookupPath.Some? <==> lookupPath.Some? && lookupPath.value != ""))
  {
    if !layerExists then Err(PathNotFound(layerPath))
    else Ok(VectorAttributeTable(layerPath, if lookupPath == Some("") then None else lookupPath, layer))
  }

  /** What the model reads from the files: the layer's field names (None when
      the layer cannot be opened), the distinct values of each attribute after
      encoding repair, and the lookup CSV (None when the file is missing). */
  datatype LayerFiles = LayerFiles(
    fieldNames: Option<seq<string>>,
    distinctValues: string -> seq<Value>,
    lookup: Option<LookupCsv>)

  /** The `attributes` argument: None, one name, a list of names, or a dict
      renaming layer attributes for the tiler (its keys are distinct). */
  datatype AttributeSelection =
    | AllAttributes
    | OneAttribute(name: string)
    | AttributeList(names: seq<string>)
    | AttributeMap(renames: seq<(string, string)>)

  function Lookup<K, V>(m: map<K, V>, k: K): Option<V>
  {
    if k in m then Some(m[k]) else None
  }

  type AttributeCache = map<VectorAttributeTable, seq<string>>
  type DataCache = map<VectorAttributeTable, map<string, AttributeData>>

  /** The `attributes` property: the cached field names, or those read from the
      layer, which are then cached. */
  function AttributesSpec(cache: AttributeCache, t: VectorAttributeTable, files: LayerFiles)
    : (Result<seq<string>>, AttributeCache)
  {
    if t in cache then (Ok(cache[t]), cache)
    else if files.fieldNames.None? then (Err(LayerNotFound), cache)
    else (Ok(files.fieldNames.value), cache[t := files.fieldNames.value])
  }

  /** _get_selected_attributes */
  function SelectedSpec(cache: AttributeCache, t: VectorAttributeTable, files: LayerFiles, sel: AttributeSelection)
    : (Result<seq<string>>, AttributeCache)
  {
    match sel
    case AllAttributes => AttributesSpec(cache, t, files)
    case OneAttribute(n) => (Ok([n]), cache)
    case AttributeList(ns) => (Ok(ns), cache)
    case AttributeMap(renames) => (Ok(Firsts(renames)), cache)
  }

  function CachedFor(cache: DataCache, t: VectorAttributeTable): map<string, AttributeData>
  {
    if t in cache then cache[t] else map[]
  }

  function Missing(cached: map<string, AttributeData>, names: seq<string>): set<string>
  {
    set a | a in names && a !in cached
  }

  function WithLoaded(cached: map<string, AttributeData>, attrs: set<string>, files: LayerFiles, subs: Table)
    : map<string, AttributeData>
  {
    cached + map a | a in attrs :: AttributeDataSpec(files.distinctValues(a), ForwardOf(subs, a))
  }

  lemma WithLoadedStep(cached: map<string, AttributeData>, done: set<string>, a: string, files: LayerFiles, subs: Table)
    ensures WithLoaded(cached, done + {a}, files, subs)
         == WithLoaded(cached, done, files, subs)[a := AttributeDataSpec(files.distinctValues(a), ForwardOf(subs, a))]
  {
  }

  /** _data: attributes already cached are returned as they are; the others are
      read from the layer, substituted and added to the cache. */
  function DataSpec(cache: DataCache, t: VectorAttributeTable, files: LayerFiles, names: seq<string>)
    : (Result<map<string, AttributeData>>, DataCache)
  {
    var cached := CachedFor(cache, t);
    var missing := Missing(cached, names);
    if missing == {} then (Ok(cached), cache)
    else
      match SubstitutionsSpec(t.lookupPath, files.lookup, false)
      case Err(e) => (Err(e), cache)
      case Ok(subs) =>
        var loaded := WithLoaded(cached, missing, files, subs);
        (Ok(loaded), cache[t := loaded])
  }

  /** Every requested attribute is in the data, cached data is never reloaded,
      and the data is what the cache then holds. */
  lemma DataCovers(cache: DataCache, t: VectorAttributeTable, files: LayerFiles, names: seq<string>)
    ensures var (r, after) := DataSpec(cache, t, files, names);
      r.Ok? ==> ((forall a :: a in names ==> a in r.value)
                 && (forall a :: a in CachedFor(cache, t) ==> a in r.value && r.value[a] == CachedFor(cache, t)[a])
                 && CachedFor(after, t) == r.value)
  {
    var cached := CachedFor(cache, t);
    forall a | a in names
      ensures a in cached || a in Missing(cached, names)
    {
    }
  }

  /** A freshly loaded attribute holds the layer's distinct values with their
      forward substitutions. */
  lemma DataLoads(cache: DataCache, t: VectorAttributeTable, files: LayerFiles, names: seq<string>, a: string)
    requires a in names && a !in CachedFor(cache, t)
    ensures var r := DataSpec(cache, t, files, names).0;
      r.Ok? <==> SubstitutionsSpec(t.lookupPath, files.lookup, false).Ok?
    ensures var r := DataSpec(cache, t, files, names).0;
      r.Ok? ==> (a in r.value && r.value[a] ==
        AttributeDataSpec(files.distinctValues(a), ForwardOf(SubstitutionsSpec(t.lookupPath, files.lookup, false).value, a)))
  {
    assert a in Missing(CachedFor(cache, t), names);
  }

  /** Asking again for the same attributes reads nothing: the cached data comes
      back unchanged, whatever the files now hold. */
  lemma DataAgain(cache: DataCache, t: VectorAttributeTable, files: LayerFiles, later: LayerFiles, names: seq<string>)
    requires DataSpec(cache, t, files, names).0.Ok?
    ensures var (r, after) := DataSpec(cache, t, files, names);
      DataSpec(after, t, later, names) == (r, after)
  {
    var (r, after) := DataSpec(cache, t, files, names);
    DataCovers(cache, t, files, names);
    assert Missing(CachedFor(after, t), names) == {};
  }

  /** get_unique_values: for each selected attribute, the substitutes of its
      distinct values, in the layer's order. */
  function UniqueValuesSpec(attrs: AttributeCache, data: DataCache, t: VectorAttributeTable, files: LayerFiles, sel: AttributeSelection)
    : (Result<map<string, seq<Value>>>, AttributeCache, DataCache)
  {
    var (names, attrs') := SelectedSpec(attrs, t, files, sel);
    if names.Err? then (Err(names.error), attrs', data)
    else
      var (d, data') := DataSpec(data, t, files, names.value);
      if d.Err? then (Err(d.error), attrs', data')
      else (Ok(map a | a in names.value && a in d.value :: SubstitutedValues(d.value[a])), attrs', data')
  }

  /** The unique values name exactly the selected attributes; an attribute
      read now lists the layer's distinct values, each replaced by its forward
      substitute from the lookup table (as it is without one), and a cached
      attribute lists the substitutes already cached. */
  lemma UniqueValuesFacts(attrs: AttributeCache, data: DataCache, t: VectorAttributeTable, files: LayerFiles, sel: AttributeSelection, a: string)
    ensures var (r, _, _) := UniqueValuesSpec(attrs, data, t, files, sel);
      var names := SelectedSpec(attrs, t, files, sel).0;
      r.Ok? ==> names.Ok? && (a in r.value <==> a in names.value)
    ensures var (r, _, _) := UniqueValuesSpec(attrs, data, t, files, sel);
      r.Ok? && t.lookupPath.None? && a in r.value && a !in CachedFor(data, t) ==> r.value[a] == Distinct(files.distinctValues(a))
    ensures var (r, _, _) := UniqueValuesSpec(attrs, data, t, files, sel);
      r.Ok? && a in r.value && a !in CachedFor(data, t) ==>
        var distinct := Distinct(files.distinctValues(a));
        && SubstitutionsSpec(t.lookupPath, files.lookup, false).Ok?
        && |r.value[a]| == |distinct|
        && forall k :: 0 <= k < |distinct| ==>
             r.value[a][k] == Substitute(distinct[k], ForwardOf(SubstitutionsSpec(t.lookupPath, files.lookup, false).value, a))
    ensures var (r, _, _) := UniqueValuesSpec(attrs, data, t, files, sel);
      r.Ok? && a in r.value && a in CachedFor(data, t) ==> r.value[a] == SubstitutedValues(CachedFor(data, t)[a])
  {
    var names := SelectedSpec(attrs, t, files, sel).0;
    if names.Ok? {
      DataCovers(data, t, files, names.value);
      if a in names.value && a !in CachedFor(data, t) {
        DataLoads(data, t, files, names.value, a);
        NoSubstitutionKeepsValues(files.distinctValues(a));
      }
    }
  }

  /** One entry of the tiler arguments: the layer attribute, the name the tiler
      gives it, the filter on original values and the attribute's data. */
  datatype TilerAttribute = TilerAttribute(
    layerAttribute: string, tilerAttribute: string, filter: Option<seq<Value>>, substitutions: Option<AttributeData>)

  /** A dict selection renames; any other keeps each distinct name. */
  function TilerPairs(sel: AttributeSelection, names: seq<string>): seq<(string, string)>
  {
    if sel.AttributeMap? then sel.renames
    else
      var ds := Distinct(names);
      seq(|ds|, k requires 0 <= k < |ds| => (ds[k], ds[k]))
  }

  /** The filters translated to original values; without filters no lookup
      table is read. */
  function FiltersSpec(t: VectorAttributeTable, files: LayerFiles, filters: map<string, FilterValue>)
    : Result<map<string, seq<Value>>>
  {
    if filters == map[] then Ok(map[])
    else
      match SubstitutionsSpec(t.lookupPath, files.lookup, true)
      case Err(e) => Err(e)
      case Ok(inverse) => Ok(map a | a in filters :: TranslateFilterSpec(filters[a], InverseOf(inverse, a)))
  }

  function TilerArgsSpec(attrs: AttributeCache, data: DataCache, t: VectorAttributeTable, files: LayerFiles,
                         sel: AttributeSelection, filters: map<string, FilterValue>)
    : (Result<seq<TilerAttribute>>, AttributeCache, DataCache)
  {
    var (names, attrs') := SelectedSpec(attrs, t, files, sel);
    if names.Err? then (Err(names.error), attrs', data)
    else
      var pairs := TilerPairs(sel, names.value);
      var tf := FiltersSpec(t, files, filters);
      if tf.Err? then (Err(tf.error), attrs', data)
      else
        var (d, data') := DataSpec(data, t, files, Firsts(pairs));
        if d.Err? then (Err(d.error), attrs', data')
        else
          (Ok(seq(|pairs|, k requires 0 <= k < |pairs| =>
                TilerAttribute(pairs[k].0, pairs[k].1, Lookup(tf.value, pairs[k].0), Lookup(d.value, pairs[k].0)))),
           attrs', data')
  }

  /** One tiler attribute per selected (or renamed) attribute, each with its
      data, and with a filter exactly when one was given for it. */
  lemma TilerArgsFacts(attrs: AttributeCache, data: DataCache, t: VectorAttributeTable, files: LayerFiles,
                       sel: AttributeSelection, filters: map<string, FilterValue>, k: nat)
    ensures var (r, _, _) := TilerArgsSpec(attrs, data, t, files, sel, filters);
      r.Ok? && k < |r.value| ==>
        r.value[k].substitutions.Some? && (r.value[k].filter.Some? <==> r.value[k].layerAttribute in filters)
  {
    var names := SelectedSpec(attrs, t, files, sel).0;
    if names.Ok? {
      var pairs := TilerPairs(sel, names.value);
      DataCovers(data, t, files, Firsts(pairs));
      if k < |pairs| {
        assert Firsts(pairs)[k] == pairs[k].0;
      }
    }
  }

  /** The loop of _data over the attributes read from the layer. */
  method LoadMissing(cached: map<string, AttributeData>, missing: set<string>, files: LayerFiles, subs: Table)
    returns (loaded: map<string, AttributeData>)
    ensures loaded == WithLoaded(cached, missing, files, subs)
  {
    loaded := cached;
    var remaining := missing;
    while remaining != {}
      invariant remaining <= missing
      invariant loaded == WithLoaded(cached, missing - remaining, files, subs)
      decreases remaining
    {
      var a :| a in remaining;
      var values := BuildAttributeData(files.distinctValues(a), ForwardOf(subs, a));
      WithLoadedStep(cached, missing - remaining, a, files, subs);
      assert missing - (remaining - {a}) == (missing - remaining) + {a};
      loaded := loaded[a := values];
      remaining := remaining - {a};
    }
    assert missing - remaining == missing;
  }

  /** The class-level caches of the source, shared by every table over the same
      layer, lookup table and layer name. */
  class VectorCaches {
    var attributes: AttributeCache
    var data: DataCache

    constructor()
      ensures attributes == map[] && data == map[]
    {
      attributes := map[];
      data := map[];
    }

    method Attributes(t: VectorAttributeTable, files: LayerFiles) returns (r: Result<seq<string>>)
      modifies this
      ensures (r, attributes) == AttributesSpec(old(attributes), t, files)
      ensures data == old(data)
    {
      if t in attributes {
        return Ok(attributes[t]);
      }
      if files.fieldNames.None? {
        return Err(LayerNotFound);
      }
      attributes := attributes[t := files.fieldNames.value];
      return Ok(files.fieldNames.value);
    }

    method SelectedAttributes(t: VectorAttributeTable, files: LayerFiles, sel: AttributeSelection) returns (r: Result<seq<string>>)
      modifies this
      ensures (r, attributes) == SelectedSpec(old(attributes), t, files, sel)
      ensures data == old(data)
    {
      match sel
      case AllAttributes => r := Attributes(t, files);
      case OneAttribute(n) => r := Ok([n]);
      case AttributeList(ns) => r := Ok(ns);
      case AttributeMap(renames) => r := Ok(Firsts(renames));
    }

    method Data(t: VectorAttributeTable, files: LayerFiles, names: seq<string>) returns (r: Result<map<string, AttributeData>>)
      modifies this
      ensures (r, data) == DataSpec(old(data), t, files, names)
      ensures attributes == old(attributes)
    {
      var cached := if t in data then data[t] else map[];
      var missing := set a | a in names && a !in cached;
      if missing == {} {
        return Ok(cached);
      }
      var subs := LoadSubstitutions(t.lookupPath, files.lookup, false);
      if subs.Err? {
        return Err(subs.error);
      }
      var loaded := LoadMissing(cached, missing, files, subs.value);
      data := data[t := loaded];
      return Ok(loaded);
    }

    method GetUniqueValues(t: VectorAttributeTable, files: LayerFiles, sel: AttributeSelection)
      returns (r: Result<map<string, seq<Value>>>)
      modifies this
      ensures (r, attributes, data) == UniqueValuesSpec(old(attributes), old(data), t, files, sel)
    {
      var names := SelectedAttributes(t, files, sel);
      if names.Err? {
        return Err(names.error);
      }
      var d := Data(t, files, names.value);
      if d.Err? {
        return Err(d.error);
      }
      r := Ok(map a | a in names.value && a in d.value :: SubstitutedValues(d.value[a]));
    }

    method ToTilerArgs(t: VectorAttributeTable, files: LayerFiles, sel: AttributeSelection, filters: map<string, FilterValue>)
      returns (r: Result<seq<TilerAttribute>>)
      modifies this
      ensures (r, attributes, data) == TilerArgsSpec(old(attributes), old(data), t, files, sel, filters)
    {
      var names := SelectedAttributes(t, files, sel);
      if names.Err? {
        return Err(names.error);
      }
      var pairs := TilerPairs(sel, names.value);
      var tilerFilters: map<string, seq<Value>> := map[];
      if filters != map[] {
        var inverse := LoadSubstitutions(t.lookupPath, files.lookup, true);
        if inverse.Err? {
          return Err(inverse.error);
        }
        var remaining := filters.Keys;
        while remaining != {}
          invariant remaining <= filters.Keys
          invariant tilerFilters == map a | a in filters.Keys - remaining :: TranslateFilterSpec(filters[a], InverseOf(inverse.value, a))
          invariant attributes == SelectedSpec(old(attributes), t, files, sel).1 && data == old(data)
          decreases remaining
        {
          var a :| a in remaining;
          var translated := TranslateFilter(filters[a], InverseOf(inverse.value, a));
          tilerFilters := tilerFilters[a := translated];
          remaining := remaining - {a};
        }
        assert filters.Keys - remaining == filters.Keys;
      }
      assert FiltersSpec(t, files, filters) == Ok(tilerFilters);
      var d := Data(t, files, Firsts(pairs));
      if d.Err? {
        return Err(d.error);
      }
      r := Ok(seq(|pairs|, k requires 0 <= k < |pairs| =>
             TilerAttribute(pairs[k].0, pairs[k].1, Lookup(tilerFilters, pairs[k].0), Lookup(d.value, pairs[k].0))));
    }
  }
}
