/** The raster attribute table: a CSV whose first column holds the raster's
    pixel values and whose other columns are the attributes of each value.
    The CSV is read once, on first use, and kept by the table. */
module RasterAttributes {
  import opened Common
  import VectorAttributes

  /** The CSV as pandas reads it: distinct column names and rows of cells. */
  datatype Frame = Frame(columns: seq<string>, rows: seq<seq<Value>>)

  /** The position of a named column, if there is one. */
  function ColumnIndex(f: Frame, name: string): (r: Option<nat>)
    ensures r.Some? <==> name in f.columns
    ensures r.Some? ==> r.value < |f.columns| && f.columns[r.value] == name
  {
    FirstIndex(f.columns, (c: string) => c == name)
  }

  /** A column's values, top to bottom. */
  function Column(f: Frame, k: nat): (r: seq<Value>)
    ensures |r| == |f.rows|
  {
    seq(|f.rows|, i requires 0 <= i < |f.rows| => Cell(f.rows[i], k))
  }

  /** The `attributes` property: every column but the first. */
  function FrameAttributes(f: Frame): (r: seq<string>)
    ensures |r| == if f.columns == [] then 0 else |f.columns| - 1
    ensures forall j :: 0 <= j < |r| ==> r[j] == f.columns[j + 1]
  {
    if f.columns == [] then [] else f.columns[1..]
  }

  /** What _get_selected_attributes returns: a list of attribute names, or a
      rename dict (attribute to tiler name) passed through as given. */
  datatype Selected = Names(names: seq<string>) | Renames(renames: seq<(string, string)>)

  /** _get_selected_attributes: one name is wrapped in a list, a list or a dict
      is kept, and no selection stands for every attribute of the CSV. */
  function Selection(f: Frame, sel: VectorAttributes.AttributeSelection): Selected
  {
    match sel
    case AllAttributes => Names(FrameAttributes(f))
    case OneAttribute(n) => Names([n])
    case AttributeList(ns) => Names(ns)
    case AttributeMap(renames) => Renames(renames)
  }

  /** The attribute names a selection iterates over (a dict's keys). */
  function SelectedKeys(s: Selected): seq<string>
  {
    match s
    case Names(ns) => ns
    case Renames(renames) => Firsts(renames)
  }

  function SelectedNames(f: Frame, sel: VectorAttributes.AttributeSelection): seq<string>
  {
    SelectedKeys(Selection(f, sel))
  }

  /** The first selected name that is not a column (pandas raises KeyError). */
  function FirstUnknown(f: Frame, names: seq<string>): (r: Option<nat>)
    ensures r.Some? ==> r.value < |names| && names[r.value] !in f.columns
    ensures r.None? <==> forall j :: 0 <= j < |names| ==> names[j] in f.columns
  {
    FirstIndex(names, (n: string) => n !in f.columns)
  }

  /** get_unique_values: each selected attribute's values without repeats, in
      order of first appearance. */
  function UniqueValuesSpec(f: Frame, names: seq<string>): Result<map<string, seq<Value>>>
  {
    match FirstUnknown(f, names)
    case Some(j) => Err(MissingKey(names[j]))
    case None => Ok(map a | a in names :: Distinct(Column(f, ColumnIndex(f, a).value)))
  }

  /** The unique values name exactly the selected attributes, each listing
      every value of its column once, in order of first appearance; an unknown
      attribute is an error. */
  lemma UniqueValuesFacts(f: Frame, names: seq<string>, a: string, v: Value)
    ensures UniqueValuesSpec(f, names).Ok? <==> forall j :: 0 <= j < |names| ==> names[j] in f.columns
    ensures var r := UniqueValuesSpec(f, names);
      r.Ok? && a in names ==>
        (a in r.value && NoDuplicates(r.value[a])
         && (v in r.value[a] <==> exists i :: 0 <= i < |f.rows| && Cell(f.rows[i], ColumnIndex(f, a).value) == v))
    ensures var r := UniqueValuesSpec(f, names);
      r.Ok? && a in names ==>
        forall i, j :: 0 <= i < j < |r.value[a]| ==>
          OccursBefore(Column(f, ColumnIndex(f, a).value), r.value[a][i], r.value[a][j])
  {
    var r := UniqueValuesSpec(f, names);
    if r.Ok? && a in names {
      var col := Column(f, ColumnIndex(f, a).value);
      assert r.value[a] == Distinct(col);
      DistinctOrder(col);
      if v in col {
        var i :| 0 <= i < |col| && col[i] == v;
      }
      if exists i :: 0 <= i < |f.rows| && Cell(f.rows[i], ColumnIndex(f, a).value) == v {
        var i :| 0 <= i < |f.rows| && Cell(f.rows[i], ColumnIndex(f, a).value) == v;
        assert col[i] == v;
      }
    }
  }

  /** The selected attributes' values of row `i`, in selection order. */
  function RowValues(f: Frame, i: nat, names: seq<string>): seq<Value>
    requires i < |f.rows|
    requires forall j :: 0 <= j < |names| ==> names[j] in f.columns
  {
    seq(|names|, j requires 0 <= j < |names| => Cell(f.rows[i], ColumnIndex(f, names[j]).value))
  }

  /** The attribute table over the first `n` rows: each pixel value mapped to
      its row's selected values; a later row with the same pixel value wins. */
  function AttributeTableOf(f: Frame, names: seq<string>, n: nat): map<Value, seq<Value>>
    requires n <= |f.rows|
    requires forall j :: 0 <= j < |names| ==> names[j] in f.columns
  {
    if n == 0 then map[]
    else AttributeTableOf(f, names, n - 1)[Cell(f.rows[n - 1], 0) := RowValues(f, n - 1, names)]
  }

  /** The tiler arguments: the selection as given and the attribute table. */
  datatype TilerArgs = TilerArgs(attributes: Selected, attributeTable: map<Value, seq<Value>>)

  /** to_tiler_args: a CSV without columns has no first column (IndexError);
      an unknown attribute is a KeyError. */
  function TilerArgsSpec(f: Frame, s: Selected): Result<TilerArgs>
  {
    var names := SelectedKeys(s);
    if f.columns == [] then Err(IndexOutOfRange)
    else
      match FirstUnknown(f, names)
      case Some(j) => Err(MissingKey(names[j]))
      case None => Ok(TilerArgs(s, AttributeTableOf(f, names, |f.rows|)))
  }

  /** Every pixel value of the CSV has an entry, and nothing else does; the
      entry holds the selected values of the last row with that pixel value. */
  lemma {:induction false} AttributeTableRows(f: Frame, names: seq<string>, n: nat, key: Value)
    requires n <= |f.rows|
    requires forall j :: 0 <= j < |names| ==> names[j] in f.columns
    ensures key in AttributeTableOf(f, names, n) <==> exists i :: 0 <= i < n && Cell(f.rows[i], 0) == key
    ensures key in AttributeTableOf(f, names, n) ==>
      exists i :: 0 <= i < n && Cell(f.rows[i], 0) == key && AttributeTableOf(f, names, n)[key] == RowValues(f, i, names)
        && forall j :: i < j < n ==> Cell(f.rows[j], 0) != key
  {
    if n > 0 {
      AttributeTableRows(f, names, n - 1, key);
      if Cell(f.rows[n - 1], 0) != key && key in AttributeTableOf(f, names, n) {
        var i :| 0 <= i < n - 1 && Cell(f.rows[i], 0) == key && AttributeTableOf(f, names, n - 1)[key] == RowValues(f, i, names)
          && forall j :: i < j < n - 1 ==> Cell(f.rows[j], 0) != key;
        assert forall j :: i < j < n ==> Cell(f.rows[j], 0) != key;
      }
    }
  }

  /** The tiler arguments hand the selection back as given (a rename dict
      stays a dict), with an entry for every pixel value of the CSV holding
      one value per selected attribute; they fail exactly when the CSV has no
      columns or names an unknown attribute, the missing columns first. */
  lemma TilerArgsFacts(f: Frame, sel: VectorAttributes.AttributeSelection, key: Value)
    ensures var r := TilerArgsSpec(f, Selection(f, sel));
      r.Ok? <==> f.columns != [] && forall j :: 0 <= j < |SelectedNames(f, sel)| ==> SelectedNames(f, sel)[j] in f.columns
    ensures f.columns == [] ==> TilerArgsSpec(f, Selection(f, sel)) == Err(IndexOutOfRange)
    ensures var r := TilerArgsSpec(f, Selection(f, sel));
      r.Ok? ==>
        (match sel
         case AllAttributes => r.value.attributes == Names(FrameAttributes(f))
         case OneAttribute(n) => r.value.attributes == Names([n])
         case AttributeList(ns) => r.value.attributes == Names(ns)
         case AttributeMap(renames) => r.value.attributes == Renames(renames))
    ensures var r := TilerArgsSpec(f, Selection(f, sel));
      r.Ok? ==>
        (key in r.value.attributeTable <==> exists i :: 0 <= i < |f.rows| && Cell(f.rows[i], 0) == key)
    ensures var r := TilerArgsSpec(f, Selection(f, sel));
      r.Ok? && key in r.value.attributeTable ==> |r.value.attributeTable[key]| == |SelectedNames(f, sel)|
  {
    var names := SelectedNames(f, sel);
    if f.columns != [] && FirstUnknown(f, names).None? {
      AttributeTableRows(f, names, |f.rows|, key);
    }
  }

  /** A rename dict comes back as the dict: selecting `yr` under the tiler
      name `year` keeps `year`. */
  lemma DictSelectionKept()
    ensures TilerArgsSpec(Frame(["px", "yr"], []), Selection(Frame(["px", "yr"], []), VectorAttributes.AttributeMap([("yr", "year")])))
      == Ok(TilerArgs(Renames([("yr", "year")]), map[]))
  {
    var f := Frame(["px", "yr"], []);
    assert Firsts([("yr", "year")]) == ["yr"];
    assert FirstUnknown(f, ["yr"]).None?;
  }

  /** A table over a raster attribute CSV, which it reads on first use. */
  class RasterAttributeTable {
    const path: string
    var cachedData: Option<Frame>

    constructor(path: string)
      ensures this.path == path && cachedData.None?
    {
      this.path := path;
      cachedData := None;
    }

    /** _data: the CSV read on the first call; later calls ignore the file. */
    method Data(csv: Frame) returns (f: Frame)
      modifies this
      ensures f == if old(cachedData).Some? then old(cachedData).value else csv
      ensures cachedData == Some(f)
    {
      if cachedData.None? {
        cachedData := Some(csv);
      }
      f := cachedData.value;
    }

    method Attributes(csv: Frame) returns (r: seq<string>)
      modifies this
      ensures cachedData == Some(if old(cachedData).Some? then old(cachedData).value else csv)
      ensures r == FrameAttributes(cachedData.value)
    {
      var f := Data(csv);
      r := FrameAttributes(f);
    }

    /** The file is read only if some attribute must be looked up. */
    method GetUniqueValues(csv: Frame, sel: VectorAttributes.AttributeSelection) returns (r: Result<map<string, seq<Value>>>)
      modifies this
      ensures var f := if old(cachedData).Some? then old(cachedData).value else csv;
        r == UniqueValuesSpec(f, SelectedNames(f, sel))
        && cachedData == if sel.AllAttributes? || SelectedNames(f, sel) != [] then Some(f) else old(cachedData)
    {
      var names: seq<string>;
      if sel.AllAttributes? {
        names := Attributes(csv);
      } else {
        names := SelectedNames(Frame([], []), sel);
      }
      if names == [] {
        return Ok(map[]);
      }
      var f := Data(csv);
      var unknown := FirstUnknown(f, names);
      if unknown.Some? {
        return Err(MissingKey(names[unknown.value]));
      }
      r := Ok(map a | a in names :: Distinct(Column(f, ColumnIndex(f, a).value)));
    }

    method ToTilerArgs(csv: Frame, sel: VectorAttributes.AttributeSelection) returns (r: Result<TilerArgs>)
      modifies this
      ensures var f := if old(cachedData).Some? then old(cachedData).value else csv;
        r == TilerArgsSpec(f, Selection(f, sel)) && cachedData == Some(f)
    {
      var f := Data(csv);
      var selected := Selection(f, sel);
      var names := SelectedKeys(selected);
      if f.columns == [] {
        return Err(IndexOutOfRange);
      }
      var unknown := FirstUnknown(f, names);
      if unknown.Some? {
        return Err(MissingKey(names[unknown.value]));
      }
      var table: map<Value, seq<Value>> := map[];
      for i := 0 to |f.rows|
        invariant table == AttributeTableOf(f, names, i)
      {
        table := table[Cell(f.rows[i], 0) := RowValues(f, i, names)];
      }
      r := Ok(TilerArgs(selected, table));
    }
  }

  /** The constructor's check: a missing CSV is an error. */
  method OpenRasterAttributeTable(path: string, found: bool) returns (r: Result<RasterAttributeTable>)
    ensures r.Err? <==> !found
    ensures r.Err? ==> r.error == PathNotFound(path)
    ensures r.Ok? ==> fresh(r.value) && r.value.path == path && r.value.cachedData.None?
  {
    if !found {
      return Err(PathNotFound(path));
    }
    var t := new RasterAttributeTable(path);
    return Ok(t);
  }
}
