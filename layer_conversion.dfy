/** The layer converters that turn prepared (tiled) layers into raster input
    layers: which converter handles which layer, the attribute table built for
    an ordinary layer, and the pixel remap table for the land-class layer.
    Converters form a tree: a delegating converter hands the layers to its
    subconverters in order and concatenates what they return. */
module LayerConversion {
  import opened Common

  /** An entry of a layer's attribute table: a dict of fields or a single value. */
  datatype AttributeValue = Scalar(v: Value) | Record(fields: seq<(string, Value)>)

  /** A prepared layer as the converters read it: the tags of its study-area
      metadata and the attribute table and nodata value of its tiler metadata,
      each None when the metadata has no such entry. */
  datatype PreparedLayer = PreparedLayer(
    name: string,
    path: string,
    tags: Option<seq<string>>,
    attributes: Option<seq<(string, AttributeValue)>>,
    nodata: Option<Value>)

  // ---------------------------------------------------------------------------
  // Insertion-ordered dicts

  /** d[k] = v on a dict kept as its items in insertion order: an existing key
      keeps its place, a new one goes last. */
  function Put<K(==), V>(d: seq<(K, V)>, k: K, v: V): (r: seq<(K, V)>)
    ensures |r| == |d| || |r| == |d| + 1
    decreases |d|
  {
    if d == [] then [(k, v)]
    else if d[0].0 == k then [(k, v)] + d[1..]
    else [d[0]] + Put(d[1..], k, v)
  }

  function Get<K(==), V>(d: seq<(K, V)>, k: K): Option<V>
    decreases |d|
  {
    if d == [] then None
    else if d[0].0 == k then Some(d[0].1)
    else Get(d[1..], k)
  }

  /** Reading a key back gives what was last put under it; other keys keep
      their values. */
  lemma {:induction false} GetPut<K, V>(d: seq<(K, V)>, k: K, v: V, j: K)
    ensures Get(Put(d, k, v), j) == if j == k then Some(v) else Get(d, j)
    decreases |d|
  {
    if d != [] && d[0].0 != k {
      GetPut(d[1..], k, v, j);
    }
  }

  lemma {:induction false} GetFound<K, V>(d: seq<(K, V)>, j: K)
    ensures Get(d, j).Some? <==> j in Firsts(d)
    decreases |d|
  {
    if d != [] {
      GetFound(d[1..], j);
      assert Firsts(d) == [d[0].0] + Firsts(d[1..]);
    }
  }

  lemma {:induction false} GetSnoc<K, V>(d: seq<(K, V)>, e: (K, V), j: K)
    ensures Get(d + [e], j) == if Get(d, j).Some? then Get(d, j) else if e.0 == j then Some(e.1) else None
    decreases |d|
  {
    if d != [] {
      assert (d + [e])[1..] == d[1..] + [e];
      GetSnoc(d[1..], e, j);
    }
  }

  /** d.update({k: v for k, v in items if k != skip}). */
  function UpdateExcept<K(==), V>(d: seq<(K, V)>, items: seq<(K, V)>, skip: K): seq<(K, V)>
    decreases |items|
  {
    if items == [] then d
    else
      var before := UpdateExcept(d, items[..|items| - 1], skip);
      var (k, v) := items[|items| - 1];
      if k == skip then before else Put(before, k, v)
  }

  /** After the update a key holds its item's value, unless it is the skipped
      key or no item names it, when it keeps its old value. */
  lemma {:induction false} GetUpdateExcept<K, V>(d: seq<(K, V)>, items: seq<(K, V)>, skip: K, j: K)
    requires NoDuplicates(Firsts(items))
    ensures Get(UpdateExcept(d, items, skip), j) == if j != skip && Get(items, j).Some? then Get(items, j) else Get(d, j)
    decreases |items|
  {
    if items != [] {
      var prefix := items[..|items| - 1];
      var last := items[|items| - 1];
      assert Firsts(prefix) == Firsts(items)[..|items| - 1];
      GetUpdateExcept(d, prefix, skip, j);
      GetPut(UpdateExcept(d, prefix, skip), last.0, last.1, j);
      assert items == prefix + [last];
      GetSnoc(prefix, last, j);
      GetFound(prefix, j);
      if j == last.0 {
        assert Firsts(items)[|items| - 1] == j;
      }
    }
  }

  // ---------------------------------------------------------------------------
  // DefaultLayerConverter._build_attribute_table

  /** A row of the attribute table handed to the raster input layer. */
  type Row = seq<(string, Value)>

  /** The row of one entry: its integer id, then a dict entry's fields except
      "conditions" (a field named "id" replaces the id), or a single value
      under "value". */
  function RowFor(id: int, value: AttributeValue): Row
  {
    match value
    case Scalar(v) => [("id", IntV(id)), ("value", v)]
    case Record(fields) => UpdateExcept([("id", IntV(id))], fields, "conditions")
  }

  /** What a row holds under each column. */
  lemma RowContents(id: int, value: AttributeValue, column: string)
    requires value.Record? ==> NoDuplicates(Firsts(value.fields))
    ensures value.Scalar? ==> RowFor(id, value) == [("id", IntV(id)), ("value", value.v)]
    ensures value.Record? ==>
      Get(RowFor(id, value), column) ==
        if column != "conditions" && Get(value.fields, column).Some? then Get(value.fields, column)
        else if column == "id" then Some(IntV(id))
        else None
  {
    if value.Record? {
      GetUpdateExcept([("id", IntV(id))], value.fields, "conditions", column);
    }
  }

  /** The rows of the first entries, or the error of the first key that is not
      an integer. */
  function RowsSpec(entries: seq<(string, AttributeValue)>): Result<seq<Row>>
    decreases |entries|
  {
    if entries == [] then Ok([])
    else
      match RowsSpec(entries[..|entries| - 1])
      case Err(e) => Err(e)
      case Ok(rows) =>
        var (key, value) := entries[|entries| - 1];
        match ParseInt(key)
        case None => Err(NotAnInteger(key))
        case Some(id) => Ok(rows + [RowFor(id, value)])
  }

  /** No attribute table (missing or empty) gives no table. */
  function AttributeTableSpec(layer: PreparedLayer): Result<Option<seq<Row>>>
  {
    if layer.attributes.None? || layer.attributes.value == [] then Ok(None)
    else
      match RowsSpec(layer.attributes.value)
      case Err(e) => Err(e)
      case Ok(rows) => Ok(Some(rows))
  }

  /** One row per entry, in order, each with the entry's integer id; the table
      fails exactly when some key is not an integer, naming the first. */
  lemma {:induction false} RowsFacts(entries: seq<(string, AttributeValue)>)
    ensures RowsSpec(entries).Ok? <==> forall k :: 0 <= k < |entries| ==> ParseInt(entries[k].0).Some?
    ensures RowsSpec(entries).Err? ==>
      exists k :: (0 <= k < |entries| && ParseInt(entries[k].0).None?
                   && RowsSpec(entries).error == NotAnInteger(entries[k].0)
                   && forall i :: 0 <= i < k ==> ParseInt(entries[i].0).Some?)
    ensures RowsSpec(entries).Ok? ==>
      (|RowsSpec(entries).value| == |entries|
       && forall k :: 0 <= k < |entries| ==>
            RowsSpec(entries).value[k] == RowFor(ParseInt(entries[k].0).value, entries[k].1))
    decreases |entries|
  {
    if entries != [] {
      var prefix := entries[..|entries| - 1];
      RowsFacts(prefix);
      assert forall k :: 0 <= k < |prefix| ==> prefix[k] == entries[k];
    }
  }

  /** A failing prefix fails the whole table with the same error. */
  lemma {:induction false} RowsErrExtends(entries: seq<(string, AttributeValue)>, n: nat)
    requires n <= |entries| && RowsSpec(entries[..n]).Err?
    ensures RowsSpec(entries) == RowsSpec(entries[..n])
    decreases |entries|
  {
    if n == |entries| {
      assert entries[..n] == entries;
    } else {
      var prefix := entries[..|entries| - 1];
      assert prefix[..n] == entries[..n];
      RowsErrExtends(prefix, n);
    }
  }

  method BuildAttributeTable(layer: PreparedLayer) returns (r: Result<Option<seq<Row>>>)
    ensures r == AttributeTableSpec(layer)
  {
    if layer.attributes.None? || layer.attributes.value == [] {
      return Ok(None);
    }
    var entries := layer.attributes.value;
    var rows: seq<Row> := [];
    for i := 0 to |entries|
      invariant RowsSpec(entries[..i]) == Ok(rows)
    {
      assert entries[..i + 1][..i] == entries[..i];
      var (key, value) := entries[i];
      var id := ParseInt(key);
      if id.None? {
        RowsErrExtends(entries, i + 1);
        return Err(NotAnInteger(key));
      }
      rows := rows + [RowFor(id.value, value)];
    }
    assert entries[..|entries|] == entries;
    return Ok(Some(rows));
  }

  // ---------------------------------------------------------------------------
  // LandClassLayerConverter's pixel remap table

  const LandClassLayer := "initial_current_land_class"
  const LandClassNodata := 32767

  /** The land-class codes of the target model. */
  function LandClassCode(landClass: string): Option<int>
  {
    match landClass
    case "FL" => Some(0)
    case "CL" => Some(1)
    case "GL" => Some(2)
    case "WL" => Some(3)
    case "SL" => Some(4)
    case "OL" => Some(5)
    case "UFL" => Some(16)
    case _ => None
  }

  /** The new pixel value of an attribute entry: its land class's code, or the
      new nodata value for anything else; a dict entry cannot be looked up. */
  function RemappedPixel(value: AttributeValue): Result<int>
  {
    match value
    case Record(_) => Err(TypeMismatch)
    case Scalar(StrV(c)) => Ok(if LandClassCode(c).Some? then LandClassCode(c).value else LandClassNodata)
    case Scalar(_) => Ok(LandClassNodata)
  }

  /** The entries of `attrs` put in order after the nodata entry. */
  function RemapEntries(table: seq<(Value, int)>, attrs: seq<(string, AttributeValue)>): Result<seq<(Value, int)>>
    decreases |attrs|
  {
    if attrs == [] then Ok(table)
    else
      match RemapEntries(table, attrs[..|attrs| - 1])
      case Err(e) => Err(e)
      case Ok(t) =>
        match RemappedPixel(attrs[|attrs| - 1].1)
        case Err(e) => Err(e)
        case Ok(px) => Ok(Put(t, StrV(attrs[|attrs| - 1].0), px))
  }

  /** The remap table: the old nodata value to the new one, then each
      attribute key to its land-class code; a missing "nodata" or "attributes"
      entry is a KeyError, read in that order. */
  function RemapTableSpec(layer: PreparedLayer): Result<seq<(Value, int)>>
  {
    if layer.nodata.None? then Err(MissingKey("nodata"))
    else if layer.attributes.None? then Err(MissingKey("attributes"))
    else RemapEntries([(layer.nodata.value, LandClassNodata)], layer.attributes.value)
  }

  /** Each attribute key is remapped to its class's code (the new nodata value
      for an unknown class), overriding the nodata entry if they coincide; the
      old nodata value otherwise goes to the new one. */
  lemma {:induction false} RemapEntriesFacts(table: seq<(Value, int)>, attrs: seq<(string, AttributeValue)>, key: Value)
    requires forall e :: e in attrs ==> e.1.Scalar?
    ensures RemapEntries(table, attrs).Ok?
    ensures Get(RemapEntries(table, attrs).value, key) ==
      if key.StrV? && Get(attrs, key.s).Some? then Some(RemappedPixel(LastGet(attrs, key.s)).value)
      else Get(table, key)
    decreases |attrs|
  {
    if attrs != [] {
      var prefix := attrs[..|attrs| - 1];
      var last := attrs[|attrs| - 1];
      RemapEntriesFacts(table, prefix, key);
      GetPut(RemapEntries(table, prefix).value, StrV(last.0), RemappedPixel(last.1).value, key);
      assert attrs == prefix + [last];
      GetSnoc(prefix, last, if key.StrV? then key.s else "");
    }
  }

  /** The value of the last item under a key (what a dict built from the items keeps). */
  function LastGet<V>(items: seq<(string, V)>, k: string): (v: V)
    requires Get(items, k).Some?
    ensures (k, v) in items
    decreases |items|
  {
    if items[|items| - 1].0 == k then items[|items| - 1].1
    else
      assert Get(items[..|items| - 1], k).Some? by {
        assert items == items[..|items| - 1] + [items[|items| - 1]];
        GetSnoc(items[..|items| - 1], items[|items| - 1], k);
      }
      LastGet(items[..|items| - 1], k)
  }

  // ---------------------------------------------------------------------------
  // Converters

  /** A raster input layer: its name, raster path, attribute table and tags,
      and for a remapped raster the pixel remap table that produces it. */
  datatype InputLayer = InputLayer(
    name: string,
    path: string,
    attributeTable: Option<seq<Row>>,
    tags: Option<seq<string>>,
    pixelRemap: Option<seq<(Value, int)>>)

  /** The converters: one that delegates to subconverters in order, the
      default one (with its name remappings) and the land-class one. */
  datatype Converter =
    | Delegating(converters: seq<Converter>)
    | DefaultConverter(nameRemappings: map<string, string>)
    | LandClassConverter

  function Handles(c: Converter, layer: PreparedLayer): bool
    decreases c, 0
  {
    match c
    case Delegating(cs) => AnyHandles(cs, layer)
    case DefaultConverter(_) => layer.name != LandClassLayer
    case LandClassConverter => layer.name == LandClassLayer
  }

  function AnyHandles(cs: seq<Converter>, layer: PreparedLayer): bool
    decreases cs
  {
    if cs == [] then false else Handles(cs[0], layer) || AnyHandles(cs[1..], layer)
  }

  /** A delegating converter handles a layer iff one of its subconverters does. */
  lemma {:induction false} DelegatingHandles(cs: seq<Converter>, layer: PreparedLayer)
    ensures Handles(Delegating(cs), layer) <==> exists k :: 0 <= k < |cs| && Handles(cs[k], layer)
    decreases |cs|
  {
    if cs != [] {
      DelegatingHandles(cs[1..], layer);
      if exists k :: 0 <= k < |cs| && Handles(cs[k], layer) {
        var k :| 0 <= k < |cs| && Handles(cs[k], layer);
        if k > 0 {
          assert cs[1..][k - 1] == cs[k];
        }
      }
      if exists k :: 0 <= k < |cs[1..]| && Handles(cs[1..][k], layer) {
        var k :| 0 <= k < |cs[1..]| && Handles(cs[1..][k], layer);
        assert cs[k + 1] == cs[1..][k];
      }
    }
  }

  /** The default and land-class converters split the layers between them. */
  lemma DefaultAndLandClassComplementary(remaps: map<string, string>, layer: PreparedLayer)
    ensures Handles(DefaultConverter(remaps), layer) != Handles(LandClassConverter, layer)
  {
  }

  function HandledBy(c: Converter): PreparedLayer -> bool
  {
    (l: PreparedLayer) => Handles(c, l)
  }

  /** A layer's name after remapping; unmapped names are kept. */
  function RemapName(remaps: map<string, string>, name: string): string
  {
    if name in remaps then remaps[name] else name
  }

  /** The default conversion of the first `n` layers, stopping at the first
      attribute table that fails. */
  function DefaultOutputs(remaps: map<string, string>, layers: seq<PreparedLayer>): Result<seq<InputLayer>>
    decreases |layers|
  {
    if layers == [] then Ok([])
    else
      match DefaultOutputs(remaps, layers[..|layers| - 1])
      case Err(e) => Err(e)
      case Ok(out) =>
        var l := layers[|layers| - 1];
        match AttributeTableSpec(l)
        case Err(e) => Err(e)
        case Ok(table) => Ok(out + [InputLayer(RemapName(remaps, l.name), l.path, table, l.tags, None)])
  }

  /** The land-class conversion: the first layer only, written under the
      temporary directory and renamed "land_class". */
  function LandClassOutputs(layers: seq<PreparedLayer>, tempDir: string): Result<seq<InputLayer>>
  {
    if layers == [] then Ok([])
    else
      match RemapTableSpec(layers[0])
      case Err(e) => Err(e)
      case Ok(table) =>
        Ok([InputLayer("land_class", tempDir + "/" + layers[0].name + ".tif", None, layers[0].tags, Some(table))])
  }

  /** convert: the layers the converter handles, passed on in order. */
  function ConvertSpec(c: Converter, layers: seq<PreparedLayer>, tempDir: string): Result<seq<InputLayer>>
    decreases c, 1
  {
    ConvertInternalSpec(c, Filter(layers, HandledBy(c)), tempDir)
  }

  function ConvertInternalSpec(c: Converter, layers: seq<PreparedLayer>, tempDir: string): Result<seq<InputLayer>>
    decreases c, 0
  {
    match c
    case Delegating(cs) => ConvertAll(cs, |cs|, layers, tempDir)
    case DefaultConverter(remaps) => DefaultOutputs(remaps, layers)
    case LandClassConverter => LandClassOutputs(layers, tempDir)
  }

  /** The outputs of the first `n` subconverters, concatenated in order. */
  function ConvertAll(cs: seq<Converter>, n: nat, layers: seq<PreparedLayer>, tempDir: string): Result<seq<InputLayer>>
    requires n <= |cs|
    decreases cs, n
  {
    if n == 0 then Ok([])
    else
      match ConvertAll(cs, n - 1, layers, tempDir)
      case Err(e) => Err(e)
      case Ok(out) =>
        match ConvertSpec(cs[n - 1], layers, tempDir)
        case Err(e) => Err(e)
        case Ok(more) => Ok(out + more)
  }

  /** The outputs of the first `n` subconverters, each of which succeeds. */
  function SubOutputs(cs: seq<Converter>, n: nat, layers: seq<PreparedLayer>, tempDir: string): (parts: seq<seq<InputLayer>>)
    requires n <= |cs|
    requires forall k :: 0 <= k < n ==> ConvertSpec(cs[k], layers, tempDir).Ok?
    ensures |parts| == n
  {
    seq(n, k requires 0 <= k < n => ConvertSpec(cs[k], layers, tempDir).value)
  }

  /** A delegating converter whose subconverters all succeed returns their
      outputs concatenated in subconverter order. */
  lemma {:induction false} DelegatingConcatenates(cs: seq<Converter>, n: nat, layers: seq<PreparedLayer>, tempDir: string)
    requires n <= |cs|
    requires forall k :: 0 <= k < n ==> ConvertSpec(cs[k], layers, tempDir).Ok?
    ensures ConvertAll(cs, n, layers, tempDir) == Ok(Concat(SubOutputs(cs, n, layers, tempDir)))
    decreases n
  {
    if n > 0 {
      DelegatingConcatenates(cs, n - 1, layers, tempDir);
      var prev := SubOutputs(cs, n - 1, layers, tempDir);
      var parts := SubOutputs(cs, n, layers, tempDir);
      var last := ConvertSpec(cs[n - 1], layers, tempDir).value;
      assert parts == prev + [last] by {
        assert forall k :: 0 <= k < n - 1 ==> parts[k] == prev[k];
        assert parts[n - 1] == last;
      }
      ConcatAppend(prev, last);
      assert ConvertAll(cs, n, layers, tempDir) == Ok(Concat(prev) + last);
    }
  }

  /** The default converter turns each layer it is given into one input layer,
      in order, under its remapped name and with its attribute table; it
      fails exactly when some attribute table does. */
  lemma {:induction false} DefaultOutputsFacts(remaps: map<string, string>, layers: seq<PreparedLayer>)
    ensures DefaultOutputs(remaps, layers).Ok? <==> forall k :: 0 <= k < |layers| ==> AttributeTableSpec(layers[k]).Ok?
    ensures DefaultOutputs(remaps, layers).Ok? ==>
      (|DefaultOutputs(remaps, layers).value| == |layers|
       && forall k :: 0 <= k < |layers| ==>
            DefaultOutputs(remaps, layers).value[k]
            == InputLayer(RemapName(remaps, layers[k].name), layers[k].path, AttributeTableSpec(layers[k]).value, layers[k].tags, None))
    decreases |layers|
  {
    if layers != [] {
      var prefix := layers[..|layers| - 1];
      DefaultOutputsFacts(remaps, prefix);
      assert forall k :: 0 <= k < |prefix| ==> prefix[k] == layers[k];
    }
  }

  /** The land-class converter converts at most the first layer it is given,
      under the name "land_class" and with that layer's remap table. */
  lemma LandClassFirstOnly(layers: seq<PreparedLayer>, tempDir: string)
    ensures LandClassOutputs(layers, tempDir).Ok? <==> layers == [] || RemapTableSpec(layers[0]).Ok?
    ensures var r := LandClassOutputs(layers, tempDir);
      r.Ok? && layers != [] ==>
        (|r.value| == 1 && r.value[0].name == "land_class" && r.value[0].tags == layers[0].tags
         && r.value[0].pixelRemap == Some(RemapTableSpec(layers[0]).value))
  {
  }

  /** convert hands on exactly the given layers that the converter handles. */
  lemma ConvertSeesHandled(c: Converter, layers: seq<PreparedLayer>, l: PreparedLayer)
    ensures l in Filter(layers, HandledBy(c)) <==> l in layers && Handles(c, l)
  {
    if l in layers && Handles(c, l) {
      FilterKeeps(layers, HandledBy(c), l);
    }
  }

  /** The converter the project conversion builds: land class first, then
      the default one with the age and delay layers renamed. */
  function ProjectLayerConverter(): Converter
  {
    Delegating([LandClassConverter, DefaultConverter(map["initial_age" := "age", "inventory_delay" := "delay"])])
  }

  /** That converter handles every layer, and exactly one of its two
      subconverters handles each. */
  lemma ProjectConverterHandlesAll(layer: PreparedLayer)
    ensures Handles(ProjectLayerConverter(), layer)
    ensures Handles(LandClassConverter, layer) != Handles(DefaultConverter(map["initial_age" := "age", "inventory_delay" := "delay"]), layer)
  {
    DelegatingHandles(ProjectLayerConverter().converters, layer);
    assert ProjectLayerConverter().converters[0] == LandClassConverter;
  }

  method Convert(c: Converter, layers: seq<PreparedLayer>, tempDir: string) returns (r: Result<seq<InputLayer>>)
    ensures r == ConvertSpec(c, layers, tempDir)
    decreases c, 1
  {
    r := ConvertInternal(c, Filter(layers, HandledBy(c)), tempDir);
  }

  method ConvertInternal(c: Converter, layers: seq<PreparedLayer>, tempDir: string) returns (r: Result<seq<InputLayer>>)
    ensures r == ConvertInternalSpec(c, layers, tempDir)
    decreases c, 0
  {
    match c
    case Delegating(cs) =>
      var results: seq<InputLayer> := [];
      for i := 0 to |cs|
        invariant ConvertAll(cs, i, layers, tempDir) == Ok(results)
      {
        var more := Convert(cs[i], layers, tempDir);
        if more.Err? {
          ConvertAllErrExtends(cs, i + 1, |cs|, layers, tempDir);
          return Err(more.error);
        }
        results := results + more.value;
      }
      r := Ok(results);
    case DefaultConverter(remaps) =>
      r := ConvertDefault(remaps, layers);
    case LandClassConverter =>
      r := LandClassOutputs(layers, tempDir);
  }

  lemma {:induction false} ConvertAllErrExtends(cs: seq<Converter>, n: nat, m: nat, layers: seq<PreparedLayer>, tempDir: string)
    requires n <= m <= |cs| && ConvertAll(cs, n, layers, tempDir).Err?
    ensures ConvertAll(cs, m, layers, tempDir) == ConvertAll(cs, n, layers, tempDir)
    decreases m
  {
    if m > n {
      ConvertAllErrExtends(cs, n, m - 1, layers, tempDir);
    }
  }

  lemma {:induction false} DefaultOutputsErrExtends(remaps: map<string, string>, layers: seq<PreparedLayer>, n: nat)
    requires n <= |layers| && DefaultOutputs(remaps, layers[..n]).Err?
    ensures DefaultOutputs(remaps, layers) == DefaultOutputs(remaps, layers[..n])
    decreases |layers|
  {
    if n == |layers| {
      assert layers[..n] == layers;
    } else {
      var prefix := layers[..|layers| - 1];
      assert prefix[..n] == layers[..n];
      DefaultOutputsErrExtends(remaps, prefix, n);
    }
  }

  /** DefaultLayerConverter.convert_internal, building each attribute table in turn. */
  method ConvertDefault(remaps: map<string, string>, layers: seq<PreparedLayer>) returns (r: Result<seq<InputLayer>>)
    ensures r == DefaultOutputs(remaps, layers)
  {
    if layers == [] {
      return Ok([]);
    }
    var out: seq<InputLayer> := [];
    for i := 0 to |layers|
      invariant DefaultOutputs(remaps, layers[..i]) == Ok(out)
    {
      assert layers[..i + 1][..i] == layers[..i];
      var table := BuildAttributeTable(layers[i]);
      if table.Err? {
        DefaultOutputsErrExtends(remaps, layers, i + 1);
        return Err(table.error);
      }
      out := out + [InputLayer(RemapName(remaps, layers[i].name), layers[i].path, table.value, layers[i].tags, None)];
    }
    assert layers[..|layers|] == layers;
    return Ok(out);
  }
}
