/** How the Disturbance component turns the layers matching its pattern into
    disturbance layer descriptors for the tiler: the tiler attributes, the
    configured filters mapped onto the resolved attributes, the raster year
    filter, and the split of a vector layer into one descriptor per combination
    of split-attribute values (gcbmwalltowall/component/disturbance.py). The
    tiler's own layer objects are opaque records here. */
module DisturbanceLayers {
  import opened Common
  import opened DisturbanceParsing
  import opened DisturbanceResolution

  // ---------------------------------------------------------------------------
  // Inputs and the records handed to the tiler

  /** One layer found by the pattern: its path, the geodatabase sublayer (if
      any), whether it is a raster, and its attribute table. */
  datatype LayerData = LayerData(path: string, sublayer: Option<string>, isRaster: bool, table: AttributeTable)

  /** The project layer built for a found file. */
  datatype SourceLayer = SourceLayer(name: string, path: string, sublayer: Option<string>)

  /** What the tiler rasterises: the layer itself, or the layer split under a new
      name with renamed attributes and attribute filters. */
  datatype TilerInput =
    | Whole(layer: SourceLayer)
    | Split(layer: SourceLayer, name: string, attributes: map<string, string>, filters: map<string, FilterValue>)

  datatype DisturbanceLayer = DisturbanceLayer(
    input: TilerInput,
    year: Param,
    disturbanceType: Param,
    transition: Option<TransitionRule>,
    transitionUndisturbed: Option<TransitionRule>,
    proportion: Param)

  // ---------------------------------------------------------------------------
  // The tiler attributes

  function AttributeNames(rule: Option<TransitionRule>): (r: seq<Value>)
    ensures forall k :: 0 <= k < |r| ==> r[k].StrV?
  {
    match rule
    case None => []
    case Some(tr) =>
      (if tr.ageAfter.Attr? then [StrV(tr.ageAfter.name)] else [])
      + (if tr.regenDelay.Attr? then [StrV(tr.regenDelay.name)] else [])
  }

  /** {attr: attr for attr in candidates if attr in attribute_table} */
  function IdentityAttributes(t: AttributeTable, candidates: seq<Value>): (m: map<string, string>)
    ensures forall a :: a in m <==> StrV(a) in candidates && HasAttribute(t, a)
    ensures forall a :: a in m ==> m[a] == a
  {
    var names := set v | v in candidates && InTable(t, v) :: v.s;
    map a | a in names :: a
  }

  /** tiler_attributes.update({v: k for k, v in pairs}): each classifier value
      is renamed to its classifier, the last pair winning for a repeated value;
      every other entry is kept. */
  function RenameTo(m: map<string, string>, pairs: seq<(string, string)>): (r: map<string, string>)
    ensures forall a :: a in r <==> a in m || exists k :: 0 <= k < |pairs| && pairs[k].1 == a
    decreases |pairs|
  {
    if pairs == [] then m
    else
      var last := pairs[|pairs| - 1];
      var prefix := pairs[..|pairs| - 1];
      assert forall k :: 0 <= k < |prefix| ==> prefix[k] == pairs[k];
      RenameTo(m, prefix)[last.1 := last.0]
  }

  /** A classifier value maps to the classifier of its last pair; an entry no
      pair renames keeps its value. */
  lemma {:induction false} RenameToValues(m: map<string, string>, pairs: seq<(string, string)>)
    ensures var r := RenameTo(m, pairs);
      forall k :: 0 <= k < |pairs| && (forall j :: k < j < |pairs| ==> pairs[j].1 != pairs[k].1) ==>
        r[pairs[k].1] == pairs[k].0
    ensures var r := RenameTo(m, pairs);
      forall a :: a in m && (forall k :: 0 <= k < |pairs| ==> pairs[k].1 != a) ==> r[a] == m[a]
    decreases |pairs|
  {
    if pairs != [] {
      var last := pairs[|pairs| - 1];
      var prefix := pairs[..|pairs| - 1];
      RenameToValues(m, prefix);
      var r := RenameTo(m, pairs);
      assert r == RenameTo(m, prefix)[last.1 := last.0];
      forall k | 0 <= k < |pairs| && (forall j :: k < j < |pairs| ==> pairs[j].1 != pairs[k].1)
        ensures r[pairs[k].1] == pairs[k].0
      {
        if k < |pairs| - 1 {
          assert prefix[k] == pairs[k];
          assert last.1 != pairs[k].1;
          assert forall j :: k < j < |prefix| ==> prefix[j].1 != prefix[k].1 by {
            forall j | k < j < |prefix| ensures prefix[j].1 != prefix[k].1 {
              assert prefix[j] == pairs[j];
            }
          }
        }
      }
      forall a | a in m && (forall k :: 0 <= k < |pairs| ==> pairs[k].1 != a) ensures r[a] == m[a] {
        assert last.1 != a;
        assert forall k :: 0 <= k < |prefix| ==> prefix[k].1 != a by {
          forall k | 0 <= k < |prefix| ensures prefix[k].1 != a {
            assert prefix[k] == pairs[k];
          }
        }
      }
    }
  }

  /** What is settled for one layer before the filters are applied. */
  datatype Prepared = Prepared(
    layer: SourceLayer,
    transition: Option<TransitionRule>,
    transitionUndisturbed: Option<TransitionRule>,
    spatial: bool,
    disturbanceType: Value,
    year: Value,
    proportion: Value,
    attributes: map<string, string>)

  /** The attributes that are tiler attributes when the layer has them: the
      year, the type, the proportion, the attributes the transitions read, and
      the metadata attributes. */
  function TilerCandidates(year: Value, disturbanceType: Value, proportion: Value, td: Option<TransitionRule>,
                           tu: Option<TransitionRule>, metadata: seq<string>): (c: seq<Value>)
    ensures year in c && disturbanceType in c && proportion in c
    ensures forall a :: a in metadata ==> StrV(a) in c
  {
    var meta := seq(|metadata|, k requires 0 <= k < |metadata| => StrV(metadata[k]));
    assert forall a :: a in metadata ==> StrV(a) in meta by {
      forall a | a in metadata ensures StrV(a) in meta {
        var k :| 0 <= k < |metadata| && metadata[k] == a;
        assert meta[k] == StrV(a);
      }
    }
    [year, disturbanceType, proportion] + AttributeNames(td) + AttributeNames(tu) + meta
  }

  /** Builds the layer and its transitions, resolves the type before the year
      (so a missing type is the error reported when both are missing), and
      collects the tiler attributes; classifier attributes read by a transition
      are renamed to their classifiers, which needs the configured disturbed
      transition. */
  function Prepare(d: Disturbance, vocabulary: set<Value>, data: LayerData): (r: Result<Prepared>)
    ensures r.Ok? ==> ResolveYear(d.year, data.path, data.table) == Ok(r.value.year)
    ensures r.Ok? ==> ResolveType(d.disturbanceType, vocabulary, data.path, data.table) == Ok(r.value.disturbanceType)
    ensures r.Ok? ==> r.value.layer == SourceLayer(MakeTilerName(d.name, data.path, [data.sublayer]), data.path, data.sublayer)
    ensures r.Ok? ==> (r.value.transition == MakeTransition(data.table, d.transition).0
      && r.value.transitionUndisturbed == MakeTransition(data.table, d.transitionUndisturbed).0)
    ensures r.Ok? ==> r.value.proportion == ConfiguredOrDefault(data.table, "proportion", d.proportion)
    ensures r.Ok? ==> (r.value.spatial <==>
      MakeTransition(data.table, d.transition).1.Some? || MakeTransition(data.table, d.transitionUndisturbed).1.Some?)
    ensures r.Ok? ==>
      var p := r.value;
      var base := IdentityAttributes(data.table, TilerCandidates(p.year, p.disturbanceType, p.proportion,
                                                                 p.transition, p.transitionUndisturbed, d.metadataAttributes));
      if p.spatial then d.transition.Some? && p.attributes == RenameTo(base, d.transition.value.classifiers)
      else p.attributes == base
    ensures var spatial := MakeTransition(data.table, d.transition).1.Some? || MakeTransition(data.table, d.transitionUndisturbed).1.Some?;
      r.Err? <==>
        || ResolveType(d.disturbanceType, vocabulary, data.path, data.table).Err?
        || ResolveYear(d.year, data.path, data.table).Err?
        || (spatial && d.transition.None?)
    ensures r.Err? && ResolveType(d.disturbanceType, vocabulary, data.path, data.table).Err? ==>
      r.error == NoDisturbanceType(data.path)
    ensures (r.Err? && ResolveType(d.disturbanceType, vocabulary, data.path, data.table).Ok?
      && ResolveYear(d.year, data.path, data.table).Err?) ==> r.error == ResolveYear(d.year, data.path, data.table).error
    ensures (r.Err? && ResolveType(d.disturbanceType, vocabulary, data.path, data.table).Ok?
      && ResolveYear(d.year, data.path, data.table).Ok?) ==> r.error == MissingTransition
  {
    var t := data.table;
    var layer := SourceLayer(MakeTilerName(d.name, data.path, [data.sublayer]), data.path, data.sublayer);
    var (td, spatialDisturbed) := MakeTransition(t, d.transition);
    var (tu, spatialUndisturbed) := MakeTransition(t, d.transitionUndisturbed);
    var spatial := spatialDisturbed.Some? || spatialUndisturbed.Some?;
    match ResolveType(d.disturbanceType, vocabulary, data.path, t)
    case Err(e) => Err(e)
    case Ok(disturbanceType) =>
      match ResolveYear(d.year, data.path, t)
      case Err(e) => Err(e)
      case Ok(year) =>
        var proportion := ConfiguredOrDefault(t, "proportion", d.proportion);
        var attributes := IdentityAttributes(t, TilerCandidates(year, disturbanceType, proportion, td, tu, d.metadataAttributes));
        if !spatial then Ok(Prepared(layer, td, tu, spatial, disturbanceType, year, proportion, attributes))
        else if d.transition.None? then Err(MissingTransition)
        else Ok(Prepared(layer, td, tu, spatial, disturbanceType, year, proportion,
                         RenameTo(attributes, d.transition.value.classifiers)))
  }

  /** The tiler attributes of a prepared layer: each candidate the layer has,
      as itself, and, when classifiers are read from the layer, each classifier
      value renamed to its classifier (the last pair winning). */
  lemma PreparedAttributes(d: Disturbance, vocabulary: set<Value>, data: LayerData)
    requires Prepare(d, vocabulary, data).Ok?
    ensures var p := Prepare(d, vocabulary, data).value;
      var c := TilerCandidates(p.year, p.disturbanceType, p.proportion, p.transition, p.transitionUndisturbed, d.metadataAttributes);
      var pairs := if p.spatial then d.transition.value.classifiers else [];
      && (forall a :: a in p.attributes <==>
            (StrV(a) in c && HasAttribute(data.table, a)) || exists k :: 0 <= k < |pairs| && pairs[k].1 == a)
      && (forall a :: a in p.attributes && (forall k :: 0 <= k < |pairs| ==> pairs[k].1 != a) ==> p.attributes[a] == a)
      && (forall k :: 0 <= k < |pairs| && (forall j :: k < j < |pairs| ==> pairs[j].1 != pairs[k].1) ==>
            p.attributes[pairs[k].1] == pairs[k].0)
  {
    var p := Prepare(d, vocabulary, data).value;
    var c := TilerCandidates(p.year, p.disturbanceType, p.proportion, p.transition, p.transitionUndisturbed, d.metadataAttributes);
    var base := IdentityAttributes(data.table, c);
    if p.spatial {
      RenameToValues(base, d.transition.value.classifiers);
    }
  }

  // ---------------------------------------------------------------------------
  // Filters

  /** The layer attribute a configured filter applies to: "year" and
      "disturbance_type" stand for the resolved attributes, and are dropped
      unless those are tiler attributes; any other key is itself; an empty key
      is dropped. */
  function FilterTarget(key: string, year: Value, disturbanceType: Value, attributes: map<string, string>): (r: Option<string>)
    ensures key != "year" && key != "disturbance_type" ==> r == (if key != "" then Some(key) else None)
    ensures key == "year" ==> (r.Some? <==> year.StrV? && year.s in attributes && year.s != "")
    ensures key == "year" && r.Some? ==> r.value == year.s
    ensures key == "disturbance_type" ==>
      (r.Some? <==> disturbanceType.StrV? && disturbanceType.s in attributes && disturbanceType.s != "")
    ensures key == "disturbance_type" && r.Some? ==> r.value == disturbanceType.s
  {
    var target :=
      if key != "year" && key != "disturbance_type" then Some(key)
      else if key == "year" && year.StrV? && year.s in attributes then Some(year.s)
      else if key == "disturbance_type" && disturbanceType.StrV? && disturbanceType.s in attributes then Some(disturbanceType.s)
      else None;
    if target.Some? && target.value != "" then target else None
  }

  /** The filters applied in configuration order: each kept filter is parsed,
      stored under its target and makes the target a tiler attribute; a filter
      that cannot be parsed stops everything. */
  function FiltersSpec(filters: seq<(string, FilterValue)>, year: Value, disturbanceType: Value,
                       attributes: map<string, string>): Result<(map<string, string>, map<string, FilterValue>)>
    decreases |filters|
  {
    if filters == [] then Ok((attributes, map[]))
    else
      match FiltersSpec(filters[..|filters| - 1], year, disturbanceType, attributes)
      case Err(e) => Err(e)
      case Ok((ta, lf)) =>
        var (key, value) := filters[|filters| - 1];
        match FilterTarget(key, year, disturbanceType, ta)
        case None => Ok((ta, lf))
        case Some(target) =>
          match ParseFilterValue(value)
          case Err(e) => Err(e)
          case Ok(parsed) => Ok((ta[target := target], lf[target := parsed]))
  }

  /** Once a filter fails, the failure is the outcome of the whole sequence. */
  lemma {:induction false} FiltersErrorPersists(filters: seq<(string, FilterValue)>, year: Value, disturbanceType: Value,
                                                attributes: map<string, string>, i: nat)
    requires i <= |filters| && FiltersSpec(filters[..i], year, disturbanceType, attributes).Err?
    ensures FiltersSpec(filters, year, disturbanceType, attributes) == FiltersSpec(filters[..i], year, disturbanceType, attributes)
    decreases |filters| - i
  {
    if i < |filters| {
      assert filters[..i + 1][..i] == filters[..i];
      FiltersErrorPersists(filters, year, disturbanceType, attributes, i + 1);
    } else {
      assert filters[..i] == filters;
    }
  }

  /** One more filter over a prefix that succeeded. */
  lemma FiltersNext(filters: seq<(string, FilterValue)>, year: Value, disturbanceType: Value,
                    attributes: map<string, string>, i: nat, ta: map<string, string>, lf: map<string, FilterValue>)
    requires i < |filters| && FiltersSpec(filters[..i], year, disturbanceType, attributes) == Ok((ta, lf))
    ensures FiltersSpec(filters[..i + 1], year, disturbanceType, attributes) ==
      match FilterTarget(filters[i].0, year, disturbanceType, ta)
      case None => Ok((ta, lf))
      case Some(target) =>
        match ParseFilterValue(filters[i].1)
        case Err(e) => Err(e)
        case Ok(parsed) => Ok((ta[target := target], lf[target := parsed]))
  {
    assert filters[..i + 1][..i] == filters[..i];
    assert filters[..i + 1][i] == filters[i];
  }

  method ApplyFilters(filters: seq<(string, FilterValue)>, year: Value, disturbanceType: Value,
                      attributes: map<string, string>)
    returns (r: Result<(map<string, string>, map<string, FilterValue>)>)
    ensures r == FiltersSpec(filters, year, disturbanceType, attributes)
  {
    var ta, lf := attributes, map[];
    var i := 0;
    while i < |filters|
      invariant 0 <= i <= |filters|
      invariant FiltersSpec(filters[..i], year, disturbanceType, attributes) == Ok((ta, lf))
    {
      FiltersNext(filters, year, disturbanceType, attributes, i, ta, lf);
      var (key, value) := filters[i];
      var target := FilterTarget(key, year, disturbanceType, ta);
      if target.Some? {
        var parsed := ParseFilterValue(value);
        if parsed.Err? {
          r := Err(parsed.error);
          FiltersErrorPersists(filters, year, disturbanceType, attributes, i + 1);
          return;
        }
        ta := ta[target.value := target.value];
        lf := lf[target.value := parsed.value];
      }
      i := i + 1;
    }
    assert filters[..i] == filters;
    return Ok((ta, lf));
  }

  /** Every filtered attribute becomes a tiler attribute under its own name,
      no other tiler attribute is added or renamed, and only a range filter that
      cannot be read is an error. */
  lemma {:induction false} FiltersKeepAttributes(filters: seq<(string, FilterValue)>, year: Value,
                                                 disturbanceType: Value, attributes: map<string, string>)
    ensures var r := FiltersSpec(filters, year, disturbanceType, attributes);
      r.Ok? ==>
        && r.value.0.Keys == attributes.Keys + r.value.1.Keys
        && (forall a :: a in r.value.1 ==> r.value.0[a] == a)
        && (forall a :: a in attributes && a !in r.value.1 ==> r.value.0[a] == attributes[a])
    ensures var r := FiltersSpec(filters, year, disturbanceType, attributes);
      r.Err? ==> r.error.UnparseableRange?
    decreases |filters|
  {
    if filters != [] {
      var prefix := filters[..|filters| - 1];
      FiltersKeepAttributes(prefix, year, disturbanceType, attributes);
      var before := FiltersSpec(prefix, year, disturbanceType, attributes);
      if before.Ok? {
        var (ta, lf) := before.value;
        var (key, value) := filters[|filters| - 1];
        var target := FilterTarget(key, year, disturbanceType, ta);
        if target.Some? && ParseFilterValue(value).Ok? {
          var t := target.value;
          var r := FiltersSpec(filters, year, disturbanceType, attributes);
          assert r == Ok((ta[t := t], lf[t := ParseFilterValue(value).value]));
          assert r.value.0.Keys == ta.Keys + {t};
          assert r.value.1.Keys == lf.Keys + {t};
        }
      }
    }
  }

  /** A filter on any attribute other than "year" and "disturbance_type" is
      kept under its own key. */
  lemma {:induction false} FiltersPassThrough(filters: seq<(string, FilterValue)>, year: Value,
                                              disturbanceType: Value, attributes: map<string, string>, k: nat)
    requires k < |filters| && filters[k].0 !in {"year", "disturbance_type", ""}
    requires FiltersSpec(filters, year, disturbanceType, attributes).Ok?
    ensures filters[k].0 in FiltersSpec(filters, year, disturbanceType, attributes).value.1
    decreases |filters|
  {
    var prefix := filters[..|filters| - 1];
    var last := filters[|filters| - 1];
    if k < |filters| - 1 {
      assert prefix[k] == filters[k];
      FiltersPassThrough(prefix, year, disturbanceType, attributes, k);
    }
  }

  // ---------------------------------------------------------------------------
  // The raster year filter

  /** Python's `year in parsed_filter`: list membership, or substring of a text
      filter; any other filter raises a TypeError. */
  function YearIn(year: Value, f: FilterValue): (r: Result<bool>)
    ensures f.Many? ==> r == Ok(year in f.vs)
  {
    match f
    case Many(vs) => Ok(year in vs)
    case One(StrV(s)) => if year.StrV? then Ok(Contains(s, year.s)) else Err(TypeMismatch)
    case One(_) => Err(TypeMismatch)
  }

  function FilterKeys(filters: seq<(string, FilterValue)>): set<string>
  {
    set k | 0 <= k < |filters| :: filters[k].0
  }

  /** The configured "year" filter: the last entry with that key, as in the
      dictionary the configuration is read into. */
  function YearFilter(filters: seq<(string, FilterValue)>): (f: FilterValue)
    requires "year" in FilterKeys(filters)
    ensures exists k :: (0 <= k < |filters| && filters[k] == ("year", f)
                         && forall j :: k < j < |filters| ==> filters[j].0 != "year")
    decreases |filters|
  {
    var n := |filters| - 1;
    if filters[n].0 == "year" then filters[n].1
    else
      assert "year" in FilterKeys(filters[..n]) by {
        var k :| 0 <= k < |filters| && filters[k].0 == "year";
        assert filters[..n][k] == filters[k];
      }
      var f := YearFilter(filters[..n]);
      ghost var k :| (0 <= k < n && filters[..n][k] == ("year", f)
                      && forall j :: k < j < n ==> filters[..n][j].0 != "year");
      assert filters[k] == ("year", f);
      assert forall j :: k < j < |filters| ==> filters[j].0 != "year" by {
        forall j | k < j < |filters| ensures filters[j].0 != "year" {
          if j < n { assert filters[..n][j] == filters[j]; }
        }
      }
      f
  }

  /** A raster is skipped when a year filter is configured, the year is not a
      filtered attribute, and the year is outside the parsed filter. */
  function RasterLayers(d: Disturbance, data: LayerData, p: Prepared,
                        attributes: map<string, string>, layerFilters: map<string, FilterValue>): Result<seq<DisturbanceLayer>>
  {
    var t := data.table;
    var check :=
      if "year" in FilterKeys(d.filters) && !(p.year.StrV? && p.year.s in layerFilters) then
        match ParseFilterValue(YearFilter(d.filters))
        case Err(e) => Err(e)
        case Ok(parsed) => YearIn(p.year, parsed)
      else Ok(true);
    match check
    case Err(e) => Err(e)
    case Ok(keep) =>
      if !keep then Ok([])
      else
        var input := if p.spatial then Split(p.layer, MakeTilerName(d.name, data.path, []), attributes, map[])
                     else Whole(p.layer);
        Ok([DisturbanceLayer(input, AsParam(t, p.year), AsParam(t, p.disturbanceType),
                             p.transition, p.transitionUndisturbed, AsParam(t, p.proportion))])
  }

  // ---------------------------------------------------------------------------
  // Vector splitting

  /** The split attributes: the resolved year and then the resolved type, each
      when it is requested in split_on and names a layer attribute. */
  function SplitAttributes(splitOn: seq<string>, year: Value, disturbanceType: Value, t: AttributeTable): (r: seq<string>)
    ensures forall a :: a in r ==> HasAttribute(t, a)
    ensures |r| <= 2
  {
    (if "year" in splitOn && InTable(t, year) then [year.s] else [])
    + (if "disturbance_type" in splitOn && InTable(t, disturbanceType) then [disturbanceType.s] else [])
  }

  /** type(sample)(v): a filter value converted to the type of the attribute's
      first value; int() of a NaN raises ValueError, and a NaN (float) sample is
      refused, since floats are not modelled. */
  function ConvertLike(sample: Value, v: Value): Result<Value>
  {
    match sample
    case IntV(_) =>
      (match ValueAsInt(v)
       case Some(i) => Ok(IntV(i))
       case None =>
         if v.StrV? then Err(NotAnInteger(v.s))
         else if v.NaN? then Err(NotAnInteger("nan"))
         else Err(TypeMismatch))
    case StrV(_) => Ok(StrV(ValueText(v)))
    case NoneV => Err(TypeMismatch)
    case NaN => Err(TypeMismatch)
  }

  /** The filter values converted in order; the first failure is raised. */
  function ConvertAll(sample: Value, vs: seq<Value>): (r: Result<seq<Value>>)
    ensures r.Ok? ==> |r.value| == |vs| && forall k :: 0 <= k < |vs| ==> ConvertLike(sample, vs[k]) == Ok(r.value[k])
    ensures r.Err? <==> exists k :: 0 <= k < |vs| && ConvertLike(sample, vs[k]).Err?
  {
    if vs == [] then Ok([])
    else
      match ConvertLike(sample, vs[0])
      case Err(e) => Err(e)
      case Ok(c) =>
        match ConvertAll(sample, vs[1..])
        case Err(e) => Err(e)
        case Ok(cs) => Ok([c] + cs)
  }

  /** list(set(values).intersection(type(values[0])(v) for v in wanted)): the
      attribute values that equal a converted filter value, each once (kept in
      table order; Python's set order is unspecified). */
  function Intersect(values: seq<Value>, wanted: seq<Value>): (r: Result<seq<Value>>)
    ensures r.Ok? ==> NoDuplicates(r.value)
    ensures r.Ok? ==> forall v :: v in r.value <==>
      v in values && values != [] && exists k :: 0 <= k < |wanted| && ConvertLike(values[0], wanted[k]) == Ok(v)
    ensures r.Err? <==> wanted != [] && (values == [] || exists k :: 0 <= k < |wanted| && ConvertLike(values[0], wanted[k]).Err?)
  {
    if wanted == [] then Ok([])
    else if values == [] then Err(IndexOutOfRange)
    else
      match ConvertAll(values[0], wanted)
      case Err(e) => Err(e)
      case Ok(converted) =>
        var r := Dedup(Filter(values, (v: Value) => v in converted));
        assert forall v :: v in values && v in converted ==> v in Filter(values, (v: Value) => v in converted) by {
          forall v | v in values && v in converted ensures v in Filter(values, (v: Value) => v in converted) {
            FilterKeeps(values, (v: Value) => v in converted, v);
          }
        }
        Ok(r)
  }

  /** The values a split attribute is split on: its values, restricted by a
      list filter on it to the values that equal a converted filter value; a
      single-value filter on a split attribute is not applied. */
  function SplitValuesForAsWritten(t: AttributeTable, attribute: string, layerFilters: map<string, FilterValue>): (r: Result<seq<Value>>)
    requires HasAttribute(t, attribute)
    ensures !(attribute in layerFilters && layerFilters[attribute].Many?) ==> r == Ok(ColumnValues(t, attribute))
    ensures var values := ColumnValues(t, attribute);
      attribute in layerFilters && layerFilters[attribute].Many? ==>
        var wanted := layerFilters[attribute].vs;
        && (r.Ok? ==> NoDuplicates(r.value) && forall v :: v in r.value <==>
              v in values && values != [] && exists k :: 0 <= k < |wanted| && ConvertLike(values[0], wanted[k]) == Ok(v))
        && (r.Err? <==> wanted != [] && (values == [] || exists k :: 0 <= k < |wanted| && ConvertLike(values[0], wanted[k]).Err?))
  {
    var values := ColumnValues(t, attribute);
    if attribute in layerFilters && layerFilters[attribute].Many? then Intersect(values, layerFilters[attribute].vs)
    else Ok(values)
  }

  /** The corrected rule: a single value filters a split attribute as the
      one-element list of it would. */
  function SplitValuesFor(t: AttributeTable, attribute: string, layerFilters: map<string, FilterValue>): (r: Result<seq<Value>>)
    requires HasAttribute(t, attribute)
    ensures attribute !in layerFilters ==> r == Ok(ColumnValues(t, attribute))
    ensures var values := ColumnValues(t, attribute);
      attribute in layerFilters ==>
        var wanted := match layerFilters[attribute] case Many(vs) => vs case One(v) => [v];
        && (r.Ok? ==> NoDuplicates(r.value) && forall v :: v in r.value <==>
              v in values && values != [] && exists k :: 0 <= k < |wanted| && ConvertLike(values[0], wanted[k]) == Ok(v))
        && (r.Err? <==> wanted != [] && (values == [] || exists k :: 0 <= k < |wanted| && ConvertLike(values[0], wanted[k]).Err?))
  {
    var values := ColumnValues(t, attribute);
    if attribute in layerFilters then
      match layerFilters[attribute]
      case Many(vs) => Intersect(values, vs)
      case One(v) => Intersect(values, [v])
    else Ok(values)
  }

  /** The two rules differ only on a single-value filter on the attribute. */
  lemma SplitRulesAgree(t: AttributeTable, attribute: string, layerFilters: map<string, FilterValue>)
    requires HasAttribute(t, attribute)
    requires !(attribute in layerFilters && layerFilters[attribute].One?)
    ensures SplitValuesForAsWritten(t, attribute, layerFilters) == SplitValuesFor(t, attribute, layerFilters)
  {
  }

  /** As written, a single-value filter on a split attribute is dropped: with
      the year attribute holding 2004 and 2005 and a filter year = 2005, the
      layer is still split on both years, where the corrected rule keeps 2005
      alone. */
  lemma ScalarSplitFilterDropped()
    ensures var t := [Column("year", [IntV(2004), IntV(2005)])];
      var filters := map["year" := One(IntV(2005))];
      && t[0].name == "year" && HasAttribute(t, "year")
      && SplitValuesForAsWritten(t, "year", filters) == Ok([IntV(2004), IntV(2005)])
      && SplitValuesSpec(["year"], t, filters) == Ok([("year", [IntV(2004), IntV(2005)])])
      && CombinationCount(Seconds([("year", [IntV(2004), IntV(2005)])])) == 2
      && SplitValuesFor(t, "year", filters) == Ok([IntV(2005)])
  {
    var t := [Column("year", [IntV(2004), IntV(2005)])];
    var filters := map["year" := One(IntV(2005))];
    AsWrittenSplitExample(t, filters);
    CorrectedSplitExample(t, filters);
  }

  lemma AsWrittenSplitExample(t: AttributeTable, filters: map<string, FilterValue>)
    requires t == [Column("year", [IntV(2004), IntV(2005)])] && filters == map["year" := One(IntV(2005))]
    ensures HasAttribute(t, "year")
    ensures SplitValuesForAsWritten(t, "year", filters) == Ok([IntV(2004), IntV(2005)])
    ensures SplitValuesSpec(["year"], t, filters) == Ok([("year", [IntV(2004), IntV(2005)])])
    ensures CombinationCount(Seconds([("year", [IntV(2004), IntV(2005)])])) == 2
  {
    assert t[0].name == "year";
    assert ColumnValues(t, "year") == [IntV(2004), IntV(2005)];
    var sv := [("year", [IntV(2004), IntV(2005)])];
    assert ["year"][..0] == [];
    assert Put([], "year", [IntV(2004), IntV(2005)]) == sv;
    assert Seconds(sv) == [[IntV(2004), IntV(2005)]];
    assert Seconds(sv)[1..] == [];
  }

  lemma CorrectedSplitExample(t: AttributeTable, filters: map<string, FilterValue>)
    requires t == [Column("year", [IntV(2004), IntV(2005)])] && filters == map["year" := One(IntV(2005))]
    ensures HasAttribute(t, "year") && SplitValuesFor(t, "year", filters) == Ok([IntV(2005)])
  {
    assert t[0].name == "year";
    assert ColumnValues(t, "year") == [IntV(2004), IntV(2005)];
    assert ConvertLike(IntV(2004), IntV(2005)) == Ok(IntV(2005));
    assert [IntV(2005)][1..] == [];
    assert ConvertAll(IntV(2004), []) == Ok([]);
    assert [IntV(2005)] + [] == [IntV(2005)];
    assert ConvertAll(IntV(2004), [IntV(2005)]) == Ok([IntV(2005)]);
    var kept := Filter([IntV(2004), IntV(2005)], (v: Value) => v in [IntV(2005)]);
    assert kept == [IntV(2005)];
    assert Dedup(kept) == [IntV(2005)];
  }

  /** Corrected, every value split on satisfies a single-value filter. */
  lemma ScalarSplitFilterApplied(t: AttributeTable, attribute: string, layerFilters: map<string, FilterValue>)
    requires HasAttribute(t, attribute) && attribute in layerFilters && layerFilters[attribute].One?
    requires SplitValuesFor(t, attribute, layerFilters).Ok?
    ensures var values := ColumnValues(t, attribute);
      forall v :: v in SplitValuesFor(t, attribute, layerFilters).value ==>
        values != [] && ConvertLike(values[0], layerFilters[attribute].v) == Ok(v)
  {
  }

  /** split_values: attribute -> values, an insertion-ordered dictionary. */
  type SplitValues = seq<(string, seq<Value>)>

  /** d[key] = value on an insertion-ordered dictionary: an existing key keeps
      its place, a new key goes last. */
  function Put(sv: SplitValues, key: string, values: seq<Value>): (r: SplitValues)
    ensures NoDuplicates(Firsts(sv)) ==> NoDuplicates(Firsts(r))
    ensures key in Firsts(r) && forall x :: x in Firsts(r) <==> x == key || x in Firsts(sv)
    ensures NoDuplicates(Firsts(sv)) ==> forall k :: 0 <= k < |r| && r[k].0 == key ==> r[k].1 == values
    ensures forall k :: 0 <= k < |r| && r[k].0 != key ==> k < |sv| && r[k] == sv[k]
  {
    match FirstIndex(sv, (e: (string, seq<Value>)) => e.0 == key)
    case Some(k) =>
      var r := sv[k := (key, values)];
      assert Firsts(r) == Firsts(sv);
      r
    case None =>
      var r := sv + [(key, values)];
      assert Firsts(r) == Firsts(sv) + [key];
      r
  }

  /** split_values built in split-attribute order; the first failing attribute
      stops everything. */
  function SplitValuesSpec(attributes: seq<string>, t: AttributeTable, layerFilters: map<string, FilterValue>): Result<SplitValues>
    requires forall a :: a in attributes ==> HasAttribute(t, a)
    decreases |attributes|
  {
    if attributes == [] then Ok([])
    else
      match SplitValuesSpec(attributes[..|attributes| - 1], t, layerFilters)
      case Err(e) => Err(e)
      case Ok(sv) =>
        var a := attributes[|attributes| - 1];
        match SplitValuesForAsWritten(t, a, layerFilters)
        case Err(e) => Err(e)
        case Ok(values) => Ok(Put(sv, a, values))
  }

  lemma {:induction false} SplitValuesErrorPersists(attributes: seq<string>, t: AttributeTable,
                                                    layerFilters: map<string, FilterValue>, i: nat)
    requires forall a :: a in attributes ==> HasAttribute(t, a)
    requires i <= |attributes| && SplitValuesSpec(attributes[..i], t, layerFilters).Err?
    ensures SplitValuesSpec(attributes, t, layerFilters) == SplitValuesSpec(attributes[..i], t, layerFilters)
    decreases |attributes| - i
  {
    if i < |attributes| {
      assert attributes[..i + 1][..i] == attributes[..i];
      SplitValuesErrorPersists(attributes, t, layerFilters, i + 1);
    } else {
      assert attributes[..i] == attributes;
    }
  }

  method CollectSplitValues(attributes: seq<string>, t: AttributeTable, layerFilters: map<string, FilterValue>)
    returns (r: Result<SplitValues>)
    requires forall a :: a in attributes ==> HasAttribute(t, a)
    ensures r == SplitValuesSpec(attributes, t, layerFilters)
  {
    var sv: SplitValues := [];
    for i := 0 to |attributes|
      invariant SplitValuesSpec(attributes[..i], t, layerFilters) == Ok(sv)
    {
      assert attributes[..i + 1][..i] == attributes[..i];
      var values := SplitValuesForAsWritten(t, attributes[i], layerFilters);
      if values.Err? {
        r := Err(values.error);
        SplitValuesErrorPersists(attributes, t, layerFilters, i + 1);
        return;
      }
      sv := Put(sv, attributes[i], values.value);
    }
    assert attributes[..|attributes|] == attributes;
    r := Ok(sv);
  }

  /** Each split attribute appears once, the keys are exactly the split
      attributes, and each key holds the values computed for it. */
  lemma {:induction false} SplitValuesFacts(attributes: seq<string>, t: AttributeTable, layerFilters: map<string, FilterValue>)
    requires forall a :: a in attributes ==> HasAttribute(t, a)
    requires SplitValuesSpec(attributes, t, layerFilters).Ok?
    ensures var sv := SplitValuesSpec(attributes, t, layerFilters).value;
      && NoDuplicates(Firsts(sv))
      && (forall x :: x in Firsts(sv) <==> x in attributes)
      && forall k :: 0 <= k < |sv| ==> SplitValuesForAsWritten(t, sv[k].0, layerFilters) == Ok(sv[k].1)
    decreases |attributes|
  {
    if attributes != [] {
      var prefix := attributes[..|attributes| - 1];
      SplitValuesFacts(prefix, t, layerFilters);
      assert forall x :: x in attributes <==> x in prefix || x == attributes[|attributes| - 1];
    }
  }

  /** itertools.product: every combination taking one value from each list, the
      first list varying slowest. */
  function Product(lists: seq<seq<Value>>): seq<seq<Value>>
    decreases |lists|
  {
    if lists == [] then [[]] else ProductWith(lists[0], Product(lists[1..]))
  }

  function ProductWith(xs: seq<Value>, tails: seq<seq<Value>>): seq<seq<Value>>
  {
    if xs == [] then [] else Prepend(xs[0], tails) + ProductWith(xs[1..], tails)
  }

  function Prepend(x: Value, tails: seq<seq<Value>>): (r: seq<seq<Value>>)
    ensures |r| == |tails| && forall j :: 0 <= j < |tails| ==> r[j] == [x] + tails[j]
  {
    seq(|tails|, j requires 0 <= j < |tails| => [x] + tails[j])
  }

  /** The number of combinations: the product of the list lengths. */
  function CombinationCount(lists: seq<seq<Value>>): nat
  {
    if lists == [] then 1 else |lists[0]| * CombinationCount(lists[1..])
  }

  predicate IsCombination(c: seq<Value>, lists: seq<seq<Value>>)
  {
    |c| == |lists| && forall j :: 0 <= j < |lists| ==> c[j] in lists[j]
  }

  lemma PrependMembers(x: Value, tails: seq<seq<Value>>)
    ensures forall c :: c in Prepend(x, tails) <==> |c| >= 1 && c[0] == x && c[1..] in tails
  {
    var p := Prepend(x, tails);
    forall c | |c| >= 1 && c[0] == x && c[1..] in tails ensures c in p {
      var j :| 0 <= j < |tails| && tails[j] == c[1..];
      assert p[j] == c;
    }
  }

  lemma {:induction false} ProductWithLength(xs: seq<Value>, tails: seq<seq<Value>>)
    ensures |ProductWith(xs, tails)| == |xs| * |tails|
  {
    if xs != [] {
      ProductWithLength(xs[1..], tails);
      assert |xs| * |tails| == |tails| + (|xs| - 1) * |tails|;
    }
  }

  lemma {:induction false} ProductWithMembers(xs: seq<Value>, tails: seq<seq<Value>>)
    ensures forall c :: c in ProductWith(xs, tails) <==> |c| >= 1 && c[0] in xs && c[1..] in tails
  {
    if xs != [] {
      ProductWithMembers(xs[1..], tails);
      PrependMembers(xs[0], tails);
      assert forall y :: y in xs <==> y == xs[0] || y in xs[1..];
    }
  }

  /** The product holds exactly the combinations, as many as the product of the
      list lengths. */
  lemma {:induction false} ProductFacts(lists: seq<seq<Value>>)
    ensures |Product(lists)| == CombinationCount(lists)
    ensures forall c :: c in Product(lists) <==> IsCombination(c, lists)
    decreases |lists|
  {
    if lists != [] {
      ProductFacts(lists[1..]);
      ProductWithLength(lists[0], Product(lists[1..]));
      ProductWithMembers(lists[0], Product(lists[1..]));
      forall c ensures IsCombination(c, lists) <==> |c| >= 1 && c[0] in lists[0] && IsCombination(c[1..], lists[1..]) {
        if |c| >= 1 && c[0] in lists[0] && IsCombination(c[1..], lists[1..]) {
          forall j | 0 <= j < |lists| ensures c[j] in lists[j] {
            if j > 0 { assert c[j] == c[1..][j - 1]; }
          }
        }
        if IsCombination(c, lists) && |c| >= 1 {
          forall j | 0 <= j < |lists| - 1 ensures c[1..][j] in lists[1..][j] {
            assert c[1..][j] == c[j + 1];
          }
        }
      }
    }
  }

  /** dict(zip(keys, values)), pairing up to the shorter of the two. */
  function ZipFilters(keys: seq<string>, values: seq<Value>): (m: map<string, FilterValue>)
    ensures forall x :: x in m <==> exists j :: 0 <= j < |keys| && j < |values| && keys[j] == x
  {
    if keys == [] || values == [] then map[]
    else
      var rest := ZipFilters(keys[1..], values[1..]);
      assert forall j :: 1 <= j < |keys| && j < |values| ==> keys[1..][j - 1] == keys[j];
      map[keys[0] := One(values[0])] + rest
  }

  lemma {:induction false} ZipFiltersAt(keys: seq<string>, values: seq<Value>, j: nat)
    requires NoDuplicates(keys) && j < |keys| && j < |values|
    ensures ZipFilters(keys, values)[keys[j]] == One(values[j])
  {
    if j > 0 {
      assert keys[1..][j - 1] == keys[j];
      assert NoDuplicates(keys[1..]) by {
        forall a, b | 0 <= a < b < |keys[1..]| ensures keys[1..][a] != keys[1..][b] {
          assert keys[1..][a] == keys[a + 1] && keys[1..][b] == keys[b + 1];
        }
      }
      ZipFiltersAt(keys[1..], values[1..], j - 1);
    }
  }

  /** The configured filters on attributes that are not split attributes. */
  function NonSplitting(layerFilters: map<string, FilterValue>, keys: seq<string>): (m: map<string, FilterValue>)
    ensures forall x :: x in m <==> x in layerFilters && x !in keys
    ensures forall x :: x in m ==> m[x] == layerFilters[x]
  {
    map x | x in layerFilters && x !in keys :: layerFilters[x]
  }

  /** Attribute(v) when v is a tiler attribute, v itself otherwise. */
  function AttributeParam(attributes: map<string, string>, v: Value): (p: Param)
    ensures p.Attr? <==> v.StrV? && v.s in attributes
  {
    if v.StrV? && v.s in attributes then Attr(v.s) else Literal(v)
  }

  function VectorLayer(p: Prepared, attributes: map<string, string>, input: TilerInput): DisturbanceLayer
  {
    DisturbanceLayer(input, AttributeParam(attributes, p.year), AttributeParam(attributes, p.disturbanceType),
                     p.transition, p.transitionUndisturbed, AttributeParam(attributes, p.proportion))
  }

  /** The i-th split of a vector layer: named with the suffix i, filtered to one
      value of each split attribute plus the non-splitting filters. */
  function SplitLayer(d: Disturbance, data: LayerData, p: Prepared, attributes: map<string, string>,
                      keys: seq<string>, nonSplitting: map<string, FilterValue>, i: nat, combination: seq<Value>): DisturbanceLayer
  {
    var name := MakeTilerName(d.name, data.path, [data.sublayer, Some(IntToString(i))]);
    VectorLayer(p, attributes, Split(p.layer, name, attributes, ZipFilters(keys, combination) + nonSplitting))
  }

  function SplitLayers(d: Disturbance, data: LayerData, p: Prepared, attributes: map<string, string>,
                       keys: seq<string>, nonSplitting: map<string, FilterValue>, combinations: seq<seq<Value>>): (r: seq<DisturbanceLayer>)
    ensures |r| == |combinations|
  {
    seq(|combinations|, i requires 0 <= i < |combinations| =>
      SplitLayer(d, data, p, attributes, keys, nonSplitting, i, combinations[i]))
  }

  method EmitSplitLayers(d: Disturbance, data: LayerData, p: Prepared, attributes: map<string, string>,
                         keys: seq<string>, nonSplitting: map<string, FilterValue>, combinations: seq<seq<Value>>)
    returns (layers: seq<DisturbanceLayer>)
    ensures layers == SplitLayers(d, data, p, attributes, keys, nonSplitting, combinations)
  {
    layers := [];
    for i := 0 to |combinations|
      invariant |layers| == i
      invariant forall k :: 0 <= k < i ==>
        layers[k] == SplitLayer(d, data, p, attributes, keys, nonSplitting, k, combinations[k])
    {
      layers := layers + [SplitLayer(d, data, p, attributes, keys, nonSplitting, i, combinations[i])];
    }
  }

  /** A vector layer is one descriptor when nothing is split, and otherwise one
      descriptor per combination of split-attribute values. */
  function VectorLayers(d: Disturbance, data: LayerData, p: Prepared,
                        attributes: map<string, string>, layerFilters: map<string, FilterValue>): Result<seq<DisturbanceLayer>>
  {
    var splitAttributes := SplitAttributes(d.splitOn, p.year, p.disturbanceType, data.table);
    if splitAttributes == [] then
      Ok([VectorLayer(p, attributes, Split(p.layer, p.layer.name, attributes, layerFilters))])
    else
      match SplitValuesSpec(splitAttributes, data.table, layerFilters)
      case Err(e) => Err(e)
      case Ok(sv) =>
        var keys := Firsts(sv);
        Ok(SplitLayers(d, data, p, attributes, keys, NonSplitting(layerFilters, keys), Product(Seconds(sv))))
  }

  // ---------------------------------------------------------------------------
  // One layer, and all the layers of the pattern

  function LayerSpec(d: Disturbance, vocabulary: set<Value>, data: LayerData): Result<seq<DisturbanceLayer>>
  {
    match Prepare(d, vocabulary, data)
    case Err(e) => Err(e)
    case Ok(p) =>
      match FiltersSpec(d.filters, p.year, p.disturbanceType, p.attributes)
      case Err(e) => Err(e)
      case Ok((attributes, layerFilters)) =>
        if data.isRaster then RasterLayers(d, data, p, attributes, layerFilters)
        else VectorLayers(d, data, p, attributes, layerFilters)
  }

  method LayerToTiler(d: Disturbance, vocabulary: set<Value>, data: LayerData) returns (r: Result<seq<DisturbanceLayer>>)
    ensures r == LayerSpec(d, vocabulary, data)
  {
    var prepared := Prepare(d, vocabulary, data);
    if prepared.Err? {
      return Err(prepared.error);
    }
    var p := prepared.value;
    var filtered := ApplyFilters(d.filters, p.year, p.disturbanceType, p.attributes);
    if filtered.Err? {
      return Err(filtered.error);
    }
    var (attributes, layerFilters) := filtered.value;
    if data.isRaster {
      return RasterLayers(d, data, p, attributes, layerFilters);
    }
    var splitAttributes := SplitAttributes(d.splitOn, p.year, p.disturbanceType, data.table);
    if splitAttributes == [] {
      return Ok([VectorLayer(p, attributes, Split(p.layer, p.layer.name, attributes, layerFilters))]);
    }
    var sv := CollectSplitValues(splitAttributes, data.table, layerFilters);
    if sv.Err? {
      return Err(sv.error);
    }
    var keys := Firsts(sv.value);
    var layers := EmitSplitLayers(d, data, p, attributes, keys, NonSplitting(layerFilters, keys), Product(Seconds(sv.value)));
    return Ok(layers);
  }

  // ---------------------------------------------------------------------------
  // Properties of the descriptors of one layer

  /** A vector layer with nothing to split on gives exactly one descriptor,
      named after the layer and carrying all the filters. */
  lemma VectorWithoutSplitIsOneLayer(d: Disturbance, data: LayerData, p: Prepared,
                                     attributes: map<string, string>, layerFilters: map<string, FilterValue>)
    requires SplitAttributes(d.splitOn, p.year, p.disturbanceType, data.table) == []
    ensures var r := VectorLayers(d, data, p, attributes, layerFilters);
      r.Ok? && |r.value| == 1 && r.value[0].input == Split(p.layer, p.layer.name, attributes, layerFilters)
  {
  }

  /** A split descriptor's filter on attribute `key`, if it has one. */
  function SplitFilterOn(layer: DisturbanceLayer, key: string): Option<FilterValue>
  {
    if layer.input.Split? && key in layer.input.filters then Some(layer.input.filters[key]) else None
  }

  /** Each split descriptor filters the split attribute keys[j] to the j-th
      value of its combination, and keeps the non-splitting filters. */
  lemma SplitLayerFilters(d: Disturbance, data: LayerData, p: Prepared, attributes: map<string, string>,
                          keys: seq<string>, nonSplitting: map<string, FilterValue>, combinations: seq<seq<Value>>, i: nat)
    requires NoDuplicates(keys) && forall x :: x in nonSplitting ==> x !in keys
    requires i < |combinations| && |combinations[i]| == |keys|
    ensures var layer := SplitLayers(d, data, p, attributes, keys, nonSplitting, combinations)[i];
      && layer.input.Split? && layer.input.attributes == attributes
      && layer.input.name == MakeTilerName(d.name, data.path, [data.sublayer, Some(IntToString(i))])
      && (forall j :: 0 <= j < |keys| ==> SplitFilterOn(layer, keys[j]) == Some(One(combinations[i][j])))
      && (forall x :: x in nonSplitting ==> SplitFilterOn(layer, x) == Some(nonSplitting[x]))
  {
    forall j | 0 <= j < |keys| {
      ZipFiltersAt(keys, combinations[i], j);
    }
  }

  /** The split descriptors are SplitLayers over the product of the values
      split on, with the keys of split_values and the remaining filters. */
  lemma VectorSplitShape(d: Disturbance, data: LayerData, p: Prepared,
                         attributes: map<string, string>, layerFilters: map<string, FilterValue>, sv: SplitValues)
    requires SplitAttributes(d.splitOn, p.year, p.disturbanceType, data.table) != []
    requires SplitValuesSpec(SplitAttributes(d.splitOn, p.year, p.disturbanceType, data.table), data.table, layerFilters) == Ok(sv)
    ensures VectorLayers(d, data, p, attributes, layerFilters)
      == Ok(SplitLayers(d, data, p, attributes, Firsts(sv), NonSplitting(layerFilters, Firsts(sv)), Product(Seconds(sv))))
  {
  }

  /** There is one split descriptor per combination of the values split on,
      and the attributes split on are exactly the split attributes. */
  lemma VectorSplitCount(d: Disturbance, data: LayerData, p: Prepared,
                         attributes: map<string, string>, layerFilters: map<string, FilterValue>,
                         sv: SplitValues, r: seq<DisturbanceLayer>)
    requires SplitAttributes(d.splitOn, p.year, p.disturbanceType, data.table) != []
    requires SplitValuesSpec(SplitAttributes(d.splitOn, p.year, p.disturbanceType, data.table), data.table, layerFilters) == Ok(sv)
    requires VectorLayers(d, data, p, attributes, layerFilters) == Ok(r)
    ensures |r| == CombinationCount(Seconds(sv))
    ensures NoDuplicates(Firsts(sv))
    ensures forall x :: x in Firsts(sv) <==> x in SplitAttributes(d.splitOn, p.year, p.disturbanceType, data.table)
  {
    VectorSplitShape(d, data, p, attributes, layerFilters, sv);
    SplitValuesFacts(SplitAttributes(d.splitOn, p.year, p.disturbanceType, data.table), data.table, layerFilters);
    ProductFacts(Seconds(sv));
  }

  /** Each split descriptor renames the same attributes, filters every split
      attribute to one of the values split on, and keeps every non-splitting
      filter. */
  lemma VectorSplitFilters(d: Disturbance, data: LayerData, p: Prepared,
                           attributes: map<string, string>, layerFilters: map<string, FilterValue>,
                           sv: SplitValues, r: seq<DisturbanceLayer>, i: nat)
    requires SplitAttributes(d.splitOn, p.year, p.disturbanceType, data.table) != []
    requires SplitValuesSpec(SplitAttributes(d.splitOn, p.year, p.disturbanceType, data.table), data.table, layerFilters) == Ok(sv)
    requires VectorLayers(d, data, p, attributes, layerFilters) == Ok(r)
    requires i < |r|
    ensures r[i].input.Split? && r[i].input.attributes == attributes
    ensures forall j :: 0 <= j < |sv| ==>
      SplitFilterOn(r[i], sv[j].0).Some? && SplitFilterOn(r[i], sv[j].0).value.One?
      && SplitFilterOn(r[i], sv[j].0).value.v in sv[j].1
    ensures forall x :: x in layerFilters && x !in Firsts(sv) ==> SplitFilterOn(r[i], x) == Some(layerFilters[x])
  {
    var keys := Firsts(sv);
    var lists := Seconds(sv);
    var combinations := Product(lists);
    var nonSplitting := NonSplitting(layerFilters, keys);
    VectorSplitShape(d, data, p, attributes, layerFilters, sv);
    assert r == SplitLayers(d, data, p, attributes, keys, nonSplitting, combinations);
    SplitKeysDistinct(d, data, p, layerFilters, sv);
    ProductFacts(lists);
    var c := combinations[i];
    assert c in combinations;
    assert IsCombination(c, lists);
    SplitLayerFilters(d, data, p, attributes, keys, nonSplitting, combinations, i);
    forall j | 0 <= j < |sv|
      ensures SplitFilterOn(r[i], sv[j].0) == Some(One(c[j])) && c[j] in sv[j].1
    {
      assert keys[j] == sv[j].0;
      assert c[j] in lists[j];
    }
  }

  /** The keys of split_values are distinct. */
  lemma SplitKeysDistinct(d: Disturbance, data: LayerData, p: Prepared,
                          layerFilters: map<string, FilterValue>, sv: SplitValues)
    requires SplitValuesSpec(SplitAttributes(d.splitOn, p.year, p.disturbanceType, data.table), data.table, layerFilters) == Ok(sv)
    ensures NoDuplicates(Firsts(sv))
  {
    SplitValuesFacts(SplitAttributes(d.splitOn, p.year, p.disturbanceType, data.table), data.table, layerFilters);
  }

  /** Every combination of the values split on has its split descriptor. */
  lemma VectorSplitComplete(d: Disturbance, data: LayerData, p: Prepared,
                            attributes: map<string, string>, layerFilters: map<string, FilterValue>,
                            sv: SplitValues, r: seq<DisturbanceLayer>, c: seq<Value>)
    requires SplitAttributes(d.splitOn, p.year, p.disturbanceType, data.table) != []
    requires SplitValuesSpec(SplitAttributes(d.splitOn, p.year, p.disturbanceType, data.table), data.table, layerFilters) == Ok(sv)
    requires VectorLayers(d, data, p, attributes, layerFilters) == Ok(r)
    requires IsCombination(c, Seconds(sv))
    ensures exists i :: 0 <= i < |r| && forall j :: 0 <= j < |sv| ==> SplitFilterOn(r[i], sv[j].0) == Some(One(c[j]))
  {
    var keys := Firsts(sv);
    var combinations := Product(Seconds(sv));
    VectorSplitShape(d, data, p, attributes, layerFilters, sv);
    SplitValuesFacts(SplitAttributes(d.splitOn, p.year, p.disturbanceType, data.table), data.table, layerFilters);
    ProductFacts(Seconds(sv));
    var i :| 0 <= i < |combinations| && combinations[i] == c;
    SplitLayerFilters(d, data, p, attributes, keys, NonSplitting(layerFilters, keys), combinations, i);
  }

  /** The split descriptors of one layer have pairwise distinct names. */
  lemma VectorSplitNamesDistinct(d: Disturbance, data: LayerData, p: Prepared,
                                 attributes: map<string, string>, layerFilters: map<string, FilterValue>,
                                 sv: SplitValues, r: seq<DisturbanceLayer>)
    requires SplitAttributes(d.splitOn, p.year, p.disturbanceType, data.table) != []
    requires SplitValuesSpec(SplitAttributes(d.splitOn, p.year, p.disturbanceType, data.table), data.table, layerFilters) == Ok(sv)
    requires VectorLayers(d, data, p, attributes, layerFilters) == Ok(r)
    ensures forall i, k :: 0 <= i < k < |r| ==> r[i].input.name != r[k].input.name
  {
    VectorSplitShape(d, data, p, attributes, layerFilters, sv);
    forall i, k | 0 <= i < k < |r| ensures r[i].input.name != r[k].input.name {
      SplitNamesDistinct(d.name, data.path, data.sublayer, i, k);
    }
  }

  /** Once the layer is prepared and its filters applied, a raster and a vector
      layer go their separate ways. */
  lemma LayerSpecBranches(d: Disturbance, vocabulary: set<Value>, data: LayerData, p: Prepared,
                          attributes: map<string, string>, layerFilters: map<string, FilterValue>)
    requires Prepare(d, vocabulary, data) == Ok(p)
    requires FiltersSpec(d.filters, p.year, p.disturbanceType, p.attributes) == Ok((attributes, layerFilters))
    ensures LayerSpec(d, vocabulary, data) ==
      if data.isRaster then RasterLayers(d, data, p, attributes, layerFilters)
      else VectorLayers(d, data, p, attributes, layerFilters)
  {
  }

  /** A raster whose year is a literal, under a year filter written as a range,
      is dropped exactly when the year is outside the range; otherwise it gives
      one descriptor. */
  lemma RasterYearRangeFilter(d: Disturbance, data: LayerData, p: Prepared,
                              attributes: map<string, string>, layerFilters: map<string, FilterValue>, lo: int, hi: int)
    requires p.year.IntV?
    requires "year" in FilterKeys(d.filters) && YearFilter(d.filters) == One(StrV(RangeText(lo, hi)))
    ensures RasterLayers(d, data, p, attributes, layerFilters).Ok?
    ensures RasterLayers(d, data, p, attributes, layerFilters).value == [] <==> !(lo <= p.year.i <= hi)
    ensures lo <= p.year.i <= hi ==> |RasterLayers(d, data, p, attributes, layerFilters).value| == 1
  {
    RangeFilterRoundTrip(lo, hi);
    assert p.year in InclusiveRange(lo, hi) <==> lo <= p.year.i <= hi;
  }

  /** Without a year filter a raster always gives one descriptor: the layer
      itself, or its split when classifiers are read from the layer. */
  lemma RasterWithoutYearFilter(d: Disturbance, vocabulary: set<Value>, data: LayerData)
    requires data.isRaster && "year" !in FilterKeys(d.filters)
    requires LayerSpec(d, vocabulary, data).Ok?
    ensures var p := Prepare(d, vocabulary, data).value;
      var r := LayerSpec(d, vocabulary, data).value;
      |r| == 1 && (r[0].input.Whole? <==> !p.spatial)
  {
  }

  // ---------------------------------------------------------------------------
  // to_tiler_layer: every file matching the pattern, every configured sublayer

  /** A file matched by the pattern, with the names of its geodatabase layers
      that match a configured layer pattern. */
  datatype FoundFile = FoundFile(path: string, matchingSublayers: seq<string>)

  predicate LayersConfigured(layers: LayersConfig)
  {
    (layers.LayerList? && layers.names != []) || (layers.LayerPattern? && layers.pattern != "")
  }

  function AsSublayers(names: seq<string>): (r: seq<Option<string>>)
    ensures |r| == |names| && forall k :: 0 <= k < |names| ==> r[k] == Some(names[k])
  {
    seq(|names|, k requires 0 <= k < |names| => Some(names[k]))
  }

  /** The sublayers read from a file: the configured (or matching) layers of a
      geodatabase, else the one layer named in the configuration, if any. */
  function SublayersOf(d: Disturbance, f: FoundFile): (r: seq<Option<string>>)
    ensures !(PathSuffix(f.path) == ".gdb" && LayersConfigured(d.layers)) ==> r == [d.configuredLayer]
  {
    if PathSuffix(f.path) == ".gdb" && LayersConfigured(d.layers) then
      match d.layers
      case LayerList(names) => AsSublayers(names)
      case LayerPattern(_) => AsSublayers(f.matchingSublayers)
    else [d.configuredLayer]
  }

  /** What is read from one layer of a file: whether it is a raster, and its
      attribute table. */
  type Reader = (string, Option<string>) -> (bool, AttributeTable)

  function DataOf(read: Reader, path: string, sublayer: Option<string>): LayerData
  {
    LayerData(path, sublayer, read(path, sublayer).0, read(path, sublayer).1)
  }

  /** The descriptors of the given sublayers of one file, in order. */
  function FileLayersSpec(d: Disturbance, vocabulary: set<Value>, read: Reader, path: string,
                          sublayers: seq<Option<string>>): Result<seq<DisturbanceLayer>>
    decreases |sublayers|
  {
    if sublayers == [] then Ok([])
    else
      match FileLayersSpec(d, vocabulary, read, path, sublayers[..|sublayers| - 1])
      case Err(e) => Err(e)
      case Ok(acc) =>
        match LayerSpec(d, vocabulary, DataOf(read, path, sublayers[|sublayers| - 1]))
        case Err(e) => Err(e)
        case Ok(more) => Ok(acc + more)
  }

  /** The descriptors of the given files, in order. */
  function FilesLayersSpec(d: Disturbance, vocabulary: set<Value>, read: Reader, found: seq<FoundFile>): Result<seq<DisturbanceLayer>>
    decreases |found|
  {
    if found == [] then Ok([])
    else
      match FilesLayersSpec(d, vocabulary, read, found[..|found| - 1])
      case Err(e) => Err(e)
      case Ok(acc) =>
        var f := found[|found| - 1];
        match FileLayersSpec(d, vocabulary, read, f.path, SublayersOf(d, f))
        case Err(e) => Err(e)
        case Ok(more) => Ok(acc + more)
  }

  /** A missing pattern directory is fatal; otherwise the descriptors of every
      matching file. */
  function ToTilerLayerSpec(d: Disturbance, vocabulary: set<Value>, read: Reader,
                            directoryExists: bool, found: seq<FoundFile>): Result<seq<DisturbanceLayer>>
  {
    if !directoryExists then Err(PatternDirectoryMissing(d.pattern))
    else FilesLayersSpec(d, vocabulary, read, found)
  }

  lemma {:induction false} FileLayersErrorPersists(d: Disturbance, vocabulary: set<Value>, read: Reader, path: string,
                                                   sublayers: seq<Option<string>>, i: nat)
    requires i <= |sublayers| && FileLayersSpec(d, vocabulary, read, path, sublayers[..i]).Err?
    ensures FileLayersSpec(d, vocabulary, read, path, sublayers) == FileLayersSpec(d, vocabulary, read, path, sublayers[..i])
    decreases |sublayers| - i
  {
    if i < |sublayers| {
      assert sublayers[..i + 1][..i] == sublayers[..i];
      FileLayersErrorPersists(d, vocabulary, read, path, sublayers, i + 1);
    } else {
      assert sublayers[..i] == sublayers;
    }
  }

  lemma {:induction false} FilesLayersErrorPersists(d: Disturbance, vocabulary: set<Value>, read: Reader,
                                                    found: seq<FoundFile>, i: nat)
    requires i <= |found| && FilesLayersSpec(d, vocabulary, read, found[..i]).Err?
    ensures FilesLayersSpec(d, vocabulary, read, found) == FilesLayersSpec(d, vocabulary, read, found[..i])
    decreases |found| - i
  {
    if i < |found| {
      assert found[..i + 1][..i] == found[..i];
      FilesLayersErrorPersists(d, vocabulary, read, found, i + 1);
    } else {
      assert found[..i] == found;
    }
  }

  method FileToTiler(d: Disturbance, vocabulary: set<Value>, read: Reader, path: string, sublayers: seq<Option<string>>)
    returns (r: Result<seq<DisturbanceLayer>>)
    ensures r == FileLayersSpec(d, vocabulary, read, path, sublayers)
  {
    var layers: seq<DisturbanceLayer> := [];
    for j := 0 to |sublayers|
      invariant FileLayersSpec(d, vocabulary, read, path, sublayers[..j]) == Ok(layers)
    {
      assert sublayers[..j + 1][..j] == sublayers[..j];
      var more := LayerToTiler(d, vocabulary, DataOf(read, path, sublayers[j]));
      if more.Err? {
        r := Err(more.error);
        FileLayersErrorPersists(d, vocabulary, read, path, sublayers, j + 1);
        return;
      }
      layers := layers + more.value;
    }
    assert sublayers[..|sublayers|] == sublayers;
    return Ok(layers);
  }

  method ToTilerLayer(d: Disturbance, vocabulary: set<Value>, read: Reader, directoryExists: bool, found: seq<FoundFile>)
    returns (r: Result<seq<DisturbanceLayer>>)
    ensures r == ToTilerLayerSpec(d, vocabulary, read, directoryExists, found)
  {
    if !directoryExists {
      return Err(PatternDirectoryMissing(d.pattern));
    }
    var layers: seq<DisturbanceLayer> := [];
    for i := 0 to |found|
      invariant FilesLayersSpec(d, vocabulary, read, found[..i]) == Ok(layers)
    {
      assert found[..i + 1][..i] == found[..i];
      var more := FileToTiler(d, vocabulary, read, found[i].path, SublayersOf(d, found[i]));
      if more.Err? {
        r := Err(more.error);
        FilesLayersErrorPersists(d, vocabulary, read, found, i + 1);
        return;
      }
      layers := layers + more.value;
    }
    assert found[..|found|] == found;
    return Ok(layers);
  }

  /** A file that is not a geodatabase with configured layers contributes the
      descriptors of its single layer. */
  lemma PlainFileLayers(d: Disturbance, vocabulary: set<Value>, read: Reader, f: FoundFile)
    requires !(PathSuffix(f.path) == ".gdb" && LayersConfigured(d.layers))
    ensures FilesLayersSpec(d, vocabulary, read, [f]) == LayerSpec(d, vocabulary, DataOf(read, f.path, d.configuredLayer))
  {
    var one := LayerSpec(d, vocabulary, DataOf(read, f.path, d.configuredLayer));
    var subs := SublayersOf(d, f);
    assert subs == [d.configuredLayer];
    assert subs[..0] == [];
    assert [f][..0] == [];
    assert FileLayersSpec(d, vocabulary, read, f.path, subs) == one by {
      if one.Ok? { assert [] + one.value == one.value; }
    }
    if one.Ok? { assert [] + one.value == one.value; }
  }
}
