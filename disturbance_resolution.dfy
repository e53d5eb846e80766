/** The decisions the Disturbance component takes for one layer before it builds
    anything: the normalised configuration, which attribute, literal or file-name
    token supplies the disturbance year and the disturbance type, configured or
    default attributes, and the transition rules
    (gcbmwalltowall/component/disturbance.py). */
module DisturbanceResolution {
  import opened Common
  import opened DisturbanceParsing

  // ---------------------------------------------------------------------------
  // Attribute tables: attribute name -> its distinct values, in table order

  datatype Column = Column(name: string, values: seq<Value>)

  type AttributeTable = seq<Column>

  predicate HasAttribute(t: AttributeTable, name: string)
  {
    exists k :: 0 <= k < |t| && t[k].name == name
  }

  /** Python's `v in attribute_table`: only a text can be an attribute name. */
  predicate InTable(t: AttributeTable, v: Value)
  {
    v.StrV? && HasAttribute(t, v.s)
  }

  /** attribute_table[name]: the values of the first column with that name. */
  function ColumnValues(t: AttributeTable, name: string): (vs: seq<Value>)
    requires HasAttribute(t, name)
    ensures exists k :: 0 <= k < |t| && t[k].name == name && t[k].values == vs
  {
    var k := FirstIndex(t, (c: Column) => c.name == name);
    t[k.value].values
  }

  // ---------------------------------------------------------------------------
  // The configuration as the constructor normalises it

  /** A configured transition: a literal or attribute name for the age after the
      disturbance and for the regeneration delay, and classifier -> value (or
      classifier -> layer attribute) pairs in configuration order. */
  datatype TransitionConfig = TransitionConfig(ageAfter: Value, regenDelay: Value, classifiers: seq<(string, string)>)

  /** The configured `split_on`: absent, one attribute, or a list. */
  datatype SplitOnConfig = NoSplitOn | SplitOnText(s: string) | SplitOnList(items: seq<string>)

  /** The configured `layers` of a geodatabase: none, a list, or a name pattern. */
  datatype LayersConfig = NoLayers | LayerList(names: seq<string>) | LayerPattern(pattern: string)

  datatype Disturbance = Disturbance(
    pattern: string,
    year: Value,
    disturbanceType: Value,
    transition: Option<TransitionConfig>,
    transitionUndisturbed: Option<TransitionConfig>,
    filters: seq<(string, FilterValue)>,
    splitOn: seq<string>,
    name: Option<string>,
    layers: LayersConfig,
    metadataAttributes: seq<string>,
    proportion: Value,
    configuredLayer: Option<string>)

  /** split_on: a text becomes a one-element list (even the empty text), a
      non-empty list is kept, and an empty list or anything else falsy becomes
      ["year"]. */
  function NormaliseSplitOn(s: SplitOnConfig): (r: seq<string>)
    ensures r != []
    ensures s.SplitOnText? ==> r == [s.s]
    ensures s.SplitOnList? && s.items != [] ==> r == s.items
    ensures s == SplitOnList([]) || s == NoSplitOn ==> r == ["year"]
  {
    match s
    case SplitOnText(t) => [t]
    case SplitOnList(items) => if items != [] then items else ["year"]
    case NoSplitOn => ["year"]
  }

  /** The constructor: split_on normalised, filters and metadata attributes
      defaulting to empty, everything else kept as configured. */
  function NewDisturbance(
    pattern: string, year: Value, disturbanceType: Value,
    transition: Option<TransitionConfig>, transitionUndisturbed: Option<TransitionConfig>,
    filters: Option<seq<(string, FilterValue)>>, splitOn: SplitOnConfig, name: Option<string>,
    layers: LayersConfig, metadataAttributes: Option<seq<string>>, proportion: Value,
    configuredLayer: Option<string>): (d: Disturbance)
    ensures d.splitOn == NormaliseSplitOn(splitOn) && d.splitOn != []
    ensures "year" in d.splitOn || splitOn.SplitOnText? || (splitOn.SplitOnList? && splitOn.items != [])
    ensures d.filters == (if filters.Some? then filters.value else [])
    ensures d.metadataAttributes == (if metadataAttributes.Some? then metadataAttributes.value else [])
    ensures && d.pattern == pattern && d.year == year && d.disturbanceType == disturbanceType
            && d.transition == transition && d.transitionUndisturbed == transitionUndisturbed
            && d.name == name && d.layers == layers && d.proportion == proportion
            && d.configuredLayer == configuredLayer
  {
    Disturbance(
      pattern, year, disturbanceType, transition, transitionUndisturbed,
      if filters.Some? then filters.value else [],
      NormaliseSplitOn(splitOn), name, layers,
      if metadataAttributes.Some? then metadataAttributes.value else [],
      proportion, configuredLayer)
  }

  // ---------------------------------------------------------------------------
  // _get_disturbance_year_or_attribute

  /** An attribute is read as disturbance years when it has a value other than
      None and every such value looks like a year. */
  predicate IsYearColumn(values: seq<Value>)
  {
    && (exists k :: 0 <= k < |values| && values[k] != NoneV)
    && forall k :: 0 <= k < |values| && values[k] != NoneV ==> LooksLikeDisturbanceYear(values[k])
  }

  function ResolveYear(configured: Value, path: string, t: AttributeTable): Result<Value>
  {
    if configured == StrV("filename") then
      match TryParseYear(path)
      case Some(y) => Ok(IntV(y))
      case None => Err(YearNotInFilename(path))
    else if configured != NoneV then Ok(configured)
    else
      match FirstIndex(t, (c: Column) => IsYearColumn(c.values))
      case Some(k) => Ok(StrV(t[k].name))
      case None =>
        match TryParseYear(path)
        case Some(y) => Ok(IntV(y))
        case None => Err(NoDisturbanceYear(path))
  }

  /** Resolution fails exactly when nothing in the chain supplies a year: the
      path has no run of four digits, and either the file name was demanded or
      nothing was configured and no attribute holds years. */
  lemma ResolveYearFails(configured: Value, path: string, t: AttributeTable)
    ensures ResolveYear(configured, path, t).Err? <==>
      (forall k :: !FourDigitsAt(path, k)) &&
      (configured == StrV("filename") ||
       (configured == NoneV && forall j :: 0 <= j < |t| ==> !IsYearColumn(t[j].values)))
    ensures ResolveYear(configured, path, t).Err? ==>
      ResolveYear(configured, path, t).error ==
        (if configured == StrV("filename") then YearNotInFilename(path) else NoDisturbanceYear(path))
  {
    TryParseYearFacts(path);
  }

  /** With nothing configured, the first attribute in table order that holds
      years wins over the file name. */
  lemma ResolveYearPrefersFirstYearAttribute(path: string, t: AttributeTable, k: nat)
    requires k < |t| && IsYearColumn(t[k].values)
    requires forall j :: 0 <= j < k ==> !IsYearColumn(t[j].values)
    ensures ResolveYear(NoneV, path, t) == Ok(StrV(t[k].name))
  {
    assert IsYearColumn(t[k].values);
  }

  /** A year taken from the file name is the value of the last match that the
      left-to-right scan of the path for runs of four digits reports. */
  lemma ResolveYearFromFileName(configured: Value, path: string, t: AttributeTable)
    requires configured == StrV("filename") || configured == NoneV
    requires ResolveYear(configured, path, t).Ok? && !ResolveYear(configured, path, t).value.StrV?
    ensures var starts := MatchStarts(path, 0);
      && IsScan(path, 0, starts) && starts != []
      && var l := starts[|starts| - 1];
         && FourDigitsAt(path, l)
         && ResolveYear(configured, path, t).value == IntV(DigitsValue(path[l..l + 4]))
    ensures 0 <= ResolveYear(configured, path, t).value.i <= 9999
  {
    TryParseYearFacts(path);
  }

  // ---------------------------------------------------------------------------
  // _get_disturbance_type_or_attribute

  /** An attribute is read as disturbance types when it has values and every one
      of them names a disturbance type of the input database. */
  predicate IsTypeColumn(values: seq<Value>, vocabulary: set<Value>)
  {
    values != [] && forall k :: 0 <= k < |values| ==> values[k] in vocabulary
  }

  function ResolveType(configured: Value, vocabulary: set<Value>, path: string, t: AttributeTable): Result<Value>
  {
    if configured != NoneV then Ok(configured)
    else
      match FirstIndex(t, (c: Column) => IsTypeColumn(c.values, vocabulary))
      case Some(k) => Ok(StrV(t[k].name))
      case None => Err(NoDisturbanceType(path))
  }

  /** A configured type wins; otherwise the result names the first attribute,
      in table order, whose values are non-empty and all disturbance types; the
      resolution fails exactly when there is none. */
  lemma ResolveTypeChain(configured: Value, vocabulary: set<Value>, path: string, t: AttributeTable)
    ensures configured != NoneV ==> ResolveType(configured, vocabulary, path, t) == Ok(configured)
    ensures configured == NoneV ==>
      (ResolveType(configured, vocabulary, path, t).Err? <==>
        forall j :: 0 <= j < |t| ==> !IsTypeColumn(t[j].values, vocabulary))
    ensures configured == NoneV && ResolveType(configured, vocabulary, path, t).Ok? ==>
      exists k :: 0 <= k < |t| && ResolveType(configured, vocabulary, path, t).value == StrV(t[k].name)
        && IsTypeColumn(t[k].values, vocabulary)
        && forall j :: 0 <= j < k ==> !IsTypeColumn(t[j].values, vocabulary)
    ensures ResolveType(configured, vocabulary, path, t).Err? ==>
      ResolveType(configured, vocabulary, path, t).error == NoDisturbanceType(path)
  {
  }

  // ---------------------------------------------------------------------------
  // _get_configured_or_default

  /** A configured value wins; otherwise the attribute of that name when the
      table has it; otherwise None. */
  function ConfiguredOrDefault(t: AttributeTable, attribute: string, configured: Value): (r: Value)
    ensures configured != NoneV ==> r == configured
    ensures configured == NoneV ==> (r != NoneV <==> HasAttribute(t, attribute))
    ensures r != NoneV && r != configured ==> r == StrV(attribute) && InTable(t, r)
  {
    if configured != NoneV then configured
    else if HasAttribute(t, attribute) then StrV(attribute)
    else NoneV
  }

  // ---------------------------------------------------------------------------
  // _make_transition

  /** A value handed to the tiler: the name of a layer attribute, or a literal. */
  datatype Param = Attr(name: string) | Literal(v: Value)

  /** Attribute(v) when v names an attribute of the layer, v itself otherwise. */
  function AsParam(t: AttributeTable, v: Value): (p: Param)
    ensures p.Attr? <==> InTable(t, v)
    ensures p.Attr? ==> v == StrV(p.name)
    ensures p.Literal? ==> p.v == v
  {
    if InTable(t, v) then Attr(v.s) else Literal(v)
  }

  /** The classifiers of a transition rule: the classifier names, whose values
      come from same-named layer attributes, or fixed classifier values. */
  datatype RuleClassifiers = FromLayer(names: seq<string>) | Fixed(pairs: seq<(string, string)>)

  datatype TransitionRule = TransitionRule(regenDelay: Param, ageAfter: Param, classifiers: RuleClassifiers)

  /** The classifiers are read from the layer when every configured value names
      an attribute of the layer. */
  predicate SpatialClassifiers(t: AttributeTable, c: TransitionConfig)
  {
    c.classifiers != [] && forall k :: 0 <= k < |c.classifiers| ==> HasAttribute(t, c.classifiers[k].1)
  }

  /** The rule for a configured transition, and the classifier names read from
      the layer (None when the classifiers are fixed values). */
  function MakeTransition(t: AttributeTable, config: Option<TransitionConfig>): (Option<TransitionRule>, Option<seq<string>>)
  {
    match config
    case None => (None, None)
    case Some(c) =>
      var ageAfter := ConfiguredOrDefault(t, "age_after", c.ageAfter);
      var regenDelay := ConfiguredOrDefault(t, "regen_delay", c.regenDelay);
      var spatial := if SpatialClassifiers(t, c) then Some(Firsts(c.classifiers)) else None;
      var classifiers := if spatial.Some? then FromLayer(spatial.value) else Fixed(c.classifiers);
      (Some(TransitionRule(AsParam(t, regenDelay), AsParam(t, ageAfter), classifiers)), spatial)
  }

  /** A configured transition always gives a rule; its classifiers come from
      the layer exactly when every configured classifier value names a layer
      attribute, and then the names are the configured classifiers in order;
      the age after and regeneration delay fall back to same-named attributes. */
  lemma MakeTransitionFacts(t: AttributeTable, config: Option<TransitionConfig>)
    ensures config.None? <==> MakeTransition(t, config).0.None?
    ensures MakeTransition(t, config).1.Some? <==> config.Some? && SpatialClassifiers(t, config.value)
    ensures MakeTransition(t, config).1.Some? ==>
      var names := MakeTransition(t, config).1.value;
      names != [] && |names| == |config.value.classifiers|
      && (forall k :: 0 <= k < |names| ==> names[k] == config.value.classifiers[k].0)
      && MakeTransition(t, config).0.value.classifiers == FromLayer(names)
    ensures config.Some? && MakeTransition(t, config).1.None? ==>
      MakeTransition(t, config).0.value.classifiers == Fixed(config.value.classifiers)
    ensures config.Some? && config.value.ageAfter == NoneV ==>
      (MakeTransition(t, config).0.value.ageAfter == Attr("age_after") <==> HasAttribute(t, "age_after"))
    ensures config.Some? && config.value.regenDelay == NoneV ==>
      (MakeTransition(t, config).0.value.regenDelay == Attr("regen_delay") <==> HasAttribute(t, "regen_delay"))
  {
  }
}
