# gcbmwalltowall core, modelled in Dafny

gcbmwalltowall assembles a GCBM or CBM4 project from spatial layers and
configuration files. This project models the parts that decide what the tiler
and the CBM4 preprocessor are handed. The model is written in Dafny and its
properties are proved.

- **Disturbance component** (`DisturbanceParsing`, `DisturbanceResolution`,
  `DisturbanceLayers`):
  - how a configured disturbance finds its layer files and sublayers;
  - how the disturbance year and type are resolved, from configuration, from
    an attribute or from the file name;
  - how user filters are mapped onto layer attributes;
  - how a raster is skipped by year range;
  - how a vector layer is split into one tiler layer per combination of
    split-attribute values.
- **Transition rule merge** (`TransitionRuleMerge`): `Project._prepare_transition_rules`.
  It clears the old outputs, reads and merges the disturbed transition rule
  CSVs, fills in default columns, copies the undisturbed rules and writes the
  merged CSV. Files live in a `FileStore` class whose map of paths to contents
  the methods update.
- **Project converter helpers** (`ProjectConversion`):
  - the ordering of transition-rule columns;
  - the user disturbance order checked against the database;
  - the flattening of two-level pivot columns;
  - the cohort dataset names;
  - the mask layer list;
  - the layers a cohort dataset inherits from the base inventory.
- **Attribute tables** (`VectorAttributes`, `RasterAttributes`):
  - the vector table reads distinct values per attribute, rewrites them through
    a lookup CSV of (original, replacement) column pairs, and keeps both caches
    (as the `VectorCaches` class);
  - the raster table reads a CSV keyed on pixel value once and keeps it.
- **Layer converters** (`LayerConversion`): the delegating, default and land
  class converters, as a `Converter` datatype with one constructor per kind.
- **Last-pass disturbance converter** (`LastPassDisturbance`):
  - per chunk, finds each pixel's most recent disturbance over all layers,
    on arrays as the source does;
  - writes each chunk's result into the output grid (an `array2`).
- **Raster windows** (`RasterWindows`): `read_dataset`'s checks of a window
  against the raster extent, and the window it reads.

Shared Python values become `Common.Value` (`NoneV`, `IntV`, `StrV`, `NaN`).
Raised exceptions become `Err` results of `Common.Result`, with the `Error`
constructor naming the exception's cause. File systems, GDAL/OGR and SQL
databases are parameters: a `Reader`, a `LayerFiles` oracle, a `FileStore`,
rasters given as pixel rows, and a map of disturbance type names to codes.

## Model

| member | source | states |
|---|---|---|
| DisturbanceParsing.LooksLikeDisturbanceYearCases | gcbmwalltowall/component/disturbance.py:434-448 | A value looks like a year exactly when its text has four characters and its integer value lies strictly between 1000 and 2500 |
| DisturbanceParsing.MatchStartsFacts | gcbmwalltowall/component/disturbance.py:367-368 | Each match is the leftmost four-ASCII-digit run at or after the end of the previous match: matches are four digits, do not overlap, no run starts in a gap or after the last one; there are none exactly when the path has no four-digit run |
| DisturbanceParsing.ScanIsMatchStarts | gcbmwalltowall/component/disturbance.py:367-368 | The left-to-right non-overlapping scan is unique: any sequence of match starts with those properties is the one computed |
| DisturbanceParsing.TryParseYearFacts | gcbmwalltowall/component/disturbance.py:367-375 | No year exactly when the path has no four-digit run; otherwise the value of the four digits at the last match of the left-to-right non-overlapping scan, with no four-digit run after them, between 0 and 9999 |
| DisturbanceParsing.FindallIsLeftmost | gcbmwalltowall/component/disturbance.py:367-369 | On "12345" the scan matches only at 0, so the year is 1234 and not 2345 |
| DisturbanceParsing.InclusiveRange | gcbmwalltowall/component/disturbance.py:363 | range(lo, hi + 1) holds exactly the integers from lo to hi in order, empty when hi < lo |
| DisturbanceParsing.ParseFilterValue | gcbmwalltowall/component/disturbance.py:356-365 | Anything but a parenthesised text is returned unchanged; a parsed value is a list of integers |
| DisturbanceParsing.RangeBoundsRoundTrip | gcbmwalltowall/component/disturbance.py:356-365 | The two bounds read back from the text written for lo..hi are lo and hi |
| DisturbanceParsing.RangeFilterRoundTrip | gcbmwalltowall/component/disturbance.py:356-365 | Parsing the text "(lo, hi)" gives the inclusive range lo..hi |
| DisturbanceParsing.PathStem | gcbmwalltowall/component/disturbance.py:353 | The stem followed by the suffix is the file name |
| DisturbanceParsing.TilerNameWithArgument | gcbmwalltowall/component/disturbance.py:349-354 | Each non-None argument adds "_" and its text to the tiler name |
| DisturbanceParsing.SplitNamesDistinct | gcbmwalltowall/component/disturbance.py:292-293 | The names of two split layers with different indices differ |
| DisturbanceResolution.NormaliseSplitOn | gcbmwalltowall/component/disturbance.py:44-48 | A text becomes a one-item list, a non-empty list is kept, and a missing value or an empty list becomes ["year"]; the result is never empty |
| DisturbanceResolution.NewDisturbance | gcbmwalltowall/component/disturbance.py:19-53 | split_on is normalised as above, so never empty; missing filters and metadata attributes become empty; every other field is the argument given |
| DisturbanceResolution.ResolveYearFails | gcbmwalltowall/component/disturbance.py:377-406 | Resolution fails exactly when the file name holds no year and either "filename" is configured or nothing is configured and no attribute looks like a year; the error says which |
| DisturbanceResolution.ResolveYearPrefersFirstYearAttribute | gcbmwalltowall/component/disturbance.py:390-397 | With nothing configured, the first attribute whose values all look like years is chosen |
| DisturbanceResolution.ResolveYearFromFileName | gcbmwalltowall/component/disturbance.py:377-406 | A year taken from the file name is the value of the four digits at the last match of the left-to-right non-overlapping scan of the path |
| DisturbanceResolution.ResolveTypeChain | gcbmwalltowall/component/disturbance.py:408-423 | A configured type is used as is; otherwise the first attribute whose values are all known disturbance types, or NoDisturbanceType when there is none |
| DisturbanceResolution.ConfiguredOrDefault | gcbmwalltowall/component/disturbance.py:425-432 | A configured value wins; otherwise the attribute name if the table has it, else None |
| DisturbanceResolution.AsParam | gcbmwalltowall/component/disturbance.py:201-213 | A value becomes an Attribute exactly when it names a column of the table, and is a literal otherwise |
| DisturbanceResolution.MakeTransitionFacts | gcbmwalltowall/component/disturbance.py:320-347 | No rule without a configuration; spatial classifiers exactly when every classifier maps to a table column; age_after and regen_delay fall back to same-named attributes |
| DisturbanceLayers.AttributeNames | gcbmwalltowall/component/disturbance.py:126-141 | Only attribute parameters of a transition rule contribute tiler attribute names |
| DisturbanceLayers.IdentityAttributes | gcbmwalltowall/component/disturbance.py:143-151 | Exactly the candidates that are table columns map to themselves |
| DisturbanceLayers.RenameTo | gcbmwalltowall/component/disturbance.py:153-157 | The renamed map's keys are the old names plus every classifier's layer attribute |
| DisturbanceLayers.RenameToValues | gcbmwalltowall/component/disturbance.py:153-157 | Each layer attribute maps to its classifier, the last classifier naming it winning; every other entry keeps its value |
| DisturbanceLayers.TilerCandidates | gcbmwalltowall/component/disturbance.py:125-148 | The tiler-attribute candidates include the year, the type, the proportion and every metadata attribute |
| DisturbanceLayers.Prepare | gcbmwalltowall/component/disturbance.py:95-157 | A prepared layer carries the resolved year and type, the tiler name, both transitions, the configured-or-default proportion and the tiler attributes (the candidates the layer has, renamed through the disturbed transition's classifiers when spatial); it fails exactly on a type error, else a year error, else spatial classifiers without a disturbed transition (MissingTransition) |
| DisturbanceLayers.PreparedAttributes | gcbmwalltowall/component/disturbance.py:143-157 | A tiler attribute is either a candidate the layer has, mapped to itself, or a classifier's layer attribute, mapped to its classifier (the last one wins) |
| DisturbanceLayers.FilterTarget | gcbmwalltowall/component/disturbance.py:159-179 | "year" and "disturbance_type" filters go to the resolved attribute when it is a tiler attribute and are dropped otherwise; other keys are kept unless empty |
| DisturbanceLayers.ApplyFilters | gcbmwalltowall/component/disturbance.py:159-182 | The loop computes the filter specification, stopping at the first unparseable range |
| DisturbanceLayers.FiltersKeepAttributes | gcbmwalltowall/component/disturbance.py:159-182 | Filtering adds each filtered attribute to the tiler attributes as itself and leaves the others unchanged; the only error is an unparseable range |
| DisturbanceLayers.FiltersPassThrough | gcbmwalltowall/component/disturbance.py:159-182 | A filter on an ordinary attribute always ends up in the layer filters |
| DisturbanceLayers.YearIn | gcbmwalltowall/component/disturbance.py:184-189 | For a list filter the raster is kept exactly when its year is in the list |
| DisturbanceLayers.SplitAttributes | gcbmwalltowall/component/disturbance.py:221-229 | At most two split attributes (year, then type), each a table column |
| DisturbanceLayers.ConvertAll | gcbmwalltowall/component/disturbance.py:270-272 | Every filter value is converted to the column's type, and the conversion fails exactly when one value fails |
| DisturbanceLayers.Intersect | gcbmwalltowall/component/disturbance.py:265-275 | The intersection holds each column value once that equals some converted filter value; it fails on an empty column or an unconvertible value |
| DisturbanceLayers.SplitValuesForAsWritten | gcbmwalltowall/component/disturbance.py:261-277 | As written, only a list filter narrows the split values: the result has no duplicate and holds exactly the column values equal to a filter value converted like the first value, and it fails exactly when the column is empty or a conversion fails; any other filter leaves the whole column |
| DisturbanceLayers.SplitValuesFor | gcbmwalltowall/component/disturbance.py:261-277 | Corrected rule: a single value filters like a one-element list, with the same no-duplicate, membership and failure conditions; without a filter the whole column |
| DisturbanceLayers.SplitRulesAgree | gcbmwalltowall/component/disturbance.py:264-277 | The as-written and corrected rules agree unless the attribute has a single-value filter |
| DisturbanceLayers.ScalarSplitFilterDropped | gcbmwalltowall/component/disturbance.py:264-277 | With year values 2004 and 2005 and filter year=2005, the as-written split values are both years (two split layers), where the corrected rule keeps 2005 alone |
| DisturbanceLayers.ScalarSplitFilterApplied | gcbmwalltowall/component/disturbance.py:264-277 | In the corrected version a scalar filter leaves only the values equal to it |
| DisturbanceLayers.Put | gcbmwalltowall/component/disturbance.py:277 | Assigning a split attribute keeps keys distinct, sets that key's values and leaves the other entries in place |
| DisturbanceLayers.CollectSplitValues | gcbmwalltowall/component/disturbance.py:261-277 | The loop computes the split-values specification, which applies the as-written filter rule to each split attribute in turn and stops at the first failure |
| DisturbanceLayers.SplitValuesFacts | gcbmwalltowall/component/disturbance.py:261-277 | The split values have one entry per split attribute, each once, holding that attribute's values under the as-written filter rule |
| DisturbanceLayers.ProductFacts | gcbmwalltowall/component/disturbance.py:283-285 | The product has one combination per choice of values, and holds exactly the combinations |
| DisturbanceLayers.ZipFilters | gcbmwalltowall/component/disturbance.py:286-288 | The zipped filters are keyed on exactly the split attributes that have a value |
| DisturbanceLayers.ZipFiltersAt | gcbmwalltowall/component/disturbance.py:286-288 | Each split attribute is filtered on its value in the combination |
| DisturbanceLayers.NonSplitting | gcbmwalltowall/component/disturbance.py:279-281 | The non-splitting filters are exactly the layer filters on attributes that are not split |
| DisturbanceLayers.AttributeParam | gcbmwalltowall/component/disturbance.py:302-314 | A year, type or proportion becomes an Attribute exactly when it is a tiler attribute |
| DisturbanceLayers.SplitLayers | gcbmwalltowall/component/disturbance.py:283-316 | One disturbance layer per combination |
| DisturbanceLayers.EmitSplitLayers | gcbmwalltowall/component/disturbance.py:283-316 | The loop builds the split layers, one per combination in order |
| DisturbanceLayers.LayerToTiler | gcbmwalltowall/component/disturbance.py:95-318 | The method computes the layer specification |
| DisturbanceLayers.VectorWithoutSplitIsOneLayer | gcbmwalltowall/component/disturbance.py:231-256 | Without split attributes a vector gives one layer carrying all tiler attributes and layer filters |
| DisturbanceLayers.SplitLayerFilters | gcbmwalltowall/component/disturbance.py:286-296 | Split layer i is named with index i and filters each split attribute on its value in combination i, plus every non-splitting filter |
| DisturbanceLayers.VectorSplitCount | gcbmwalltowall/component/disturbance.py:283-316 | The number of split layers is the product of the numbers of split values |
| DisturbanceLayers.VectorSplitFilters | gcbmwalltowall/component/disturbance.py:283-296 | Every split layer filters each split attribute on one of its values and keeps the other filters |
| DisturbanceLayers.VectorSplitComplete | gcbmwalltowall/component/disturbance.py:283-296 | Every combination of split values has a layer |
| DisturbanceLayers.VectorSplitNamesDistinct | gcbmwalltowall/component/disturbance.py:292-293 | Split layers have pairwise different names |
| DisturbanceLayers.RasterYearRangeFilter | gcbmwalltowall/component/disturbance.py:184-189 | A raster with a year-range filter is kept, as one layer, exactly when its year is in range |
| DisturbanceLayers.RasterWithoutYearFilter | gcbmwalltowall/component/disturbance.py:184-215 | Without a year filter a raster gives one layer, split only when spatial |
| DisturbanceLayers.YearFilter | gcbmwalltowall/component/disturbance.py:187-190 | The raster year filter is the last configured "year" entry |
| DisturbanceLayers.SublayersOf | gcbmwalltowall/component/disturbance.py:66-77 | A file that is not a geodatabase with configured layers is read once, with the configured layer |
| DisturbanceLayers.FileToTiler | gcbmwalltowall/component/disturbance.py:78-85 | The loop computes the layers of all sublayers of one file, stopping at the first error |
| DisturbanceLayers.ToTilerLayer | gcbmwalltowall/component/disturbance.py:55-93 | The method computes the layers of every matching file, failing when the pattern directory is missing |
| DisturbanceLayers.PlainFileLayers | gcbmwalltowall/component/disturbance.py:86-91 | A plain file gives exactly the layers of its one read |
| TransitionRuleMerge.Assign | gcbmwalltowall/component/project.py:322-334 | Assigning a column sets it and keeps the row well formed |
| TransitionRuleMerge.SetDefault | gcbmwalltowall/component/project.py:322-334 | A column is set only when absent |
| TransitionRuleMerge.SetDefaultsFacts | gcbmwalltowall/component/project.py:327-328 | Defaulting columns adds exactly the missing ones with the default value and keeps existing values |
| TransitionRuleMerge.AddClassifiers | gcbmwalltowall/component/project.py:315-319 | Classifier columns gain the non-reserved keys, without repeats |
| TransitionRuleMerge.ClassifierColumns | gcbmwalltowall/component/project.py:308-319 | The classifier columns are exactly the non-reserved column names of any row, each once |
| TransitionRuleMerge.CollectClassifierColumns | gcbmwalltowall/component/project.py:315-319 | The loop computes the classifier columns |
| TransitionRuleMerge.MatchColumns | gcbmwalltowall/component/project.py:332-334 | One "_match" column per project classifier |
| TransitionRuleMerge.ProjectClassifierDefaultsFacts | gcbmwalltowall/component/project.py:330-334 | Project classifiers default to "?" and their match columns to "", existing values kept |
| TransitionRuleMerge.FillRowAt | gcbmwalltowall/component/project.py:321-334 | A filled row has its own columns plus exactly the default columns, and keeps its own values |
| TransitionRuleMerge.FillRowWellFormed | gcbmwalltowall/component/project.py:321-334 | Filling keeps a row well formed |
| TransitionRuleMerge.FillRowDefaults | gcbmwalltowall/component/project.py:322-325 | Missing id gets a fresh id, disturbance_type "", age_reset_type "absolute", regen_delay "0" |
| TransitionRuleMerge.FillRowClassifier | gcbmwalltowall/component/project.py:327-328 | A missing classifier column gets "?" |
| TransitionRuleMerge.FillAll | gcbmwalltowall/component/project.py:321-334 | Filling keeps the number of rows |
| TransitionRuleMerge.FillDefaults | gcbmwalltowall/component/project.py:321-334 | The loop fills every row |
| TransitionRuleMerge.FilledRowsAgree | gcbmwalltowall/component/project.py:315-334 | After filling, any two rows have the same columns apart from age_after |
| TransitionRuleMerge.ReadRow | gcbmwalltowall/component/project.py:305 | A CSV record becomes a row whose keys are the header's distinct columns in order of first appearance |
| TransitionRuleMerge.ReadRowValue | gcbmwalltowall/component/project.py:305 | Each column holds the record's field at the column's last place in the header, "" past the record's end |
| TransitionRuleMerge.RowsOf | gcbmwalltowall/component/project.py:303-306 | Every row read from a file is well formed |
| TransitionRuleMerge.Record | gcbmwalltowall/component/project.py:350-352 | A row is written as one cell per header column, empty where the row lacks it |
| TransitionRuleMerge.FitsFirstRow | gcbmwalltowall/component/project.py:348-352 | A filled row fits the first row's header exactly when it has age_after only if the first row does |
| TransitionRuleMerge.WriteRowsSucceeds | gcbmwalltowall/component/project.py:348-352 | Writing succeeds exactly when there is a row and every row fits the first row's header; the file is the header then one record per row |
| TransitionRuleMerge.WriteFilledRows | gcbmwalltowall/component/project.py:348-352 | The merged rules are written exactly when there are rows and either the first row has age_after or none does |
| TransitionRuleMerge.UndisturbedName | gcbmwalltowall/component/project.py:280-283 | The undisturbed name fails exactly when the output name has no underscore |
| TransitionRuleMerge.UndisturbedNameInserts | gcbmwalltowall/component/project.py:280-283 | "undisturbed" is inserted after the first underscore-separated part |
| TransitionRuleMerge.FileStore.constructor | gcbmwalltowall/component/project.py:289-290 | The store starts with the given files |
| TransitionRuleMerge.FileStore.Unlink | gcbmwalltowall/component/project.py:289-290 | Unlinking removes the path, missing or not |
| TransitionRuleMerge.FileStore.Copy | gcbmwalltowall/component/project.py:339-346 | Copying puts the source's content at the destination; a missing source is an error and changes nothing |
| TransitionRuleMerge.FileStore.Write | gcbmwalltowall/component/project.py:348-352 | Writing replaces the file's content |
| TransitionRuleMerge.PrepareTransitionRules | gcbmwalltowall/component/project.py:279-352 | The method's result and new files are those of the merge specification |
| TransitionRuleMerge.NothingToMerge | gcbmwalltowall/component/project.py:289-296 | With no disturbed rules anywhere, only the three outputs are removed |
| TransitionRuleMerge.MergeWritesEveryRow | gcbmwalltowall/component/project.py:298-352 | A successful merge writes every merged and filled row under the first row's header, copies the user's undisturbed rules verbatim, and copies the tiler's undisturbed rules verbatim when it wrote them (otherwise that output stays removed) |
| TransitionRuleMerge.MergedRowsWritten | gcbmwalltowall/component/project.py:298-352 | The merged output holds one record per merged row under the first row's header, and the user's undisturbed rules are copied |
| TransitionRuleMerge.TilerUndisturbedCopied | gcbmwalltowall/component/project.py:336-341 | The tiler's undisturbed rules are copied verbatim when present; otherwise that output stays removed |
| ProjectConversion.Category | gcbmwalltowall/converter/projectconverter.py:447-463 | Every column has a sort key between 0 and 5 |
| ProjectConversion.SortTransitionColumnsFacts | gcbmwalltowall/converter/projectconverter.py:443-466 | Sorting permutes the columns, orders them by key, and keeps columns with equal keys in their original order |
| ProjectConversion.CodeOf | gcbmwalltowall/converter/projectconverter.py:509-511 | A name has a code exactly when the database lists it, and the code is its own |
| ProjectConversion.EntriesOf | gcbmwalltowall/converter/projectconverter.py:509-511 | The user's names are paired with their database codes, in user order |
| ProjectConversion.KnownUserOrder | gcbmwalltowall/converter/projectconverter.py:495-507 | After removal every user entry is a database type |
| ProjectConversion.UserOrder.constructor | gcbmwalltowall/converter/projectconverter.py:488 | The user order holds the configured names |
| ProjectConversion.RemoveUnknown | gcbmwalltowall/converter/projectconverter.py:500-507 | The list is updated in place to the known names, in their order |
| ProjectConversion.KnownCodes | gcbmwalltowall/converter/projectconverter.py:509-511 | The loop gives the codes of the user's names in order |
| ProjectConversion.RemainingEntries | gcbmwalltowall/converter/projectconverter.py:511-515 | The loop gives the database entries the user did not name, in database order |
| ProjectConversion.LoadDisturbanceOrder | gcbmwalltowall/converter/projectconverter.py:485-517 | The method computes the disturbance order, leaving the user list pruned on success and untouched on error |
| ProjectConversion.DisturbanceOrderRejectsDuplicates | gcbmwalltowall/converter/projectconverter.py:487-493 | The order fails exactly when the user order has a repeated name |
| ProjectConversion.DisturbanceOrderPermutation | gcbmwalltowall/converter/projectconverter.py:485-517 | Without repeats the result is a permutation of all database codes |
| ProjectConversion.FlattenedNames | gcbmwalltowall/converter/projectconverter.py:252-260 | One flat name per column |
| ProjectConversion.PivotFrame.constructor | gcbmwalltowall/converter/projectconverter.py:252-253 | The frame holds the given columns |
| ProjectConversion.FlattenPivotColumns | gcbmwalltowall/converter/projectconverter.py:252-260 | Two-level columns are replaced by their flat names; a non-empty one-level index fails and is unchanged |
| ProjectConversion.FlattenedNamesFacts | gcbmwalltowall/converter/projectconverter.py:252-260 | Each flat name is the second level when that is non-empty and the first level otherwise; it is empty only when both are |
| ProjectConversion.DatasetNames | gcbmwalltowall/converter/projectconverter.py:213-228 | One dataset per cohort plus the base inventory |
| ProjectConversion.DatasetNamesDistinct | gcbmwalltowall/converter/projectconverter.py:160-228 | The dataset names are pairwise distinct whether cohorts are enabled or not |
| ProjectConversion.MaskLayers | gcbmwalltowall/converter/projectconverter.py:201-211 | The loop computes the mask layer list |
| ProjectConversion.MaskLayersFacts | gcbmwalltowall/converter/projectconverter.py:201-211 | "age" comes first, every other mask is a converted layer, and every configured mask that is a layer is included |
| ProjectConversion.LayerNames | gcbmwalltowall/converter/projectconverter.py:230 | One name per layer, in order |
| ProjectConversion.CohortLayers | gcbmwalltowall/converter/projectconverter.py:227-239 | The loop computes the cohort's layer list |
| ProjectConversion.CohortLayersFacts | gcbmwalltowall/converter/projectconverter.py:227-239 | A cohort keeps its own layers first, then exactly the base layers it does not replace and that are not disturbance layers |
| VectorAttributes.NotNullIffContent | gcbmwalltowall/component/vectorattributetable.py:189-190 | A cell takes part in a substitution exactly when it is a text with a non-whitespace character |
| VectorAttributes.EvenColumns | gcbmwalltowall/component/vectorattributetable.py:162 | The attribute columns are the even-numbered header columns |
| VectorAttributes.InitialTable | gcbmwalltowall/component/vectorattributetable.py:162 | The substitution table starts with an entry for exactly each attribute column |
| VectorAttributes.Step | gcbmwalltowall/component/vectorattributetable.py:168-178 | A row keeps a forward entry forward and an inverted entry inverted |
| VectorAttributes.LoadSubstitutions | gcbmwalltowall/component/vectorattributetable.py:156-180 | The loops compute the substitution specification |
| VectorAttributes.ApplyRow | gcbmwalltowall/component/vectorattributetable.py:164-178 | The column pairs of one row, applied left to right, give the table that the row step specifies |
| VectorAttributes.RowStepAt | gcbmwalltowall/component/vectorattributetable.py:164-178 | A row updates each attribute only through its own column pair |
| VectorAttributes.RowsStepAt | gcbmwalltowall/component/vectorattributetable.py:163-178 | Each attribute's entry is the fold of its column pair over the rows |
| VectorAttributes.SubstitutionsByColumn | gcbmwalltowall/component/vectorattributetable.py:156-180 | A lookup with an even header gives one entry per attribute, folded from its own column pair |
| VectorAttributes.ForwardFromRow | gcbmwalltowall/component/vectorattributetable.py:163-173 | An original has a forward substitution exactly when some non-null row has it, and its replacement comes from such a row |
| VectorAttributes.LastRowWins | gcbmwalltowall/component/vectorattributetable.py:172-173 | The last row with an original decides its replacement |
| VectorAttributes.InvertedLists | gcbmwalltowall/component/vectorattributetable.py:174-178 | The inverted table lists for each replacement exactly its originals in row order |
| VectorAttributes.ForwardAndInvertedAgree | gcbmwalltowall/component/vectorattributetable.py:156-180 | Every forward substitution appears in the inverted table, and every inverted original has a forward substitution |
| VectorAttributes.TranslateFilter | gcbmwalltowall/component/vectorattributetable.py:63-75 | The loop computes the translated filter values |
| VectorAttributes.TranslateValueByRows | gcbmwalltowall/component/vectorattributetable.py:67-73 | A filter value translates to exactly its originals when it is a replacement, and to itself otherwise |
| VectorAttributes.OriginalsFromRows | gcbmwalltowall/component/vectorattributetable.py:174-178 | An original is listed under a replacement exactly when a non-null row pairs them |
| VectorAttributes.AttributeDataFacts | gcbmwalltowall/component/vectorattributetable.py:99-106 | The attribute data holds each distinct value once, each mapped to its substitute |
| VectorAttributes.NoSubstitutionKeepsValues | gcbmwalltowall/component/vectorattributetable.py:104-106 | Without substitutions the values are the distinct raw values |
| VectorAttributes.AttributeDataSnoc | gcbmwalltowall/component/vectorattributetable.py:101-106 | A new value adds one entry; a repeated value adds none |
| VectorAttributes.BuildAttributeData | gcbmwalltowall/component/vectorattributetable.py:101-106 | The loop computes the attribute data |
| VectorAttributes.NewVectorAttributeTable | gcbmwalltowall/component/vectorattributetable.py:20-25 | Construction fails exactly when the layer is missing; an empty lookup path counts as none |
| VectorAttributes.WithLoadedStep | gcbmwalltowall/component/vectorattributetable.py:99-108 | Loading one more attribute adds its data and changes nothing else |
| VectorAttributes.DataCovers | gcbmwalltowall/component/vectorattributetable.py:93-110 | The data covers every requested attribute, keeps cached entries, and becomes the new cache |
| VectorAttributes.DataLoads | gcbmwalltowall/component/vectorattributetable.py:95-108 | An uncached attribute is loaded from its distinct values and substitutions; loading fails only if the lookup does |
| VectorAttributes.DataAgain | gcbmwalltowall/component/vectorattributetable.py:94-97 | A second request for the same attributes is served from the cache without reading the files |
| VectorAttributes.UniqueValuesFacts | gcbmwalltowall/component/vectorattributetable.py:44-51 | Unique values are keyed on exactly the selected attributes; an attribute read now lists, in order, the forward substitutes of the layer's distinct values (the values themselves without a lookup), and a cached one its cached substitutes |
| VectorAttributes.TilerArgsFacts | gcbmwalltowall/component/vectorattributetable.py:77-87 | Every tiler attribute carries its substitutions and has a filter exactly when one was given for it |
| VectorAttributes.LoadMissing | gcbmwalltowall/component/vectorattributetable.py:99-108 | The loop loads every missing attribute |
| VectorAttributes.VectorCaches.constructor | gcbmwalltowall/component/vectorattributetable.py:17-18 | Both caches start empty |
| VectorAttributes.VectorCaches.Attributes | gcbmwalltowall/component/vectorattributetable.py:27-42 | The attribute names come from the cache or the layer and are cached |
| VectorAttributes.VectorCaches.SelectedAttributes | gcbmwalltowall/component/vectorattributetable.py:182-187 | A name, a list or all attributes are selected |
| VectorAttributes.VectorCaches.Data | gcbmwalltowall/component/vectorattributetable.py:93-110 | The data cache is updated as the data specification says |
| VectorAttributes.VectorCaches.GetUniqueValues | gcbmwalltowall/component/vectorattributetable.py:44-51 | The method computes the unique values and the new caches |
| VectorAttributes.VectorCaches.ToTilerArgs | gcbmwalltowall/component/vectorattributetable.py:53-87 | The method computes the tiler attributes and the new caches |
| RasterAttributes.FrameAttributes | gcbmwalltowall/component/rasterattributetable.py:13-15 | The attributes are every column but the first |
| RasterAttributes.FirstUnknown | gcbmwalltowall/component/rasterattributetable.py:17-23 | The first selected name that is not a column, if any |
| RasterAttributes.UniqueValuesFacts | gcbmwalltowall/component/rasterattributetable.py:17-23 | Unique values fail exactly on an unknown attribute; each selected attribute lists every value of its column once, in order of first appearance |
| RasterAttributes.AttributeTableRows | gcbmwalltowall/component/rasterattributetable.py:25-36 | Every pixel value of the CSV has an entry and nothing else does; the last row with that value decides it |
| RasterAttributes.RasterAttributeTable.constructor | gcbmwalltowall/component/rasterattributetable.py:7-11 | A table starts with its path and no data |
| RasterAttributes.RasterAttributeTable.Data | gcbmwalltowall/component/rasterattributetable.py:38-43 | The CSV is read on first use and the cached copy is returned afterwards |
| RasterAttributes.RasterAttributeTable.Attributes | gcbmwalltowall/component/rasterattributetable.py:13-15 | The attributes of the cached data |
| RasterAttributes.RasterAttributeTable.GetUniqueValues | gcbmwalltowall/component/rasterattributetable.py:17-23 | The unique values of the selection; the file is read only if something must be looked up |
| RasterAttributes.RasterAttributeTable.ToTilerArgs | gcbmwalltowall/component/rasterattributetable.py:25-50 | The tiler arguments of the cached CSV (read now if it was not cached) for the selection as given, and the CSV stays cached |
| RasterAttributes.TilerArgsFacts | gcbmwalltowall/component/rasterattributetable.py:25-50 | The selection comes back as given (one name as a list, no selection as every attribute, a rename dict as the same dict); the table has an entry for exactly the pixel values, each with one value per selected attribute; it fails exactly for a CSV without columns (checked first) or an unknown attribute |
| RasterAttributes.DictSelectionKept | gcbmwalltowall/component/rasterattributetable.py:29 | A rename dict selecting `yr` as `year` is returned as that dict, so the tiler name `year` is kept |
| RasterAttributes.OpenRasterAttributeTable | gcbmwalltowall/component/rasterattributetable.py:7-11 | Opening fails exactly when the CSV is missing |
| LayerConversion.GetUpdateExcept | gcbmwalltowall/converter/layerconverter.py:84 | A record's fields overwrite the row, except "conditions" |
| LayerConversion.RowContents | gcbmwalltowall/converter/layerconverter.py:81-88 | A scalar gives the row id, value; a record gives id plus its fields without "conditions" |
| LayerConversion.RowsFacts | gcbmwalltowall/converter/layerconverter.py:80-90 | The rows are built exactly when every key parses as an integer; otherwise the first bad key is reported |
| LayerConversion.BuildAttributeTable | gcbmwalltowall/converter/layerconverter.py:75-90 | The loop computes the attribute table, none for a layer without attributes |
| LayerConversion.RemapEntriesFacts | gcbmwalltowall/converter/layerconverter.py:118-124 | Each attribute's pixel maps to its land class code, 32767 when unknown; other pixels keep the nodata remap |
| LayerConversion.DelegatingHandles | gcbmwalltowall/converter/layerconverter.py:39-40 | A delegating converter handles a layer exactly when some subconverter does |
| LayerConversion.DefaultAndLandClassComplementary | gcbmwalltowall/converter/layerconverter.py:56-58 | Every layer is handled by exactly one of the default and land class converters |
| LayerConversion.DelegatingConcatenates | gcbmwalltowall/converter/layerconverter.py:42-47 | The delegating result is the subconverters' results in order |
| LayerConversion.DefaultOutputsFacts | gcbmwalltowall/converter/layerconverter.py:60-73 | One output per layer, renamed through the remappings, with its attribute table and tags |
| LayerConversion.LandClassFirstOnly | gcbmwalltowall/converter/layerconverter.py:101-144 | Only the first land class layer is converted, to one "land_class" layer with its pixel remapping |
| LayerConversion.ConvertSeesHandled | gcbmwalltowall/converter/layerconverter.py:26-27 | convert passes on exactly the handled layers |
| LayerConversion.ProjectConverterHandlesAll | gcbmwalltowall/converter/projectconverter.py:91-104 | The project's converter handles every layer, each through exactly one subconverter |
| LayerConversion.Convert | gcbmwalltowall/converter/layerconverter.py:26-27 | The method computes the conversion |
| LayerConversion.ConvertInternal | gcbmwalltowall/converter/layerconverter.py:42-47 | The method computes the converter's own conversion |
| LayerConversion.ConvertDefault | gcbmwalltowall/converter/layerconverter.py:60-73 | The loop computes the default outputs |
| LastPassDisturbance.HandlesLayer | gcbmwalltowall/converter/disturbance/lastpassdisturbancelayerconverter.py:26-28 | A layer is handled exactly when it is tagged last_pass_disturbance |
| LastPassDisturbance.ResolveEntries | gcbmwalltowall/converter/disturbance/lastpassdisturbancelayerconverter.py:96-99 | One event per attribute entry |
| LastPassDisturbance.ResolveLayers | gcbmwalltowall/converter/disturbance/lastpassdisturbancelayerconverter.py:35 | One event list per layer |
| LastPassDisturbance.EventAtLastEntry | gcbmwalltowall/converter/disturbance/lastpassdisturbancelayerconverter.py:96-99 | A pixel takes the year and code of the last entry for its value, -1 and 0 without one |
| LastPassDisturbance.LatestWins | gcbmwalltowall/converter/disturbance/lastpassdisturbancelayerconverter.py:101-103 | The kept year is the largest over the layers, with the code of the first layer that has it; no event gives code 0 |
| LastPassDisturbance.ChunkSpec | gcbmwalltowall/converter/disturbance/lastpassdisturbancelayerconverter.py:84-105 | A chunk yields one code per pixel |
| LastPassDisturbance.LatestTypes | gcbmwalltowall/converter/disturbance/lastpassdisturbancelayerconverter.py:101-105 | One code per pixel of the chunk |
| LastPassDisturbance.ChunkPixel | gcbmwalltowall/converter/disturbance/lastpassdisturbancelayerconverter.py:93-97 | Flat position p = i * width + j of the chunk holds each raster's pixel (yOff + i, xOff + j) |
| LastPassDisturbance.MarkEvent | gcbmwalltowall/converter/disturbance/lastpassdisturbancelayerconverter.py:97-99 | Pixels with the entry's value take its year and code; the others are unchanged |
| LastPassDisturbance.KeepLatest | gcbmwalltowall/converter/disturbance/lastpassdisturbancelayerconverter.py:101-103 | A pixel is replaced only by a strictly later year |
| LastPassDisturbance.LayerEvents | gcbmwalltowall/converter/disturbance/lastpassdisturbancelayerconverter.py:94-99 | One layer's arrays hold each pixel's last event, or the layer's resolution error |
| LastPassDisturbance.LatestStep | gcbmwalltowall/converter/disturbance/lastpassdisturbancelayerconverter.py:101-103 | One more layer replaces the latest event only with a strictly later year |
| LastPassDisturbance.ReadChunk | gcbmwalltowall/converter/disturbance/lastpassdisturbancelayerconverter.py:93 | The chunk of one raster, flattened |
| LastPassDisturbance.AddLayer | gcbmwalltowall/converter/disturbance/lastpassdisturbancelayerconverter.py:92-103 | After one more layer the arrays hold each pixel's latest event over the layers so far |
| LastPassDisturbance.ProcessLayers | gcbmwalltowall/converter/disturbance/lastpassdisturbancelayerconverter.py:92-103 | After all layers the type array holds each pixel's latest disturbance code |
| LastPassDisturbance.ProcessChunk | gcbmwalltowall/converter/disturbance/lastpassdisturbancelayerconverter.py:84-105 | The method computes the chunk specification |
| LastPassDisturbance.WriteChunk | gcbmwalltowall/converter/disturbance/lastpassdisturbancelayerconverter.py:75-78 | The chunk's cells are written into its window of the grid; everything else is unchanged |
| LastPassDisturbance.LastPassChunkOrderFree | gcbmwalltowall/converter/disturbance/lastpassdisturbancelayerconverter.py:66-78 | Every covered pixel ends with its latest code whichever chunk wrote it last; an uncovered pixel stays 0 |
| LastPassDisturbance.CoveredCell | gcbmwalltowall/converter/disturbance/lastpassdisturbancelayerconverter.py:75-78 | A chunk's result at a covered pixel is that pixel's latest code |
| LastPassDisturbance.AssembledIsLastPass | gcbmwalltowall/converter/disturbance/lastpassdisturbancelayerconverter.py:57-78 | Writing all chunk results gives the last-pass grid |
| LastPassDisturbance.ConvertInternal | gcbmwalltowall/converter/disturbance/lastpassdisturbancelayerconverter.py:30-82 | No layers give no output; an error exactly when some layer fails to resolve and there is a chunk; otherwise one output layer and a grid of each pixel's latest code |
| RasterWindows.Window | gcbmwalltowall/util/gdalhelpers.py:186 | A window has ySize rows of xSize pixels |
| RasterWindows.ReadDataset | gcbmwalltowall/util/gdalhelpers.py:139-197 | The read succeeds exactly without bounds or with a window inside the raster; the four checks fail in order; the data are the window's pixels and the bounds are reported |
| RasterWindows.FlattenAt | gcbmwalltowall/converter/disturbance/lastpassdisturbancelayerconverter.py:97 | Flattening rows of equal width puts cell (i, j) at i * width + j |

## Left out

- File-system scanning (glob, fnmatch over geodatabase layers, `exists`) is given as inputs: the matched files, their sublayers and whether directories exist.
- GDAL, OGR, pandas and CSV reading are inputs: attribute tables, lookup CSVs, pixel rows, distinct values per attribute.
- mojadata and arrow_space objects (Layer, Attribute, ValueFilter, RasterInputLayer) are modelled as plain records.
- `uuid4` is an oracle `newId` from row index to text.
- `sys.exit` for a missing pattern directory becomes the error `PatternDirectoryMissing`.
- ftfy encoding repair of attribute values is not modelled; values are taken as already decoded.
- The process pool in `_extract_attribute_table` and `ProcessPoolExecutor` in the last-pass converter are not modelled.
- The order of `as_completed` is not modelled: chunks are written in submission order. `LastPassChunkOrderFree` shows the final grid does not depend on that order.
- Python set iteration order is not modelled: sets are iterated in table order.
- Python `int()` is modelled on an optional minus sign followed by ASCII digits. Surrounding whitespace, `+`, underscores and non-ASCII digits are not accepted.
- Floating-point values other than NaN are not modelled.
- Integer widths are not modelled: int32 years and codes, the int16 cast in the land-class remap.
- Two-level pivot columns only; a MultiIndex with more than two levels is not modelled.
- `get_memory_limited_raster_chunks` is not part of this model. The chunks are an input, required to lie within every layer's raster. `read_dataset`'s error for a chunk outside a layer is therefore not reached in `LastPassDisturbance.ConvertInternal`.
- `create_empty_raster`, `write_output` and the output raster's nodata and georeferencing are not modelled. The output is the grid itself.
- The disturbance types normally read from the SQLite database by `_load_disturbance_types` are a map parameter.
- `GDALHelper.calc` and `np.select` applying the land-class remap to pixels are not modelled. The remap table is the output.
- GDALHelperDataset's `nodata`, `geo_transform` and `projection` are not modelled.
- `rasterbound.py` is not part of this model. A given window is assumed truthy, so `if bounds:` is the same as `bounds is not None`.
- pandas `EmptyDataError` on an empty lookup CSV is not modelled.
- `csv.DictReader`'s extra-field key (`restkey`) for over-long records is not modelled.
- `_format_transition_undisturbed`, `Project.tile`, `create_input_database`, `run_rollback` and the rest of the project converter lie outside the modelled core.
- LastPassDisturbance.ResolveEntries: a `disturbance_type` that is present but not text is reported as `MissingKey("disturbance_type")`. Python raises a TypeError or a KeyError there, depending on the value.
- The `\d` of the year pattern (gcbmwalltowall/component/disturbance.py:367) also matches non-ASCII decimal digits; `FourDigitsAt` accepts ASCII digits only.
- The `raw` option the vector branch sets for its tiler layers (gcbmwalltowall/component/disturbance.py:219) is not modelled; tiler layer keyword options are not part of the descriptors.
- ConvertLike: a NaN first value (a float column) refuses every filter value with TypeMismatch, where Python's `float()` would convert numbers and numeric text; floats are not modelled.
- ParseFilterValue: the range text is read as two integers separated by one comma, each with optional spaces. The source evaluates it as a Python expression (gcbmwalltowall/component/disturbance.py:362), which also yields a range for texts the model refuses with `UnparseableRange`: a trailing comma `"(1990,2000,)"`, tabs `"(1990,\t2000)"`, a plus sign `"(+1990, 2000)"`, other integer literals `"(0x7C6, 2000)"`, and arithmetic `"(1990+1, 2000)"`. The different exceptions Python raises for other texts (NameError, SyntaxError, ValueError, TypeError) are all reported as `UnparseableRange`.
- LastPassDisturbance.HandlesLayer: `tags` present with the value None raises a TypeError in Python (gcbmwalltowall/converter/disturbance/lastpassdisturbancelayerconverter.py:27-28); the model has no None value inside `tags` and treats it as missing, so the layer is not handled.
- The last-pass converter reads a layer's attribute table from `metadata["attributes"]` (gcbmwalltowall/converter/disturbance/lastpassdisturbancelayerconverter.py:35,96), while the layer converters read `tiler_metadata` (gcbmwalltowall/converter/layerconverter.py:76,118,123). The model takes the two to be the same mapping and holds it in one field, `PreparedLayer.attributes`. The `PreparedLayer` class itself comes from arrow_space, which is not part of this model; the record of that name here holds only the fields the converters read.
- Dict keys that compare equal in Python but differ as values (`1` and `True`, repeated NaN) are not told apart.

## Findings

| source | as written | input that shows it | evidently intended | confidence | as-written member | corrected member |
|---|---|---|---|---|---|---|
| gcbmwalltowall/component/disturbance.py:261-277 | When splitting a vector, only a list-valued filter narrows a split attribute's values. A scalar filter on that attribute is ignored, and the filter is then dropped from the split layers' filters, because it is a split attribute. | Year column with values 2004 and 2005, filter `year: 2005`: two split layers, one per year, so 2004 is still tiled | A scalar filter narrows the split values to the one value | not executed | DisturbanceLayers.ScalarSplitFilterDropped | DisturbanceLayers.ScalarSplitFilterApplied |
