/** The last-pass disturbance converter: for each pixel, the disturbance type
    of the most recent disturbance among the layers tagged
    "last_pass_disturbance", computed chunk by chunk and assembled into one
    raster (0 where nothing happened). Each layer's raster is given as its
    pixel values; the chunks are given, as the chunking function produced
    them. */
module LastPassDisturbance {
  import opened Common
  import opened LayerConversion
  import opened RasterWindows

  const LastPassTag := "last_pass_disturbance"

  /** handles: the layer is tagged; missing tags count as none. */
  predicate HandlesLayer(layer: PreparedLayer): (r: bool)
    ensures layer.tags.None? ==> !r
    ensures layer.tags.Some? ==> (r <==> exists i :: 0 <= i < |layer.tags.value| && layer.tags.value[i] == LastPassTag)
  {
    layer.tags.Some? && LastPassTag in layer.tags.value
  }

  // ---------------------------------------------------------------------------
  // Resolving attribute entries

  /** An attribute entry resolved: the pixel value it covers, its year and its
      disturbance type code. */
  datatype Event = Event(pixel: int, year: int, code: int)

  /** int() of a metadata value. */
  function IntOf(v: Value): Result<int>
  {
    match v
    case IntV(i) => Ok(i)
    case StrV(s) => if ParseInt(s).Some? then Ok(ParseInt(s).value) else Err(NotAnInteger(s))
    case _ => Err(TypeMismatch)
  }

  /** One entry: its key as an integer, then its "year" as an integer, then
      its "disturbance_type" looked up among the known types, in that order. */
  function ResolveEntry(types: map<string, int>, entry: (string, AttributeValue)): Result<Event>
  {
    var (key, value) := entry;
    if ParseInt(key).None? then Err(NotAnInteger(key))
    else if value.Scalar? then Err(TypeMismatch)
    else
      match Get(value.fields, "year")
      case None => Err(MissingKey("year"))
      case Some(y) =>
        match IntOf(y)
        case Err(e) => Err(e)
        case Ok(year) =>
          var dt := Get(value.fields, "disturbance_type");
          if dt.None? || !dt.value.StrV? then Err(MissingKey("disturbance_type"))
          else if dt.value.s in types then Ok(Event(ParseInt(key).value, year, types[dt.value.s]))
          else Err(MissingKey(dt.value.s))
  }

  /** The entries of one layer resolved in order; the first failure wins. */
  function ResolveEntries(types: map<string, int>, entries: seq<(string, AttributeValue)>): (r: Result<seq<Event>>)
    ensures r.Ok? ==> |r.value| == |entries|
    decreases |entries|
  {
    if entries == [] then Ok([])
    else
      match ResolveEntries(types, entries[..|entries| - 1])
      case Err(e) => Err(e)
      case Ok(events) =>
        match ResolveEntry(types, entries[|entries| - 1])
        case Err(e) => Err(e)
        case Ok(ev) => Ok(events + [ev])
  }

  lemma {:induction false} ResolveEntriesErrExtends(types: map<string, int>, entries: seq<(string, AttributeValue)>, n: nat)
    requires n <= |entries| && ResolveEntries(types, entries[..n]).Err?
    ensures ResolveEntries(types, entries) == ResolveEntries(types, entries[..n])
    decreases |entries|
  {
    if n == |entries| {
      assert entries[..n] == entries;
    } else {
      assert entries[..|entries| - 1][..n] == entries[..n];
      ResolveEntriesErrExtends(types, entries[..|entries| - 1], n);
    }
  }

  /** The events of every layer, in layer order; a layer without an
      attribute table is a KeyError. */
  function ResolveLayers(types: map<string, int>, layers: seq<PreparedLayer>): (r: Result<seq<seq<Event>>>)
    ensures r.Ok? ==> |r.value| == |layers|
    decreases |layers|
  {
    if layers == [] then Ok([])
    else
      match ResolveLayers(types, layers[..|layers| - 1])
      case Err(e) => Err(e)
      case Ok(all) =>
        var l := layers[|layers| - 1];
        if l.attributes.None? then Err(MissingKey("attributes"))
        else
          match ResolveEntries(types, l.attributes.value)
          case Err(e) => Err(e)
          case Ok(events) => Ok(all + [events])
  }

  lemma {:induction false} ResolveLayersErrExtends(types: map<string, int>, layers: seq<PreparedLayer>, n: nat)
    requires n <= |layers| && ResolveLayers(types, layers[..n]).Err?
    ensures ResolveLayers(types, layers) == ResolveLayers(types, layers[..n])
    decreases |layers|
  {
    if n == |layers| {
      assert layers[..n] == layers;
    } else {
      assert layers[..|layers| - 1][..n] == layers[..n];
      ResolveLayersErrExtends(types, layers[..|layers| - 1], n);
    }
  }

  // ---------------------------------------------------------------------------
  // Per pixel

  /** A layer's (year, type) at a pixel value: the last entry for that value,
      or (-1, 0) when no entry covers it. */
  function EventAt(events: seq<Event>, px: int): (int, int)
    decreases |events|
  {
    if events == [] then (-1, 0)
    else if events[|events| - 1].pixel == px then (events[|events| - 1].year, events[|events| - 1].code)
    else EventAt(events[..|events| - 1], px)
  }

  /** A pixel takes the year and type of the last entry for its value, and
      (-1, 0) when no entry has its value. */
  lemma {:induction false} EventAtLastEntry(events: seq<Event>, px: int)
    ensures (forall k :: 0 <= k < |events| ==> events[k].pixel != px) ==> EventAt(events, px) == (-1, 0)
    ensures forall k :: 0 <= k < |events| && events[k].pixel == px
                        && (forall j :: k < j < |events| ==> events[j].pixel != px)
                        ==> EventAt(events, px) == (events[k].year, events[k].code)
    decreases |events|
  {
    if events != [] {
      var prefix := events[..|events| - 1];
      EventAtLastEntry(prefix, px);
      assert forall k :: 0 <= k < |prefix| ==> prefix[k] == events[k];
    }
  }

  /** The (year, type) of a pixel after the given layers, whose values at the
      pixel are `values`: a layer replaces the current pair only when its
      year is strictly greater. */
  function LatestAt(layers: seq<seq<Event>>, values: seq<int>): (int, int)
    requires |layers| <= |values|
    decreases |layers|
  {
    if layers == [] then (-1, 0)
    else
      var before := LatestAt(layers[..|layers| - 1], values);
      var here := EventAt(layers[|layers| - 1], values[|layers| - 1]);
      if here.0 > before.0 then here else before
  }

  /** The result is the type of the layer with the greatest year, the earliest
      such layer on a tie; a pixel no layer dates (all years -1 or less) stays 0. */
  lemma {:induction false} LatestWins(layers: seq<seq<Event>>, values: seq<int>)
    requires |layers| <= |values|
    ensures var (year, code) := LatestAt(layers, values);
      year >= -1 && (forall j :: 0 <= j < |layers| ==> EventAt(layers[j], values[j]).0 <= year)
      && (year == -1 ==> code == 0)
      && (year > -1 ==>
            exists j :: 0 <= j < |layers| && EventAt(layers[j], values[j]) == (year, code)
                        && forall i :: 0 <= i < j ==> EventAt(layers[i], values[i]).0 < year)
    decreases |layers|
  {
    if layers != [] {
      var n := |layers|;
      var prefix := layers[..n - 1];
      LatestWins(prefix, values);
      assert forall i :: 0 <= i < n - 1 ==> prefix[i] == layers[i];
      var before := LatestAt(prefix, values);
      var here := EventAt(layers[n - 1], values[n - 1]);
      if here.0 > before.0 {
        assert forall i :: 0 <= i < n - 1 ==> EventAt(layers[i], values[i]).0 < here.0;
      }
    }
  }

  // ---------------------------------------------------------------------------
  // One chunk

  /** The chunk can be read from every layer's raster. */
  predicate ChunkFits(rasters: seq<Raster>, chunk: RasterBound)
  {
    1 <= chunk.xSize && 1 <= chunk.ySize && 0 <= chunk.xOff && 0 <= chunk.yOff
    && forall j :: 0 <= j < |rasters| ==> WellFormed(rasters[j]) && Inside(chunk, rasters[j].width, rasters[j].height)
  }

  /** Each layer's pixels over the chunk, flattened row by row. */
  function ChunkData(rasters: seq<Raster>, chunk: RasterBound): (data: seq<seq<int>>)
    requires ChunkFits(rasters, chunk)
    ensures |data| == |rasters|
  {
    seq(|rasters|, j requires 0 <= j < |rasters| && ChunkFits(rasters, chunk) =>
      Flatten(Window(rasters[j], chunk)))
  }

  /** Each layer contributes ySize * xSize pixels to the chunk. */
  lemma ChunkDataShape(rasters: seq<Raster>, chunk: RasterBound)
    requires ChunkFits(rasters, chunk)
    ensures forall j :: 0 <= j < |rasters| ==> |ChunkData(rasters, chunk)[j]| == chunk.ySize * chunk.xSize
  {
    forall j | 0 <= j < |rasters|
      ensures |ChunkData(rasters, chunk)[j]| == chunk.ySize * chunk.xSize
    {
      FlattenLength(Window(rasters[j], chunk), chunk.xSize);
    }
  }

  /** Every layer's value at flat position p of the chunk. */
  function PixelColumn(data: seq<seq<int>>, p: nat): (values: seq<int>)
    requires forall j :: 0 <= j < |data| ==> p < |data[j]|
    ensures |values| == |data|
  {
    seq(|data|, j requires 0 <= j < |data| => data[j][p])
  }

  /** Every layer's value at pixel (y, x) of the full rasters. */
  function PixelValues(rasters: seq<Raster>, y: nat, x: nat): (values: seq<int>)
    requires forall j :: 0 <= j < |rasters| ==> WellFormed(rasters[j]) && y < rasters[j].height && x < rasters[j].width
    ensures |values| == |rasters|
  {
    seq(|rasters|, j requires 0 <= j < |rasters| && WellFormed(rasters[j]) && y < rasters[j].height && x < rasters[j].width
      => rasters[j].pixels[y][x])
  }

  /** _process_chunk: the type of the most recent disturbance of each pixel
      of the chunk, flattened; a failure to resolve the attributes is the
      error of the whole chunk. */
  function ChunkSpec(types: map<string, int>, layers: seq<PreparedLayer>, rasters: seq<Raster>, chunk: RasterBound): (r: Result<seq<int>>)
    requires |rasters| == |layers| && ChunkFits(rasters, chunk)
    ensures r.Ok? ==> |r.value| == chunk.ySize * chunk.xSize
  {
    match ResolveLayers(types, layers)
    case Err(e) => Err(e)
    case Ok(events) =>
      ChunkDataShape(rasters, chunk);
      Ok(LatestTypes(events, ChunkData(rasters, chunk), chunk.ySize * chunk.xSize))
  }

  /** The latest type at every flat position of the chunk. */
  function LatestTypes(events: seq<seq<Event>>, data: seq<seq<int>>, size: nat): (r: seq<int>)
    requires |events| <= |data| && forall j :: 0 <= j < |data| ==> |data[j]| == size
    ensures |r| == size
  {
    seq(size, p requires 0 <= p < size => LatestAt(events, PixelColumn(data, p)).1)
  }

  /** Position p of the flattened chunk is pixel (yOff + i, xOff + j) of
      every layer's raster. */
  lemma ChunkPixel(rasters: seq<Raster>, chunk: RasterBound, i: nat, j: nat, p: nat)
    requires ChunkFits(rasters, chunk) && i < chunk.ySize && j < chunk.xSize
    requires p == i * chunk.xSize + j
    ensures p < chunk.ySize * chunk.xSize
    ensures (ChunkDataShape(rasters, chunk);
             PixelColumn(ChunkData(rasters, chunk), p) == PixelValues(rasters, chunk.yOff + i, chunk.xOff + j))
  {
    MulStep(i, j, chunk.xSize, chunk.ySize);
    ChunkDataShape(rasters, chunk);
    var data := ChunkData(rasters, chunk);
    forall k | 0 <= k < |rasters|
      ensures data[k][p] == rasters[k].pixels[chunk.yOff + i][chunk.xOff + j]
    {
      var rows := Window(rasters[k], chunk);
      FlattenAt(rows, chunk.xSize, i, j);
    }
  }

  /** info_year[where data == key] = year, and the same for the type. */
  method MarkEvent(data: seq<int>, ev: Event, infoYear: array<int>, infoDist: array<int>)
    requires infoYear.Length == |data| && infoDist.Length == |data| && infoYear != infoDist
    modifies infoYear, infoDist
    ensures forall p :: 0 <= p < |data| ==>
      (infoYear[p], infoDist[p]) == if data[p] == ev.pixel then (ev.year, ev.code) else (old(infoYear[p]), old(infoDist[p]))
  {
    for p := 0 to |data|
      invariant forall q :: 0 <= q < |data| ==>
        (infoYear[q], infoDist[q]) == if q < p && data[q] == ev.pixel then (ev.year, ev.code) else (old(infoYear[q]), old(infoDist[q]))
    {
      if data[p] == ev.pixel {
        infoYear[p] := ev.year;
        infoDist[p] := ev.code;
      }
    }
  }

  /** year[info_year > year] = info_year, and the type with it. */
  method KeepLatest(year: array<int>, dist: array<int>, infoYear: seq<int>, infoDist: seq<int>)
    requires year.Length == dist.Length == |infoYear| == |infoDist| && year != dist
    modifies year, dist
    ensures forall p :: 0 <= p < year.Length ==>
      (year[p], dist[p]) == if infoYear[p] > old(year[p]) then (infoYear[p], infoDist[p]) else (old(year[p]), old(dist[p]))
  {
    for p := 0 to year.Length
      invariant forall q :: 0 <= q < year.Length ==>
        (year[q], dist[q]) == if q < p && infoYear[q] > old(year[q]) then (infoYear[q], infoDist[q]) else (old(year[q]), old(dist[q]))
    {
      if infoYear[p] > year[p] {
        year[p] := infoYear[p];
        dist[p] := infoDist[p];
      }
    }
  }

  /** One layer's (year, type) per pixel, entry by entry. */
  method LayerEvents(types: map<string, int>, entries: seq<(string, AttributeValue)>, data: seq<int>)
    returns (r: Result<(seq<int>, seq<int>)>)
    ensures r.Ok? <==> ResolveEntries(types, entries).Ok?
    ensures r.Err? ==> r.error == ResolveEntries(types, entries).error
    ensures r.Ok? ==> (|r.value.0| == |data| && |r.value.1| == |data|
      && forall p :: 0 <= p < |data| ==>
           (r.value.0[p], r.value.1[p]) == EventAt(ResolveEntries(types, entries).value, data[p]))
  {
    var infoYear := new int[|data|](_ => -1);
    var infoDist := new int[|data|](_ => 0);
    ghost var events: seq<Event> := [];
    for k := 0 to |entries|
      invariant ResolveEntries(types, entries[..k]) == Ok(events)
      invariant forall p :: 0 <= p < |data| ==> (infoYear[p], infoDist[p]) == EventAt(events, data[p])
    {
      assert entries[..k + 1][..k] == entries[..k];
      var ev := ResolveEntry(types, entries[k]);
      if ev.Err? {
        ResolveEntriesErrExtends(types, entries, k + 1);
        return Err(ev.error);
      }
      MarkEvent(data, ev.value, infoYear, infoDist);
      events := events + [ev.value];
    }
    assert entries[..|entries|] == entries;
    return Ok((infoYear[..], infoDist[..]));
  }

  /** Adding a layer compares its event with the latest so far. */
  lemma LatestStep(events: seq<seq<Event>>, e: seq<Event>, values: seq<int>)
    requires |events| < |values|
    ensures LatestAt(events + [e], values)
      == (var here := EventAt(e, values[|events|]);
          if here.0 > LatestAt(events, values).0 then here else LatestAt(events, values))
  {
    assert (events + [e])[..|events|] == events;
  }

  /** read_dataset over the chunk, flattened. */
  method ReadChunk(rasters: seq<Raster>, chunk: RasterBound, j: nat) returns (flat: seq<int>)
    requires ChunkFits(rasters, chunk) && j < |rasters|
    ensures flat == ChunkData(rasters, chunk)[j]
  {
    var ds := ReadDataset(rasters[j], Some(chunk));
    flat := Flatten(ds.value.data);
  }

  /** One pass of _process_chunk's layer loop: the layer's entries are
      marked and its later years kept. */
  method AddLayer(types: map<string, int>, entries: seq<(string, AttributeValue)>, flat: seq<int>,
                  year: array<int>, dist: array<int>, ghost events: seq<seq<Event>>, ghost data: seq<seq<int>>)
    returns (r: Result<()>)
    requires year != dist && year.Length == dist.Length == |flat|
    requires |events| < |data| && data[|events|] == flat
    requires forall j :: 0 <= j < |data| ==> |data[j]| == |flat|
    requires forall p :: 0 <= p < |flat| ==> (year[p], dist[p]) == LatestAt(events, PixelColumn(data, p))
    modifies year, dist
    ensures r.Err? <==> ResolveEntries(types, entries).Err?
    ensures r.Err? ==> r.error == ResolveEntries(types, entries).error
    ensures r.Ok? ==> forall p :: 0 <= p < |flat| ==>
      (year[p], dist[p]) == LatestAt(events + [ResolveEntries(types, entries).value], PixelColumn(data, p))
  {
    var layer := LayerEvents(types, entries, flat);
    if layer.Err? {
      return Err(layer.error);
    }
    KeepLatest(year, dist, layer.value.0, layer.value.1);
    forall p | 0 <= p < |flat|
      ensures (year[p], dist[p]) == LatestAt(events + [ResolveEntries(types, entries).value], PixelColumn(data, p))
    {
      LatestStep(events, ResolveEntries(types, entries).value, PixelColumn(data, p));
    }
    return Ok(());
  }

  /** One more layer extends the resolved events or fails. */
  lemma ResolveLayersNext(types: map<string, int>, layers: seq<PreparedLayer>, j: nat)
    requires j < |layers| && ResolveLayers(types, layers[..j]).Ok?
    ensures ResolveLayers(types, layers[..j + 1]) ==
      if layers[j].attributes.None? then Err(MissingKey("attributes"))
      else
        match ResolveEntries(types, layers[j].attributes.value)
        case Err(e) => Err(e)
        case Ok(ev) => Ok(ResolveLayers(types, layers[..j]).value + [ev])
  {
    assert layers[..j + 1][..j] == layers[..j];
  }

  /** The type array holding each pixel's latest type is LatestTypes. */
  lemma TypesOfPixels(events: seq<seq<Event>>, data: seq<seq<int>>, size: nat, years: seq<int>, types: seq<int>)
    requires |events| <= |data| && forall k :: 0 <= k < |data| ==> |data[k]| == size
    requires |years| == size && |types| == size
    requires forall p :: 0 <= p < size ==> (years[p], types[p]) == LatestAt(events, PixelColumn(data, p))
    ensures types == LatestTypes(events, data, size)
  {
  }

  /** _process_chunk's loop over the layers: each layer's raster is read
      over the chunk, its attribute entries marked, and the later years kept. */
  method ProcessLayers(types: map<string, int>, layers: seq<PreparedLayer>, rasters: seq<Raster>, chunk: RasterBound,
                       year: array<int>, dist: array<int>)
    returns (r: Result<()>)
    requires |rasters| == |layers| && ChunkFits(rasters, chunk)
    requires year != dist && year.Length == dist.Length == chunk.ySize * chunk.xSize
    requires forall p :: 0 <= p < year.Length ==> year[p] == -1 && dist[p] == 0
    modifies year, dist
    ensures r.Err? <==> ResolveLayers(types, layers).Err?
    ensures r.Err? ==> r.error == ResolveLayers(types, layers).error
    ensures r.Ok? ==> (ChunkDataShape(rasters, chunk);
      dist[..] == LatestTypes(ResolveLayers(types, layers).value, ChunkData(rasters, chunk), year.Length))
  {
    ghost var data := ChunkData(rasters, chunk);
    ChunkDataShape(rasters, chunk);
    ghost var events: seq<seq<Event>> := [];
    for j := 0 to |layers|
      invariant ResolveLayers(types, layers[..j]) == Ok(events) && |events| == j
      invariant forall p :: 0 <= p < year.Length ==> (year[p], dist[p]) == LatestAt(events, PixelColumn(data, p))
    {
      ResolveLayersNext(types, layers, j);
      var flat := ReadChunk(rasters, chunk, j);
      if layers[j].attributes.None? {
        ResolveLayersErrExtends(types, layers, j + 1);
        return Err(MissingKey("attributes"));
      }
      var added := AddLayer(types, layers[j].attributes.value, flat, year, dist, events, data);
      if added.Err? {
        ResolveLayersErrExtends(types, layers, j + 1);
        return Err(added.error);
      }
      events := events + [ResolveEntries(types, layers[j].attributes.value).value];
    }
    assert layers[..|layers|] == layers;
    TypesOfPixels(events, data, year.Length, year[..], dist[..]);
    return Ok(());
  }

  /** _process_chunk: the latest disturbance type of every pixel of the chunk. */
  method ProcessChunk(types: map<string, int>, layers: seq<PreparedLayer>, rasters: seq<Raster>, chunk: RasterBound)
    returns (r: Result<seq<int>>)
    requires |rasters| == |layers| && ChunkFits(rasters, chunk)
    ensures r == ChunkSpec(types, layers, rasters, chunk)
  {
    var size := chunk.ySize * chunk.xSize;
    var year := new int[size](_ => -1);
    var dist := new int[size](_ => 0);
    var done := ProcessLayers(types, layers, rasters, chunk, year, dist);
    if done.Err? {
      return Err(done.error);
    }
    r := Ok(dist[..]);
  }

  // ---------------------------------------------------------------------------
  // The whole raster

  /** Every chunk's shape holds its data. */
  ghost predicate ResultsShaped(chunks: seq<RasterBound>, results: seq<seq<int>>)
  {
    |results| == |chunks|
    && forall c :: 0 <= c < |chunks| ==>
         0 <= chunks[c].xSize && 0 <= chunks[c].ySize && |results[c]| == chunks[c].ySize * chunks[c].xSize
  }

  /** The value a chunk's data holds for pixel (y, x) of the full raster. */
  function ChunkCell(b: RasterBound, data: seq<int>, y: int, x: int): int
    requires 0 <= b.xSize && 0 <= b.ySize && |data| == b.ySize * b.xSize && Covers(b, y, x)
  {
    MulStep(y - b.yOff, x - b.xOff, b.xSize, b.ySize);
    data[(y - b.yOff) * b.xSize + (x - b.xOff)]
  }

  /** A pixel of the full array after the chunks were written in turn: the
      last chunk covering it, or the initial 0 when none does. */
  function AssembledAt(chunks: seq<RasterBound>, results: seq<seq<int>>, y: int, x: int): int
    requires ResultsShaped(chunks, results)
    decreases |chunks|
  {
    if chunks == [] then 0
    else
      var n := |chunks| - 1;
      if Covers(chunks[n], y, x) then ChunkCell(chunks[n], results[n], y, x)
      else AssembledAt(chunks[..n], results[..n], y, x)
  }

  /** A slice assignment: the chunk's rows land at its offset, every other
      cell keeps its value. */
  method WriteChunk(grid: array2<int>, b: RasterBound, data: seq<int>)
    requires Inside(b, grid.Length1, grid.Length0) && |data| == b.ySize * b.xSize
    modifies grid
    ensures forall y, x :: 0 <= y < grid.Length0 && 0 <= x < grid.Length1 ==>
      grid[y, x] == if Covers(b, y, x) then ChunkCell(b, data, y, x) else old(grid[y, x])
  {
    for i := 0 to b.ySize
      invariant forall y, x :: 0 <= y < grid.Length0 && 0 <= x < grid.Length1 ==>
        grid[y, x] == if Covers(b, y, x) && y < b.yOff + i then ChunkCell(b, data, y, x) else old(grid[y, x])
    {
      for j := 0 to b.xSize
        invariant forall y, x :: 0 <= y < grid.Length0 && 0 <= x < grid.Length1 ==>
          grid[y, x] == if Covers(b, y, x) && (y < b.yOff + i || (y == b.yOff + i && x < b.xOff + j))
                        then ChunkCell(b, data, y, x) else old(grid[y, x])
      {
        MulStep(i, j, b.xSize, b.ySize);
        grid[b.yOff + i, b.xOff + j] := data[i * b.xSize + j];
      }
    }
  }

  /** The last-pass raster from the pixel values alone: the latest type at
      each pixel covered by a chunk, 0 elsewhere. */
  function LastPassAt(events: seq<seq<Event>>, rasters: seq<Raster>, chunks: seq<RasterBound>, y: int, x: int): int
    requires |events| <= |rasters|
    requires forall c :: 0 <= c < |chunks| ==> ChunkFits(rasters, chunks[c])
    decreases |chunks|
  {
    if chunks == [] then 0
    else
      var n := |chunks| - 1;
      assert ChunkFits(rasters, chunks[n]);
      if Covers(chunks[n], y, x) then LatestAt(events, PixelValues(rasters, y, x)).1
      else LastPassAt(events, rasters, chunks[..n], y, x)
  }

  /** The order the chunks are written in does not matter: a covered pixel
      gets its latest type from whichever chunk covers it, an uncovered one
      stays 0. */
  lemma {:induction false} LastPassChunkOrderFree(events: seq<seq<Event>>, rasters: seq<Raster>, chunks: seq<RasterBound>, y: int, x: int)
    requires |events| <= |rasters|
    requires forall c :: 0 <= c < |chunks| ==> ChunkFits(rasters, chunks[c])
    ensures (forall c :: 0 <= c < |chunks| ==> !Covers(chunks[c], y, x)) ==> LastPassAt(events, rasters, chunks, y, x) == 0
    ensures forall c :: 0 <= c < |chunks| && Covers(chunks[c], y, x) ==>
      LastPassAt(events, rasters, chunks, y, x) == LatestAt(events, PixelValues(rasters, y, x)).1
    decreases |chunks|
  {
    if chunks != [] {
      var n := |chunks| - 1;
      LastPassChunkOrderFree(events, rasters, chunks[..n], y, x);
      assert forall c :: 0 <= c < n ==> chunks[..n][c] == chunks[c];
    }
  }

  /** A chunk's result holds, for each pixel it covers, that pixel's latest
      type. */
  lemma CoveredCell(events: seq<seq<Event>>, rasters: seq<Raster>, b: RasterBound, result: seq<int>, i: nat, j: nat)
    requires |events| <= |rasters| && ChunkFits(rasters, b) && i < b.ySize && j < b.xSize
    requires (ChunkDataShape(rasters, b);
              result == LatestTypes(events, ChunkData(rasters, b), b.ySize * b.xSize))
    ensures ChunkCell(b, result, b.yOff + i, b.xOff + j) == LatestAt(events, PixelValues(rasters, b.yOff + i, b.xOff + j)).1
  {
    ChunkDataShape(rasters, b);
    var data := ChunkData(rasters, b);
    var p := CellIndex(b, result, i, j);
    var column := PixelColumn(data, p);
    ResultAt(events, data, b.ySize * b.xSize, result, p);
    assert result[p] == LatestAt(events, column).1;
    ChunkPixel(rasters, b, i, j, p);
    assert LatestAt(events, column) == LatestAt(events, PixelValues(rasters, b.yOff + i, b.xOff + j));
  }

  /** Pixel (yOff + i, xOff + j) is flat position i * xSize + j of the chunk. */
  lemma CellIndex(b: RasterBound, result: seq<int>, i: nat, j: nat) returns (p: nat)
    requires 1 <= b.xSize && 1 <= b.ySize && i < b.ySize && j < b.xSize && |result| == b.ySize * b.xSize
    ensures p == i * b.xSize + j && p < b.ySize * b.xSize
    ensures ChunkCell(b, result, b.yOff + i, b.xOff + j) == result[p]
  {
    MulStep(i, j, b.xSize, b.ySize);
    p := i * b.xSize + j;
  }

  lemma ResultAt(events: seq<seq<Event>>, data: seq<seq<int>>, size: nat, result: seq<int>, p: nat)
    requires |events| <= |data| && (forall k :: 0 <= k < |data| ==> |data[k]| == size)
    requires result == LatestTypes(events, data, size) && p < size
    ensures result[p] == LatestAt(events, PixelColumn(data, p)).1
  {
  }

  /** Writing the chunk results computes the last-pass raster. */
  lemma {:induction false} AssembledIsLastPass(events: seq<seq<Event>>, rasters: seq<Raster>, chunks: seq<RasterBound>,
                                               results: seq<seq<int>>, y: int, x: int)
    requires |events| <= |rasters|
    requires forall c :: 0 <= c < |chunks| ==> ChunkFits(rasters, chunks[c])
    requires |results| == |chunks|
    requires forall c :: 0 <= c < |chunks| ==>
      (ChunkDataShape(rasters, chunks[c]);
       results[c] == LatestTypes(events, ChunkData(rasters, chunks[c]), chunks[c].ySize * chunks[c].xSize))
    ensures ResultsShaped(chunks, results)
    ensures AssembledAt(chunks, results, y, x) == LastPassAt(events, rasters, chunks, y, x)
    decreases |chunks|
  {
    if chunks != [] {
      var n := |chunks| - 1;
      assert forall c :: 0 <= c < n ==> chunks[..n][c] == chunks[c] && results[..n][c] == results[c];
      AssembledIsLastPass(events, rasters, chunks[..n], results[..n], y, x);
      if Covers(chunks[n], y, x) {
        CoveredCell(events, rasters, chunks[n], results[n], y - chunks[n].yOff, x - chunks[n].xOff);
      }
    }
  }

  const OutputName := "last_pass_disturbance_type"

  /** convert_internal: no layers, no output; otherwise every chunk is
      processed and written into a zero-filled array the size of the first
      layer's raster, which becomes the one output layer. */
  method ConvertInternal(types: map<string, int>, layers: seq<PreparedLayer>, rasters: seq<Raster>,
                         chunks: seq<RasterBound>, tempDir: string)
    returns (r: Result<seq<InputLayer>>, output: array2<int>)
    requires |rasters| == |layers|
    requires forall c :: 0 <= c < |chunks| ==> ChunkFits(rasters, chunks[c])
    requires layers != [] ==> WellFormed(rasters[0])
    ensures fresh(output)
    ensures layers == [] ==> r == Ok([])
    ensures r.Err? <==> layers != [] && chunks != [] && ResolveLayers(types, layers).Err?
    ensures r.Err? ==> r.error == ResolveLayers(types, layers).error
    ensures r.Ok? && layers != [] ==>
      r.value == [InputLayer(OutputName, tempDir + "/" + OutputName + ".tiff", None, None, None)]
      && output.Length0 == rasters[0].height && output.Length1 == rasters[0].width
      && forall y, x :: 0 <= y < output.Length0 && 0 <= x < output.Length1 ==>
           output[y, x] == if chunks == [] then 0 else LastPassAt(ResolveLayers(types, layers).value, rasters, chunks, y, x)
  {
    if layers == [] {
      output := new int[0, 0];
      return Ok([]), output;
    }
    output := new int[rasters[0].height, rasters[0].width]((y, x) => 0);
    ghost var results: seq<seq<int>> := [];
    for c := 0 to |chunks|
      invariant |results| == c
      invariant c > 0 ==> ResolveLayers(types, layers).Ok?
      invariant forall k :: 0 <= k < c ==> ChunkSpec(types, layers, rasters, chunks[k]) == Ok(results[k])
      invariant ResultsShaped(chunks[..c], results)
      invariant forall y, x :: 0 <= y < output.Length0 && 0 <= x < output.Length1 ==>
        output[y, x] == AssembledAt(chunks[..c], results, y, x)
    {
      var res := ProcessChunk(types, layers, rasters, chunks[c]);
      if res.Err? {
        return Err(res.error), output;
      }
      WriteChunk(output, chunks[c], res.value);
      ghost var before := results;
      results := results + [res.value];
      assert chunks[..c + 1][..c] == chunks[..c] && results[..c] == before;
    }
    assert chunks[..|chunks|] == chunks;
    if chunks != [] {
      forall y, x | 0 <= y < output.Length0 && 0 <= x < output.Length1
        ensures output[y, x] == LastPassAt(ResolveLayers(types, layers).value, rasters, chunks, y, x)
      {
        AssembledIsLastPass(ResolveLayers(types, layers).value, rasters, chunks, results, y, x);
      }
    }
    r := Ok([InputLayer(OutputName, tempDir + "/" + OutputName + ".tiff", None, None, None)]);
  }
}
