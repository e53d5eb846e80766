/** Reading a raster band, whole or through a rectangular window, with the
    window checked against the raster's extent first. */
module RasterWindows {
  import opened Common

  /** A rectangle of pixels: its upper left corner and its size. */
  datatype RasterBound = RasterBound(xOff: int, yOff: int, xSize: int, ySize: int)

  /** A raster band: `height` rows of `width` pixel values. */
  datatype Raster = Raster(width: nat, height: nat, pixels: seq<seq<int>>)

  predicate WellFormed(r: Raster)
  {
    |r.pixels| == r.height && forall i :: 0 <= i < |r.pixels| ==> |r.pixels[i]| == r.width
  }

  /** A non-empty window lying wholly within a width × height raster. */
  predicate Inside(b: RasterBound, width: int, height: int)
  {
    1 <= b.xSize && 1 <= b.ySize && 0 <= b.xOff && 0 <= b.yOff
    && b.xOff + b.xSize <= width && b.yOff + b.ySize <= height
  }

  /** Pixel (y, x) lies in the window. */
  predicate Covers(b: RasterBound, y: int, x: int)
  {
    b.yOff <= y < b.yOff + b.ySize && b.xOff <= x < b.xOff + b.xSize
  }

  function FullExtent(r: Raster): RasterBound
  {
    RasterBound(0, 0, r.width, r.height)
  }

  /** What read_dataset returns: the pixels read, their extent, and the
      extent of the whole raster. */
  datatype Dataset = Dataset(data: seq<seq<int>>, dataBounds: RasterBound, rasterBounds: RasterBound)

  /** The pixels of a window, row by row. */
  function Window(r: Raster, b: RasterBound): (rows: seq<seq<int>>)
    requires WellFormed(r) && Inside(b, r.width, r.height)
    ensures |rows| == b.ySize
    ensures forall i :: 0 <= i < b.ySize ==> |rows[i]| == b.xSize
  {
    seq(b.ySize, i requires 0 <= i < b.ySize => r.pixels[b.yOff + i][b.xOff .. b.xOff + b.xSize])
  }

  /** read_dataset: with no bounds the whole raster; otherwise the bounds are
      checked (sizes, then offsets, then the x extent, then the y extent)
      and the window is read. */
  function ReadDataset(r: Raster, bounds: Option<RasterBound>): (res: Result<Dataset>)
    requires WellFormed(r)
    ensures res.Ok? <==> bounds.None? || Inside(bounds.value, r.width, r.height)
    ensures res.Ok? ==> res.value.rasterBounds == FullExtent(r)
    ensures res.Ok? ==> res.value.dataBounds == if bounds.None? then FullExtent(r) else bounds.value
    ensures res.Ok? ==>
      (var b := res.value.dataBounds;
       |res.value.data| == b.ySize
       && forall i, j :: 0 <= i < b.ySize && 0 <= j < b.xSize ==>
            j < |res.value.data[i]| && res.value.data[i][j] == r.pixels[b.yOff + i][b.xOff + j])
    ensures bounds.Some? ==> (var b := bounds.value;
      ((b.xSize < 1 || b.ySize < 1) <==> res == Err(InvalidWindow(SizeBelowOne)))
      && (res == Err(InvalidWindow(NegativeOffset)) <==> (1 <= b.xSize && 1 <= b.ySize && (b.xOff < 0 || b.yOff < 0)))
      && (res == Err(InvalidWindow(XOutOfBounds)) <==>
            (1 <= b.xSize && 1 <= b.ySize && 0 <= b.xOff && 0 <= b.yOff && b.xOff + b.xSize > r.width))
      && (res == Err(InvalidWindow(YOutOfBounds)) <==>
            (1 <= b.xSize && 1 <= b.ySize && 0 <= b.xOff && 0 <= b.yOff && b.xOff + b.xSize <= r.width
             && b.yOff + b.ySize > r.height)))
  {
    match bounds
    case None => Ok(Dataset(r.pixels, FullExtent(r), FullExtent(r)))
    case Some(b) =>
      if b.xSize < 1 || b.ySize < 1 then Err(InvalidWindow(SizeBelowOne))
      else if b.xOff < 0 || b.yOff < 0 then Err(InvalidWindow(NegativeOffset))
      else if r.width - b.xOff < b.xSize then Err(InvalidWindow(XOutOfBounds))
      else if r.height - b.yOff < b.ySize then Err(InvalidWindow(YOutOfBounds))
      else Ok(Dataset(Window(r, b), b, FullExtent(r)))
  }

  /** The rows of a window laid end to end, as numpy's flatten does. */
  function Flatten(rows: seq<seq<int>>): seq<int>
    decreases |rows|
  {
    if rows == [] then [] else Flatten(rows[..|rows| - 1]) + rows[|rows| - 1]
  }

  lemma MulStep(i: nat, j: nat, w: nat, n: nat)
    requires i < n && j < w
    ensures 0 <= i * w && i * w + j < n * w
  {
    assert (i + 1) * w == i * w + w;
    assert (i + 1) * w <= n * w by {
      var k := n - (i + 1);
      assert n * w == (i + 1) * w + k * w;
    }
  }

  lemma {:induction false} FlattenLength(rows: seq<seq<int>>, w: nat)
    requires forall i :: 0 <= i < |rows| ==> |rows[i]| == w
    ensures |Flatten(rows)| == |rows| * w
    decreases |rows|
  {
    if rows != [] {
      var n := |rows|;
      FlattenLength(rows[..n - 1], w);
      assert n * w == (n - 1) * w + w;
    }
  }

  /** Flattening rows of equal width w puts cell (i, j) at i * w + j. */
  lemma {:induction false} FlattenAt(rows: seq<seq<int>>, w: nat, i: nat, j: nat)
    requires forall k :: 0 <= k < |rows| ==> |rows[k]| == w
    requires i < |rows| && j < w
    ensures i * w + j < |Flatten(rows)| && Flatten(rows)[i * w + j] == rows[i][j]
    decreases |rows|
  {
    var n := |rows|;
    var prefix := rows[..n - 1];
    FlattenLength(rows, w);
    FlattenLength(prefix, w);
    MulStep(i, j, w, n);
    if i < n - 1 {
      MulStep(i, j, w, n - 1);
      FlattenAt(prefix, w, i, j);
    }
  }
}
