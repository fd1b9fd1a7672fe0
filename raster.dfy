/**
  The rasteriser in `main` of src/main.rs: a zero-filled RGB buffer of
  `width * height * 3` bytes is cut into 3-byte chunks; chunk `i` belongs to the
  grid cell `(i % width, i / width)`, whose simulation-space start point is
  simulated and classified, and the class colour overwrites the chunk; a shared
  progress counter goes up by one per chunk.

  The source hands the chunks to a parallel `for_each`. Here they are filled by
  an ordinary loop, and `PaintAll` with `FillOrderIrrelevant` shows that any
  order of the same disjoint chunk writes leaves the same buffer.
*/
module Raster {
  import opened Field
  import Integrator
  import opened Classifier

  /** The configuration `main` runs with. */
  const Width: nat := 10000
  const Height: nat := 10000
  const Zoom: real := 3.0
  const RunAttractors: seq<Attractor> := [Attractor(1.0, 1.0, 1.0), Attractor(-1.0, -1.0, 1.0)]

  /**
    The shared progress counter (an atomic integer in the source). The display
    thread that samples it is not modelled.
  */
  class ProgressCounter {
    var count: nat

    constructor ()
      ensures count == 0
    {
      count := 0;
    }

    /** Adds one and returns the value before the addition. */
    method FetchAdd() returns (previous: nat)
      modifies this
      ensures previous == old(count)
      ensures count == old(count) + 1
    {
      previous := count;
      count := count + 1;
    }
  }

  /** Chunk `i` belongs to the cell in column `i % width` and row `i / width`, inside the grid. */
  lemma CellInGrid(i: nat, width: nat, height: nat)
    requires i < width * height
    ensures width > 0 && height > 0
    ensures i % width < width && i / width < height
    ensures (i / width) * width + i % width == i
  {
    assert width * height > 0;
    MulPositive(width, height);
    var y := i / width;
    assert y * width <= i;
    MulCancel(y, height, width);
  }

  lemma MulPositive(a: nat, b: nat)
    requires a * b > 0
    ensures a > 0 && b > 0
  {
  }

  lemma MulCancel(a: nat, b: nat, w: nat)
    requires w > 0 && a * w < b * w
    ensures a < b
  {
  }

  /** Grid coordinate `c` of `extent` mapped into `[-zoom, zoom)` of simulation space. */
  function SimCoordinate(c: nat, extent: nat, zoom: real): real
    requires extent > 0
  {
    zoom * ((c as real / extent as real) * 2.0 - 1.0)
  }

  /**
    For a positive zoom the grid maps onto `[-zoom, zoom)`: column or row 0 to
    `-zoom`, and larger coordinates strictly further right or down.
  */
  lemma SimCoordinateRange(c: nat, c2: nat, extent: nat, zoom: real)
    requires c < c2 < extent && zoom > 0.0
    ensures SimCoordinate(0, extent, zoom) == -zoom
    ensures -zoom <= SimCoordinate(c, extent, zoom) < SimCoordinate(c2, extent, zoom) < zoom
  {
    var e := extent as real;
    var q := c as real / e;
    var q2 := c2 as real / e;
    assert 0.0 <= q < q2 < 1.0 by {
      assert q * e == c as real && q2 * e == c2 as real;
    }
    var u := q * 2.0 - 1.0;
    var u2 := q2 * 2.0 - 1.0;
    assert -1.0 <= u < u2 < 1.0;
    assert zoom * u < zoom * u2 by {
      assert zoom * u2 - zoom * u == zoom * (u2 - u);
    }
    assert -zoom <= zoom * u by {
      assert zoom * u + zoom == zoom * (u + 1.0);
    }
    assert zoom * u2 < zoom by {
      assert zoom - zoom * u2 == zoom * (1.0 - u2);
    }
  }

  /** The simulation-space start point of the grid cell of chunk `i`. */
  function CellStart(width: nat, height: nat, zoom: real, i: nat): Point
    requires i < width * height
  {
    CellInGrid(i, width, height);
    Point(SimCoordinate(i % width, width, zoom), SimCoordinate(i / width, height, zoom))
  }

  /** The colour the closure of `main` computes for chunk `i`. */
  function PixelColour(attractors: seq<Attractor>, width: nat, height: nat, zoom: real,
                       force: ForceLaw, dist: Metric, i: nat): Rgb
    requires i < width * height
  {
    var point := Integrator.Run(attractors, CellStart(width, height, zoom, i), force, dist).at;
    Palette(Closest(Distances(attractors, point, dist)))
  }

  /**
    The colour of chunk `i` is the palette entry of whichever class meets the
    classifier's promise for the point its run ends at.
  */
  lemma PixelColourIsClassColour(attractors: seq<Attractor>, width: nat, height: nat, zoom: real,
                                 force: ForceLaw, dist: Metric, i: nat, k: nat)
    requires i < width * height
    requires IsClosest(Distances(attractors, Integrator.Run(attractors, CellStart(width, height, zoom, i), force, dist).at, dist), k)
    ensures PixelColour(attractors, width, height, zoom, force, dist, i) == Palette(k)
  {
    var ds := Distances(attractors, Integrator.Run(attractors, CellStart(width, height, zoom, i), force, dist).at, dist);
    ClosestUnique(ds, Closest(ds), k);
  }

  /**
    With the two attractors `main` runs with, classes 2 to 4 never occur, so
    every pixel is white (class 0) or black (class 1).
  */
  lemma RunImageIsTwoTone(width: nat, height: nat, zoom: real, force: ForceLaw, dist: Metric, i: nat)
    requires i < width * height
    ensures PixelColour(RunAttractors, width, height, zoom, force, dist, i) in {White, Black}
  {
    var ds := Distances(RunAttractors, Integrator.Run(RunAttractors, CellStart(width, height, zoom, i), force, dist).at, dist);
    assert Closest(ds) < 2;
  }

  /** Byte `j` of a buffer of 3-byte chunks is channel `j % 3` of chunk `j / 3`. */
  lemma ChunkOfByte(j: int, i: nat)
    requires 3 * i <= j < 3 * i + 3
    ensures j / 3 == i && j % 3 == j - 3 * i
  {
  }

  /**
    The body of the per-chunk closure of `main`: grid cell, simulation-space
    start point, simulation, nearest attractor, colour.
  */
  method ShadePixel(attractors: seq<Attractor>, width: nat, height: nat, zoom: real,
                    force: ForceLaw, dist: Metric, i: nat) returns (colour: Rgb)
    requires i < width * height
    ensures colour == PixelColour(attractors, width, height, zoom, force, dist, i)
  {
    CellInGrid(i, width, height);
    var x := i % width;
    var y := i / width;
    var simX := SimCoordinate(x, width, zoom);
    var simY := SimCoordinate(y, height, zoom);
    assert Point(simX, simY) == CellStart(width, height, zoom, i);
    var point := Integrator.Simulate(attractors, simX, simY, force, dist);
    var closest := ClosestAttractor(attractors, point, dist);
    colour := Palette(closest);
  }

  /** Overwrites chunk `i` of `raw` with `colour` and leaves every other byte alone. */
  method WritePixel(raw: array<Byte>, i: nat, colour: Rgb)
    requires 3 * i + 3 <= raw.Length
    modifies raw
    ensures forall j :: 3 * i <= j < 3 * i + 3 ==> raw[j] == colour[j - 3 * i]
    ensures forall j :: 0 <= j < raw.Length && !(3 * i <= j < 3 * i + 3) ==> raw[j] == old(raw[j])
  {
    raw[3 * i] := colour[0];
    raw[3 * i + 1] := colour[1];
    raw[3 * i + 2] := colour[2];
  }

  /** The per-chunk work of `main`, run over the chunks in index order. */
  method Rasterize(raw: array<Byte>, width: nat, height: nat, zoom: real, attractors: seq<Attractor>,
                   force: ForceLaw, dist: Metric, progress: ProgressCounter)
    requires raw.Length == width * height * 3
    modifies raw, progress
    ensures progress.count == old(progress.count) + width * height
    ensures forall j :: 0 <= j < raw.Length ==>
      raw[j] == PixelColour(attractors, width, height, zoom, force, dist, j / 3)[j % 3]
  {
    var n := width * height;
    for i := 0 to n
      invariant progress.count == old(progress.count) + i
      invariant forall j :: 0 <= j < 3 * i ==>
        raw[j] == PixelColour(attractors, width, height, zoom, force, dist, j / 3)[j % 3]
    {
      var colour := ShadePixel(attractors, width, height, zoom, force, dist, i);
      WritePixel(raw, i, colour);
      forall j | 3 * i <= j < 3 * i + 3
        ensures raw[j] == PixelColour(attractors, width, height, zoom, force, dist, j / 3)[j % 3]
      {
        ChunkOfByte(j, i);
      }
      var _ := progress.FetchAdd();
    }
  }

  /** `main` without the display thread and the image file: allocate, fill, count. */
  method Render(width: nat, height: nat, zoom: real, attractors: seq<Attractor>, force: ForceLaw, dist: Metric)
    returns (raw: array<Byte>, progress: ProgressCounter)
    ensures fresh(raw) && fresh(progress)
    ensures raw.Length == width * height * 3
    ensures progress.count == width * height
    ensures forall j :: 0 <= j < raw.Length ==>
      raw[j] == PixelColour(attractors, width, height, zoom, force, dist, j / 3)[j % 3]
  {
    progress := new ProgressCounter();
    raw := new Byte[width * height * 3];
    Rasterize(raw, width, height, zoom, attractors, force, dist, progress);
  }

  /**
    `main` with its own configuration: a 10000 by 10000 grid at zoom 3.0 and the
    two attractors at (1, 1) and (-1, -1); every chunk is white or black.
  */
  method RenderMain(force: ForceLaw, dist: Metric) returns (raw: array<Byte>, progress: ProgressCounter)
    ensures fresh(raw) && fresh(progress)
    ensures raw.Length == Width * Height * 3
    ensures progress.count == Width * Height
    ensures forall j :: 0 <= j < raw.Length ==>
      raw[j] == PixelColour(RunAttractors, Width, Height, Zoom, force, dist, j / 3)[j % 3]
    ensures forall i :: 0 <= i < Width * Height ==> raw[3 * i..3 * i + 3] in {White, Black}
  {
    raw, progress := Render(Width, Height, Zoom, RunAttractors, force, dist);
    forall i | 0 <= i < Width * Height
      ensures raw[3 * i..3 * i + 3] in {White, Black}
    {
      RunImageIsTwoTone(Width, Height, Zoom, force, dist, i);
      var colour := PixelColour(RunAttractors, Width, Height, Zoom, force, dist, i);
      forall j | 3 * i <= j < 3 * i + 3
        ensures raw[j] == colour[j - 3 * i]
      {
        ChunkOfByte(j, i);
      }
      assert raw[3 * i..3 * i + 3] == colour;
    }
  }

  /** The buffer with chunk `i` overwritten by `colour`. */
  function Paint(buf: seq<Byte>, i: nat, colour: Rgb): (r: seq<Byte>)
    requires 3 * i + 3 <= |buf|
    ensures |r| == |buf|
    ensures forall j :: 0 <= j < |buf| ==> r[j] == if j / 3 == i then colour[j % 3] else buf[j]
  {
    buf[..3 * i] + colour + buf[3 * i + 3..]
  }

  /** The buffer after the chunk writes listed in `order`, performed in that order. */
  function PaintAll(buf: seq<Byte>, order: seq<nat>, colourOf: nat -> Rgb): (r: seq<Byte>)
    requires forall k :: 0 <= k < |order| ==> 3 * order[k] + 3 <= |buf|
    ensures |r| == |buf|
    ensures forall j :: 0 <= j < |buf| ==> r[j] == if j / 3 in order then colourOf(j / 3)[j % 3] else buf[j]
    decreases |order|
  {
    if |order| == 0 then buf
    else
      var last := order[|order| - 1];
      Paint(PaintAll(buf, order[..|order| - 1], colourOf), last, colourOf(last))
  }

  /**
    The chunks are disjoint, so two schedules that write the same set of chunks
    leave the same buffer, whatever order each uses.
  */
  lemma FillOrderIrrelevant(buf: seq<Byte>, order1: seq<nat>, order2: seq<nat>, colourOf: nat -> Rgb)
    requires forall k :: 0 <= k < |order1| ==> 3 * order1[k] + 3 <= |buf|
    requires forall k :: 0 <= k < |order2| ==> 3 * order2[k] + 3 <= |buf|
    requires forall c :: c in order1 <==> c in order2
    ensures PaintAll(buf, order1, colourOf) == PaintAll(buf, order2, colourOf)
  {
    var r1 := PaintAll(buf, order1, colourOf);
    var r2 := PaintAll(buf, order2, colourOf);
    assert |r1| == |r2|;
    forall j | 0 <= j < |buf|
      ensures r1[j] == r2[j]
    {
      assert (j / 3 in order1) == (j / 3 in order2);
    }
  }

  /**
    A schedule that writes every chunk of a `3 * n`-byte buffer, in any order,
    leaves chunk `i` holding `colourOf(i)`, as the sequential fill does.
  */
  lemma FillComplete(buf: seq<Byte>, n: nat, order: seq<nat>, colourOf: nat -> Rgb)
    requires |buf| == 3 * n
    requires forall k :: 0 <= k < |order| ==> order[k] < n
    requires forall c :: 0 <= c < n ==> c in order
    ensures forall j :: 0 <= j < |buf| ==> PaintAll(buf, order, colourOf)[j] == colourOf(j / 3)[j % 3]
  {
    var r := PaintAll(buf, order, colourOf);
    forall j | 0 <= j < |buf|
      ensures r[j] == colourOf(j / 3)[j % 3]
    {
      assert j / 3 < n;
      assert j / 3 in order;
    }
  }

  /** The colours of `main`'s chunks as a total map; chunks past the grid are never written. */
  function ColourOf(attractors: seq<Attractor>, width: nat, height: nat, zoom: real,
                    force: ForceLaw, dist: Metric): nat -> Rgb
  {
    (i: nat) => if i < width * height then PixelColour(attractors, width, height, zoom, force, dist, i) else Black
  }

  /**
    The buffer the sequential fill leaves, as `Rasterize` states it, is the one
    every schedule of the same chunk writes leaves, whatever its order: the
    parallel fill of `main` ends in the same buffer.
  */
  lemma RasterizeMatchesSchedules(buf: seq<Byte>, filled: seq<Byte>, width: nat, height: nat, zoom: real,
                                  attractors: seq<Attractor>, force: ForceLaw, dist: Metric, order: seq<nat>)
    requires |buf| == width * height * 3 && |filled| == |buf|
    requires forall j :: 0 <= j < |filled| ==>
      filled[j] == PixelColour(attractors, width, height, zoom, force, dist, j / 3)[j % 3]
    requires forall k :: 0 <= k < |order| ==> order[k] < width * height
    requires forall c :: 0 <= c < width * height ==> c in order
    ensures PaintAll(buf, order, ColourOf(attractors, width, height, zoom, force, dist)) == filled
  {
    var colourOf := ColourOf(attractors, width, height, zoom, force, dist);
    FillComplete(buf, width * height, order, colourOf);
    var r := PaintAll(buf, order, colourOf);
    forall j | 0 <= j < |buf|
      ensures r[j] == filled[j]
    {
      assert j / 3 < width * height;
    }
  }
}
