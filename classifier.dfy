/**
  The nearest-attractor rule and the colour palette of the Rust renderer
  (src/main.rs, inside the per-pixel closure of `main`).

  The classifier scans the attractors in order, keeping the best index seen so
  far and its distance, seeded with index 0 and the sentinel distance 100000.0,
  and replaces them only on a strictly smaller distance.
*/
module Classifier {
  import opened Field

  /** The distance the scan starts from. */
  const Sentinel: real := 100000.0

  newtype Byte = b: int | 0 <= b < 256

  /** An RGB triple, one byte per channel. */
  type Rgb = c: seq<Byte> | |c| == 3 witness [0, 0, 0]

  /** The distance from each attractor to `p`, in list order. */
  function Distances(attractors: seq<Attractor>, p: Point, dist: Metric): seq<real> {
    seq(|attractors|, k requires 0 <= k < |attractors| => dist(Position(attractors[k]), p))
  }

  /** Some distance lies below the sentinel, so the scan replaces its seed. */
  ghost predicate AnyBelowSentinel(ds: seq<real>) {
    exists j :: 0 <= j < |ds| && ds[j] < Sentinel
  }

  /**
    What the scan promises: when some distance is below the sentinel, `k` is the
    lowest index of the minimum distance; otherwise the seed 0 is kept.
  */
  ghost predicate IsClosest(ds: seq<real>, k: nat) {
    if AnyBelowSentinel(ds) then IsArgMin(ds, k) else k == 0
  }

  /** The distance the scan holds while `k` is its candidate. */
  function HeldDistance(ds: seq<real>, k: nat): real {
    if k < |ds| && ds[k] < Sentinel then ds[k] else Sentinel
  }

  /** The class the scan settles on, defined on the prefix the loop has seen. */
  function Closest(ds: seq<real>): (k: nat)
    ensures IsClosest(ds, k)
    ensures k < |ds| || k == 0
    decreases |ds|
  {
    if |ds| == 0 then 0
    else
      var prefix := ds[..|ds| - 1];
      var k := Closest(prefix);
      assert forall j :: 0 <= j < |prefix| ==> prefix[j] == ds[j];
      if ds[|ds| - 1] < HeldDistance(prefix, k) then |ds| - 1 else k
  }

  /** Two results meeting the classifier's promise are the same class. */
  lemma ClosestUnique(ds: seq<real>, k1: nat, k2: nat)
    requires IsClosest(ds, k1) && IsClosest(ds, k2)
    ensures k1 == k2
  {
    if AnyBelowSentinel(ds) {
      ArgMinUnique(ds, k1, k2);
    }
  }

  /** For a non-empty attractor list the class is a valid index into it. */
  lemma ClosestInRange(ds: seq<real>)
    requires |ds| > 0
    ensures Closest(ds) < |ds|
  {
  }

  /** A minimum reached by an earlier attractor keeps that attractor, however many ties follow. */
  lemma {:induction false} TieKeepsLowest(ds: seq<real>, k: nat)
    requires k < |ds| && ds[k] < Sentinel
    requires forall j :: 0 <= j < |ds| ==> ds[k] <= ds[j]
    requires forall j :: 0 <= j < k ==> ds[k] < ds[j]
    ensures Closest(ds) == k
  {
    assert AnyBelowSentinel(ds);
    ClosestUnique(ds, Closest(ds), k);
  }

  /** The scan of src/main.rs over the attractors, measuring each against `p`. */
  method ClosestAttractor(attractors: seq<Attractor>, p: Point, dist: Metric) returns (closest: nat)
    ensures IsClosest(Distances(attractors, p, dist), closest)
    ensures closest == Closest(Distances(attractors, p, dist))
  {
    ghost var ds := Distances(attractors, p, dist);
    closest := 0;
    var closestDistance := Sentinel;
    for k := 0 to |attractors|
      invariant closest == Closest(ds[..k])
      invariant closestDistance == HeldDistance(ds[..k], closest)
    {
      var distance := dist(Position(attractors[k]), p);
      assert ds[..k + 1][..k] == ds[..k];
      assert ds[..k + 1][k] == distance;
      if distance < closestDistance {
        closestDistance := distance;
        closest := k;
      }
    }
    assert ds[..|attractors|] == ds;
  }

  const White: Rgb := [255, 255, 255]
  const Black: Rgb := [0, 0, 0]
  const Blue: Rgb := [0, 0, 255]
  const Yellow: Rgb := [255, 255, 0]

  /** The colour of a class; any index outside the table is black. */
  function Palette(k: nat): (c: Rgb)
    ensures forall ch :: 0 <= ch < 3 ==> c[ch] == 0 || c[ch] == 255
  {
    match k
    case 0 => White
    case 1 => Black
    case 2 => Blue
    case 3 => Yellow
    case 4 => White
    case _ => Black
  }

  /**
    The first four classes get four different colours; the placeholder class 4
    repeats class 0, and every index from 5 on repeats class 1.
  */
  lemma PaletteClasses(k: nat)
    ensures forall i, j :: 0 <= i < j < 4 ==> Palette(i) != Palette(j)
    ensures Palette(4) == Palette(0)
    ensures k >= 5 ==> Palette(k) == Palette(1)
  {
    assert Palette(0)[0] == 255 && Palette(1)[0] == 0 && Palette(2)[0] == 0 && Palette(3)[0] == 255;
    assert Palette(0)[2] == 255 && Palette(3)[2] == 0 && Palette(1)[2] == 0 && Palette(2)[2] == 255;
  }
}
