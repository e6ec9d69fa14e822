/** Screenshot regions, the masks read from them, and the two component analyses over those masks. */
module ImageAnalysis {
  import opened Basics
  import opened PixelGrids
  import opened ConnectedComponents

  datatype Image = Image(width: nat, height: nat, pixels: Bytes)

  datatype Region = Region(x0: real, x1: real, y0: real, y1: real) {
    predicate Valid() {
      0.0 <= x0 < x1 <= 1.0 && 0.0 <= y0 < y1 <= 1.0
    }
  }

  datatype Roi = Roi(x0: int, x1: int, y0: int, y1: int) {
    function Width(): int { x1 - x0 }

    function Height(): int { y1 - y0 }

    /** A region that is not empty and lies inside the image. */
    predicate Inside(image: Image) {
      0 <= x0 < x1 <= image.width && 0 <= y0 < y1 <= image.height
    }
  }

  function Ceil(x: real): int {
    -((-x).Floor)
  }

  function RoiOf(image: Image, region: Region): Roi {
    Roi(
      (image.width as real * region.x0).Floor,
      Ceil(image.width as real * region.x1),
      (image.height as real * region.y0).Floor,
      Ceil(image.height as real * region.y1))
  }

  lemma SpanIsInside(n: nat, low: real, high: real)
    requires n > 0 && 0.0 <= low < high <= 1.0
    ensures 0 <= (n as real * low).Floor < Ceil(n as real * high) <= n
  {}

  /** A column or row is in the region exactly when it overlaps the fractions' interval. */
  lemma RoiOverlaps(image: Image, region: Region, x: int, y: int)
    ensures
      var roi := RoiOf(image, region);
      && (roi.x0 <= x < roi.x1 <==>
            (x + 1) as real > image.width as real * region.x0 && (x as real) < image.width as real * region.x1)
      && (roi.y0 <= y < roi.y1 <==>
            (y + 1) as real > image.height as real * region.y0 && (y as real) < image.height as real * region.y1)
  {}

  /** A valid region of any image covers at least one pixel, and none outside the image. */
  lemma RoiIsInside(image: Image, region: Region)
    requires image.width > 0 && image.height > 0 && region.Valid()
    ensures RoiOf(image, region).Inside(image)
  {
    SpanIsInside(image.width, region.x0, region.x1);
    SpanIsInside(image.height, region.y0, region.y1);
  }

  datatype Target = Magenta | Black

  function Channel(image: Image, index: int): Byte {
    if 0 <= index < |image.pixels| then image.pixels[index] else 0
  }

  predicate IsDiagnostic(image: Image, target: Target, x: int, y: int) {
    var source := (x + y * image.width) * 4;
    var red, green, blue := Channel(image, source), Channel(image, source + 1), Channel(image, source + 2);
    if target.Black? then red == 0 && green == 0 && blue == 0
    else red >= 232 && green <= 48 && blue >= 232
  }

  /** A pixel is read from its four bytes: red, green and blue, row after row. */
  lemma DiagnosticByBytes(image: Image, x: int, y: int)
    requires 0 <= x < image.width && 0 <= y < image.height
    requires |image.pixels| == image.width * image.height * 4
    ensures 0 <= 4 * (x + y * image.width) && 4 * (x + y * image.width) + 3 < |image.pixels|
    ensures
      var red, green, blue :=
        image.pixels[4 * (x + y * image.width)], image.pixels[4 * (x + y * image.width) + 1],
        image.pixels[4 * (x + y * image.width) + 2];
      && (IsDiagnostic(image, Magenta, x, y) <==> red > 231 && green < 49 && blue > 231)
      && (IsDiagnostic(image, Black, x, y) <==> red == green == blue == 0)
  {
    AtIsInside(x, y, image.width, image.height);
  }

  function Area(roi: Roi): (area: nat)
    requires roi.x0 <= roi.x1 && roi.y0 <= roi.y1
  {
    RegionArea(roi.Width(), roi.Height());
    roi.Width() * roi.Height()
  }

  /** The mask of a region, row by row. */
  ghost function MaskOf(image: Image, target: Target, roi: Roi): (mask: seq<bool>)
    requires roi.Inside(image)
    ensures |mask| == Area(roi)
  {
    seq(Area(roi), p requires 0 <= p < Area(roi) =>
      IsDiagnostic(image, target, roi.x0 + X(p, roi.Width()), roi.y0 + Y(p, roi.Width())))
  }

  lemma RegionArea(width: nat, height: nat)
    ensures width * height >= 0
  {}

  function CountTrue(s: seq<bool>): nat {
    if s == [] then 0 else CountTrue(s[..|s| - 1]) + (if s[|s| - 1] then 1 else 0)
  }

  lemma CountSnoc(s: seq<bool>, n: nat)
    requires n < |s|
    ensures CountTrue(s[..n + 1]) == CountTrue(s[..n]) + (if s[n] then 1 else 0)
  {
    assert s[..n + 1][..n] == s[..n];
  }

  lemma {:induction false} CountIsSize(s: seq<bool>)
    ensures CountTrue(s) == |SetPixels(s)|
  {
    if s == [] {
      assert SetPixels(s) == {};
    } else {
      var n := |s| - 1;
      CountIsSize(s[..n]);
      assert SetPixels(s) == SetPixels(s[..n]) + (if s[n] then {n} else {});
    }
  }

  /** Writing pixel (x, y) writes the next entry of the mask. */
  lemma NextPixel(x: nat, y: nat, width: nat, height: nat)
    requires x < width && y < height
    ensures
      var p := At(x, y, width);
      && p < width * height && X(p, width) == x && Y(p, width) == y
      && At(x + 1, y, width) == p + 1
      && (x + 1 == width ==> At(0, y + 1, width) == p + 1)
  {
    CoordinatesOfAt(x, y, width);
    AtIsInside(x, y, width, height);
    RowStep(y, width);
  }

  lemma RowEnds(y: nat, width: nat)
    ensures At(width, y, width) == At(0, y + 1, width)
  {
    RowStep(y, width);
  }

  /** The first `n` entries are written, the others still blank, and `count` are set. */
  ghost predicate Built(mask: seq<bool>, spec: seq<bool>, n: nat, count: nat) {
    && |mask| == |spec| && n <= |spec|
    && (forall p | 0 <= p < n :: mask[p] == spec[p])
    && (forall p | n <= p < |mask| :: !mask[p])
    && count == CountTrue(spec[..n])
  }

  lemma BuiltNext(mask: seq<bool>, after: seq<bool>, spec: seq<bool>, n: nat, count: nat)
    requires Built(mask, spec, n, count) && n < |spec| && after == (if spec[n] then mask[n := true] else mask)
    ensures Built(after, spec, n + 1, count + (if spec[n] then 1 else 0))
  {
    CountSnoc(spec, n);
  }

  lemma BuiltAll(mask: seq<bool>, spec: seq<bool>, count: nat)
    requires Built(mask, spec, |spec|, count)
    ensures mask == spec && count == CountTrue(spec)
  {
    assert spec[..|spec|] == spec;
  }

  /** Pixel (x, y) of the image is entry `Offset` of the region's mask, and entries follow row by row. */
  function Offset(roi: Roi, x: int, y: int): nat
    requires roi.x0 <= x && roi.y0 <= y && roi.x0 < roi.x1
  {
    At(x - roi.x0, y - roi.y0, roi.Width())
  }

  lemma OffsetOfPixel(image: Image, target: Target, roi: Roi, x: int, y: int)
    requires roi.Inside(image) && roi.x0 <= x < roi.x1 && roi.y0 <= y < roi.y1
    ensures Offset(roi, x, y) < |MaskOf(image, target, roi)|
    ensures MaskOf(image, target, roi)[Offset(roi, x, y)] == IsDiagnostic(image, target, x, y)
    ensures Offset(roi, x + 1, y) == Offset(roi, x, y) + 1
  {
    hide IsDiagnostic;
    NextPixel(x - roi.x0, y - roi.y0, roi.Width(), roi.Height());
  }

  lemma OffsetOfRow(roi: Roi, y: int)
    requires roi.x0 < roi.x1 && roi.y0 <= y
    ensures Offset(roi, roi.x1, y) == Offset(roi, roi.x0, y + 1)
    ensures Offset(roi, roi.x0, roi.y0) == 0
  {
    RowEnds(y - roi.y0, roi.Width());
  }

  lemma OffsetOfEnd(image: Image, target: Target, roi: Roi)
    requires roi.Inside(image)
    ensures Offset(roi, roi.x0, roi.y1) == |MaskOf(image, target, roi)|
  {}

  function Blank(n: nat): (r: seq<bool>)
    ensures |r| == n && forall p | 0 <= p < n :: !r[p]
  {
    seq(n, _ => false)
  }

  method NewMask(roi: Roi) returns (mask: array<bool>)
    requires roi.x0 <= roi.x1 && roi.y0 <= roi.y1
    ensures fresh(mask) && mask[..] == Blank(Area(roi))
  {
    mask := new bool[Area(roi)](_ => false);
  }

  /** The first entries that are set, at most 32 of them. */
  function FirstSet(s: seq<bool>): (r: seq<nat>)
    ensures |r| <= 32 && forall p | p in r :: p < |s|
  {
    if s == [] then []
    else
      var n := |s| - 1;
      FirstSet(s[..n]) + (if s[n] && |FirstSet(s[..n])| < 32 then [n] else [])
  }

  lemma FirstSetLast(s: seq<bool>)
    requires s != []
    ensures
      var n := |s| - 1;
      var before := FirstSet(s[..n]);
      && FirstSet(s) == before + (if s[n] && |before| < 32 then [n] else [])
      && CountTrue(s) == CountTrue(s[..n]) + (if s[n] then 1 else 0)
  {
    CountSnoc(s, |s| - 1);
    assert s[..|s|] == s;
  }

  /** They are set, as many as there are up to 32; a set entry that is not among them comes after them all. */
  lemma {:induction false} FirstSetIsFirst(s: seq<bool>)
    ensures |FirstSet(s)| == if CountTrue(s) < 32 then CountTrue(s) else 32
    ensures forall p | p in FirstSet(s) :: p < |s| && s[p]
    ensures
      forall p | 0 <= p < |s| && s[p] && p !in FirstSet(s) ::
        |FirstSet(s)| == 32 && forall q | q in FirstSet(s) :: q < p
  {
    if s != [] {
      FirstSetIsFirst(s[..|s| - 1]);
      FirstSetLast(s);
      hide CountTrue, FirstSet;
    }
  }

  function Coordinates(samples: seq<nat>, roi: Roi): (r: seq<(int, int)>)
    requires roi.x0 < roi.x1
    ensures |r| == |samples|
  {
    seq(|samples|, i requires 0 <= i < |samples| =>
      (roi.x0 + X(samples[i], roi.Width()), roi.y0 + Y(samples[i], roi.Width())))
  }

  lemma SampleNext(spec: seq<bool>, roi: Roi, x: int, y: int)
    requires roi.x0 <= x < roi.x1 && roi.y0 <= y && Offset(roi, x, y) < |spec|
    ensures
      var p := Offset(roi, x, y);
      var before := Coordinates(FirstSet(spec[..p]), roi);
      Coordinates(FirstSet(spec[..p + 1]), roi)
      == if spec[p] && |before| < 32 then before + [(x, y)] else before
  {
    var p := Offset(roi, x, y);
    CoordinatesOfAt(x - roi.x0, y - roi.y0, roi.Width());
    assert spec[..p + 1][..p] == spec[..p] && spec[..p + 1][p] == spec[p];
    var before := FirstSet(spec[..p]);
    assert FirstSet(spec[..p + 1]) == if spec[p] && |before| < 32 then before + [p] else before;
    hide FirstSet, Offset, X, Y;
  }

  /** The mask of the region's diagnostic pixels, their number, and where the first ones are. */
  method BuildMask(image: Image, target: Target, roi: Roi)
    returns (mask: array<bool>, sky: nat, samples: seq<(int, int)>)
    requires roi.Inside(image)
    ensures fresh(mask) && mask[..] == MaskOf(image, target, roi) && sky == CountTrue(mask[..])
    ensures samples == Coordinates(FirstSet(mask[..]), roi)
  {
    ghost var spec := MaskOf(image, target, roi);
    mask := NewMask(roi);
    sky, samples := 0, [];
    NothingCounted();
    OffsetOfRow(roi, roi.y0);
    assert Built(mask[..], spec, 0, 0) && FirstSet(spec[..0]) == [] by { assert spec[..0] == []; }
    hide CountTrue, IsDiagnostic, Offset, MaskOf, Built, FirstSet, Coordinates;
    assert Coordinates([], roi) == [];
    for y := roi.y0 to roi.y1
      invariant Built(mask[..], spec, Offset(roi, roi.x0, y), sky)
      invariant Offset(roi, roi.x0, y) <= |spec|
      invariant samples == Coordinates(FirstSet(spec[..Offset(roi, roi.x0, y)]), roi)
    {
      sky, samples := BuildRow(image, target, roi, y, mask, sky, samples);
      OffsetOfRow(roi, y);
    }
    OffsetOfEnd(image, target, roi);
    BuiltAll(mask[..], spec, sky);
    assert spec[..|spec|] == spec;
  }

  method BuildRow(
      image: Image, target: Target, roi: Roi, y: int, mask: array<bool>, before: nat, earlier: seq<(int, int)>)
    returns (sky: nat, samples: seq<(int, int)>)
    requires roi.Inside(image) && roi.y0 <= y < roi.y1
    requires Built(mask[..], MaskOf(image, target, roi), Offset(roi, roi.x0, y), before)
    requires Offset(roi, roi.x0, y) <= |MaskOf(image, target, roi)|
    requires earlier == Coordinates(FirstSet(MaskOf(image, target, roi)[..Offset(roi, roi.x0, y)]), roi)
    modifies mask
    ensures Built(mask[..], MaskOf(image, target, roi), Offset(roi, roi.x1, y), sky)
    ensures Offset(roi, roi.x1, y) <= |MaskOf(image, target, roi)|
    ensures samples == Coordinates(FirstSet(MaskOf(image, target, roi)[..Offset(roi, roi.x1, y)]), roi)
  {
    ghost var spec := MaskOf(image, target, roi);
    sky, samples := before, earlier;
    hide CountTrue, IsDiagnostic, Offset, MaskOf, Built, FirstSet, Coordinates;
    for x := roi.x0 to roi.x1
      invariant Built(mask[..], spec, Offset(roi, x, y), sky)
      invariant Offset(roi, x, y) <= |spec| && samples == Coordinates(FirstSet(spec[..Offset(roi, x, y)]), roi)
    {
      OffsetOfPixel(image, target, roi, x, y);
      var p := Offset(roi, x, y);
      BuiltLength(mask[..], spec, p, sky);
      BuiltNext(mask[..], if spec[p] then mask[..][p := true] else mask[..], spec, p, sky);
      SampleNext(spec, roi, x, y);
      if IsDiagnostic(image, target, x, y) {
        mask[p] := true;
        sky := sky + 1;
        if |samples| < 32 { samples := samples + [(x, y)]; }
      }
    }
  }

  lemma BuiltLength(mask: seq<bool>, spec: seq<bool>, n: nat, count: nat)
    requires Built(mask, spec, n, count)
    ensures |mask| == |spec|
  {}

  lemma NothingCounted()
    ensures CountTrue([]) == 0
  {}

  // ------------------------------------------------------ diagnostic sky

  datatype Analysis = Analysis(
    roi: Roi, sampledPixels: nat, diagnosticSkyPixels: nat, census: Census, samples: seq<(int, int)>,
    enclosedSamples: seq<(int, int)>)

  /** What an analysis of a mask promises about it. */
  ghost predicate Describes(a: Analysis, mask: seq<bool>)
    requires a.roi.x0 < a.roi.x1 && a.roi.y0 < a.roi.y1
  {
    var width, height := a.roi.Width(), a.roi.Height();
    && a.sampledPixels == |mask|
    && a.diagnosticSkyPixels == |SetPixels(mask)|
    && Tallied(mask, width, height, SetPixels(mask), a.census)
    && a.census.boundary + a.census.enclosed == a.diagnosticSkyPixels
    && a.samples == Coordinates(FirstSet(mask), a.roi)
    && (forall c | c in a.enclosedSamples :: EnclosedAt(mask, a.roi, c))
    && (a.enclosedSamples == [] <==> a.census.enclosed == 0)
  }

  /** A reported coordinate is that of a fully enclosed pixel. */
  ghost predicate EnclosedAt(mask: seq<bool>, roi: Roi, c: (int, int))
    requires roi.x0 < roi.x1 && roi.y0 < roi.y1
  {
    exists p ::
      && p in EnclosedPixels(mask, roi.Width(), roi.Height(), SetPixels(mask))
      && c == (roi.x0 + X(p, roi.Width()), roi.y0 + Y(p, roi.Width()))
  }

  /** Every diagnostic pixel is counted once, in a component that either touches the perimeter or is enclosed. */
  method AnalyzeDiagnosticSky(image: Image, region: Region, target: Target) returns (r: Option<Analysis>)
    requires image.width > 0 && image.height > 0
    ensures r.Some? <==> region.Valid()
    ensures r.Some? ==>
      && r.value.roi == RoiOf(image, region) && r.value.roi.Inside(image)
      && Describes(r.value, MaskOf(image, target, r.value.roi))
  {
    if !region.Valid() { return None; }
    RoiIsInside(image, region);
    var roi := RoiOf(image, region);
    hide RoiOf, MaskOf, CountTrue, Tallied, EnclosedPixels;
    var mask, sky, first := BuildMask(image, target, roi);
    CountIsSize(mask[..]);
    ghost var area := MaskOf(image, target, roi);
    var census, samples := AnalyzeMask(mask, roi.Width(), roi.Height());
    SamplesAreEnclosed(mask[..], roi, samples);
    r := Some(Analysis(roi, mask.Length, sky, census, first, Coordinates(samples, roi)));
  }

  lemma SamplesAreEnclosed(mask: seq<bool>, roi: Roi, samples: seq<nat>)
    requires roi.x0 < roi.x1 && roi.y0 < roi.y1
    requires forall p | p in samples :: p in EnclosedPixels(mask, roi.Width(), roi.Height(), SetPixels(mask))
    ensures forall c | c in Coordinates(samples, roi) :: EnclosedAt(mask, roi, c)
  {}

  // --------------------------------------------------- geometry comparison

  /** Geometry is what the magenta sky does not show through. */
  ghost function Occupancy(image: Image, roi: Roi): (r: seq<bool>)
    requires roi.Inside(image)
    ensures |r| == |MaskOf(image, Magenta, roi)|
  {
    var sky := MaskOf(image, Magenta, roi);
    seq(|sky|, p requires 0 <= p < |sky| => !sky[p])
  }

  ghost function Both(a: seq<bool>, b: seq<bool>): (r: seq<bool>)
    requires |a| == |b|
    ensures |r| == |a|
  {
    seq(|a|, p requires 0 <= p < |a| => a[p] && b[p])
  }

  ghost function Either(a: seq<bool>, b: seq<bool>): (r: seq<bool>)
    requires |a| == |b|
    ensures |r| == |a|
  {
    seq(|a|, p requires 0 <= p < |a| => a[p] || b[p])
  }

  ghost function Without(a: seq<bool>, b: seq<bool>): (r: seq<bool>)
    requires |a| == |b|
    ensures |r| == |a|
  {
    seq(|a|, p requires 0 <= p < |a| => a[p] && !b[p])
  }

  ghost function Differ(a: seq<bool>, b: seq<bool>): (r: seq<bool>)
    requires |a| == |b|
    ensures |r| == |a|
  {
    seq(|a|, p requires 0 <= p < |a| => a[p] != b[p])
  }

  datatype Counts = Counts(
    disagreement: nat, left: nat, right: nat, leftOnly: nat, rightOnly: nat, intersection: nat, union: nat)

  ghost predicate Counted(left: seq<bool>, right: seq<bool>, n: nat, c: Counts)
    requires |left| == |right| && n <= |left|
  {
    && c.disagreement == CountTrue(Differ(left, right)[..n])
    && c.left == CountTrue(left[..n])
    && c.right == CountTrue(right[..n])
    && c.leftOnly == CountTrue(Without(left, right)[..n])
    && c.rightOnly == CountTrue(Without(right, left)[..n])
    && c.intersection == CountTrue(Both(left, right)[..n])
    && c.union == CountTrue(Either(left, right)[..n])
  }

  function Tally(c: Counts, leftOccupied: bool, rightOccupied: bool): Counts {
    Counts(
      c.disagreement + (if leftOccupied != rightOccupied then 1 else 0),
      c.left + (if leftOccupied then 1 else 0),
      c.right + (if rightOccupied then 1 else 0),
      c.leftOnly + (if leftOccupied && !rightOccupied then 1 else 0),
      c.rightOnly + (if rightOccupied && !leftOccupied then 1 else 0),
      c.intersection + (if leftOccupied && rightOccupied then 1 else 0),
      c.union + (if leftOccupied || rightOccupied then 1 else 0))
  }

  lemma CountedNext(left: seq<bool>, right: seq<bool>, n: nat, c: Counts)
    requires |left| == |right| && n < |left| && Counted(left, right, n, c)
    ensures Counted(left, right, n + 1, Tally(c, left[n], right[n]))
  {
    CountSnoc(Differ(left, right), n);
    CountSnoc(left, n);
    CountSnoc(right, n);
    CountSnoc(Without(left, right), n);
    CountSnoc(Without(right, left), n);
    CountSnoc(Both(left, right), n);
    CountSnoc(Either(left, right), n);
    hide CountTrue;
  }

  /** The counts are one consistent partition of the region. */
  lemma {:induction false} CountsPartition(left: seq<bool>, right: seq<bool>, n: nat, c: Counts)
    requires |left| == |right| && n <= |left| && Counted(left, right, n, c)
    ensures c.left == c.leftOnly + c.intersection && c.right == c.rightOnly + c.intersection
    ensures c.union == c.disagreement + c.intersection && c.disagreement == c.leftOnly + c.rightOnly
  {
    if n > 0 {
      var before := Counts(
        CountTrue(Differ(left, right)[..n - 1]), CountTrue(left[..n - 1]), CountTrue(right[..n - 1]),
        CountTrue(Without(left, right)[..n - 1]), CountTrue(Without(right, left)[..n - 1]),
        CountTrue(Both(left, right)[..n - 1]), CountTrue(Either(left, right)[..n - 1]));
      CountsPartition(left, right, n - 1, before);
      CountedNext(left, right, n - 1, before);
      hide CountTrue;
    }
  }

  datatype Geometry = Geometry(
    counts: Counts, largestDisagreement: nat, largestLeftOnly: nat, largestRightOnly: nat)

  method CompareGeometry(left: Image, right: Image, roi: Roi) returns (g: Geometry)
    requires left.width == right.width && left.height == right.height && roi.Inside(left)
    ensures
      var l, r, width := Occupancy(left, roi), Occupancy(right, roi), roi.Width();
      && Counted(l, r, |l|, g.counts)
      && IsLargest(Differ(l, r), width, SetPixels(Differ(l, r)), g.largestDisagreement)
      && IsLargest(Without(l, r), width, SetPixels(Without(l, r)), g.largestLeftOnly)
      && IsLargest(Without(r, l), width, SetPixels(Without(r, l)), g.largestRightOnly)
    ensures g.largestLeftOnly <= g.largestDisagreement && g.largestRightOnly <= g.largestDisagreement
    ensures g.counts.left == g.counts.leftOnly + g.counts.intersection
    ensures g.counts.right == g.counts.rightOnly + g.counts.intersection
    ensures g.counts.union == g.counts.disagreement + g.counts.intersection
    ensures g.counts.disagreement == g.counts.leftOnly + g.counts.rightOnly
  {
    var width: nat, height: nat := roi.Width(), roi.Height();
    ghost var l, r := Occupancy(left, roi), Occupancy(right, roi);
    var disagreement, leftOnly, rightOnly, counts := CompareMasks(left, right, roi);
    var largestDisagreement := LargestComponent(disagreement, width, height);
    var largestLeftOnly := LargestComponent(leftOnly, width, height);
    var largestRightOnly := LargestComponent(rightOnly, width, height);
    g := Geometry(counts, largestDisagreement, largestLeftOnly, largestRightOnly);
    hide Occupancy, IsLargest;
    LargestIsMonotone(Without(l, r), Differ(l, r), width, largestLeftOnly, largestDisagreement);
    LargestIsMonotone(Without(r, l), Differ(l, r), width, largestRightOnly, largestDisagreement);
    CountsPartition(l, r, |l|, counts);
  }

  /** The three masks of a comparison. */
  datatype Planes = Planes(disagreement: seq<bool>, leftOnly: seq<bool>, rightOnly: seq<bool>)

  ghost function PlanesOf(disagreement: array<bool>, leftOnly: array<bool>, rightOnly: array<bool>): Planes
    reads disagreement, leftOnly, rightOnly
  {
    Planes(disagreement[..], leftOnly[..], rightOnly[..])
  }

  /** The masks and the seven counts after `n` pixels. */
  ghost predicate Compared(l: seq<bool>, r: seq<bool>, n: nat, c: Counts, p: Planes) {
    && |l| == |r| == |p.disagreement| == |p.leftOnly| == |p.rightOnly| && n <= |l| && Counted(l, r, n, c)
    && Built(p.disagreement, Differ(l, r), n, c.disagreement)
    && Built(p.leftOnly, Without(l, r), n, c.leftOnly)
    && Built(p.rightOnly, Without(r, l), n, c.rightOnly)
  }

  function Mark(mask: seq<bool>, n: nat, value: bool): (r: seq<bool>) {
    if value && n < |mask| then mask[n := true] else mask
  }

  function MarkPlanes(p: Planes, n: nat, leftOccupied: bool, rightOccupied: bool): Planes {
    Planes(
      Mark(p.disagreement, n, leftOccupied != rightOccupied),
      Mark(p.leftOnly, n, leftOccupied && !rightOccupied),
      Mark(p.rightOnly, n, rightOccupied && !leftOccupied))
  }

  lemma ComparedNext(l: seq<bool>, r: seq<bool>, n: nat, c: Counts, p: Planes)
    requires Compared(l, r, n, c, p) && n < |l|
    ensures |p.disagreement| == |p.leftOnly| == |p.rightOnly| == |l| == |r|
    ensures Compared(l, r, n + 1, Tally(c, l[n], r[n]), MarkPlanes(p, n, l[n], r[n]))
  {
    hide CountTrue, Counted, Built;
    CountedNext(l, r, n, c);
    BuiltNext(p.disagreement, Mark(p.disagreement, n, l[n] != r[n]), Differ(l, r), n, c.disagreement);
    BuiltNext(p.leftOnly, Mark(p.leftOnly, n, l[n] && !r[n]), Without(l, r), n, c.leftOnly);
    BuiltNext(p.rightOnly, Mark(p.rightOnly, n, r[n] && !l[n]), Without(r, l), n, c.rightOnly);
  }

  lemma ComparedStart(l: seq<bool>, r: seq<bool>, blank: seq<bool>)
    requires |l| == |r| && blank == Blank(|l|)
    ensures Compared(l, r, 0, Counts(0, 0, 0, 0, 0, 0, 0), Planes(blank, blank, blank))
  {}

  lemma ComparedAll(l: seq<bool>, r: seq<bool>, c: Counts, p: Planes)
    requires Compared(l, r, |l|, c, p)
    ensures |l| == |r| && p == Planes(Differ(l, r), Without(l, r), Without(r, l)) && Counted(l, r, |l|, c)
  {}

  lemma OccupancyOfPixel(image: Image, roi: Roi, x: int, y: int)
    requires roi.Inside(image) && roi.x0 <= x < roi.x1 && roi.y0 <= y < roi.y1
    ensures Offset(roi, x, y) < |Occupancy(image, roi)|
    ensures Occupancy(image, roi)[Offset(roi, x, y)] == !IsDiagnostic(image, Magenta, x, y)
    ensures Offset(roi, x + 1, y) == Offset(roi, x, y) + 1
  {
    hide IsDiagnostic, MaskOf, Offset;
    OffsetOfPixel(image, Magenta, roi, x, y);
  }

  method MarkPixel(
      disagreement: array<bool>, leftOnly: array<bool>, rightOnly: array<bool>, target: nat,
      leftOccupied: bool, rightOccupied: bool)
    requires disagreement != leftOnly && disagreement != rightOnly && leftOnly != rightOnly
    requires target < disagreement.Length && target < leftOnly.Length && target < rightOnly.Length
    modifies disagreement, leftOnly, rightOnly
    ensures PlanesOf(disagreement, leftOnly, rightOnly)
         == MarkPlanes(old(PlanesOf(disagreement, leftOnly, rightOnly)), target, leftOccupied, rightOccupied)
  {
    if leftOccupied == rightOccupied { return; }
    disagreement[target] := true;
    if leftOccupied {
      leftOnly[target] := true;
    } else {
      rightOnly[target] := true;
    }
  }

  method ComparePixel(
      left: Image, right: Image, roi: Roi, x: int, y: int,
      disagreement: array<bool>, leftOnly: array<bool>, rightOnly: array<bool>, before: Counts)
    returns (c: Counts)
    requires left.width == right.width && left.height == right.height && roi.Inside(left)
    requires roi.x0 <= x < roi.x1 && roi.y0 <= y < roi.y1
    requires disagreement != leftOnly && disagreement != rightOnly && leftOnly != rightOnly
    requires Compared(
      Occupancy(left, roi), Occupancy(right, roi), Offset(roi, x, y), before,
      PlanesOf(disagreement, leftOnly, rightOnly))
    modifies disagreement, leftOnly, rightOnly
    ensures Compared(
      Occupancy(left, roi), Occupancy(right, roi), Offset(roi, x + 1, y), c,
      PlanesOf(disagreement, leftOnly, rightOnly))
  {
    ghost var l, r := Occupancy(left, roi), Occupancy(right, roi);
    hide IsDiagnostic, Offset, Occupancy, MaskOf, Compared, MarkPlanes, Tally;
    OccupancyOfPixel(left, roi, x, y);
    OccupancyOfPixel(right, roi, x, y);
    var target := Offset(roi, x, y);
    ComparedNext(l, r, target, before, PlanesOf(disagreement, leftOnly, rightOnly));
    assert target < disagreement.Length && target < leftOnly.Length && target < rightOnly.Length;
    var leftOccupied, rightOccupied := !IsDiagnostic(left, Magenta, x, y), !IsDiagnostic(right, Magenta, x, y);
    MarkPixel(disagreement, leftOnly, rightOnly, target, leftOccupied, rightOccupied);
    c := Tally(before, leftOccupied, rightOccupied);
  }

  method CompareRow(
      left: Image, right: Image, roi: Roi, y: int, disagreement: array<bool>, leftOnly: array<bool>, rightOnly: array<bool>,
      before: Counts)
    returns (c: Counts)
    requires left.width == right.width && left.height == right.height && roi.Inside(left) && roi.y0 <= y < roi.y1
    requires disagreement != leftOnly && disagreement != rightOnly && leftOnly != rightOnly
    requires Compared(
      Occupancy(left, roi), Occupancy(right, roi), Offset(roi, roi.x0, y), before,
      PlanesOf(disagreement, leftOnly, rightOnly))
    modifies disagreement, leftOnly, rightOnly
    ensures Compared(
      Occupancy(left, roi), Occupancy(right, roi), Offset(roi, roi.x0, y + 1), c,
      PlanesOf(disagreement, leftOnly, rightOnly))
  {
    ghost var l, r := Occupancy(left, roi), Occupancy(right, roi);
    OffsetOfRow(roi, y);
    hide Offset, Occupancy, Compared, PlanesOf;
    c := before;
    for x := roi.x0 to roi.x1
      invariant Compared(l, r, Offset(roi, x, y), c, PlanesOf(disagreement, leftOnly, rightOnly))
    {
      c := ComparePixel(left, right, roi, x, y, disagreement, leftOnly, rightOnly, c);
    }
  }

  method CompareMasks(left: Image, right: Image, roi: Roi)
    returns (disagreement: array<bool>, leftOnly: array<bool>, rightOnly: array<bool>, c: Counts)
    requires left.width == right.width && left.height == right.height && roi.Inside(left)
    ensures
      var l, r := Occupancy(left, roi), Occupancy(right, roi);
      && disagreement[..] == Differ(l, r) && leftOnly[..] == Without(l, r) && rightOnly[..] == Without(r, l)
      && Counted(l, r, |l|, c)
  {
    ghost var l, r := Occupancy(left, roi), Occupancy(right, roi);
    disagreement := NewMask(roi);
    leftOnly := NewMask(roi);
    rightOnly := NewMask(roi);
    c := Counts(0, 0, 0, 0, 0, 0, 0);
    OffsetOfRow(roi, roi.y0);
    ComparedStart(l, r, Blank(Area(roi)));
    hide Area, Offset, Occupancy, Compared, Counted, Differ, Without;
    for y := roi.y0 to roi.y1
      invariant Compared(l, r, Offset(roi, roi.x0, y), c, PlanesOf(disagreement, leftOnly, rightOnly))
    {
      c := CompareRow(left, right, roi, y, disagreement, leftOnly, rightOnly, c);
    }
    OffsetOfOccupancy(left, roi);
    ComparedAll(l, r, c, PlanesOf(disagreement, leftOnly, rightOnly));
  }

  lemma OffsetOfOccupancy(image: Image, roi: Roi)
    requires roi.Inside(image)
    ensures Offset(roi, roi.x0, roi.y1) == |Occupancy(image, roi)|
  {
    OffsetOfEnd(image, Magenta, roi);
  }
}
