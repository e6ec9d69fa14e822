/** Flood-fill component analysis of a pixel mask: the oracle for holes in rendered terrain. */
module ConnectedComponents {
  import opened PixelGrids

  ghost predicate IsSet(mask: seq<bool>, p: int) {
    0 <= p < |mask| && mask[p]
  }

  /** A walk over set pixels, each adjacent to the one before it. */
  ghost predicate IsPath(mask: seq<bool>, width: nat, path: seq<nat>)
    requires width > 0
  {
    && path != []
    && (forall i | 0 <= i < |path| :: IsSet(mask, path[i]))
    && (forall i | 0 <= i < |path| - 1 :: Adjacent(width, path[i], path[i + 1]))
  }

  ghost predicate PathBetween(mask: seq<bool>, width: nat, a: nat, b: nat, path: seq<nat>)
    requires width > 0
  {
    IsPath(mask, width, path) && path[0] == a && path[|path| - 1] == b
  }

  ghost predicate Connected(mask: seq<bool>, width: nat, a: nat, b: nat)
    requires width > 0
  {
    exists path :: PathBetween(mask, width, a, b, path)
  }

  ghost function Component(mask: seq<bool>, width: nat, a: nat): (c: set<nat>)
    requires width > 0
  {
    set q: nat | 0 <= q < |mask| && Connected(mask, width, a, q)
  }

  ghost function SetPixels(mask: seq<bool>): set<nat> {
    set p: nat | 0 <= p < |mask| && mask[p]
  }

  // ------------------------------------------------------------ reachability

  lemma AlwaysConnectedToItself(mask: seq<bool>, width: nat, a: nat)
    requires width > 0 && IsSet(mask, a)
    ensures Connected(mask, width, a, a) && a in Component(mask, width, a)
  {
    assert PathBetween(mask, width, a, a, [a]);
  }

  lemma ConnectedStep(mask: seq<bool>, width: nat, a: nat, b: nat, c: nat)
    requires width > 0 && Connected(mask, width, a, b) && IsSet(mask, c) && Adjacent(width, b, c)
    ensures Connected(mask, width, a, c)
  {
    var path :| PathBetween(mask, width, a, b, path);
    assert PathBetween(mask, width, a, c, path + [c]);
  }

  ghost function Reverse(path: seq<nat>): (r: seq<nat>)
    ensures |r| == |path|
  {
    seq(|path|, i requires 0 <= i < |path| => path[|path| - 1 - i])
  }

  lemma ConnectedBack(mask: seq<bool>, width: nat, a: nat, b: nat)
    requires width > 0 && Connected(mask, width, a, b)
    ensures Connected(mask, width, b, a) && IsSet(mask, a) && IsSet(mask, b)
  {
    var path :| PathBetween(mask, width, a, b, path);
    var back := Reverse(path);
    forall i | 0 <= i < |back| - 1
      ensures Adjacent(width, back[i], back[i + 1])
    {
      assert Adjacent(width, path[|path| - 2 - i], path[|path| - 2 - i + 1]);
    }
    assert PathBetween(mask, width, b, a, back);
  }

  /** A set that a step cannot leave holds everything its members reach. */
  ghost predicate Closed(mask: seq<bool>, width: nat, s: set<nat>)
    requires width > 0
  {
    forall p, q | p in s && IsSet(mask, q) && Adjacent(width, p, q) :: q in s
  }

  lemma {:induction false} PathStaysInside(mask: seq<bool>, width: nat, s: set<nat>, path: seq<nat>, i: nat)
    requires width > 0 && Closed(mask, width, s) && IsPath(mask, width, path) && path[0] in s && i < |path|
    ensures path[i] in s
  {
    if i > 0 {
      PathStaysInside(mask, width, s, path, i - 1);
      assert Adjacent(width, path[i - 1], path[i - 1 + 1]);
    }
  }

  lemma ClosedHoldsComponent(mask: seq<bool>, width: nat, s: set<nat>, a: nat)
    requires width > 0 && Closed(mask, width, s) && a in s
    ensures Component(mask, width, a) <= s
  {
    forall q | q in Component(mask, width, a)
      ensures q in s
    {
      var path :| PathBetween(mask, width, a, q, path);
      PathStaysInside(mask, width, s, path, |path| - 1);
    }
  }

  lemma ComponentIsClosed(mask: seq<bool>, width: nat, a: nat)
    requires width > 0
    ensures Closed(mask, width, Component(mask, width, a))
  {
    forall p, q | p in Component(mask, width, a) && IsSet(mask, q) && Adjacent(width, p, q)
      ensures q in Component(mask, width, a)
    {
      ConnectedStep(mask, width, a, p, q);
    }
  }

  /** Reachability classes: two pixels of one component have the same component. */
  lemma SameComponent(mask: seq<bool>, width: nat, a: nat, b: nat)
    requires width > 0 && b in Component(mask, width, a)
    ensures Component(mask, width, b) == Component(mask, width, a)
  {
    ConnectedBack(mask, width, a, b);
    ComponentIsClosed(mask, width, a);
    ComponentIsClosed(mask, width, b);
    ClosedHoldsComponent(mask, width, Component(mask, width, a), b);
    ClosedHoldsComponent(mask, width, Component(mask, width, b), a);
  }

  lemma ClosedHoldsBack(mask: seq<bool>, width: nat, s: set<nat>, p: nat, a: nat)
    requires width > 0 && Closed(mask, width, s) && p in s && p in Component(mask, width, a)
    ensures a in s
  {
    ConnectedBack(mask, width, a, p);
    ClosedHoldsComponent(mask, width, s, p);
    assert a in Component(mask, width, p);
  }

  lemma ClosedDifference(mask: seq<bool>, width: nat, s: set<nat>, a: nat)
    requires width > 0 && Closed(mask, width, s) && (forall p | p in s :: IsSet(mask, p)) && IsSet(mask, a) && a !in s
    ensures Component(mask, width, a) !! s && Closed(mask, width, s + Component(mask, width, a))
  {
    ComponentIsClosed(mask, width, a);
    forall p | p in s && p in Component(mask, width, a)
      ensures false
    {
      ClosedHoldsBack(mask, width, s, p, a);
    }
  }

  // ------------------------------------------------------- what is measured

  /** A component with a pixel on the region's perimeter, such as a legitimate silhouette. */
  ghost predicate Touches(mask: seq<bool>, width: nat, height: nat, a: nat)
    requires width > 0
  {
    exists p :: p in Component(mask, width, a) && Perimeter(width, height, p)
  }

  ghost function BoundaryPixels(mask: seq<bool>, width: nat, height: nat, s: set<nat>): set<nat>
    requires width > 0
  {
    set p | p in s && Touches(mask, width, height, p)
  }

  /** Pixels whose component no perimeter pixel belongs to: fully enclosed by geometry. */
  ghost function EnclosedPixels(mask: seq<bool>, width: nat, height: nat, s: set<nat>): set<nat>
    requires width > 0
  {
    set p | p in s && !Touches(mask, width, height, p)
  }

  /**
   * A pixel is enclosed when no pixel of its component has a neighbour beyond the grid, and connected to the
   * boundary otherwise.
   */
  lemma EnclosedIsSurrounded(mask: seq<bool>, width: nat, height: nat, s: set<nat>, p: nat)
    requires width > 0 && |mask| == width * height && p in s
    ensures
      p in EnclosedPixels(mask, width, height, s) <==>
        forall q | q in Component(mask, width, p) :: Surrounded(width, height, q)
    ensures p in BoundaryPixels(mask, width, height, s) <==> p !in EnclosedPixels(mask, width, height, s)
  {
    forall q | q in Component(mask, width, p)
      ensures Perimeter(width, height, q) <==> !Surrounded(width, height, q)
    {
      ComponentIsInside(mask, width, p, q);
      PerimeterIsEdge(width, height, q);
    }
    hide Component, Perimeter, Surrounded;
  }

  lemma ComponentIsInside(mask: seq<bool>, width: nat, a: nat, p: nat)
    requires width > 0 && p in Component(mask, width, a)
    ensures p < |mask|
  {}

  /** The size of the largest component of the pixels of `s`, and zero if there are none. */
  ghost predicate IsLargest(mask: seq<bool>, width: nat, s: set<nat>, largest: nat)
    requires width > 0
  {
    && (forall p | p in s :: |Component(mask, width, p)| <= largest)
    && (largest == 0 || exists p :: p in s && |Component(mask, width, p)| == largest)
  }

  lemma {:induction false} BoundedPixels(n: nat, s: set<nat>)
    requires forall p | p in s :: p < n
    ensures |s| <= n
  {
    if n > 0 {
      BoundedPixels(n - 1, s - {n - 1});
      SubsetSize(s, s - {n - 1} + {n - 1});
    } else {
      assert s == {};
    }
  }

  lemma {:induction false} SubsetSize<T>(a: set<T>, b: set<T>)
    requires a <= b
    ensures |a| <= |b|
    decreases |a|
  {
    if a != {} {
      var x :| x in a;
      SubsetSize(a - {x}, b - {x});
    }
  }

  /** More pixels can only make components grow. */
  lemma ComponentGrows(small: seq<bool>, big: seq<bool>, width: nat, a: nat)
    requires width > 0 && |small| == |big| && forall p | 0 <= p < |small| :: small[p] ==> big[p]
    ensures Component(small, width, a) <= Component(big, width, a)
  {
    forall q | q in Component(small, width, a)
      ensures q in Component(big, width, a)
    {
      var path :| PathBetween(small, width, a, q, path);
      assert PathBetween(big, width, a, q, path);
    }
  }

  /** The largest component is monotone in the mask. */
  lemma LargestIsMonotone(small: seq<bool>, big: seq<bool>, width: nat, a: nat, b: nat)
    requires width > 0 && |small| == |big| && forall p | 0 <= p < |small| :: small[p] ==> big[p]
    requires IsLargest(small, width, SetPixels(small), a) && IsLargest(big, width, SetPixels(big), b)
    ensures a <= b
  {
    if a > 0 {
      var p :| p in SetPixels(small) && |Component(small, width, p)| == a;
      ComponentGrows(small, big, width, p);
      SubsetSize(Component(small, width, p), Component(big, width, p));
      assert p in SetPixels(big);
    }
  }

  // ------------------------------------------------------------- the flood

  ghost predicate Marks(visited: seq<bool>, s: set<nat>) {
    forall p: nat :: p in s <==> p < |visited| && visited[p]
  }

  /** The loop state of one flood: what was visited before, what was popped, what is on the stack. */
  ghost predicate Flooding(
      mask: seq<bool>, visited: seq<bool>, width: nat, start: nat, before: set<nat>, popped: set<nat>, stack: seq<nat>)
    requires width > 0
  {
    && |visited| == |mask| && (forall p | p in before :: p < |visited|)
    && (forall p | 0 <= p < |visited| :: visited[p] <==> p in before || p in popped || p in stack)
    && Closed(mask, width, before) && before !! Component(mask, width, start)
    && (forall p | p in popped :: p !in stack)
    && (forall i, j | 0 <= i < j < |stack| :: stack[i] != stack[j])
    && (forall p | p in popped || p in stack :: p in Component(mask, width, start))
    && (start in popped || start in stack)
    && (forall p, q | p in popped && IsSet(mask, q) && Adjacent(width, p, q) :: q in popped || q in stack)
  }

  lemma FloodStarts(mask: seq<bool>, visited: seq<bool>, width: nat, start: nat, before: set<nat>)
    requires width > 0 && |visited| == |mask| && Marks(visited, before) && IsSet(mask, start) && !visited[start]
    requires Closed(mask, width, before) && forall p | p in before :: IsSet(mask, p)
    ensures Flooding(mask, visited[start := true], width, start, before, {}, [start])
  {
    AlwaysConnectedToItself(mask, width, start);
    ClosedDifference(mask, width, before, start);
    hide Component, Closed;
  }

  /** Popping a pixel and pushing its unvisited set neighbours keeps the flood's state. */
  lemma FloodContinues(
      mask: seq<bool>, visited: seq<bool>, after: seq<bool>, width: nat, height: nat, start: nat,
      before: set<nat>, popped: set<nat>, stack: seq<nat>, neighbors: seq<int>, pushed: seq<nat>)
    requires width > 0 && |mask| == width * height && stack != []
    requires Flooding(mask, visited, width, start, before, popped, stack)
    requires ListsNeighbors(neighbors, width, height, stack[|stack| - 1])
    requires |after| == |mask| && Marked(mask, visited, after, neighbors, pushed)
    ensures
      var current := stack[|stack| - 1];
      Flooding(mask, after, width, start, before, popped + {current}, stack[..|stack| - 1] + pushed)
  {
    var n := |stack| - 1;
    var current, rest := stack[n], stack[..n];
    var next := rest + pushed;
    assert current in stack;
    forall p | p in pushed
      ensures p in Component(mask, width, start)
    {
      assert Adjacent(width, current, p);
      ConnectedStep(mask, width, start, current, p);
    }
    assert forall p :: p in stack <==> p == current || p in rest;
    assert forall p :: p in next <==> p in rest || p in pushed;
    assert forall p | p in pushed :: p !in stack && p !in popped;
    assert current !in rest && current !in popped;
    hide Component, Closed, Adjacent, ListsNeighbors;
    forall i, j | 0 <= i < j < |next|
      ensures next[i] != next[j]
    {
      if i < n <= j {
        assert next[i] in stack && next[j] in pushed;
      }
    }
    forall q | IsSet(mask, q) && Adjacent(width, current, q)
      ensures q in popped + {current} || q in next
    {
      ConnectedStep(mask, width, start, current, q);
      assert q in neighbors && after[q] && q in Component(mask, width, start);
    }
  }

  ghost predicate Marked(
      mask: seq<bool>, visited: seq<bool>, after: seq<bool>, neighbors: seq<int>, pushed: seq<nat>)
    requires |mask| == |visited| == |after|
  {
    && (forall i, j | 0 <= i < j < |pushed| :: pushed[i] != pushed[j])
    && (forall q | q in pushed :: q in neighbors && q < |mask| && mask[q] && !visited[q])
    && (forall p | 0 <= p < |mask| :: after[p] <==> visited[p] || p in pushed)
    && (forall q | q in neighbors && 0 <= q < |mask| && mask[q] :: after[q])
  }

  /** An exhausted flood has popped exactly one component. */
  lemma FloodEnds(
      mask: seq<bool>, visited: seq<bool>, width: nat, start: nat, before: set<nat>, popped: set<nat>)
    requires width > 0 && Flooding(mask, visited, width, start, before, popped, [])
    ensures popped == Component(mask, width, start)
    ensures Marks(visited, before + popped)
  {
    hide Component;
    assert Closed(mask, width, popped);
    ClosedHoldsComponent(mask, width, popped, start);
    forall p: nat
      ensures p in before + popped <==> p < |visited| && visited[p]
    {
      if p in popped { InComponent(mask, width, start, p); }
      if p in before { assert p !in Component(mask, width, start); }
    }
  }

  lemma InComponent(mask: seq<bool>, width: nat, a: nat, p: nat)
    requires width > 0 && p in Component(mask, width, a)
    ensures p < |mask| && IsSet(mask, p)
  {
    ConnectedBack(mask, width, a, p);
  }

  /** Marks and pushes every set neighbour that was not visited before. */
  method PushNeighbors(mask: array<bool>, visited: array<bool>, neighbors: seq<int>) returns (pushed: seq<nat>)
    requires mask.Length == visited.Length && mask != visited
    requires forall q | q in neighbors :: q < mask.Length
    modifies visited
    ensures Marked(mask[..], old(visited[..]), visited[..], neighbors, pushed)
  {
    pushed := [];
    for i := 0 to |neighbors|
      invariant Marked(mask[..], old(visited[..]), visited[..], neighbors[..i], pushed)
    {
      var neighbor := neighbors[i];
      assert neighbor in neighbors;
      assert forall q :: q in neighbors[..i + 1] <==> q in neighbors[..i] || q == neighbor;
      if neighbor < 0 || !mask[neighbor] || visited[neighbor] { continue; }
      visited[neighbor] := true;
      pushed := pushed + [neighbor];
    }
    assert neighbors[..|neighbors|] == neighbors;
  }

  /**
   * One flood from an unvisited pixel. The two analyses list a pixel's neighbours in different ways;
   * `table` chooses. At most 32 of the component's pixels are kept as samples.
   */
  method Flood(
      mask: array<bool>, visited: array<bool>, width: nat, height: nat, start: nat, table: bool, ghost before: set<nat>)
    returns (pixels: nat, touches: bool, samples: seq<nat>)
    requires width > 0 && mask.Length == width * height == visited.Length && mask != visited
    requires start < mask.Length && mask[start] && !visited[start] && Marks(visited[..], before)
    requires Closed(mask[..], width, before) && forall p | p in before :: IsSet(mask[..], p)
    modifies visited
    ensures Marks(visited[..], before + Component(mask[..], width, start))
    ensures pixels == |Component(mask[..], width, start)|
    ensures touches <==> Touches(mask[..], width, height, start)
    ensures |samples| == (if pixels < 32 then pixels else 32)
    ensures forall p | p in samples :: p in Component(mask[..], width, start)
  {
    ghost var m := mask[..];
    ghost var popped: set<nat> := {};
    FloodStarts(m, visited[..], width, start, before);
    var stack: seq<nat> := [start];
    visited[start] := true;
    pixels, touches, samples := 0, false, [];
    while |stack| > 0
      invariant Flooding(m, visited[..], width, start, before, popped, stack)
      invariant (forall p | p in popped :: p < mask.Length) && pixels == |popped| <= mask.Length
      invariant touches <==> exists p :: p in popped && Perimeter(width, height, p)
      invariant |samples| == (if pixels < 32 then pixels else 32)
      invariant forall p | p in samples :: p in popped
      decreases mask.Length - pixels
    {
      var current := stack[|stack| - 1];
      InComponent(m, width, start, current);
      assert current in stack && current !in popped;
      BoundedPixels(mask.Length, popped + {current});
      pixels := pixels + 1;
      touches := touches || Perimeter(width, height, current);
      if |samples| < 32 { samples := samples + [current]; }
      var neighbors;
      if table {
        neighbors := NeighborTable(width, height, current);
      } else {
        neighbors := NeighborsByOffset(width, height, current);
      }
      ghost var was := visited[..];
      var pushed := PushNeighbors(mask, visited, neighbors);
      FloodContinues(m, was, visited[..], width, height, start, before, popped, stack, neighbors, pushed);
      stack := stack[..|stack| - 1] + pushed;
      popped := popped + {current};
    }
    FloodEnds(m, visited[..], width, start, before, popped);
  }

  // -------------------------------------------------------------- the census

  /** What the analysis reports about the pixels of `s`, a union of whole components. */
  datatype Census = Census(largest: nat, boundary: nat, enclosed: nat, largestEnclosed: nat)

  ghost predicate Tallied(mask: seq<bool>, width: nat, height: nat, s: set<nat>, c: Census)
    requires width > 0
  {
    && c.boundary == |BoundaryPixels(mask, width, height, s)|
    && c.enclosed == |EnclosedPixels(mask, width, height, s)|
    && IsLargest(mask, width, s, c.largest)
    && IsLargest(mask, width, EnclosedPixels(mask, width, height, s), c.largestEnclosed)
  }

  function Count(c: Census, pixels: nat, touches: bool): Census {
    var largest := if c.largest < pixels then pixels else c.largest;
    if touches then c.(largest := largest, boundary := c.boundary + pixels)
    else
      c.(
        largest := largest,
        enclosed := c.enclosed + pixels,
        largestEnclosed := if c.largestEnclosed < pixels then pixels else c.largestEnclosed)
  }

  lemma LargestWith(mask: seq<bool>, width: nat, s: set<nat>, largest: nat, start: nat)
    requires width > 0 && IsSet(mask, start) && IsLargest(mask, width, s, largest)
    ensures
      var c := Component(mask, width, start);
      IsLargest(mask, width, s + c, if largest < |c| then |c| else largest)
  {
    hide *;
    var c := Component(mask, width, start);
    AlwaysConnectedToItself(mask, width, start);
    forall p | p in c
      ensures Component(mask, width, p) == c
    {
      SameComponent(mask, width, start, p);
    }
    LargestOfUnion(mask, width, s, largest, c, start);
  }

  lemma LargestOfUnion(mask: seq<bool>, width: nat, s: set<nat>, largest: nat, c: set<nat>, start: nat)
    requires width > 0 && IsLargest(mask, width, s, largest)
    requires start in c && forall p | p in c :: Component(mask, width, p) == c
    ensures IsLargest(mask, width, s + c, if largest < |c| then |c| else largest)
  {
    hide Component;
    if largest < |c| {
      assert start in s + c && |Component(mask, width, start)| == |c|;
    } else if largest > 0 {
      var p :| p in s && |Component(mask, width, p)| == largest;
      assert p in s + c && |Component(mask, width, p)| == largest;
    }
    forall p | p in s + c
      ensures |Component(mask, width, p)| <= if largest < |c| then |c| else largest
    {}
  }

  lemma DisjointSize<T>(a: set<T>, b: set<T>)
    requires a !! b
    ensures |a + b| == |a| + |b|
  {}

  /** A whole component is on one side of the divide. */
  lemma ComponentSides(mask: seq<bool>, width: nat, height: nat, s: set<nat>, start: nat)
    requires width > 0
    ensures
      var component := Component(mask, width, start);
      var boundary, enclosed := BoundaryPixels(mask, width, height, s), EnclosedPixels(mask, width, height, s);
      if Touches(mask, width, height, start) then
        && BoundaryPixels(mask, width, height, s + component) == boundary + component
        && EnclosedPixels(mask, width, height, s + component) == enclosed
      else
        && BoundaryPixels(mask, width, height, s + component) == boundary
        && EnclosedPixels(mask, width, height, s + component) == enclosed + component
  {
    var component := Component(mask, width, start);
    forall p | p in component
      ensures Touches(mask, width, height, p) == Touches(mask, width, height, start)
    {
      SameComponent(mask, width, start, p);
    }
    hide Touches, Component;
  }

  lemma TallyComponent(mask: seq<bool>, width: nat, height: nat, s: set<nat>, start: nat, c: Census)
    requires width > 0 && IsSet(mask, start) && Component(mask, width, start) !! s
    requires Tallied(mask, width, height, s, c)
    ensures
      var component := Component(mask, width, start);
      Tallied(
        mask, width, height, s + component, Count(c, |component|, Touches(mask, width, height, start)))
  {
    hide Component, Touches, IsLargest;
    var component := Component(mask, width, start);
    var boundary, enclosed := BoundaryPixels(mask, width, height, s), EnclosedPixels(mask, width, height, s);
    assert boundary <= s && enclosed <= s;
    hide BoundaryPixels, EnclosedPixels;
    LargestWith(mask, width, s, c.largest, start);
    LargestWith(mask, width, enclosed, c.largestEnclosed, start);
    ComponentSides(mask, width, height, s, start);
    DisjointSize(boundary, component);
    DisjointSize(enclosed, component);
  }

  /** Boundary-connected and enclosed pixels add up to the set pixels. */
  lemma CensusIsComplete(mask: seq<bool>, width: nat, height: nat, c: Census)
    requires width > 0 && Tallied(mask, width, height, SetPixels(mask), c)
    ensures c.boundary + c.enclosed == |SetPixels(mask)|
    ensures c.largestEnclosed <= c.largest
  {
    var all := SetPixels(mask);
    hide Touches;
    assert BoundaryPixels(mask, width, height, all) + EnclosedPixels(mask, width, height, all) == all;
  }

  /** The scan's state: whole components were visited, among them those of all pixels before `start`. */
  ghost predicate Scanned(mask: seq<bool>, width: nat, s: set<nat>, start: nat)
    requires width > 0
  {
    && Closed(mask, width, s)
    && (forall p | p in s :: IsSet(mask, p))
    && (forall p | 0 <= p < start && p < |mask| && mask[p] :: p in s)
  }

  lemma ScanStep(mask: seq<bool>, width: nat, s: set<nat>, start: nat)
    requires width > 0 && start < |mask| && Scanned(mask, width, s, start) && IsSet(mask, start) && start !in s
    ensures Component(mask, width, start) !! s && Scanned(mask, width, s + Component(mask, width, start), start + 1)
  {
    ClosedDifference(mask, width, s, start);
    AlwaysConnectedToItself(mask, width, start);
    forall p | p in Component(mask, width, start)
      ensures IsSet(mask, p)
    {
      InComponent(mask, width, start, p);
    }
    hide Component, Closed;
  }

  lemma ScanSkip(mask: seq<bool>, width: nat, s: set<nat>, start: nat)
    requires width > 0 && start < |mask| && Scanned(mask, width, s, start) && (mask[start] ==> start in s)
    ensures Scanned(mask, width, s, start + 1)
  {
    hide Closed;
  }

  lemma ScanEnds(mask: seq<bool>, width: nat, s: set<nat>)
    requires width > 0 && Scanned(mask, width, s, |mask|)
    ensures s == SetPixels(mask)
  {
    hide Closed;
  }

  /** As many enclosed pixels as there are, up to 32. */
  ghost predicate Sampled(
    mask: seq<bool>, width: nat, height: nat, s: set<nat>, c: Census, samples: seq<nat>)
    requires width > 0
  {
    && |samples| == (if c.enclosed < 32 then c.enclosed else 32)
    && forall p | p in samples :: p in EnclosedPixels(mask, width, height, s)
  }

  lemma SampleMore(
      mask: seq<bool>, width: nat, height: nat, s: set<nat>, start: nat, c: Census, samples: seq<nat>, found: seq<nat>)
    requires width > 0 && Sampled(mask, width, height, s, c, samples)
    requires forall p | p in found :: p in Component(mask, width, start)
    requires
      var pixels := |Component(mask, width, start)|;
      |found| == if pixels < 32 then pixels else 32
    ensures
      var component, touches := Component(mask, width, start), Touches(mask, width, height, start);
      var room := 32 - |samples|;
      var more := if touches then samples else samples + (if |found| <= room then found else found[..room]);
      Sampled(mask, width, height, s + component, Count(c, |component|, touches), more)
  {
    ComponentSides(mask, width, height, s, start);
    hide Component, Touches, EnclosedPixels, BoundaryPixels;
  }

  lemma ScannedMeans(mask: seq<bool>, width: nat, s: set<nat>, start: nat)
    requires width > 0 && Scanned(mask, width, s, start)
    ensures Closed(mask, width, s) && forall p | p in s :: IsSet(mask, p)
  {
    hide Closed, IsSet;
  }

  /** The flood from an unvisited pixel, counted and sampled. */
  method AnalyzeFrom(
      mask: array<bool>, visited: array<bool>, width: nat, height: nat, start: nat, before: Census,
      earlier: seq<nat>, ghost done: set<nat>)
    returns (c: Census, samples: seq<nat>)
    requires width > 0 && mask.Length == width * height == visited.Length && mask != visited
    requires start < mask.Length && mask[start] && !visited[start] && Marks(visited[..], done)
    requires Scanned(mask[..], width, done, start) && Tallied(mask[..], width, height, done, before)
    requires Sampled(mask[..], width, height, done, before, earlier)
    modifies visited
    ensures
      var grown := done + Component(mask[..], width, start);
      && Marks(visited[..], grown) && Scanned(mask[..], width, grown, start + 1)
      && Tallied(mask[..], width, height, grown, c) && Sampled(mask[..], width, height, grown, c, samples)
  {
    assert mask[..][start] && start !in done;
    assert IsSet(mask[..], start);
    hide Marks, Scanned, Tallied, Sampled, Component, Touches, IsSet, Closed, Count;
    ScannedMeans(mask[..], width, done, start);
    var pixels, touches, found := Flood(mask, visited, width, height, start, false, done);
    ScanStep(mask[..], width, done, start);
    TallyComponent(mask[..], width, height, done, start, before);
    SampleMore(mask[..], width, height, done, start, before, earlier, found);
    c, samples := Count(before, pixels, touches), earlier;
    if !touches {
      var room := 32 - |samples|;
      samples := samples + (if |found| <= room then found else found[..room]);
    }
  }

  /** Every component, its size, and whether it touches the perimeter; samples are enclosed pixels. */
  method AnalyzeMask(mask: array<bool>, width: nat, height: nat) returns (c: Census, samples: seq<nat>)
    requires width > 0 && mask.Length == width * height
    ensures Tallied(mask[..], width, height, SetPixels(mask[..]), c)
    ensures c.boundary + c.enclosed == |SetPixels(mask[..])| && c.largestEnclosed <= c.largest
    ensures |samples| == (if c.enclosed < 32 then c.enclosed else 32)
    ensures forall p | p in samples :: p in EnclosedPixels(mask[..], width, height, SetPixels(mask[..]))
  {
    ghost var m := mask[..];
    ghost var done: set<nat> := {};
    var visited := new bool[mask.Length](_ => false);
    c, samples := Census(0, 0, 0, 0), [];
    assert Scanned(m, width, done, 0) && Marks(visited[..], done) && Sampled(m, width, height, done, c, samples);
    NothingTallied(m, width, height);
    hide Tallied, Component, Touches, EnclosedPixels, Scanned, Closed, IsSet;
    for start := 0 to mask.Length
      invariant mask[..] == m && Marks(visited[..], done) && Scanned(m, width, done, start)
      invariant Tallied(m, width, height, done, c) && Sampled(m, width, height, done, c, samples)
    {
      if !mask[start] || visited[start] {
        ScanSkip(m, width, done, start);
        continue;
      }
      c, samples := AnalyzeFrom(mask, visited, width, height, start, c, samples, done);
      done := done + Component(m, width, start);
    }
    ScanEnds(m, width, done);
    CensusIsComplete(m, width, height, c);
  }

  lemma NothingTallied(mask: seq<bool>, width: nat, height: nat)
    requires width > 0
    ensures Tallied(mask, width, height, {}, Census(0, 0, 0, 0))
  {
    hide Touches;
    assert BoundaryPixels(mask, width, height, {}) == {} && EnclosedPixels(mask, width, height, {}) == {};
  }

  /** The size of the largest component, with the other way to list neighbours. */
  method LargestComponent(mask: array<bool>, width: nat, height: nat) returns (largest: nat)
    requires width > 0 && mask.Length == width * height
    ensures IsLargest(mask[..], width, SetPixels(mask[..]), largest)
  {
    ghost var m := mask[..];
    ghost var done: set<nat> := {};
    var visited := new bool[mask.Length](_ => false);
    largest := 0;
    for start := 0 to mask.Length
      invariant mask[..] == m && Marks(visited[..], done) && Scanned(m, width, done, start)
      invariant IsLargest(m, width, done, largest)
    {
      if !mask[start] || visited[start] {
        ScanSkip(m, width, done, start);
        continue;
      }
      var pixels, _, _ := Flood(mask, visited, width, height, start, true, done);
      ScanStep(m, width, done, start);
      LargestWith(m, width, done, largest, start);
      largest := if largest < pixels then pixels else largest;
      done := done + Component(m, width, start);
    }
    ScanEnds(m, width, done);
  }
}
