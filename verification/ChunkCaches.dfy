/** A bot's bounded first-in first-out chunk cache. */
module ChunkCaches {
  import opened Basics

  type Coord = (int, int, int)

  /** A voxel, as its chunk and its place in it; what a material is does not matter here. */
  datatype Voxel = Voxel(chunk: Coord, local: Coord)

  type Material = nat

  datatype Chunk = Chunk(coord: Coord, materials: map<Coord, Material>) {
    function Set(local: Coord, material: Material): Chunk {
      this.(materials := materials[local := material])
    }

    function Get(local: Coord): Material {
      if local in materials then materials[local] else 0
    }
  }

  predicate Distinct<T(==)>(s: seq<T>) {
    forall i, j | 0 <= i < j < |s| :: s[i] != s[j]
  }

  datatype Cache = Cache(capacity: nat, chunks: map<Coord, Chunk>, order: seq<Coord>) {
    /** The order lists every key once. */
    ghost predicate Listed() {
      Distinct(order) && forall c :: c in order <==> c in chunks
    }

    ghost predicate Valid() {
      Listed() && |order| <= capacity
    }
  }

  function EMPTY(capacity: nat): Cache {
    Cache(capacity, map[], [])
  }

  function Elements<T>(s: seq<T>): set<T> {
    set x | x in s
  }

  lemma {:induction false} DistinctSize<T>(s: seq<T>)
    requires Distinct(s)
    ensures |Elements(s)| == |s|
  {
    if s == [] {
      assert Elements(s) == {};
    } else {
      var n := |s| - 1;
      DistinctSize(s[..n]);
      assert Elements(s) == Elements(s[..n]) + {s[n]};
    }
  }

  lemma ListedSize(c: Cache)
    requires c.Listed()
    ensures |c.chunks| == |c.order|
  {
    DistinctSize(c.order);
    assert c.chunks.Keys == Elements(c.order);
    assert |c.chunks| == |c.chunks.Keys|;
  }

  /** Removes the entry that was inserted first. */
  function DropOldest(c: Cache): Cache
    requires c.order != []
  {
    c.(chunks := c.chunks - {c.order[0]}, order := c.order[1..])
  }

  lemma DropOldestKeepsListed(c: Cache)
    requires c.Listed() && c.order != []
    ensures DropOldest(c).Listed()
  {
    assert forall x :: x in c.order[1..] <==> x in c.order && x != c.order[0];
  }

  /** The eviction loop; a cache whose order lists its keys never runs out of entries to evict. */
  function Evict(c: Cache): Cache
    requires c.Listed()
    decreases |c.order|
  {
    if |c.chunks| <= c.capacity then c
    else
      ListedSize(c);
      DropOldestKeepsListed(c);
      Evict(DropOldest(c))
  }

  lemma AdmitKeepsListed(c: Cache, chunk: Chunk)
    requires c.Listed() && chunk.coord !in c.chunks
    ensures Admit(c, chunk).Listed()
  {}

  function Admit(c: Cache, chunk: Chunk): Cache {
    c.(chunks := c.chunks[chunk.coord := chunk], order := c.order + [chunk.coord])
  }

  function Insertion(c: Cache, chunk: Chunk): Cache
    requires c.Listed()
  {
    if chunk.coord in c.chunks then c.(chunks := c.chunks[chunk.coord := chunk])
    else
      AdmitKeepsListed(c, chunk);
      Evict(Admit(c, chunk))
  }

  function Application(c: Cache, v: Voxel, material: Material): Cache {
    if v.chunk in c.chunks then c.(chunks := c.chunks[v.chunk := c.chunks[v.chunk].Set(v.local, material)]) else c
  }

  /**
   * Inserting keeps the order a list of the keys within capacity, and drops at most the oldest entry:
   * a new chunk enters at the end, a known one is replaced in place.
   */
  lemma InsertKeepsValid(c: Cache, chunk: Chunk)
    requires c.Valid()
    ensures
      var r := Insertion(c, chunk);
      && r.Valid() && r.capacity == c.capacity
      && (chunk.coord in c.chunks ==> r.order == c.order && r.chunks == c.chunks[chunk.coord := chunk])
      && (chunk.coord !in c.chunks && |c.order| < c.capacity ==>
            r.order == c.order + [chunk.coord] && r.chunks == c.chunks[chunk.coord := chunk])
      && (chunk.coord !in c.chunks && |c.order| == c.capacity && c.capacity > 0 ==>
            r.order == c.order[1..] + [chunk.coord] && r.chunks == c.chunks[chunk.coord := chunk] - {c.order[0]})
      && (c.capacity == 0 ==> r.order == [] && r.chunks == map[])
  {
    if chunk.coord !in c.chunks {
      AdmissionEvictsOldest(c, chunk);
      hide Evict;
      if c.capacity == 0 {
        assert c.order == [] && c.chunks == map[];
      } else if |c.order| == c.capacity {
        assert (c.order + [chunk.coord])[1..] == c.order[1..] + [chunk.coord];
      }
    }
  }

  lemma AdmissionEvictsOldest(c: Cache, chunk: Chunk)
    requires c.Valid() && chunk.coord !in c.chunks
    ensures Admit(c, chunk).Listed()
    ensures Insertion(c, chunk) == (if |c.order| < c.capacity then Admit(c, chunk) else DropOldest(Admit(c, chunk)))
    ensures Insertion(c, chunk).Valid()
  {
    var grown := Admit(c, chunk);
    AdmitKeepsListed(c, chunk);
    ListedSize(c);
    ListedSize(grown);
    if |grown.order| > c.capacity {
      DropOldestKeepsListed(grown);
      ListedSize(DropOldest(grown));
      hide Admit, DropOldest;
      assert Evict(grown) == Evict(DropOldest(grown)) == DropOldest(grown);
    }
  }

  lemma ApplyKeepsValid(c: Cache, v: Voxel, material: Material)
    requires c.Valid()
    ensures Application(c, v, material).Valid() && Application(c, v, material).order == c.order
  {}

  function Reading(c: Cache, v: Voxel): Option<Material> {
    if v.chunk in c.chunks then Some(c.chunks[v.chunk].Get(v.local)) else None
  }

  /** Reading after a change gives the new material there, if its chunk is cached, and the old one elsewhere. */
  lemma ReadAfterApply(c: Cache, v: Voxel, material: Material, other: Voxel)
    ensures
      Reading(Application(c, v, material), other)
      == if other == v && v.chunk in c.chunks then Some(material) else Reading(c, other)
  {}

  // ------------------------------------------------------------ whole runs

  datatype Operation = InsertOp(chunk: Chunk) | ApplyOp(voxel: Voxel, material: Material) | ClearOp

  function Do(c: Cache, op: Operation): Cache
    requires c.Listed()
  {
    match op
    case InsertOp(chunk) => Insertion(c, chunk)
    case ApplyOp(voxel, material) => Application(c, voxel, material)
    case ClearOp => c.(chunks := map[], order := [])
  }

  /** The coordinates that entered the cache since it was last empty, oldest first. */
  function Admissions(c: Cache, admitted: seq<Coord>, op: Operation): seq<Coord> {
    match op
    case InsertOp(chunk) => if chunk.coord in c.chunks then admitted else admitted + [chunk.coord]
    case ApplyOp(_, _) => admitted
    case ClearOp => []
  }

  function Latest(admitted: seq<Coord>, n: nat): seq<Coord> {
    if |admitted| <= n then admitted else admitted[|admitted| - n..]
  }

  /** The cache holds exactly the latest admissions that fit. */
  ghost predicate KeepsLatest(c: Cache, admitted: seq<Coord>) {
    c.Valid() && c.order == Latest(admitted, c.capacity)
  }

  lemma LatestSnoc(admitted: seq<Coord>, n: nat, x: Coord)
    ensures |Latest(admitted, n)| <= n
    ensures Latest(admitted + [x], n) ==
      if n == 0 then []
      else if |Latest(admitted, n)| < n then Latest(admitted, n) + [x]
      else Latest(admitted, n)[1..] + [x]
  {}

  lemma InsertKeepsLatest(c: Cache, admitted: seq<Coord>, chunk: Chunk)
    requires KeepsLatest(c, admitted)
    ensures
      var r := Insertion(c, chunk);
      r.Valid() && r.capacity == c.capacity
      && r.order == Latest(Admissions(c, admitted, InsertOp(chunk)), c.capacity)
  {
    InsertKeepsValid(c, chunk);
    LatestSnoc(admitted, c.capacity, chunk.coord);
    hide Insertion, Latest;
  }

  lemma DoKeepsLatest(c: Cache, admitted: seq<Coord>, op: Operation)
    requires KeepsLatest(c, admitted)
    ensures KeepsLatest(Do(c, op), Admissions(c, admitted, op)) && Do(c, op).capacity == c.capacity
  {
    match op
    case InsertOp(chunk) =>
      InsertKeepsLatest(c, admitted, chunk);
      hide Insertion, Latest, Admissions;
    case ApplyOp(voxel, material) =>
      ApplyKeepsValid(c, voxel, material);
      hide Application, Latest;
    case ClearOp =>
  }

  function Run(c: Cache, admitted: seq<Coord>, ops: seq<Operation>): (Cache, seq<Coord>)
    requires KeepsLatest(c, admitted)
    decreases |ops|
  {
    if ops == [] then (c, admitted)
    else
      DoKeepsLatest(c, admitted, ops[0]);
      Run(Do(c, ops[0]), Admissions(c, admitted, ops[0]), ops[1..])
  }

  /** Over every run the cache is the window of its latest admissions: first in, first out. */
  lemma {:induction false} RunKeepsLatest(c: Cache, admitted: seq<Coord>, ops: seq<Operation>)
    requires KeepsLatest(c, admitted)
    ensures KeepsLatest(Run(c, admitted, ops).0, Run(c, admitted, ops).1)
    ensures Run(c, admitted, ops).0.capacity == c.capacity
    decreases |ops|
  {
    hide Do, Admissions;
    if ops != [] {
      DoKeepsLatest(c, admitted, ops[0]);
      RunKeepsLatest(Do(c, ops[0]), Admissions(c, admitted, ops[0]), ops[1..]);
    }
  }

  /**
   * What a voxel was last given by a history of operations, by an edit or by an insertion of its chunk. It
   * knows neither the capacity nor what was evicted, nor whether an edit found its chunk.
   */
  function LastWritten(ops: seq<Operation>, v: Voxel): Option<Material> {
    if ops == [] then None
    else
      var n := |ops| - 1;
      match ops[n]
      case InsertOp(chunk) => if chunk.coord == v.chunk then Some(chunk.Get(v.local)) else LastWritten(ops[..n], v)
      case ApplyOp(w, material) => if w == v then Some(material) else LastWritten(ops[..n], v)
      case ClearOp => LastWritten(ops[..n], v)
  }

  ghost predicate ReadsLastWritten(c: Cache, past: seq<Operation>, v: Voxel) {
    Reading(c, v).Some? ==> Reading(c, v) == LastWritten(past, v)
  }

  lemma DoReadsLastWritten(c: Cache, past: seq<Operation>, op: Operation, v: Voxel)
    requires c.Valid() && ReadsLastWritten(c, past, v)
    ensures ReadsLastWritten(Do(c, op), past + [op], v)
  {
    assert (past + [op])[..|past|] == past;
    match op
    case InsertOp(chunk) =>
      InsertKeepsValid(c, chunk);
      hide Insertion;
    case ApplyOp(w, material) => ReadAfterApply(c, w, material, v);
    case ClearOp =>
  }

  lemma {:induction false} RunReadsLastWritten(
      c: Cache, admitted: seq<Coord>, past: seq<Operation>, ops: seq<Operation>, v: Voxel)
    requires KeepsLatest(c, admitted) && ReadsLastWritten(c, past, v)
    ensures ReadsLastWritten(Run(c, admitted, ops).0, past + ops, v)
    decreases |ops|
  {
    if ops == [] {
      assert past + ops == past;
    } else {
      DoReadsLastWritten(c, past, ops[0], v);
      DoKeepsLatest(c, admitted, ops[0]);
      hide Do, Admissions, Reading, LastWritten, ReadsLastWritten;
      AppendAssociates(past, [ops[0]], ops[1..]);
      assert [ops[0]] + ops[1..] == ops;
      RunReadsLastWritten(Do(c, ops[0]), Admissions(c, admitted, ops[0]), past + [ops[0]], ops[1..], v);
    }
  }

  /** Over every run and whatever was evicted, a voxel of a cached chunk reads as it was last written. */
  lemma ReadIsLastWrite(capacity: nat, ops: seq<Operation>, v: Voxel)
    ensures KeepsLatest(EMPTY(capacity), [])
    ensures
      var c := Run(EMPTY(capacity), [], ops).0;
      v.chunk in c.chunks ==> Reading(c, v) == LastWritten(ops, v)
  {
    assert KeepsLatest(EMPTY(capacity), []);
    RunReadsLastWritten(EMPTY(capacity), [], [], ops, v);
    assert [] + ops == ops;
    hide LastWritten, Run;
  }

  class ChunkCache {
    const capacity: nat
    var chunks: map<Coord, Chunk>
    var insertionOrder: seq<Coord>

    ghost function State(): Cache
      reads this
    {
      Cache(capacity, chunks, insertionOrder)
    }

    constructor (capacity: nat)
      ensures State() == EMPTY(capacity) && State().Valid()
    {
      this.capacity := capacity;
      chunks, insertionOrder := map[], [];
    }

    /** The eviction loop ends because the order lists every key. */
    method Insert(chunk: Chunk)
      requires State().Valid()
      modifies this
      ensures State() == Insertion(old(State()), chunk) && State().Valid()
    {
      ghost var before := State();
      InsertKeepsValid(before, chunk);
      var known := chunk.coord in chunks;
      chunks := chunks[chunk.coord := chunk];
      if known { return; }
      insertionOrder := insertionOrder + [chunk.coord];
      assert State() == Admit(before, chunk);
      AdmitKeepsListed(before, chunk);
      while |chunks| > capacity
        invariant State().Listed() && Evict(State()) == Insertion(before, chunk)
        decreases |insertionOrder|
      {
        ListedSize(State());
        DropOldestKeepsListed(State());
        if |insertionOrder| > 0 {
          var evicted := insertionOrder[0];
          insertionOrder := insertionOrder[1..];
          chunks := chunks - {evicted};
        }
      }
    }

    method Apply(v: Voxel, material: Material)
      modifies this
      ensures State() == Application(old(State()), v, material)
    {
      if v.chunk in chunks {
        chunks := chunks[v.chunk := chunks[v.chunk].Set(v.local, material)];
      }
    }

    method Clear()
      modifies this
      ensures State() == EMPTY(capacity)
    {
      chunks, insertionOrder := map[], [];
    }

    function Contains(coord: Coord): (cached: bool)
      reads this
      ensures cached <==> Reading(State(), Voxel(coord, (0, 0, 0))).Some?
    {
      coord in chunks
    }

    function MaterialAt(v: Voxel): (m: Option<Material>)
      reads this
      ensures m == Reading(State(), v)
    {
      if v.chunk in chunks then Some(chunks[v.chunk].Get(v.local)) else None
    }
  }
}
