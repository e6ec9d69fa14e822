/** A bot's in-flight chunk batches: what it asked for, what may answer, and what reaches its cache. */
module ChunkWindows {
  import opened Basics
  import opened ChunkCaches

  datatype Window = Window(requested: set<Coord>, inFlight: set<Coord>, pending: map<nat, seq<Coord>>)

  const IDLE := Window({}, {}, map[])

  function Begun(w: Window, id: nat, coords: seq<Coord>): Window {
    Window(w.requested + Elements(coords), w.inFlight + Elements(coords), w.pending[id := coords])
  }

  /** Takes a batch out of the table, if it is there. */
  function Finished(w: Window, id: nat): Window {
    if id in w.pending then w.(inFlight := w.inFlight - Elements(w.pending[id]), pending := w.pending - {id}) else w
  }

  function ResetAfterResync(w: Window): Window {
    w.(inFlight := {}, pending := map[])
  }

  /** The in-flight set is the disjoint union of the pending batches, each without repetition. */
  ghost predicate Partitioned(w: Window) {
    && (forall id | id in w.pending :: Distinct(w.pending[id]))
    && (forall id, other | id in w.pending && other in w.pending && id != other ::
          Elements(w.pending[id]) !! Elements(w.pending[other]))
    && (forall c :: c in w.inFlight <==> exists id :: id in w.pending && c in w.pending[id])
  }

  lemma BeginKeepsPartitioned(w: Window, id: nat, coords: seq<Coord>)
    requires Partitioned(w) && id !in w.pending && Distinct(coords) && Elements(coords) !! w.inFlight
    ensures Partitioned(Begun(w, id, coords))
  {
    var r := Begun(w, id, coords);
    forall other | other in w.pending
      ensures Elements(w.pending[other]) !! Elements(coords)
    {
      forall c | c in w.pending[other]
        ensures c in w.inFlight
      {}
    }
    forall c
      ensures c in r.inFlight <==> exists i :: i in r.pending && c in r.pending[i]
    {
      if c in coords { assert id in r.pending && c in r.pending[id]; }
      if c in w.inFlight {
        var i :| i in w.pending && c in w.pending[i];
        assert i in r.pending && c in r.pending[i];
      }
    }
  }

  lemma FinishKeepsPartitioned(w: Window, id: nat)
    requires Partitioned(w)
    ensures Partitioned(Finished(w, id))
  {
    if id in w.pending {
      var r := Finished(w, id);
      forall c
        ensures c in r.inFlight <==> exists i :: i in r.pending && c in r.pending[i]
      {
        if c in r.inFlight {
          var i :| i in w.pending && c in w.pending[i];
          assert i in r.pending && c in r.pending[i];
        }
        if exists i :: i in r.pending && c in r.pending[i] {
          var i :| i in r.pending && c in r.pending[i];
          assert c in Elements(w.pending[i]) && i in w.pending;
        }
      }
    }
  }

  // ------------------------------------------------------------- the envelope

  /** An answer's envelope is accepted on identity, count, and equal key sets without repetition. */
  predicate Accepts(sameIdentity: bool, expected: seq<Coord>, returned: seq<Coord>) {
    && sameIdentity
    && |returned| == |expected|
    && |Elements(expected)| == |expected|
    && |Elements(returned)| == |returned|
    && Elements(returned) == Elements(expected)
  }

  lemma {:induction false} SizeMeansDistinct(s: seq<Coord>)
    ensures |Elements(s)| <= |s|
    ensures |Elements(s)| == |s| <==> Distinct(s)
  {
    if s == [] {
      assert Elements(s) == {};
    } else {
      var n := |s| - 1;
      SizeMeansDistinct(s[..n]);
      assert Elements(s) == Elements(s[..n]) + {s[n]};
      if s[n] in s[..n] {
        assert Elements(s) == Elements(s[..n]);
        var i :| 0 <= i < n && s[i] == s[n];
      } else {
        assert |Elements(s)| == |Elements(s[..n])| + 1;
      }
    }
  }

  lemma {:induction false} DistinctMultiplicity(s: seq<Coord>, c: Coord)
    requires Distinct(s)
    ensures multiset(s)[c] == if c in s then 1 else 0
  {
    if s != [] {
      var n := |s| - 1;
      DistinctMultiplicity(s[..n], c);
      assert s == s[..n] + [s[n]];
      assert c == s[n] ==> c !in s[..n];
    }
  }

  /** For a batch without repetition, acceptance means: right source, and a permutation of the request. */
  lemma AcceptedIsPermutation(sameIdentity: bool, expected: seq<Coord>, returned: seq<Coord>)
    requires Distinct(expected)
    ensures Accepts(sameIdentity, expected, returned) <==> sameIdentity && multiset(returned) == multiset(expected)
  {
    SizeMeansDistinct(expected);
    SizeMeansDistinct(returned);
    if Accepts(sameIdentity, expected, returned) {
      forall c
        ensures multiset(returned)[c] == multiset(expected)[c]
      {
        DistinctMultiplicity(expected, c);
        DistinctMultiplicity(returned, c);
        assert c in Elements(returned) <==> c in Elements(expected);
      }
      assert multiset(returned) == multiset(expected);
    }
    if multiset(returned) == multiset(expected) {
      assert |returned| == |multiset(returned)| == |multiset(expected)| == |expected|;
      forall c
        ensures c in returned <==> c in expected
      {
        assert c in returned <==> c in multiset(returned);
        assert c in expected <==> c in multiset(expected);
      }
      assert Elements(returned) == Elements(expected);
    }
  }

  /** A batch with a repetition is never accepted. */
  lemma RepetitionIsRejected(sameIdentity: bool, expected: seq<Coord>, returned: seq<Coord>)
    requires !Distinct(expected)
    ensures !Accepts(sameIdentity, expected, returned)
  {
    SizeMeansDistinct(expected);
  }

  // ---------------------------------------------------------- the neighbourhood

  predicate Needs(c: Cache, w: Window, coord: Coord) {
    coord !in c.chunks && coord !in w.inFlight
  }

  /** The 3x3x3 neighbourhood, layer by layer and row by row. */
  function Neighbor(center: Coord, i: nat): Coord {
    (center.0 - 1 + i % 3, center.1 - 1 + i / 9, center.2 - 1 + i / 3 % 3)
  }

  function Wanted(c: Cache, w: Window, center: Coord, representable: Coord -> bool, n: nat): seq<Coord> {
    if n == 0 then []
    else
      var coord := Neighbor(center, n - 1);
      Wanted(c, w, center, representable, n - 1)
      + (if representable(coord) && Needs(c, w, coord) then [coord] else [])
  }

  /** The number of neighbourhood entries before a coordinate, or before the end of its row, plane or cube. */
  function Rank(center: Coord, coord: Coord): (rank: nat)
    requires -1 <= coord.0 - center.0 && -1 <= coord.1 - center.1 && -1 <= coord.2 - center.2
  {
    (coord.1 - center.1 + 1) * 9 + (coord.2 - center.2 + 1) * 3 + (coord.0 - center.0 + 1)
  }

  lemma RankNext(center: Coord, x: int, y: int, z: int)
    requires -1 <= x - center.0 && -1 <= y - center.1 && -1 <= z - center.2
    ensures Rank(center, (x + 1, y, z)) == Rank(center, (x, y, z)) + 1
  {}

  /** The end of a row is the start of the next, also from layer to layer. */
  lemma RankEnds(center: Coord, y: int, z: int)
    requires -1 <= y - center.1 && -1 <= z - center.2
    ensures Rank(center, (center.0 - 1, center.1 - 1, center.2 - 1)) == 0
    ensures Rank(center, (center.0 - 1, center.1 + 2, center.2 - 1)) == 27
    ensures Rank(center, (center.0 + 2, y, z)) == Rank(center, (center.0 - 1, y, z + 1))
    ensures Rank(center, (center.0 - 1, y, center.2 + 2)) == Rank(center, (center.0 - 1, y + 1, center.2 - 1))
  {}

  lemma NothingWanted(c: Cache, w: Window, center: Coord, representable: Coord -> bool)
    ensures Wanted(c, w, center, representable, 0) == []
  {}

  lemma WantedNext(c: Cache, w: Window, center: Coord, representable: Coord -> bool, coord: Coord)
    requires -1 <= coord.0 - center.0 <= 1 && -1 <= coord.1 - center.1 <= 1 && -1 <= coord.2 - center.2 <= 1
    ensures
      var rank := Rank(center, coord);
      && rank < 27 && Neighbor(center, rank) == coord
      && Wanted(c, w, center, representable, rank + 1)
           == Wanted(c, w, center, representable, rank)
              + (if representable(coord) && Needs(c, w, coord) then [coord] else [])
  {
    assert Neighbor(center, Rank(center, coord)) == coord;
    hide Neighbor, Rank;
  }

  lemma NeighborsDiffer(center: Coord, i: nat, j: nat)
    requires i < 27 && j < 27
    ensures Neighbor(center, i) == Neighbor(center, j) <==> i == j
  {}

  lemma {:induction false} WantedIsFresh(c: Cache, w: Window, center: Coord, representable: Coord -> bool, n: nat)
    requires n <= 27
    ensures
      var coords := Wanted(c, w, center, representable, n);
      && Distinct(coords) && Elements(coords) !! w.inFlight
      && (forall coord :: coord in coords <==>
            (exists i :: 0 <= i < n && coord == Neighbor(center, i)) && representable(coord) && Needs(c, w, coord))
  {
    if n > 0 {
      WantedIsFresh(c, w, center, representable, n - 1);
      var before, coord := Wanted(c, w, center, representable, n - 1), Neighbor(center, n - 1);
      forall i | 0 <= i < n - 1
        ensures Neighbor(center, i) != coord
      {
        NeighborsDiffer(center, i, n - 1);
      }
      hide Neighbor;
    }
  }

  // ------------------------------------------------------------------ the bot

  const MAX_ID: nat := 0xFFFF_FFFF_FFFF_FFFF

  /** One item of an answer: the chunk, if the server had it, and whether its revision is current. */
  datatype Item = Item(coord: Coord, chunk: Option<Chunk>, current: bool)

  /** `retired` are the ids whose batches a resync has retired; it is only remembered for the proofs. */
  datatype Bot = Bot(cache: Cache, window: Window, nextId: nat, maxInFlight: nat, retired: set<nat>)

  datatype Event =
    | RequestLocal(center: Coord, representable: Coord -> bool)
    | SendEdit
    | Result(id: nat, sameIdentity: bool, items: seq<Item>)
    | Error(id: nat)
    | Commit(mutations: seq<(Voxel, Material)>)
    | Resync

  function FRESH(capacity: nat, maxInFlight: nat): Bot {
    Bot(EMPTY(capacity), IDLE, 1, maxInFlight, {})
  }

  /** Request ids count up from one, and stick at the largest word. */
  function AfterId(nextId: nat): nat {
    Max(if nextId >= MAX_ID then MAX_ID else nextId + 1, 1)
  }

  function AfterRequest(b: Bot, center: Coord, representable: Coord -> bool): Bot {
    if |b.window.pending| >= b.maxInFlight then b
    else
      var coords := Wanted(b.cache, b.window, center, representable, 27);
      if coords == [] then b
      else b.(window := Begun(b.window, b.nextId, coords), nextId := AfterId(b.nextId))
  }

  function Coords(items: seq<Item>): (r: seq<Coord>)
    ensures |r| == |items|
  {
    seq(|items|, i requires 0 <= i < |items| => items[i].coord)
  }

  /** The chunks of an accepted answer, one by one. */
  function Store(c: Cache, expected: seq<Coord>, items: seq<Item>): Cache
    requires c.Valid()
    decreases |items|
  {
    if items == [] then c
    else if items[0].chunk.Some? && items[0].current && items[0].coord in expected then
      InsertKeepsValid(c, items[0].chunk.value);
      Store(Insertion(c, items[0].chunk.value), expected, items[1..])
    else Store(c, expected, items[1..])
  }

  function AfterResult(b: Bot, id: nat, sameIdentity: bool, items: seq<Item>): Bot
    requires b.cache.Valid()
  {
    if id !in b.window.pending then b
    else
      var expected := b.window.pending[id];
      var finished := b.(window := Finished(b.window, id));
      if Accepts(sameIdentity, expected, Coords(items)) then finished.(cache := Store(b.cache, expected, items))
      else finished
  }

  function Mutate(c: Cache, mutations: seq<(Voxel, Material)>): Cache
    decreases |mutations|
  {
    if mutations == [] then c else Mutate(Application(c, mutations[0].0, mutations[0].1), mutations[1..])
  }

  function Step(b: Bot, e: Event): Bot
    requires b.cache.Valid()
  {
    match e
    case RequestLocal(center, representable) => AfterRequest(b, center, representable)
    case SendEdit => b.(nextId := AfterId(b.nextId))
    case Result(id, sameIdentity, items) => AfterResult(b, id, sameIdentity, items)
    case Error(id) => b.(window := Finished(b.window, id))
    case Commit(mutations) => b.(cache := Mutate(b.cache, mutations))
    case Resync =>
      b.(
        cache := EMPTY(b.cache.capacity),
        window := ResetAfterResync(b.window),
        retired := b.retired + b.window.pending.Keys)
  }

  /** What holds between events while ids are fresh. */
  ghost predicate Consistent(b: Bot) {
    && b.cache.Valid()
    && Partitioned(b.window)
    && b.window.inFlight <= b.window.requested
    && |b.window.pending| <= b.maxInFlight
    && b.nextId >= 1
    && (forall id | id in b.window.pending || id in b.retired :: id < b.nextId)
    && (forall id | id in b.window.pending :: id !in b.retired)
  }

  lemma {:induction false} StoreKeepsValid(c: Cache, expected: seq<Coord>, items: seq<Item>)
    requires c.Valid()
    ensures Store(c, expected, items).Valid() && Store(c, expected, items).capacity == c.capacity
    decreases |items|
  {
    if items != [] {
      if items[0].chunk.Some? && items[0].current && items[0].coord in expected {
        InsertKeepsValid(c, items[0].chunk.value);
        StoreKeepsValid(Insertion(c, items[0].chunk.value), expected, items[1..]);
      } else {
        StoreKeepsValid(c, expected, items[1..]);
      }
      hide Insertion;
    }
  }

  lemma {:induction false} MutateKeepsValid(c: Cache, mutations: seq<(Voxel, Material)>)
    requires c.Valid()
    ensures Mutate(c, mutations).Valid() && Mutate(c, mutations).order == c.order
    decreases |mutations|
  {
    if mutations != [] {
      ApplyKeepsValid(c, mutations[0].0, mutations[0].1);
      MutateKeepsValid(Application(c, mutations[0].0, mutations[0].1), mutations[1..]);
      hide Application;
    }
  }

  lemma RequestKeepsConsistent(b: Bot, center: Coord, representable: Coord -> bool)
    requires Consistent(b) && b.nextId < MAX_ID
    ensures Consistent(AfterRequest(b, center, representable))
  {
    WantedIsFresh(b.cache, b.window, center, representable, 27);
    hide Wanted, Neighbor;
    if |b.window.pending| < b.maxInFlight {
      var coords := Wanted(b.cache, b.window, center, representable, 27);
      if coords != [] {
        BeginKeepsPartitioned(b.window, b.nextId, coords);
        assert |b.window.pending[b.nextId := coords]| == |b.window.pending| + 1;
      }
    }
    hide Partitioned;
  }

  lemma FinishShrinks(w: Window, id: nat)
    requires Partitioned(w) && w.inFlight <= w.requested
    ensures var r := Finished(w, id);
      Partitioned(r) && r.inFlight <= r.requested && |r.pending| <= |w.pending| && r.pending.Keys <= w.pending.Keys
  {
    FinishKeepsPartitioned(w, id);
    if id in w.pending {
      assert w.pending == (w.pending - {id})[id := w.pending[id]];
    }
  }

  lemma FinishKeepsConsistent(b: Bot, id: nat, cache: Cache)
    requires Consistent(b) && cache.Valid()
    ensures Consistent(b.(window := Finished(b.window, id), cache := cache))
  {
    FinishShrinks(b.window, id);
    hide Partitioned, Finished;
  }

  lemma StepKeepsConsistent(b: Bot, e: Event)
    requires Consistent(b) && b.nextId < MAX_ID
    ensures Consistent(Step(b, e)) && Step(b, e).nextId <= b.nextId + 1
  {
    match e
    case RequestLocal(center, representable) =>
      RequestKeepsConsistent(b, center, representable);
      hide Consistent, Wanted;
    case SendEdit =>
    case Result(id, sameIdentity, items) =>
      FinishKeepsConsistent(b, id, b.cache);
      if id in b.window.pending {
        StoreKeepsValid(b.cache, b.window.pending[id], items);
        FinishKeepsConsistent(b, id, Store(b.cache, b.window.pending[id], items));
      }
      hide Consistent, Finished, Store, Accepts;
    case Error(id) =>
      FinishKeepsConsistent(b, id, b.cache);
      hide Consistent, Finished;
    case Commit(mutations) =>
      MutateKeepsValid(b.cache, mutations);
      hide Partitioned, Mutate;
    case Resync => ResyncKeepsConsistent(b);
  }

  lemma ResyncKeepsConsistent(b: Bot)
    requires Consistent(b)
    ensures Consistent(Step(b, Resync))
  {}

  /** Over every run shorter than the id space, the window's table stays consistent. */
  function Run(b: Bot, events: seq<Event>): (r: Bot)
    requires Consistent(b) && b.nextId + |events| <= MAX_ID
    ensures Consistent(r)
    decreases |events|
  {
    if events == [] then b
    else
      StepKeepsConsistent(b, events[0]);
      Run(Step(b, events[0]), events[1..])
  }

  lemma FreshIsConsistent(capacity: nat, maxInFlight: nat)
    ensures Consistent(FRESH(capacity, maxInFlight))
  {}

  /**
   * After any run, an answer to a batch that a resync retired, or to any batch that is not pending,
   * changes nothing; an answer that reaches the cache is a permutation of what was asked for.
   */
  lemma AnswersAreMatched(
      capacity: nat, maxInFlight: nat, events: seq<Event>, id: nat, sameIdentity: bool, items: seq<Item>)
    requires |events| < MAX_ID
    ensures Consistent(FRESH(capacity, maxInFlight))
    ensures
      var b := Run(FRESH(capacity, maxInFlight), events);
      Matched(b, id, sameIdentity, items)
  {
    FreshIsConsistent(capacity, maxInFlight);
    var b := Run(FRESH(capacity, maxInFlight), events);
    if id in b.window.pending {
      AcceptedIsPermutation(sameIdentity, b.window.pending[id], Coords(items));
    }
    hide Run, Store, Accepts, FRESH;
  }

  ghost predicate Matched(b: Bot, id: nat, sameIdentity: bool, items: seq<Item>)
    requires Consistent(b)
  {
    var after := AfterResult(b, id, sameIdentity, items);
    && (id in b.retired || id !in b.window.pending ==> after == b)
    && (after.cache != b.cache ==>
          && id in b.window.pending && sameIdentity
          && multiset(Coords(items)) == multiset(b.window.pending[id]))
  }

  // ------------------------------------------------------ what answers leave behind

  /** What the decoder makes sure of: each chunk is filed under its own coordinate, and none appears twice. */
  ghost predicate WellFiled(items: seq<Item>) {
    && (forall i | 0 <= i < |items| && items[i].chunk.Some? :: items[i].chunk.value.coord == items[i].coord)
    && (forall i, j | 0 <= i < j < |items| :: items[i].coord != items[j].coord)
  }

  /** The chunk that an answer brings for a coordinate: there, current, and asked for. */
  ghost predicate Brings(items: seq<Item>, expected: seq<Coord>, chunk: Chunk) {
    exists i ::
      0 <= i < |items| && items[i].chunk == Some(chunk) && items[i].current && items[i].coord in expected
  }

  function Current(items: seq<Item>, expected: seq<Coord>): nat {
    if items == [] then 0
    else
      (if items[0].chunk.Some? && items[0].current && items[0].coord in expected then 1 else 0)
      + Current(items[1..], expected)
  }

  /** After so many insertions a chunk that is the n-th from the newest is still there. */
  ghost predicate SafeFor(c: Cache, chunk: Chunk, insertions: nat) {
    && chunk.coord in c.chunks && c.chunks[chunk.coord] == chunk
    && exists k :: 0 <= k < |c.order| && c.order[k] == chunk.coord && insertions <= c.capacity - |c.order| + k
  }

  lemma InsertKeepsSafe(c: Cache, chunk: Chunk, other: Chunk, insertions: nat)
    requires c.Valid() && SafeFor(c, chunk, insertions + 1) && other.coord != chunk.coord
    ensures SafeFor(Insertion(c, other), chunk, insertions)
  {
    InsertKeepsValid(c, other);
    var k :| 0 <= k < |c.order| && c.order[k] == chunk.coord && insertions + 1 <= c.capacity - |c.order| + k;
    hide Insertion;
    var r := Insertion(c, other);
    if other.coord in c.chunks {
      assert r.order[k] == chunk.coord;
    } else if |c.order| < c.capacity {
      assert r.order[k] == chunk.coord;
    } else {
      assert c.order[0] != chunk.coord;
      assert r.order[k - 1] == chunk.coord;
    }
  }

  lemma InsertIsSafe(c: Cache, chunk: Chunk, insertions: nat)
    requires c.Valid() && insertions < c.capacity && chunk.coord !in c.chunks
    ensures SafeFor(Insertion(c, chunk), chunk, insertions)
  {
    InsertKeepsValid(c, chunk);
    hide Insertion;
    var r := Insertion(c, chunk);
    assert r.order[|r.order| - 1] == chunk.coord;
  }

  lemma {:induction false} StoreKeepsSafe(c: Cache, expected: seq<Coord>, items: seq<Item>, chunk: Chunk)
    requires c.Valid() && SafeFor(c, chunk, Current(items, expected)) && WellFiled(items)
    requires forall i | 0 <= i < |items| :: items[i].coord != chunk.coord
    ensures var r := Store(c, expected, items); chunk.coord in r.chunks && r.chunks[chunk.coord] == chunk
    decreases |items|
  {
    if items != [] {
      var rest := items[1..];
      assert items[0].coord != chunk.coord && forall i | 0 <= i < |rest| :: rest[i] == items[i + 1];
      if items[0].chunk.Some? && items[0].current && items[0].coord in expected {
        InsertKeepsValid(c, items[0].chunk.value);
        InsertKeepsSafe(c, chunk, items[0].chunk.value, Current(rest, expected));
        hide Insertion, SafeFor, Current;
        StoreKeepsSafe(Insertion(c, items[0].chunk.value), expected, rest, chunk);
      } else {
        hide SafeFor;
        StoreKeepsSafe(c, expected, rest, chunk);
      }
    }
  }

  /**
   * An answer within the cache's capacity whose chunks are new leaves every current chunk it brings in the
   * cache, as it came.
   */
  lemma {:induction false} StoreReadsBack(c: Cache, expected: seq<Coord>, items: seq<Item>, chunk: Chunk)
    requires c.Valid() && WellFiled(items) && Current(items, expected) <= c.capacity
    requires Brings(items, expected, chunk) && forall i | 0 <= i < |items| :: items[i].coord !in c.chunks
    ensures var r := Store(c, expected, items); chunk.coord in r.chunks && r.chunks[chunk.coord] == chunk
    decreases |items|
  {
    var rest := items[1..];
    assert forall i | 0 <= i < |rest| :: rest[i] == items[i + 1];
    var i :| 0 <= i < |items| && items[i].chunk == Some(chunk) && items[i].current && items[i].coord in expected;
    if i == 0 {
      InsertKeepsValid(c, chunk);
      InsertIsSafe(c, chunk, Current(rest, expected));
      hide Insertion, SafeFor, Current;
      StoreKeepsSafe(Insertion(c, chunk), expected, rest, chunk);
    } else {
      assert rest[i - 1] == items[i] && Brings(rest, expected, chunk);
      if items[0].chunk.Some? && items[0].current && items[0].coord in expected {
        InsertKeepsValid(c, items[0].chunk.value);
        hide Insertion, Current;
        assert Current(rest, expected) <= c.capacity by { CurrentShrinks(items, expected); }
        StoreReadsBack(Insertion(c, items[0].chunk.value), expected, rest, chunk);
      } else {
        StoreReadsBack(c, expected, rest, chunk);
      }
    }
  }

  lemma CurrentShrinks(items: seq<Item>, expected: seq<Coord>)
    requires items != []
    ensures Current(items[1..], expected) <= Current(items, expected)
  {}

  /** Nothing else gets in: what is cached afterwards was cached before, or was brought. */
  lemma {:induction false} StoreBringsNothingElse(c: Cache, expected: seq<Coord>, items: seq<Item>, coord: Coord)
    requires c.Valid() && WellFiled(items)
    ensures
      var r := Store(c, expected, items);
      coord in r.chunks ==>
        || (coord in c.chunks && r.chunks[coord] == c.chunks[coord])
        || (Brings(items, expected, r.chunks[coord]) && r.chunks[coord].coord == coord)
    decreases |items|
  {
    if items != [] {
      var rest := items[1..];
      assert forall i | 0 <= i < |rest| :: rest[i] == items[i + 1];
      var r := Store(c, expected, items);
      if items[0].chunk.Some? && items[0].current && items[0].coord in expected {
        var chunk := items[0].chunk.value;
        InsertKeepsValid(c, chunk);
        hide Insertion;
        StoreBringsNothingElse(Insertion(c, chunk), expected, rest, coord);
        BringsLater(items, expected);
        if coord in r.chunks && r.chunks[coord] == chunk {
          assert items[0].chunk == Some(chunk);
          assert Brings(items, expected, chunk);
        }
      } else {
        StoreBringsNothingElse(c, expected, rest, coord);
        BringsLater(items, expected);
      }
    }
  }

  lemma BringsLater(items: seq<Item>, expected: seq<Coord>)
    requires items != []
    ensures forall chunk :: Brings(items[1..], expected, chunk) ==> Brings(items, expected, chunk)
  {
    forall chunk | Brings(items[1..], expected, chunk)
      ensures Brings(items, expected, chunk)
    {
      var i :|
        0 <= i < |items[1..]| && items[1..][i].chunk == Some(chunk) && items[1..][i].current
        && items[1..][i].coord in expected;
      assert items[i + 1].chunk == Some(chunk);
    }
  }

  /** Nothing that is asked for is in the cache already. */
  ghost predicate Unanswered(b: Bot) {
    forall id, coord | id in b.window.pending && coord in b.window.pending[id] :: coord !in b.cache.chunks
  }

  ghost predicate Filed(e: Event) {
    e.Result? ==> WellFiled(e.items)
  }

  lemma ResultKeepsUnanswered(b: Bot, id: nat, items: seq<Item>)
    requires Consistent(b) && Unanswered(b) && WellFiled(items) && id in b.window.pending
    ensures Unanswered(b.(window := Finished(b.window, id), cache := Store(b.cache, b.window.pending[id], items)))
  {
    var expected := b.window.pending[id];
    var r := Store(b.cache, expected, items);
    forall other, coord | other in Finished(b.window, id).pending && coord in b.window.pending[other]
      ensures coord !in r.chunks
    {
      StoreBringsNothingElse(b.cache, expected, items, coord);
      assert coord in Elements(b.window.pending[other]) && coord !in Elements(expected);
      hide Store;
    }
    hide Store, Consistent, WellFiled;
  }

  lemma StepKeepsUnanswered(b: Bot, e: Event)
    requires Consistent(b) && Unanswered(b) && Filed(e)
    ensures Unanswered(Step(b, e)) && Step(b, e).cache.capacity == b.cache.capacity
  {
    match e
    case RequestLocal(center, representable) =>
      WantedIsFresh(b.cache, b.window, center, representable, 27);
      hide Consistent, Wanted, Neighbor;
    case SendEdit =>
    case Result(id, sameIdentity, items) =>
      if id in b.window.pending {
        ResultKeepsUnanswered(b, id, items);
        StoreKeepsValid(b.cache, b.window.pending[id], items);
      }
      hide Consistent, Store, Accepts, WellFiled;
    case Error(id) => hide Consistent;
    case Commit(mutations) =>
      MutateKeepsValid(b.cache, mutations);
      MutateKeepsKeys(b.cache, mutations);
      hide Consistent, Mutate;
    case Resync => hide Consistent;
  }

  lemma MutateKeepsKeys(c: Cache, mutations: seq<(Voxel, Material)>)
    ensures Mutate(c, mutations).chunks.Keys == c.chunks.Keys && Mutate(c, mutations).capacity == c.capacity
    decreases |mutations|
  {}

  lemma {:induction false} RunKeepsUnanswered(b: Bot, events: seq<Event>)
    requires Consistent(b) && Unanswered(b) && b.nextId + |events| <= MAX_ID
    requires forall i | 0 <= i < |events| :: Filed(events[i])
    ensures Unanswered(Run(b, events)) && Run(b, events).cache.capacity == b.cache.capacity
    decreases |events|
  {
    if events != [] {
      StepKeepsConsistent(b, events[0]);
      StepKeepsUnanswered(b, events[0]);
      hide Step, Consistent, Unanswered, Filed;
      RunKeepsUnanswered(Step(b, events[0]), events[1..]);
    }
  }

  /**
   * After any run, an accepted answer within the cache's capacity leaves every current chunk it brings in the
   * cache, as it came: what was asked for is never there before.
   */
  lemma AnswerReadsBack(
      capacity: nat, maxInFlight: nat, events: seq<Event>, id: nat, items: seq<Item>, chunk: Chunk)
    requires |events| < MAX_ID && WellFiled(items)
    requires forall i | 0 <= i < |events| :: Filed(events[i])
    ensures Consistent(FRESH(capacity, maxInFlight))
    ensures
      var b := Run(FRESH(capacity, maxInFlight), events);
      var r := Step(b, Result(id, true, items)).cache;
      id in b.window.pending && Accepts(true, b.window.pending[id], Coords(items))
      && Current(items, b.window.pending[id]) <= capacity && Brings(items, b.window.pending[id], chunk) ==>
        chunk.coord in r.chunks && r.chunks[chunk.coord] == chunk
  {
    FreshIsConsistent(capacity, maxInFlight);
    RunKeepsUnanswered(FRESH(capacity, maxInFlight), events);
    var b := Run(FRESH(capacity, maxInFlight), events);
    hide Run, FRESH;
    if id in b.window.pending && Accepts(true, b.window.pending[id], Coords(items))
       && Current(items, b.window.pending[id]) <= capacity && Brings(items, b.window.pending[id], chunk) {
      AcceptedIsAsked(b.window.pending[id], items);
      assert b.cache.Valid();
      hide Current, Brings, Accepts, WellFiled, Store, Consistent;
      StoreReadsBack(b.cache, b.window.pending[id], items, chunk);
    }
  }

  lemma AcceptedIsAsked(expected: seq<Coord>, items: seq<Item>)
    requires Accepts(true, expected, Coords(items))
    ensures forall i | 0 <= i < |items| :: items[i].coord in expected
  {
    forall i | 0 <= i < |items|
      ensures items[i].coord in expected
    {
      assert Coords(items)[i] in Elements(Coords(items));
    }
  }

  /** What a commit's mutations last made of a voxel. */
  function LastMutation(mutations: seq<(Voxel, Material)>, v: Voxel): Option<Material> {
    if mutations == [] then None
    else if LastMutation(mutations[1..], v).Some? then LastMutation(mutations[1..], v)
    else if mutations[0].0 == v then Some(mutations[0].1)
    else None
  }

  lemma {:induction false} MutationsReadBack(c: Cache, mutations: seq<(Voxel, Material)>, v: Voxel)
    ensures
      Reading(Mutate(c, mutations), v)
      == if v.chunk in c.chunks && LastMutation(mutations, v).Some? then LastMutation(mutations, v) else Reading(c, v)
    decreases |mutations|
  {
    if mutations != [] {
      var (w, material) := mutations[0];
      ReadAfterApply(c, w, material, v);
      assert v.chunk in Application(c, w, material).chunks <==> v.chunk in c.chunks;
      hide Application;
      MutationsReadBack(Application(c, w, material), mutations[1..], v);
    }
  }

  /** A bot with room in its window asks for everything it wants, under the next id; a full one does not ask. */
  lemma RequestAsks(b: Bot, center: Coord, representable: Coord -> bool)
    requires b.cache.Valid()
    ensures
      var t := Step(b, RequestLocal(center, representable));
      var coords := Wanted(b.cache, b.window, center, representable, 27);
      if |b.window.pending| < b.maxInFlight && coords != [] then
        t.window.pending == b.window.pending[b.nextId := coords] && t.nextId > 0 && t.cache == b.cache
      else t == b
  {
    hide Wanted;
  }

  /** The 27 places of the neighbourhood are the coordinates at most one step away in each direction. */
  lemma NeighborsAreTheCube(center: Coord, coord: Coord)
    ensures
      (exists i :: 0 <= i < 27 && Neighbor(center, i) == coord) <==>
        -1 <= coord.0 - center.0 <= 1 && -1 <= coord.1 - center.1 <= 1 && -1 <= coord.2 - center.2 <= 1
  {
    if -1 <= coord.0 - center.0 <= 1 && -1 <= coord.1 - center.1 <= 1 && -1 <= coord.2 - center.2 <= 1 {
      assert Neighbor(center, Rank(center, coord)) == coord && Rank(center, coord) < 27;
    }
  }

  /** An answer or an error finishes its batch, whatever it says, and no other. */
  lemma AnswerFinishes(b: Bot, e: Event)
    requires Consistent(b) && (e.Result? || e.Error?)
    ensures
      var t := Step(b, e);
      t.window.pending == b.window.pending - {e.id}
      && forall c ::
           c in t.window.inFlight <==>
             c in b.window.inFlight && !(e.id in b.window.pending && c in b.window.pending[e.id])
  {
    hide Partitioned, Store, Accepts;
    if e.id !in b.window.pending {
      assert b.window.pending - {e.id} == b.window.pending;
    }
  }

  /** After a resync nothing is cached, pending or in flight. */
  lemma ResyncForgets(b: Bot)
    requires b.cache.Valid()
    ensures
      var t := Step(b, Resync);
      t.cache.chunks == map[] && t.cache.order == [] && t.window.pending == map[] && t.window.inFlight == {}
      && b.window.pending.Keys <= t.retired
  {}

  // ---------------------------------------------------------- the table in place

  class ChunkRequests {
    var requested: set<Coord>
    var inFlight: set<Coord>
    var pending: map<nat, seq<Coord>>

    ghost function State(): Window
      reads this
    {
      Window(requested, inFlight, pending)
    }

    constructor ()
      ensures State() == IDLE
    {
      requested, inFlight, pending := {}, {}, map[];
    }

    function HasCapacity(maxInFlightBatches: nat): bool
      reads this
    {
      |pending| < maxInFlightBatches
    }

    function Lacks(cache: ChunkCache, coord: Coord): (r: bool)
      reads this, cache
      ensures r == Needs(cache.State(), State(), coord)
    {
      !cache.Contains(coord) && coord !in inFlight
    }

    method Begin(id: nat, coords: seq<Coord>)
      modifies this
      ensures State() == Begun(old(State()), id, coords)
    {
      requested := requested + Elements(coords);
      inFlight := inFlight + Elements(coords);
      pending := pending[id := coords];
    }

    method Finish(id: nat) returns (batch: Option<seq<Coord>>)
      modifies this
      ensures State() == Finished(old(State()), id)
      ensures batch == if id in old(pending) then Some(old(pending)[id]) else None
    {
      if id !in pending { return None; }
      var coords := pending[id];
      pending := pending - {id};
      for i := 0 to |coords|
        invariant inFlight == old(inFlight) - Elements(coords[..i])
        invariant requested == old(requested) && pending == old(pending) - {id}
      {
        assert coords[..i + 1] == coords[..i] + [coords[i]];
        inFlight := inFlight - {coords[i]};
      }
      assert coords[..|coords|] == coords;
      batch := Some(coords);
    }

    method Reset()
      modifies this
      ensures State() == ResetAfterResync(old(State()))
    {
      inFlight, pending := {}, map[];
    }
  }

  class BotRuntime {
    const cache: ChunkCache
    const requests: ChunkRequests
    const maxInFlightBatches: nat
    var nextRequestId: nat
    ghost var retired: set<nat>

    ghost function State(): Bot
      reads this, cache, requests
    {
      Bot(cache.State(), requests.State(), nextRequestId, maxInFlightBatches, retired)
    }

    constructor (capacity: nat, maxInFlightBatches: nat)
      ensures State() == FRESH(capacity, maxInFlightBatches) && fresh(cache) && fresh(requests)
    {
      cache := new ChunkCache(capacity);
      requests := new ChunkRequests();
      this.maxInFlightBatches := maxInFlightBatches;
      nextRequestId, retired := 1, {};
    }

    method AllocateRequestId() returns (taken: nat)
      modifies this
      ensures taken == old(nextRequestId) && nextRequestId == AfterId(old(nextRequestId)) && retired == old(retired)
    {
      taken := nextRequestId;
      nextRequestId := Max(if nextRequestId >= MAX_ID then MAX_ID else nextRequestId + 1, 1);
    }

    method RequestLocalChunks(center: Coord, representable: Coord -> bool)
      modifies this, requests
      ensures State() == AfterRequest(old(State()), center, representable)
    {
      if !requests.HasCapacity(maxInFlightBatches) { return; }
      var coords := LocalCoords(center, representable);
      if coords == [] { return; }
      var id := AllocateRequestId();
      requests.Begin(id, coords);
    }

    method LocalCoords(center: Coord, representable: Coord -> bool) returns (coords: seq<Coord>)
      ensures coords == Wanted(cache.State(), requests.State(), center, representable, 27)
    {
      hide *;
      ghost var c, w := cache.State(), requests.State();
      coords := [];
      NothingWanted(c, w, center, representable);
      RankEnds(center, center.1, center.2);
      for y := center.1 - 1 to center.1 + 2
        invariant coords == Wanted(c, w, center, representable, Rank(center, (center.0 - 1, y, center.2 - 1)))
      {
        for z := center.2 - 1 to center.2 + 2
          invariant coords == Wanted(c, w, center, representable, Rank(center, (center.0 - 1, y, z)))
        {
          coords := LocalRow(center, representable, y, z, coords);
        }
        RankEnds(center, y, center.2);
      }
    }

    method LocalRow(center: Coord, representable: Coord -> bool, y: int, z: int, before: seq<Coord>)
        returns (coords: seq<Coord>)
      requires -1 <= y - center.1 <= 1 && -1 <= z - center.2 <= 1
      requires
        before
        == Wanted(cache.State(), requests.State(), center, representable, Rank(center, (center.0 - 1, y, z)))
      ensures
        coords
        == Wanted(cache.State(), requests.State(), center, representable, Rank(center, (center.0 - 1, y, z + 1)))
    {
      hide *;
      ghost var c, w := cache.State(), requests.State();
      coords := before;
      for x := center.0 - 1 to center.0 + 2
        invariant coords == Wanted(c, w, center, representable, Rank(center, (x, y, z)))
      {
        var coord := (x, y, z);
        WantedNext(c, w, center, representable, coord);
        RankNext(center, x, y, z);
        if representable(coord) && requests.Lacks(cache, coord) {
          coords := coords + [coord];
        }
      }
      RankEnds(center, y, z);
    }

    method HandleResult(id: nat, sameIdentity: bool, items: seq<Item>)
      requires cache.State().Valid()
      modifies cache, requests
      ensures State() == AfterResult(old(State()), id, sameIdentity, items)
    {
      var batch := requests.Finish(id);
      if batch.None? { return; }
      if !Accepts(sameIdentity, batch.value, Coords(items)) { return; }
      StoreItems(batch.value, items);
    }

    method StoreItems(expected: seq<Coord>, items: seq<Item>)
      requires cache.State().Valid()
      modifies cache
      ensures cache.State() == Store(old(cache.State()), expected, items)
    {
      ghost var before := cache.State();
      for i := 0 to |items|
        invariant cache.State().Valid() && Store(before, expected, items) == Store(cache.State(), expected, items[i..])
      {
        assert items[i..][0] == items[i] && items[i..][1..] == items[i + 1..];
        if items[i].chunk.Some? && items[i].current && items[i].coord in expected {
          cache.Insert(items[i].chunk.value);
        }
      }
    }

    method HandleResync()
      modifies this, cache, requests
      ensures cache.State().capacity == old(cache.State().capacity)
      ensures State() == old(State()).(
        cache := EMPTY(old(cache.State().capacity)),
        window := ResetAfterResync(old(requests.State())),
        retired := old(retired) + old(requests.pending).Keys)
    {
      retired := retired + requests.pending.Keys;
      cache.Clear();
      requests.Reset();
    }
  }
}
