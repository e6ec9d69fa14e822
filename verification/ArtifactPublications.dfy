/**
 * Publishing a staged browser build into the output directory, one file-system step at a time, with a stop
 * possible after any of them.
 */
module ArtifactPublications {
  import opened Basics
  import opened Texts

  const PROFILE_MARKER := "voxels-build-profile"
  const IDENTITY_MARKER := "voxels-build-identity"
  const WASM := "voxels_bg.wasm"
  const GLUE := "voxels.js"

  datatype File = File(content: string, modified: real)

  type Files = map<string, File>

  datatype Disk = Disk(staging: Files, output: Files)

  /** `Move` renames from the staging directory into the output directory; it keeps the file's own time. */
  datatype Operation = Remove(name: string) | Move(name: string)

  function Apply(d: Disk, op: Operation): Disk {
    match op
    case Remove(name) => d.(output := d.output - {name})
    case Move(name) =>
      if name in d.staging then Disk(d.staging - {name}, d.output[name := d.staging[name]]) else d
  }

  function Exec(d: Disk, ops: seq<Operation>): Disk
    decreases |ops|
  {
    if ops == [] then d else Exec(Apply(d, ops[0]), ops[1..])
  }

  // ------------------------------------------------------------------- the plan

  predicate EndsWithJs(name: string) {
    |name| >= 3 && name[|name| - 3..] == ".js"
  }

  function Selected(names: seq<string>, js: bool): seq<string> {
    if names == [] then []
    else
      (if names[0] != PROFILE_MARKER && EndsWithJs(names[0]) == js then [names[0]] else [])
      + Selected(names[1..], js)
  }

  /** Everything staged but the profile marker, stably sorted so that JavaScript comes last. */
  function Artifacts(listing: seq<string>): seq<string> {
    Selected(listing, false) + Selected(listing, true)
  }

  function Extras(after: seq<string>, keep: set<string>): seq<string> {
    if after == [] then []
    else (if after[0] in keep then [] else [after[0]]) + Extras(after[1..], keep)
  }

  function Moves(names: seq<string>): seq<Operation> {
    seq(|names|, i requires 0 <= i < |names| => Move(names[i]))
  }

  function Removes(names: seq<string>): seq<Operation> {
    seq(|names|, i requires 0 <= i < |names| => Remove(names[i]))
  }

  function Elements(names: seq<string>): set<string> {
    set n | n in names
  }

  ghost predicate Distinct(names: seq<string>) {
    forall i, j | 0 <= i < j < |names| :: names[i] != names[j]
  }

  ghost predicate Lists(listing: seq<string>, files: Files) {
    Distinct(listing) && Elements(listing) == files.Keys
  }

  /** The old commit record goes first, the new one comes last. */
  function Plan(artifacts: seq<string>, extras: seq<string>): seq<Operation> {
    [Remove(PROFILE_MARKER)] + Moves(artifacts) + Removes(extras) + [Move(PROFILE_MARKER)]
  }

  function MoveAll(d: Disk, names: seq<string>): Disk {
    Disk(d.staging - Elements(names), d.output + (map n | n in d.staging && n in names :: d.staging[n]))
  }

  function RemoveAll(d: Disk, names: seq<string>): Disk {
    d.(output := d.output - Elements(names))
  }

  /** The disk after the first k steps. */
  function After(d: Disk, artifacts: seq<string>, extras: seq<string>, k: nat): Disk
    requires k <= |artifacts| + |extras| + 2
  {
    var a := |artifacts|;
    if k == 0 then d
    else
      var unmarked := Apply(d, Remove(PROFILE_MARKER));
      if k <= 1 + a then MoveAll(unmarked, artifacts[..k - 1])
      else if k <= 1 + a + |extras| then RemoveAll(MoveAll(unmarked, artifacts), extras[..k - 1 - a])
      else Apply(RemoveAll(MoveAll(unmarked, artifacts), extras), Move(PROFILE_MARKER))
  }

  lemma {:induction false} ExecAppend(d: Disk, a: seq<Operation>, b: seq<Operation>)
    ensures Exec(d, a + b) == Exec(Exec(d, a), b)
    decreases |a|
  {
    if a == [] {
      assert a + b == b;
    } else {
      assert (a + b)[0] == a[0] && (a + b)[1..] == a[1..] + b;
      ExecAppend(Apply(d, a[0]), a[1..], b);
    }
  }

  lemma ExecOne(d: Disk, op: Operation)
    ensures Exec(d, [op]) == Apply(d, op)
  {
    assert [op][1..] == [];
  }

  lemma {:induction false} ExecMoves(d: Disk, names: seq<string>)
    requires Movable(d, names)
    ensures Exec(d, Moves(names)) == MoveAll(d, names)
    decreases |names|
  {
    if names == [] {
      assert Moves(names) == [];
      assert MoveAll(d, names).output == d.output;
    } else {
      var rest := names[1..];
      assert Moves(names)[0] == Move(names[0]) && Moves(names)[1..] == Moves(rest);
      assert names[0] in names;
      var moved := Apply(d, Move(names[0]));
      forall n | n in rest
        ensures n in names && n != names[0]
      {}
      assert Elements(rest) <= moved.staging.Keys;
      ExecMoves(moved, rest);
      MoveAllHead(d, names);
    }
  }

  lemma MoveAllHead(d: Disk, names: seq<string>)
    requires names != [] && names[0] in d.staging && names[0] !in names[1..]
    ensures MoveAll(d, names) == MoveAll(Apply(d, Move(names[0])), names[1..])
  {
    assert forall n :: n in names <==> n == names[0] || n in names[1..];
    assert Elements(names) == {names[0]} + Elements(names[1..]);
    var x := names[0];
    var rest := map n | n in d.staging - {x} && n in names[1..] :: (d.staging - {x})[n];
    assert (map n | n in d.staging && n in names :: d.staging[n]) == map[x := d.staging[x]] + rest;
    OverlayFirst(d.output, x, d.staging[x], rest);
  }

  lemma OverlayFirst(files: Files, x: string, f: File, rest: Files)
    requires x !in rest
    ensures files + (map[x := f] + rest) == files[x := f] + rest
  {}

  lemma {:induction false} ExecRemoves(d: Disk, names: seq<string>)
    ensures Exec(d, Removes(names)) == RemoveAll(d, names)
    decreases |names|
  {
    if names == [] {
      assert Removes(names) == [];
      assert RemoveAll(d, names).output == d.output;
    } else {
      var rest := names[1..];
      assert Removes(names)[0] == Remove(names[0]) && Removes(names)[1..] == Removes(rest);
      ExecRemoves(Apply(d, Remove(names[0])), rest);
      assert forall n :: n in names <==> n == names[0] || n in rest;
      assert RemoveAll(d, names).output == RemoveAll(Apply(d, Remove(names[0])), rest).output;
    }
  }

  /** The prefix of a plan is the whole of its earlier parts and a prefix of the part it stops in. */
  lemma PlanPrefix(artifacts: seq<string>, extras: seq<string>, k: nat)
    requires k <= |artifacts| + |extras| + 2
    ensures
      var a := |artifacts|;
      Plan(artifacts, extras)[..k]
      == (if k == 0 then []
          else if k <= 1 + a then [Remove(PROFILE_MARKER)] + Moves(artifacts[..k - 1])
          else if k <= 1 + a + |extras| then
            [Remove(PROFILE_MARKER)] + Moves(artifacts) + Removes(extras[..k - 1 - a])
          else Plan(artifacts, extras))
  {}

  ghost predicate Movable(d: Disk, names: seq<string>) {
    Distinct(names) && Elements(names) <= d.staging.Keys
  }

  lemma ExecMoving(d: Disk, names: seq<string>)
    requires Movable(d, names)
    ensures Exec(d, [Remove(PROFILE_MARKER)] + Moves(names)) == MoveAll(Apply(d, Remove(PROFILE_MARKER)), names)
  {
    ExecOne(d, Remove(PROFILE_MARKER));
    ExecMoves(Apply(d, Remove(PROFILE_MARKER)), names);
    hide Exec, Apply, MoveAll, Moves;
    ExecAppend(d, [Remove(PROFILE_MARKER)], Moves(names));
  }

  lemma ExecRemoving(d: Disk, names: seq<string>, extras: seq<string>)
    requires Movable(d, names)
    ensures
      Exec(d, [Remove(PROFILE_MARKER)] + Moves(names) + Removes(extras))
      == RemoveAll(MoveAll(Apply(d, Remove(PROFILE_MARKER)), names), extras)
  {
    ExecMoving(d, names);
    hide Exec, Apply, MoveAll, RemoveAll, Moves, Removes;
    ExecAppend(d, [Remove(PROFILE_MARKER)] + Moves(names), Removes(extras));
    ExecRemoves(MoveAll(Apply(d, Remove(PROFILE_MARKER)), names), extras);
  }

  lemma ExecPlan(d: Disk, names: seq<string>, extras: seq<string>)
    requires Movable(d, names)
    ensures
      Exec(d, Plan(names, extras))
      == Apply(RemoveAll(MoveAll(Apply(d, Remove(PROFILE_MARKER)), names), extras), Move(PROFILE_MARKER))
  {
    ExecRemoving(d, names, extras);
    hide Exec, Apply, MoveAll, RemoveAll, Moves, Removes;
    ExecAppend(d, [Remove(PROFILE_MARKER)] + Moves(names) + Removes(extras), [Move(PROFILE_MARKER)]);
    ExecOne(RemoveAll(MoveAll(Apply(d, Remove(PROFILE_MARKER)), names), extras), Move(PROFILE_MARKER));
  }

  lemma ExecPrefix(d: Disk, artifacts: seq<string>, extras: seq<string>, k: nat)
    requires k <= |artifacts| + |extras| + 2 && Movable(d, artifacts)
    ensures Exec(d, Plan(artifacts, extras)[..k]) == After(d, artifacts, extras, k)
  {
    PlanPrefix(artifacts, extras, k);
    var a := |artifacts|;
    if k == 0 {
      ExecNothing(d);
    } else if k <= 1 + a {
      PrefixIsMovable(d, artifacts, k - 1);
      ExecMoving(d, artifacts[..k - 1]);
    } else if k <= 1 + a + |extras| {
      ExecRemoving(d, artifacts, extras[..k - 1 - a]);
    } else {
      ExecPlan(d, artifacts, extras);
    }
  }

  lemma ExecNothing(d: Disk)
    ensures Exec(d, []) == d
  {}

  lemma PrefixIsMovable(d: Disk, artifacts: seq<string>, m: nat)
    requires m <= |artifacts| && Movable(d, artifacts)
    ensures Movable(d, artifacts[..m])
  {}

  // --------------------------------------------------------------- the artifacts

  lemma {:induction false} SelectedElements(names: seq<string>, js: bool)
    requires Distinct(names)
    ensures Distinct(Selected(names, js))
    ensures forall n :: n in Selected(names, js) <==> n in names && n != PROFILE_MARKER && EndsWithJs(n) == js
  {
    if names != [] {
      var rest := names[1..];
      assert forall n :: n in names <==> n == names[0] || n in rest;
      assert names[0] !in rest;
      SelectedElements(rest, js);
    }
  }

  lemma ArtifactElements(listing: seq<string>)
    requires Distinct(listing)
    ensures Distinct(Artifacts(listing))
    ensures Elements(Artifacts(listing)) == Elements(listing) - {PROFILE_MARKER}
  {
    SelectedElements(listing, false);
    SelectedElements(listing, true);
    var plain := Selected(listing, false);
    var scripts := Selected(listing, true);
    DistinctAppend(plain, scripts);
    assert forall n :: n in plain + scripts <==> n in plain || n in scripts;
  }

  lemma DistinctAppend(a: seq<string>, b: seq<string>)
    requires Distinct(a) && Distinct(b) && forall n :: n in a ==> n !in b
    ensures Distinct(a + b)
  {
    forall i, j | 0 <= i < j < |a + b|
      ensures (a + b)[i] != (a + b)[j]
    {
      if i < |a| && j >= |a| { assert a[i] in a && b[j - |a|] in b; }
    }
  }

  /** A JavaScript file is moved only when every other artifact has been. */
  lemma JavaScriptComesLast(listing: seq<string>, m: nat, js: string, other: string)
    requires Distinct(listing) && m <= |Artifacts(listing)|
    requires js in Artifacts(listing)[..m] && EndsWithJs(js)
    requires other in listing && other != PROFILE_MARKER && !EndsWithJs(other)
    ensures other in Artifacts(listing)[..m]
  {
    SelectedElements(listing, false);
    SelectedElements(listing, true);
    var plain := Selected(listing, false);
    var scripts := Selected(listing, true);
    var i :| 0 <= i < m && (plain + scripts)[i] == js;
    assert forall k | 0 <= k < |plain| :: (plain + scripts)[k] == plain[k] && plain[k] in plain;
    var j :| 0 <= j < |plain| && plain[j] == other;
    assert (plain + scripts)[..m][j] == other;
  }

  lemma {:induction false} ExtraElements(after: seq<string>, keep: set<string>)
    ensures forall n :: n in Extras(after, keep) <==> n in after && n !in keep
  {
    if after != [] {
      ExtraElements(after[1..], keep);
      assert forall n :: n in after <==> n == after[0] || n in after[1..];
    }
  }

  // --------------------------------------------------------------- publications

  /**
   * One call of the publisher: the staged files, the listings it was given of the staging and later of the
   * output directory, and the number of steps after which it stopped.
   */
  datatype Publication = Publication(staging: Files, listing: seq<string>, after: seq<string>, stop: nat)

  datatype Outcome = MissingMarker(name: string) | Published | Stopped

  function PlanOf(p: Publication): seq<Operation> {
    var artifacts := Artifacts(p.listing);
    Plan(artifacts, Extras(p.after, Elements(artifacts)))
  }

  function Publish(output: Files, p: Publication): (Disk, Outcome) {
    var d := Disk(p.staging, output);
    if PROFILE_MARKER !in p.listing then (d, MissingMarker(PROFILE_MARKER))
    else if IDENTITY_MARKER !in p.listing then (d, MissingMarker(IDENTITY_MARKER))
    else if p.stop < |PlanOf(p)| then (Exec(d, PlanOf(p)[..p.stop]), Stopped)
    else (Exec(d, PlanOf(p)), Published)
  }

  /** The listings are what the directories hold when they are read. */
  ghost predicate Faithful(output: Files, p: Publication) {
    var artifacts := Artifacts(p.listing);
    var unmarked := Apply(Disk(p.staging, output), Remove(PROFILE_MARKER));
    && Lists(p.listing, p.staging)
    && (PROFILE_MARKER in p.listing && IDENTITY_MARKER in p.listing && p.stop > |artifacts| + 1 ==>
          Lists(p.after, MoveAll(unmarked, artifacts).output))
  }

  lemma PublishIsAfter(output: Files, p: Publication)
    requires Faithful(output, p) && PROFILE_MARKER in p.listing && IDENTITY_MARKER in p.listing
    ensures
      var artifacts := Artifacts(p.listing);
      var extras := Extras(p.after, Elements(artifacts));
      var n := |artifacts| + |extras| + 2;
      |PlanOf(p)| == n
      && Publish(output, p).0 == After(Disk(p.staging, output), artifacts, extras, if p.stop < n then p.stop else n)
  {
    var artifacts := Artifacts(p.listing);
    var extras := Extras(p.after, Elements(artifacts));
    ArtifactElements(p.listing);
    ListsKeys(p.listing, p.staging);
    hide Exec, After, Artifacts, Extras, Distinct, Lists;
    var n := |artifacts| + |extras| + 2;
    ExecPrefix(Disk(p.staging, output), artifacts, extras, if p.stop < n then p.stop else n);
    assert PlanOf(p)[..n] == PlanOf(p);
  }

  /** A completed publication leaves exactly the staged set, and nothing in the staging directory. */
  lemma AfterAll(output: Files, p: Publication)
    requires Faithful(output, p) && PROFILE_MARKER in p.listing && IDENTITY_MARKER in p.listing
    requires p.stop > |Artifacts(p.listing)| + 1
    ensures
      var artifacts := Artifacts(p.listing);
      var extras := Extras(p.after, Elements(artifacts));
      After(Disk(p.staging, output), artifacts, extras, |artifacts| + |extras| + 2) == Disk(map[], p.staging)
  {
    hide *;
    var artifacts := Artifacts(p.listing);
    var extras := Extras(p.after, Elements(artifacts));
    FaithfulElements(output, p);
    AfterPlan(Disk(p.staging, output), artifacts, extras);
    FinalDisk(Disk(p.staging, output), artifacts, extras);
  }

  lemma FaithfulElements(output: Files, p: Publication)
    requires Faithful(output, p) && PROFILE_MARKER in p.listing && IDENTITY_MARKER in p.listing
    requires p.stop > |Artifacts(p.listing)| + 1
    ensures
      var artifacts := Artifacts(p.listing);
      var moved := MoveAll(Apply(Disk(p.staging, output), Remove(PROFILE_MARKER)), artifacts);
      && PROFILE_MARKER in p.staging
      && Elements(artifacts) == p.staging.Keys - {PROFILE_MARKER}
      && Elements(Extras(p.after, Elements(artifacts))) == moved.output.Keys - Elements(artifacts)
  {
    var artifacts := Artifacts(p.listing);
    hide Artifacts, Apply, MoveAll, Distinct, Extras;
    ListsKeys(p.listing, p.staging);
    ArtifactElements(p.listing);
    ExtrasAreTheRest(
      p.after,
      MoveAll(Apply(Disk(p.staging, output), Remove(PROFILE_MARKER)), artifacts).output,
      Elements(artifacts));
  }

  lemma FinalDisk(d: Disk, artifacts: seq<string>, extras: seq<string>)
    requires PROFILE_MARKER in d.staging && Elements(artifacts) == d.staging.Keys - {PROFILE_MARKER}
    requires
      Elements(extras)
      == MoveAll(Apply(d, Remove(PROFILE_MARKER)), artifacts).output.Keys - Elements(artifacts)
    ensures
      Apply(RemoveAll(MoveAll(Apply(d, Remove(PROFILE_MARKER)), artifacts), extras), Move(PROFILE_MARKER))
      == Disk(map[], d.staging)
  {}

  lemma AfterPlan(d: Disk, artifacts: seq<string>, extras: seq<string>)
    ensures
      After(d, artifacts, extras, |artifacts| + |extras| + 2)
      == Apply(RemoveAll(MoveAll(Apply(d, Remove(PROFILE_MARKER)), artifacts), extras), Move(PROFILE_MARKER))
  {}

  lemma ExtrasAreTheRest(after: seq<string>, files: Files, keep: set<string>)
    requires Lists(after, files)
    ensures Elements(Extras(after, keep)) == files.Keys - keep
  {
    ListsKeys(after, files);
    ExtraElements(after, keep);
  }

  lemma ListsKeys(listing: seq<string>, files: Files)
    requires Lists(listing, files)
    ensures Elements(listing) == files.Keys
    ensures forall n :: n in listing <==> n in files
  {
    assert forall n :: n in listing <==> n in Elements(listing);
  }

  // ---------------------------------------------------------- every stopping point

  /** Before the last step the profile marker is absent, or nothing has been done yet. */
  lemma MarkerOnlyAtTheEnds(d: Disk, artifacts: seq<string>, extras: seq<string>, k: nat)
    requires k < |artifacts| + |extras| + 2 && PROFILE_MARKER !in artifacts
    ensures PROFILE_MARKER in After(d, artifacts, extras, k).output ==> k == 0 && After(d, artifacts, extras, k) == d
  {}

  /** Where the moved files are: the first ones of the list, each with its staged content in the output. */
  lemma MovedSoFar(d: Disk, artifacts: seq<string>, extras: seq<string>, k: nat)
    requires 0 < k <= |artifacts| + |extras| + 2
    requires Movable(d, artifacts) && PROFILE_MARKER !in artifacts && forall n | n in extras :: n !in artifacts
    ensures
      var t := After(d, artifacts, extras, k);
      var moved := artifacts[..if k <= 1 + |artifacts| then k - 1 else |artifacts|];
      && (forall n | n in artifacts :: n in t.staging <==> n !in moved)
      && (forall n | n in moved :: n in d.staging && n in t.output && t.output[n] == d.staging[n])
  {}

  /**
   * Wherever a publication stops, the output carries the profile marker only if it was not touched at all
   * or is exactly the staged set.
   */
  lemma PublishIsAtomic(output: Files, p: Publication)
    requires Faithful(output, p)
    ensures
      var (d, outcome) := Publish(output, p);
      && (PROFILE_MARKER in d.output ==> d.output == output || d.output == p.staging)
      && (outcome.Published? ==> d == Disk(map[], p.staging))
      && (outcome.MissingMarker? ==> d.output == output)
  {
    if PROFILE_MARKER in p.listing && IDENTITY_MARKER in p.listing {
      var artifacts := Artifacts(p.listing);
      var extras := Extras(p.after, Elements(artifacts));
      var n := |artifacts| + |extras| + 2;
      PublishIsAfter(output, p);
      NoMarkerAmongArtifacts(p);
      hide Exec, After, Artifacts, Extras, Faithful, PlanOf;
      if p.stop < n {
        MarkerOnlyAtTheEnds(Disk(p.staging, output), artifacts, extras, p.stop);
      } else {
        AfterAll(output, p);
      }
    }
  }

  lemma NoMarkerAmongArtifacts(p: Publication)
    requires Distinct(p.listing)
    ensures PROFILE_MARKER !in Artifacts(p.listing)
  {
    ArtifactElements(p.listing);
    assert PROFILE_MARKER in Artifacts(p.listing) ==> PROFILE_MARKER in Elements(Artifacts(p.listing));
  }

  /** Wherever a publication stops, new JavaScript never sits beside old companions. */
  lemma JavaScriptImpliesCompanions(output: Files, p: Publication, js: string, other: string)
    requires Faithful(output, p)
    requires js in p.staging && EndsWithJs(js) && js != PROFILE_MARKER && js !in Publish(output, p).0.staging
    requires other in p.staging && !EndsWithJs(other) && other != PROFILE_MARKER
    ensures
      var now := Publish(output, p).0.output;
      && other in now && now[other] == p.staging[other]
      && js in now && now[js] == p.staging[js]
  {
    hide *;
    var d := Disk(p.staging, output);
    var artifacts := Artifacts(p.listing);
    var extras := Extras(p.after, Elements(artifacts));
    var n := |artifacts| + |extras| + 2;
    var k := if p.stop < n then p.stop else n;
    FaithfulIsMovable(output, p);
    MovedImpliesMarkers(output, p, js);
    PublishIsAfter(output, p);
    StagedIsArtifact(p, js);
    StagedIsArtifact(p, other);
    AfterNothing(d, artifacts, extras);
    CompanionsAfter(p, d, artifacts, extras, k, js, other);
  }

  lemma CompanionsAfter(
      p: Publication, d: Disk, artifacts: seq<string>, extras: seq<string>, k: nat, js: string, other: string)
    requires 0 < k <= |artifacts| + |extras| + 2 && artifacts == Artifacts(p.listing) && Distinct(p.listing)
    requires Movable(d, artifacts) && PROFILE_MARKER !in artifacts && forall n | n in extras :: n !in artifacts
    requires js in artifacts && EndsWithJs(js) && js !in After(d, artifacts, extras, k).staging
    requires other in artifacts && other in p.listing && !EndsWithJs(other) && other != PROFILE_MARKER
    ensures
      var now := After(d, artifacts, extras, k).output;
      && other in now && other in d.staging && now[other] == d.staging[other]
      && js in now && js in d.staging && now[js] == d.staging[js]
  {
    hide *;
    MovedSoFar(d, artifacts, extras, k);
    JavaScriptComesLast(p.listing, if k <= 1 + |artifacts| then k - 1 else |artifacts|, js, other);
  }

  lemma MovedImpliesMarkers(output: Files, p: Publication, n: string)
    requires n in p.staging && n !in Publish(output, p).0.staging
    ensures PROFILE_MARKER in p.listing && IDENTITY_MARKER in p.listing
  {
    hide Exec, PlanOf;
  }

  lemma AfterNothing(d: Disk, artifacts: seq<string>, extras: seq<string>)
    ensures After(d, artifacts, extras, 0) == d
  {}

  lemma StagedIsArtifact(p: Publication, n: string)
    requires Lists(p.listing, p.staging) && n in p.staging && n != PROFILE_MARKER
    ensures n in p.listing && n in Artifacts(p.listing)
  {
    ListsKeys(p.listing, p.staging);
    ArtifactElements(p.listing);
    assert n in Elements(Artifacts(p.listing));
  }

  lemma FaithfulIsMovable(output: Files, p: Publication)
    requires Faithful(output, p)
    ensures
      var artifacts := Artifacts(p.listing);
      var extras := Extras(p.after, Elements(artifacts));
      && Lists(p.listing, p.staging) && Distinct(p.listing)
      && Movable(Disk(p.staging, output), artifacts) && PROFILE_MARKER !in artifacts
      && (forall n | n in extras :: n !in artifacts)
  {
    var artifacts := Artifacts(p.listing);
    hide Artifacts, Extras;
    ListsKeys(p.listing, p.staging);
    ArtifactElements(p.listing);
    NoMarkerAmongArtifacts(p);
    ExtraElements(p.after, Elements(artifacts));
  }

  // ----------------------------------------------------------- runs of publications

  function RunAll(output: Files, pubs: seq<Publication>): Files
    decreases |pubs|
  {
    if pubs == [] then output else RunAll(Publish(output, pubs[0]).0.output, pubs[1..])
  }

  ghost predicate FaithfulRun(output: Files, pubs: seq<Publication>)
    decreases |pubs|
  {
    pubs != [] ==> Faithful(output, pubs[0]) && FaithfulRun(Publish(output, pubs[0]).0.output, pubs[1..])
  }

  /** Over any sequence of publications, each stopped anywhere, a marked output is one whole staged set. */
  lemma {:induction false} RunIsNeverMixed(output: Files, pubs: seq<Publication>)
    requires FaithfulRun(output, pubs)
    ensures
      var t := RunAll(output, pubs);
      PROFILE_MARKER in t ==> t == output || exists p | p in pubs :: t == p.staging
    decreases |pubs|
  {
    if pubs != [] {
      PublishIsAtomic(output, pubs[0]);
      var next := Publish(output, pubs[0]).0.output;
      hide Publish, Faithful;
      RunIsNeverMixed(next, pubs[1..]);
      assert forall p | p in pubs[1..] :: p in pubs;
    }
  }

  // --------------------------------------------------------------- reuse of a build

  datatype BuildProfile = Debug | WasmDev | Release

  function ProfileName(p: BuildProfile): string {
    match p
    case Debug => "debug"
    case WasmDev => "wasm-dev"
    case Release => "release"
  }

  predicate WasmBuildIsCurrent(
    publishedProfile: string, requested: BuildProfile, builtMs: real, newestMs: real, hasGlue: bool,
    publishedIdentity: string, requestedIdentity: string)
  {
    && publishedProfile == ProfileName(requested)
    && builtMs >= newestMs
    && hasGlue
    && publishedIdentity != ""
    && publishedIdentity == requestedIdentity
  }

  function TextOf(output: Files, name: string): string {
    if name in output then Trim(output[name].content) else ""
  }

  /** Whether the published build is reused for this request. */
  predicate Reuses(output: Files, requested: BuildProfile, newestMs: real, identity: string) {
    WasmBuildIsCurrent(
      TextOf(output, PROFILE_MARKER),
      requested,
      if WASM in output then output[WASM].modified else 0.0,
      newestMs,
      GLUE in output,
      TextOf(output, IDENTITY_MARKER),
      identity)
  }

  /** Whatever was published and interrupted before, a reused build is one whole staged set, of that identity. */
  lemma ReusedIsWhole(
      output: Files, pubs: seq<Publication>, requested: BuildProfile, newestMs: real, identity: string)
    requires FaithfulRun(output, pubs) && PROFILE_MARKER !in output
    requires Reuses(RunAll(output, pubs), requested, newestMs, identity)
    ensures
      exists p | p in pubs ::
        && RunAll(output, pubs) == p.staging
        && TextOf(p.staging, PROFILE_MARKER) == ProfileName(requested)
        && TextOf(p.staging, IDENTITY_MARKER) == identity != ""
        && PROFILE_MARKER in p.staging && IDENTITY_MARKER in p.staging && GLUE in p.staging
  {
    RunIsNeverMixed(output, pubs);
    hide FaithfulRun, RunAll, Trim;
  }

  lemma ProfileNameIsTight(p: BuildProfile)
    ensures Tight(ProfileName(p))
  {}

  /** What a build writes beside its artifacts is what the next request compares with. */
  lemma CompletedBuildIsReused(staged: Files, profile: BuildProfile, newestMs: real, identity: string)
    requires PROFILE_MARKER in staged && staged[PROFILE_MARKER].content == ProfileName(profile) + "\n"
    requires IDENTITY_MARKER in staged && staged[IDENTITY_MARKER].content == identity + "\n" && Tight(identity)
    requires WASM in staged
    ensures Reuses(staged, profile, newestMs, identity) <==> staged[WASM].modified >= newestMs && GLUE in staged
  {
    ProfileNameIsTight(profile);
    TrimLine(ProfileName(profile));
    TrimLine(identity);
    hide Trim;
  }

  // ------------------------------------------------------------------ the program

  /** The two directories, and the steps left before the process stops. */
  class FileSystem {
    var staging: Files
    var output: Files
    var left: nat

    ghost function State(): Disk
      reads this
    {
      Disk(staging, output)
    }

    constructor (staging: Files, output: Files, left: nat)
      ensures State() == Disk(staging, output) && this.left == left
    {
      this.staging, this.output, this.left := staging, output, left;
    }

    /** One step, unless the process has stopped. */
    method Perform(op: Operation) returns (done: bool)
      modifies this
      ensures done <==> old(left) > 0
      ensures State() == if old(left) == 0 then old(State()) else Apply(old(State()), op)
      ensures left == if old(left) == 0 then 0 else old(left) - 1
    {
      if left == 0 { return false; }
      left, done := left - 1, true;
      match op
      case Remove(name) => output := output - {name};
      case Move(name) =>
        if name in staging {
          output := output[name := staging[name]];
          staging := staging - {name};
        }
    }
  }

  /** The names in a directory, in some order. */
  method ReadDirectory(files: Files) returns (names: seq<string>)
    ensures Lists(names, files)
  {
    names := [];
    var rest := files.Keys;
    while rest != {}
      invariant Distinct(names) && Elements(names) == files.Keys - rest && rest <= files.Keys
      decreases rest
    {
      var name :| name in rest;
      assert name !in Elements(names);
      DistinctAppend(names, [name]);
      assert Elements(names + [name]) == Elements(names) + {name};
      names := names + [name];
      rest := rest - {name};
    }
  }

  /** After k steps of a plan, those being what the budget allowed. */
  ghost predicate Executed(now: Disk, left: nat, start: Disk, budget: nat, plan: seq<Operation>, k: nat) {
    && k <= |plan|
    && now == Exec(start, plan[..if k < budget then k else budget])
    && left == (if k < budget then budget - k else 0)
  }

  lemma ExecutedNext(now: Disk, left: nat, start: Disk, budget: nat, plan: seq<Operation>, k: nat)
    requires Executed(now, left, start, budget, plan, k) && k < |plan|
    ensures
      Executed(if left == 0 then now else Apply(now, plan[k]), if left == 0 then 0 else left - 1, start, budget,
               plan, k + 1)
  {
    if k < budget {
      ExecAppend(start, plan[..k], [plan[k]]);
      ExecOne(now, plan[k]);
      hide Exec, Apply;
      assert plan[..k + 1] == plan[..k] + [plan[k]];
    }
  }

  /** A longer plan with the same steps so far. */
  lemma ExecutedLonger(
      now: Disk, left: nat, start: Disk, budget: nat, plan: seq<Operation>, longer: seq<Operation>, k: nat)
    requires Executed(now, left, start, budget, plan, k) && plan <= longer
    ensures Executed(now, left, start, budget, longer, k)
  {
    var m := if k < budget then k else budget;
    assert plan[..m] == longer[..m];
  }

  lemma {:induction false} ExtrasAppend(a: seq<string>, b: seq<string>, keep: set<string>)
    ensures Extras(a + b, keep) == Extras(a, keep) + Extras(b, keep)
  {
    if a == [] {
      assert a + b == b;
    } else {
      assert (a + b)[0] == a[0] && (a + b)[1..] == a[1..] + b;
      ExtrasAppend(a[1..], b, keep);
      AppendAssociates(if a[0] in keep then [] else [a[0]], Extras(a[1..], keep), Extras(b, keep));
    }
  }

  /** Which extra the name at position j of a listing is. */
  lemma ExtrasTurn(after: seq<string>, j: nat, keep: set<string>)
    requires j < |after|
    ensures
      var so := Extras(after[..j], keep);
      && Extras(after[..j + 1], keep) == so + (if after[j] in keep then [] else [after[j]])
      && (after[j] !in keep ==> |so| < |Extras(after, keep)| && Extras(after, keep)[|so|] == after[j])
  {
    assert after[..j + 1] == after[..j] + [after[j]];
    ExtrasAppend(after[..j], [after[j]], keep);
    ExtrasAppend(after[..j + 1], after[j + 1..], keep);
    CutJoins(after, j + 1);
    assert [after[j]][1..] == [];
  }

  /** The listing read after the moves is a listing of what the moves have left. */
  lemma ListingIsFaithful(now: Disk, left: nat, output: Files, p: Publication)
    requires Lists(p.listing, p.staging) && Lists(p.after, now.output)
    requires
      var plan := [Remove(PROFILE_MARKER)] + Moves(Artifacts(p.listing));
      Executed(now, left, Disk(p.staging, output), p.stop, plan, |plan|)
    ensures Faithful(output, p)
  {
    var artifacts := Artifacts(p.listing);
    var plan := [Remove(PROFILE_MARKER)] + Moves(artifacts);
    ArtifactElements(p.listing);
    hide Artifacts, Distinct, MoveAll, Exec, Apply;
    if p.stop > |artifacts| + 1 {
      assert plan[..|plan|] == plan;
      ListsKeys(p.listing, p.staging);
      ExecMoving(Disk(p.staging, output), artifacts);
    }
  }

  /** Every way to go through the whole plan is the specification's. */
  lemma ExecutedAll(now: Disk, left: nat, output: Files, p: Publication)
    requires PROFILE_MARKER in p.listing && IDENTITY_MARKER in p.listing
    requires Executed(now, left, Disk(p.staging, output), p.stop, PlanOf(p), |PlanOf(p)|)
    ensures Publish(output, p) == (now, if p.stop < |PlanOf(p)| then Stopped else Published)
  {
    hide Exec, PlanOf;
    assert PlanOf(p)[..|PlanOf(p)|] == PlanOf(p);
  }

  method MoveArtifacts(fs: FileSystem, artifacts: seq<string>)
    modifies fs
    ensures
      var plan := [Remove(PROFILE_MARKER)] + Moves(artifacts);
      Executed(fs.State(), fs.left, old(fs.State()), old(fs.left), plan, |plan|)
  {
    ghost var start, budget := fs.State(), fs.left;
    ghost var plan := [Remove(PROFILE_MARKER)] + Moves(artifacts);
    assert plan[..0] == [];
    assert Executed(fs.State(), fs.left, start, budget, plan, 0);
    ExecutedNext(fs.State(), fs.left, start, budget, plan, 0);
    hide Executed, Apply;
    var _ := fs.Perform(Remove(PROFILE_MARKER));
    for i := 0 to |artifacts|
      invariant Executed(fs.State(), fs.left, start, budget, plan, i + 1)
    {
      ExecutedNext(fs.State(), fs.left, start, budget, plan, i + 1);
      assert plan[i + 1] == Move(artifacts[i]);
      var _ := fs.Perform(Move(artifacts[i]));
    }
  }

  /** Removes what is listed and not kept; these are the plan's steps from `first` on. */
  method RemoveStale(
      fs: FileSystem, after: seq<string>, keep: set<string>,
      ghost start: Disk, ghost budget: nat, ghost plan: seq<Operation>, ghost first: nat)
    requires Executed(fs.State(), fs.left, start, budget, plan, first)
    requires first + |Extras(after, keep)| <= |plan|
    requires forall i | 0 <= i < |Extras(after, keep)| :: plan[first + i] == Remove(Extras(after, keep)[i])
    modifies fs
    ensures Executed(fs.State(), fs.left, start, budget, plan, first + |Extras(after, keep)|)
  {
    assert after[..0] == [] && after[..|after|] == after;
    hide Executed, Apply;
    for j := 0 to |after|
      invariant Executed(fs.State(), fs.left, start, budget, plan, first + |Extras(after[..j], keep)|)
    {
      ExtrasTurn(after, j, keep);
      if after[j] !in keep {
        ExecutedNext(fs.State(), fs.left, start, budget, plan, first + |Extras(after[..j], keep)|);
        var _ := fs.Perform(Remove(after[j]));
      }
    }
  }

  method PublishWasmArtifacts(fs: FileSystem) returns (outcome: Outcome, ghost p: Publication)
    modifies fs
    ensures p.staging == old(fs.staging) && p.stop == old(fs.left) && Faithful(old(fs.output), p)
    ensures (fs.State(), outcome) == Publish(old(fs.output), p)
  {
    ghost var start, budget := fs.State(), fs.left;
    var listing := ReadDirectory(fs.staging);
    p := Publication(fs.staging, listing, [], budget);
    if PROFILE_MARKER !in listing {
      return MissingMarker(PROFILE_MARKER), p;
    }
    if IDENTITY_MARKER !in listing {
      return MissingMarker(IDENTITY_MARKER), p;
    }
    hide *;
    var artifacts := Artifacts(listing);
    MoveArtifacts(fs, artifacts);
    var after := ReadDirectory(fs.output);
    p := p.(after := after);
    ListingIsFaithful(fs.State(), fs.left, start.output, p);
    PlanParts(p);
    ExecutedLonger(fs.State(), fs.left, start, budget, [Remove(PROFILE_MARKER)] + Moves(artifacts), PlanOf(p),
                   |artifacts| + 1);
    var done := ClearAndCommit(fs, artifacts, after, start, p);
    ExecutedAll(fs.State(), fs.left, start.output, p);
    outcome := if done then Published else Stopped;
  }

  /** The second half of a publication: everything stale goes, and the marker is placed. */
  method ClearAndCommit(
      fs: FileSystem, artifacts: seq<string>, after: seq<string>, ghost start: Disk, ghost p: Publication)
      returns (done: bool)
    requires artifacts == Artifacts(p.listing) && after == p.after
    requires Executed(fs.State(), fs.left, start, p.stop, PlanOf(p), |artifacts| + 1)
    modifies fs
    ensures Executed(fs.State(), fs.left, start, p.stop, PlanOf(p), |PlanOf(p)|)
    ensures done <==> |PlanOf(p)| <= p.stop
  {
    hide *;
    PlanParts(p);
    ghost var plan := PlanOf(p);
    RemoveStale(fs, after, Elements(artifacts), start, p.stop, plan, |artifacts| + 1);
    ExecutedNext(fs.State(), fs.left, start, p.stop, plan, |plan| - 1);
    ExecutedLeft(fs.State(), fs.left, start, p.stop, plan, |plan| - 1);
    done := fs.Perform(Move(PROFILE_MARKER));
  }

  lemma ExecutedLeft(now: Disk, left: nat, start: Disk, budget: nat, plan: seq<Operation>, k: nat)
    requires Executed(now, left, start, budget, plan, k)
    ensures left > 0 <==> k < budget
  {}

  lemma PlanParts(p: Publication)
    ensures
      var artifacts := Artifacts(p.listing);
      var extras := Extras(p.after, Elements(artifacts));
      && [Remove(PROFILE_MARKER)] + Moves(artifacts) <= PlanOf(p)
      && |[Remove(PROFILE_MARKER)] + Moves(artifacts)| == |artifacts| + 1
      && |PlanOf(p)| == |artifacts| + |extras| + 2
      && PlanOf(p)[|PlanOf(p)| - 1] == Move(PROFILE_MARKER)
      && (forall i | 0 <= i < |extras| :: PlanOf(p)[|artifacts| + 1 + i] == Remove(extras[i]))
  {
    hide Artifacts, Extras;
  }

  /** The module's glue is JavaScript and the module is not, so glue that is in place has its module beside it. */
  lemma GlueBringsItsModule(output: Files, p: Publication)
    requires Faithful(output, p) && GLUE in p.staging && WASM in p.staging
    requires GLUE !in Publish(output, p).0.staging
    ensures var now := Publish(output, p).0.output; WASM in now && now[WASM] == p.staging[WASM]
  {
    assert GLUE[|GLUE| - 3..] == ".js" && WASM[|WASM| - 3..] == "asm";
    assert GLUE != PROFILE_MARKER && WASM != PROFILE_MARKER by {
      assert |GLUE| == 9 && |WASM| == 14 && |PROFILE_MARKER| == 20;
    }
    assert ".js"[0] == '.' && "asm"[0] == 'a';
    hide Publish, Faithful;
    JavaScriptImpliesCompanions(output, p, GLUE, WASM);
  }
}
