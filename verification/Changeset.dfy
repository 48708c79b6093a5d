/** What a list of file changes means for the corpus it lands in (siatt/memory/changeset.py). */
module Changeset {
  import opened Document
  import opened Layout
  import opened Manifests
  import opened Wrappers

  datatype Change = Write(path: Path, file: File) | Remove(path: Path)

  // ----- what the write path does with the changes (siatt/memory/ltm.py)

  function ReplayOne(tree: Tree, change: Change): Tree {
    match change
    case Write(path, file) => tree[path := file]
    case Remove(path) => tree - {path}
  }

  function Replay(tree: Tree, changes: seq<Change>): Tree {
    if changes == [] then tree
    else ReplayOne(Replay(tree, changes[..|changes| - 1]), changes[|changes| - 1])
  }

  /** Removing a file that is not there is an error that rolls the whole change list back. */
  predicate AppliesCleanly(tree: Tree, changes: seq<Change>) {
    changes == [] ||
    (&& AppliesCleanly(tree, changes[..|changes| - 1])
     && (changes[|changes| - 1].Remove? ==>
           changes[|changes| - 1].path in Replay(tree, changes[..|changes| - 1])))
  }

  lemma {:induction false} ReplayConcat(tree: Tree, a: seq<Change>, b: seq<Change>)
    ensures Replay(tree, a + b) == Replay(Replay(tree, a), b)
    ensures AppliesCleanly(tree, a + b) <==> AppliesCleanly(tree, a) && AppliesCleanly(Replay(tree, a), b)
  {
    if b == [] {
      assert a + b == a;
    } else {
      assert (a + b)[..|a + b| - 1] == a + b[..|b| - 1];
      ReplayConcat(tree, a, b[..|b| - 1]);
    }
  }

  lemma ReplaySingle(tree: Tree, change: Change)
    ensures Replay(tree, [change]) == ReplayOne(tree, change)
    ensures AppliesCleanly(tree, [change]) <==> (change.Remove? ==> change.path in tree)
  {
    var one := [change];
    assert one[..|one| - 1] == [];
    assert Replay(tree, one[..|one| - 1]) == tree && AppliesCleanly(tree, one[..|one| - 1]);
  }

  // ----- project

  /** One step of `project`; on a remove it forgets an id at the path, if any id is there. */
  ghost predicate ProjectsOne(m: Ids, change: Change, after: Ids) {
    match change
    case Write(path, Memory(doc)) => after == m[doc.id := EntryFor(path, doc)]
    case Write(_, Broken) => after == m
    case Remove(path) =>
      if exists id :: IsIdAt(m, path, id) then exists id :: IsIdAt(m, path, id) && after == m - {id} else after == m
  }

  ghost predicate ProjectsTo(m: Ids, changes: seq<Change>, after: Ids)
    decreases |changes|, 1
  {
    if changes == [] then after == m
    else exists mid :: ProjectsVia(m, changes, mid, after)
  }

  ghost predicate ProjectsVia(m: Ids, changes: seq<Change>, mid: Ids, after: Ids)
    requires changes != []
    decreases |changes|, 0
  {
    ProjectsTo(m, changes[..|changes| - 1], mid) && ProjectsOne(mid, changes[|changes| - 1], after)
  }

  lemma LastProjection(m: Ids, init: seq<Change>, last: Change, after: Ids) returns (mid: Ids)
    requires ProjectsTo(m, init + [last], after)
    ensures ProjectsTo(m, init, mid) && ProjectsOne(mid, last, after)
  {
    assert (init + [last])[..|init + [last]| - 1] == init;
    mid :| ProjectsVia(m, init + [last], mid, after);
  }

  method Project(manifest: Ids, changes: seq<Change>) returns (after: Ids)
    ensures ProjectsTo(manifest, changes, after)
  {
    var copy := new Manifest(manifest);
    for i := 0 to |changes|
      invariant ProjectsTo(manifest, changes[..i], copy.memories)
    {
      assert changes[..i + 1][..i] == changes[..i];
      ghost var before := copy.memories;
      match changes[i] {
        case Write(path, Memory(doc)) =>
          copy.Record(path, doc);
        case Write(_, Broken) =>
        case Remove(path) =>
          var found := copy.IdAt(path);
          if found.Some? {
            var _ := copy.Forget(found.value);
          }
      }
      assert ProjectsVia(manifest, changes[..i + 1], before, copy.memories);
    }
    assert changes[..|changes|] == changes;
    after := copy.memories;
  }

  /** A projection over a concatenation passes through a projection over its first half. */
  lemma {:induction false} SplitProjection(m: Ids, a: seq<Change>, b: seq<Change>, after: Ids) returns (mid: Ids)
    requires ProjectsTo(m, a + b, after)
    ensures ProjectsTo(m, a, mid) && ProjectsTo(mid, b, after)
  {
    if b == [] {
      assert a + b == a;
      mid := after;
    } else {
      assert (a + b)[..|a + b| - 1] == a + b[..|b| - 1];
      var pre :| ProjectsVia(m, a + b, pre, after);
      mid := SplitProjection(m, a, b[..|b| - 1], pre);
      assert ProjectsVia(mid, b, pre, after);
    }
  }

  // ----- collisions

  type Owners = map<Id, set<Path>>

  function OwnersAtStart(m: Ids): Owners {
    map id | id in m :: {m[id].path}
  }

  function OwnersAfterOne(owners: Owners, change: Change): Owners {
    var discarded := Discard(owners, change.path);
    match change
    case Write(path, Memory(doc)) => discarded[doc.id := PathsIn(discarded, doc.id) + {path}]
    case _ => discarded
  }

  function Discard(owners: Owners, path: Path): Owners {
    map id | id in owners :: owners[id] - {path}
  }

  function PathsIn(owners: Owners, id: Id): set<Path> {
    if id in owners then owners[id] else {}
  }

  function OwnersAfter(m: Ids, changes: seq<Change>): Owners {
    if changes == [] then OwnersAtStart(m)
    else OwnersAfterOne(OwnersAfter(m, changes[..|changes| - 1]), changes[|changes| - 1])
  }

  method Collisions(manifest: Ids, changes: seq<Change>) returns (clashes: Owners)
    ensures forall id :: id in clashes <==> Reported(manifest, changes, id)
    ensures forall id | id in clashes :: clashes[id] == PathsIn(OwnersAfter(manifest, changes), id)
  {
    var paths := OwnersAtStart(manifest);
    for i := 0 to |changes|
      invariant paths == OwnersAfter(manifest, changes[..i])
    {
      assert changes[..i + 1][..i] == changes[..i];
      var change := changes[i];
      paths := Discard(paths, change.path);
      if change.Write? && change.file.Memory? {
        var id := change.file.doc.id;
        paths := paths[id := PathsIn(paths, id) + {change.path}];
      }
    }
    assert changes[..|changes|] == changes;
    clashes := map id | id in paths && |paths[id]| > 1 :: paths[id];
  }

  /** Where an id lives on disk. */
  ghost function PathsOf(tree: Tree, id: Id): set<Path> {
    set path | path in tree && Holds(tree, path, id)
  }

  /** The walk over the changes tracks the disk exactly: overwrites, removes and broken writes included. */
  lemma {:induction false} OwnersTrackTheTree(m: Ids, tree: Tree, changes: seq<Change>)
    requires Describes(m, tree)
    ensures forall id :: PathsOf(Replay(tree, changes), id) ==
                         PathsIn(OwnersAfter(m, changes), id)
  {
    if changes == [] {
      forall id ensures PathsOf(tree, id) == PathsIn(OwnersAtStart(m), id) {}
    } else {
      var before, last := changes[..|changes| - 1], changes[|changes| - 1];
      OwnersTrackTheTree(m, tree, before);
      var t, o := Replay(tree, before), OwnersAfter(m, before);
      forall id ensures PathsOf(ReplayOne(t, last), id) ==
                        PathsIn(OwnersAfterOne(o, last), id)
      {
        assert PathsOf(ReplayOne(t, last), id) ==
               PathsOf(t, id) - {last.path} +
               if last.Write? && last.file.Memory? && last.file.doc.id == id then {last.path} else {};
      }
    }
  }

  /** Two files carry the id. */
  ghost predicate Duplicated(tree: Tree, id: Id) {
    exists p, q :: p != q && Holds(tree, p, id) && Holds(tree, q, id)
  }

  lemma DuplicatedPaths(tree: Tree, id: Id)
    ensures |PathsOf(tree, id)| > 1 <==> Duplicated(tree, id)
  {
    var paths := PathsOf(tree, id);
    MoreThanOne(paths);
    if |paths| > 1 {
      var p, q :| p != q && p in paths && q in paths;
      assert Holds(tree, p, id) && Holds(tree, q, id);
    }
    if Duplicated(tree, id) {
      var p, q :| p != q && Holds(tree, p, id) && Holds(tree, q, id);
      assert p in paths && q in paths;
    }
  }

  predicate Reported(m: Ids, changes: seq<Change>, id: Id) {
    |PathsIn(OwnersAfter(m, changes), id)| > 1
  }

  /** `collisions` reports an id, with its paths, exactly when two files carry it once the changes are on disk. */
  lemma CollisionsExact(m: Ids, tree: Tree, changes: seq<Change>, id: Id)
    requires Describes(m, tree)
    ensures Reported(m, changes, id) <==> Duplicated(Replay(tree, changes), id)
    ensures Reported(m, changes, id) ==> PathsIn(OwnersAfter(m, changes), id) == PathsOf(Replay(tree, changes), id)
  {
    OwnersTrackTheTree(m, tree, changes);
    DuplicatedPaths(Replay(tree, changes), id);
  }

  lemma MoreThanOne(paths: set<Path>)
    ensures |paths| > 1 <==> exists p, q :: p != q && p in paths && q in paths
  {
    if |paths| > 1 {
      var p :| p in paths;
      assert |paths - {p}| > 0;
      var q :| q in paths - {p};
    }
    if p, q :| p != q && p in paths && q in paths {
      assert {p, q} <= paths;
      assert |paths| == |paths - {p, q}| + |{p, q}|;
    }
  }

  /** Without a described tree the report can be wrong: a duplicate the manifest never saw stays unreported. */
  lemma CollisionsNeedTheManifest(p: Path, q: Path, doc: Doc)
    requires p != q
    ensures var tree: Tree := map[p := Memory(doc), q := Memory(doc)];
            var m: Ids := map[doc.id := EntryFor(p, doc)];
            && PathsOf(Replay(tree, []), doc.id) == {p, q}
            && |OwnersAfter(m, [])[doc.id]| == 1
  {
    var tree: Tree := map[p := Memory(doc), q := Memory(doc)];
    assert Holds(tree, p, doc.id) && Holds(tree, q, doc.id);
  }
}
