/** The id -> path index and link resolution through it (siatt/memory/manifest.py). */
module Manifests {
  import opened Document
  import opened Layout
  import opened Text
  import opened Wrappers

  /** An entry without its checksum and time stamps, which no decision reads. */
  datatype Entry = Entry(path: Path, title: string, kind: string, visibility: string, supersedes: seq<Id>)

  type Ids = map<Id, Entry>

  function EntryFor(path: Path, doc: Doc): Entry {
    Entry(path, doc.title, doc.kind, doc.visibility, doc.supersedes)
  }

  // ----- what a manifest says about a tree

  ghost predicate Holds(tree: Tree, path: Path, id: Id) {
    path in tree && tree[path].Memory? && tree[path].doc.id == id
  }

  /** The manifest names every parseable memory of the tree, each at its one path, and nothing else. */
  ghost predicate Describes(m: Ids, tree: Tree) {
    && (forall id | id in m :: Holds(tree, m[id].path, id) && m[id] == EntryFor(m[id].path, tree[m[id].path].doc))
    && (forall path | path in tree && tree[path].Memory? ::
          tree[path].doc.id in m && m[tree[path].doc.id].path == path)
  }

  ghost predicate Injective(m: Ids) {
    forall a, b | a in m && b in m && m[a].path == m[b].path :: a == b
  }

  lemma DescribedIsInjective(m: Ids, tree: Tree)
    requires Describes(m, tree)
    ensures Injective(m)
  {
    forall a, b | a in m && b in m && m[a].path == m[b].path ensures a == b {
      assert Holds(tree, m[a].path, a) && Holds(tree, m[b].path, b);
    }
  }

  // ----- lookups; where the source takes the first match in dict order, any match is allowed here

  ghost predicate IsIdAt(m: Ids, path: Path, id: Id) {
    id in m && m[id].path == path
  }

  /** `resolve(target)` may answer with the entry of `id`. */
  ghost predicate Answers(m: Ids, target: string, id: Id) {
    var t := Strip(target);
    && t != ""
    && id in m
    && if IsMemoryId(t) then (if t in m then id == t else t in m[id].supersedes)
       else AnswersPath(m, t, id)
  }

  function Candidates(t: string): set<Path> {
    {t, t + ".md", MEMORY_DIR + "/" + t, MEMORY_DIR + "/" + t + ".md"}
  }

  ghost predicate AnswersPath(m: Ids, t: string, id: Id)
    requires id in m
  {
    || m[id].path in Candidates(t)
    || ((forall k | k in m :: m[k].path !in Candidates(t))
        && Stem(m[id].path) == RemoveSuffix(Name(t), ".md"))
  }

  ghost predicate Resolves(m: Ids, target: string) {
    exists id :: Answers(m, target, id)
  }

  /** Fewer memories, unmoved, with the answer among them: the target still resolves. */
  lemma StillResolves(before: Ids, after: Ids, target: string, id: Id)
    requires Answers(before, target, id)
    requires id in after && after[id] == before[id]
    ensures Resolves(after, target)
  {
    var t := Strip(target);
    if IsMemoryId(t) {
      if t in after && id != t {
        assert Answers(after, target, t);
      } else {
        assert Answers(after, target, id);
      }
    } else if exists k :: k in after && after[k].path in Candidates(t) {
      var k :| k in after && after[k].path in Candidates(t);
      assert Answers(after, target, k);
    } else {
      assert Answers(after, target, id);
    }
  }

  // ----- the mutable object

  class Manifest {
    var memories: Ids

    constructor (entries: Ids)
      ensures memories == entries
    {
      memories := entries;
    }

    method Record(path: Path, doc: Doc)
      modifies this
      ensures memories == old(memories)[doc.id := EntryFor(path, doc)]
    {
      memories := memories[doc.id := EntryFor(path, doc)];
    }

    method Forget(id: Id) returns (removed: bool)
      modifies this
      ensures removed == (id in old(memories))
      ensures memories == old(memories) - {id}
    {
      removed := id in memories;
      memories := memories - {id};
    }

    method Move(id: Id, path: Path) returns (moved: bool)
      modifies this
      ensures moved == (id in old(memories))
      ensures memories == if moved then old(memories)[id := old(memories)[id].(path := path)] else old(memories)
    {
      moved := id in memories;
      if moved {
        memories := memories[id := memories[id].(path := path)];
      }
    }

    /** `id_at`: an id living at `path`, if there is one. */
    method IdAt(path: Path) returns (found: Option<Id>)
      ensures found.Some? ==> IsIdAt(memories, path, found.value)
      ensures found.None? ==> forall id :: !IsIdAt(memories, path, id)
    {
      var todo := memories.Keys;
      while todo != {}
        invariant todo <= memories.Keys
        invariant forall id | id in memories && id !in todo :: memories[id].path != path
      {
        var id :| id in todo;
        if memories[id].path == path {
          return Some(id);
        }
        todo := todo - {id};
      }
      found := None;
    }
  }

  // ----- resolution, as the source searches for it

  method SuccessorOf(m: Ids, id: Id) returns (found: Option<Id>)
    ensures found.Some? ==> found.value in m && id in m[found.value].supersedes
    ensures found.None? ==> forall k | k in m :: id !in m[k].supersedes
  {
    var todo := m.Keys;
    while todo != {}
      invariant todo <= m.Keys
      invariant forall k | k in m && k !in todo :: id !in m[k].supersedes
    {
      var k :| k in todo;
      if id in m[k].supersedes {
        return Some(k);
      }
      todo := todo - {k};
    }
    found := None;
  }

  method ByPath(m: Ids, t: string) returns (found: Option<Id>)
    ensures found.Some? ==> found.value in m && AnswersPath(m, t, found.value)
    ensures found.None? ==> forall k | k in m :: !AnswersPath(m, t, k)
  {
    var candidates := Candidates(t);
    var todo := m.Keys;
    while todo != {}
      invariant todo <= m.Keys
      invariant forall k | k in m && k !in todo :: m[k].path !in candidates
    {
      var k :| k in todo;
      if m[k].path in candidates {
        return Some(k);
      }
      todo := todo - {k};
    }
    var stem := RemoveSuffix(Name(t), ".md");
    todo := m.Keys;
    while todo != {}
      invariant todo <= m.Keys
      invariant forall k | k in m && k !in todo :: Stem(m[k].path) != stem
    {
      var k :| k in todo;
      if Stem(m[k].path) == stem {
        return Some(k);
      }
      todo := todo - {k};
    }
    found := None;
  }

  method Resolve(m: Ids, target: string) returns (found: Option<Id>)
    ensures found.Some? ==> Answers(m, target, found.value)
    ensures found.None? ==> !Resolves(m, target)
  {
    var t := Strip(target);
    if t == "" {
      found := None;
    } else if IsMemoryId(t) {
      if t in m {
        found := Some(t);
      } else {
        found := SuccessorOf(m, t);
      }
    } else {
      found := ByPath(m, t);
    }
  }

  // ----- rebuilding from the tree

  /** One step of the walk: the first path to claim an id keeps it, and a file that does not parse is skipped. */
  function RebuildOne(m: Ids, tree: Tree, path: Path): Ids {
    if path in tree && tree[path].Memory? && tree[path].doc.id !in m
    then m[tree[path].doc.id := EntryFor(path, tree[path].doc)] else m
  }

  function RebuildFrom(tree: Tree, listing: seq<Path>): Ids {
    if listing == [] then map[]
    else RebuildOne(RebuildFrom(tree, listing[..|listing| - 1]), tree, listing[|listing| - 1])
  }

  function ProblemsFrom(tree: Tree, listing: seq<Path>): seq<Path> {
    if listing == [] then []
    else
      var path := listing[|listing| - 1];
      var rest := listing[..|listing| - 1];
      ProblemsFrom(tree, rest) +
      if path in tree && tree[path].Memory? && tree[path].doc.id !in RebuildFrom(tree, rest) then [] else [path]
  }

  method Rebuild(tree: Tree, listing: seq<Path>) returns (memories: Ids, problems: seq<Path>)
    ensures memories == RebuildFrom(tree, listing)
    ensures problems == ProblemsFrom(tree, listing)
  {
    memories, problems := map[], [];
    for i := 0 to |listing|
      invariant memories == RebuildFrom(tree, listing[..i])
      invariant problems == ProblemsFrom(tree, listing[..i])
    {
      assert listing[..i + 1][..i] == listing[..i];
      var path := listing[i];
      if path !in tree || tree[path].Broken? {
        problems := problems + [path];
      } else if tree[path].doc.id in memories {
        problems := problems + [path];
      } else {
        memories := memories[tree[path].doc.id := EntryFor(path, tree[path].doc)];
      }
    }
    assert listing[..|listing|] == listing;
  }

  /** The listing is the tree's files, each once. */
  ghost predicate Lists(listing: seq<Path>, tree: Tree) {
    && (forall path | path in tree :: path in listing)
    && (forall i | 0 <= i < |listing| :: listing[i] in tree)
    && (forall i, j | 0 <= i < j < |listing| :: listing[i] != listing[j])
  }

  ghost predicate OneFilePerId(tree: Tree) {
    forall p, q | p in tree && q in tree && tree[p].Memory? && tree[q].Memory? ::
      tree[p].doc.id == tree[q].doc.id ==> p == q
  }

  /** Whatever the listing, an entry is a file of it, and every listed memory has its id in the result. */
  lemma {:induction false} RebuildSound(tree: Tree, listing: seq<Path>)
    requires forall i | 0 <= i < |listing| :: listing[i] in tree
    ensures forall id | id in RebuildFrom(tree, listing) ::
              var e := RebuildFrom(tree, listing)[id];
              e.path in listing && Holds(tree, e.path, id) && e == EntryFor(e.path, tree[e.path].doc)
    ensures forall path | path in listing && tree[path].Memory? :: tree[path].doc.id in RebuildFrom(tree, listing)
  {
    if listing != [] {
      RebuildSound(tree, listing[..|listing| - 1]);
    }
  }

  /**
   * A rebuild describes the tree exactly when no two files carry one id, and then it does not
   * matter in which order the files were walked: any manifest describing the tree is the rebuild.
   */
  lemma RebuildIsTheDescription(tree: Tree, listing: seq<Path>, m: Ids)
    requires Lists(listing, tree)
    ensures Describes(m, tree) <==> OneFilePerId(tree) && m == RebuildFrom(tree, listing)
  {
    var r := RebuildFrom(tree, listing);
    RebuildSound(tree, listing);
    if OneFilePerId(tree) {
      assert Describes(r, tree);
    }
    if Describes(m, tree) {
      assert OneFilePerId(tree);
      assert m.Keys == r.Keys by {
        forall id | id in m ensures id in r { assert m[id].path in listing; }
      }
      forall id | id in m ensures m[id] == r[id] {
        assert Holds(tree, r[id].path, id) && Holds(tree, m[id].path, id);
      }
      assert m == r;
    }
  }
}
