/** What a rebuild keeps of each file, and what a link finds (siatt/memory/manifest.py). */
module ManifestLaws {
  import opened Document
  import opened Layout
  import opened Manifests
  import opened Text
  import opened Wrappers

  // ----- the walk

  /** At `k` of the listing there is a file that parses, and none before it has its id. */
  ghost predicate ClaimsAt(tree: Tree, listing: seq<Path>, k: int) {
    && 0 <= k < |listing| && listing[k] in tree && tree[listing[k]].Memory?
    && forall j | 0 <= j < k && listing[j] in tree && tree[listing[j]].Memory? ::
         tree[listing[j]].doc.id != tree[listing[k]].doc.id
  }

  /** What the manifest keeps of a document. */
  ghost predicate IsEntryOf(entry: Entry, path: Path, d: Doc) {
    && entry.path == path && entry.title == d.title && entry.kind == d.kind && entry.visibility == d.visibility
    && entry.supersedes == d.supersedes
  }

  lemma ClaimsBefore(tree: Tree, init: seq<Path>, last: Path, k: int)
    ensures k < |init| ==> (ClaimsAt(tree, init + [last], k) <==> ClaimsAt(tree, init, k))
  {
    var all := init + [last];
    if k < |init| {
      assert forall j | 0 <= j <= k :: all[j] == init[j];
    }
  }

  /** The first file of the walk with an id is its entry, whatever later files claim it. */
  lemma {:induction false} FirstClaimWins(tree: Tree, listing: seq<Path>)
    ensures forall k | ClaimsAt(tree, listing, k) ::
              var d := tree[listing[k]].doc;
              d.id in RebuildFrom(tree, listing) && IsEntryOf(RebuildFrom(tree, listing)[d.id], listing[k], d)
    ensures forall id | id in RebuildFrom(tree, listing) ::
              exists k :: ClaimsAt(tree, listing, k) && tree[listing[k]].doc.id == id
  {
    if listing != [] {
      var n := |listing| - 1;
      var init, last := listing[..n], listing[n];
      FirstClaimWins(tree, init);
      assert listing == init + [last];
      var before, after := RebuildFrom(tree, init), RebuildFrom(tree, listing);
      forall k | ClaimsAt(tree, listing, k)
        ensures var d := tree[listing[k]].doc; d.id in after && IsEntryOf(after[d.id], listing[k], d)
      {
        ClaimsBefore(tree, init, last, k);
        if k == n {
          forall j | ClaimsAt(tree, init, j) ensures tree[init[j]].doc.id != tree[last].doc.id {
            assert listing[j] == init[j];
          }
        }
      }
      forall id | id in after ensures exists k :: ClaimsAt(tree, listing, k) && tree[listing[k]].doc.id == id {
        if id in before {
          var k :| ClaimsAt(tree, init, k) && tree[init[k]].doc.id == id;
          ClaimsBefore(tree, init, last, k);
          assert listing[k] == init[k];
        } else {
          assert ClaimsAt(tree, listing, n) by {
            forall j | 0 <= j < n && listing[j] in tree && tree[listing[j]].Memory?
              ensures tree[listing[j]].doc.id != tree[last].doc.id
            {
              assert init[j] == listing[j];
              SomeoneClaims(tree, init, j);
            }
          }
        }
      }
    }
  }

  lemma {:induction false} SomeoneClaims(tree: Tree, listing: seq<Path>, j: int)
    requires 0 <= j < |listing| && listing[j] in tree && tree[listing[j]].Memory?
    ensures tree[listing[j]].doc.id in RebuildFrom(tree, listing)
  {
    var n := |listing| - 1;
    if j < n {
      SomeoneClaims(tree, listing[..n], j);
    }
  }

  /** A problem is reported for every other entry of the walk, in order. */
  function Others(tree: Tree, listing: seq<Path>, claims: int -> bool, n: nat): seq<Path>
    requires n <= |listing|
  {
    if n == 0 then []
    else Others(tree, listing, claims, n - 1) + if claims(n - 1) then [] else [listing[n - 1]]
  }

  lemma {:induction false} ProblemsAreTheOthers(tree: Tree, listing: seq<Path>, n: nat, claims: int -> bool)
    requires n <= |listing| && forall k | 0 <= k < |listing| :: claims(k) <==> ClaimsAt(tree, listing, k)
    ensures ProblemsFrom(tree, listing[..n]) == Others(tree, listing, claims, n)
  {
    if n > 0 {
      ProblemsAreTheOthers(tree, listing, n - 1, claims);
      var init, last := listing[..n - 1], listing[n - 1];
      assert listing[..n][..n - 1] == init && listing[..n][n - 1] == last;
      FirstClaimWins(tree, init);
      LastClaims(tree, listing, n - 1);
    }
  }

  lemma LastClaims(tree: Tree, listing: seq<Path>, n: nat)
    requires n < |listing|
    ensures ClaimsAt(tree, listing, n)
       <==> && listing[n] in tree && tree[listing[n]].Memory?
            && tree[listing[n]].doc.id !in RebuildFrom(tree, listing[..n])
  {
    var init := listing[..n];
    FirstClaimWins(tree, init);
    if listing[n] in tree && tree[listing[n]].Memory? {
      if tree[listing[n]].doc.id in RebuildFrom(tree, init) {
        var k :| ClaimsAt(tree, init, k) && tree[init[k]].doc.id == tree[listing[n]].doc.id;
        assert listing[k] == init[k];
      } else {
        forall j | 0 <= j < n && listing[j] in tree && tree[listing[j]].Memory?
          ensures tree[listing[j]].doc.id != tree[listing[n]].doc.id
        {
          assert init[j] == listing[j];
          SomeoneClaims(tree, init, j);
        }
      }
    }
  }

  // ----- what a link finds

  lemma {:induction false} NothingToStrip(s: string)
    requires forall i | 0 <= i < |s| :: !IsSpace(s[i])
    ensures Strip(s) == s
  {}

  lemma IdsHaveNoSpace(id: Id)
    requires IsMemoryId(id)
    ensures Strip(id) == id && id != ""
  {
    forall i | 0 <= i < |id| ensures !IsSpace(id[i]) {
      if i < 4 {
        assert id[..4][i] == id[i];
      }
    }
    NothingToStrip(id);
  }

  /** An id links to its memory while it is there, and then to whatever supersedes it. */
  lemma IdLinks(m: Ids, id: Id, k: Id)
    requires IsMemoryId(id)
    ensures Answers(m, id, k)
       <==> if id in m then k == id else k in m && id in m[k].supersedes
    ensures Resolves(m, id) <==> id in m || exists k :: k in m && id in m[k].supersedes
  {
    hide IsMemoryId, Strip;
    IdsHaveNoSpace(id);
    if id in m {
      assert Answers(m, id, id);
    } else if k :| k in m && id in m[k].supersedes {
      assert Answers(m, id, k);
    }
  }

  /** A name that is not an id links to the memory at that path, with or without the suffix and the directory. */
  lemma PathLinks(m: Ids, target: string, k: Id)
    requires var t := Strip(target); t != "" && !IsMemoryId(t)
    requires k in m
    requires var t := Strip(target); m[k].path in {t, t + ".md", "memory/" + t, "memory/" + t + ".md"}
    ensures Answers(m, target, k) && Resolves(m, target)
    ensures forall other | Answers(m, target, other) ::
              var t := Strip(target); m[other].path in {t, t + ".md", "memory/" + t, "memory/" + t + ".md"}
  {
    hide Strip, IsMemoryId, Stem, Name;
    var t := Strip(target);
    assert MEMORY_DIR + "/" == "memory/";
    assert MEMORY_DIR + "/" + t == "memory/" + t;
    assert Candidates(t) == {t, t + ".md", "memory/" + t, "memory/" + t + ".md"};
    assert Answers(m, target, k);
  }
}
