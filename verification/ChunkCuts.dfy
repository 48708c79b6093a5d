/** Where prose is cut: at headings, at paragraph gaps, and else every 1200 characters (siatt/memory/chunk.py). */
module ChunkCuts {
  import opened Chunks
  import L = ChunkLaws
  import T = Text

  // ----- headings

  /** Stretches of a body that follow one another from end to end: one to each heading, and what is before the first. */
  ghost predicate CutAtHeadings(body: string, headings: seq<nat>, cuts: seq<nat>) {
    && cuts != [] && cuts[0] == 0 && cuts[|cuts| - 1] == |body|
    && (forall i, j | 0 <= i < j < |cuts| - 1 :: cuts[i] < cuts[j])
    && (forall i | 0 <= i < |cuts| - 1 :: cuts[i] <= |body|)
    && (forall x: nat :: x in cuts <==> x == 0 || x == |body| || x in headings)
  }

  /** What the stretches hold, stripped, where that is anything. */
  function Stretches(body: string, cuts: seq<nat>, n: nat): seq<string>
    requires n < |cuts| && forall i | 0 <= i < |cuts| :: cuts[i] <= |body|
    requires forall i | 0 < i < |cuts| :: cuts[i - 1] <= cuts[i]
  {
    if n == 0 then []
    else
      var text := T.Strip(body[cuts[n - 1]..cuts[n]]);
      Stretches(body, cuts, n - 1) + if text == "" then [] else [text]
  }

  lemma {:induction false} SectionsAreStretches(body: string, starts: seq<nat>, n: nat)
    requires Increasing(starts, |body|) && n <= |starts|
    ensures SectionsTo(body, starts, n) == Stretches(body, starts + [|body|], n)
  {
    if n > 0 {
      SectionsAreStretches(body, starts, n - 1);
    }
  }

  lemma StartsCut(body: string, headings: seq<nat>)
    requires Increasing(headings, |body|) && headings != []
    ensures var starts := Starts(headings);
            Increasing(starts, |body|) && CutAtHeadings(body, headings, starts + [|body|])
  {
    var starts := Starts(headings);
    var cuts := starts + [|body|];
    forall x: nat ensures x in cuts <==> x == 0 || x == |body| || x in headings {
      assert x in cuts <==> x in starts || x == |body|;
      if headings[0] != 0 {
        assert x in starts <==> x == 0 || x in headings;
      } else {
        assert starts == headings && headings[0] in headings;
      }
    }
  }

  /** The sections are what lies between one heading and the next, each heading at the start of its own. */
  lemma SectionsCutAtHeadings(body: string, headings: seq<nat>) returns (cuts: seq<nat>)
    requires Increasing(headings, |body|)
    ensures |cuts| >= 2 && CutAtHeadings(body, headings, cuts)
    ensures forall i | 0 < i < |cuts| :: cuts[i - 1] <= cuts[i] <= |body|
    ensures Sections(body, headings) == Stretches(body, cuts, |cuts| - 1)
  {
    if headings == [] {
      cuts := [0, |body|];
      assert body[cuts[0]..cuts[1]] == body;
      assert Stretches(body, cuts, 0) == [];
    } else {
      var starts := Starts(headings);
      cuts := starts + [|body|];
      StartsCut(body, headings);
      SectionsAreStretches(body, starts, |starts|);
    }
  }

  // ----- paragraphs

  /** The paragraphs of a section are exactly what its gaps leave. */
  lemma {:induction false} ParagraphsBetweenGaps(s: string, gaps: seq<Span>, from: nat)
    requires GapsOfSpace(s, gaps) && from <= |s| && (gaps != [] ==> from <= gaps[0].start)
    ensures var paragraphs := Paragraphs(s, gaps, from);
            && |paragraphs| == |gaps| + 1
            && forall i | 0 <= i <= |gaps| ::
                 var start, end := if i == 0 then from else gaps[i - 1].end, if i < |gaps| then gaps[i].start else |s|;
                 start <= end <= |s| && paragraphs[i] == s[start..end]
    decreases |gaps|
  {
    if gaps != [] {
      GapsAfter(s, gaps);
      ParagraphsBetweenGaps(s, gaps[1..], gaps[0].end);
    }
  }

  lemma GapsAfter(s: string, gaps: seq<Span>)
    requires GapsOfSpace(s, gaps) && gaps != []
    ensures GapsOfSpace(s, gaps[1..])
  {
    var rest := gaps[1..];
    forall i, k | 0 <= i < |rest| && rest[i].start <= k < rest[i].end && k < |s| ensures T.IsSpace(s[k]) {
      assert rest[i] == gaps[i + 1];
    }
  }

  // ----- a paragraph longer than the cap

  /** It is cut into pieces of 1200 characters, nothing left out, and what remains is at most that. */
  lemma {:induction false} LongIsCutAtTheCap(f: Filling) returns (pieces: seq<string>)
    ensures CutLong(f).done == f.done + pieces
    ensures Concat(pieces) + CutLong(f).current == f.current
    ensures forall i | 0 <= i < |pieces| :: |pieces[i]| == 1200
    ensures |CutLong(f).current| <= 1200 && (f.current != "" ==> CutLong(f).current != "")
    decreases |f.current|
  {
    if |f.current| <= MAX {
      pieces := [];
    } else {
      var first := f.current[..MAX];
      var rest := LongIsCutAtTheCap(Filling(f.done + [first], f.current[MAX..]));
      pieces := [first] + rest;
      assert f.done + [first] + rest == f.done + pieces;
      ConcatFront(first, rest);
      assert first + f.current[MAX..] == f.current;
    }
  }

  lemma {:induction false} ConcatFront(first: string, rest: seq<string>)
    ensures Concat([first] + rest) == first + Concat(rest)
  {
    if rest == [] {
      assert [first] + rest == [first] && [first][..0] == [];
    } else {
      var all := [first] + rest;
      assert all[..|all| - 1] == [first] + rest[..|rest| - 1];
      ConcatFront(first, rest[..|rest| - 1]);
    }
  }

  // ----- short tails

  /**
   * Pieces in runs that are each folded into one: a piece shorter than 120 characters goes with what is before it when
   * the two come to at most 1200, and any other starts anew.
   */
  ghost predicate FoldsShortTails(groups: seq<seq<string>>) {
    && (forall i | 0 <= i < |groups| :: groups[i] != [] && TailsShort(groups[i]))
    && forall i | 0 < i < |groups| :: |groups[i][0]| >= 120 || |L.Join(groups[i - 1])| + |groups[i][0]| > 1200
  }

  ghost predicate TailsShort(group: seq<string>) {
    forall j | 0 < j < |group| :: |group[j]| < 120 && |L.Join(group[..j])| + |group[j]| <= 1200
  }

  lemma LongerTail(group: seq<string>, piece: string)
    requires group != [] && TailsShort(group) && |piece| < 120 && |L.Join(group)| + |piece| <= 1200
    ensures TailsShort(group + [piece])
  {
    hide L.Join;
    var all := group + [piece];
    forall j | 0 < j < |all| ensures |all[j]| < 120 && |L.Join(all[..j])| + |all[j]| <= 1200 {
      if j < |group| {
        assert all[..j] == group[..j];
      } else {
        assert all[..j] == group;
      }
    }
  }

  lemma AddToLast(front: seq<seq<string>>, last: seq<string>, piece: string)
    requires FoldsShortTails(front + [last]) && |piece| < 120 && |L.Join(last)| + |piece| <= 1200
    ensures FoldsShortTails(front + [last + [piece]])
  {
    hide L.Join, TailsShort;
    var groups, all := front + [last], front + [last + [piece]];
    assert groups[|front|] == last;
    LongerTail(last, piece);
    forall i | 0 <= i < |all| ensures all[i] != [] && TailsShort(all[i]) {
      if i < |front| { assert all[i] == groups[i]; }
    }
    forall i | 0 < i < |all| ensures |all[i][0]| >= 120 || |L.Join(all[i - 1])| + |all[i][0]| > 1200 {
      assert all[i - 1] == groups[i - 1] && all[i][0] == groups[i][0];
    }
  }

  lemma AddAlone(groups: seq<seq<string>>, piece: string)
    requires FoldsShortTails(groups)
    requires groups != [] ==> |piece| >= 120 || |L.Join(groups[|groups| - 1])| + |piece| > 1200
    ensures FoldsShortTails(groups + [[piece]])
  {
    hide L.Join;
    var all := groups + [[piece]];
    forall i | 0 <= i < |all| ensures all[i] != [] && TailsShort(all[i]) {
      if i < |groups| { assert all[i] == groups[i]; }
    }
    forall i | 0 < i < |all| ensures |all[i][0]| >= 120 || |L.Join(all[i - 1])| + |all[i][0]| > 1200 {
      assert all[i - 1] == groups[i - 1];
      if i < |groups| { assert all[i] == groups[i]; }
    }
  }

  /** Folding puts every piece, in order, into one of such runs. */
  lemma {:induction false} FoldedInRuns(pieces: seq<string>) returns (groups: seq<seq<string>>)
    ensures L.Flat(groups) == pieces && L.Joined(groups) == Folded(pieces)
    ensures |groups| == |Folded(pieces)| && FoldsShortTails(groups)
    ensures forall i | 0 <= i < |groups| :: Folded(pieces)[i] == L.Join(groups[i])
  {
    hide L.Join, L.Flat, L.Joined, FoldsShortTails;
    if pieces == [] {
      groups := [];
      NoRuns();
    } else {
      var init, piece := pieces[..|pieces| - 1], pieces[|pieces| - 1];
      var before := FoldedInRuns(init);
      var folded := Folded(init);
      if before != [] && |piece| < 120 && |folded[|folded| - 1]| + |piece| <= 1200 {
        var front, last := before[..|before| - 1], before[|before| - 1];
        assert before == front + [last];
        groups := front + [last + [piece]];
        NotEmptyRun(before);
        AddToLast(front, last, piece);
        L.JoinedSnoc(front, last);
        L.JoinedSnoc(front, last + [piece]);
        L.JoinSnoc(last, piece);
      } else {
        groups := before + [[piece]];
        AddAlone(before, piece);
        L.JoinedSnoc(before, [piece]);
        L.JoinOne(piece);
      }
    }
  }

  lemma NotEmptyRun(groups: seq<seq<string>>)
    requires FoldsShortTails(groups) && groups != []
    ensures groups[|groups| - 1] != []
  {}

  lemma NoRuns()
    ensures L.Flat<string>([]) == [] && L.Joined([]) == [] && FoldsShortTails([])
  {}
}
