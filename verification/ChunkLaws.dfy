/** What splitting keeps: every visible character, in order, in pieces of bounded size. */
module ChunkLaws {
  import T = Text
  import opened Chunks

  // --- visible characters ---

  lemma {:induction false} NonSpaceAdds(a: string, b: string)
    ensures NonSpace(a + b) == NonSpace(a) + NonSpace(b)
  {
    hide T.IsSpace;
    if b == "" {
      assert a + b == a;
    } else {
      assert (a + b)[..|a + b| - 1] == a + b[..|b| - 1];
      NonSpaceAdds(a, b[..|b| - 1]);
    }
  }

  lemma {:induction false} AllSpace(s: string)
    requires forall i | 0 <= i < |s| :: T.IsSpace(s[i])
    ensures NonSpace(s) == ""
  {
    hide T.IsSpace;
    if s != "" { AllSpace(s[..|s| - 1]); }
  }

  lemma {:induction false} LStripKeeps(s: string)
    ensures NonSpace(T.LStrip(s)) == NonSpace(s)
    ensures |T.LStrip(s)| <= |s|
  {
    hide T.IsSpace;
    if s != "" && T.IsSpace(s[0]) {
      LStripKeeps(s[1..]);
      AllSpace(s[..1]);
      NonSpaceAdds(s[..1], s[1..]);
      assert s == s[..1] + s[1..];
    }
  }

  lemma {:induction false} RStripKeeps(s: string)
    ensures NonSpace(T.RStrip(s)) == NonSpace(s)
    ensures |T.RStrip(s)| <= |s|
  {
    hide T.IsSpace;
    if s != "" && T.IsSpace(s[|s| - 1]) { RStripKeeps(s[..|s| - 1]); }
  }

  lemma StripKeeps(s: string)
    ensures NonSpace(T.Strip(s)) == NonSpace(s)
    ensures |T.Strip(s)| <= |s|
  {
    LStripKeeps(s);
    RStripKeeps(T.LStrip(s));
  }

  /** The visible characters of a list of pieces, in order. */
  function Visible(pieces: seq<string>): string {
    NonSpace(Concat(pieces))
  }

  lemma VisibleSnoc(pieces: seq<string>, piece: string)
    ensures Visible(pieces + [piece]) == Visible(pieces) + NonSpace(piece)
  {
    assert (pieces + [piece])[..|pieces|] == pieces;
    NonSpaceAdds(Concat(pieces), piece);
  }

  lemma {:induction false} VisibleConcat(a: seq<string>, b: seq<string>)
    ensures Visible(a + b) == Visible(a) + Visible(b)
  {
    if b == [] {
      assert a + b == a;
    } else {
      var front, last := b[..|b| - 1], b[|b| - 1];
      assert a + b == (a + front) + [last];
      assert b == front + [last];
      VisibleConcat(a, front);
      VisibleSnoc(a + front, last);
      VisibleSnoc(front, last);
    }
  }

  lemma NothingVisible()
    ensures Visible([]) == ""
  {}

  // --- headings ---

  lemma {:induction false} SectionsKeep(body: string, starts: seq<nat>, n: nat)
    requires 0 < n <= |starts| && Increasing(starts, |body|) && starts[0] == 0
    ensures var end := if n < |starts| then starts[n] else |body|;
      Visible(SectionsTo(body, starts, n)) == NonSpace(body[..end])
  {
    hide T.Strip;
    hide NonSpace;
    hide Visible;
    var from, end := starts[n - 1], if n < |starts| then starts[n] else |body|;
    StripKeeps(body[from..end]);
    VisibleSnoc(SectionsTo(body, starts, n - 1), Section(body, starts, n - 1));
    NonSpaceAdds(body[..from], body[from..end]);
    assert body[..end] == body[..from] + body[from..end];
    NothingVisible();
    NonSpaceEmpty();
    if n > 1 {
      SectionsKeep(body, starts, n - 1);
    }
  }

  lemma AllSectionsKeep(body: string, boundaries: seq<nat>)
    requires Increasing(boundaries, |body|)
    ensures Visible(Sections(body, boundaries)) == NonSpace(body)
  {
    hide T.Strip;
    hide NonSpace;
    hide Visible;
    if boundaries == [] {
      StripKeeps(body);
      NothingVisible();
      NonSpaceEmpty();
      VisibleOne(T.Strip(body));
    } else {
      var starts := Starts(boundaries);
      SectionsKeep(body, starts, |starts|);
      assert body[..|body|] == body;
    }
  }

  // --- paragraphs ---

  lemma {:induction false} ParagraphsKeep(s: string, gaps: seq<Span>, from: nat)
    requires GapsOfSpace(s, gaps) && from <= |s| && (gaps != [] ==> from <= gaps[0].start)
    ensures Visible(Paragraphs(s, gaps, from)) == NonSpace(s[from..])
    decreases |gaps|
  {
    hide Visible;
    hide NonSpace;
    if gaps == [] {
      VisibleOne(s[from..]);
    } else {
      var start, end, rest := gaps[0].start, gaps[0].end, gaps[1..];
      GapsTail(s, gaps);
      hide GapsOfSpace;
      ParagraphsKeep(s, rest, end);
      VisibleConcat([s[from..start]], Paragraphs(s, rest, end));
      VisibleOne(s[from..start]);
      SpaceBetween(s[from..start], s[start..end], s[end..]);
      assert s[from..] == s[from..start] + s[start..end] + s[end..];
    }
  }

  lemma VisibleOne(piece: string)
    ensures Visible([piece]) == NonSpace(piece)
  {
    VisibleSnoc([], piece);
    assert [] + [piece] == [piece];
  }

  lemma SpaceBetween(a: string, gap: string, b: string)
    requires forall i | 0 <= i < |gap| :: T.IsSpace(gap[i])
    ensures NonSpace(a + gap + b) == NonSpace(a) + NonSpace(b)
  {
    hide NonSpace;
    hide T.IsSpace;
    AllSpace(gap);
    NonSpaceAdds(a, gap);
    NonSpaceAdds(a + gap, b);
  }

  lemma GapsTail(s: string, gaps: seq<Span>)
    requires GapsOfSpace(s, gaps) && gaps != []
    ensures GapsOfSpace(s, gaps[1..]) && gaps[0].start <= gaps[0].end <= |s|
    ensures |gaps| > 1 ==> gaps[0].end <= gaps[1].start
    ensures forall i | 0 <= i < gaps[0].end - gaps[0].start :: T.IsSpace(s[gaps[0].start..gaps[0].end][i])
  {
    hide T.IsSpace;
    var rest := gaps[1..];
    forall i, k | 0 <= i < |rest| && rest[i].start <= k < rest[i].end && k < |s| ensures T.IsSpace(s[k]) {
      assert rest[i] == gaps[i + 1];
    }
  }

  // --- filling pieces ---

  function Shown(f: Filling): string {
    Visible(f.done) + NonSpace(f.current)
  }

  ghost predicate Bounded(pieces: seq<string>, size: nat) {
    forall i | 0 <= i < |pieces| :: 0 < |pieces[i]| <= size
  }

  lemma {:induction false} CutLongKeeps(f: Filling)
    requires Bounded(f.done, MAX)
    ensures Shown(CutLong(f)) == Shown(f)
    ensures Bounded(CutLong(f).done, MAX) && |CutLong(f).current| <= MAX
    decreases |f.current|
  {
    if |f.current| > MAX {
      var head, tail := f.current[..MAX], f.current[MAX..];
      CutLongKeeps(Filling(f.done + [head], tail));
      VisibleSnoc(f.done, head);
      NonSpaceAdds(head, tail);
      assert f.current == head + tail;
    }
  }

  lemma AddParagraphKeeps(f: Filling, raw: string)
    requires Bounded(f.done, MAX) && |f.current| <= MAX
    ensures Shown(AddParagraph(f, raw)) == Shown(f) + NonSpace(raw)
    ensures Bounded(AddParagraph(f, raw).done, MAX) && |AddParagraph(f, raw).current| <= MAX
  {
    hide T.Strip;
    hide CutLong;
    hide NonSpace;
    StripKeeps(raw);
    NonSpaceEmpty();
    var paragraph := T.Strip(raw);
    if paragraph == "" {
    } else if f.current != "" && |f.current| + |paragraph| + 2 > MAX {
      VisibleSnoc(f.done, f.current);
      CutLongKeeps(Filling(f.done + [f.current], paragraph));
    } else {
      JoinKeeps(f.current, paragraph);
      CutLongKeeps(Filling(f.done, if f.current == "" then paragraph else f.current + "\n\n" + paragraph));
    }
  }

  lemma NonSpaceEmpty()
    ensures NonSpace("") == ""
  {}

  lemma JoinKeeps(a: string, b: string)
    ensures NonSpace(a + "\n\n" + b) == NonSpace(a) + NonSpace(b)
  {
    SpaceBetween(a, "\n\n", b);
  }

  lemma {:induction false} FillKeeps(paragraphs: seq<string>)
    ensures Shown(Fill(paragraphs)) == Visible(paragraphs)
    ensures Bounded(Fill(paragraphs).done, MAX) && |Fill(paragraphs).current| <= MAX
  {
    hide AddParagraph;
    if paragraphs != [] {
      var front, last := paragraphs[..|paragraphs| - 1], paragraphs[|paragraphs| - 1];
      FillKeeps(front);
      AddParagraphKeeps(Fill(front), last);
      VisibleSnoc(front, last);
      assert paragraphs == front + [last];
    }
  }

  lemma SizedKeeps(section: string, gaps: seq<Span>)
    requires GapsOfSpace(section, gaps) && section != ""
    ensures Visible(Sized(section, gaps)) == NonSpace(section)
    ensures Bounded(Sized(section, gaps), MAX)
  {
    if |section| <= MAX {
      VisibleSnoc([], section);
      assert [] + [section] == [section];
    } else {
      var f := Fill(Paragraphs(section, gaps, 0));
      ParagraphsKeep(section, gaps, 0);
      assert section[0..] == section;
      FillKeeps(Paragraphs(section, gaps, 0));
      VisibleSnoc(f.done, f.current);
    }
  }

  // --- folding ---

  /** A short piece stands alone only where it is the first or what precedes it is too long. */
  ghost predicate NoLooseTail(folded: seq<string>) {
    forall i | 0 < i < |folded| && |folded[i]| < MIN :: |folded[i - 1]| + |folded[i]| > MAX
  }

  lemma FoldOneShows(folded: seq<string>, piece: string)
    ensures Visible(FoldOne(folded, piece)) == Visible(folded) + NonSpace(piece)
  {
    hide NonSpace;
    hide Visible;
    if folded != [] && |piece| < MIN && |folded[|folded| - 1]| + |piece| <= MAX {
      var front, last := folded[..|folded| - 1], folded[|folded| - 1];
      JoinKeeps(last, piece);
      VisibleSnoc(front, last);
      VisibleSnoc(front, last + "\n\n" + piece);
      assert folded == front + [last];
      assert FoldOne(folded, piece) == front + [last + "\n\n" + piece];
    } else {
      VisibleSnoc(folded, piece);
    }
  }

  lemma FoldOneFits(folded: seq<string>, piece: string)
    requires Bounded(folded, MAX + 2) && NoLooseTail(folded) && 0 < |piece| <= MAX
    ensures Bounded(FoldOne(folded, piece), MAX + 2) && NoLooseTail(FoldOne(folded, piece))
  {}

  lemma NoTailYet()
    ensures NoLooseTail([])
  {}

  lemma {:induction false} FoldKeeps(pieces: seq<string>)
    requires Bounded(pieces, MAX)
    ensures Visible(Folded(pieces)) == Visible(pieces)
    ensures Bounded(Folded(pieces), MAX + 2) && NoLooseTail(Folded(pieces))
  {
    hide FoldOne;
    hide Visible;
    hide NonSpace;
    hide NoLooseTail;
    if pieces == [] {
      NoTailYet();
    } else {
      var front, last := pieces[..|pieces| - 1], pieces[|pieces| - 1];
      FoldKeeps(front);
      FoldOneShows(Folded(front), last);
      FoldOneFits(Folded(front), last);
      VisibleSnoc(front, last);
      assert pieces == front + [last];
    }
  }

  /** The fold joins piece `n` to the one before it, and with the separator the two are over the cap. */
  predicate JoinsOver(pieces: seq<string>, n: nat) {
    && n < |pieces| && |pieces[n]| < MIN
    && var folded := Folded(pieces[..n]);
       folded != [] && MAX - 1 <= |folded[|folded| - 1]| + |pieces[n]| <= MAX
  }

  predicate OverCap(pieces: seq<string>) {
    exists i :: 0 <= i < |pieces| && |pieces[i]| > MAX
  }

  lemma FoldOneOver(folded: seq<string>, piece: string)
    requires 0 < |piece| <= MAX
    ensures OverCap(FoldOne(folded, piece)) <==>
            || OverCap(folded)
            || (folded != [] && |piece| < MIN && MAX - 1 <= |folded[|folded| - 1]| + |piece| <= MAX)
  {
    var after := FoldOne(folded, piece);
    if i :| 0 <= i < |folded| && |folded[i]| > MAX {
      assert |after[i]| > MAX;
    }
    if folded != [] && |piece| < MIN && MAX - 1 <= |folded[|folded| - 1]| + |piece| <= MAX {
      assert |after[|folded| - 1]| > MAX;
    }
    if i :| 0 <= i < |after| && |after[i]| > MAX {
      assert i < |folded| && after[i] == folded[i] ==> OverCap(folded);
    }
  }

  /** A folded piece is over the cap exactly when the fold joined two whose lengths came within one of it. */
  lemma {:induction false} FoldOverCap(pieces: seq<string>)
    requires Bounded(pieces, MAX)
    ensures OverCap(Folded(pieces)) <==> exists n :: JoinsOver(pieces, n)
  {
    hide FoldOne;
    hide OverCap;
    if pieces == [] {
      assert !OverCap([]) by { NothingOver(); }
    } else {
      var k := |pieces| - 1;
      var front := pieces[..k];
      FoldOverCap(front);
      FoldOneOver(Folded(front), pieces[k]);
      forall n: nat | n < k ensures JoinsOver(front, n) <==> JoinsOver(pieces, n) {
        assert front[..n] == pieces[..n];
      }
      if exists n :: JoinsOver(front, n) {
        var n: nat :| JoinsOver(front, n);
        assert JoinsOver(pieces, n);
      }
      if exists n :: JoinsOver(pieces, n) {
        var n: nat :| JoinsOver(pieces, n);
        assert n == k || JoinsOver(front, n);
      }
      assert JoinsOver(pieces, k)
        <==> Folded(front) != [] && |pieces[k]| < MIN
             && MAX - 1 <= |Folded(front)[|Folded(front)| - 1]| + |pieces[k]| <= MAX;
    }
  }

  lemma NothingOver()
    ensures !OverCap([])
  {}

  // --- the whole body ---

  lemma {:induction false} PiecesKeep(sections: seq<string>, patterns: Patterns)
    requires Sensible(patterns) && forall i | 0 <= i < |sections| :: sections[i] != ""
    ensures Visible(PiecesOf(sections, patterns)) == Visible(sections)
    ensures Bounded(PiecesOf(sections, patterns), MAX)
  {
    hide Sized;
    hide GapsOfSpace;
    hide Visible;
    hide NonSpace;
    hide Sensible;
    NothingVisible();
    if sections != [] {
      var front, last := sections[..|sections| - 1], sections[|sections| - 1];
      SensibleAt(patterns, last);
      PiecesKeep(front, patterns);
      SizedKeeps(last, patterns.gaps(last));
      VisibleConcat(PiecesOf(front, patterns), Sized(last, patterns.gaps(last)));
      VisibleSnoc(front, last);
      assert sections == front + [last];
    }
  }

  lemma {:induction false} SectionsNotEmpty(body: string, starts: seq<nat>, n: nat)
    requires n <= |starts| && Increasing(starts, |body|)
    ensures forall i | 0 <= i < |SectionsTo(body, starts, n)| :: SectionsTo(body, starts, n)[i] != ""
  {
    hide Section;
    if n > 0 { SectionsNotEmpty(body, starts, n - 1); }
  }

  /** Wherever the headings and the paragraphs are: splitting loses no visible character and moves
      none; no piece is empty or longer than the cap and a separator; and no short tail is left
      where it could have been folded. */
  lemma SplitKeepsTheText(body: string, patterns: Patterns)
    requires Sensible(patterns)
    ensures Visible(Split(body, patterns)) == NonSpace(body)
    ensures Bounded(Split(body, patterns), MAX + 2)
    ensures NoLooseTail(Split(body, patterns))
  {
    hide NonSpace;
    hide Visible;
    hide Sensible;
    hide Bounded;
    hide NoLooseTail;
    var boundaries := patterns.headings(body);
    SensibleAt(patterns, body);
    AllSectionsKeep(body, boundaries);
    NoSectionIsEmpty(body, boundaries);
    hide Sections;
    hide Folded;
    hide PiecesOf;
    var sections := Sections(body, boundaries);
    PiecesKeep(sections, patterns);
    FoldKeeps(PiecesOf(sections, patterns));
  }

  lemma NoSectionIsEmpty(body: string, boundaries: seq<nat>)
    requires Increasing(boundaries, |body|)
    ensures forall i | 0 <= i < |Sections(body, boundaries)| :: Sections(body, boundaries)[i] != ""
  {
    hide T.Strip;
    if boundaries != [] { SectionsNotEmpty(body, Starts(boundaries), |Starts(boundaries)|); }
  }

  /** When splitting goes over the cap. */
  lemma SplitOverCap(body: string, patterns: Patterns)
    requires Sensible(patterns)
    ensures OverCap(Split(body, patterns))
       <==> exists n :: JoinsOver(PiecesOf(Sections(body, patterns.headings(body)), patterns), n)
  {
    hide Sensible;
    hide Sections;
    hide Folded;
    hide PiecesOf;
    hide Visible;
    hide NonSpace;
    SensibleAt(patterns, body);
    var sections := Sections(body, patterns.headings(body));
    NoSectionIsEmpty(body, patterns.headings(body));
    PiecesKeep(sections, patterns);
    FoldOverCap(PiecesOf(sections, patterns));
  }

  /** Text with no space at either end. */
  predicate Tight(s: string) {
    s != "" && !T.IsSpace(s[0]) && !T.IsSpace(s[|s| - 1])
  }

  lemma StripTight(s: string)
    requires Tight(s)
    ensures T.Strip(s) == s && T.Strip(s + "\n") == s
  {
    assert (s + "\n")[..|s|] == s;
    assert T.LStrip(s) == s && T.LStrip(s + "\n") == s + "\n";
    assert T.RStrip(s) == s;
  }

  /** The bound is met, so the cap is not one: the fold's guard does not count its separator, and
      1081 characters followed by a heading and 119 more come out as one piece of 1202. */
  lemma CapExceeded(a: string, b: string, patterns: Patterns)
    requires Sensible(patterns) && Tight(a) && Tight(b) && |a| == MAX - MIN + 1 && |b| == MIN - 1
    requires patterns.headings(a + "\n" + b) == [|a| + 1]
    ensures Split(a + "\n" + b, patterns) == [a + "\n\n" + b] && |a + "\n\n" + b| == MAX + 2
  {
    hide Sensible;
    hide T.Strip;
    hide Tight;
    var body := a + "\n" + b;
    SensibleAt(patterns, body);
    SensibleAt(patterns, a);
    SensibleAt(patterns, b);
    hide GapsOfSpace;
    StripTight(a);
    StripTight(b);
    var starts := Starts([|a| + 1]);
    assert body[0..|a| + 1] == a + "\n" && body[|a| + 1..|body|] == b;
    assert Section(body, starts, 0) == a && Section(body, starts, 1) == b;
    assert SectionsTo(body, starts, 1) == [a] && SectionsTo(body, starts, 2) == [a, b];
    assert [a, b][..1] == [a] && [a][..0] == [];
    assert PiecesOf([], patterns) == [] && PiecesOf([a], patterns) == [a] && PiecesOf([a, b], patterns) == [a, b];
    assert Folded([]) == [] && Folded([a]) == [a];
  }

  // --- where the cuts are ---

  /** The paragraphs worth keeping, trimmed. */
  function Trimmed(paragraphs: seq<string>): seq<string> {
    if paragraphs == [] then []
    else
      var before, p := Trimmed(paragraphs[..|paragraphs| - 1]), T.Strip(paragraphs[|paragraphs| - 1]);
      if p == "" then before else before + [p]
  }

  function Join(group: seq<string>): string {
    if |group| == 0 then ""
    else if |group| == 1 then group[0]
    else Join(group[..|group| - 1]) + "\n\n" + group[|group| - 1]
  }

  function Joined(groups: seq<seq<string>>): seq<string> {
    if groups == [] then [] else Joined(groups[..|groups| - 1]) + [Join(groups[|groups| - 1])]
  }

  function Flat<T>(groups: seq<seq<T>>): seq<T> {
    if groups == [] then [] else Flat(groups[..|groups| - 1]) + groups[|groups| - 1]
  }

  /** The trimmed paragraphs in runs, each run as long as the cap lets it be. */
  function Runs(trimmed: seq<string>): seq<seq<string>> {
    if trimmed == [] then [] else AddRun(Runs(trimmed[..|trimmed| - 1]), trimmed[|trimmed| - 1])
  }

  function AddRun(runs: seq<seq<string>>, p: string): seq<seq<string>> {
    if runs == [] || |Join(runs[|runs| - 1])| + |p| + 2 > MAX then runs + [[p]]
    else runs[..|runs| - 1] + [runs[|runs| - 1] + [p]]
  }

  /** The same step on the pieces themselves. */
  function AddPiece(pieces: seq<string>, p: string): seq<string> {
    if pieces == [] || |pieces[|pieces| - 1]| + |p| + 2 > MAX then pieces + [p]
    else pieces[..|pieces| - 1] + [pieces[|pieces| - 1] + "\n\n" + p]
  }

  /** Every run is non-empty, fits, and could not have taken the next paragraph. */
  ghost predicate Greedy(groups: seq<seq<string>>) {
    && (forall i | 0 <= i < |groups| :: groups[i] != [] && 0 < |Join(groups[i])| <= MAX)
    && forall i | 0 <= i < |groups| - 1 :: |Join(groups[i])| + |groups[i + 1][0]| + 2 > MAX
  }

  lemma JoinOne(p: string)
    ensures Join([p]) == p
  {}

  lemma JoinSnoc(group: seq<string>, p: string)
    requires group != []
    ensures Join(group + [p]) == Join(group) + "\n\n" + p
  {
    assert (group + [p])[..|group|] == group;
  }

  lemma JoinedSnoc(groups: seq<seq<string>>, group: seq<string>)
    ensures Joined(groups + [group]) == Joined(groups) + [Join(group)]
    ensures Flat(groups + [group]) == Flat(groups) + group
  {
    assert (groups + [group])[..|groups|] == groups;
  }

  lemma AddRunGreedy(runs: seq<seq<string>>, p: string)
    requires Greedy(runs) && 0 < |p| <= MAX
    ensures Greedy(AddRun(runs, p))
  {
    hide Join;
    JoinOne(p);
    if runs != [] { JoinSnoc(runs[|runs| - 1], p); }
  }

  lemma AddRunFlat(runs: seq<seq<string>>, p: string)
    ensures Flat(AddRun(runs, p)) == Flat(runs) + [p]
  {
    hide Join;
    hide Flat;
    if runs == [] || |Join(runs[|runs| - 1])| + |p| + 2 > MAX {
      JoinedSnoc(runs, [p]);
    } else {
      var front, last := runs[..|runs| - 1], runs[|runs| - 1];
      assert runs == front + [last];
      JoinedSnoc(front, last);
      JoinedSnoc(front, last + [p]);
    }
  }

  lemma AddRunJoins(runs: seq<seq<string>>, p: string)
    requires Greedy(runs)
    ensures Joined(AddRun(runs, p)) == AddPiece(Joined(runs), p)
  {
    hide Join;
    hide Joined;
    JoinOne(p);
    if runs == [] {
      NothingYet();
      JoinedSnoc(runs, [p]);
    } else {
      var front, last := runs[..|runs| - 1], runs[|runs| - 1];
      assert runs == front + [last];
      JoinedSnoc(front, last);
      JoinedSnoc(front, last + [p]);
      JoinSnoc(last, p);
      JoinedSnoc(runs, [p]);
    }
  }

  lemma {:induction false} RunsAreGreedy(trimmed: seq<string>)
    requires forall i | 0 <= i < |trimmed| :: 0 < |trimmed[i]| <= MAX
    ensures Greedy(Runs(trimmed)) && Flat(Runs(trimmed)) == trimmed
  {
    hide Greedy;
    hide Flat;
    hide AddRun;
    if trimmed == [] {
      NothingYet();
    } else {
      var rest, p := trimmed[..|trimmed| - 1], trimmed[|trimmed| - 1];
      RunsAreGreedy(rest);
      AddRunGreedy(Runs(rest), p);
      AddRunFlat(Runs(rest), p);
      assert trimmed == rest + [p];
    }
  }

  lemma NothingYet()
    ensures Greedy([]) && Flat<string>([]) == [] && Joined([]) == []
  {}

  ghost predicate Fitting(paragraphs: seq<string>) {
    forall i | 0 <= i < |paragraphs| :: |T.Strip(paragraphs[i])| <= MAX
  }

  /** A filling that no paragraph has overrun. */
  predicate Whole(f: Filling) {
    |f.current| <= MAX && (f.current == "" ==> f.done == [])
  }

  lemma AddStaysWhole(f: Filling, raw: string)
    requires Whole(f) && |T.Strip(raw)| <= MAX
    ensures Whole(AddParagraph(f, raw))
    ensures Finished(AddParagraph(f, raw))
         == if T.Strip(raw) == "" then Finished(f) else AddPiece(Finished(f), T.Strip(raw))
  {
    hide T.Strip;
  }

  /** Unless a paragraph alone is over the cap, a section is cut only between paragraphs, and every
      piece takes as many of them as fit. */
  lemma {:induction false} ParagraphsStayWhole(paragraphs: seq<string>)
    requires Fitting(paragraphs)
    ensures Finished(Fill(paragraphs)) == Joined(Runs(Trimmed(paragraphs)))
    ensures Greedy(Runs(Trimmed(paragraphs))) && Flat(Runs(Trimmed(paragraphs))) == Trimmed(paragraphs)
    ensures Whole(Fill(paragraphs))
  {
    hide T.Strip;
    hide AddParagraph;
    hide AddPiece;
    hide AddRun;
    hide Greedy;
    hide Joined;
    hide Flat;
    TrimmedFit(paragraphs);
    RunsAreGreedy(Trimmed(paragraphs));
    if paragraphs == [] {
      NothingYet();
    } else {
      var front, raw := paragraphs[..|paragraphs| - 1], paragraphs[|paragraphs| - 1];
      ParagraphsStayWhole(front);
      AddStaysWhole(Fill(front), raw);
      AddRunJoins(Runs(Trimmed(front)), T.Strip(raw));
      assert (Trimmed(front) + [T.Strip(raw)])[..|Trimmed(front)|] == Trimmed(front);
    }
  }

  lemma {:induction false} TrimmedFit(paragraphs: seq<string>)
    requires Fitting(paragraphs)
    ensures forall i | 0 <= i < |Trimmed(paragraphs)| :: 0 < |Trimmed(paragraphs)[i]| <= MAX
  {
    hide T.Strip;
    if paragraphs != [] { TrimmedFit(paragraphs[..|paragraphs| - 1]); }
  }
}
