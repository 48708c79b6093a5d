/** Splitting a memory's prose into retrievable pieces (siatt/memory/chunk.py). */
module Chunks {
  import T = Text

  const MAX := 1200
  const MIN := 120

  /** A stretch of text that a pattern matched, from `start` up to `end`. */
  datatype Span = Span(start: nat, end: nat)

  /** What the two patterns find: where headings start, and the gaps between paragraphs. */
  datatype Patterns = Patterns(headings: string -> seq<nat>, gaps: string -> seq<Span>)

  function NonSpace(s: string): string {
    if s == "" then "" else NonSpace(s[..|s| - 1]) + (if T.IsSpace(s[|s| - 1]) then "" else [s[|s| - 1]])
  }

  function Concat(pieces: seq<string>): string {
    if pieces == [] then "" else Concat(pieces[..|pieces| - 1]) + pieces[|pieces| - 1]
  }

  /** Headings are found left to right, inside the text. */
  ghost predicate Increasing(starts: seq<nat>, size: nat) {
    && (forall i | 0 <= i < |starts| :: starts[i] < size)
    && forall i, j | 0 <= i < j < |starts| :: starts[i] < starts[j]
  }

  /** Gaps are found left to right, do not overlap, and are nothing but space. */
  ghost predicate GapsOfSpace(s: string, gaps: seq<Span>) {
    && (forall i | 0 <= i < |gaps| :: gaps[i].start <= gaps[i].end <= |s|)
    && (forall i | 0 < i < |gaps| :: gaps[i - 1].end <= gaps[i].start)
    && forall i, k | 0 <= i < |gaps| && gaps[i].start <= k < gaps[i].end && k < |s| :: T.IsSpace(s[k])
  }

  ghost predicate Sensible(patterns: Patterns) {
    && (forall s: string :: Increasing(patterns.headings(s), |s|))
    && forall s: string :: GapsOfSpace(s, patterns.gaps(s))
  }

  lemma SensibleAt(patterns: Patterns, s: string)
    requires Sensible(patterns)
    ensures Increasing(patterns.headings(s), |s|) && GapsOfSpace(s, patterns.gaps(s))
  {}

  // --- headings ---

  function Starts(boundaries: seq<nat>): seq<nat> {
    if boundaries == [] || boundaries[0] != 0 then [0] + boundaries else boundaries
  }

  /** The text from the `i`-th start to the next, or to the end. */
  function Section(body: string, starts: seq<nat>, i: nat): string
    requires i < |starts| && Increasing(starts, |body|)
  {
    T.Strip(body[starts[i]..if i + 1 < |starts| then starts[i + 1] else |body|])
  }

  function SectionsTo(body: string, starts: seq<nat>, n: nat): seq<string>
    requires n <= |starts| && Increasing(starts, |body|)
  {
    if n == 0 then []
    else
      var before, section := SectionsTo(body, starts, n - 1), Section(body, starts, n - 1);
      if section == "" then before else before + [section]
  }

  function Sections(body: string, boundaries: seq<nat>): seq<string>
    requires Increasing(boundaries, |body|)
  {
    if boundaries == [] then (if T.Strip(body) == "" then [] else [T.Strip(body)])
    else SectionsTo(body, Starts(boundaries), |Starts(boundaries)|)
  }

  method SplitOnHeadings(body: string, boundaries: seq<nat>) returns (sections: seq<string>)
    requires Increasing(boundaries, |body|)
    ensures sections == Sections(body, boundaries)
  {
    if boundaries == [] {
      var whole := T.Strip(body);
      return if whole == "" then [] else [whole];
    }
    var starts := if boundaries[0] != 0 then [0] + boundaries else boundaries;
    sections := [];
    for index := 0 to |starts|
      invariant sections == SectionsTo(body, starts, index)
    {
      var end := if index + 1 < |starts| then starts[index + 1] else |body|;
      var section := T.Strip(body[starts[index]..end]);
      if section != "" {
        sections := sections + [section];
      }
    }
  }

  // --- size ---

  /** The paragraphs of a section: what the gaps leave, from `from` on. */
  function Paragraphs(s: string, gaps: seq<Span>, from: nat): seq<string>
    requires GapsOfSpace(s, gaps) && from <= |s| && (gaps != [] ==> from <= gaps[0].start)
    decreases |gaps|
  {
    if gaps == [] then [s[from..]]
    else
      assert forall i, k | 0 <= i < |gaps[1..]| && gaps[1..][i].start <= k < gaps[1..][i].end && k < |s| ::
        gaps[1..][i] == gaps[i + 1] && T.IsSpace(s[k]);
      [s[from..gaps[0].start]] + Paragraphs(s, gaps[1..], gaps[0].end)
  }

  /** Finished pieces, and the one being filled. */
  datatype Filling = Filling(done: seq<string>, current: string)

  /** A piece longer than the cap has no boundary left to use. */
  function CutLong(f: Filling): Filling
    decreases |f.current|
  {
    if |f.current| <= MAX then f else CutLong(Filling(f.done + [f.current[..MAX]], f.current[MAX..]))
  }

  function AddParagraph(f: Filling, raw: string): Filling {
    var paragraph := T.Strip(raw);
    if paragraph == "" then f
    else if f.current != "" && |f.current| + |paragraph| + 2 > MAX
    then CutLong(Filling(f.done + [f.current], paragraph))
    else CutLong(Filling(f.done, if f.current == "" then paragraph else f.current + "\n\n" + paragraph))
  }

  function Fill(paragraphs: seq<string>): Filling {
    if paragraphs == [] then Filling([], "")
    else AddParagraph(Fill(paragraphs[..|paragraphs| - 1]), paragraphs[|paragraphs| - 1])
  }

  function Finished(f: Filling): seq<string> {
    if f.current == "" then f.done else f.done + [f.current]
  }

  function Sized(section: string, gaps: seq<Span>): seq<string>
    requires GapsOfSpace(section, gaps)
  {
    if |section| <= MAX then [section] else Finished(Fill(Paragraphs(section, gaps, 0)))
  }

  method SplitToSize(section: string, gaps: seq<Span>) returns (chunks: seq<string>)
    requires GapsOfSpace(section, gaps)
    ensures chunks == Sized(section, gaps)
  {
    if |section| <= MAX {
      return [section];
    }
    chunks := [];
    var current := "";
    var paragraphs := Paragraphs(section, gaps, 0);
    for i := 0 to |paragraphs|
      invariant Filling(chunks, current) == Fill(paragraphs[..i])
    {
      assert paragraphs[..i + 1][..i] == paragraphs[..i];
      var paragraph := T.Strip(paragraphs[i]);
      if paragraph == "" {
        continue;
      }
      if current != "" && |current| + |paragraph| + 2 > MAX {
        chunks := chunks + [current];
        current := paragraph;
      } else {
        current := if current != "" then current + "\n\n" + paragraph else paragraph;
      }
      while |current| > MAX
        invariant CutLong(Filling(chunks, current)) == Fill(paragraphs[..i + 1])
      {
        chunks := chunks + [current[..MAX]];
        current := current[MAX..];
      }
    }
    assert paragraphs[..|paragraphs|] == paragraphs;
    if current != "" {
      chunks := chunks + [current];
    }
  }

  // --- short tails ---

  function FoldOne(folded: seq<string>, piece: string): seq<string> {
    if folded != [] && |piece| < MIN && |folded[|folded| - 1]| + |piece| <= MAX
    then folded[|folded| - 1 := folded[|folded| - 1] + "\n\n" + piece]
    else folded + [piece]
  }

  function Folded(pieces: seq<string>): seq<string> {
    if pieces == [] then [] else FoldOne(Folded(pieces[..|pieces| - 1]), pieces[|pieces| - 1])
  }

  method FoldShortTails(pieces: seq<string>) returns (folded: seq<string>)
    ensures folded == Folded(pieces)
  {
    folded := [];
    for i := 0 to |pieces|
      invariant folded == Folded(pieces[..i])
    {
      assert pieces[..i + 1][..i] == pieces[..i];
      var piece := pieces[i];
      if folded != [] && |piece| < MIN && |folded[|folded| - 1]| + |piece| <= MAX {
        folded := folded[|folded| - 1 := folded[|folded| - 1] + "\n\n" + piece];
      } else {
        folded := folded + [piece];
      }
    }
    assert pieces[..|pieces|] == pieces;
  }

  // --- the whole body ---

  ghost function PiecesOf(sections: seq<string>, patterns: Patterns): seq<string>
    requires Sensible(patterns)
  {
    if sections == [] then []
    else PiecesOf(sections[..|sections| - 1], patterns)
         + Sized(sections[|sections| - 1], patterns.gaps(sections[|sections| - 1]))
  }

  ghost function Split(body: string, patterns: Patterns): seq<string>
    requires Sensible(patterns)
  {
    Folded(PiecesOf(Sections(body, patterns.headings(body)), patterns))
  }

  method SplitBody(body: string, patterns: Patterns) returns (pieces: seq<string>)
    requires Sensible(patterns)
    ensures pieces == Split(body, patterns)
  {
    hide Sensible;
    hide GapsOfSpace;
    hide Increasing;
    hide Sized;
    hide Folded;
    SensibleAt(patterns, body);
    var sections := SplitOnHeadings(body, patterns.headings(body));
    pieces := [];
    for i := 0 to |sections|
      invariant pieces == PiecesOf(sections[..i], patterns)
    {
      assert sections[..i + 1][..i] == sections[..i];
      SensibleAt(patterns, sections[i]);
      var sized := SplitToSize(sections[i], patterns.gaps(sections[i]));
      pieces := pieces + sized;
    }
    assert sections[..|sections|] == sections;
    pieces := FoldShortTails(pieces);
  }
}
