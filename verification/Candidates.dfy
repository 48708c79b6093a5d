/** Collecting and merging the candidates for recall (siatt/memory/retrieve.py). */
module Candidates {
  import opened Wrappers
  import T = Text

  /** A row of the chunk table; ordinal 0 is the memory's header, the others its prose. */
  datatype Row = Row(id: string, memoryId: string, path: string, ordinal: nat, text: string, pinned: bool)

  datatype Candidate = Candidate(memoryId: string, path: string, chunkId: string, ordinal: nat, text: string,
                                 pinned: bool, lexicalRank: Option<nat>, headerRank: Option<nat>,
                                 vectorRank: Option<nat>, vectorDistance: Option<real>, fused: real, final: real)

  /** `render_snippet`. */
  function Snippet(c: Candidate): string {
    "[[" + c.memoryId + "]] (" + c.path + ")\n" + T.Strip(c.text)
  }

  function Of(row: Row, lexicalRank: Option<nat>, headerRank: Option<nat>, vectorRank: Option<nat>,
              vectorDistance: Option<real>): Candidate
  {
    Candidate(row.memoryId, row.path, row.id, row.ordinal, row.text, row.pinned,
              lexicalRank, headerRank, vectorRank, vectorDistance, 0.0, 0.0)
  }

  // --- merging ---

  /** `a or b` on an optional rank: zero counts as absent. */
  function Or(a: Option<nat>, b: Option<nat>): Option<nat> {
    if a.Some? && a.value != 0 then a else b
  }

  function Max(a: real, b: real): real { if a < b then b else a }

  function Join(existing: Candidate, c: Candidate): Candidate {
    existing.(lexicalRank := Or(existing.lexicalRank, c.lexicalRank),
              headerRank := Or(existing.headerRank, c.headerRank),
              vectorRank := Or(existing.vectorRank, c.vectorRank),
              vectorDistance := if existing.vectorDistance.Some? then existing.vectorDistance else c.vectorDistance,
              fused := Max(existing.fused, c.fused),
              final := Max(existing.final, c.final))
  }

  /** The chunk ids, each where it first appears. */
  function FirstSeen(candidates: seq<Candidate>): seq<string> {
    if candidates == [] then []
    else
      var before := FirstSeen(candidates[..|candidates| - 1]);
      var id := candidates[|candidates| - 1].chunkId;
      if id in before then before else before + [id]
  }

  /** Everything said about one chunk, joined in order. */
  function Joined(candidates: seq<Candidate>, id: string): Option<Candidate> {
    if candidates == [] then None
    else
      var before := Joined(candidates[..|candidates| - 1], id);
      var c := candidates[|candidates| - 1];
      if c.chunkId != id then before
      else if before.None? then Some(c)
      else Some(Join(before.value, c))
  }

  method Merge(candidates: seq<Candidate>) returns (merged: seq<Candidate>)
    ensures |merged| == |FirstSeen(candidates)|
    ensures forall i | 0 <= i < |merged| :: Joined(candidates, FirstSeen(candidates)[i]) == Some(merged[i])
  {
    var order: seq<string> := [];
    var byChunk: map<string, Candidate> := map[];
    for i := 0 to |candidates|
      invariant order == FirstSeen(candidates[..i])
      invariant forall id :: id in byChunk <==> id in order
      invariant forall id :: Joined(candidates[..i], id) == if id in byChunk then Some(byChunk[id]) else None
    {
      assert candidates[..i + 1][..i] == candidates[..i];
      var c := candidates[i];
      if c.chunkId !in byChunk {
        order := order + [c.chunkId];
        byChunk := byChunk[c.chunkId := c];
      } else {
        byChunk := byChunk[c.chunkId := Join(byChunk[c.chunkId], c)];
      }
    }
    assert candidates[..|candidates|] == candidates;
    merged := seq(|order|, i requires 0 <= i < |order| => byChunk[order[i]]);
  }

  /** There is a candidate of the one chunk before any of the other. */
  ghost predicate SeenBefore(candidates: seq<Candidate>, one: string, other: string) {
    exists p :: 0 <= p < |candidates| && candidates[p].chunkId == one && NotYet(candidates, other, p)
  }

  predicate NotYet(candidates: seq<Candidate>, id: string, n: nat)
    requires n <= |candidates|
  {
    forall i | 0 <= i < n :: candidates[i].chunkId != id
  }

  lemma SeenBeforeStill(front: seq<Candidate>, last: Candidate, one: string, other: string)
    ensures SeenBefore(front, one, other) ==> SeenBefore(front + [last], one, other)
    ensures (exists p :: 0 <= p < |front| && front[p].chunkId == one) && NotYet(front, other, |front|)
        ==> SeenBefore(front + [last], one, other)
  {
    var all := front + [last];
    if SeenBefore(front, one, other) {
      var p :| 0 <= p < |front| && front[p].chunkId == one && NotYet(front, other, p);
      assert all[p] == front[p] && NotYet(all, other, p);
    }
    if p :| 0 <= p < |front| && front[p].chunkId == one && NotYet(front, other, |front|) {
      assert all[p] == front[p] && NotYet(all, other, p);
    }
  }

  lemma {:induction false} FirstSeenIsEveryChunkOnce(candidates: seq<Candidate>)
    ensures forall i, j | 0 <= i < j < |FirstSeen(candidates)| :: FirstSeen(candidates)[i] != FirstSeen(candidates)[j]
    ensures forall id ::
      id in FirstSeen(candidates) <==> exists i :: 0 <= i < |candidates| && candidates[i].chunkId == id
    ensures forall i, j | 0 <= i < j < |FirstSeen(candidates)| ::
      SeenBefore(candidates, FirstSeen(candidates)[i], FirstSeen(candidates)[j])
  {
    if candidates != [] {
      var front := candidates[..|candidates| - 1];
      FirstSeenIsEveryChunkOnce(front);
      forall i | 0 <= i < |candidates| ensures candidates[i].chunkId in FirstSeen(candidates) {
        if i < |front| { assert front[i].chunkId in FirstSeen(front); }
      }
      forall id | id in FirstSeen(candidates)
        ensures exists i :: 0 <= i < |candidates| && candidates[i].chunkId == id
      {
        if id in FirstSeen(front) {
          var i :| 0 <= i < |front| && front[i].chunkId == id;
          assert candidates[i].chunkId == id;
        } else {
          assert candidates[|front|].chunkId == id;
        }
      }
      var last := candidates[|front|];
      assert candidates == front + [last];
      var before, after := FirstSeen(front), FirstSeen(candidates);
      forall i, j | 0 <= i < j < |after| ensures SeenBefore(candidates, after[i], after[j]) {
        SeenBeforeStill(front, last, after[i], after[j]);
        if j == |before| {
          assert after[i] == before[i] && before[i] in before && last.chunkId !in before;
        }
      }
    }
  }

  /** Merging keeps every source's evidence: a chunk that any source ranked stays ranked by that
      source, and its scores are at least any source's. */
  lemma {:induction false} JoinedKeepsEvidence(candidates: seq<Candidate>, i: nat)
    requires i < |candidates|
    requires forall j | 0 <= j < |candidates| ::
      candidates[j].lexicalRank != Some(0) && candidates[j].headerRank != Some(0) && candidates[j].vectorRank != Some(0)
    ensures var c, j := candidates[i], Joined(candidates, candidates[i].chunkId);
      && j.Some? && j.value.chunkId == c.chunkId
      && (c.lexicalRank.Some? ==> j.value.lexicalRank.Some?)
      && (c.headerRank.Some? ==> j.value.headerRank.Some?)
      && (c.vectorRank.Some? ==> j.value.vectorRank.Some?)
      && (c.vectorDistance.Some? ==> j.value.vectorDistance.Some?)
      && c.fused <= j.value.fused && c.final <= j.value.final
  {
    var front := candidates[..|candidates| - 1];
    if i < |front| {
      JoinedKeepsEvidence(front, i);
      RanksStayNonzero(front, candidates[i].chunkId);
    } else {
      RanksStayNonzero(front, candidates[i].chunkId);
    }
  }

  lemma {:induction false} RanksStayNonzero(candidates: seq<Candidate>, id: string)
    requires forall j | 0 <= j < |candidates| ::
      candidates[j].lexicalRank != Some(0) && candidates[j].headerRank != Some(0) && candidates[j].vectorRank != Some(0)
    ensures var j := Joined(candidates, id);
      j.Some? ==> j.value.chunkId == id && j.value.lexicalRank != Some(0) && j.value.headerRank != Some(0)
                  && j.value.vectorRank != Some(0)
  {
    if candidates != [] { RanksStayNonzero(candidates[..|candidates| - 1], id); }
  }

  function LexicalRank(c: Candidate): Option<nat> { c.lexicalRank }
  function HeaderRank(c: Candidate): Option<nat> { c.headerRank }
  function VectorRank(c: Candidate): Option<nat> { c.vectorRank }
  function Fused(c: Candidate): real { c.fused }
  function Final(c: Candidate): real { c.final }

  /** Every candidate of the chunk before `n` leaves the rank that `rank` reads unset. */
  ghost predicate Unranked(candidates: seq<Candidate>, id: string, rank: Candidate -> Option<nat>, n: nat)
    requires n <= |candidates|
  {
    forall i | 0 <= i < n && candidates[i].chunkId == id :: rank(candidates[i]).None?
  }

  /** The rank that the first candidate of the chunk to have one has. */
  ghost predicate IsFirstRank(candidates: seq<Candidate>, id: string, rank: Candidate -> Option<nat>, r: Option<nat>) {
    if r.None? then Unranked(candidates, id, rank, |candidates|)
    else exists i :: && 0 <= i < |candidates| && candidates[i].chunkId == id && rank(candidates[i]) == r
                     && Unranked(candidates, id, rank, i)
  }

  /** The greatest of the chunk's scores. */
  ghost predicate IsBest(candidates: seq<Candidate>, id: string, score: Candidate -> real, best: real) {
    && (forall i | 0 <= i < |candidates| && candidates[i].chunkId == id :: score(candidates[i]) <= best)
    && exists i :: 0 <= i < |candidates| && candidates[i].chunkId == id && score(candidates[i]) == best
  }

  lemma FirstRankOn(candidates: seq<Candidate>, id: string, rank: Candidate -> Option<nat>, before: Option<nat>)
    requires candidates != []
    requires IsFirstRank(candidates[..|candidates| - 1], id, rank, before)
    ensures var last := candidates[|candidates| - 1];
            IsFirstRank(candidates, id, rank, if last.chunkId != id || before.Some? then before else rank(last))
  {
    var n := |candidates| - 1;
    var front, last := candidates[..n], candidates[n];
    if before.Some? {
      var i :| && 0 <= i < n && front[i].chunkId == id && rank(front[i]) == before && Unranked(front, id, rank, i);
      assert candidates[i] == front[i] && Unranked(candidates, id, rank, i);
    } else {
      assert Unranked(candidates, id, rank, n);
    }
  }

  lemma BestOn(candidates: seq<Candidate>, id: string, score: Candidate -> real, before: Option<real>)
    requires candidates != []
    requires before.Some? ==> IsBest(candidates[..|candidates| - 1], id, score, before.value)
    requires before.None? ==> forall i | 0 <= i < |candidates| - 1 :: candidates[i].chunkId != id
    requires before.Some? || candidates[|candidates| - 1].chunkId == id
    ensures var last := candidates[|candidates| - 1];
            IsBest(candidates, id, score, if before.None? then score(last) else if last.chunkId != id then before.value
                                          else if score(last) > before.value then score(last) else before.value)
  {
    var n := |candidates| - 1;
    var front, last := candidates[..n], candidates[n];
    assert forall i | 0 <= i < n :: candidates[i] == front[i];
    if before.Some? {
      var i :| 0 <= i < n && front[i].chunkId == id && score(front[i]) == before.value;
      assert candidates[i] == front[i];
    }
    assert candidates[n] == last;
  }

  /**
   * One chunk's candidates join to the first of them, with each rank the first that any of them has and the best of
   * their scores.
   */
  lemma {:induction false} JoinedIsFirstAndBest(candidates: seq<Candidate>, id: string)
    requires forall j | 0 <= j < |candidates| ::
      candidates[j].lexicalRank != Some(0) && candidates[j].headerRank != Some(0) && candidates[j].vectorRank != Some(0)
    ensures var j := Joined(candidates, id);
            if j.None? then forall i | 0 <= i < |candidates| :: candidates[i].chunkId != id
            else
              && (exists i :: && 0 <= i < |candidates| && candidates[i].chunkId == id
                              && SameChunk(candidates[i], j.value)
                              && forall l | 0 <= l < i :: candidates[l].chunkId != id)
              && IsFirstRank(candidates, id, LexicalRank, j.value.lexicalRank)
              && IsFirstRank(candidates, id, HeaderRank, j.value.headerRank)
              && IsFirstRank(candidates, id, VectorRank, j.value.vectorRank)
              && IsBest(candidates, id, Fused, j.value.fused)
              && IsBest(candidates, id, Final, j.value.final)
  {
    hide IsFirstRank, IsBest;
    if candidates != [] {
      var n := |candidates| - 1;
      var front, last := candidates[..n], candidates[n];
      JoinedIsFirstAndBest(front, id);
      RanksStayNonzero(front, id);
      var before := Joined(front, id);
      assert forall i | 0 <= i < n :: front[i] == candidates[i];
      if before.None? {
        NoRankYet(front, id);
      }
      FirstRankOn(candidates, id, LexicalRank, if before.Some? then before.value.lexicalRank else None);
      FirstRankOn(candidates, id, HeaderRank, if before.Some? then before.value.headerRank else None);
      FirstRankOn(candidates, id, VectorRank, if before.Some? then before.value.vectorRank else None);
      if before.Some? || last.chunkId == id {
        BestOn(candidates, id, Fused, if before.Some? then Some(before.value.fused) else None);
        BestOn(candidates, id, Final, if before.Some? then Some(before.value.final) else None);
      }
    }
  }

  lemma NoRankYet(candidates: seq<Candidate>, id: string)
    requires forall i | 0 <= i < |candidates| :: candidates[i].chunkId != id
    ensures IsFirstRank(candidates, id, LexicalRank, None)
    ensures IsFirstRank(candidates, id, HeaderRank, None)
    ensures IsFirstRank(candidates, id, VectorRank, None)
  {}

  /** The same chunk of the same memory. */
  predicate SameChunk(a: Candidate, b: Candidate) {
    && a.memoryId == b.memoryId && a.path == b.path && a.chunkId == b.chunkId && a.ordinal == b.ordinal
    && a.text == b.text && a.pinned == b.pinned
  }

  // --- headers give way to prose ---

  /** The memory has prose to offer. */
  ghost predicate HasProse(table: set<Row>, memory: string) {
    exists r :: r in table && r.memoryId == memory && r.ordinal > 0
  }

  /** A candidate read from the table that is a header only of a memory without prose. */
  ghost predicate NotAnIdleHeader(table: set<Row>, c: Candidate) {
    c.ordinal == 0 ==> !HasProse(table, c.memoryId)
  }

  /** `found` is keyed by chunk and holds no header whose memory has prose. */
  ghost predicate ProseFirst(table: set<Row>, found: map<string, Candidate>) {
    forall k | k in found :: found[k].chunkId == k && NotAnIdleHeader(table, found[k])
  }

  /** What the lead query answers: some prose row of the memory, whenever there is one. */
  ghost predicate Leads(table: set<Row>, lead: string -> Option<Row>) {
    forall m: string ::
      && (lead(m).Some? ==> lead(m).value in table && lead(m).value.memoryId == m && lead(m).value.ordinal > 0)
      && (lead(m).None? ==> !HasProse(table, m))
  }

  function Bodies(found: map<string, Candidate>, memory: string): set<string> {
    set k | k in found && found[k].memoryId == memory && found[k].ordinal > 0
  }

  // --- where the evidence comes from ---

  /** Chunk ids are the key of the table. */
  ghost predicate KeyedRows(table: set<Row>) {
    forall r, s | r in table && s in table && r.id == s.id :: r == s
  }

  predicate IsRowOf(c: Candidate, row: Row) {
    && c.chunkId == row.id && c.memoryId == row.memoryId && c.path == row.path && c.ordinal == row.ordinal
    && c.text == row.text && c.pinned == row.pinned
  }

  /** A row of the table, not scored yet, its ranks counting from one. */
  ghost predicate IsRead(table: set<Row>, c: Candidate) {
    && (exists r :: r in table && IsRowOf(c, r))
    && c.lexicalRank != Some(0) && c.headerRank != Some(0) && c.vectorRank != Some(0)
    && (c.vectorRank.Some? <==> c.vectorDistance.Some?) && c.fused == 0.0 == c.final
  }

  ghost predicate AllRead(table: set<Row>, found: map<string, Candidate>) {
    forall k | k in found :: found[k].chunkId == k && IsRead(table, found[k])
  }

  /** The place of a chunk among the hits. */
  ghost predicate RankIs(hits: seq<Row>, id: string, rank: Option<nat>) {
    if rank.None? then forall i | 0 <= i < |hits| :: hits[i].id != id
    else 1 <= rank.value <= |hits| && hits[rank.value - 1].id == id
  }

  /** A query answers no row twice. */
  ghost predicate HitsDiffer(hits: seq<Row>) {
    forall i, j | 0 <= i < j < |hits| :: hits[i].id != hits[j].id
  }

  /** The lexical ranks are the places among the prose hits. */
  ghost predicate LexicalEvidence(body: seq<Row>, found: map<string, Candidate>) {
    && (forall i | 0 <= i < |body| :: body[i].id in found)
    && (forall k | k in found :: RankIs(body, k, found[k].lexicalRank))
  }

  /** A rank is the place of a hit on the candidate's memory. */
  predicate RanksTruly(header: seq<Row>, c: Candidate) {
    c.headerRank.Some? ==>
      1 <= c.headerRank.value <= |header| && header[c.headerRank.value - 1].memoryId == c.memoryId
  }

  predicate HeaderRanks(c: Candidate, row: Row) {
    c.memoryId == row.memoryId && c.headerRank.Some?
  }

  ghost predicate SomeHeaderRanks(found: map<string, Candidate>, row: Row) {
    exists k :: k in found && HeaderRanks(found[k], row)
  }

  /** Every header rank is the place of a hit on the header of the candidate's memory, and every such hit ranks one. */
  ghost predicate HeaderEvidence(header: seq<Row>, found: map<string, Candidate>) {
    && (forall k | k in found :: RanksTruly(header, found[k]))
    && (forall i | 0 <= i < |header| :: SomeHeaderRanks(found, header[i]))
  }

  /** A vector rank is the place of a hit on the candidate's memory, and the distance is that hit's. */
  predicate NearTruly(vector: seq<(Row, real)>, c: Candidate) {
    c.vectorRank.Some? ==>
      && 1 <= c.vectorRank.value <= |vector| && vector[c.vectorRank.value - 1].0.memoryId == c.memoryId
      && c.vectorDistance == Some(vector[c.vectorRank.value - 1].1)
  }

  predicate VectorRanks(c: Candidate, row: Row, rank: nat) {
    c.memoryId == row.memoryId && c.vectorRank.Some? && c.vectorRank.value <= rank
  }

  ghost predicate SomeVectorRanks(found: map<string, Candidate>, row: Row, rank: nat) {
    exists k :: k in found && VectorRanks(found[k], row, rank)
  }

  /** The same of the vector hits, and the memory of each ranks at least as well as the hit. */
  ghost predicate VectorEvidence(vector: seq<(Row, real)>, found: map<string, Candidate>) {
    && (forall k | k in found :: NearTruly(vector, found[k]))
    && (forall i | 0 <= i < |vector| :: SomeVectorRanks(found, vector[i].0, i + 1))
  }

  /** What a header hit does to one candidate: nothing, its rank, or a new one that has only that rank. */
  predicate HeaderKey(found: map<string, Candidate>, row: Row, rank: nat, k: string, c: Candidate) {
    || (k in found && c == found[k])
    || (k in found && c == found[k].(headerRank := Some(rank)) && c.memoryId == row.memoryId)
    || ((k !in found || k == row.id) && c.memoryId == row.memoryId && c.headerRank == Some(rank)
        && c.lexicalRank.None? && c.vectorRank.None?)
  }

  ghost predicate HeaderStep(found: map<string, Candidate>, row: Row, rank: nat, after: map<string, Candidate>) {
    && found.Keys <= after.Keys
    && forall k | k in after :: HeaderKey(found, row, rank, k, after[k])
  }

  /** What a vector hit does to one candidate. */
  predicate VectorKey(found: map<string, Candidate>, hit: Row, rank: nat, distance: real, k: string, c: Candidate) {
    || (k in found && c == found[k])
    || (k in found && c == found[k].(vectorRank := Some(rank), vectorDistance := Some(distance))
        && c.memoryId == hit.memoryId && (found[k].vectorRank.None? || rank < found[k].vectorRank.value))
    || (k !in found && c.memoryId == hit.memoryId && c.headerRank.None? && c.lexicalRank.None?
        && c.vectorRank == Some(rank) && c.vectorDistance == Some(distance))
  }

  ghost predicate VectorStep(found: map<string, Candidate>, hit: Row, rank: nat, distance: real,
                             after: map<string, Candidate>) {
    && found.Keys <= after.Keys
    && forall k | k in after :: VectorKey(found, hit, rank, distance, k, after[k])
  }

  lemma RowOfKey(table: set<Row>, found: map<string, Candidate>, row: Row)
    requires KeyedRows(table) && AllRead(table, found) && row in table && row.id in found
    ensures IsRowOf(found[row.id], row)
  {
    var r :| r in table && IsRowOf(found[row.id], r);
  }

  lemma OfIsRead(table: set<Row>, row: Row, lexical: Option<nat>, header: Option<nat>, vector: Option<nat>,
                 distance: Option<real>)
    requires row in table && lexical != Some(0) && header != Some(0) && vector != Some(0)
    requires vector.Some? <==> distance.Some?
    ensures IsRead(table, Of(row, lexical, header, vector, distance))
  {
    assert IsRowOf(Of(row, lexical, header, vector, distance), row);
  }

  lemma RankedIsRead(table: set<Row>, c: Candidate, d: Candidate)
    requires IsRead(table, c) && SameChunk(c, d) && d.fused == c.fused && d.final == c.final
    requires d.lexicalRank != Some(0) && d.headerRank != Some(0) && d.vectorRank != Some(0)
    requires d.vectorRank.Some? <==> d.vectorDistance.Some?
    ensures IsRead(table, d)
  {
    var r :| r in table && IsRowOf(c, r);
    assert IsRowOf(d, r);
  }

  /** A title or tag hit: it lands on the memory's prose, and on the header only if there is none. */
  method CarryHeaderRank(found: map<string, Candidate>, row: Row, rank: nat, lead: string -> Option<Row>,
                         ghost table: set<Row>)
      returns (after: map<string, Candidate>)
    requires row in table && Leads(table, lead) && ProseFirst(table, found)
    ensures ProseFirst(table, after) && found.Keys <= after.Keys
    ensures forall k | k in after && after[k].memoryId == row.memoryId && after[k].ordinal > 0 ::
      after[k].headerRank == Some(rank)
    ensures forall k | k in found && after[k].memoryId != row.memoryId :: after[k] == found[k]
    ensures KeyedRows(table) && AllRead(table, found) && rank > 0 ==>
      AllRead(table, after) && HeaderStep(found, row, rank, after)
    ensures exists k :: k in after && after[k].memoryId == row.memoryId && after[k].headerRank == Some(rank)
  {
    hide IsRead, KeyedRows;
    var bodies := Bodies(found, row.memoryId);
    if bodies != {} {
      after := map k | k in found ::
        if k in bodies then found[k].(headerRank := Some(rank)) else found[k];
      var k :| k in bodies;
      assert after[k].headerRank == Some(rank);
      if AllRead(table, found) && rank > 0 {
        forall k | k in after ensures after[k].chunkId == k && IsRead(table, after[k]) {
          if k in bodies { HeaderIsRead(table, found[k], rank); }
        }
      }
      return;
    }
    var source := match lead(row.memoryId) case Some(r) => r case None => row;
    after := found[source.id := Of(source, None, Some(rank), None, None)];
    assert after[source.id].headerRank == Some(rank);
    if KeyedRows(table) && AllRead(table, found) && rank > 0 {
      OfIsRead(table, source, None, Some(rank), None, None);
      if source.id in found {
        RowOfKey(table, found, source);
        assert source.id !in bodies;
      }
    }
    forall k | k in after && after[k].memoryId == row.memoryId && after[k].ordinal > 0
      ensures after[k].headerRank == Some(rank)
    {
      assert k == source.id || k in bodies;
    }
  }

  lemma HeaderIsRead(table: set<Row>, c: Candidate, rank: nat)
    requires IsRead(table, c) && rank > 0
    ensures IsRead(table, c.(headerRank := Some(rank)))
  {
    RankedIsRead(table, c, c.(headerRank := Some(rank)));
  }

  lemma VectorIsRead(table: set<Row>, c: Candidate, rank: nat, distance: real)
    requires IsRead(table, c) && rank > 0
    ensures IsRead(table, c.(vectorRank := Some(rank), vectorDistance := Some(distance)))
  {
    RankedIsRead(table, c, c.(vectorRank := Some(rank), vectorDistance := Some(distance)));
  }

  lemma JoinedHasRank(found: map<string, Candidate>, c: Candidate)
    requires c.vectorRank.Some?
    ensures c.chunkId in found ==>
      var j := Join(found[c.chunkId], c);
      j.vectorRank.Some? && SameChunk(j, found[c.chunkId])
  {}

  /** Joining what one hit says to a candidate: its rank if it has none, and else nothing. */
  lemma JoinOne(table: set<Row>, c: Candidate, row: Row, rank: nat, distance: real)
    requires IsRead(table, c) && IsRowOf(c, row)
    ensures Join(c, Of(row, None, None, Some(rank), Some(distance)))
         == if c.vectorRank.None? then c.(vectorRank := Some(rank), vectorDistance := Some(distance)) else c
  {
  }

  /** A vector hit on a header goes to the memory's prose the same way. */
  method CarryVectorRank(found: map<string, Candidate>, hit: Row, rank: nat, distance: real,
                         lead: string -> Option<Row>, ghost table: set<Row>)
      returns (after: map<string, Candidate>)
    requires hit in table && Leads(table, lead) && ProseFirst(table, found)
    ensures ProseFirst(table, after) && found.Keys <= after.Keys
    ensures hit.ordinal > 0 ==> hit.id in after && after[hit.id].vectorRank.Some?
    ensures hit.ordinal == 0 ==> forall k | k in Bodies(found, hit.memoryId) ::
      after[k].vectorRank.Some? && after[k].vectorRank.value <= rank
    ensures KeyedRows(table) && AllRead(table, found) && rank > 0 ==>
      && AllRead(table, after) && VectorStep(found, hit, rank, distance, after)
      && exists k :: k in after && after[k].memoryId == hit.memoryId && after[k].vectorRank.Some?
  {
    hide IsRead, KeyedRows, Join;
    var row := hit;
    if hit.ordinal == 0 {
      var bodies := Bodies(found, hit.memoryId);
      if bodies != {} {
        after := map k | k in found ::
          if k in bodies && (found[k].vectorRank.None? || rank < found[k].vectorRank.value)
          then found[k].(vectorRank := Some(rank), vectorDistance := Some(distance)) else found[k];
        var k :| k in bodies;
        assert after[k].vectorRank.Some?;
        if AllRead(table, found) && rank > 0 {
          forall k | k in after ensures after[k].chunkId == k && IsRead(table, after[k]) {
            VectorIsRead(table, found[k], rank, distance);
          }
        }
        return;
      }
      match lead(hit.memoryId)
      case Some(body) => row := body;
      case None =>
    }
    var candidate := Of(row, None, None, Some(rank), Some(distance));
    after := found[row.id := if row.id in found then Join(found[row.id], candidate) else candidate];
    JoinedHasRank(found, candidate);
    if KeyedRows(table) && AllRead(table, found) && rank > 0 {
      OfIsRead(table, row, None, None, Some(rank), Some(distance));
      if row.id in found {
        RowOfKey(table, found, row);
        JoinOne(table, found[row.id], row, rank, distance);
        VectorIsRead(table, found[row.id], rank, distance);
      }
      assert after[row.id].memoryId == hit.memoryId && after[row.id].vectorRank.Some?;
    }
  }

  /** The three sources collected, body hits first. */
  method Collect(body: seq<Row>, header: seq<Row>, vector: seq<(Row, real)>, lead: string -> Option<Row>,
                 ghost table: set<Row>)
      returns (found: map<string, Candidate>)
    requires Leads(table, lead)
    requires forall i | 0 <= i < |body| :: body[i] in table && body[i].ordinal > 0
    requires forall i | 0 <= i < |header| :: header[i] in table && header[i].ordinal == 0
    requires forall i | 0 <= i < |vector| :: vector[i].0 in table
    ensures ProseFirst(table, found)
    ensures forall i | 0 <= i < |body| :: body[i].id in found
    ensures KeyedRows(table) && HitsDiffer(body) ==>
      && AllRead(table, found)
      && LexicalEvidence(body, found) && HeaderEvidence(header, found) && VectorEvidence(vector, found)
  {
    hide Leads, ProseFirst, AllRead, LexicalEvidence, HeaderEvidence, VectorEvidence, KeyedRows, HeaderStep, VectorStep;
    found := CollectBody(body, table);
    ghost var keyed := KeyedRows(table) && HitsDiffer(body);
    for i := 0 to |header|
      invariant ProseFirst(table, found) && forall j | 0 <= j < |body| :: body[j].id in found
      invariant keyed ==> AllRead(table, found) && LexicalEvidence(body, found)
      invariant keyed ==> HeaderEvidence(header[..i], found) && VectorEvidence([], found)
    {
      var after := CarryHeaderRank(found, header[i], i + 1, lead, table);
      if keyed {
        HeaderHit(body, header, i, found, after, table);
      }
      found := after;
    }
    assert header[..|header|] == header;
    for i := 0 to |vector|
      invariant ProseFirst(table, found) && forall j | 0 <= j < |body| :: body[j].id in found
      invariant keyed ==> AllRead(table, found) && LexicalEvidence(body, found)
      invariant keyed ==> HeaderEvidence(header, found) && VectorEvidence(vector[..i], found)
    {
      var after := CarryVectorRank(found, vector[i].0, i + 1, vector[i].1, lead, table);
      if keyed {
        VectorHit(body, header, vector, i, found, after);
      }
      found := after;
    }
    assert vector[..|vector|] == vector;
  }

  method CollectBody(body: seq<Row>, ghost table: set<Row>) returns (found: map<string, Candidate>)
    requires forall i | 0 <= i < |body| :: body[i] in table && body[i].ordinal > 0
    ensures ProseFirst(table, found) && AllRead(table, found)
    ensures forall i | 0 <= i < |body| :: body[i].id in found
    ensures HitsDiffer(body) ==> LexicalEvidence(body, found)
    ensures HeaderEvidence([], found) && VectorEvidence([], found)
  {
    hide IsRead;
    found := map[];
    for i := 0 to |body|
      invariant ProseFirst(table, found) && AllRead(table, found)
      invariant forall j | 0 <= j < i :: body[j].id in found
      invariant HitsDiffer(body) ==> LexicalEvidence(body[..i], found)
      invariant HeaderEvidence([], found) && VectorEvidence([], found)
    {
      OfIsRead(table, body[i], Some(i + 1), None, None, None);
      found := found[body[i].id := Of(body[i], Some(i + 1), None, None, None)];
      assert body[..i + 1] == body[..i] + [body[i]];
    }
    assert body[..|body|] == body;
  }

  lemma LexicalStays(body: seq<Row>, found: map<string, Candidate>, after: map<string, Candidate>)
    requires LexicalEvidence(body, found) && found.Keys <= after.Keys
    requires forall k | k in after ::
      if k in found then after[k].lexicalRank == found[k].lexicalRank else after[k].lexicalRank.None?
    ensures LexicalEvidence(body, after)
  {
    forall k | k in after ensures RankIs(body, k, after[k].lexicalRank) {
      if k in found {
        assert RankIs(body, k, found[k].lexicalRank);
      }
    }
  }

  lemma HeaderHit(body: seq<Row>, header: seq<Row>, i: nat, found: map<string, Candidate>,
                  after: map<string, Candidate>, table: set<Row>)
    requires i < |header| && header[i] in table && header[i].ordinal == 0
    requires KeyedRows(table) && AllRead(table, found)
    requires forall j | 0 <= j < |body| :: body[j] in table && body[j].ordinal > 0
    requires LexicalEvidence(body, found) && HeaderEvidence(header[..i], found) && VectorEvidence([], found)
    requires HeaderStep(found, header[i], i + 1, after)
    requires exists k :: k in after && after[k].memoryId == header[i].memoryId && after[k].headerRank == Some(i + 1)
    ensures LexicalEvidence(body, after) && HeaderEvidence(header[..i + 1], after) && VectorEvidence([], after)
  {
    hide IsRead, HeaderRanks;
    assert header[..i + 1] == header[..i] + [header[i]];
    forall k | k in after
      ensures if k in found then after[k].lexicalRank == found[k].lexicalRank else after[k].lexicalRank.None?
      ensures RanksTruly(header[..i + 1], after[k]) && NearTruly([], after[k])
      ensures k in found ==> after[k].memoryId == found[k].memoryId
      ensures k in found && found[k].headerRank.Some? ==> after[k].headerRank.Some?
    {
      HeaderOne(body, header, i, found, after, table, k);
    }
    LexicalStays(body, found, after);
    forall j | 0 <= j < i ensures SomeHeaderRanks(after, header[j]) {
      assert header[..i][j] == header[j];
      var k :| k in found && HeaderRanks(found[k], header[j]);
      StillRanks(found[k], after[k], header[j]);
    }
    var k :| k in after && after[k].memoryId == header[i].memoryId && after[k].headerRank == Some(i + 1);
    StillRanks(after[k], after[k], header[i]);
    assert HeaderRanks(after[k], header[i]);
  }

  lemma StillRanks(c: Candidate, d: Candidate, row: Row)
    requires d.memoryId == c.memoryId && (c.headerRank.Some? ==> d.headerRank.Some?)
    ensures HeaderRanks(c, row) ==> HeaderRanks(d, row)
    ensures c.memoryId == row.memoryId && c.headerRank.Some? ==> HeaderRanks(c, row)
  {}

  lemma HeaderOne(body: seq<Row>, header: seq<Row>, i: nat, found: map<string, Candidate>,
                  after: map<string, Candidate>, table: set<Row>, k: string)
    requires i < |header| && header[i] in table && header[i].ordinal == 0 && k in after
    requires KeyedRows(table) && AllRead(table, found)
    requires forall j | 0 <= j < |body| :: body[j] in table && body[j].ordinal > 0
    requires LexicalEvidence(body, found) && HeaderEvidence(header[..i], found) && VectorEvidence([], found)
    requires HeaderStep(found, header[i], i + 1, after)
    ensures if k in found then after[k].lexicalRank == found[k].lexicalRank else after[k].lexicalRank.None?
    ensures RanksTruly(header[..i + 1], after[k]) && NearTruly([], after[k])
    ensures k in found ==> after[k].memoryId == found[k].memoryId
    ensures k in found && found[k].headerRank.Some? ==> after[k].headerRank.Some?
  {
    hide IsRead, RankIs, RanksTruly, NearTruly, KeyedRows;
    assert HeaderKey(found, header[i], i + 1, k, after[k]);
    HeaderRankTrue(header, i, after[k]);
    NoVector(after[k]);
    if k in found {
      assert RanksTruly(header[..i], found[k]) && NearTruly([], found[k]) && RankIs(body, k, found[k].lexicalRank);
      StaysTrue(header, i, found[k]);
      NoVector(found[k]);
      if k == header[i].id {
        RowOfKey(table, found, header[i]);
        HeaderIsNoBody(body, header[i], table, found[k].lexicalRank);
      }
    }
  }

  lemma NoVector(c: Candidate)
    ensures NearTruly([], c) <==> c.vectorRank.None?
  {}

  /** A rank just given is the place of the hit it comes from. */
  lemma HeaderRankTrue(header: seq<Row>, i: nat, c: Candidate)
    requires i < |header|
    ensures c.headerRank == Some(i + 1) && c.memoryId == header[i].memoryId ==> RanksTruly(header[..i + 1], c)
  {}

  lemma StaysTrue(header: seq<Row>, i: nat, c: Candidate)
    requires i < |header| && RanksTruly(header[..i], c)
    ensures RanksTruly(header[..i + 1], c)
  {}

  lemma HeaderIsNoBody(body: seq<Row>, row: Row, table: set<Row>, rank: Option<nat>)
    requires KeyedRows(table) && row in table && row.ordinal == 0
    requires forall j | 0 <= j < |body| :: body[j] in table && body[j].ordinal > 0
    requires RankIs(body, row.id, rank)
    ensures rank.None?
  {}

  lemma VectorHit(body: seq<Row>, header: seq<Row>, vector: seq<(Row, real)>, i: nat, found: map<string, Candidate>,
                  after: map<string, Candidate>)
    requires i < |vector| && VectorStep(found, vector[i].0, i + 1, vector[i].1, after)
    requires LexicalEvidence(body, found) && HeaderEvidence(header, found) && VectorEvidence(vector[..i], found)
    requires exists k :: k in after && after[k].memoryId == vector[i].0.memoryId && after[k].vectorRank.Some?
    ensures LexicalEvidence(body, after) && HeaderEvidence(header, after) && VectorEvidence(vector[..i + 1], after)
  {
    hide HeaderRanks, VectorRanks, RanksTruly, NearTruly, VectorStep, RankIs;
    assert vector[..i + 1] == vector[..i] + [vector[i]];
    VectorStepKeys(found, vector[i].0, i + 1, vector[i].1, after);
    forall k | k in after
      ensures if k in found then after[k].lexicalRank == found[k].lexicalRank else after[k].lexicalRank.None?
      ensures RanksTruly(header, after[k]) && NearTruly(vector[..i + 1], after[k])
      ensures k in found ==> after[k].memoryId == found[k].memoryId && after[k].headerRank == found[k].headerRank
      ensures k in found && found[k].vectorRank.Some? ==> after[k].vectorRank == found[k].vectorRank
    {
      VectorOne(header, vector, i, found, k, after[k]);
    }
    LexicalStays(body, found, after);
    forall j | 0 <= j < |header| ensures SomeHeaderRanks(after, header[j]) {
      assert SomeHeaderRanks(found, header[j]);
      var k :| k in found && HeaderRanks(found[k], header[j]);
      StillRanks(found[k], after[k], header[j]);
    }
    VectorRanksOn(vector, i, found, after);
  }

  lemma VectorStepKeys(found: map<string, Candidate>, hit: Row, rank: nat, distance: real,
                       after: map<string, Candidate>)
    requires VectorStep(found, hit, rank, distance, after)
    ensures found.Keys <= after.Keys
    ensures forall k | k in after :: VectorKey(found, hit, rank, distance, k, after[k])
  {}

  lemma VectorOne(header: seq<Row>, vector: seq<(Row, real)>, i: nat, found: map<string, Candidate>, k: string,
                  c: Candidate)
    requires i < |vector| && VectorKey(found, vector[i].0, i + 1, vector[i].1, k, c)
    requires k in found ==> RanksTruly(header, found[k]) && NearTruly(vector[..i], found[k])
    ensures if k in found then c.lexicalRank == found[k].lexicalRank else c.lexicalRank.None?
    ensures RanksTruly(header, c) && NearTruly(vector[..i + 1], c)
    ensures k in found ==> c.memoryId == found[k].memoryId && c.headerRank == found[k].headerRank
    ensures k in found && found[k].vectorRank.Some? ==> c.vectorRank == found[k].vectorRank
  {}

  lemma VectorRanksOn(vector: seq<(Row, real)>, i: nat, found: map<string, Candidate>, after: map<string, Candidate>)
    requires i < |vector| && found.Keys <= after.Keys
    requires forall j | 0 <= j < i :: SomeVectorRanks(found, vector[..i][j].0, j + 1)
    requires forall k | k in found :: after[k].memoryId == found[k].memoryId
    requires forall k | k in found && found[k].vectorRank.Some? :: after[k].vectorRank == found[k].vectorRank
    requires forall k | k in after :: NearTruly(vector[..i + 1], after[k])
    requires exists k :: k in after && after[k].memoryId == vector[i].0.memoryId && after[k].vectorRank.Some?
    ensures forall j | 0 <= j <= i :: SomeVectorRanks(after, vector[j].0, j + 1)
  {
    hide VectorRanks;
    forall j | 0 <= j < i ensures SomeVectorRanks(after, vector[j].0, j + 1) {
      assert SomeVectorRanks(found, vector[..i][j].0, j + 1);
      var k :| k in found && VectorRanks(found[k], vector[j].0, j + 1);
      StillNear(found[k], after[k], vector[j].0, j + 1);
    }
    var k :| k in after && after[k].memoryId == vector[i].0.memoryId && after[k].vectorRank.Some?;
    assert NearTruly(vector[..i + 1], after[k]);
    StillNear(after[k], after[k], vector[i].0, i + 1);
  }

  lemma StillNear(c: Candidate, d: Candidate, row: Row, rank: nat)
    requires d.memoryId == c.memoryId && (c.vectorRank.Some? ==> d.vectorRank == c.vectorRank)
    ensures VectorRanks(c, row, rank) ==> VectorRanks(d, row, rank)
    ensures c.memoryId == row.memoryId && c.vectorRank.Some? && c.vectorRank.value <= rank ==> VectorRanks(c, row, rank)
  {}

  /** `_prefer_body`: a memory's header goes only if it is all the memory has. */
  function PreferBody(rows: seq<Row>, all: seq<Row>): seq<Row> {
    if rows == [] then []
    else
      var row, rest := rows[0], PreferBody(rows[1..], all);
      if row.ordinal > 0 || forall r | r in all :: r.memoryId == row.memoryId ==> r.ordinal == 0
      then [row] + rest else rest
  }

  lemma {:induction false} PinnedProseFirst(rows: seq<Row>, all: seq<Row>, table: set<Row>)
    requires forall r | r in rows :: r in all
    requires forall r :: r in all <==> r in table && r.pinned
    requires forall r, s | r in table && s in table && r.memoryId == s.memoryId :: r.pinned == s.pinned
    ensures forall r :: r in PreferBody(rows, all) <==> r in rows && (r.ordinal == 0 ==> !HasProse(table, r.memoryId))
  {
    if rows != [] {
      PinnedProseFirst(rows[1..], all, table);
      var row := rows[0];
      if row.ordinal == 0 && HasProse(table, row.memoryId) {
        var prose :| prose in table && prose.memoryId == row.memoryId && prose.ordinal > 0;
        assert row in all && prose in all;
      }
    }
  }

  /** A header never stands in for prose: merged from sources that respect that, neither does the
      ranking that is packed. */
  lemma {:induction false} MergedProseFirst(candidates: seq<Candidate>, table: set<Row>, id: string)
    requires forall i | 0 <= i < |candidates| :: NotAnIdleHeader(table, candidates[i])
    ensures var j := Joined(candidates, id); j.Some? ==> j.value.chunkId == id && NotAnIdleHeader(table, j.value)
  {
    if candidates != [] { MergedProseFirst(candidates[..|candidates| - 1], table, id); }
  }
}
