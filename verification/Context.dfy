/** Packing a conversation into a token budget (siatt/core/context.py). */
module Context {
  import opened Wrappers
  import opened Transcript
  import opened Turns
  import E = Elision

  /** What things cost: the tokenizer, and the dearest endpoint's estimate for an image. */
  datatype Meter = Meter(count: string -> nat, image: (Option<nat>, Option<nat>) -> nat)

  const MESSAGE_OVERHEAD := 4

  function BlockCost(b: Block, meter: Meter): nat {
    match b
    case Text(text) => meter.count(text)
    case Thinking(thinking) => meter.count(thinking)
    case Image(_, width, height) => meter.image(width, height)
    case ToolUse(_, name, input) => meter.count(name) + meter.count(input)
    case ToolResult(_, content, _) => meter.count(content)
  }

  function BlocksCost(blocks: seq<Block>, meter: Meter): nat {
    if blocks == [] then 0
    else BlocksCost(blocks[..|blocks| - 1], meter) + BlockCost(blocks[|blocks| - 1], meter)
  }

  function MessageCost(m: Message, meter: Meter): nat {
    MESSAGE_OVERHEAD + BlocksCost(m.content, meter)
  }

  function GroupCost(group: seq<Message>, meter: Meter): nat {
    if group == [] then 0
    else GroupCost(group[..|group| - 1], meter) + MessageCost(group[|group| - 1], meter)
  }

  /** Every text of a block that is sent, the name of a tool and what it is given included. */
  function Texts(b: Block): seq<string> {
    match b
    case Text(text) => [text]
    case Thinking(thinking) => [thinking]
    case Image(_, _, _) => []
    case ToolUse(_, name, input) => [name, input]
    case ToolResult(_, content, _) => [content]
  }

  function TextsOf(blocks: seq<Block>): seq<string> {
    if blocks == [] then [] else TextsOf(blocks[..|blocks| - 1]) + Texts(blocks[|blocks| - 1])
  }

  function TextsIn(group: seq<Message>): seq<string> {
    if group == [] then [] else TextsIn(group[..|group| - 1]) + TextsOf(group[|group| - 1].content)
  }

  /** What the pictures are estimated at. */
  function Pictures(blocks: seq<Block>, meter: Meter): nat {
    if blocks == [] then 0
    else
      var last := blocks[|blocks| - 1];
      Pictures(blocks[..|blocks| - 1], meter) + if last.Image? then meter.image(last.width, last.height) else 0
  }

  function PicturesIn(group: seq<Message>, meter: Meter): nat {
    if group == [] then 0
    else PicturesIn(group[..|group| - 1], meter) + Pictures(group[|group| - 1].content, meter)
  }

  lemma {:induction false} TotalConcat(a: seq<string>, b: seq<string>, count: string -> nat)
    ensures Total(a + b, count) == Total(a, count) + Total(b, count)
  {
    if b == [] {
      assert a + b == a;
    } else {
      assert (a + b)[..|a + b| - 1] == a + b[..|b| - 1];
      TotalConcat(a, b[..|b| - 1], count);
    }
  }

  lemma BlockCosts(b: Block, meter: Meter)
    ensures BlockCost(b, meter) == Total(Texts(b), meter.count) + if b.Image? then meter.image(b.width, b.height) else 0
  {
    if b.ToolUse? {
      TotalOne(b.name, meter.count);
      TotalOne(b.input, meter.count);
      assert Texts(b) == [b.name] + [b.input];
      TotalConcat([b.name], [b.input], meter.count);
    } else if !b.Image? {
      TotalOne(Texts(b)[0], meter.count);
      assert Texts(b) == [Texts(b)[0]];
    }
  }

  lemma TotalOne(text: string, count: string -> nat)
    ensures Total([text], count) == count(text)
  {
    assert [text][..0] == [];
  }

  lemma {:induction false} BlocksCosts(blocks: seq<Block>, meter: Meter)
    ensures BlocksCost(blocks, meter) == Total(TextsOf(blocks), meter.count) + Pictures(blocks, meter)
  {
    if blocks != [] {
      var init, last := blocks[..|blocks| - 1], blocks[|blocks| - 1];
      BlocksCosts(init, meter);
      BlockCosts(last, meter);
      TotalConcat(TextsOf(init), Texts(last), meter.count);
    }
  }

  /** A turn costs the tokens of all its texts, the estimates for its pictures, and four for each message. */
  lemma {:induction false} TurnCosts(group: seq<Message>, meter: Meter)
    ensures GroupCost(group, meter) == Total(TextsIn(group), meter.count) + PicturesIn(group, meter) + 4 * |group|
  {
    if group != [] {
      var init, last := group[..|group| - 1], group[|group| - 1];
      TurnCosts(init, meter);
      BlocksCosts(last.content, meter);
      TotalConcat(TextsIn(init), TextsOf(last.content), meter.count);
    }
  }

  // --- compaction of one turn ---

  predicate Elidable(b: Block) {
    b.ToolResult? && |E.Elide(b.content)| < |b.content|
  }

  function ElideBlock(b: Block): Block {
    if Elidable(b) then b.(content := E.Elide(b.content)) else b
  }

  function ElideBlocks(blocks: seq<Block>): (shorter: seq<Block>)
    ensures |shorter| == |blocks|
  {
    seq(|blocks|, i requires 0 <= i < |blocks| => ElideBlock(blocks[i]))
  }

  function ElidableIn(blocks: seq<Block>): nat {
    if blocks == [] then 0
    else ElidableIn(blocks[..|blocks| - 1]) + (if Elidable(blocks[|blocks| - 1]) then 1 else 0)
  }

  /** A message with its results elided, unless that leaves its cost where it was. */
  function CompactMessage(m: Message, meter: Meter): Message {
    var shorter := ElideBlocks(m.content);
    if BlocksCost(shorter, meter) == BlocksCost(m.content, meter) then m else m.(content := shorter)
  }

  /** The turn with its first `k` messages compacted. */
  function CompactFirst(group: seq<Message>, k: nat, meter: Meter): (out: seq<Message>)
    ensures |out| == |group|
  {
    seq(|group|, i requires 0 <= i < |group| => if i < k then CompactMessage(group[i], meter) else group[i])
  }

  /** How many messages, oldest first, have to be compacted before the turn fits. */
  function FirstFit(group: seq<Message>, budget: int, meter: Meter, from: nat): (k: nat)
    requires from <= |group|
    ensures from <= k <= |group|
    ensures k == |group| || GroupCost(CompactFirst(group, k, meter), meter) <= budget
    ensures forall j | from <= j < k :: GroupCost(CompactFirst(group, j, meter), meter) > budget
    decreases |group| - from
  {
    if from == |group| || GroupCost(CompactFirst(group, from, meter), meter) <= budget then from
    else FirstFit(group, budget, meter, from + 1)
  }

  function Compacted(group: seq<Message>, budget: int, meter: Meter): (out: seq<Message>)
    ensures |out| == |group|
  {
    CompactFirst(group, FirstFit(group, budget, meter, 0), meter)
  }

  function ElidableBefore(group: seq<Message>, k: nat): nat
    requires k <= |group|
  {
    if k == 0 then 0 else ElidableBefore(group, k - 1) + ElidableIn(group[k - 1].content)
  }

  /** Replacing one message moves the total by the difference of the two. */
  lemma {:induction false} ReplaceCost(group: seq<Message>, i: nat, m: Message, meter: Meter)
    requires i < |group|
    ensures GroupCost(group[i := m], meter)
         == GroupCost(group, meter) - MessageCost(group[i], meter) + MessageCost(m, meter)
  {
    var front := group[..|group| - 1];
    if i == |front| {
      assert group[i := m][..|front|] == front;
    } else {
      ReplaceCost(front, i, m, meter);
      assert group[i := m][..|front|] == front[i := m];
    }
  }

  lemma NothingElided(meter: Meter)
    ensures ElideBlocks([]) == [] && BlocksCost([], meter) == 0 && ElidableIn([]) == 0
  {}

  lemma ElideStep(content: seq<Block>, i: nat, meter: Meter)
    requires i < |content|
    ensures var shorter := ElideBlock(content[i]);
      && ElideBlocks(content[..i + 1]) == ElideBlocks(content[..i]) + [shorter]
      && BlocksCost(content[..i + 1], meter) == BlocksCost(content[..i], meter) + BlockCost(content[i], meter)
      && BlocksCost(ElideBlocks(content[..i + 1]), meter)
         == BlocksCost(ElideBlocks(content[..i]), meter) + BlockCost(shorter, meter)
      && ElidableIn(content[..i + 1]) == ElidableIn(content[..i]) + (if Elidable(content[i]) then 1 else 0)
  {
    hide ElideBlock;
    hide BlockCost;
    hide Elidable;
    var before, after := ElideBlocks(content[..i]), ElideBlocks(content[..i + 1]);
    assert content[..i + 1][..i] == content[..i];
    assert after == before + [ElideBlock(content[i])];
    assert after[..i] == before;
  }

  /** One message's blocks, elided as they are copied. */
  method ElideMessage(content: seq<Block>, meter: Meter) returns (blocks: seq<Block>, saved: int, elided: nat)
    ensures blocks == ElideBlocks(content)
    ensures saved == BlocksCost(content, meter) - BlocksCost(blocks, meter)
    ensures elided == ElidableIn(content)
  {
    hide E.Elide;
    hide ElideBlocks;
    hide BlocksCost;
    hide ElidableIn;
    blocks, saved, elided := [], 0, 0;
    NothingElided(meter);
    for i := 0 to |content|
      invariant blocks == ElideBlocks(content[..i])
      invariant saved == BlocksCost(content[..i], meter) - BlocksCost(blocks, meter)
      invariant elided == ElidableIn(content[..i])
    {
      ElideStep(content, i, meter);
      var block := content[i];
      if block.ToolResult? {
        var short := E.Elide(block.content);
        if |short| < |block.content| {
          saved := saved + meter.count(block.content) - meter.count(short);
          elided := elided + 1;
          block := block.(content := short);
        }
      }
      blocks := blocks + [block];
    }
    assert content[..|content|] == content;
  }

  lemma NothingToElide(m: Message, meter: Meter)
    requires Results(m) == []
    ensures CompactMessage(m, meter) == m
    ensures ElidableIn(m.content) == 0
  {
    NoResults(m.content);
    NoElidable(m.content);
    assert ElideBlocks(m.content) == m.content;
  }

  lemma {:induction false} NoResults(blocks: seq<Block>)
    requires ResultIds(blocks) == []
    ensures forall i | 0 <= i < |blocks| :: !blocks[i].ToolResult?
  {
    if blocks != [] {
      NoResults(blocks[1..]);
      forall i | 0 <= i < |blocks| ensures !blocks[i].ToolResult? {
        if i > 0 { assert blocks[i] == blocks[1..][i - 1]; }
      }
    }
  }

  lemma {:induction false} NoElidable(blocks: seq<Block>)
    requires forall i | 0 <= i < |blocks| :: !blocks[i].ToolResult?
    ensures ElidableIn(blocks) == 0
  {
    if blocks != [] { NoElidable(blocks[..|blocks| - 1]); }
  }

  lemma CompactStep(group: seq<Message>, k: nat, meter: Meter)
    requires k < |group|
    ensures var next := CompactMessage(group[k], meter);
      && CompactFirst(group, k, meter)[k] == group[k]
      && CompactFirst(group, k + 1, meter) == CompactFirst(group, k, meter)[k := next]
      && GroupCost(CompactFirst(group, k + 1, meter), meter)
         == GroupCost(CompactFirst(group, k, meter), meter) - MessageCost(group[k], meter) + MessageCost(next, meter)
  {
    hide CompactMessage;
    hide GroupCost;
    ReplaceCost(CompactFirst(group, k, meter), k, CompactMessage(group[k], meter), meter);
  }

  lemma NoneCompacted(group: seq<Message>, meter: Meter)
    ensures CompactFirst(group, 0, meter) == group
  {}

  // --- what compaction does, block by block ---

  /** Every result that elision shortens is elided, and every other block is as it was. */
  ghost predicate IsElided(content: seq<Block>, all: seq<Block>) {
    && |all| == |content|
    && forall j | 0 <= j < |content| ::
         if content[j].ToolResult? && |E.Elide(content[j].content)| < |content[j].content|
         then all[j] == ToolResult(content[j].useId, E.Elide(content[j].content), content[j].isError)
         else all[j] == content[j]
  }

  /** A message with its results elided, if that changes what it costs. */
  ghost predicate IsShrunk(m: Message, out: Message, meter: Meter) {
    exists all :: && IsElided(m.content, all)
                  && out == if BlocksCost(all, meter) != BlocksCost(m.content, meter) then Message(m.role, all) else m
  }

  /**
   * `k` messages, oldest first, are shrunk and the rest are as they were; no fewer would do, and they do unless they
   * are all there are.
   */
  ghost predicate IsCompaction(group: seq<Message>, out: seq<Message>, k: nat, budget: int, meter: Meter) {
    && |out| == |group| && k <= |group|
    && (forall i | 0 <= i < k :: IsShrunk(group[i], out[i], meter))
    && out[k..] == group[k..]
    && (forall j | 0 <= j < k :: GroupCost(out[..j] + group[j..], meter) > budget)
    && (k < |group| ==> GroupCost(out, meter) <= budget)
  }

  lemma CompactMessageShrinks(m: Message, meter: Meter)
    ensures IsShrunk(m, CompactMessage(m, meter), meter)
  {
    hide E.Elide, BlocksCost;
    var all := ElideBlocks(m.content);
    assert IsElided(m.content, all);
  }

  lemma CompactedIsCompaction(group: seq<Message>, budget: int, meter: Meter)
    ensures IsCompaction(group, Compacted(group, budget, meter), FirstFit(group, budget, meter, 0), budget, meter)
  {
    hide CompactMessage, IsShrunk, GroupCost;
    var k := FirstFit(group, budget, meter, 0);
    var out := CompactFirst(group, k, meter);
    forall i | 0 <= i < k ensures IsShrunk(group[i], out[i], meter) {
      CompactMessageShrinks(group[i], meter);
    }
    forall j | 0 <= j < k ensures GroupCost(out[..j] + group[j..], meter) > budget {
      assert out[..j] + group[j..] == CompactFirst(group, j, meter);
    }
  }

  /** Still over the budget, it is over it with every message shrunk that can be. */
  lemma OverBudgetMeansAllShrunk(group: seq<Message>, out: seq<Message>, k: nat, budget: int, meter: Meter)
    requires IsCompaction(group, out, k, budget, meter) && GroupCost(out, meter) > budget
    ensures forall i | 0 <= i < |group| :: IsShrunk(group[i], out[i], meter)
  {
    assert k == |group|;
  }

  method CompactToolResults(group: seq<Message>, budget: int, meter: Meter)
      returns (messages: seq<Message>, elided: nat)
    ensures messages == Compacted(group, budget, meter)
    ensures elided == Shortened(group, budget, meter)
    ensures IsCompaction(group, messages, FirstFit(group, budget, meter, 0), budget, meter)
    ensures GroupCost(messages, meter) > budget ==>
      forall i | 0 <= i < |group| :: IsShrunk(group[i], messages[i], meter)
  {
    hide E.Elide;
    hide ElideBlocks;
    hide CompactFirst;
    hide GroupCost;
    hide BlocksCost;
    CompactedIsCompaction(group, budget, meter);
    ghost var out := Compacted(group, budget, meter);
    if GroupCost(out, meter) > budget {
      OverBudgetMeansAllShrunk(group, out, FirstFit(group, budget, meter, 0), budget, meter);
    }
    hide IsCompaction, IsShrunk;
    var cost: int := GroupCost(group, meter);
    NoneCompacted(group, meter);
    if cost <= budget {
      return group, 0;
    }
    messages, elided := group, 0;
    var index := 0;
    while index < |group|
      invariant 0 <= index <= |group|
      invariant messages == CompactFirst(group, index, meter)
      invariant cost == GroupCost(messages, meter)
      invariant elided == ElidableBefore(group, index)
      invariant FirstFit(group, budget, meter, 0) == FirstFit(group, budget, meter, index)
    {
      if cost <= budget {
        break;
      }
      var message := messages[index];
      CompactStep(group, index, meter);
      if Results(message) == [] {
        NothingToElide(message, meter);
      } else {
        var blocks, saved, n := ElideMessage(message.content, meter);
        elided := elided + n;
        if saved != 0 {
          messages := messages[index := message.(content := blocks)];
          cost := cost - saved;
        }
      }
      index := index + 1;
    }
  }

  // --- what compaction leaves alone ---

  /** Same role, same blocks in the same order, and only the text of tool results may differ. */
  ghost predicate OnlyResultTextDiffers(m: Message, out: Message) {
    && out.role == m.role
    && |out.content| == |m.content|
    && forall i | 0 <= i < |m.content| :: out.content[i] in {m.content[i], WithElidedText(m.content[i])}
  }

  function WithElidedText(b: Block): Block {
    if b.ToolResult? then b.(content := E.Elide(b.content)) else b
  }

  predicate SameResult(a: Block, b: Block) {
    a.ToolResult? && b.ToolResult? && a.useId == b.useId
  }

  lemma {:induction false} SameIds(a: seq<Block>, b: seq<Block>)
    requires |a| == |b|
    requires forall i | 0 <= i < |a| :: a[i] == b[i] || SameResult(a[i], b[i])
    ensures UseIds(a) == UseIds(b) && ResultIds(a) == ResultIds(b)
  {
    if a != [] {
      forall i | 0 <= i < |a| - 1 ensures a[1..][i] == a[i + 1] && b[1..][i] == b[i + 1] {}
      SameIds(a[1..], b[1..]);
    }
  }

  /** Compacting a turn keeps every block, its id and its place. */
  lemma CompactionKeepsShape(group: seq<Message>, k: nat, i: nat, meter: Meter)
    requires i < |group|
    ensures OnlyResultTextDiffers(group[i], CompactFirst(group, k, meter)[i])
    ensures i >= k ==> CompactFirst(group, k, meter)[i] == group[i]
    ensures Uses(CompactFirst(group, k, meter)[i]) == Uses(group[i])
    ensures Results(CompactFirst(group, k, meter)[i]) == Results(group[i])
  {
    SameIds(group[i].content, ElideBlocks(group[i].content));
  }

  // --- the recent segment ---

  /** The newest `kept` turns, the last of them compacted as far as the budget asks. */
  function Packed(groups: seq<seq<Message>>, kept: nat, budget: int, meter: Meter): seq<seq<Message>>
    requires 1 <= kept <= |groups|
  {
    groups[|groups| - kept..|groups| - 1] + [Compacted(groups[|groups| - 1], budget, meter)]
  }

  lemma PackStep(groups: seq<seq<Message>>, kept: nat, budget: int, meter: Meter)
    requires kept < |groups|
    ensures Packed(groups, kept + 1, budget, meter) ==
      if kept == 0 then [Compacted(groups[|groups| - 1], budget, meter)]
      else [groups[|groups| - kept - 1]] + Packed(groups, kept, budget, meter)
  {
    hide Compacted;
  }

  /** How many results compacting a turn shortens. */
  function Shortened(group: seq<Message>, budget: int, meter: Meter): nat {
    ElidableBefore(group, FirstFit(group, budget, meter, 0))
  }

  lemma FitsAsItIs(group: seq<Message>, budget: int, meter: Meter)
    requires GroupCost(group, meter) <= budget
    ensures Compacted(group, budget, meter) == group && Shortened(group, budget, meter) == 0
  {
    assert CompactFirst(group, 0, meter) == group;
  }

  /** The results of the first `k` messages that elision shortens, by message and block. */
  function ShortenedBefore(group: seq<Message>, k: nat): set<(nat, nat)>
    requires k <= |group|
  {
    set i: nat, j: nat | i < k && j < |group[i].content| && Shortens(group[i].content[j]) :: (i, j)
  }

  predicate Shortens(b: Block) {
    b.ToolResult? && |E.Elide(b.content)| < |b.content|
  }

  function ShortenedAt(blocks: seq<Block>, i: nat): set<(nat, nat)> {
    set j: nat | j < |blocks| && Shortens(blocks[j]) :: (i, j)
  }

  lemma ShortenedOneMore(blocks: seq<Block>, i: nat, n: nat)
    requires n < |blocks|
    ensures ShortenedAt(blocks[..n + 1], i)
         == ShortenedAt(blocks[..n], i) + if Shortens(blocks[n]) then {(i, n)} else {}
    ensures (i, n) !in ShortenedAt(blocks[..n], i)
  {
    hide Shortens;
    var shorter, longer := blocks[..n], blocks[..n + 1];
    assert forall j | 0 <= j < n :: longer[j] == shorter[j];
    assert longer[n] == blocks[n];
  }

  lemma {:induction false} CountsBlocks(blocks: seq<Block>, i: nat)
    ensures |ShortenedAt(blocks, i)| == ElidableIn(blocks)
  {
    hide ShortenedAt, E.Elide;
    if blocks == [] {
      NoneShortened(i);
    } else {
      var n := |blocks| - 1;
      CountsBlocks(blocks[..n], i);
      ShortenedOneMore(blocks, i, n);
      assert blocks[..n + 1] == blocks;
    }
  }

  lemma NoneShortened(i: nat)
    ensures ShortenedAt([], i) == {}
  {}

  lemma NoneBefore(group: seq<Message>)
    ensures ShortenedBefore(group, 0) == {}
  {}

  lemma ShortenedNext(group: seq<Message>, k: nat)
    requires 0 < k <= |group|
    ensures ShortenedBefore(group, k) == ShortenedBefore(group, k - 1) + ShortenedAt(group[k - 1].content, k - 1)
    ensures ShortenedBefore(group, k - 1) !! ShortenedAt(group[k - 1].content, k - 1)
  {
    hide Shortens;
  }

  /** The count is of the results, in the messages up to the first fit, that elision shortens. */
  lemma {:induction false} CountsShortened(group: seq<Message>, k: nat)
    requires k <= |group|
    ensures ElidableBefore(group, k) == |ShortenedBefore(group, k)|
  {
    hide ElidableIn, ShortenedBefore, ShortenedAt;
    if k == 0 {
      NoneBefore(group);
    } else {
      CountsShortened(group, k - 1);
      CountsBlocks(group[k - 1].content, k - 1);
      ShortenedNext(group, k);
    }
  }

  lemma NoGroups(recent: seq<Message>)
    ensures recent == [] <==> Groups(recent) == []
  {}

  lemma NothingPacked(meter: Meter)
    ensures Flatten<Message>([]) == [] && GroupCost([], meter) == 0
  {}

  method PackRecent(recent: seq<Message>, budget: int, meter: Meter)
      returns (messages: seq<Message>, used: nat, kept: nat, dropped: nat, compacted: nat)
    ensures kept + dropped == |Groups(recent)|
    ensures recent == [] <==> kept == 0
    ensures messages == if kept == 0 then [] else Flatten(Packed(Groups(recent), kept, budget, meter))
    ensures used == GroupCost(messages, meter)
    ensures used <= budget || kept <= 1
    ensures kept > 0 && dropped > 0 ==> used + GroupCost(Groups(recent)[dropped - 1], meter) > budget
    ensures compacted == if kept == 0 then 0 else Shortened(Groups(recent)[|Groups(recent)| - 1], budget, meter)
    ensures WellFormed(recent) ==> WellFormed(messages)
    ensures kept > 0 ==> exists start, newest, k :: IsPacked(recent, messages, start, newest, k, budget, meter)
  {
    hide Compacted;
    hide IsPacked;
    hide Groups;
    hide GroupCost;
    hide Packed;
    hide Flatten;
    hide Shortened;
    var groups := GroupTurns(recent);
    NoGroups(recent);
    NothingPacked(meter);
    var packed: seq<seq<Message>> := [];
    used, compacted := 0, 0;
    var i := |groups|;
    while i > 0
      invariant 0 <= i <= |groups|
      invariant packed == if i == |groups| then [] else Packed(groups, |groups| - i, budget, meter)
      invariant used == GroupCost(Flatten(packed), meter)
      invariant |packed| == |groups| - i
      invariant compacted == if i == |groups| then 0 else Shortened(groups[|groups| - 1], budget, meter)
      invariant used <= budget || |packed| <= 1
    {
      var group := groups[i - 1];
      var cost := GroupCost(group, meter);
      if used + cost > budget {
        if packed != [] {
          break;
        }
        group, compacted := CompactToolResults(group, budget, meter);
        cost := GroupCost(group, meter);
      } else if packed == [] {
        FitsAsItIs(group, budget, meter);
      }
      PackStep(groups, |groups| - i, budget, meter);
      FlattenFront(group, packed, meter);
      packed := [group] + packed;
      used := used + cost;
      i := i - 1;
    }
    messages := Flatten(packed);
    kept, dropped := |packed|, |groups| - |packed|;
    hide WellFormed;
    if kept > 0 {
      PackedMeans(recent, kept, budget, meter);
    }
    if WellFormed(recent) && kept > 0 {
      PackingKeepsPairs(recent, kept, budget, meter);
    }
  }

  lemma {:induction false} CostConcat(a: seq<Message>, b: seq<Message>, meter: Meter)
    ensures GroupCost(a + b, meter) == GroupCost(a, meter) + GroupCost(b, meter)
  {
    if b == [] {
      assert a + b == a;
    } else {
      assert (a + b)[..|a + b| - 1] == a + b[..|b| - 1];
      CostConcat(a, b[..|b| - 1], meter);
    }
  }

  lemma FlattenFront(group: seq<Message>, packed: seq<seq<Message>>, meter: Meter)
    ensures Flatten([group] + packed) == group + Flatten(packed)
    ensures GroupCost(Flatten([group] + packed), meter) == GroupCost(group, meter) + GroupCost(Flatten(packed), meter)
  {
    FlattenConcat([group], packed);
    assert Flatten([group]) == group by { assert [group][..0] == []; }
    CostConcat(group, Flatten(packed), meter);
  }

  /** Where the packed messages start in the transcript, and where its newest turn does. */
  function StartOf(groups: seq<seq<Message>>, kept: nat): nat
    requires kept <= |groups|
  {
    |Flatten(groups[..|groups| - kept])|
  }

  /** The packed messages are a suffix of the transcript cut at a turn: whole turns as they were,
      but for the result texts of the newest. */
  lemma PackedIsASuffix(recent: seq<Message>, kept: nat, budget: int, meter: Meter)
    requires 1 <= kept <= |Groups(recent)|
    ensures var groups := Groups(recent);
      var out, start, newest := Flatten(Packed(groups, kept, budget, meter)), StartOf(groups, kept), StartOf(groups, 1);
      && start <= newest < |recent| && |out| == |recent| - start
      && (start == 0 || StartsTurn(recent[start]))
      && out[..newest - start] == recent[start..newest]
      && out[newest - start..] == Compacted(recent[newest..], budget, meter)
  {
    hide Groups;
    hide Flatten;
    hide Compacted;
    hide StartsTurn;
    GroupsCutAtTurns(recent);
    var groups := Groups(recent);
    var n := |groups|;
    var front, middle, last := groups[..n - kept], groups[n - kept..n - 1], groups[n - 1];
    assert groups == front + middle + [last];
    ThreePieces(front, middle, last, Compacted(last, budget, meter));
    assert groups[..n - 1] == front + middle;
    assert groups[n - 1] != [];
    if StartOf(groups, kept) > 0 {
      FlattenEmpty<Message>();
      assert front != [];
      var rest := groups[n - kept..];
      assert groups == front + rest;
      assert rest[0] != [] && StartsTurn(rest[0][0]);
      HeadOfRest(front, rest);
    }
  }

  lemma FlattenEmpty<T>()
    ensures Flatten<T>([]) == []
  {}

  lemma ThreePieces<T>(front: seq<seq<T>>, middle: seq<seq<T>>, last: seq<T>, other: seq<T>)
    ensures var all, start, newest := Flatten(front + middle + [last]), |Flatten(front)|, |Flatten(front + middle)|;
      && start <= newest && |all| == newest + |last|
      && all[newest..] == last
      && Flatten(middle + [other]) == all[start..newest] + other
      && |all[start..newest]| == newest - start
  {
    hide Flatten;
    FlattenSnoc(front + middle, last);
    FlattenConcat(front, middle);
    FlattenSnoc(middle, other);
    assert (Flatten(front) + Flatten(middle) + last)[|Flatten(front)|..|Flatten(front)| + |Flatten(middle)|]
        == Flatten(middle);
  }

  /**
   * `out` is `recent` from a turn's head on: the turns before the newest as they were, and the newest, from
   * `newest` on, with its first `k` messages shrunk as the budget asks.
   */
  ghost predicate IsPacked(recent: seq<Message>, out: seq<Message>, start: nat, newest: nat, k: nat, budget: int,
                           meter: Meter) {
    && start <= newest < |recent| && |out| == |recent| - start
    && (start == 0 || StartsTurn(recent[start])) && (newest == 0 || StartsTurn(recent[newest]))
    && (forall i | newest < i < |recent| :: !StartsTurn(recent[i]))
    && out[..newest - start] == recent[start..newest]
    && IsCompaction(recent[newest..], out[newest - start..], k, budget, meter)
  }

  lemma PackedMeans(recent: seq<Message>, kept: nat, budget: int, meter: Meter)
    requires 1 <= kept <= |Groups(recent)|
    ensures var groups := Groups(recent); var newest := StartOf(groups, 1);
      && newest < |recent|
      && IsPacked(recent, Flatten(Packed(groups, kept, budget, meter)), StartOf(groups, kept), newest,
                  FirstFit(recent[newest..], budget, meter, 0), budget, meter)
  {
    hide Groups, Flatten, Compacted, StartsTurn, Packed, IsCompaction, FirstFit;
    var groups := Groups(recent);
    PackedIsASuffix(recent, kept, budget, meter);
    GroupsCutAtTurns(recent);
    FlattenLast(groups, recent);
    LastGroup(groups, recent);
    var newest := StartOf(groups, 1);
    assert newest == |recent| - |groups[|groups| - 1]|;
    CompactedIsCompaction(recent[newest..], budget, meter);
  }

  /** Packing never separates a call from its answer. */
  lemma PackingKeepsPairs(recent: seq<Message>, kept: nat, budget: int, meter: Meter)
    requires WellFormed(recent) && 1 <= kept <= |Groups(recent)|
    ensures WellFormed(Flatten(Packed(Groups(recent), kept, budget, meter)))
  {
    var groups := Groups(recent);
    var out, start, newest := Flatten(Packed(groups, kept, budget, meter)), StartOf(groups, kept), StartOf(groups, 1);
    PackedIsASuffix(recent, kept, budget, meter);
    SuffixWellFormed(recent, start);
    var suffix, last := recent[start..], recent[newest..];
    forall i | 0 <= i < |suffix|
      ensures Uses(out[i]) == Uses(suffix[i]) && Results(out[i]) == Results(suffix[i])
    {
      if i < newest - start {
        assert out[i] == out[..newest - start][i] == recent[start..newest][i];
      } else {
        var j := i - (newest - start);
        assert out[i] == out[newest - start..][j] && suffix[i] == last[j];
        CompactionKeepsShape(last, FirstFit(last, budget, meter, 0), j, meter);
      }
    }
    SamePairing(suffix, out);
  }

  // --- ranked items ---

  function Total(items: seq<string>, count: string -> nat): nat {
    if items == [] then 0 else Total(items[..|items| - 1], count) + count(items[|items| - 1])
  }

  /** Keeps the longest prefix that fits. */
  method Fit(items: seq<string>, budget: nat, count: string -> nat) returns (kept: seq<string>, dropped: nat)
    ensures kept <= items && dropped == |items| - |kept|
    ensures Total(kept, count) <= budget
    ensures forall k | |kept| < k <= |items| :: Total(items[..k], count) > budget
  {
    var used, i := 0, 0;
    kept := [];
    while i < |items|
      invariant 0 <= i <= |items| && kept == items[..i]
      invariant used == Total(kept, count) <= budget
    {
      var cost := count(items[i]);
      assert items[..i + 1][..i] == items[..i];
      if used + cost > budget {
        forall k | i < k <= |items| ensures Total(items[..k], count) > budget {
          TotalGrows(items, i + 1, k, count);
        }
        break;
      }
      kept := kept + [items[i]];
      used := used + cost;
      i := i + 1;
    }
    dropped := |items| - |kept|;
  }

  lemma {:induction false} TotalGrows(items: seq<string>, j: nat, k: nat, count: string -> nat)
    requires j <= k <= |items|
    ensures Total(items[..j], count) <= Total(items[..k], count)
  {
    if j < k {
      TotalGrows(items, j, k - 1, count);
      assert items[..k][..k - 1] == items[..k - 1];
    }
  }
}
