/** Messages and blocks, and when a transcript can be replayed (siatt/llm/types.py). */
module Transcript {
  import opened Wrappers

  datatype Role = System | User | Assistant | Tool

  datatype Block =
    | Text(text: string)
    | Thinking(thinking: string)
    | Image(sha: string, width: Option<nat>, height: Option<nat>)
    | ToolUse(id: string, name: string, input: string)
    | ToolResult(useId: string, content: string, isError: bool)

  datatype Message = Message(role: Role, content: seq<Block>)

  /** The ids of the tool calls in a message, in order. */
  function UseIds(blocks: seq<Block>): seq<string> {
    if blocks == [] then []
    else (if blocks[0].ToolUse? then [blocks[0].id] else []) + UseIds(blocks[1..])
  }

  /** The ids its tool results answer, in order. */
  function ResultIds(blocks: seq<Block>): seq<string> {
    if blocks == [] then []
    else (if blocks[0].ToolResult? then [blocks[0].useId] else []) + ResultIds(blocks[1..])
  }

  function Uses(m: Message): seq<string> { UseIds(m.content) }
  function Results(m: Message): seq<string> { ResultIds(m.content) }

  /** `starts_turn`: a user message that answers no tool call. */
  predicate StartsTurn(m: Message) {
    m.role == User && Results(m) == []
  }

  /** The calls of message `i` are answered, each once and in order, by the very next message. */
  predicate AnsweredAt(t: seq<Message>, i: nat)
    requires i < |t|
  {
    Uses(t[i]) == [] || (i + 1 < |t| && Results(t[i + 1]) == Uses(t[i]))
  }

  /** The results of message `i` answer the calls of the message before it. */
  predicate ExpectedAt(t: seq<Message>, i: nat)
    requires i < |t|
  {
    Results(t[i]) == [] || (i > 0 && Uses(t[i - 1]) == Results(t[i]))
  }

  ghost predicate WellFormed(t: seq<Message>) {
    forall i | 0 <= i < |t| :: AnsweredAt(t, i) && ExpectedAt(t, i)
  }

  ghost predicate Distinct(ids: seq<string>) {
    forall i, j | 0 <= i < j < |ids| :: ids[i] != ids[j]
  }

  lemma {:induction false} IdsConcat(a: seq<Block>, b: seq<Block>)
    ensures UseIds(a + b) == UseIds(a) + UseIds(b)
    ensures ResultIds(a + b) == ResultIds(a) + ResultIds(b)
  {
    if a == [] {
      assert a + b == b;
    } else {
      assert (a + b)[1..] == a[1..] + b;
      IdsConcat(a[1..], b);
    }
  }

  /** Appending a message that calls nothing and answers nothing. */
  lemma PlainAppend(t: seq<Message>, m: Message)
    requires WellFormed(t) && Results(m) == []
    ensures WellFormed(t + [m]) <==> Uses(m) == []
  {
    var u := t + [m];
    forall i | 0 <= i < |t| ensures AnsweredAt(u, i) && ExpectedAt(u, i) {
      assert AnsweredAt(t, i) && ExpectedAt(t, i);
    }
    assert AnsweredAt(u, |t|) <==> Uses(m) == [];
    assert ExpectedAt(u, |t|);
  }

  /** Appending a call and its answer together. */
  lemma AnsweredAppend(t: seq<Message>, call: Message, answer: Message)
    requires WellFormed(t) && Results(call) == [] && Uses(answer) == []
    requires Results(answer) == Uses(call)
    ensures WellFormed(t + [call] + [answer])
  {
    var u := t + [call] + [answer];
    forall i | 0 <= i < |u| ensures AnsweredAt(u, i) && ExpectedAt(u, i) {
      if i < |t| {
        assert AnsweredAt(t, i) && ExpectedAt(t, i);
      }
    }
  }

  /** Cutting a transcript at the head of a turn loses no pairing. */
  lemma SuffixWellFormed(t: seq<Message>, k: nat)
    requires WellFormed(t) && k <= |t|
    requires k == |t| || k == 0 || Results(t[k]) == []
    ensures WellFormed(t[k..])
  {
    forall i | 0 <= i < |t| - k ensures AnsweredAt(t[k..], i) && ExpectedAt(t[k..], i) {
      assert AnsweredAt(t, k + i) && ExpectedAt(t, k + i);
      if k + i + 1 < |t| { assert t[k..][i + 1] == t[k + i + 1]; }
    }
  }

  /** What stands before the head of a turn is well formed on its own. */
  lemma CutAtHead(t: seq<Message>, k: nat)
    requires WellFormed(t) && k < |t| && Results(t[k]) == []
    ensures WellFormed(t[..k])
  {
    forall i | 0 <= i < k ensures AnsweredAt(t[..k], i) && ExpectedAt(t[..k], i) {
      assert AnsweredAt(t, i) && ExpectedAt(t, i);
    }
  }

  /** Messages whose calls and answers are unchanged pair as before. */
  lemma SamePairing(t: seq<Message>, u: seq<Message>)
    requires WellFormed(t) && |u| == |t|
    requires forall i | 0 <= i < |t| :: Uses(u[i]) == Uses(t[i]) && Results(u[i]) == Results(t[i])
    ensures WellFormed(u)
  {
    forall i | 0 <= i < |u| ensures AnsweredAt(u, i) && ExpectedAt(u, i) {
      assert AnsweredAt(t, i) && ExpectedAt(t, i);
    }
  }
}
