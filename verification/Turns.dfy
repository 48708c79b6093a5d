/** Cutting a transcript into exchanges (siatt/core/context.py). */
module Turns {
  import opened Transcript

  /** The exchanges of a transcript: a new one wherever a message starts a turn. */
  function Groups(messages: seq<Message>): seq<seq<Message>> {
    if messages == [] then []
    else AddMessage(Groups(messages[..|messages| - 1]), messages[|messages| - 1])
  }

  function AddMessage(groups: seq<seq<Message>>, m: Message): seq<seq<Message>> {
    if StartsTurn(m) || groups == [] then groups + [[m]]
    else groups[..|groups| - 1] + [groups[|groups| - 1] + [m]]
  }

  function Flatten<T>(groups: seq<seq<T>>): seq<T> {
    if groups == [] then [] else Flatten(groups[..|groups| - 1]) + groups[|groups| - 1]
  }

  /** Nothing but the head of a group starts a turn, and every head but the first does. */
  ghost predicate HeadedByTurns(groups: seq<seq<Message>>) {
    && (forall j | 0 <= j < |groups| :: groups[j] != [])
    && (forall j | 0 < j < |groups| :: StartsTurn(groups[j][0]))
    && (forall j, i | 0 <= j < |groups| && 0 < i < |groups[j]| :: !StartsTurn(groups[j][i]))
  }

  /** `groups` cuts `messages` at every message that starts a turn, and nowhere else. */
  ghost predicate CutsAtTurns(groups: seq<seq<Message>>, messages: seq<Message>) {
    Flatten(groups) == messages && HeadedByTurns(groups)
  }

  method GroupTurns(messages: seq<Message>) returns (groups: seq<seq<Message>>)
    ensures groups == Groups(messages)
  {
    hide StartsTurn;
    groups := [];
    var current: seq<Message> := [];
    for i := 0 to |messages|
      invariant i == 0 <==> current == []
      invariant i == 0 ==> groups == []
      invariant i > 0 ==> Groups(messages[..i]) == groups + [current]
    {
      assert messages[..i + 1][..i] == messages[..i];
      assert i == 0 ==> messages[..i] == [];
      assert [] + [messages[i]] == [messages[i]];
      assert Groups(messages[..i + 1]) == AddMessage(Groups(messages[..i]), messages[i]);
      assert (groups + [current])[..|groups|] == groups;
      if StartsTurn(messages[i]) && current != [] {
        groups := groups + [current];
        current := [];
      }
      current := current + [messages[i]];
    }
    assert messages[..|messages|] == messages;
    if current != [] {
      groups := groups + [current];
    }
  }

  lemma FlattenSnoc<T>(groups: seq<seq<T>>, group: seq<T>)
    ensures Flatten(groups + [group]) == Flatten(groups) + group
  {
    assert (groups + [group])[..|groups|] == groups;
  }

  lemma {:induction false} FlattenConcat<T>(a: seq<seq<T>>, b: seq<seq<T>>)
    ensures Flatten(a + b) == Flatten(a) + Flatten(b)
  {
    if b == [] {
      assert a + b == a;
    } else {
      assert (a + b)[..|a + b| - 1] == a + b[..|b| - 1];
      FlattenConcat(a, b[..|b| - 1]);
    }
  }

  lemma AddFlattens(groups: seq<seq<Message>>, m: Message)
    ensures Flatten(AddMessage(groups, m)) == Flatten(groups) + [m]
  {
    hide StartsTurn;
    if StartsTurn(m) || groups == [] {
      FlattenSnoc(groups, [m]);
    } else {
      FlattenSnoc(groups[..|groups| - 1], groups[|groups| - 1] + [m]);
    }
  }

  lemma AddKeepsHeads(groups: seq<seq<Message>>, m: Message)
    requires HeadedByTurns(groups)
    ensures HeadedByTurns(AddMessage(groups, m))
  {
    hide StartsTurn;
    var after := AddMessage(groups, m);
    forall j | 0 <= j < |after| && j < |groups| - 1 ensures after[j] == groups[j] {}
  }

  lemma {:induction false} GroupsCutAtTurns(messages: seq<Message>)
    ensures CutsAtTurns(Groups(messages), messages)
  {
    hide AddMessage;
    if messages != [] {
      var rest, m := messages[..|messages| - 1], messages[|messages| - 1];
      GroupsCutAtTurns(rest);
      AddFlattens(Groups(rest), m);
      AddKeepsHeads(Groups(rest), m);
      assert rest + [m] == messages;
    }
  }

  lemma FlattenLast<T>(groups: seq<seq<T>>, all: seq<T>)
    requires groups != [] && Flatten(groups) == all
    ensures var last := groups[|groups| - 1];
      && |last| <= |all| && last == all[|all| - |last|..]
      && Flatten(groups[..|groups| - 1]) == all[..|all| - |last|]
  {}

  /** There is only one way to cut a transcript at its turns. */
  lemma {:induction false} CutIsUnique(g: seq<seq<Message>>, h: seq<seq<Message>>, messages: seq<Message>)
    requires CutsAtTurns(g, messages) && CutsAtTurns(h, messages)
    ensures g == h
  {
    hide StartsTurn;
    if g == [] || h == [] {
      if g != [] { FlattenLast(g, messages); }
      if h != [] { FlattenLast(h, messages); }
    } else {
      LastGroupNotShorter(g, h, messages);
      LastGroupNotShorter(h, g, messages);
      FlattenLast(g, messages);
      FlattenLast(h, messages);
      CutIsUnique(g[..|g| - 1], h[..|h| - 1], messages[..|messages| - |g[|g| - 1]|]);
      assert g == g[..|g| - 1] + [g[|g| - 1]];
      assert h == h[..|h| - 1] + [h[|h| - 1]];
    }
  }

  lemma LastGroupNotShorter(g: seq<seq<Message>>, h: seq<seq<Message>>, messages: seq<Message>)
    requires CutsAtTurns(g, messages) && CutsAtTurns(h, messages) && g != [] && h != []
    ensures |g[|g| - 1]| >= |h[|h| - 1]|
  {
    hide CutsAtTurns;
    LastGroup(g, messages);
    LastGroup(h, messages);
  }

  /** The last group runs from the last message that starts a turn, or else is everything. */
  lemma LastGroup(g: seq<seq<Message>>, messages: seq<Message>)
    requires CutsAtTurns(g, messages) && g != []
    ensures var size := |g[|g| - 1]|;
      && 0 < size <= |messages|
      && (size == |messages| || StartsTurn(messages[|messages| - size]))
      && (forall p | |messages| - size < p < |messages| :: !StartsTurn(messages[p]))
  {
    hide StartsTurn;
    var last := g[|g| - 1];
    FlattenLast(g, messages);
    forall p | |messages| - |last| < p < |messages| ensures !StartsTurn(messages[p]) {
      assert messages[p] == last[p - (|messages| - |last|)];
    }
    assert messages[|messages| - |last|] == last[0];
  }

  lemma HeadOfRest<T>(front: seq<seq<T>>, rest: seq<seq<T>>)
    requires rest != [] && rest[0] != []
    ensures Flatten(front) < Flatten(front + rest)
    ensures Flatten(front + rest)[|Flatten(front)|] == rest[0][0]
  {
    assert front + rest == front + [rest[0]] + rest[1..];
    FlattenConcat(front + [rest[0]], rest[1..]);
    FlattenSnoc(front, rest[0]);
  }
}
