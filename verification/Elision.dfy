/** Shortening text: elided tool results, truncated summaries, and the heuristic token count
    (siatt/core/context.py, siatt/llm/tokens.py). */
module Elision {
  import T = Text

  // --- the number in the marker ---

  function Digits(n: nat): (d: string)
    ensures d != ""
  {
    if n < 10 then [(n as char) + '0'] else Digits(n / 10) + [((n % 10) as char) + '0']
  }

  /** `str(n)`. */
  function Decimal(n: int): (d: string)
    ensures d != ""
  {
    if n < 0 then "-" + Digits(-n) else Digits(n)
  }

  const MARKER_OPENS := "\n[\U{2026}"
  const MARKER_CLOSES := " characters" + " elided to fit" + " this turn" + " in context" + "\U{2026}" + "]\n"

  function Marker(n: int): string {
    MARKER_OPENS + Decimal(n) + MARKER_CLOSES
  }

  /** One more is at most one more digit. */
  lemma {:induction false} OneMoreDigit(n: nat)
    ensures |Digits(n)| <= |Digits(n + 1)| <= |Digits(n)| + 1
  {
    if n >= 10 {
      if (n + 1) % 10 == 0 { OneMoreDigit(n / 10); assert (n + 1) / 10 == n / 10 + 1; }
      else { assert (n + 1) / 10 == n / 10; }
    }
  }

  /** A number grows at least as fast as its digits do. */
  lemma {:induction false} DigitsGrowSlowly(low: nat, high: nat)
    requires low <= high
    ensures |Digits(low)| <= |Digits(high)| <= |Digits(low)| + high - low
    decreases high - low
  {
    if low < high {
      OneMoreDigit(high - 1);
      DigitsGrowSlowly(low, high - 1);
    }
  }

  // --- elision ---

  const HEAD := 400
  const HEAD_EDGE := 320
  const TAIL := 200

  /** `s.rfind("\n", from)`: the last newline at or after `from`, or -1. */
  function LastNewline(s: string, from: nat): (k: int)
    ensures k == -1 || (from <= k < |s| && s[k] == '\n')
    ensures forall i | from <= i < |s| && i > k :: s[i] != '\n'
    decreases |s|
  {
    if |s| <= from then -1
    else if s[|s| - 1] == '\n' then |s| - 1
    else
      var k := LastNewline(s[..|s| - 1], from);
      assert forall i | from <= i < |s| - 1 :: s[..|s| - 1][i] == s[i];
      k
  }

  /** `s.find("\n")`, or -1. */
  function FirstNewline(s: string): (k: int)
    ensures k == -1 || (0 <= k < |s| && s[k] == '\n')
    ensures forall i | 0 <= i < (if k == -1 then |s| else k) :: s[i] != '\n'
  {
    if s == "" then -1
    else if s[0] == '\n' then 0
    else
      var k := FirstNewline(s[1..]);
      assert forall i | 1 <= i < |s| :: s[1..][i - 1] == s[i];
      if k == -1 then -1 else k + 1
  }

  function HeadOf(content: string): (head: string)
    requires |content| >= HEAD
    ensures HEAD_EDGE <= |head| <= HEAD && head == content[..|head|]
    ensures |head| < HEAD ==> content[|head|] == '\n'
    ensures |head| == HEAD || exists i | HEAD_EDGE <= i < HEAD :: content[i] == '\n'
  {
    var head := content[..HEAD];
    var edge := LastNewline(head, HEAD_EDGE);
    if edge > 0 then
      assert content[edge] == '\n';
      head[..edge]
    else head
  }

  function TailOf(content: string): (tail: string)
    requires |content| >= TAIL
    ensures |tail| <= TAIL && tail == content[|content| - |tail|..]
    ensures |tail| < TAIL ==> content[|content| - |tail| - 1] == '\n'
    ensures |tail| == TAIL || exists i | |content| - TAIL <= i < |content| :: content[i] == '\n'
  {
    var tail := content[|content| - TAIL..];
    var edge := FirstNewline(tail);
    if edge >= 0 then
      assert content[|content| - TAIL + edge] == '\n';
      tail[edge + 1..]
    else tail
  }

  predicate Elides(content: string) {
    |content| - HEAD - TAIL > |Marker(|content| - HEAD - TAIL)|
  }

  function Elide(content: string): string {
    if !Elides(content) then content
    else
      var head := HeadOf(content);
      var tail := TailOf(content);
      head + Marker(|content| - |head| - |tail|) + tail
  }

  /** `r` is `content` with its middle replaced by a marker that counts exactly what went. */
  ghost predicate Names(content: string, r: string, h: nat, t: nat) {
    && h + t < |content|
    && r == content[..h] + Marker(|content| - h - t) + content[|content| - t..]
    && 320 <= h <= 400 && t <= 200
    && (h < 400 ==> content[h] == '\n')
    && (t < 200 ==> content[|content| - t - 1] == '\n')
  }

  /** Which texts are touched is a matter of length alone: 655 characters and up. */
  lemma ElidesFrom655(content: string)
    ensures Elides(content) <==> |content| >= 655
  {
    var cut := |content| - HEAD - TAIL;
    MarkerLength(cut);
    if 0 <= cut <= 99 {
      DigitsGrowSlowly(cut, 99);
    } else if cut > 99 {
      DigitsGrowSlowly(99, cut);
    }
  }

  /** An elided text names what went. */
  lemma ElisionNames(content: string)
    requires Elides(content)
    ensures exists h: nat, t: nat :: Names(content, Elide(content), h, t)
  {
    hide HeadOf;
    hide TailOf;
    hide Marker;
    hide Elides;
    hide Names;
    ElidesFrom655(content);
    var head, tail := HeadOf(content), TailOf(content);
    NamesParts(content, head, tail);
    assert Names(content, Elide(content), |head|, |tail|);
  }

  lemma NamesParts(content: string, head: string, tail: string)
    requires |head| + |tail| < |content| && head == content[..|head|] && tail == content[|content| - |tail|..]
    requires HEAD_EDGE <= |head| <= HEAD && |tail| <= TAIL
    requires |head| < HEAD ==> content[|head|] == '\n'
    requires |tail| < TAIL ==> content[|content| - |tail| - 1] == '\n'
    ensures Names(content, head + Marker(|content| - |head| - |tail|) + tail, |head|, |tail|)
  {
    hide Marker;
  }

  /** An elided text is shorter. */
  lemma ElisionShortens(content: string)
    requires Elides(content)
    ensures |Elide(content)| < |content|
  {
    hide HeadOf;
    hide TailOf;
    hide Marker;
    hide Elides;
    ElidesFrom655(content);
    var n := |content| - |HeadOf(content)| - |TailOf(content)|;
    MarkerFits(n);
    assert |Elide(content)| == |content| - n + |Marker(n)|;
  }

  /** From 55 on, saying how much went is shorter than what went. */
  lemma MarkerFits(n: nat)
    requires n >= 55
    ensures |Marker(n)| < n
  {
    MarkerLength(n);
    assert |Digits(55)| == 2;
    DigitsGrowSlowly(55, n);
  }

  lemma MarkerLength(n: int)
    ensures |Marker(n)| == 52 + |Decimal(n)|
  {
    assert |MARKER_OPENS| == 3 && |MARKER_CLOSES| == 49;
  }

  lemma ThreeDigits(n: nat)
    ensures |Digits(n)| >= 3 <==> n >= 100
  {
    assert |Digits(99)| == 2 && |Digits(100)| == 3;
    if n >= 100 {
      DigitsGrowSlowly(100, n);
    } else {
      DigitsGrowSlowly(n, 99);
    }
  }

  /**
   * Elision is not idempotent: what comes out of it is elided again exactly when it is still 655 characters or more,
   * and for a text with no line ends that is from 700 characters on.
   */
  lemma ElidedAgain(content: string)
    ensures Elide(Elide(content)) != Elide(content) <==> |Elide(content)| >= 655
    ensures (forall i | 0 <= i < |content| :: content[i] != '\n') ==>
              (Elide(Elide(content)) != Elide(content) <==> |content| >= 700)
  {
    hide HeadOf, TailOf, Marker, Elides;
    ElidesFrom655(content);
    ElidesFrom655(Elide(content));
    if |Elide(content)| >= 655 {
      ElisionShortens(Elide(content));
    }
    if |content| >= 655 && forall i | 0 <= i < |content| :: content[i] != '\n' {
      var n := |content| - HEAD - TAIL;
      assert |Elide(content)| == HEAD + |Marker(n)| + TAIL;
      MarkerLength(n);
      ThreeDigits(n);
    }
  }

  // --- the heuristic tokenizer, in quarters of a token ---

  function Max(a: int, b: int): int { if a < b then b else a }

  function Quarters(text: string): nat {
    if text == "" then 0 else Quarters(text[..|text| - 1]) + (if text[|text| - 1] < '\U{80}' then 1 else 4)
  }

  function Heuristic(text: string): nat {
    if text == "" then 0 else Max(1, (Quarters(text) + 2) / 4)
  }

  /** No text is free but the empty one. */
  lemma EveryTextCosts(text: string)
    ensures Heuristic(text) == 0 <==> text == ""
    ensures 4 * Heuristic(text) >= Quarters(text) - 1
  {}

  lemma {:induction false} QuartersAdd(a: string, b: string)
    ensures Quarters(a + b) == Quarters(a) + Quarters(b)
  {
    if b == "" {
      assert a + b == a;
    } else {
      assert (a + b)[..|a + b| - 1] == a + b[..|b| - 1];
      QuartersAdd(a, b[..|b| - 1]);
    }
  }

  lemma {:induction false} QuartersBound(text: string)
    ensures |text| <= Quarters(text) <= 4 * |text|
  {
    if text != "" { QuartersBound(text[..|text| - 1]); }
  }

  lemma {:induction false} AsciiQuarters(text: string)
    requires forall i | 0 <= i < |text| :: text[i] < '\U{80}'
    ensures Quarters(text) == |text|
  {
    if text != "" { AsciiQuarters(text[..|text| - 1]); }
  }

  /** Counting two pieces apart is off by at most one token, in either direction. */
  lemma CountNearlyAdds(a: string, b: string)
    ensures Heuristic(a) + Heuristic(b) - 1 <= Heuristic(a + b) <= Heuristic(a) + Heuristic(b) + 1
  {
    QuartersAdd(a, b);
    QuartersBound(a);
    QuartersBound(b);
    if a == "" { assert a + b == b; }
    if b == "" { assert a + b == a; }
  }

  /** The rounding is not subadditive: five ASCII letters cost one token, ten cost three. */
  lemma CountNotSubadditive(a: string, b: string)
    requires |a| == |b| == 5
    requires forall i | 0 <= i < 5 :: a[i] < '\U{80}' && b[i] < '\U{80}'
    ensures Heuristic(a + b) == Heuristic(a) + Heuristic(b) + 1
  {
    AsciiQuarters(a);
    AsciiQuarters(b);
    QuartersAdd(a, b);
  }

  lemma EllipsisWeighsFour()
    ensures Quarters("\U{2026}") == 4
  {
    assert "\U{2026}"[..0] == "";
  }

  lemma OpeningWeighs()
    ensures Quarters(MARKER_OPENS) == 6
  {
    assert MARKER_OPENS == "\n[" + "\U{2026}";
    EllipsisWeighsFour();
    AsciiQuarters("\n[");
    QuartersAdd("\n[", "\U{2026}");
  }

  /** Putting more ASCII text after a text. */
  lemma MoreAscii(text: string, more: string)
    requires forall i | 0 <= i < |more| :: more[i] < '\U{80}'
    ensures Quarters(text + more) == Quarters(text) + |more|
  {
    AsciiQuarters(more);
    QuartersAdd(text, more);
  }

  lemma ClosingWeighs()
    ensures Quarters(MARKER_CLOSES) == 52
  {
    var words := " characters" + " elided to fit" + " this turn" + " in context";
    AsciiQuarters(" characters");
    MoreAscii(" characters", " elided to fit");
    MoreAscii(" characters" + " elided to fit", " this turn");
    MoreAscii(" characters" + " elided to fit" + " this turn", " in context");
    EllipsisWeighsFour();
    QuartersAdd(words, "\U{2026}");
    MoreAscii(words + "\U{2026}", "]\n");
  }

  lemma {:induction false} DigitsWeigh(n: nat)
    ensures Quarters(Digits(n)) == |Digits(n)|
  {
    if n < 10 {
      AsciiQuarters(Digits(n));
    } else {
      DigitsWeigh(n / 10);
      MoreAscii(Digits(n / 10), [((n % 10) as char) + '0']);
    }
  }

  lemma MarkerWeighs(n: nat)
    ensures Quarters(Marker(n)) == 58 + |Digits(n)|
  {
    hide Quarters;
    OpeningWeighs();
    ClosingWeighs();
    DigitsWeigh(n);
    QuartersAdd(MARKER_OPENS, Digits(n));
    QuartersAdd(MARKER_OPENS + Digits(n), MARKER_CLOSES);
  }

  /** The part of a text that eliding it drops. */
  function Dropped(content: string): string
    requires |content| >= 655
  {
    content[|HeadOf(content)|..|content| - |TailOf(content)|]
  }

  /** What eliding changes, to the quarter of a token: the part that is dropped, against the marker. */
  lemma ElisionWeighs(content: string)
    requires |content| >= 655
    ensures var dropped := Dropped(content);
            Quarters(Elide(content)) == Quarters(content) - Quarters(dropped) + 58 + |Digits(|dropped|)|
    ensures |Dropped(content)| >= |content| - HEAD - TAIL
  {
    hide HeadOf, TailOf, Marker, Quarters, Elides;
    ElidesFrom655(content);
    var head, tail, dropped := HeadOf(content), TailOf(content), Dropped(content);
    var n := |dropped|;
    assert Elide(content) == head + Marker(n) + tail;
    assert content == head + dropped + tail;
    MarkerWeighs(n);
    QuartersAdd(head, Marker(n));
    QuartersAdd(head + Marker(n), tail);
    QuartersAdd(head, dropped);
    QuartersAdd(head + dropped, tail);
  }

  /** From 660 characters on, whatever the text, eliding it never costs tokens. */
  lemma ElisionSaves(content: string)
    requires |content| >= 660
    ensures Heuristic(Elide(content)) <= Heuristic(content)
  {
    hide Elide, Quarters, Dropped;
    ElisionWeighs(content);
    QuartersBound(Dropped(content));
    assert |Digits(60)| == 2;
    DigitsGrowSlowly(60, |Dropped(content)|);
    SomethingLeft(content);
  }

  lemma SomethingLeft(content: string)
    requires |content| >= 655
    ensures Elide(content) != "" && content != ""
  {
    hide HeadOf, TailOf, Marker, Elides;
    ElidesFrom655(content);
  }

  /** Shorter texts it can: ASCII with no line ends costs one token more once elided, at 655 to 657 characters only. */
  lemma ElisionCanCostMore(content: string)
    requires forall i | 0 <= i < |content| :: content[i] < '\U{80}' && content[i] != '\n'
    ensures Heuristic(Elide(content)) == Heuristic(content) + 1 <==> 655 <= |content| <= 657
    ensures Heuristic(Elide(content)) > Heuristic(content) <==> 655 <= |content| <= 657
  {
    hide HeadOf, TailOf, Marker, Quarters, Elides;
    ElidesFrom655(content);
    if |content| >= 660 {
      ElisionSaves(content);
    } else if |content| >= 655 {
      ElisionWeighs(content);
      SomethingLeft(content);
      AsciiQuarters(content);
      AsciiQuarters(Dropped(content));
      assert |Dropped(content)| == |content| - 600;
      ThreeDigits(|Dropped(content)|);
      assert |Digits(10)| == 2;
      DigitsGrowSlowly(10, |Dropped(content)|);
    }
  }

  // --- truncation to a token budget ---

  const TRUNCATION_MARKER := "\n[\U{2026}truncated]"

  /** `s.rfind("\n\n")`, or -1. */
  function LastBreak(s: string): (k: int)
    ensures k == -1 || IsBreak(s, k)
    ensures forall i | i > k :: !IsBreak(s, i)
  {
    if |s| < 2 then -1
    else if s[|s| - 2] == '\n' && s[|s| - 1] == '\n' then |s| - 2
    else
      var k := LastBreak(s[..|s| - 1]);
      assert forall i :: IsBreak(s, i) ==> i == |s| - 2 || IsBreak(s[..|s| - 1], i);
      assert k == -1 || IsBreak(s[..|s| - 1], k);
      k
  }

  /** Two line ends in a row. */
  predicate IsBreak(s: string, i: int) {
    0 <= i && i + 2 <= |s| && s[i] == '\n' && s[i + 1] == '\n'
  }

  /** `r` is a head of `text` that fits `target`, cut back to a paragraph if that keeps over
      half of it, with its trailing space dropped and the marker put on. */
  ghost predicate Trimmed(text: string, target: int, count: string -> nat, r: string) {
    exists cut: nat ::
      && 1 <= cut <= |text|
      && (cut == 1 || count(text[..cut]) <= target)
      && (exists steps: nat :: WalksBackTo(text, target, count, steps, cut))
      && r == Closed(text[..cut])
  }

  /** The head that is the share of the text which the target is of its count, cut back by a tenth so many times. */
  function HeadAfter(text: string, target: int, count: string -> nat, steps: nat): int {
    if steps == 0 then Max(1, |text| * target / Max(1, count(text)))
    else HeadAfter(text, target, count, steps - 1) * 9 / 10
  }

  /** `cut` is the first of those heads that is small enough. */
  ghost predicate WalksBackTo(text: string, target: int, count: string -> nat, steps: nat, cut: nat) {
    && cut == HeadAfter(text, target, count, steps)
    && forall n: nat | n < steps ::
         var longer := HeadAfter(text, target, count, n); 1 < longer <= |text| && count(text[..longer]) > target
  }

  function Closed(head: string): string {
    var boundary := LastBreak(head);
    T.RStrip(if 2 * boundary > |head| then head[..boundary] else head) + TRUNCATION_MARKER
  }

  /** A head is cut back to its last paragraph break if that is past its middle; then space goes, the marker comes. */
  lemma ClosedMeans(head: string)
    ensures forall k | IsBreak(head, k) && 2 * k > |head| && forall i | i > k :: !IsBreak(head, i) ::
              Closed(head) == T.RStrip(head[..k]) + "\n[\U{2026}truncated]"
    ensures (forall k | IsBreak(head, k) :: 2 * k <= |head|) ==>
              Closed(head) == T.RStrip(head) + "\n[\U{2026}truncated]"
  {
    var b := LastBreak(head);
    forall k | IsBreak(head, k) && 2 * k > |head| && forall i | i > k :: !IsBreak(head, i) ensures k == b {}
  }

  method Truncate(text: string, budget: int, count: string -> nat) returns (r: string, truncated: bool)
    requires count("") == 0
    ensures truncated <==> count(text) > budget
    ensures !truncated ==> r == text
    ensures truncated && budget <= count(TRUNCATION_MARKER) ==> r == ""
    ensures truncated && budget > count(TRUNCATION_MARKER) ==>
      Trimmed(text, budget - count(TRUNCATION_MARKER), count, r)
  {
    if count(text) <= budget {
      return text, false;
    }
    var target := Max(0, budget - count(TRUNCATION_MARKER));
    if target == 0 {
      return "", true;
    }
    assert |text| > 0;
    var cut := Max(1, |text| * target / Max(1, count(text)));
    FirstCut(|text|, target, count(text));
    ghost var steps := 0;
    while cut > 1 && count(text[..cut]) > target
      invariant 1 <= cut <= |text|
      invariant WalksBackTo(text, target, count, steps, cut)
    {
      cut := cut * 9 / 10;
      steps := steps + 1;
    }
    assert WalksBackTo(text, target, count, steps, cut);
    r := Closed(text[..cut]);
    truncated := true;
  }

  lemma FirstCut(size: nat, target: nat, cost: nat)
    requires target < cost && size > 0
    ensures 0 <= size * target / cost <= size
  {
    Product(target, cost, size);
    Quotient(size * target, cost, size);
  }

  lemma Product(a: nat, b: nat, k: nat)
    requires a <= b
    ensures k * a <= k * b
  {
    assert k * (b - a) >= 0;
  }

  lemma Quotient(x: nat, y: nat, k: nat)
    requires y > 0 && x <= k * y
    ensures 0 <= x / y <= k
  {
    if x / y > k { Product(k + 1, x / y, y); }
  }

  lemma {:induction false} RStripIsAPrefix(s: string)
    ensures T.RStrip(s) <= s
  {
    if s != "" && T.IsSpace(s[|s| - 1]) { RStripIsAPrefix(s[..|s| - 1]); }
  }

  lemma PrefixWeighsLess(a: string, b: string)
    requires a <= b
    ensures Quarters(a) <= Quarters(b)
  {
    assert b == a + b[|a|..];
    QuartersAdd(a, b[|a|..]);
  }

  /** The marker weighs a whole number of tokens, so putting it on never rounds up. */
  lemma MarkerCostsFour(head: string)
    ensures Heuristic(TRUNCATION_MARKER) == 4
    ensures Quarters(head + TRUNCATION_MARKER) == Quarters(head) + 16
  {
    assert TRUNCATION_MARKER == "\n[" + "\U{2026}" + "truncated]";
    AsciiQuarters("\n[");
    AsciiQuarters("truncated]");
    EllipsisWeighsFour();
    QuartersAdd("\n[", "\U{2026}");
    QuartersAdd("\n[" + "\U{2026}", "truncated]");
    QuartersAdd(head, TRUNCATION_MARKER);
  }

  /** A truncated text is within its budget, to the token. */
  lemma TruncationFits(text: string, budget: int, r: string)
    requires budget > Heuristic(TRUNCATION_MARKER)
    requires Trimmed(text, budget - Heuristic(TRUNCATION_MARKER), Heuristic, r)
    ensures Heuristic(r) <= budget
  {
    var target := budget - Heuristic(TRUNCATION_MARKER);
    var cut: nat :|
      && 1 <= cut <= |text| && (cut == 1 || Heuristic(text[..cut]) <= target)
      && (exists steps: nat :: WalksBackTo(text, target, Heuristic, steps, cut)) && r == Closed(text[..cut]);
    var head := text[..cut];
    var boundary := LastBreak(head);
    var kept := if 2 * boundary > |head| then head[..boundary] else head;
    RStripIsAPrefix(kept);
    PrefixWeighsLess(T.RStrip(kept), head);
    MarkerCostsFour(T.RStrip(kept));
    QuartersBound(head);
  }
}
