/** What the string operations give back of their input. */
module TextLaws {
  import opened Text
  import E = Elision

  predicate AllSpace(s: string) {
    forall i | 0 <= i < |s| :: IsSpace(s[i])
  }

  lemma {:induction false} LStripMeans(s: string)
    ensures LStrip(s) == "" || !IsSpace(LStrip(s)[0])
    ensures exists front :: AllSpace(front) && s == front + LStrip(s)
  {
    if s != "" && IsSpace(s[0]) {
      LStripMeans(s[1..]);
      var front :| AllSpace(front) && s[1..] == front + LStrip(s[1..]);
      assert AllSpace([s[0]] + front) && s == [s[0]] + front + LStrip(s);
    } else {
      assert AllSpace("") && s == "" + LStrip(s);
    }
  }

  lemma {:induction false} RStripMeans(s: string)
    ensures RStrip(s) == "" || !IsSpace(RStrip(s)[|RStrip(s)| - 1])
    ensures exists back :: AllSpace(back) && s == RStrip(s) + back
    ensures RStrip(s) <= s
  {
    if s != "" && IsSpace(s[|s| - 1]) {
      var init := s[..|s| - 1];
      RStripMeans(init);
      var back :| AllSpace(back) && init == RStrip(init) + back;
      assert AllSpace(back + [s[|s| - 1]]) && s == RStrip(s) + (back + [s[|s| - 1]]);
    } else {
      assert AllSpace("") && s == RStrip(s) + "";
    }
  }

  /** Stripping takes the space off both ends and nothing else. */
  lemma StripMeans(s: string)
    ensures exists front, back :: AllSpace(front) && AllSpace(back) && s == front + Strip(s) + back
    ensures Strip(s) == "" || (!IsSpace(Strip(s)[0]) && !IsSpace(Strip(s)[|Strip(s)| - 1]))
  {
    hide IsSpace;
    LStripMeans(s);
    RStripMeans(LStrip(s));
    var front :| AllSpace(front) && s == front + LStrip(s);
    var back :| AllSpace(back) && LStrip(s) == RStrip(LStrip(s)) + back;
    assert s == front + Strip(s) + back;
  }

  /** The pieces with the separator between them again. */
  function Rejoined(pieces: seq<string>, sep: char): string
    requires pieces != []
  {
    if |pieces| == 1 then pieces[0] else pieces[0] + [sep] + Rejoined(pieces[1..], sep)
  }

  /** Splitting cuts at every separator, and only there. */
  lemma {:induction false} SplitMeans(s: string, sep: char)
    ensures Rejoined(SplitOn(s, sep), sep) == s
    ensures forall i | 0 <= i < |SplitOn(s, sep)| :: sep !in SplitOn(s, sep)[i]
  {
    if s != "" {
      SplitMeans(s[1..], sep);
      var rest := SplitOn(s[1..], sep);
      if s[0] == sep {
        assert ([""] + rest)[1..] == rest;
      } else {
        var pieces := [[s[0]] + rest[0]] + rest[1..];
        assert pieces[1..] == rest[1..];
        assert [s[0]] + s[1..] == s;
      }
    }
  }

  /** The number that decimal digits write. */
  function Value(digits: string): int {
    if digits == "" then 0 else 10 * Value(digits[..|digits| - 1]) + (digits[|digits| - 1] as int - '0' as int)
  }

  /** Digits write the number they are the digits of, with no zero in front. */
  lemma {:induction false} DigitsMean(n: nat)
    ensures Value(E.Digits(n)) == n
    ensures forall i | 0 <= i < |E.Digits(n)| :: '0' <= E.Digits(n)[i] <= '9'
    ensures n > 0 ==> E.Digits(n)[0] != '0'
  {
    if n < 10 {
      assert E.Digits(n)[..0] == "";
    } else {
      DigitsMean(n / 10);
      assert E.Digits(n)[..|E.Digits(n)| - 1] == E.Digits(n / 10);
    }
  }
}
