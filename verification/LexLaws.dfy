/** What the lexer leaves out between tokens. */
module LexLaws {
  import opened LexSpec

  /** Blanks, and then possibly a comment that reaches to the end of its line. */
  predicate IsGap(s: string, n: nat, rest: string) {
    && n <= |s| && (forall i :: 0 <= i < n ==> s[i] == ' ' || s[i] == '\t')
    && (n < |s| ==> s[n] == '#' && '\n' !in s[n..] && (rest == "" || rest[0] == '\n'))
  }

  lemma {:induction false} BlanksAreBlank(s: string)
    ensures forall i :: 0 <= i < Blanks(s) ==> s[i] == ' ' || s[i] == '\t'
  {
    if s != "" && (s[0] == ' ' || s[0] == '\t') {
      BlanksAreBlank(s[1..]);
      forall i | 0 <= i < Blanks(s) ensures s[i] == ' ' || s[i] == '\t' {
        if i > 0 { assert s[i] == s[1..][i - 1]; }
      }
    }
  }

  lemma SkippedIsGap(s: string)
    ensures IsGap(s[..Skipped(s)], Blanks(s), s[Skipped(s)..])
  {
    hide Blanks;
    hide Before;
    BlanksAreBlank(s);
    var a := Blanks(s);
    if a < |s| && s[a] == '#' {
      var n := Before(s[a..], '\n');
      assert s[..a + n][a..] == s[a..][..n];
      assert Skipped(s) == a + n;
    } else {
      assert Skipped(s) == a;
    }
  }

  lemma WhereTokensStart(s: string, dq: bool)
    ensures Lex(s, dq).Tok? ==> Lex(s, dq).start == if dq then 0 else Skipped(s)
    ensures Lex(s, dq).Tok? ==> (Lex(s, dq).start == Lex(s, dq).end <==> Lex(s, dq).kind.TEof?)
  {
    hide LexHere;
    hide LexDq;
    hide Skipped;
  }

  /** Only blanks and a comment stand in front of a token outside double quotes, nothing inside them;
      every token but the end takes at least one character, and the end is the end of the text. */
  lemma OnlyGapsAreSkipped(s: string, dq: bool)
    requires Lex(s, dq).Tok?
    ensures var Tok(k, start, end) := Lex(s, dq);
            && start <= end <= |s|
            && IsGap(s[..start], if dq then 0 else Blanks(s), s[start..]) && (dq ==> start == 0)
            && (k.TEof? <==> start == end)
            && (k.TEof? ==> end == |s|)
  {
    hide Lex;
    hide Skipped;
    hide Blanks;
    hide IsGap;
    WhereTokensStart(s, dq);
    if dq { NoGap(s); } else { SkippedIsGap(s); }
  }

  lemma NoGap(s: string)
    ensures IsGap(s[..0], 0, s[0..])
  {
  }

  // ---------------------------------------------------------------- escapes inside double quotes

  /** What a backslash does inside double quotes: it makes the four special characters ordinary, it
      takes a newline away, and in front of anything else, and at the very end, it stands for itself. */
  lemma EscapesInQuotes(c: char, r: string)
    ensures c in "\"\\$`" ==> UnescapeDq(['\\', c] + r) == [c] + UnescapeDq(r)
    ensures c == '\n' ==> UnescapeDq(['\\', c] + r) == UnescapeDq(r)
    ensures c !in "\"\\$`\n" ==> UnescapeDq(['\\', c] + r) == ['\\', c] + UnescapeDq(r)
    ensures c != '\\' ==> UnescapeDq([c] + r) == [c] + UnescapeDq(r)
    ensures UnescapeDq("\\") == "\\"
  {
    assert (['\\', c] + r)[2..] == r && ([c] + r)[1..] == r;
    assert "" + UnescapeDq(r) == UnescapeDq(r) && "\\" + "" == "\\" && "\\"[1..] == "" && UnescapeDq("") == "";
  }
}
