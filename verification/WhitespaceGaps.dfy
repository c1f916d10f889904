/** What the three passes make of a text, gap by gap: the words stay, and each gap between them keeps at most two of its
    newlines and at most one of the blanks after the last. */
module WhitespaceGaps {
  import opened PyText
  import opened Whitespace

  predicate IsGapChar(c: char) {
    c == ' ' || c == '\t' || c == '\n'
  }

  predicate IsGap(s: string) {
    forall i :: 0 <= i < |s| ==> IsGapChar(s[i])
  }

  predicate IsWord(s: string) {
    forall i :: 0 <= i < |s| ==> !IsGapChar(s[i])
  }

  predicate IsBlanks(s: string) {
    forall i :: 0 <= i < |s| ==> s[i] == ' ' || s[i] == '\t'
  }

  /** It is empty or begins with a character of a word. */
  predicate BeginsWord(s: string) {
    s == "" || !IsGapChar(s[0])
  }

  function Newlines(n: nat): string {
    seq(n, (i: nat) => '\n')
  }

  function NewlineCount(s: string): nat {
    if s == "" then 0 else (if s[0] == '\n' then 1 else 0) + NewlineCount(s[1..])
  }

  /** What follows the last newline. */
  function Tail(s: string): string {
    if '\n' !in s then s else Tail(s[1..])
  }

  /** Two blanks or more become one, a single one stays what it is. */
  function FewBlanks(blanks: string): string {
    if |blanks| >= 2 then " " else blanks
  }

  function Collapsed(gap: string): string {
    Newlines(if NewlineCount(gap) >= 2 then 2 else NewlineCount(gap)) + FewBlanks(Tail(gap))
  }

  function Passes(s: string): string {
    SqueezeBlanks(LimitNewlines(DropTrailingBlanks(s)))
  }

  /** Words and the gaps between them, in turn. */
  function Woven(words: seq<string>, gaps: seq<string>): string
    requires |words| == |gaps| + 1
  {
    if gaps == [] then words[0] else words[0] + (gaps[0] + Woven(words[1..], gaps[1..]))
  }

  /** The gaps are maximal: only the first and the last word may be empty. */
  ghost predicate Alternating(words: seq<string>, gaps: seq<string>) {
    && |words| == |gaps| + 1
    && (forall k :: 0 <= k < |words| ==> IsWord(words[k]))
    && (forall k :: 0 < k < |gaps| ==> words[k] != "")
    && (forall k :: 0 <= k < |gaps| ==> IsGap(gaps[k]))
  }

  function AllCollapsed(gaps: seq<string>): seq<string> {
    seq(|gaps|, i requires 0 <= i < |gaps| => Collapsed(gaps[i]))
  }

  // Words stay

  lemma {:induction false} WordBeforeTrailing(word: string, t: string)
    requires IsWord(word)
    ensures DropTrailingBlanks(word + t) == word + DropTrailingBlanks(t)
  {
    if word == "" {
      assert word + t == t;
    } else {
      WordBeforeTrailing(word[1..], t);
      Uncons(word, t);
      StepsOver(word + t);
      Cons(word, DropTrailingBlanks(t));
    }
  }

  lemma {:induction false} WordBeforeLimit(word: string, t: string)
    requires IsWord(word)
    ensures LimitNewlines(word + t) == word + LimitNewlines(t)
  {
    if word == "" {
      assert word + t == t;
    } else {
      WordBeforeLimit(word[1..], t);
      Uncons(word, t);
      StepsOver(word + t);
      Cons(word, LimitNewlines(t));
    }
  }

  lemma {:induction false} WordBeforeSqueeze(word: string, t: string)
    requires IsWord(word)
    ensures SqueezeBlanks(word + t) == word + SqueezeBlanks(t)
  {
    if word == "" {
      assert word + t == t;
    } else {
      WordBeforeSqueeze(word[1..], t);
      Uncons(word, t);
      StepsOver(word + t);
      Cons(word, SqueezeBlanks(t));
    }
  }

  lemma Uncons(word: string, t: string)
    requires word != ""
    ensures (word + t)[0] == word[0] && (word + t)[1..] == word[1..] + t
  {
  }

  lemma Cons(word: string, t: string)
    requires word != ""
    ensures [word[0]] + (word[1..] + t) == word + t
  {
  }

  lemma StepsOver(s: string)
    requires s != "" && !IsGapChar(s[0])
    ensures DropTrailingBlanks(s) == [s[0]] + DropTrailingBlanks(s[1..])
    ensures LimitNewlines(s) == [s[0]] + LimitNewlines(s[1..])
    ensures SqueezeBlanks(s) == [s[0]] + SqueezeBlanks(s[1..])
  {
  }

  lemma PassesBeginWord(t: string)
    requires BeginsWord(t)
    ensures BeginsWord(DropTrailingBlanks(t)) && BeginsWord(LimitNewlines(t))
  {
    if t != "" {
      StepsOver(t);
    }
  }

  // One gap

  lemma BlankRunOf(blanks: string, t: string)
    requires IsBlanks(blanks) && (t == "" || !IsBlank(t[0]))
    ensures BlankRun(blanks + t) == |blanks|
  {
    BlankRunIs(blanks + t, |blanks|);
  }

  lemma BlankRunIs(s: string, n: nat)
    requires n <= |s| && (forall i :: 0 <= i < n ==> IsBlank(s[i])) && (n < |s| ==> !IsBlank(s[n]))
    ensures BlankRun(s) == n
  {
  }

  lemma NewlineRunIs(s: string, n: nat)
    requires n <= |s| && (forall i :: 0 <= i < n ==> s[i] == '\n') && (n < |s| ==> s[n] != '\n')
    ensures NewlineRun(s) == n
  {
  }

  lemma TailFacts(gap: string)
    requires IsGap(gap)
    ensures IsBlanks(Tail(gap))
  {
  }

  lemma {:induction false} GapLosesInnerBlanks(gap: string, t: string)
    requires IsGap(gap) && BeginsWord(t)
    ensures DropTrailingBlanks(gap + t) == Newlines(NewlineCount(gap)) + Tail(gap) + DropTrailingBlanks(t)
    decreases |gap|
  {
    var n := BlankRun(gap);
    if n == |gap| {
      BlanksHaveNoNewline(gap);
      BlankRunOf(gap, t);
      SplitConcat(gap, t);
      BlanksStay(gap, t);
    } else {
      var rest := gap[n + 1..];
      GapLosesInnerBlanks(rest, t);
      FirstNewline(gap, n);
      BlanksBeforeNewline(gap, n, t);
      var t1 := DropTrailingBlanks(t);
      NewlinesStep(NewlineCount(rest), Tail(rest) + t1);
      ConcatAssoc(Newlines(NewlineCount(rest)), Tail(rest), t1);
      ConcatAssoc(Newlines(NewlineCount(rest) + 1), Tail(rest), t1);
    }
  }

  lemma BlanksStay(blanks: string, t: string)
    requires IsBlanks(blanks) && BeginsWord(t)
    ensures DropTrailingBlanks(blanks + t) == Newlines(0) + blanks + DropTrailingBlanks(t)
  {
    BlankRunOf(blanks, t);
    SplitConcat(blanks, t);
    assert Newlines(0) + blanks == blanks;
    if blanks == "" {
      assert blanks + t == t;
    } else if t == "" {
      assert blanks + t == blanks;
    }
  }

  lemma BlanksBeforeNewline(gap: string, n: nat, t: string)
    requires n < |gap| && gap[n] == '\n' && IsBlanks(gap[..n])
    ensures DropTrailingBlanks(gap + t) == "\n" + DropTrailingBlanks(gap[n + 1..] + t)
  {
    var s := gap + t;
    assert BlankRun(s) == n by {
      assert forall i :: 0 <= i < n ==> s[i] == gap[..n][i];
      BlankRunIs(s, n);
    }
    assert s[n + 1..] == gap[n + 1..] + t;
    if n == 0 {
      assert s[1..] == gap[1..] + t;
    }
  }

  lemma NewlinesStep(k: nat, t: string)
    ensures "\n" + (Newlines(k) + t) == Newlines(k + 1) + t
  {
  }

  lemma {:induction false} BlanksHaveNoNewline(gap: string)
    requires BlankRun(gap) == |gap|
    ensures IsBlanks(gap) && NewlineCount(gap) == 0 && Tail(gap) == gap
  {
    assert '\n' !in gap;
    NoNewlineCount(gap);
  }

  lemma {:induction false} NoNewlineCount(s: string)
    requires '\n' !in s
    ensures NewlineCount(s) == 0
  {
    if s != "" {
      NoNewlineCount(s[1..]);
    }
  }

  lemma {:induction false} FirstNewline(gap: string, n: nat)
    requires IsGap(gap) && n == BlankRun(gap) < |gap|
    ensures gap[n] == '\n' && IsBlanks(gap[..n])
    ensures NewlineCount(gap) == NewlineCount(gap[n + 1..]) + 1 && Tail(gap) == Tail(gap[n + 1..])
  {
    SkipBlanks(gap, n);
    assert gap[n..][1..] == gap[n + 1..];
    TailAfterNewline(gap[n..]);
  }

  lemma {:induction false} SkipBlanks(gap: string, n: nat)
    requires n < |gap| && gap[n] == '\n' && forall i :: 0 <= i < n ==> gap[i] != '\n'
    ensures NewlineCount(gap) == NewlineCount(gap[n..]) && Tail(gap) == Tail(gap[n..])
  {
    if n > 0 {
      assert gap[1..][n - 1..] == gap[n..];
      SkipBlanks(gap[1..], n - 1);
    }
  }

  lemma TailAfterNewline(s: string)
    requires s != "" && s[0] == '\n'
    ensures Tail(s) == Tail(s[1..])
  {
  }

  lemma NewlineRunOf(k: nat, t: string)
    requires t == "" || t[0] != '\n'
    ensures NewlineRun(Newlines(k) + t) == k
  {
    NewlineRunIs(Newlines(k) + t, k);
  }

  lemma {:induction false} BlanksPassNewlines(blanks: string, t: string)
    requires IsBlanks(blanks)
    ensures LimitNewlines(blanks + t) == blanks + LimitNewlines(t)
  {
    if blanks == "" {
      assert blanks + t == t;
    } else {
      BlanksPassNewlines(blanks[1..], t);
      assert (blanks + t)[1..] == blanks[1..] + t;
      LimitNewlinesAtOther(blanks + t, LimitNewlines(blanks[1..] + t));
    }
  }

  lemma GapKeepsTwoNewlines(k: nat, blanks: string, t: string)
    requires IsBlanks(blanks) && BeginsWord(t)
    ensures LimitNewlines(Newlines(k) + (blanks + t)) ==
            Newlines(if k >= 2 then 2 else k) + (blanks + LimitNewlines(t))
  {
    var s := Newlines(k) + (blanks + t);
    BlanksPassNewlines(blanks, t);
    if k == 0 {
      assert s == blanks + t;
      assert Newlines(0) + (blanks + LimitNewlines(t)) == blanks + LimitNewlines(t);
    } else {
      NewlineRunOf(k, blanks + t);
      SplitConcat(Newlines(k), blanks + t);
      LimitNewlinesAtRun(s, LimitNewlines(blanks + t));
      LimitedNewlines(k);
    }
  }

  lemma LimitedNewlines(k: nat)
    ensures Limited(Newlines(k)) == Newlines(if k >= 2 then 2 else k)
  {
  }

  lemma {:induction false} NewlinesPassBlanks(k: nat, t: string)
    ensures SqueezeBlanks(Newlines(k) + t) == Newlines(k) + SqueezeBlanks(t)
  {
    var s := Newlines(k) + t;
    if k == 0 {
      assert s == t;
    } else {
      NewlinesPassBlanks(k - 1, t);
      NewlinesStep(k - 1, t);
      assert s[0] == '\n' && s[1..] == Newlines(k - 1) + t;
      NewlinesStep(k - 1, SqueezeBlanks(t));
    }
  }

  lemma BlanksBecomeFew(blanks: string, t: string)
    requires IsBlanks(blanks) && BeginsWord(t)
    ensures SqueezeBlanks(blanks + t) == FewBlanks(blanks) + SqueezeBlanks(t)
  {
    var s := blanks + t;
    BlankRunOf(blanks, t);
    if blanks == "" {
      assert s == t;
    } else {
      SplitConcat(blanks, t);
      assert |blanks| == 1 ==> s[1..] == t && blanks == [s[0]];
    }
  }

  lemma GapCollapses(gap: string, t: string)
    requires IsGap(gap) && BeginsWord(t)
    ensures Passes(gap + t) == Collapsed(gap) + Passes(t)
  {
    var k, tail := NewlineCount(gap), Tail(gap);
    var m := if k >= 2 then 2 else k;
    TailFacts(gap);
    GapLosesInnerBlanks(gap, t);
    var t1 := DropTrailingBlanks(t);
    PassesBeginWord(t);
    ConcatAssoc(Newlines(k), tail, t1);
    GapKeepsTwoNewlines(k, tail, t1);
    PassesBeginWord(t1);
    NewlinesPassBlanks(m, tail + LimitNewlines(t1));
    BlanksBecomeFew(tail, LimitNewlines(t1));
    ConcatAssoc(Newlines(m), FewBlanks(tail), Passes(t));
  }

  lemma WovenBeginsWord(words: seq<string>, gaps: seq<string>)
    requires Alternating(words, gaps) && (gaps != [] ==> words[0] != "")
    ensures BeginsWord(Woven(words, gaps))
  {
    assert IsWord(words[0]);
  }

  /** The passes leave the words as they are and collapse every gap. */
  lemma {:induction false} PassesCollapseGaps(words: seq<string>, gaps: seq<string>)
    requires Alternating(words, gaps)
    ensures Passes(Woven(words, gaps)) == Woven(words, AllCollapsed(gaps))
    decreases |gaps|
  {
    if gaps == [] {
      LoneWord(words[0]);
    } else {
      var rest := Woven(words[1..], gaps[1..]);
      PassesCollapseGaps(words[1..], gaps[1..]);
      WovenBeginsWord(words[1..], gaps[1..]);
      GapCollapses(gaps[0], rest);
      PassWord(words[0], gaps[0] + rest);
      assert AllCollapsed(gaps)[1..] == AllCollapsed(gaps[1..]);
    }
  }

  lemma PassWord(word: string, t: string)
    requires IsWord(word)
    ensures Passes(word + t) == word + Passes(t)
  {
    WordBeforeTrailing(word, t);
    WordBeforeLimit(word, DropTrailingBlanks(t));
    WordBeforeSqueeze(word, LimitNewlines(DropTrailingBlanks(t)));
  }

  lemma EmptyPasses()
    ensures Passes("") == ""
  {
  }

  lemma LoneWord(word: string)
    requires IsWord(word)
    ensures Passes(word) == word
  {
    PassWord(word, "");
    EmptyPasses();
    assert word + "" == word;
  }

  /** A collapsed text: its words, its collapsed gaps, and nothing at the ends. */
  lemma CollapseByGaps(words: seq<string>, gaps: seq<string>)
    requires Alternating(words, gaps)
    ensures CollapsePasted(Woven(words, gaps)) == Strip(Woven(words, AllCollapsed(gaps)))
  {
    PassesCollapseGaps(words, gaps);
  }

  /** Every text is made of words and gaps. */
  lemma {:induction false} EveryTextIsWoven(s: string) returns (words: seq<string>, gaps: seq<string>)
    ensures Alternating(words, gaps) && Woven(words, gaps) == s
    ensures s != "" && IsGapChar(s[0]) ==> gaps != [] && words[0] == "" && gaps[0] != ""
  {
    if s == "" {
      words, gaps := [""], [];
    } else {
      var restWords, restGaps := EveryTextIsWoven(s[1..]);
      if !IsGapChar(s[0]) {
        words, gaps := [[s[0]] + restWords[0]] + restWords[1..], restGaps;
        WordGrows(s, restWords, restGaps);
      } else if restGaps != [] && restWords[0] == "" {
        words, gaps := restWords, [[s[0]] + restGaps[0]] + restGaps[1..];
        GapGrows(s, restWords, restGaps);
      } else {
        words, gaps := [""] + restWords, [[s[0]]] + restGaps;
        GapOpens(s, restWords, restGaps);
      }
    }
  }

  lemma WordGrows(s: string, words: seq<string>, gaps: seq<string>)
    requires s != "" && !IsGapChar(s[0]) && Alternating(words, gaps) && Woven(words, gaps) == s[1..]
    ensures var more := [[s[0]] + words[0]] + words[1..]; Alternating(more, gaps) && Woven(more, gaps) == s
  {
    var more := [[s[0]] + words[0]] + words[1..];
    assert more[1..] == words[1..];
    var rest := if gaps == [] then "" else gaps[0] + Woven(words[1..], gaps[1..]);
    assert Woven(words, gaps) == words[0] + rest && Woven(more, gaps) == more[0] + rest;
    assert s == [s[0]] + (words[0] + rest);
    ConcatAssoc([s[0]], words[0], rest);
  }

  lemma GapGrows(s: string, words: seq<string>, gaps: seq<string>)
    requires s != "" && IsGapChar(s[0]) && Alternating(words, gaps) && Woven(words, gaps) == s[1..]
    requires gaps != [] && words[0] == ""
    ensures var more := [[s[0]] + gaps[0]] + gaps[1..]; Alternating(words, more) && Woven(words, more) == s
  {
    LongerGap(words, gaps, [s[0]] + gaps[0]);
    var rest := Woven(words[1..], gaps[1..]);
    assert "" + (gaps[0] + rest) == gaps[0] + rest;
    assert s == [s[0]] + (gaps[0] + rest);
    ConcatAssoc([s[0]], gaps[0], rest);
  }

  lemma LongerGap(words: seq<string>, gaps: seq<string>, gap: string)
    requires Alternating(words, gaps) && gaps != [] && words[0] == "" && IsGap(gap)
    ensures var more := [gap] + gaps[1..];
            Alternating(words, more) && Woven(words, more) == gap + Woven(words[1..], gaps[1..])
  {
    var more := [gap] + gaps[1..];
    assert more[1..] == gaps[1..];
    var rest := Woven(words[1..], gaps[1..]);
    assert "" + (gap + rest) == gap + rest;
  }

  lemma GapOpens(s: string, words: seq<string>, gaps: seq<string>)
    requires s != "" && IsGapChar(s[0]) && Alternating(words, gaps) && Woven(words, gaps) == s[1..]
    requires gaps == [] || words[0] != ""
    ensures Alternating([""] + words, [[s[0]]] + gaps) && Woven([""] + words, [[s[0]]] + gaps) == s
  {
    var moreWords, moreGaps := [""] + words, [[s[0]]] + gaps;
    assert moreWords[1..] == words && moreGaps[1..] == gaps;
    assert s == [s[0]] + s[1..] && "" + ([s[0]] + s[1..]) == s;
  }

  // Carriage returns

  lemma {:induction false} DropReturnsConcat(a: string, b: string)
    ensures DropReturns(a + b) == DropReturns(a) + DropReturns(b)
  {
    if a == "" {
      assert a + b == b;
    } else {
      DropReturnsConcat(a[1..], b);
      Uncons(a, b);
      ConcatAssoc(if a[0] == '\r' then "" else [a[0]], DropReturns(a[1..]), DropReturns(b));
    }
  }

  lemma {:induction false} NothingDropped(s: string)
    requires '\r' !in s
    ensures DropReturns(s) == s
  {
    if s != "" {
      NothingDropped(s[1..]);
    }
  }

  /** Captured text is collapsed as if its carriage returns were not there. */
  lemma ReturnsVanish(a: string, b: string)
    ensures CollapseCaptured(a + "\r" + b) == CollapseCaptured(a + b)
    ensures '\r' !in a ==> CollapseCaptured(a) == CollapsePasted(a)
  {
    DropReturnsConcat(a + "\r", b);
    DropReturnsConcat(a, "\r");
    DropReturnsConcat(a, b);
    assert DropReturns("\r") == "" && DropReturns(a) + "" == DropReturns(a);
    if '\r' !in a {
      NothingDropped(a);
    }
  }
}
