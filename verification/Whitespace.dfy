/** Whitespace collapsing of captured and pasted text: three regular-expression passes and a strip.
    Each pass is written out as its leftmost greedy substitution. */
module Whitespace {
  import opened PyText

  predicate IsBlank(c: char) {
    c == ' ' || c == '\t'
  }

  /** The leading characters that satisfy a test. */
  function Run(s: string, test: char -> bool): (n: nat)
    ensures n <= |s| && (forall i :: 0 <= i < n ==> test(s[i])) && (n < |s| ==> !test(s[n]))
  {
    if s == "" || !test(s[0]) then 0 else 1 + Run(s[1..], test)
  }

  function BlankRun(s: string): (n: nat)
    ensures n <= |s| && (forall i :: 0 <= i < n ==> IsBlank(s[i])) && (n < |s| ==> !IsBlank(s[n]))
  {
    Run(s, IsBlank)
  }

  function NewlineRun(s: string): (n: nat)
    ensures n <= |s| && (forall i :: 0 <= i < n ==> s[i] == '\n') && (n < |s| ==> s[n] != '\n')
  {
    Run(s, c => c == '\n')
  }

  /** text.replace("\r", "") */
  function DropReturns(s: string): string {
    if s == "" then "" else (if s[0] == '\r' then "" else [s[0]]) + DropReturns(s[1..])
  }

  /** re.sub(r"[ \t]+\n", "\n", s) */
  function DropTrailingBlanks(s: string): string
    decreases |s|
  {
    if s == "" then "" else
      var n := BlankRun(s);
      if n == 0 then [s[0]] + DropTrailingBlanks(s[1..])
      else if n < |s| && s[n] == '\n' then "\n" + DropTrailingBlanks(s[n + 1..])
      else s[..n] + DropTrailingBlanks(s[n..])
  }

  /** re.sub(r"\n{3,}", "\n\n", s) */
  function LimitNewlines(s: string): string
    decreases |s|
  {
    if s == "" then "" else
      var n := NewlineRun(s);
      if n == 0 then [s[0]] + LimitNewlines(s[1..])
      else Limited(s[..n]) + LimitNewlines(s[n..])
  }

  function Limited(newlines: string): string {
    if |newlines| >= 3 then "\n\n" else newlines
  }

  /** re.sub(r"[ \t]{2,}", " ", s) */
  function SqueezeBlanks(s: string): string
    decreases |s|
  {
    if s == "" then "" else
      var n := BlankRun(s);
      if n >= 2 then " " + SqueezeBlanks(s[n..]) else [s[0]] + SqueezeBlanks(s[1..])
  }

  /** The collapsing of job_paste_parser. */
  function CollapsePasted(s: string): string {
    Strip(SqueezeBlanks(LimitNewlines(DropTrailingBlanks(s))))
  }

  /** The collapsing of capture_text_normalization, which first drops carriage returns. */
  function CollapseCaptured(s: string): string {
    CollapsePasted(DropReturns(s))
  }

  // ---------------------------------------------------------------------------------------------
  // The normal form
  // ---------------------------------------------------------------------------------------------

  ghost predicate NoBlankBeforeNewline(s: string) {
    forall i :: 0 <= i < |s| - 1 ==> !(IsBlank(s[i]) && s[i + 1] == '\n')
  }

  ghost predicate NoThreeNewlines(s: string) {
    forall i :: 0 <= i < |s| - 2 ==> !(s[i] == '\n' && s[i + 1] == '\n' && s[i + 2] == '\n')
  }

  ghost predicate NoTwoBlanks(s: string) {
    forall i :: 0 <= i < |s| - 1 ==> !(IsBlank(s[i]) && IsBlank(s[i + 1]))
  }

  ghost predicate NormalForm(s: string) {
    Trimmed(s) && NoBlankBeforeNewline(s) && NoThreeNewlines(s) && NoTwoBlanks(s)
  }

  /** Prepending one character. */
  lemma ConsKeeps(c: char, t: string)
    ensures NoBlankBeforeNewline(t) && (t == "" || !(IsBlank(c) && t[0] == '\n')) ==> NoBlankBeforeNewline([c] + t)
    ensures NoTwoBlanks(t) && (t == "" || !(IsBlank(c) && IsBlank(t[0]))) ==> NoTwoBlanks([c] + t)
    ensures NoThreeNewlines(t) && (|t| < 2 || !(c == '\n' && t[0] == '\n' && t[1] == '\n')) ==> NoThreeNewlines([c] + t)
  {
    var r := [c] + t;
    assert forall i :: 1 <= i < |r| ==> r[i] == t[i - 1];
  }

  lemma TailKeeps(s: string, n: nat)
    requires n <= |s|
    ensures NoBlankBeforeNewline(s) ==> NoBlankBeforeNewline(s[n..])
    ensures NoThreeNewlines(s) ==> NoThreeNewlines(s[n..])
    ensures NoTwoBlanks(s) ==> NoTwoBlanks(s[n..])
  {
  }

  // Pass 1

  lemma {:induction false} DropTrailingBlanksWorks(s: string)
    ensures NoBlankBeforeNewline(DropTrailingBlanks(s))
    ensures s != "" && BlankRun(s) == 0 ==> DropTrailingBlanks(s) != "" && DropTrailingBlanks(s)[0] == s[0]
    decreases |s|
  {
    if s != "" {
      var n := BlankRun(s);
      if n == 0 {
        DropTrailingBlanksWorks(s[1..]);
        ConsKeeps(s[0], DropTrailingBlanks(s[1..]));
      } else if n < |s| && s[n] == '\n' {
        DropTrailingBlanksWorks(s[n + 1..]);
        ConsKeeps('\n', DropTrailingBlanks(s[n + 1..]));
      } else {
        DropTrailingBlanksWorks(s[n..]);
        var t := DropTrailingBlanks(s[n..]);
        BlanksBefore(s[..n], t);
      }
    }
  }

  lemma BlanksBefore(blanks: string, t: string)
    requires forall i :: 0 <= i < |blanks| ==> IsBlank(blanks[i])
    requires NoBlankBeforeNewline(t) && (t == "" || t[0] != '\n')
    ensures NoBlankBeforeNewline(blanks + t)
  {
    var r := blanks + t;
    forall i | 0 <= i < |r| - 1 ensures !(IsBlank(r[i]) && r[i + 1] == '\n') {
      if i >= |blanks| {
        assert r[i] == t[i - |blanks|] && r[i + 1] == t[i + 1 - |blanks|];
      }
    }
  }

  lemma {:induction false} DropTrailingBlanksFixes(s: string)
    requires NoBlankBeforeNewline(s)
    ensures DropTrailingBlanks(s) == s
    decreases |s|
  {
    if s != "" {
      var n := BlankRun(s);
      var step := if n == 0 then 1 else n;
      TailKeepsBlanks(s, step);
      DropTrailingBlanksFixes(s[step..]);
      Rejoin(s, step);
      assert 0 < n < |s| ==> IsBlank(s[n - 1]) && s[n] != '\n';
      DropTrailingBlanksStep(s, s[step..]);
    }
  }

  lemma DropTrailingBlanksStep(s: string, t: string)
    requires s != "" && var n := BlankRun(s);
             && (n < |s| ==> n == 0 || s[n] != '\n')
             && t == DropTrailingBlanks(s[if n == 0 then 1 else n..])
    ensures DropTrailingBlanks(s) == s[..if BlankRun(s) == 0 then 1 else BlankRun(s)] + t
  {
  }

  lemma TailKeepsBlanks(s: string, n: nat)
    requires n <= |s| && NoBlankBeforeNewline(s)
    ensures NoBlankBeforeNewline(s[n..])
  {
  }

  lemma Rejoin(s: string, n: nat)
    requires n <= |s|
    ensures s[..n] + s[n..] == s
  {
  }

  // Pass 2 keeps what pass 1 established

  /** One or two newlines in front of a text that does not begin with one. */
  lemma FewNewlinesBefore(newlines: string, t: string)
    requires newlines == "\n" || newlines == "\n\n"
    requires NoBlankBeforeNewline(t) && NoThreeNewlines(t) && (t == "" || t[0] != '\n')
    ensures NoBlankBeforeNewline(newlines + t) && NoThreeNewlines(newlines + t)
  {
    ConsKeeps('\n', t);
    ConsKeeps('\n', "\n" + t);
    assert "\n" + ("\n" + t) == "\n\n" + t;
  }

  lemma LimitedRun(newlines: string)
    requires newlines != "" && forall i :: 0 <= i < |newlines| ==> newlines[i] == '\n'
    ensures Limited(newlines) == "\n" || Limited(newlines) == "\n\n"
  {
    if |newlines| == 1 {
      assert newlines == "\n";
    } else if |newlines| == 2 {
      assert newlines == "\n\n";
    }
  }

  lemma {:induction false} LimitNewlinesWorks(s: string)
    requires NoBlankBeforeNewline(s)
    ensures NoBlankBeforeNewline(LimitNewlines(s)) && NoThreeNewlines(LimitNewlines(s))
    ensures s != "" ==> LimitNewlines(s) != "" && LimitNewlines(s)[0] == s[0]
    decreases |s|
  {
    if s != "" {
      var n := NewlineRun(s);
      TailKeeps(s, 1);
      TailKeeps(s, n);
      if n == 0 {
        LimitNewlinesWorks(s[1..]);
        ConsKeeps(s[0], LimitNewlines(s[1..]));
      } else {
        LimitNewlinesWorks(s[n..]);
        LimitNewlinesAtRun(s, LimitNewlines(s[n..]));
        LimitedRun(s[..n]);
        FewNewlinesBefore(Limited(s[..n]), LimitNewlines(s[n..]));
      }
    }
  }

  lemma FewNewlines(s: string)
    requires NoThreeNewlines(s)
    ensures NewlineRun(s) <= 2
  {
    assert |s| >= 3 ==> !(s[0] == '\n' && s[0 + 1] == '\n' && s[0 + 2] == '\n');
  }

  /** One step of LimitNewlines at a run of newlines, and at any other character. */
  lemma LimitNewlinesAtRun(s: string, t: string)
    requires s != "" && NewlineRun(s) > 0 && t == LimitNewlines(s[NewlineRun(s)..])
    ensures LimitNewlines(s) == Limited(s[..NewlineRun(s)]) + t
  {
  }

  lemma LimitNewlinesAtOther(s: string, t: string)
    requires s != "" && NewlineRun(s) == 0 && t == LimitNewlines(s[1..])
    ensures LimitNewlines(s) == [s[0]] + t
  {
  }

  lemma TailKeepsNewlines(s: string, n: nat)
    requires n <= |s| && NoThreeNewlines(s)
    ensures NoThreeNewlines(s[n..])
  {
  }

  lemma {:induction false} LimitNewlinesFixes(s: string)
    requires NoThreeNewlines(s)
    ensures LimitNewlines(s) == s
    decreases |s|
  {
    if s != "" {
      var n := NewlineRun(s);
      var step := if n == 0 then 1 else n;
      TailKeepsNewlines(s, step);
      LimitNewlinesFixes(s[step..]);
      Rejoin(s, step);
      if n == 0 {
        LimitNewlinesAtOther(s, s[1..]);
      } else {
        FewNewlines(s);
        LimitNewlinesAtRun(s, s[n..]);
      }
    }
  }

  // Pass 3 keeps what passes 1 and 2 established

  /** The first two characters of the output are newlines only if those of the input are. */
  lemma {:induction false} NewlinesComeFromNewlines(s: string)
    ensures var t := SqueezeBlanks(s);
            && (t != "" && t[0] == '\n' ==> s != "" && s[0] == '\n')
            && (|t| >= 2 && t[0] == '\n' && t[1] == '\n' ==> |s| >= 2 && s[0] == '\n' && s[1] == '\n')
    decreases |s|
  {
    if s != "" && BlankRun(s) < 2 {
      NewlinesComeFromNewlines(s[1..]);
    }
  }

  lemma {:induction false} SqueezeBlanksWorks(s: string)
    requires NoBlankBeforeNewline(s) && NoThreeNewlines(s)
    ensures NoBlankBeforeNewline(SqueezeBlanks(s)) && NoThreeNewlines(SqueezeBlanks(s)) && NoTwoBlanks(SqueezeBlanks(s))
    ensures s != "" ==> SqueezeBlanks(s) != "" && (BlankRun(s) == 0 ==> SqueezeBlanks(s)[0] == s[0])
    ensures s != "" && BlankRun(s) == 0 ==> SqueezeBlanks(s)[1..] == SqueezeBlanks(s[1..])
    ensures s != "" && BlankRun(s) > 0 ==> IsBlank(SqueezeBlanks(s)[0])
    decreases |s|
  {
    if s != "" {
      var n := BlankRun(s);
      TailKeeps(s, 1);
      TailKeeps(s, n);
      if n >= 2 {
        SqueezeBlanksWorks(s[n..]);
        var t := SqueezeBlanks(s[n..]);
        assert n < |s| ==> IsBlank(s[n - 1]) && s[n] != '\n' && s[n..][0] == s[n];
        ConsKeeps(' ', t);
      } else {
        SqueezeBlanksWorks(s[1..]);
        var t := SqueezeBlanks(s[1..]);
        NewlinesComeFromNewlines(s[1..]);
        assert |s| >= 3 ==> !(s[0] == '\n' && s[0 + 1] == '\n' && s[0 + 2] == '\n');
        ConsKeeps(s[0], t);
      }
    }
  }

  lemma {:induction false} SqueezeBlanksFixes(s: string)
    requires NoTwoBlanks(s)
    ensures SqueezeBlanks(s) == s
    decreases |s|
  {
    if s != "" {
      assert |s| >= 2 ==> !(IsBlank(s[0]) && IsBlank(s[0 + 1]));
      TailKeeps(s, 1);
      SqueezeBlanksFixes(s[1..]);
    }
  }

  // The strip keeps what all three established

  lemma SliceKeeps(s: string, i: nat, j: nat)
    requires i <= j <= |s|
    ensures NoBlankBeforeNewline(s) ==> NoBlankBeforeNewline(s[i..j])
    ensures NoThreeNewlines(s) ==> NoThreeNewlines(s[i..j])
    ensures NoTwoBlanks(s) ==> NoTwoBlanks(s[i..j])
    ensures '\r' !in s ==> '\r' !in s[i..j]
  {
  }

  // ---------------------------------------------------------------------------------------------
  // Main results
  // ---------------------------------------------------------------------------------------------

  /** Collapsing always reaches the normal form. */
  lemma CollapsedIsNormal(s: string)
    ensures NormalForm(CollapsePasted(s))
  {
    var a := DropTrailingBlanks(s);
    DropTrailingBlanksWorks(s);
    var b := LimitNewlines(a);
    LimitNewlinesWorks(a);
    var c := SqueezeBlanks(b);
    SqueezeBlanksWorks(b);
    StripTrims(c);
    var i, j := StripSlice(c);
    SliceKeeps(c, i, j);
  }

  /** The texts collapsing leaves alone are exactly the normal forms. */
  lemma FixedIffNormal(s: string)
    ensures CollapsePasted(s) == s <==> NormalForm(s)
  {
    CollapsedIsNormal(s);
    if NormalForm(s) {
      DropTrailingBlanksFixes(s);
      LimitNewlinesFixes(s);
      SqueezeBlanksFixes(s);
      StripTrims(s);
    }
  }

  /** Collapsing twice is collapsing once. */
  lemma CollapsePastedIdempotent(s: string)
    ensures CollapsePasted(CollapsePasted(s)) == CollapsePasted(s)
  {
    CollapsedIsNormal(s);
    FixedIffNormal(CollapsePasted(s));
  }

  lemma {:induction false} DropReturnsFacts(s: string)
    ensures '\r' !in DropReturns(s)
    ensures '\r' !in s ==> DropReturns(s) == s
  {
    if s != "" {
      DropReturnsFacts(s[1..]);
      assert s == [s[0]] + s[1..];
    }
  }

  /** A pass deletes characters or puts in a blank or newlines, so it brings in no carriage return. */
  lemma {:induction false} PassesAddNoReturn(s: string)
    requires '\r' !in s
    ensures '\r' !in DropTrailingBlanks(s) && '\r' !in LimitNewlines(s) && '\r' !in SqueezeBlanks(s)
    decreases |s|
  {
    if s != "" {
      PassesAddNoReturn(s[1..]);
      var n, m := BlankRun(s), NewlineRun(s);
      if n > 0 {
        PassesAddNoReturn(s[n..]);
        if n < |s| {
          PassesAddNoReturn(s[n + 1..]);
        }
      }
      if m > 0 {
        PassesAddNoReturn(s[m..]);
      }
    }
  }

  lemma CollapseAddsNoReturn(s: string)
    requires '\r' !in s
    ensures '\r' !in CollapsePasted(s)
  {
    PassesAddNoReturn(s);
    PassesAddNoReturn(DropTrailingBlanks(s));
    PassesAddNoReturn(LimitNewlines(DropTrailingBlanks(s)));
    var c := SqueezeBlanks(LimitNewlines(DropTrailingBlanks(s)));
    var i, j := StripSlice(c);
    SliceKeeps(c, i, j);
  }

  /** The same for captured text, whose normal form also has no carriage return. */
  lemma CollapseCapturedIdempotent(s: string)
    ensures NormalForm(CollapseCaptured(s)) && '\r' !in CollapseCaptured(s)
    ensures CollapseCaptured(CollapseCaptured(s)) == CollapseCaptured(s)
  {
    DropReturnsFacts(s);
    CollapsedIsNormal(DropReturns(s));
    CollapseAddsNoReturn(DropReturns(s));
    DropReturnsFacts(CollapseCaptured(s));
    FixedIffNormal(CollapseCaptured(s));
  }

  // ---------------------------------------------------------------------------------------------
  // Nothing but whitespace is lost
  // ---------------------------------------------------------------------------------------------

  /** The characters of a text that are not whitespace, in order. */
  function Ink(s: string): string {
    if s == "" then "" else (if IsSpace(s[0]) then "" else [s[0]]) + Ink(s[1..])
  }

  lemma InkCons(c: char, t: string)
    ensures Ink([c] + t) == (if IsSpace(c) then "" else [c]) + Ink(t)
  {
    assert ([c] + t)[1..] == t;
  }

  lemma {:induction false} InkConcat(a: string, b: string)
    ensures Ink(a + b) == Ink(a) + Ink(b)
  {
    if a == "" {
      assert a + b == b;
    } else {
      InkConcat(a[1..], b);
      assert (a + b)[1..] == a[1..] + b;
      ConcatAssoc(if IsSpace(a[0]) then "" else [a[0]], Ink(a[1..]), Ink(b));
    }
  }

  lemma {:induction false} InkOfSpaces(s: string)
    requires forall i :: 0 <= i < |s| ==> IsSpace(s[i])
    ensures Ink(s) == ""
  {
    if s != "" {
      InkOfSpaces(s[1..]);
    }
  }

  /** Dropping leading whitespace keeps the ink. */
  lemma InkSkips(s: string, n: nat)
    requires n <= |s| && forall i :: 0 <= i < n ==> IsSpace(s[i])
    ensures Ink(s) == Ink(s[n..])
  {
    assert s == s[..n] + s[n..];
    InkConcat(s[..n], s[n..]);
    InkOfSpaces(s[..n]);
  }

  lemma {:induction false} DropTrailingBlanksKeepsInk(s: string)
    ensures Ink(DropTrailingBlanks(s)) == Ink(s)
    decreases |s|
  {
    if s != "" {
      var n := BlankRun(s);
      if n == 0 {
        DropTrailingBlanksKeepsInk(s[1..]);
        InkCons(s[0], DropTrailingBlanks(s[1..]));
      } else if n < |s| && s[n] == '\n' {
        DropTrailingBlanksKeepsInk(s[n + 1..]);
        InkSkips(s, n + 1);
        InkCons('\n', DropTrailingBlanks(s[n + 1..]));
      } else {
        DropTrailingBlanksKeepsInk(s[n..]);
        InkSkips(s, n);
        InkOfSpaces(s[..n]);
        InkConcat(s[..n], DropTrailingBlanks(s[n..]));
      }
    }
  }

  lemma {:induction false} LimitNewlinesKeepsInk(s: string)
    ensures Ink(LimitNewlines(s)) == Ink(s)
    decreases |s|
  {
    if s != "" {
      var n := NewlineRun(s);
      if n == 0 {
        LimitNewlinesKeepsInk(s[1..]);
        InkCons(s[0], LimitNewlines(s[1..]));
      } else {
        LimitNewlinesKeepsInk(s[n..]);
        InkSkips(s, n);
        var kept := Limited(s[..n]);
        assert forall i :: 0 <= i < |kept| ==> kept[i] == '\n';
        InkOfSpaces(kept);
        InkConcat(kept, LimitNewlines(s[n..]));
      }
    }
  }

  lemma {:induction false} SqueezeBlanksKeepsInk(s: string)
    ensures Ink(SqueezeBlanks(s)) == Ink(s)
    decreases |s|
  {
    if s != "" {
      var n := BlankRun(s);
      if n >= 2 {
        SqueezeBlanksKeepsInk(s[n..]);
        InkSkips(s, n);
        InkCons(' ', SqueezeBlanks(s[n..]));
      } else {
        SqueezeBlanksKeepsInk(s[1..]);
        InkCons(s[0], SqueezeBlanks(s[1..]));
      }
    }
  }

  lemma StripKeepsInk(s: string)
    ensures Ink(Strip(s)) == Ink(s)
  {
    var a, b := StripSlice(s);
    InkSkips(s, a);
    assert s[a..] == s[a..b] + s[b..];
    InkConcat(s[a..b], s[b..]);
    InkOfSpaces(s[b..]);
  }

  /** Collapsing keeps every character that is not whitespace, in order. */
  lemma CollapseKeepsInk(s: string)
    ensures Ink(CollapsePasted(s)) == Ink(s)
  {
    DropTrailingBlanksKeepsInk(s);
    LimitNewlinesKeepsInk(DropTrailingBlanks(s));
    SqueezeBlanksKeepsInk(LimitNewlines(DropTrailingBlanks(s)));
    StripKeepsInk(SqueezeBlanks(LimitNewlines(DropTrailingBlanks(s))));
  }
}
