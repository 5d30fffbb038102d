/**
 * The cleanup the PDF extraction route applies to extracted text
 * (app/api/extract-pdf/route.ts, lines 42-46): trim, turn every run of three
 * or more line breaks into one blank line, turn every run of whitespace into a
 * single space, and trim again.
 *
 * Both replacements are modelled the way the regular expressions scan:
 * left to right, each match a maximal run. For the first one, a greedy
 * `{3,}` over single-character or `\r\n` units, with backtracking, matches
 * at the first position of a run of `\r`/`\n` characters whose length is at
 * least 3 and extends to the run's end; shorter runs are not matched.
 *
 * The proofs go through two one-pass machines: `SqueezeFrom` (the whitespace
 * replacement, one character at a time) and `TidyFrom` (the whole
 * pipeline: words separated by single spaces).
 */
module TextCleanup {
  import opened Strings

  predicate IsLineBreak(c: char)
  {
    c == '\n' || c == '\r'
  }

  /** The length of the run of `inRun` characters that starts `s`. */
  function RunLength(s: string, inRun: char -> bool): (k: nat)
    requires s != [] && inRun(s[0])
    ensures 1 <= k <= |s|
    ensures forall i :: 0 <= i < k ==> inRun(s[i])
    ensures k == |s| || !inRun(s[k])
  {
    if |s| > 1 && inRun(s[1]) then 1 + RunLength(s[1..], inRun) else 1
  }

  /** The first replacement: a run of three or more line breaks becomes
      two newlines; shorter runs stay. */
  function ReplaceBreakRuns(s: string): string
    decreases |s|
  {
    if s == [] then []
    else if IsLineBreak(s[0]) then
      var k := RunLength(s, IsLineBreak);
      (if k >= 3 then "\n\n" else s[..k]) + ReplaceBreakRuns(s[k..])
    else [s[0]] + ReplaceBreakRuns(s[1..])
  }

  /** The second replacement: every whitespace run becomes one space. */
  function ReplaceWhitespaceRuns(s: string): string
    decreases |s|
  {
    if s == [] then []
    else if IsWhitespace(s[0]) then
      var k := RunLength(s, IsWhitespace);
      " " + ReplaceWhitespaceRuns(s[k..])
    else [s[0]] + ReplaceWhitespaceRuns(s[1..])
  }

  /** The cleanup of lines 42-46. */
  function Clean(text: string): string
  {
    Trim(ReplaceWhitespaceRuns(ReplaceBreakRuns(Trim(text))))
  }

  /** The characters of `s` that are not whitespace, in order. */
  function NonWhitespace(s: string): string
  {
    if s == [] then []
    else if IsWhitespace(s[0]) then NonWhitespace(s[1..])
    else [s[0]] + NonWhitespace(s[1..])
  }

  /** Every whitespace character is a space followed by a non-whitespace
      character: there are no tabs or line breaks, no two spaces in a row
      and no trailing space. */
  predicate SingleSpaced(s: string)
  {
    forall i | 0 <= i < |s| && IsWhitespace(s[i]) :: s[i] == ' ' && i + 1 < |s| && !IsWhitespace(s[i + 1])
  }

  /** The shape of cleaned text. */
  predicate Normalized(s: string)
  {
    IsTrimmed(s) && SingleSpaced(s)
  }

  /** `\s+` replacement one character at a time: `pending` records that
      whitespace has been skipped since the last character written. */
  function SqueezeFrom(s: string, pending: bool): string
  {
    if s == [] then (if pending then " " else [])
    else if IsWhitespace(s[0]) then SqueezeFrom(s[1..], true)
    else (if pending then " " else []) + [s[0]] + SqueezeFrom(s[1..], false)
  }

  /** The whole cleanup in one pass: whitespace before the first word is
      dropped, whitespace between words becomes one space, whitespace after
      the last word is dropped. */
  function TidyFrom(s: string, started: bool, pending: bool): string
  {
    if s == [] then []
    else if IsWhitespace(s[0]) then TidyFrom(s[1..], started, started)
    else (if pending then " " else []) + [s[0]] + TidyFrom(s[1..], true, false)
  }

  /** A non-empty stretch of whitespace is absorbed into the pending space. */
  lemma {:induction false} AbsorbWhitespace(w: string, r: string, pending: bool)
    requires w != [] && AllWhitespace(w)
    ensures SqueezeFrom(w + r, pending) == SqueezeFrom(r, true)
    decreases |w|
  {
    assert (w + r)[0] == w[0];
    assert (w + r)[1..] == w[1..] + r;
    if |w| > 1 {
      AbsorbWhitespace(w[1..], r, true);
    }
  }

  /** Before a word or at the end, a pending space is written once. */
  lemma PendingSpace(r: string)
    requires r == [] || !IsWhitespace(r[0])
    ensures SqueezeFrom(r, true) == " " + SqueezeFrom(r, false)
  {
  }

  /** The run-by-run replacement of `\s+` and the one-character-at-a-time
      machine agree. */
  lemma {:induction false} WhitespaceRunsSqueeze(s: string)
    ensures ReplaceWhitespaceRuns(s) == SqueezeFrom(s, false)
    decreases |s|
  {
    if s == [] {
    } else if IsWhitespace(s[0]) {
      var k := RunLength(s, IsWhitespace);
      WhitespaceRunsSqueeze(s[k..]);
      assert s == s[..k] + s[k..];
      AbsorbWhitespace(s[..k], s[k..], false);
      PendingSpace(s[k..]);
    } else {
      WhitespaceRunsSqueeze(s[1..]);
    }
  }

  /** Replacing runs of three or more line breaks with two line breaks is
      invisible to the `\s+` replacement that follows it. */
  lemma {:induction false} BreakRunsInvisible(s: string, pending: bool)
    ensures SqueezeFrom(ReplaceBreakRuns(s), pending) == SqueezeFrom(s, pending)
    decreases |s|
  {
    if s == [] {
    } else if IsLineBreak(s[0]) {
      var k := RunLength(s, IsLineBreak);
      var run := if k >= 3 then "\n\n" else s[..k];
      assert AllWhitespace(run);
      BreakRunsInvisible(s[k..], true);
      AbsorbWhitespace(run, ReplaceBreakRuns(s[k..]), pending);
      assert s == s[..k] + s[k..];
      AbsorbWhitespace(s[..k], s[k..], pending);
    } else {
      BreakRunsInvisible(s[1..], false);
      BreakRunsInvisible(s[1..], true);
      assert ReplaceBreakRuns(s) == [s[0]] + ReplaceBreakRuns(s[1..]);
    }
  }

  /** Once a word has been written, the squeeze and the tidy machines agree
      up to trailing whitespace. */
  lemma {:induction false} SqueezeAfterWord(s: string, pending: bool) returns (t: string)
    ensures AllWhitespace(t)
    ensures SqueezeFrom(s, pending) == TidyFrom(s, true, pending) + t
    decreases |s|
  {
    if s == [] {
      t := if pending then " " else [];
    } else if IsWhitespace(s[0]) {
      t := SqueezeAfterWord(s[1..], true);
    } else {
      t := SqueezeAfterWord(s[1..], false);
    }
  }

  /** From the start, the squeeze and the tidy machines agree up to leading
      and trailing whitespace. */
  lemma {:induction false} SqueezeAroundTidy(s: string, pending: bool) returns (l: string, t: string)
    ensures AllWhitespace(l) && AllWhitespace(t)
    ensures SqueezeFrom(s, pending) == l + TidyFrom(s, false, false) + t
    decreases |s|
  {
    if s == [] {
      l, t := if pending then " " else [], [];
    } else if IsWhitespace(s[0]) {
      l, t := SqueezeAroundTidy(s[1..], true);
    } else {
      l := if pending then " " else [];
      t := SqueezeAfterWord(s[1..], false);
    }
  }

  /** The output of the tidy machine is single-spaced and ends in a word;
      from the start it also begins with a word. */
  lemma {:induction false} TidyShape(s: string, started: bool, pending: bool)
    requires pending ==> started
    ensures var r := TidyFrom(s, started, pending);
      && SingleSpaced(r)
      && (r == [] || !IsWhitespace(r[|r| - 1]))
      && (!started ==> r == [] || !IsWhitespace(r[0]))
    decreases |s|
  {
    if s == [] {
    } else if IsWhitespace(s[0]) {
      TidyShape(s[1..], started, started);
    } else {
      var rest := TidyFrom(s[1..], true, false);
      TidyShape(s[1..], true, false);
      var word := [s[0]] + rest;
      assert SingleSpaced(word) by {
        forall i | 0 <= i < |word| && IsWhitespace(word[i])
          ensures word[i] == ' ' && i + 1 < |word| && !IsWhitespace(word[i + 1])
        {
          assert word[i] == rest[i - 1];
          assert i + 1 < |word| ==> word[i + 1] == rest[i];
        }
      }
      if pending {
        var r := " " + word;
        assert r == " " + [s[0]] + rest;
        assert SingleSpaced(r) by {
          forall i | 0 <= i < |r| && IsWhitespace(r[i])
            ensures r[i] == ' ' && i + 1 < |r| && !IsWhitespace(r[i + 1])
          {
            if i > 0 {
              assert r[i] == word[i - 1];
              assert i + 1 < |r| ==> r[i + 1] == word[i];
            }
          }
        }
      }
    }
  }

  /** Whitespace after the input changes nothing. */
  lemma {:induction false} TidyIgnoresTrailing(s: string, t: string, started: bool, pending: bool)
    requires AllWhitespace(t)
    ensures TidyFrom(s + t, started, pending) == TidyFrom(s, started, pending)
    decreases |s| + |t|
  {
    if s == [] {
      if t != [] {
        TidyIgnoresTrailing([], t[1..], started, started);
        assert t[1..] == [] + t[1..];
      }
      assert [] + t == t;
    } else {
      assert (s + t)[0] == s[0];
      assert (s + t)[1..] == s[1..] + t;
      if IsWhitespace(s[0]) {
        TidyIgnoresTrailing(s[1..], t, started, started);
      } else {
        TidyIgnoresTrailing(s[1..], t, true, false);
      }
    }
  }

  /** Whitespace before the input changes nothing. */
  lemma {:induction false} TidyIgnoresLeading(l: string, s: string)
    requires AllWhitespace(l)
    ensures TidyFrom(l + s, false, false) == TidyFrom(s, false, false)
    decreases |l|
  {
    if l != [] {
      assert (l + s)[0] == l[0] && IsWhitespace(l[0]);
      assert (l + s)[1..] == l[1..] + s;
      assert TidyFrom(l + s, false, false) == TidyFrom(l[1..] + s, false, false);
      TidyIgnoresLeading(l[1..], s);
    } else {
      assert l + s == s;
    }
  }

  /** Tidying keeps every non-whitespace character, in order. */
  lemma {:induction false} TidyKeepsNonWhitespace(s: string, started: bool, pending: bool)
    ensures NonWhitespace(TidyFrom(s, started, pending)) == NonWhitespace(s)
    decreases |s|
  {
    if s == [] {
    } else if IsWhitespace(s[0]) {
      TidyKeepsNonWhitespace(s[1..], started, started);
    } else {
      var rest := TidyFrom(s[1..], true, false);
      TidyKeepsNonWhitespace(s[1..], true, false);
      var word := [s[0]] + rest;
      assert NonWhitespace(word) == [s[0]] + NonWhitespace(rest) by {
        assert word[1..] == rest;
      }
      if pending {
        var r := " " + word;
        assert r[1..] == word;
        assert r == " " + [s[0]] + rest;
      }
    }
  }

  /** Trimming the input first changes nothing for the tidy machine. */
  lemma TidyOfTrim(x: string)
    ensures TidyFrom(Trim(x), false, false) == TidyFrom(x, false, false)
  {
    var t := Trim(x);
    var l, e := TrimParts(x);
    Associate(l, t, e);
    TidyIgnoresLeading(l, t + e);
    TidyIgnoresTrailing(t, e, false, false);
  }

  /** The two replacements followed by `trim()` are the tidy machine. */
  lemma ReplaceAndTrimIsTidy(t: string)
    ensures Trim(ReplaceWhitespaceRuns(ReplaceBreakRuns(t))) == TidyFrom(t, false, false)
  {
    WhitespaceRunsSqueeze(ReplaceBreakRuns(t));
    BreakRunsInvisible(t, false);
    var l, e := SqueezeAroundTidy(t, false);
    TidyShape(t, false, false);
    TrimAround(l, TidyFrom(t, false, false), e);
  }

  /** The cleanup is the one-pass tidy machine. */
  lemma CleanIsTidy(x: string)
    ensures Clean(x) == TidyFrom(x, false, false)
  {
    ReplaceAndTrimIsTidy(Trim(x));
    TidyOfTrim(x);
  }

  /** Cleaned text has no whitespace at either end, no whitespace other than
      single spaces, and so no line breaks: paragraph breaks do not survive. */
  lemma CleanShape(x: string)
    ensures Normalized(Clean(x))
    ensures '\n' !in Clean(x) && '\r' !in Clean(x)
  {
    CleanIsTidy(x);
    TidyShape(x, false, false);
    SingleSpacedHasNoBreaks(Clean(x));
  }

  lemma SingleSpacedHasNoBreaks(s: string)
    requires SingleSpaced(s)
    ensures '\n' !in s && '\r' !in s
  {
    forall i | 0 <= i < |s|
      ensures s[i] != '\n' && s[i] != '\r'
    {
      if IsWhitespace(s[i]) {
        assert s[i] == ' ';
      }
    }
  }

  /** The line-break step at line 44 has no effect on the result: cleaning
      is trimming the `\s+`-replaced text. */
  lemma BreakStepHasNoEffect(x: string)
    ensures Clean(x) == Trim(ReplaceWhitespaceRuns(x))
  {
    CleanIsTidy(x);
    WhitespaceRunsSqueeze(x);
    var l, t := SqueezeAroundTidy(x, false);
    TidyShape(x, false, false);
    TrimAround(l, TidyFrom(x, false, false), t);
  }

  /** The tidy machine leaves a normalized string unchanged. */
  lemma {:induction false} TidyOfNormalized(s: string, started: bool)
    requires SingleSpaced(s)
    requires !started ==> s == [] || !IsWhitespace(s[0])
    ensures TidyFrom(s, started, false) == s
    decreases |s|
  {
    if s == [] {
    } else if IsWhitespace(s[0]) {
      var w := s[2..];
      assert s[0] == ' ' && !IsWhitespace(s[1]);
      assert SingleSpaced(w) by {
        forall i | 0 <= i < |w| && IsWhitespace(w[i])
          ensures w[i] == ' ' && i + 1 < |w| && !IsWhitespace(w[i + 1])
        {
          assert w[i] == s[i + 2];
        }
      }
      TidyOfNormalized(w, true);
      assert s[1..][1..] == w;
      assert s == [' '] + [s[1]] + w;
    } else {
      var w := s[1..];
      assert SingleSpaced(w) by {
        forall i | 0 <= i < |w| && IsWhitespace(w[i])
          ensures w[i] == ' ' && i + 1 < |w| && !IsWhitespace(w[i + 1])
        {
          assert w[i] == s[i + 1];
        }
      }
      TidyOfNormalized(w, true);
      assert s == [s[0]] + w;
    }
  }

  /** Cleaning cleaned text changes nothing. */
  lemma CleanIdempotent(x: string)
    ensures Clean(Clean(x)) == Clean(x)
  {
    var r := Clean(x);
    CleanShape(x);
    CleanIsTidy(r);
    TidyOfNormalized(r, false);
  }

  /** Cleaning keeps every non-whitespace character of the input, in order,
      and adds none. */
  lemma CleanKeepsNonWhitespace(x: string)
    ensures NonWhitespace(Clean(x)) == NonWhitespace(x)
  {
    CleanIsTidy(x);
    TidyKeepsNonWhitespace(x, false, false);
  }

  /** A string has no non-whitespace character exactly when it is all
      whitespace. */
  lemma {:induction false} NonWhitespaceEmpty(s: string)
    ensures NonWhitespace(s) == [] <==> AllWhitespace(s)
    decreases |s|
  {
    if s != [] {
      NonWhitespaceEmpty(s[1..]);
      if AllWhitespace(s[1..]) && IsWhitespace(s[0]) {
        assert forall i :: 1 <= i < |s| ==> s[i] == s[1..][i - 1];
      }
    }
  }

  /** Cleaning yields the empty string exactly for all-whitespace input. */
  lemma CleanEmptyIff(x: string)
    ensures Clean(x) == [] <==> AllWhitespace(x)
  {
    CleanKeepsNonWhitespace(x);
    NonWhitespaceEmpty(x);
    NonWhitespaceEmpty(Clean(x));
    CleanShape(x);
  }
}
