/**
 * JavaScript string primitives used throughout the application: the
 * whitespace class shared by `String.prototype.trim` and the regular
 * expression escape `\s`, trimming, `includes`, `startsWith`, and
 * `split`/`join` on a separator.
 */
module Strings {

  /** The characters JavaScript treats as whitespace: `trim()` strips exactly
      these, and `\s` in a regular expression matches exactly these
      (WhiteSpace and LineTerminator of the ECMAScript grammar). */
  predicate IsWhitespace(c: char)
  {
    || c == ' ' || c == '\t' || c == '\n' || c == '\r'
    || c as int == 0x0B || c as int == 0x0C
    || c as int == 0x00A0 || c as int == 0x1680
    || (0x2000 <= c as int <= 0x200A)
    || c as int == 0x2028 || c as int == 0x2029
    || c as int == 0x202F || c as int == 0x205F
    || c as int == 0x3000 || c as int == 0xFEFF
  }

  predicate AllWhitespace(s: string)
  {
    forall i :: 0 <= i < |s| ==> IsWhitespace(s[i])
  }

  /** Drops the leading whitespace of `s`. */
  function TrimStart(s: string): (r: string)
    ensures |r| <= |s| && r == s[|s| - |r|..]
    ensures AllWhitespace(s[..|s| - |r|])
    ensures r == [] || !IsWhitespace(r[0])
  {
    if s != [] && IsWhitespace(s[0]) then TrimStart(s[1..]) else s
  }

  /** Drops the trailing whitespace of `s`. */
  function TrimEnd(s: string): (r: string)
    ensures |r| <= |s| && r == s[..|r|]
    ensures AllWhitespace(s[|r|..])
    ensures r == [] || !IsWhitespace(r[|r| - 1])
  {
    if s != [] && IsWhitespace(s[|s| - 1]) then
      var r := TrimEnd(s[..|s| - 1]);
      assert s[|r|..] == s[..|s| - 1][|r|..] + [s[|s| - 1]];
      r
    else s
  }

  /** `s.trim()` */
  function Trim(s: string): (r: string)
    ensures |r| <= |s|
    ensures r == [] <==> AllWhitespace(s)
    ensures r != [] ==> !IsWhitespace(r[0]) && !IsWhitespace(r[|r| - 1])
  {
    var t := TrimStart(s);
    assert t == [] ==> AllWhitespace(s) by {
      if t == [] {
        assert s[..|s|] == s;
      }
    }
    TrimEnd(t)
  }

  /** A string is blank when it is empty after trimming, which is the
      JavaScript test `!s.trim()`. */
  predicate IsBlank(s: string)
  {
    Trim(s) == []
  }

  /** Leading whitespace followed by a string that does not start with
      whitespace: `trimStart` removes exactly the whitespace. */
  lemma {:induction false} TrimStartPast(l: string, rest: string)
    requires AllWhitespace(l) && (rest == [] || !IsWhitespace(rest[0]))
    ensures TrimStart(l + rest) == rest
    decreases |l|
  {
    if l != [] {
      assert (l + rest)[1..] == l[1..] + rest;
      TrimStartPast(l[1..], rest);
    }
  }

  /** Symmetrically, `trimEnd` removes exactly the trailing whitespace. */
  lemma {:induction false} TrimEndPast(rest: string, t: string)
    requires AllWhitespace(t) && (rest == [] || !IsWhitespace(rest[|rest| - 1]))
    ensures TrimEnd(rest + t) == rest
    decreases |t|
  {
    if t != [] {
      assert (rest + t)[..|rest + t| - 1] == rest + t[..|t| - 1];
      TrimEndPast(rest, t[..|t| - 1]);
    }
  }

  /** A string that `trim()` leaves alone. */
  predicate IsTrimmed(s: string)
  {
    s == [] || (!IsWhitespace(s[0]) && !IsWhitespace(s[|s| - 1]))
  }

  /** Trimming a trimmed string wrapped in whitespace gives it back. */
  lemma TrimAround(l: string, m: string, t: string)
    requires AllWhitespace(l) && AllWhitespace(t) && IsTrimmed(m)
    ensures Trim(l + m + t) == m
  {
    if m == [] {
      assert AllWhitespace(l + m + t);
    } else {
      assert l + m + t == l + (m + t);
      TrimStartPast(l, m + t);
      TrimEndPast(m, t);
    }
  }

  /** Trimming a trimmed string changes nothing. */
  lemma TrimOfTrimmed(s: string)
    requires IsTrimmed(s)
    ensures Trim(s) == s
  {
  }

  /** `trim()` is idempotent. */
  lemma TrimIdempotent(s: string)
    ensures Trim(Trim(s)) == Trim(s)
  {
    TrimOfTrimmed(Trim(s));
  }

  lemma TrimStartParts(s: string) returns (l: string)
    ensures AllWhitespace(l) && s == l + TrimStart(s)
  {
    var t := TrimStart(s);
    l := s[..|s| - |t|];
    assert s == l + t;
  }

  lemma TrimEndParts(s: string) returns (r: string)
    ensures AllWhitespace(r) && s == TrimEnd(s) + r
  {
    var m := TrimEnd(s);
    r := s[|m|..];
    assert s == m + r;
  }

  /** The untrimmed string is the trimmed one with whitespace around it. */
  lemma TrimParts(s: string) returns (l: string, r: string)
    ensures AllWhitespace(l) && AllWhitespace(r)
    ensures s == l + Trim(s) + r
  {
    var t := TrimStart(s);
    l := TrimStartParts(s);
    r := TrimEndParts(t);
    Associate(l, TrimEnd(t), r);
  }

  lemma Associate(a: string, b: string, c: string)
    ensures a + (b + c) == a + b + c
  {
  }

  /** `s.startsWith(p)` */
  predicate StartsWith(s: string, p: string)
  {
    |p| <= |s| && s[..|p|] == p
  }

  /** `sub` occurs in `s` at offset `i`. */
  predicate OccursAt(s: string, sub: string, i: int)
  {
    0 <= i && i + |sub| <= |s| && s[i..i + |sub|] == sub
  }

  /** `s.includes(sub)` */
  predicate Contains(s: string, sub: string)
  {
    exists i | 0 <= i <= |s| - |sub| :: OccursAt(s, sub, i)
  }

  lemma ContainsInfix(a: string, b: string, c: string)
    ensures OccursAt(a + b + c, b, |a|)
    ensures Contains(a + b + c, b)
  {
    assert (a + b + c)[|a|..|a| + |b|] == b;
    assert OccursAt(a + b + c, b, |a|);
  }

  lemma OccursAtEnd(a: string, b: string)
    ensures OccursAt(a + b, b, |a|)
  {
    assert (a + b)[|a|..|a| + |b|] == b;
  }

  lemma OccursInLeft(a: string, b: string, sub: string, i: int)
    requires OccursAt(a, sub, i)
    ensures OccursAt(a + b, sub, i)
  {
    assert (a + b)[i..i + |sub|] == a[i..i + |sub|];
  }

  /** `a` occurs in `s`, and `b` occurs in `s` after that occurrence ends. */
  predicate Precedes(s: string, a: string, b: string)
  {
    exists i, j :: 0 <= i <= j <= |s| && i + |a| <= j && OccursAt(s, a, i) && OccursAt(s, b, j)
  }

  /** In `head + a + mid + b + tail`, `a` occurs before `b`. */
  lemma InOrder(head: string, a: string, mid: string, b: string, tail: string)
    ensures Precedes(head + a + mid + b + tail, a, b)
  {
    var s := head + a + mid + b + tail;
    assert s[|head|..|head| + |a|] == a;
    assert s[|head| + |a| + |mid|..|head| + |a| + |mid| + |b|] == b;
    assert OccursAt(s, a, |head|) && OccursAt(s, b, |head| + |a| + |mid|);
  }

  lemma ContainsSelf(s: string)
    ensures Contains(s, s)
  {
    assert OccursAt(s, s, 0);
  }

  lemma ContainsInLeft(a: string, b: string, sub: string)
    requires Contains(a, sub)
    ensures Contains(a + b, sub)
  {
    var i :| 0 <= i <= |a| - |sub| && OccursAt(a, sub, i);
    assert (a + b)[i..i + |sub|] == a[i..i + |sub|];
    assert OccursAt(a + b, sub, i);
  }

  lemma ContainsInRight(a: string, b: string, sub: string)
    requires Contains(b, sub)
    ensures Contains(a + b, sub)
  {
    var i :| 0 <= i <= |b| - |sub| && OccursAt(b, sub, i);
    assert (a + b)[|a| + i..|a| + i + |sub|] == b[i..i + |sub|];
    assert OccursAt(a + b, sub, |a| + i);
  }

  /** A part of the second of seven pieces is part of the whole. */
  lemma ContainsInSecondOfSeven(a: string, b: string, c: string, d: string, e: string, f: string,
                                g: string, sub: string)
    requires Contains(b, sub)
    ensures Contains(a + b + c + d + e + f + g, sub)
  {
    ContainsInRight(a, b, sub);
    ContainsInLeft(a + b, c + d + e + f + g, sub);
    assert a + b + (c + d + e + f + g) == a + b + c + d + e + f + g;
  }

  /** A part of the first of five pieces is part of the whole. */
  lemma ContainsInFirstOfFive(a: string, b: string, c: string, d: string, e: string, sub: string)
    requires Contains(a, sub)
    ensures Contains(a + b + c + d + e, sub)
  {
    ContainsInLeft(a, b + c + d + e, sub);
    assert a + (b + c + d + e) == a + b + c + d + e;
  }

  /** What a substring contains, the string contains. */
  lemma ContainsTransitive(s: string, mid: string, sub: string)
    requires Contains(s, mid) && Contains(mid, sub)
    ensures Contains(s, sub)
  {
    var i :| 0 <= i <= |s| - |mid| && OccursAt(s, mid, i);
    var j :| 0 <= j <= |mid| - |sub| && OccursAt(mid, sub, j);
    assert mid == s[i..i + |mid|];
    forall k | 0 <= k < |sub|
      ensures s[i + j + k] == sub[k]
    {
      assert sub[k] == mid[j + k];
    }
    assert s[i + j..i + j + |sub|] == sub;
    assert OccursAt(s, sub, i + j);
  }

  /** Each of five concatenated parts occurs in the whole. */
  lemma ContainsEachOfFive(a: string, b: string, c: string, d: string, e: string)
    ensures var s := a + b + c + d + e;
      Contains(s, a) && Contains(s, b) && Contains(s, c) && Contains(s, d) && Contains(s, e)
  {
    var s := a + b + c + d + e;
    assert s[..|a|] == a;
    assert s[|a|..|a| + |b|] == b;
    assert s[|a| + |b|..|a| + |b| + |c|] == c;
    assert s[|a| + |b| + |c|..|a| + |b| + |c| + |d|] == d;
    assert s[|a| + |b| + |c| + |d|..] == e;
    assert OccursAt(s, a, 0) && OccursAt(s, b, |a|) && OccursAt(s, c, |a| + |b|);
    assert OccursAt(s, d, |a| + |b| + |c|) && OccursAt(s, e, |a| + |b| + |c| + |d|);
  }

  lemma StartsWithContains(s: string, p: string)
    requires StartsWith(s, p)
    ensures Contains(s, p)
  {
    assert OccursAt(s, p, 0);
  }

  lemma StartsWithConcat(p: string, rest: string)
    ensures StartsWith(p + rest, p)
  {
    assert (p + rest)[..|p|] == p;
  }

  /** Every character of an occurring substring occurs in the string, so a
      substring holding a character the string lacks does not occur. */
  lemma MissingCharExcludes(s: string, sub: string, k: int)
    requires 0 <= k < |sub| && sub[k] !in s
    ensures !Contains(s, sub)
  {
  }

  /** No character of `s` is one of `cs`. */
  predicate Avoids(s: string, cs: string)
  {
    forall i :: 0 <= i < |s| ==> s[i] !in cs
  }

  /** A substring holding a character that `s` avoids does not occur in it. */
  lemma AvoidedCharExcludes(s: string, cs: string, sub: string, k: int)
    requires Avoids(s, cs) && 0 <= k < |sub| && sub[k] in cs
    ensures !Contains(s, sub)
  {
    MissingCharExcludes(s, sub, k);
  }

  /** `parts.join(sep)`; an empty array joins to the empty string. */
  function Join(parts: seq<string>, sep: string): (r: string)
  {
    if parts == [] then []
    else if |parts| == 1 then parts[0]
    else parts[0] + sep + Join(parts[1..], sep)
  }

  /** `s.split(sep)` for a non-empty separator: the string is cut at every
      occurrence of `sep`, scanning left to right without overlap; `pending`
      is the part collected since the last cut. */
  function SplitFrom(s: string, sep: string, pending: string): (parts: seq<string>)
    requires |sep| > 0
    ensures |parts| > 0
    decreases |s|
  {
    if |s| < |sep| then [pending + s]
    else if s[..|sep|] == sep then [pending] + SplitFrom(s[|sep|..], sep, [])
    else SplitFrom(s[1..], sep, pending + [s[0]])
  }

  function Split(s: string, sep: string): (parts: seq<string>)
    requires |sep| > 0
    ensures |parts| > 0
    ensures forall k | 0 <= k < |parts| - 1 :: CutAtFirst(parts[k], sep)
    ensures !Contains(parts[|parts| - 1], sep)
  {
    SplitFromCuts(s, sep, []);
    SplitFrom(s, sep, [])
  }

  /** A part that ends at the first occurrence of `sep` in `part + sep`:
      no occurrence starts inside the part. */
  predicate CutAtFirst(part: string, sep: string)
  {
    forall i | 0 <= i < |part| :: !OccursAt(part + sep, sep, i)
  }

  /** The split cuts at the leftmost occurrence each time: every part but
      the last ends where `sep` first occurs, and the last part holds no
      `sep` at all. `pending` is collected from positions where no `sep`
      starts. */
  lemma {:induction false} SplitFromCuts(s: string, sep: string, pending: string)
    requires |sep| > 0
    requires forall i | 0 <= i < |pending| :: !OccursAt(pending + s, sep, i)
    ensures var parts := SplitFrom(s, sep, pending);
      && (forall k | 0 <= k < |parts| - 1 :: CutAtFirst(parts[k], sep))
      && !Contains(parts[|parts| - 1], sep)
    decreases |s|
  {
    if |s| < |sep| {
    } else if s[..|sep|] == sep {
      forall i | 0 <= i < |pending|
        ensures !OccursAt(pending + sep, sep, i)
      {
        assert !OccursAt(pending + s, sep, i);
        assert (pending + s)[i..i + |sep|] == (pending + sep)[i..i + |sep|];
      }
      assert [] + s[|sep|..] == s[|sep|..];
      SplitFromCuts(s[|sep|..], sep, []);
      var rest := SplitFrom(s[|sep|..], sep, []);
      assert SplitFrom(s, sep, pending) == [pending] + rest;
    } else {
      var next := pending + [s[0]];
      assert next + s[1..] == pending + s;
      forall i | 0 <= i < |next|
        ensures !OccursAt(next + s[1..], sep, i)
      {
        if i == |pending| {
          assert (pending + s)[i..i + |sep|] == s[..|sep|];
        }
      }
      SplitFromCuts(s[1..], sep, next);
    }
  }

  /** Joining the pieces of a split with the same separator gives back the
      string. */
  lemma {:induction false} JoinSplitFrom(s: string, sep: string, pending: string)
    requires |sep| > 0
    ensures Join(SplitFrom(s, sep, pending), sep) == pending + s
    decreases |s|
  {
    if |s| < |sep| {
    } else if s[..|sep|] == sep {
      JoinSplitFrom(s[|sep|..], sep, []);
      assert s == sep + s[|sep|..];
    } else {
      JoinSplitFrom(s[1..], sep, pending + [s[0]]);
      assert s == [s[0]] + s[1..];
      assert pending + [s[0]] + s[1..] == pending + s;
    }
  }

  lemma JoinSplit(s: string, sep: string)
    requires |sep| > 0
    ensures Join(Split(s, sep), sep) == s
  {
    JoinSplitFrom(s, sep, []);
  }
}
