/** The Python `str` methods the library relies on, on `seq<char>`:
    `zfill`, `replace`, `split` on one character, `join`, `strip` and
    `splitlines`, with the facts about them that the URL, file-name and
    SQL builders need. */
module Text {

  predicate IsDigit(c: char) { '0' <= c <= '9' }

  predicate AllDigits(s: string) { forall i :: 0 <= i < |s| ==> IsDigit(s[i]) }

  function Max(a: int, b: int): int { if a < b then b else a }

  /** `'0' * k` */
  function Zeros(k: nat): (r: string)
    ensures |r| == k
    ensures forall i :: 0 <= i < k ==> r[i] == '0'
  {
    if k == 0 then "" else "0" + Zeros(k - 1)
  }

  // ---------------------------------------------------------------------
  // str.zfill

  /** `s.zfill(width)`: left-pad with '0' up to `width` characters; a
      leading '+' or '-' stays in front of the padding; a string already
      `width` long or longer is returned unchanged. */
  function ZFill(s: string, width: int): (r: string)
    ensures |r| == Max(|s|, width)
  {
    if width <= |s| then s
    else if |s| > 0 && (s[0] == '+' || s[0] == '-') then [s[0]] + Zeros(width - |s|) + s[1..]
    else Zeros(width - |s|) + s
  }

  /** Without a sign, `zfill` only prepends zeros: the original text is a
      suffix of the result and everything before it is '0'. */
  lemma ZFillUnsigned(s: string, width: int)
    requires |s| == 0 || (s[0] != '+' && s[0] != '-')
    ensures ZFill(s, width) == Zeros(|ZFill(s, width)| - |s|) + s
    ensures AllDigits(s) ==> AllDigits(ZFill(s, width))
  {
  }

  /** With a sign, the sign stays first and the zeros go right after it. */
  lemma ZFillSigned(s: string, width: int)
    requires |s| > 0 && (s[0] == '+' || s[0] == '-')
    ensures ZFill(s, width) == [s[0]] + Zeros(|ZFill(s, width)| - |s|) + s[1..]
  {
  }

  // ---------------------------------------------------------------------
  // str.split on one character and str.join

  /** Index of the first `c` in `s`, or `|s|` when `s` holds none. */
  function IndexOf(s: string, c: char): (i: nat)
    ensures i <= |s|
    ensures i < |s| ==> s[i] == c
    ensures forall j :: 0 <= j < i ==> s[j] != c
  {
    if s == [] then 0 else if s[0] == c then 0 else 1 + IndexOf(s[1..], c)
  }

  /** `s.split(c)`: the pieces between occurrences of `c`; never empty,
      and `"".split(c) == [""]`. */
  function Split(s: string, c: char): (r: seq<string>)
    ensures |r| >= 1
    ensures forall k :: 0 <= k < |r| ==> c !in r[k]
    decreases |s|
  {
    var i := IndexOf(s, c);
    if i == |s| then [s] else [s[..i]] + Split(s[i + 1..], c)
  }

  /** `sep.join(parts)` */
  function Join(parts: seq<string>, sep: string): string
  {
    if parts == [] then ""
    else if |parts| == 1 then parts[0]
    else parts[0] + sep + Join(parts[1..], sep)
  }

  lemma IndexOfFirst(p: string, rest: string, c: char)
    requires c !in p
    requires |rest| > 0 && rest[0] == c
    ensures IndexOf(p + rest, c) == |p|
  {
    var s := p + rest;
    var i := IndexOf(s, c);
    assert s[|p|] == c;
  }

  /** Splitting a join on the same separator gives the parts back, as long
      as no part holds the separator. */
  lemma {:induction false} SplitJoin(parts: seq<string>, c: char)
    requires |parts| >= 1
    requires forall k :: 0 <= k < |parts| ==> c !in parts[k]
    ensures Split(Join(parts, [c]), c) == parts
  {
    var p := parts[0];
    if |parts| > 1 {
      var rest := Join(parts[1..], [c]);
      var s := Join(parts, [c]);
      assert s == p + ([c] + rest);
      IndexOfFirst(p, [c] + rest, c);
      assert s[..|p|] == p;
      assert s[|p| + 1..] == rest;
      SplitJoin(parts[1..], c);
      assert parts == [p] + parts[1..];
    }
  }

  /** `s` with every `c` turned into `d`. */
  function Subst(s: string, c: char, d: char): (r: string)
    ensures |r| == |s|
    ensures forall i :: 0 <= i < |s| ==> r[i] == if s[i] == c then d else s[i]
  {
    seq(|s|, i requires 0 <= i < |s| => if s[i] == c then d else s[i])
  }

  /** Around the first `c`, `Subst` keeps the text before it. */
  lemma SubstAt(s: string, i: nat, c: char, d: char)
    requires i < |s| && s[i] == c && c !in s[..i]
    ensures Subst(s, c, d) == s[..i] + [d] + Subst(s[i + 1..], c, d)
  {
  }

  lemma JoinSplitAt(s: string, c: char, d: char)
    requires IndexOf(s, c) < |s|
    ensures Join(Split(s, c), [d])
         == s[..IndexOf(s, c)] + [d] + Join(Split(s[IndexOf(s, c) + 1..], c), [d])
  {
  }

  /** Joining the pieces of `s.split(c)` with `d` puts `d` where each `c`
      was and keeps everything else. */
  lemma {:induction false} JoinSplit(s: string, c: char, d: char)
    ensures Join(Split(s, c), [d]) == Subst(s, c, d)
    decreases |s|
  {
    if IndexOf(s, c) < |s| {
      JoinSplit(s[IndexOf(s, c) + 1..], c, d);
      JoinSplitStep(s, c, d);
    } else {
      SubstNone(s, c, d);
    }
  }

  lemma SubstNone(s: string, c: char, d: char)
    requires IndexOf(s, c) == |s|
    ensures Join(Split(s, c), [d]) == Subst(s, c, d) == s
  {
  }

  /** One step of `JoinSplit`: from the text after the first `c` to all of `s`. */
  lemma JoinSplitStep(s: string, c: char, d: char)
    requires IndexOf(s, c) < |s|
    requires Join(Split(s[IndexOf(s, c) + 1..], c), [d]) == Subst(s[IndexOf(s, c) + 1..], c, d)
    ensures Join(Split(s, c), [d]) == Subst(s, c, d)
  {
    JoinSplitAt(s, c, d);
    SubstAt(s, IndexOf(s, c), c, d);
  }

  // ---------------------------------------------------------------------
  // str.strip

  /** The characters Python's `str.strip()` removes (`str.isspace`). */
  predicate IsSpace(c: char)
  {
    c == ' ' || ('\t' <= c <= '\r') || ('\U{1c}' <= c <= '\U{1f}') || c == '\U{85}'
    || c == '\U{a0}' || c == '\U{1680}' || ('\U{2000}' <= c <= '\U{200a}') || c == '\U{2028}'
    || c == '\U{2029}' || c == '\U{202f}' || c == '\U{205f}' || c == '\U{3000}'
  }

  /** `s.lstrip()`: what is left after the leading white space. */
  function TrimLeft(s: string): (r: string)
    ensures |r| <= |s| && r == s[|s| - |r|..]
    ensures r == [] || !IsSpace(r[0])
    ensures forall k :: 0 <= k < |s| - |r| ==> IsSpace(s[k])
  {
    if s != [] && IsSpace(s[0]) then TrimLeft(s[1..]) else s
  }

  /** `s.rstrip()`: what is left before the trailing white space. */
  function TrimRight(s: string): (r: string)
    ensures |r| <= |s| && r == s[..|r|]
    ensures r == [] || !IsSpace(r[|r| - 1])
    ensures forall k :: |r| <= k < |s| ==> IsSpace(s[k])
  {
    if s != [] && IsSpace(s[|s| - 1]) then TrimRight(s[..|s| - 1]) else s
  }

  /** `s.strip()` */
  function Strip(s: string): string
  {
    TrimRight(TrimLeft(s))
  }

  /** Text that neither starts nor ends with white space is left alone. */
  lemma StripUntouched(s: string)
    requires s == [] || (!IsSpace(s[0]) && !IsSpace(s[|s| - 1]))
    ensures Strip(s) == s
  {
  }

  /** `strip` keeps a contiguous piece of its input, so it adds no character. */
  lemma StripAddsNothing(s: string, c: char)
    requires c !in s
    ensures c !in Strip(s)
  {
    var l := TrimLeft(s);
    assert l == s[|s| - |l|..];
    assert c !in l;
    var r := TrimRight(l);
    assert r == l[..|r|];
  }

  // ---------------------------------------------------------------------
  // str.splitlines

  /** The line boundaries of Python's `str.splitlines`. */
  predicate IsLineBreak(c: char)
  {
    c == '\n' || c == '\r' || c == '\U{b}' || c == '\U{c}' || c == '\U{1c}' || c == '\U{1d}'
    || c == '\U{1e}' || c == '\U{85}' || c == '\U{2028}' || c == '\U{2029}'
  }

  predicate NoLineBreak(s: string) { forall i :: 0 <= i < |s| ==> !IsLineBreak(s[i]) }

  /** Index of the first line boundary in `s`, or `|s|`. */
  function LineEnd(s: string): (i: nat)
    ensures i <= |s|
    ensures i < |s| ==> IsLineBreak(s[i])
    ensures NoLineBreak(s[..i])
  {
    if s == [] || IsLineBreak(s[0]) then 0 else 1 + LineEnd(s[1..])
  }

  /** `s.splitlines()`: the lines without their boundaries; "\r\n" is one
      boundary, a final boundary does not start an extra empty line, and
      "" has no lines at all. */
  function SplitLines(s: string): (r: seq<string>)
    ensures forall k :: 0 <= k < |r| ==> NoLineBreak(r[k])
    decreases |s|
  {
    if s == [] then []
    else
      var i := LineEnd(s);
      if i == |s| then [s]
      else
        var w := if s[i] == '\r' && i + 1 < |s| && s[i + 1] == '\n' then 2 else 1;
        [s[..i]] + SplitLines(s[i + w..])
  }

  /** The lines written one after the other, each ended by "\n". */
  function Lines(ls: seq<string>): string
  {
    if ls == [] then "" else ls[0] + "\n" + Lines(ls[1..])
  }

  lemma LineEndAt(p: string, rest: string)
    requires NoLineBreak(p) && |rest| > 0 && IsLineBreak(rest[0])
    ensures LineEnd(p + rest) == |p|
  {
    var s := p + rest;
    assert s[|p|] == rest[0];
    assert s[..|p|] == p;
  }

  lemma SplitLinesAtNewline(p: string, rest: string)
    requires NoLineBreak(p)
    ensures SplitLines(p + "\n" + rest) == [p] + SplitLines(rest)
  {
    var s := p + "\n" + rest;
    assert s == p + ("\n" + rest);
    LineEndAt(p, "\n" + rest);
    assert s[..|p|] == p;
    assert s[|p| + 1..] == rest;
  }

  /** `splitlines` gives back exactly the lines that were written. */
  lemma {:induction false} SplitLinesOfLines(ls: seq<string>)
    requires forall k :: 0 <= k < |ls| ==> NoLineBreak(ls[k])
    ensures SplitLines(Lines(ls)) == ls
  {
    if ls != [] {
      SplitLinesAtNewline(ls[0], Lines(ls[1..]));
      SplitLinesOfLines(ls[1..]);
      assert ls == [ls[0]] + ls[1..];
    }
  }

  // ---------------------------------------------------------------------
  // str.replace

  /** `s.replace(pat, rep)`: every non-overlapping occurrence of `pat`,
      scanning left to right, becomes `rep`. */
  function Replace(s: string, pat: string, rep: string): string
    requires |pat| > 0
    decreases |s|
  {
    if |s| < |pat| then s
    else if s[..|pat|] == pat then rep + Replace(s[|pat|..], pat, rep)
    else [s[0]] + Replace(s[1..], pat, rep)
  }

  /** No occurrence can start inside text that lacks the pattern's first
      character, so that text is copied unchanged. */
  lemma {:induction false} ReplaceSkip(a: string, b: string, pat: string, rep: string)
    requires |pat| > 0 && pat[0] !in a
    ensures Replace(a + b, pat, rep) == a + Replace(b, pat, rep)
    decreases |a|
  {
    if a != [] {
      var s := a + b;
      assert s[1..] == a[1..] + b;
      ReplaceSkip(a[1..], b, pat, rep);
      var r := Replace(a[1..] + b, pat, rep);
      if |s| >= |pat| {
        assert s[..|pat|][0] == a[0];
        assert Replace(s, pat, rep) == [a[0]] + r;
      } else {
        assert Replace(b, pat, rep) == b;
        assert Replace(s, pat, rep) == s;
        assert r == a[1..] + b;
      }
      assert [a[0]] + (a[1..] + Replace(b, pat, rep)) == a + Replace(b, pat, rep);
    } else {
      assert a + b == b;
    }
  }

  /** An occurrence at the front is replaced. */
  lemma ReplaceFront(b: string, pat: string, rep: string)
    requires |pat| > 0
    ensures Replace(pat + b, pat, rep) == rep + Replace(b, pat, rep)
  {
    var s := pat + b;
    assert s[..|pat|] == pat;
    assert s[|pat|..] == b;
  }

  /** A character that disagrees with the pattern at position `k` means no
      occurrence starts at the front. */
  lemma ReplaceMiss(s: string, pat: string, rep: string, k: nat)
    requires |pat| > 0 && |s| > 0
    requires k < |pat| && k < |s| && s[k] != pat[k]
    ensures Replace(s, pat, rep) == [s[0]] + Replace(s[1..], pat, rep)
  {
    if |s| >= |pat| {
      assert s[..|pat|][k] != pat[k];
    }
  }

  /** Every '-' is followed by a digit. */
  predicate DashThenDigit(s: string)
  {
    forall i :: 0 <= i < |s| && s[i] == '-' ==> i + 1 < |s| && IsDigit(s[i + 1])
  }

  lemma DashThenDigitJoin(a: string, b: string)
    requires DashThenDigit(a) && DashThenDigit(b)
    ensures DashThenDigit(a + b)
  {
    var s := a + b;
    forall i | 0 <= i < |s| && s[i] == '-'
      ensures i + 1 < |s| && IsDigit(s[i + 1])
    {
      if i < |a| {
        assert a[i] == '-';
      } else {
        assert b[i - |a|] == '-';
      }
    }
  }

  /** A pattern "-x…" whose second character is not a digit never occurs in
      text where every '-' is followed by a digit. */
  lemma {:induction false} ReplaceDashDigit(s: string, pat: string, rep: string)
    requires |pat| >= 2 && pat[0] == '-' && !IsDigit(pat[1])
    requires DashThenDigit(s)
    ensures Replace(s, pat, rep) == s
    decreases |s|
  {
    if |s| >= |pat| {
      if s[0] == '-' {
        ReplaceMiss(s, pat, rep, 1);
      } else {
        ReplaceMiss(s, pat, rep, 0);
      }
      var t := s[1..];
      forall i | 0 <= i < |t| && t[i] == '-'
        ensures i + 1 < |t| && IsDigit(t[i + 1])
      {
        assert s[i + 1] == '-';
      }
      ReplaceDashDigit(t, pat, rep);
      assert s == [s[0]] + t;
    }
  }

  /** Replacing a single character by text without it removes it. */
  lemma {:induction false} ReplaceRemoves(s: string, c: char, rep: string)
    requires c !in rep
    ensures c !in Replace(s, [c], rep)
    decreases |s|
  {
    if |s| >= 1 {
      ReplaceRemoves(s[1..], c, rep);
      assert s[..1] == [s[0]];
    }
  }

  /** `replace` adds no character that neither the text nor the replacement holds. */
  lemma {:induction false} ReplaceAddsNothing(s: string, pat: string, rep: string, c: char)
    requires |pat| > 0 && c !in s && c !in rep
    ensures c !in Replace(s, pat, rep)
    decreases |s|
  {
    if |s| >= |pat| {
      if s[..|pat|] == pat {
        ReplaceAddsNothing(s[|pat|..], pat, rep, c);
      } else {
        ReplaceAddsNothing(s[1..], pat, rep, c);
      }
    }
  }

  /** Percent-escaping the spaces and then unescaping "%20" gives the text
      back, provided the text held no '%' to begin with. */
  lemma {:induction false} EscapeSpacesRoundTrip(u: string)
    requires '%' !in u
    ensures Replace(Replace(u, " ", "%20"), "%20", " ") == u
    decreases |u|
  {
    if u != [] {
      var t := u[1..];
      EscapeSpacesRoundTrip(t);
      var e := Replace(t, " ", "%20");
      assert u[..1] == [u[0]];
      if u[0] == ' ' {
        assert Replace(u, " ", "%20") == "%20" + e;
        ReplaceFront(e, "%20", " ");
      } else {
        assert Replace(u, " ", "%20") == [u[0]] + e;
        ReplaceMiss([u[0]] + e, "%20", " ", 0);
        assert ([u[0]] + e)[1..] == e;
      }
    }
  }
}
