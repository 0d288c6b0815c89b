/**
 * The Python `str` builtins the parser uses: `splitlines()`, `split(sep)` with a
 * one-character separator, `strip()` and `startswith(prefix)` (which is Dafny's
 * prefix test `prefix <= s`).
 */
module Text {

  /** The characters `str.isspace()` accepts, which `str.strip()` removes. */
  predicate IsSpace(c: char) {
    ('\t' <= c <= '\r') || ('\U{1C}' <= c <= ' ') || c == '\U{85}' || c == '\U{A0}'
    || c == '\U{1680}' || ('\U{2000}' <= c <= '\U{200A}') || c == '\U{2028}' || c == '\U{2029}'
    || c == '\U{202F}' || c == '\U{205F}' || c == '\U{3000}'
  }

  /** The line boundaries `str.splitlines()` splits at ("\r\n" counts as one). */
  predicate IsLineBreak(c: char) {
    c == '\n' || c == '\r' || c == '\U{0B}' || c == '\U{0C}' || ('\U{1C}' <= c <= '\U{1E}')
    || c == '\U{85}' || c == '\U{2028}' || c == '\U{2029}'
  }

  predicate AllSpace(s: string) {
    forall k :: 0 <= k < |s| ==> IsSpace(s[k])
  }

  predicate NoBreaks(s: string) {
    forall k :: 0 <= k < |s| ==> !IsLineBreak(s[k])
  }

  /** Neither end of `s` is whitespace. */
  predicate NoMargins(s: string) {
    s == [] || (!IsSpace(s[0]) && !IsSpace(s[|s| - 1]))
  }

  // ---------------------------------------------------------------------------
  // Searching for one character

  /** Position of the first `c` in `s`, or `|s|` when there is none. */
  function IndexOf(s: string, c: char): (i: nat)
    ensures i <= |s|
    ensures i < |s| <==> c in s
    ensures i < |s| ==> s[i] == c
    ensures c !in s[..i]
  {
    if s == [] then 0
    else if s[0] == c then 0
    else
      var i := 1 + IndexOf(s[1..], c);
      assert s[..i] == [s[0]] + s[1..][..i - 1];
      i
  }

  /** The text before the first `c` (all of `s` if there is none). */
  function UpTo(s: string, c: char): string {
    s[..IndexOf(s, c)]
  }

  /** The text after the first `c`. */
  function After(s: string, c: char): string
    requires c in s
  {
    s[IndexOf(s, c) + 1..]
  }

  lemma {:induction false} IndexOfPastPrefix(p: string, rest: string, c: char)
    requires c !in p
    ensures IndexOf(p + rest, c) == |p| + IndexOf(rest, c)
    decreases |p|
  {
    if p != [] {
      assert (p + rest)[1..] == p[1..] + rest;
      IndexOfPastPrefix(p[1..], rest, c);
    } else {
      assert p + rest == rest;
    }
  }

  // ---------------------------------------------------------------------------
  // str.split(sep)

  /** `s.split(sep)`: the pieces between occurrences of `sep`, at least one. */
  function Split(s: string, sep: char): (parts: seq<string>)
    ensures |parts| >= 1
    ensures forall k :: 0 <= k < |parts| ==> sep !in parts[k]
    ensures Join(parts, sep) == s
    decreases |s|
  {
    if s == [] then [[]]
    else
      var rest := Split(s[1..], sep);
      if s[0] == sep then
        assert Join([[]] + rest, sep) == [sep] + Join(rest, sep) by {
          assert ([[]] + rest)[1..] == rest;
        }
        [[]] + rest
      else
        var parts := [[s[0]] + rest[0]] + rest[1..];
        assert Join(parts, sep) == [s[0]] + Join(rest, sep) by {
          if |rest| > 1 {
            assert parts[1..] == rest[1..];
          }
        }
        parts
  }

  /** `sep.join(parts)`. */
  function Join(parts: seq<string>, sep: char): string
    requires |parts| >= 1
    decreases |parts|
  {
    if |parts| == 1 then parts[0] else parts[0] + [sep] + Join(parts[1..], sep)
  }

  /** Splitting undoes joining: the pieces come back unchanged. */
  lemma {:induction false} SplitJoin(parts: seq<string>, sep: char)
    requires |parts| >= 1
    requires forall k :: 0 <= k < |parts| ==> sep !in parts[k]
    ensures Split(Join(parts, sep), sep) == parts
    decreases |parts|, |parts[0]|
  {
    var p := parts[0];
    if p == [] {
      if |parts| > 1 {
        var s := Join(parts, sep);
        assert s == [sep] + Join(parts[1..], sep);
        assert s[1..] == Join(parts[1..], sep);
        SplitJoin(parts[1..], sep);
        assert parts == [[]] + parts[1..];
      }
    } else {
      var tail := [p[1..]] + parts[1..];
      assert tail[1..] == parts[1..];
      var s := Join(parts, sep);
      assert p == [p[0]] + p[1..];
      assert s == [p[0]] + Join(tail, sep) by {
        if |parts| > 1 {
          assert Join(tail, sep) == p[1..] + [sep] + Join(parts[1..], sep);
        }
      }
      assert s[1..] == Join(tail, sep);
      assert sep !in p[1..] by {
        assert forall k :: 0 <= k < |p[1..]| ==> p[1..][k] == p[k + 1];
      }
      SplitJoin(tail, sep);
      assert p[0] != sep;
      assert Split(s, sep) == [[p[0]] + tail[0]] + tail[1..];
      assert parts == [[p[0]] + p[1..]] + parts[1..];
    }
  }

  /** A text that does not start with the separator: its first character leads the first piece. */
  lemma SplitPastChar(s: string, sep: char)
    requires s != [] && s[0] != sep
    ensures Split(s, sep) == [[s[0]] + Split(s[1..], sep)[0]] + Split(s[1..], sep)[1..]
  {
  }

  /** Searching past a first character that is not the separator. */
  lemma SearchPastChar(s: string, sep: char)
    requires s != [] && s[0] != sep
    ensures UpTo(s, sep) == [s[0]] + UpTo(s[1..], sep)
    ensures sep in s <==> sep in s[1..]
    ensures sep in s ==> After(s, sep) == After(s[1..], sep)
  {
    assert IndexOf(s, sep) == 1 + IndexOf(s[1..], sep);
    assert s == [s[0]] + s[1..];
  }

  /** The first piece is the text before the first separator; the others split what follows it. */
  lemma {:induction false} SplitFirst(s: string, sep: char)
    ensures Split(s, sep)[0] == UpTo(s, sep)
    ensures |Split(s, sep)| > 1 <==> sep in s
    ensures sep in s ==> Split(s, sep)[1..] == Split(After(s, sep), sep)
    decreases |s|
  {
    if s == [] {
    } else if s[0] == sep {
      assert IndexOf(s, sep) == 0;
      assert After(s, sep) == s[1..];
    } else {
      SplitPastChar(s, sep);
      SearchPastChar(s, sep);
      SplitFirst(s[1..], sep);
    }
  }

  // ---------------------------------------------------------------------------
  // str.strip()

  /** `s.lstrip()`. */
  function TrimStart(s: string): (r: string)
    ensures |r| <= |s| && r == s[|s| - |r|..]
    ensures AllSpace(s[..|s| - |r|])
    ensures r == [] || !IsSpace(r[0])
    decreases |s|
  {
    if s != [] && IsSpace(s[0]) then
      var r := TrimStart(s[1..]);
      assert s[..|s| - |r|] == [s[0]] + s[1..][..|s| - 1 - |r|];
      r
    else s
  }

  /** `s.rstrip()`. */
  function TrimEnd(s: string): (r: string)
    ensures |r| <= |s| && r == s[..|r|]
    ensures AllSpace(s[|r|..])
    ensures r == [] || !IsSpace(r[|r| - 1])
    decreases |s|
  {
    if s != [] && IsSpace(s[|s| - 1]) then
      var r := TrimEnd(s[..|s| - 1]);
      assert s[|r|..] == s[..|s| - 1][|r|..] + [s[|s| - 1]];
      r
    else s
  }

  /** `s.strip()`: `s` without its leading and trailing whitespace. */
  function Strip(s: string): (r: string)
    ensures |r| <= |s|
    ensures NoMargins(r)
  {
    TrimEnd(TrimStart(s))
  }

  /** How many whitespace characters `s` starts with. */
  function Lead(s: string): (n: nat)
    ensures n <= |s|
  {
    |s| - |TrimStart(s)|
  }

  /** What `strip()` keeps is the span of `s` after its leading whitespace, with only whitespace after it. */
  lemma StripSpan(s: string)
    ensures Lead(s) + |Strip(s)| <= |s|
    ensures Strip(s) == s[Lead(s)..Lead(s) + |Strip(s)|]
    ensures AllSpace(s[..Lead(s)]) && AllSpace(s[Lead(s) + |Strip(s)|..])
  {
    SpanOfSlices(s, TrimStart(s), Strip(s), Lead(s));
  }

  /** A prefix `r` of the suffix `t == s[i..]` is the span `s[i..i + |r|]`, and `t`'s tail is `s`'s. */
  lemma SpanOfSlices(s: string, t: string, r: string, i: nat)
    requires i + |t| == |s| && t == s[i..]
    requires |r| <= |t| && r == t[..|r|]
    requires AllSpace(s[..i]) && AllSpace(t[|r|..])
    ensures i + |r| <= |s| && r == s[i..i + |r|]
    ensures AllSpace(s[..i]) && AllSpace(s[i + |r|..])
  {
    SuffixSlices(s, i, |r|);
  }

  lemma SuffixSlices(s: string, i: nat, n: nat)
    requires i + n <= |s|
    ensures s[i..][..n] == s[i..i + n] && s[i..][n..] == s[i + n..]
  {
  }

  lemma {:induction false} TrimStartPastSpace(a: string, t: string)
    requires AllSpace(a)
    requires t == [] || !IsSpace(t[0])
    ensures TrimStart(a + t) == t
    decreases |a|
  {
    if a != [] {
      assert (a + t)[1..] == a[1..] + t;
      TrimStartPastSpace(a[1..], t);
    } else {
      assert a + t == t;
    }
  }

  lemma {:induction false} TrimEndPastSpace(t: string, b: string)
    requires AllSpace(b)
    requires t == [] || !IsSpace(t[|t| - 1])
    ensures TrimEnd(t + b) == t
    decreases |b|
  {
    if b != [] {
      assert (t + b)[..|t + b| - 1] == t + b[..|b| - 1];
      TrimEndPastSpace(t, b[..|b| - 1]);
    } else {
      assert t + b == t;
    }
  }

  /** What `strip()` keeps is determined: whitespace around a core with no margins is all it removes. */
  lemma StripUnique(a: string, m: string, b: string)
    requires AllSpace(a) && AllSpace(b) && NoMargins(m)
    ensures Strip(a + m + b) == m
  {
    if m == [] {
      assert a + m + b == (a + b) + [];
      TrimStartPastSpace(a + b, []);
    } else {
      assert a + m + b == a + (m + b);
      TrimStartPastSpace(a, m + b);
      TrimEndPastSpace(m, b);
    }
  }

  /** Stripping twice is stripping once. */
  lemma StripIdempotent(s: string)
    ensures Strip(Strip(s)) == Strip(s)
  {
    var m := Strip(s);
    assert [] + m + [] == m;
    StripUnique([], m, []);
  }

  // ---------------------------------------------------------------------------
  // str.splitlines()

  /** Position of the first line break in `s`, or `|s|`. */
  function LineEnd(s: string): (i: nat)
    ensures i <= |s|
    ensures i < |s| ==> IsLineBreak(s[i])
    ensures NoBreaks(s[..i])
    decreases |s|
  {
    if s == [] || IsLineBreak(s[0]) then 0
    else
      var i := 1 + LineEnd(s[1..]);
      assert s[..i] == [s[0]] + s[1..][..i - 1];
      i
  }

  /** Width of the line break at `s[i]`: "\r\n" is a single break of two characters. */
  function BreakWidth(s: string, i: nat): nat
    requires i < |s|
  {
    if s[i] == '\r' && i + 1 < |s| && s[i + 1] == '\n' then 2 else 1
  }

  /**
   * `s.splitlines()`: the lines of `s` without their line breaks; a break at the very
   * end does not start another (empty) line.
   */
  function SplitLines(s: string): (lines: seq<string>)
    ensures forall k :: 0 <= k < |lines| ==> NoBreaks(lines[k])
    decreases |s|
  {
    if s == [] then []
    else
      var i := LineEnd(s);
      if i == |s| then [s]
      else [s[..i]] + SplitLines(s[i + BreakWidth(s, i)..])
  }

  /** The lines, each followed by "\n". */
  function Terminated(lines: seq<string>): string {
    if lines == [] then [] else lines[0] + "\n" + Terminated(lines[1..])
  }

  lemma {:induction false} LineEndPastLine(l: string, rest: string)
    requires NoBreaks(l)
    requires rest == [] || IsLineBreak(rest[0])
    ensures LineEnd(l + rest) == |l|
    decreases |l|
  {
    if l != [] {
      assert (l + rest)[0] == l[0] && !IsLineBreak(l[0]);
      assert (l + rest)[1..] == l[1..] + rest;
      assert NoBreaks(l[1..]) by {
        assert forall k :: 0 <= k < |l| - 1 ==> l[1..][k] == l[k + 1];
      }
      LineEndPastLine(l[1..], rest);
    } else {
      assert l + rest == rest;
    }
  }

  /** Splitting newline-terminated lines gives the lines back. */
  lemma {:induction false} SplitLinesTerminated(lines: seq<string>)
    requires forall k :: 0 <= k < |lines| ==> NoBreaks(lines[k])
    ensures SplitLines(Terminated(lines)) == lines
    decreases |lines|
  {
    if lines != [] {
      var l := lines[0];
      var rest := Terminated(lines[1..]);
      var s := Terminated(lines);
      assert s == l + ("\n" + rest);
      LineEndPastLine(l, "\n" + rest);
      assert s[..|l|] == l;
      assert s[|l|] == '\n';
      assert BreakWidth(s, |l|) == 1;
      assert s[|l| + 1..] == rest;
      SplitLinesTerminated(lines[1..]);
      assert lines == [l] + lines[1..];
    }
  }

  /** One line boundary as `splitlines()` consumes it: "\r\n", or a single break character. */
  predicate IsBreak(b: string) {
    b == "\r\n" || (|b| == 1 && IsLineBreak(b[0]))
  }

  /** The lines, each followed by its break. */
  function Rejoin(lines: seq<string>, bs: seq<string>): string
    requires |bs| == |lines|
    decreases |lines|
  {
    if lines == [] then [] else lines[0] + bs[0] + Rejoin(lines[1..], bs[1..])
  }

  /**
   * `lines` and `bs` are a layout `splitlines()` reads back: one break per line,
   * break-free lines, every break a line boundary except that the last may be
   * missing (and then its line is not empty), and a lone "\r" is not followed
   * by '\n' (with it, it would be the single break "\r\n").
   */
  predicate Layout(lines: seq<string>, bs: seq<string>)
    decreases |lines|
  {
    |bs| == |lines| &&
    (lines != [] ==>
      NoBreaks(lines[0]) &&
      if |lines| == 1 then IsBreak(bs[0]) || (bs[0] == [] && lines[0] != [])
      else
        IsBreak(bs[0]) && Layout(lines[1..], bs[1..]) &&
        (bs[0] == "\r" ==> !("\n" <= Rejoin(lines[1..], bs[1..]))))
  }

  /** The breaks `splitlines()` drops: the one after each line, `[]` after a last line that has none. */
  function Breaks(s: string): seq<string>
    decreases |s|
  {
    if s == [] then []
    else
      var i := LineEnd(s);
      if i == |s| then [[]]
      else [s[i..i + BreakWidth(s, i)]] + Breaks(s[i + BreakWidth(s, i)..])
  }

  /** Every text is its lines and the breaks between them, laid out as `splitlines()` reads them. */
  lemma {:induction false} SplitLinesRejoin(s: string)
    ensures Layout(SplitLines(s), Breaks(s))
    ensures Rejoin(SplitLines(s), Breaks(s)) == s
    decreases |s|
  {
    if s != [] {
      var i := LineEnd(s);
      if i == |s| {
        assert s[..i] == s;
        assert Rejoin([s], [[]]) == s + [] + [];
      } else {
        var w := BreakWidth(s, i);
        var rest := s[i + w..];
        BreakAt(s, i);
        LinesAt(s, i);
        SplitLinesRejoin(rest);
        RejoinCons(s[..i], s[i..i + w], SplitLines(rest), Breaks(rest));
        LayoutCons(s[..i], s[i..i + w], SplitLines(rest), Breaks(rest));
      }
    }
  }

  /** The break `splitlines()` takes at the line boundary `s[i]`: "\r\n" or that one character. */
  lemma BreakAt(s: string, i: nat)
    requires i < |s| && IsLineBreak(s[i])
    ensures IsBreak(s[i..i + BreakWidth(s, i)])
    ensures s[i..i + BreakWidth(s, i)] == "\r" ==> !("\n" <= s[i + BreakWidth(s, i)..])
  {
    if BreakWidth(s, i) == 2 {
      assert s[i..i + 2] == [s[i], s[i + 1]];
    } else {
      assert s[i..i + 1] == [s[i]];
    }
  }

  /** One step of `splitlines()`: the first line, its break, and the lines of the rest. */
  lemma LinesAt(s: string, i: nat)
    requires s != [] && i == LineEnd(s) < |s|
    ensures var w := BreakWidth(s, i);
      && s == s[..i] + s[i..i + w] + s[i + w..]
      && SplitLines(s) == [s[..i]] + SplitLines(s[i + w..])
      && Breaks(s) == [s[i..i + w]] + Breaks(s[i + w..])
  {
    ThreeSlices(s, i, i + BreakWidth(s, i));
  }

  lemma ThreeSlices(s: string, i: nat, j: nat)
    requires i <= j <= |s|
    ensures s == s[..i] + s[i..j] + s[j..]
  {
    assert s[..i] + s[i..j] == s[..j];
  }

  lemma RejoinCons(l: string, b: string, lines: seq<string>, bs: seq<string>)
    requires |bs| == |lines|
    ensures Rejoin([l] + lines, [b] + bs) == l + b + Rejoin(lines, bs)
  {
    assert ([l] + lines)[1..] == lines && ([b] + bs)[1..] == bs;
  }

  lemma LayoutCons(l: string, b: string, lines: seq<string>, bs: seq<string>)
    requires Layout(lines, bs) && NoBreaks(l) && IsBreak(b)
    requires b == "\r" ==> !("\n" <= Rejoin(lines, bs))
    ensures Layout([l] + lines, [b] + bs)
  {
    assert ([l] + lines)[1..] == lines && ([b] + bs)[1..] == bs;
  }

  /** `splitlines()` reads every layout back: the lines are determined by the text. */
  lemma {:induction false} SplitLinesOfLayout(lines: seq<string>, bs: seq<string>)
    requires Layout(lines, bs)
    ensures SplitLines(Rejoin(lines, bs)) == lines
    decreases |lines|
  {
    if lines != [] {
      var l, b, tl, tb := lines[0], bs[0], lines[1..], bs[1..];
      LayoutParts(lines, bs);
      assert lines == [l] + tl && bs == [b] + tb;
      RejoinCons(l, b, tl, tb);
      SplitLinesOfLayout(tl, tb);
      SplitLinesPastLine(l, b, Rejoin(tl, tb));
    }
  }

  lemma LayoutParts(lines: seq<string>, bs: seq<string>)
    requires Layout(lines, bs) && lines != []
    ensures Layout(lines[1..], bs[1..]) && NoBreaks(lines[0])
    ensures var rest := Rejoin(lines[1..], bs[1..]);
      && (bs[0] == [] ==> rest == [] && lines[0] != [])
      && (bs[0] != [] ==> IsBreak(bs[0]))
      && (bs[0] == "\r" ==> !("\n" <= rest))
  {
    if |lines| == 1 {
      assert lines[1..] == [] && bs[1..] == [];
    }
  }

  /** A break-free line, its break and the rest of the text split into that line and the rest's lines. */
  lemma SplitLinesPastLine(l: string, b: string, rest: string)
    requires NoBreaks(l)
    requires b == [] ==> rest == [] && l != []
    requires b != [] ==> IsBreak(b)
    requires b == "\r" ==> !("\n" <= rest)
    ensures SplitLines(l + b + rest) == [l] + SplitLines(rest)
  {
    var s := l + b + rest;
    if b == [] {
      assert s == l;
      LineEndPastLine(l, []);
      assert l + [] == l;
      assert l[..|l|] == l;
    } else {
      assert s == l + (b + rest);
      LineEndPastLine(l, b + rest);
      assert s[..|l|] == l && s[|l|] == b[0];
      assert BreakWidth(s, |l|) == |b| by {
        if b == "\r\n" {
          assert s[|l| + 1] == '\n';
        } else if b == "\r" && |l| + 1 < |s| {
          assert s[|l| + 1] == rest[0];
        }
      }
      assert s[|l| + |b|..] == rest;
    }
  }
}
