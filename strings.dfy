/**
 * The JavaScript string built-ins that the sitemap generator and the contact
 * form rely on: `trim`, `indexOf`, `split(/\r?\n/)`, `join` and the decimal
 * rendering of a number inside a template literal.
 */
module Strings {

  /** The ECMAScript WhiteSpace and LineTerminator code points: what `trim` removes. */
  const WhiteSpace: string := " \t\n\r\U{B}\U{C}\U{A0}\U{1680}\U{2000}\U{2001}\U{2002}\U{2003}\U{2004}\U{2005}\U{2006}\U{2007}\U{2008}\U{2009}\U{200A}\U{2028}\U{2029}\U{202F}\U{205F}\U{3000}\U{FEFF}"

  predicate IsSpace(c: char) {
    OccursFrom(c, WhiteSpace, 0)
  }

  /**
   * `c in s[i..]`, written as a recursion over the index so that the verifier
   * looks through the white-space table only as far as a proof needs.
   */
  predicate OccursFrom(c: char, s: string, i: nat)
    decreases |s| - i
  {
    i < |s| && (s[i] == c || OccursFrom(c, s, i + 1))
  }

  /** `OccursFrom` is membership in a suffix. */
  lemma {:induction false} OccursFromIsMembership(c: char, s: string, i: nat)
    requires i <= |s|
    ensures OccursFrom(c, s, i) <==> c in s[i..]
    decreases |s| - i
  {
    if i < |s| {
      OccursFromIsMembership(c, s, i + 1);
      assert s[i..] == [s[i]] + s[i + 1..];
    }
  }

  /** Printable ASCII, the space excluded. */
  predicate IsVisibleAscii(c: char) {
    '!' <= c <= '~'
  }

  predicate AllVisibleAscii(s: string) {
    forall i :: 0 <= i < |s| ==> IsVisibleAscii(s[i])
  }

  /** Printable ASCII characters other than the space are not white space. */
  lemma {:induction false} VisibleAsciiIsNotSpace(c: char)
    requires IsVisibleAscii(c)
    ensures !IsSpace(c)
  {
    assert forall i :: 0 <= i < |WhiteSpace| ==> WhiteSpace[i] != c;
    OccursFromIsMembership(c, WhiteSpace, 0);
  }

  /** The index of the first character at or after `i` that is not white space, or `|s|`. */
  function SkipSpace(s: string, i: nat): (k: nat)
    requires i <= |s|
    ensures i <= k <= |s|
    decreases |s| - i
  {
    if i < |s| && IsSpace(s[i]) then SkipSpace(s, i + 1) else i
  }

  /** The index just after the last character before `j` that is not white space, or 0. */
  function SkipSpaceBack(s: string, j: nat): (k: nat)
    requires j <= |s|
    ensures k <= j
  {
    if j > 0 && IsSpace(s[j - 1]) then SkipSpaceBack(s, j - 1) else j
  }

  /** `s.trimStart()`: a suffix of `s`. */
  function TrimStart(s: string): (r: string)
    ensures |r| <= |s| && r == s[|s| - |r|..]
  {
    s[SkipSpace(s, 0)..]
  }

  /** `s.trimEnd()`: a prefix of `s`. */
  function TrimEnd(s: string): (r: string)
    ensures |r| <= |s| && r == s[..|r|]
  {
    s[..SkipSpaceBack(s, |s|)]
  }

  /** `s.trim()`: white space removed from both ends. */
  function Trim(s: string): string {
    TrimStart(TrimEnd(s))
  }

  /** SkipSpace passes over white space only, and stops at the first other character. */
  lemma {:induction false} SkipSpaceSkipsSpace(s: string, i: nat)
    requires i <= |s|
    ensures forall k :: i <= k < SkipSpace(s, i) ==> IsSpace(s[k])
    ensures SkipSpace(s, i) < |s| ==> !IsSpace(s[SkipSpace(s, i)])
    decreases |s| - i
  {
    if i < |s| && IsSpace(s[i]) {
      SkipSpaceSkipsSpace(s, i + 1);
    }
  }

  /** SkipSpaceBack passes over white space only, and stops after the last other character. */
  lemma {:induction false} SkipSpaceBackSkipsSpace(s: string, j: nat)
    requires j <= |s|
    ensures forall k :: SkipSpaceBack(s, j) <= k < j ==> IsSpace(s[k])
    ensures SkipSpaceBack(s, j) > 0 ==> !IsSpace(s[SkipSpaceBack(s, j) - 1])
  {
    if j > 0 && IsSpace(s[j - 1]) {
      SkipSpaceBackSkipsSpace(s, j - 1);
    }
  }

  /** Characters after `j` do not change what SkipSpaceBack finds before `j`. */
  lemma {:induction false} SkipSpaceBackPrefix(s: string, t: string, j: nat)
    requires j <= |s|
    ensures SkipSpaceBack(s + t, j) == SkipSpaceBack(s, j)
  {
    if j > 0 {
      assert (s + t)[j - 1] == s[j - 1];
      SkipSpaceBackPrefix(s, t, j - 1);
    }
  }

  /** The trimmed text begins and ends with a character that is not white space. */
  lemma {:induction false} TrimEndsNotSpace(s: string)
    ensures var t := Trim(s); t == [] || (!IsSpace(t[0]) && !IsSpace(t[|t| - 1]))
  {
    var e := TrimEnd(s);
    SkipSpaceBackSkipsSpace(s, |s|);
    SkipSpaceSkipsSpace(e, 0);
  }

  /** Text with no white space at either end is its own trimmed text. */
  lemma {:induction false} TrimUnpadded(s: string)
    requires s != [] && !IsSpace(s[0]) && !IsSpace(s[|s| - 1])
    ensures Trim(s) == s
  {
    assert SkipSpaceBack(s, |s|) == |s|;
    assert TrimEnd(s) == s;
    assert SkipSpace(s, 0) == 0;
  }

  /** Trimming keeps a middle part of `s`: it adds no character. */
  lemma {:induction false} TrimKeepsCharacters(s: string, c: char)
    requires c in Trim(s)
    ensures c in s
  {
    var e := TrimEnd(s);
    var k := SkipSpace(e, 0);
    var i :| 0 <= i < |Trim(s)| && Trim(s)[i] == c;
    assert s[k + i] == c;
  }

  /** The trimmed text is empty exactly when `s` is all white space. */
  lemma {:induction false} TrimEmptyIffSpace(s: string)
    ensures Trim(s) == [] <==> forall i :: 0 <= i < |s| ==> IsSpace(s[i])
  {
    var b := SkipSpaceBack(s, |s|);
    var e := TrimEnd(s);
    SkipSpaceBackSkipsSpace(s, |s|);
    SkipSpaceSkipsSpace(e, 0);
    if Trim(s) == [] {
      assert SkipSpace(e, 0) == |e| == b;
    }
  }

  /** Trimming twice removes nothing more. */
  lemma {:induction false} TrimIdempotent(s: string)
    ensures Trim(Trim(s)) == Trim(s)
  {
    var t := Trim(s);
    if t != [] {
      TrimEndsNotSpace(s);
      TrimUnpadded(t);
    }
  }

  /** A white-space character at the end of a line never reaches the trimmed text. */
  lemma {:induction false} TrimIgnoresTrailingSpace(s: string, c: char)
    requires IsSpace(c)
    ensures Trim(s + [c]) == Trim(s)
  {
    var b := SkipSpaceBack(s, |s|);
    assert SkipSpaceBack(s + [c], |s| + 1) == SkipSpaceBack(s + [c], |s|);
    SkipSpaceBackPrefix(s, [c], |s|);
    assert TrimEnd(s + [c]) == (s + [c])[..b] == s[..b];
  }

  /** `s.indexOf(c)`: the index of the first `c` in `s`, or -1 when there is none. */
  function IndexOf(s: string, c: char): (i: int)
    ensures -1 <= i < |s|
    ensures i == -1 <==> c !in s
    ensures 0 <= i ==> s[i] == c && c !in s[..i]
  {
    if |s| == 0 then -1
    else if s[0] == c then 0
    else
      var j := IndexOf(s[1..], c);
      if j == -1 then -1
      else
        assert s[..j + 1] == [s[0]] + s[1..][..j];
        j + 1
  }

  /** The first `c` of `a + b` is the head of `b` when `a` holds no `c`. */
  lemma {:induction false} IndexOfAfter(a: string, b: string, c: char)
    requires c !in a && |b| > 0 && b[0] == c
    ensures IndexOf(a + b, c) == |a|
  {
    var s := a + b;
    assert s[|a|] == c;
    assert forall j :: 0 <= j < |a| ==> s[j] == a[j];
  }

  /** `s.startsWith(p)`. */
  predicate StartsWith(s: string, p: string) {
    |p| <= |s| && s[..|p|] == p
  }

  /** The text before a line break "\r\n" loses its carriage return. */
  function DropCarriageReturn(s: string): (r: string)
    ensures |r| <= |s| && r == s[..|r|] && |s| - 1 <= |r|
    ensures |r| < |s| <==> |s| > 0 && s[|s| - 1] == '\r'
  {
    if |s| > 0 && s[|s| - 1] == '\r' then s[..|s| - 1] else s
  }

  /** Trimming makes no difference between a line and the line without its carriage return. */
  lemma {:induction false} TrimDropCarriageReturn(s: string)
    ensures Trim(DropCarriageReturn(s)) == Trim(s)
  {
    if |s| > 0 && s[|s| - 1] == '\r' {
      var d := DropCarriageReturn(s);
      assert d + ['\r'] == s;
      TrimIgnoresTrailingSpace(d, '\r');
    }
  }

  /**
   * `split(/\r?\n/)` part way through a text: the lines already ended by a
   * line break, and the text of the line being read.
   */
  datatype Splitter = Splitter(done: seq<string>, current: string)

  /**
   * Reads one more character. A "\n" ends the current line; a "\r" right
   * before it is part of the break, not of the line.
   */
  function Feed(st: Splitter, c: char): Splitter {
    if c == '\n' then Splitter(st.done + [DropCarriageReturn(st.current)], "")
    else Splitter(st.done, st.current + [c])
  }

  /** Reads the characters of `s`, in order. */
  function FeedAll(st: Splitter, s: string): Splitter
    decreases |s|
  {
    if s == [] then st else FeedAll(Feed(st, s[0]), s[1..])
  }

  /**
   * `s.split(/\r?\n/)`: the pieces of `s` between line breaks, where a line
   * break is "\n" or "\r\n".
   */
  function SplitLines(s: string): (lines: seq<string>)
    ensures |lines| >= 1
  {
    var st := FeedAll(Splitter([], ""), s);
    st.done + [st.current]
  }

  /** Reading two pieces of text is reading the first, then the second. */
  lemma {:induction false} FeedAllAppend(st: Splitter, a: string, b: string)
    ensures FeedAll(st, a + b) == FeedAll(FeedAll(st, a), b)
    decreases |a|
  {
    if a == [] {
      assert a + b == b;
    } else {
      assert (a + b)[0] == a[0];
      DropOfAppend(a, b, 1);
      FeedAllAppend(Feed(st, a[0]), a[1..], b);
    }
  }

  /** The lines already ended are kept in front of whatever lines the rest of the text ends. */
  lemma {:induction false} FeedAllKeepsDone(d: seq<string>, c: string, s: string)
    ensures var st := FeedAll(Splitter([], c), s);
      FeedAll(Splitter(d, c), s) == Splitter(d + st.done, st.current)
    decreases |s|
  {
    if s != [] {
      var x, s' := s[0], s[1..];
      if x == '\n' {
        var dc := [DropCarriageReturn(c)];
        assert Feed(Splitter([], c), x) == Splitter(dc, "") by {
          assert [] + dc == dc;
        }
        FeedAllKeepsDone(d + dc, "", s');
        FeedAllKeepsDone(dc, "", s');
        AppendAssociative(d, dc, FeedAll(Splitter([], ""), s').done);
      } else {
        FeedAllKeepsDone(d, c + [x], s');
      }
    }
  }

  /** Text without a line break only extends the current line. */
  lemma {:induction false} FeedAllWithinLine(st: Splitter, s: string)
    requires '\n' !in s
    ensures FeedAll(st, s) == Splitter(st.done, st.current + s)
    decreases |s|
  {
    if s != [] {
      assert s[0] != '\n';
      assert '\n' !in s[1..] by {
        assert forall j :: 0 <= j < |s[1..]| ==> s[1..][j] == s[j + 1];
      }
      FeedAllWithinLine(Feed(st, s[0]), s[1..]);
      assert st.current + [s[0]] + s[1..] == st.current + s;
    }
  }

  /** A text without a line break is a single line. */
  lemma {:induction false} SplitLinesOfLine(s: string)
    requires '\n' !in s
    ensures SplitLines(s) == [s]
  {
    FeedAllWithinLine(Splitter([], ""), s);
    assert "" + s == s;
  }

  /**
   * Splitting at a "\n" that follows `a` gives the lines of `a`, the last one
   * without a carriage return, followed by the lines of `b`.
   */
  lemma {:induction false} SplitLinesAtBreak(a: string, b: string)
    ensures var la := SplitLines(a);
      SplitLines(a + "\n" + b)
      == la[..|la| - 1] + [DropCarriageReturn(la[|la| - 1])] + SplitLines(b)
  {
    var start := Splitter([], "");
    var sa := FeedAll(start, a);
    var sb := FeedAll(start, b);
    var d := sa.done + [DropCarriageReturn(sa.current)];
    FeedAllAppend(start, a + "\n", b);
    FeedAllAppend(start, a, "\n");
    assert FeedAll(sa, "\n") == Splitter(d, "") by {
      assert "\n"[1..] == "";
    }
    FeedAllKeepsDone(d, "", b);
    var la := SplitLines(a);
    assert la[..|la| - 1] == sa.done && la[|la| - 1] == sa.current;
  }

  /**
   * The first line ends at the first line break, without its carriage
   * return; the text after that break is split on its own.
   */
  lemma {:induction false} SplitLinesFirstLine(a: string, b: string)
    requires '\n' !in a
    ensures SplitLines(a + "\n" + b) == [DropCarriageReturn(a)] + SplitLines(b)
  {
    SplitLinesAtBreak(a, b);
    SplitLinesOfLine(a);
  }

  /** No piece of a split holds a line break. */
  lemma {:induction false} SplitLinesHaveNoBreak(s: string)
    ensures forall i :: 0 <= i < |SplitLines(s)| ==> '\n' !in SplitLines(s)[i]
  {
    FeedAllKeepsNoBreak(Splitter([], ""), s);
  }

  /** Neither the lines ended nor the current line holds a line break. */
  predicate NoBreak(st: Splitter) {
    && (forall i :: 0 <= i < |st.done| ==> '\n' !in st.done[i])
    && '\n' !in st.current
  }

  lemma {:induction false} FeedAllKeepsNoBreak(st: Splitter, s: string)
    requires NoBreak(st)
    ensures NoBreak(FeedAll(st, s))
    ensures var r := FeedAll(st, s); forall i :: 0 <= i < |r.done + [r.current]| ==> '\n' !in (r.done + [r.current])[i]
    decreases |s|
  {
    if s != [] {
      var c := st.current;
      if s[0] == '\n' {
        var dc := DropCarriageReturn(c);
        assert '\n' !in dc by {
          assert forall j :: 0 <= j < |dc| ==> dc[j] == c[j];
        }
      }
      FeedAllKeepsNoBreak(Feed(st, s[0]), s[1..]);
    } else {
      var l := st.done + [st.current];
      assert forall i :: 0 <= i < |l| ==> l[i] == if i < |st.done| then st.done[i] else st.current;
    }
  }

  lemma {:induction false} DropOfAppend<T>(a: seq<T>, t: seq<T>, k: nat)
    requires k <= |a|
    ensures (a + t)[k..] == a[k..] + t
  {
  }

  lemma {:induction false} AppendAssociative<T>(a: seq<T>, b: seq<T>, c: seq<T>)
    ensures a + (b + c) == a + b + c
  {
  }

  /** `parts.join(sep)`. */
  function Join(parts: seq<string>, sep: string): string {
    if |parts| == 0 then ""
    else if |parts| == 1 then parts[0]
    else parts[0] + sep + Join(parts[1..], sep)
  }

  /**
   * Splitting undoes joining with "\n", for lines that hold no "\n" and, except
   * for the last, do not end in a carriage return.
   */
  lemma {:induction false} SplitJoin(lines: seq<string>)
    requires |lines| >= 1
    requires forall i :: 0 <= i < |lines| ==> '\n' !in lines[i]
    requires forall i :: 0 <= i < |lines| - 1 ==> DropCarriageReturn(lines[i]) == lines[i]
    ensures SplitLines(Join(lines, "\n")) == lines
  {
    var l := lines[0];
    SplitLinesOfLine(l);
    if |lines| > 1 {
      var rest := lines[1..];
      SplitLinesAtBreak(l, Join(rest, "\n"));
      SplitJoin(rest);
      assert lines == [l] + rest;
    }
  }

  predicate IsDigit(c: char) {
    '0' <= c <= '9'
  }

  function DigitChar(d: nat): (c: char)
    requires d < 10
    ensures IsDigit(c)
  {
    (('0' as int) + d) as char
  }

  function DigitValue(c: char): (d: nat)
    requires IsDigit(c)
    ensures d < 10
  {
    (c as int) - ('0' as int)
  }

  /** The decimal text of a number, as `${n}` renders a non-negative integer. */
  function DecimalString(n: nat): (s: string)
    ensures |s| >= 1 && forall i :: 0 <= i < |s| ==> IsDigit(s[i])
    ensures |s| > 1 ==> s[0] != '0'
  {
    if n < 10 then [DigitChar(n)] else DecimalString(n / 10) + [DigitChar(n % 10)]
  }

  /** The number a string of decimal digits denotes. */
  function DecimalValue(s: string): nat
    requires forall i :: 0 <= i < |s| ==> IsDigit(s[i])
  {
    if s == [] then 0 else DecimalValue(s[..|s| - 1]) * 10 + DigitValue(s[|s| - 1])
  }

  /** Reading back the decimal text of `n` gives `n`: the rendering loses nothing. */
  lemma {:induction false} DecimalRoundTrip(n: nat)
    ensures DecimalValue(DecimalString(n)) == n
  {
    var s := DecimalString(n);
    if n >= 10 {
      DecimalRoundTrip(n / 10);
      assert s[..|s| - 1] == DecimalString(n / 10);
    }
  }
}
