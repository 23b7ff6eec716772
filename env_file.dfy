/**
 * `readEnvFile` of scripts/generate-sitemap.mjs: a line-oriented `KEY=VALUE`
 * parser for the project's `.env` file. The file's text (or the fact that it
 * could not be read) is an input; reading the file itself is not modelled.
 */
module EnvFile {
  import opened Wrappers
  import opened Strings

  /** A trimmed line that survives the filter: not blank and not a `#` comment. */
  predicate IsEntry(line: string) {
    line != "" && line[0] != '#'
  }

  /** Trims every line and keeps the entries, in file order. */
  function KeptLines(lines: seq<string>): (entries: seq<string>)
    ensures forall i :: 0 <= i < |entries| ==> IsEntry(entries[i])
  {
    if lines == [] then []
    else
      var t := Trim(lines[0]);
      (if IsEntry(t) then [t] else []) + KeptLines(lines[1..])
  }

  /** The entries of a file: its lines split on "\n" or "\r\n", trimmed, blank lines and comments dropped. */
  function Entries(content: string): seq<string> {
    KeptLines(SplitLines(content))
  }

  /** Every kept entry is trimmed, not blank and not a comment. */
  lemma {:induction false} KeptLinesAreEntries(lines: seq<string>)
    ensures forall e :: e in KeptLines(lines) ==> IsEntry(e) && Trim(e) == e
  {
    if lines != [] {
      TrimIdempotent(lines[0]);
      KeptLinesAreEntries(lines[1..]);
    }
  }

  predicate IsQuote(c: char) {
    c == '\'' || c == '"'
  }

  /**
   * `value.replace(/^['"]|['"]$/g, '')`: drops one leading and one trailing
   * quote character, independently of each other. A lone quote character is
   * consumed by the first alternative and leaves the empty string.
   */
  function StripQuotes(v: string): (r: string)
    ensures |v| - 2 <= |r| <= |v|
  {
    var w := if |v| > 0 && IsQuote(v[0]) then v[1..] else v;
    if |w| > 0 && IsQuote(w[|w| - 1]) then w[..|w| - 1] else w
  }

  /** The quotes around a value are removed, whether or not they match. */
  lemma {:induction false} StripQuotesAround(open: char, inner: string, close: char)
    requires IsQuote(open) && IsQuote(close)
    ensures StripQuotes([open] + inner + [close]) == inner
  {
    var v := [open] + inner + [close];
    assert v[1..] == inner + [close];
    assert (inner + [close])[..|inner|] == inner;
  }

  /** Only one quote is removed at each end. */
  lemma {:induction false} StripQuotesOnce(q: char, inner: string)
    requires IsQuote(q)
    ensures StripQuotes([q, q] + inner + [q, q]) == [q] + inner + [q]
  {
    var v := [q, q] + inner + [q, q];
    assert v[1..] == [q] + inner + [q, q];
    assert ([q] + inner + [q, q])[..|inner| + 2] == [q] + inner + [q];
  }

  /** A quote at the start alone is removed, and the end is left as it is. */
  lemma {:induction false} StripQuotesLeading(q: char, inner: string)
    requires IsQuote(q) && (inner == [] || !IsQuote(inner[|inner| - 1]))
    ensures StripQuotes([q] + inner) == inner
  {
    assert ([q] + inner)[1..] == inner;
  }

  /** A quote at the end alone is removed, and the start is left as it is. */
  lemma {:induction false} StripQuotesTrailing(inner: string, q: char)
    requires IsQuote(q) && (inner == [] || !IsQuote(inner[0]))
    ensures StripQuotes(inner + [q]) == inner
  {
    assert (inner + [q])[..|inner|] == inner;
  }

  /** A lone quote is removed by the leading alternative, which leaves nothing for the trailing one. */
  lemma {:induction false} StripQuotesLone(q: char)
    requires IsQuote(q)
    ensures StripQuotes([q]) == ""
  {
  }

  /** A value with no quote at either end is kept as it is. */
  lemma {:induction false} StripQuotesUnquoted(v: string)
    requires v == [] || (!IsQuote(v[0]) && !IsQuote(v[|v| - 1]))
    ensures StripQuotes(v) == v
  {
  }

  /**
   * One entry: split at the first `=`; the key is the trimmed text before it,
   * the value the trimmed text after it with its quotes stripped. An entry
   * without `=` gives nothing.
   */
  function ParseEntry(entry: string): (kv: Option<(string, string)>)
    ensures kv.None? <==> '=' !in entry
  {
    var separator := IndexOf(entry, '=');
    if separator == -1 then None
    else Some((Trim(entry[..separator]), StripQuotes(Trim(entry[separator + 1..]))))
  }

  /** The key ends at the first `=`, so the value may itself hold `=`. */
  lemma {:induction false} ParseEntrySplitsAtFirstEquals(keyText: string, valueText: string)
    requires '=' !in keyText
    ensures ParseEntry(keyText + "=" + valueText)
      == Some((Trim(keyText), StripQuotes(Trim(valueText))))
  {
    var e := keyText + ("=" + valueText);
    assert keyText + "=" + valueText == e;
    IndexOfAfter(keyText, "=" + valueText, '=');
    assert e[..|keyText|] == keyText;
    assert e[|keyText| + 1..] == valueText;
  }

  /** The assignment each entry makes, if any, in order. */
  function Assignments(entries: seq<string>): (kvs: seq<Option<(string, string)>>)
    ensures |kvs| == |entries|
    ensures forall i :: 0 <= i < |entries| ==> kvs[i] == ParseEntry(entries[i])
  {
    if entries == [] then [] else [ParseEntry(entries[0])] + Assignments(entries[1..])
  }

  /** `parsed[key] = value`, or nothing for an entry without `=`. */
  function Store(parsed: map<string, string>, kv: Option<(string, string)>): map<string, string> {
    match kv
    case None => parsed
    case Some((key, value)) => parsed[key := value]
  }

  /** The assignments `kvs`, made in order on top of `parsed`. */
  function Assign(parsed: map<string, string>, kvs: seq<Option<(string, string)>>): map<string, string>
    decreases |kvs|
  {
    if kvs == [] then parsed else Assign(Store(parsed, kvs[0]), kvs[1..])
  }

  /** The object `readEnvFile` builds from a file's text. */
  function ParseEnv(content: string): map<string, string> {
    Assign(map[], Assignments(Entries(content)))
  }

  /** What `readEnvFile` resolves to: the parsed file, or `{}` when it could not be read. */
  function EnvFromFile(file: Option<string>): map<string, string> {
    match file
    case None => map[]
    case Some(content) => ParseEnv(content)
  }

  /** The parsing loop of `readEnvFile`. */
  method ReadEnvFile(file: Option<string>) returns (parsed: map<string, string>)
    ensures file.None? ==> parsed == map[]
    ensures file.Some? ==> parsed == ParseEnv(file.value)
  {
    if file.None? {
      return map[];
    }
    var entries := Entries(file.value);
    parsed := map[];
    for i := 0 to |entries|
      invariant Assign(parsed, Assignments(entries[i..])) == ParseEnv(file.value)
    {
      var entry := entries[i];
      AssignStep(parsed, entries, i);
      var separator := IndexOf(entry, '=');
      ParseEntryAt(entry, separator);
      if separator == -1 {
        continue;
      }
      var key := Trim(entry[..separator]);
      var value := StripQuotes(Trim(entry[separator + 1..]));
      parsed := parsed[key := value];
    }
  }

  /** `parseEntry` in the terms of the loop in `readEnvFile`, given where the first `=` is. */
  lemma {:induction false} ParseEntryAt(entry: string, separator: int)
    requires separator == IndexOf(entry, '=')
    ensures separator == -1 ==> ParseEntry(entry) == None
    ensures separator != -1 ==>
              && 0 <= separator < |entry|
              && ParseEntry(entry) == Some((Trim(entry[..separator]), StripQuotes(Trim(entry[separator + 1..]))))
  {
    if separator != -1 {
      ParseEntryAtSeparator(entry, separator);
    }
  }

  lemma {:induction false} ParseEntryAtSeparator(entry: string, separator: int)
    requires separator == IndexOf(entry, '=') && separator != -1
    ensures ParseEntry(entry) == Some((Trim(entry[..separator]), StripQuotes(Trim(entry[separator + 1..]))))
  {
  }

  /** One step of the loop in `readEnvFile`: the entry at `i` is stored, then the ones after it. */
  lemma {:induction false} AssignStep(parsed: map<string, string>, entries: seq<string>, i: nat)
    requires i < |entries|
    ensures Assign(parsed, Assignments(entries[i..]))
            == Assign(Store(parsed, ParseEntry(entries[i])), Assignments(entries[i + 1..]))
  {
    assert entries[i..][1..] == entries[i + 1..];
    AssignCons(parsed, ParseEntry(entries[i]), Assignments(entries[i + 1..]));
  }

  lemma {:induction false} AssignCons(parsed: map<string, string>, kv: Option<(string, string)>, rest: seq<Option<(string, string)>>)
    ensures Assign(parsed, [kv] + rest) == Assign(Store(parsed, kv), rest)
  {
    assert ([kv] + rest)[1..] == rest;
  }

  /** Assigning on top of `parsed` gives `parsed` overridden by the assignments alone. */
  lemma {:induction false} AssignOverrides(parsed: map<string, string>, kvs: seq<Option<(string, string)>>)
    ensures Assign(parsed, kvs) == parsed + Assign(map[], kvs)
    decreases |kvs|
  {
    if kvs != [] {
      var kv := kvs[0];
      var rest := kvs[1..];
      AssignOverrides(Store(parsed, kv), rest);
      AssignOverrides(Store(map[], kv), rest);
      assert Store(parsed, kv) == parsed + Store(map[], kv);
      MapUnionAssociative(parsed, Store(map[], kv), Assign(map[], rest));
    }
  }

  lemma {:induction false} MapUnionAssociative<K, V>(a: map<K, V>, b: map<K, V>, c: map<K, V>)
    ensures (a + b) + c == a + (b + c)
  {
  }

  lemma {:induction false} AssignAppend(parsed: map<string, string>, a: seq<Option<(string, string)>>, b: seq<Option<(string, string)>>)
    ensures Assign(parsed, a + b) == Assign(Assign(parsed, a), b)
    decreases |a|
  {
    if a == [] {
      assert a + b == b;
    } else {
      assert (a + b)[1..] == a[1..] + b;
      AssignAppend(Store(parsed, a[0]), a[1..], b);
    }
  }

  /** KeptLines works line by line. */
  lemma {:induction false} KeptLinesAppend(a: seq<string>, b: seq<string>)
    ensures KeptLines(a + b) == KeptLines(a) + KeptLines(b)
  {
    if a != [] {
      DropOfAppend(a, b, 1);
      assert (a + b)[0] == a[0];
      KeptLinesAppend(a[1..], b);
    } else {
      assert a + b == b;
    }
  }

  /** The entries of two pieces of text joined by a line break are those of each piece. */
  lemma {:induction false} EntriesAtBreak(a: string, b: string)
    ensures Entries(a + "\n" + b) == Entries(a) + Entries(b)
  {
    var la := SplitLines(a);
    var init, last := la[..|la| - 1], la[|la| - 1];
    SplitLinesAtBreak(a, b);
    assert la == init + [last];
    TrimDropCarriageReturn(last);
    KeptLine(last);
    KeptLine(DropCarriageReturn(last));
    KeptLinesReplaceLast(init, last, DropCarriageReturn(last), SplitLines(b));
  }

  /** The entries kept from a single line. */
  lemma {:induction false} KeptLine(line: string)
    ensures KeptLines([line]) == if IsEntry(Trim(line)) then [Trim(line)] else []
  {
    assert [line][1..] == [];
  }

  /** A last line with the same entries leaves the entries of the whole unchanged. */
  lemma {:induction false} KeptLinesReplaceLast(init: seq<string>, last: string, d: string, rest: seq<string>)
    requires KeptLines([d]) == KeptLines([last])
    ensures KeptLines(init + [d] + rest) == KeptLines(init + [last]) + KeptLines(rest)
  {
    KeptLinesAppend(init + [d], rest);
    KeptLinesAppend(init, [d]);
    KeptLinesAppend(init, [last]);
  }

  lemma {:induction false} AssignmentsAppend(a: seq<string>, b: seq<string>)
    ensures Assignments(a + b) == Assignments(a) + Assignments(b)
  {
    if a == [] {
      assert a + b == b;
    } else {
      assert (a + b)[1..] == a[1..] + b;
      AssignmentsAppend(a[1..], b);
    }
  }

  /** Lines further down override earlier lines that assign the same key. */
  lemma {:induction false} LaterLinesOverride(a: string, b: string)
    ensures ParseEnv(a + "\n" + b) == ParseEnv(a) + ParseEnv(b)
  {
    EntriesAtBreak(a, b);
    AssignmentsAppend(Entries(a), Entries(b));
    AssignAppend(map[], Assignments(Entries(a)), Assignments(Entries(b)));
    AssignOverrides(ParseEnv(a), Assignments(Entries(b)));
  }

  /** The entries of a text without line breaks: its trimmed text, if that is an entry. */
  lemma {:induction false} EntriesOfLine(line: string)
    requires '\n' !in line
    ensures Entries(line) == if IsEntry(Trim(line)) then [Trim(line)] else []
  {
    SplitLinesOfLine(line);
    assert KeptLines([line]) == (if IsEntry(Trim(line)) then [Trim(line)] else []) + KeptLines([]);
  }

  /** Assigning a single entry stores what it assigns. */
  lemma {:induction false} AssignOne(parsed: map<string, string>, entry: string)
    ensures Assign(parsed, Assignments([entry])) == Store(parsed, ParseEntry(entry))
  {
    assert Assignments([entry]) == [ParseEntry(entry)] + Assignments([]);
    AssignSingle(parsed, ParseEntry(entry));
  }

  lemma {:induction false} AssignSingle(parsed: map<string, string>, kv: Option<(string, string)>)
    ensures Assign(parsed, [kv]) == Store(parsed, kv)
  {
    assert [kv][1..] == [];
  }

  /** A single line assigns what its trimmed text assigns, if that text is an entry. */
  lemma {:induction false} SingleLine(line: string)
    requires '\n' !in line
    ensures ParseEnv(line) == if IsEntry(Trim(line)) then Store(map[], ParseEntry(Trim(line))) else map[]
  {
    EntriesOfLine(line);
    if IsEntry(Trim(line)) {
      AssignOne(map[], Trim(line));
    } else {
      assert Assignments([]) == [];
    }
  }

  /** A line that is blank, a comment, or without `=` assigns nothing. */
  lemma {:induction false} InertLineParsesEmpty(line: string)
    requires '\n' !in line
    requires var t := Trim(line); !IsEntry(t) || '=' !in t
    ensures ParseEnv(line) == map[]
  {
    SingleLine(line);
  }

  /** A line that is blank, a comment, or without `=` adds nothing, wherever it stands. */
  lemma {:induction false} InertLineAddsNothing(a: string, line: string, b: string)
    requires '\n' !in line
    requires var t := Trim(line); !IsEntry(t) || '=' !in t
    ensures ParseEnv(a + "\n" + line + "\n" + b) == ParseEnv(a + "\n" + b)
  {
    InertLineParsesEmpty(line);
    LaterLinesOverride(a + "\n" + line, b);
    LaterLinesOverride(a, line);
    LaterLinesOverride(a, b);
    MapUnionEmpty(ParseEnv(a));
  }

  lemma {:induction false} MapUnionEmpty<K, V>(m: map<K, V>)
    ensures m + map[] == m
  {
  }

  /** Blank lines and `#` comments add no entry. */
  lemma {:induction false} BlankOrCommentLineIgnored(a: string, line: string, b: string)
    requires '\n' !in line
    requires Trim(line) == "" || Trim(line)[0] == '#'
    ensures ParseEnv(a + "\n" + line + "\n" + b) == ParseEnv(a + "\n" + b)
  {
    InertLineAddsNothing(a, line, b);
  }

  /** A line without `=` adds no entry. */
  lemma {:induction false} LineWithoutSeparatorIgnored(a: string, line: string, b: string)
    requires '\n' !in line && '=' !in line
    ensures ParseEnv(a + "\n" + line + "\n" + b) == ParseEnv(a + "\n" + b)
  {
    InertLineAddsNothing(a, line, b);
  }

  /** The last assignment to a key wins over every earlier line. */
  lemma {:induction false} LastAssignmentWins(a: string, line: string)
    requires '\n' !in line
    requires IsEntry(Trim(line)) && '=' in Trim(line)
    ensures var kv := ParseEntry(Trim(line)).value;
      ParseEnv(a + "\n" + line) == ParseEnv(a)[kv.0 := kv.1]
  {
    LaterLinesOverride(a, line);
    SingleLine(line);
    OverrideWithStore(ParseEnv(a), ParseEntry(Trim(line)));
  }

  /**
   * A line `KEY=VALUE` of printable characters, with no `=` in the key, no `#`
   * opening it and no quote at either end of the value, sets `KEY` to `VALUE`.
   */
  lemma {:induction false} PlainLineAssigns(key: string, value: string)
    requires key != "" && value != "" && AllVisibleAscii(key) && AllVisibleAscii(value)
    requires '=' !in key && key[0] != '#'
    requires !IsQuote(value[0]) && !IsQuote(value[|value| - 1])
    ensures ParseEnv(key + "=" + value) == map[key := value]
  {
    var line := key + "=" + value;
    PlainLineUnpadded(key, value);
    StripQuotesUnquoted(value);
    ParseEntrySplitsAtFirstEquals(key, value);
    SingleLine(line);
  }

  /** Such a line, its key and its value have nothing to trim, and the line is one entry. */
  lemma {:induction false} PlainLineUnpadded(key: string, value: string)
    requires key != "" && value != "" && AllVisibleAscii(key) && AllVisibleAscii(value)
    requires key[0] != '#'
    ensures var line := key + "=" + value;
      && '\n' !in line && IsEntry(line)
      && Trim(line) == line && Trim(key) == key && Trim(value) == value
  {
    var line := key + "=" + value;
    assert line == key + ("=" + value);
    assert forall i :: 0 <= i < |line| ==> IsVisibleAscii(line[i]);
    VisibleAsciiIsNotSpace(key[0]);
    VisibleAsciiIsNotSpace(key[|key| - 1]);
    VisibleAsciiIsNotSpace(value[0]);
    VisibleAsciiIsNotSpace(value[|value| - 1]);
    assert line[0] == key[0] && line[|line| - 1] == value[|value| - 1];
    TrimUnpadded(line);
    TrimUnpadded(key);
    TrimUnpadded(value);
  }

  lemma {:induction false} OverrideWithStore(m: map<string, string>, kv: Option<(string, string)>)
    requires kv.Some?
    ensures m + Store(map[], kv) == m[kv.value.0 := kv.value.1]
  {
  }
}
