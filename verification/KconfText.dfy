/** The text of a .config file in docs/kconfiglib.py: escaping, lines, and the loader's regular
    expressions. */
module KconfText {
  import opened Basics
  import opened KconfExpr

  // ---- Escaping ----------------------------------------------------------

  /** s.replace(c, r) for a one-character pattern. */
  function ReplaceChar(s: string, c: char, r: string): string {
    if s == [] then [] else (if s[0] == c then r else [s[0]]) + ReplaceChar(s[1..], c, r)
  }

  /** s.replace([a, b], [r]): greedy from the left, without overlaps. */
  function ReplacePair(s: string, a: char, b: char, r: char): string {
    if |s| < 2 then s
    else if s[0] == a && s[1] == b then [r] + ReplacePair(s[2..], a, b, r)
    else [s[0]] + ReplacePair(s[1..], a, b, r)
  }

  /** The writer: \ becomes \\, then " becomes \". */
  function Escape(s: string): string {
    ReplaceChar(ReplaceChar(s, '\\', ['\\', '\\']), '"', ['\\', '"'])
  }

  /** The loader: \" becomes ", then \\ becomes \. */
  function Unescape(s: string): string {
    ReplacePair(ReplacePair(s, '\\', '"', '"'), '\\', '\\', '\\')
  }

  /** A quote is only ever matched with the backslash written for it, whatever precedes. */
  lemma {:induction false} QuotesUndone(t: string)
    ensures ReplacePair(ReplaceChar(t, '"', ['\\', '"']), '\\', '"', '"') == t
  {
    if t != [] {
      var rest := ReplaceChar(t[1..], '"', ['\\', '"']);
      var all := ReplaceChar(t, '"', ['\\', '"']);
      QuotesUndone(t[1..]);
      if t[0] == '"' {
        assert all == ['\\', '"'] + rest;
        assert all[2..] == rest;
      } else {
        assert all == [t[0]] + rest;
        assert all[1..] == rest;
        if rest != [] {
          NoQuoteFirst(t[1..]);
        }
      }
    }
  }

  lemma NoQuoteFirst(t: string)
    requires t != []
    ensures ReplaceChar(t, '"', ['\\', '"']) != [] && ReplaceChar(t, '"', ['\\', '"'])[0] != '"'
  {
  }

  /** A run of doubled backslashes is halved: greedy matching keeps step with the doubling. */
  lemma {:induction false} BackslashesUndone(t: string)
    ensures ReplacePair(ReplaceChar(t, '\\', ['\\', '\\']), '\\', '\\', '\\') == t
  {
    if t != [] {
      var rest := ReplaceChar(t[1..], '\\', ['\\', '\\']);
      var all := ReplaceChar(t, '\\', ['\\', '\\']);
      BackslashesUndone(t[1..]);
      if t[0] == '\\' {
        assert all[2..] == rest;
      } else {
        assert all[1..] == rest;
      }
    }
  }

  /** The loader's unescaping undoes the writer's escaping, for every string. */
  lemma UnescapeEscape(s: string)
    ensures Unescape(Escape(s)) == s
  {
    QuotesUndone(ReplaceChar(s, '\\', ['\\', '\\']));
    BackslashesUndone(s);
  }

  lemma {:induction false} ReplaceConcat(a: string, b: string, c: char, r: string)
    ensures ReplaceChar(a + b, c, r) == ReplaceChar(a, c, r) + ReplaceChar(b, c, r)
    decreases |a|
  {
    if a == [] {
      assert a + b == b;
    } else {
      ReplaceConcat(a[1..], b, c, r);
      assert (a + b)[1..] == a[1..] + b;
    }
  }

  /** What the two passes of the writer make of a string: each backslash and each quote gets a
      backslash in front, everything else stays. */
  lemma EscapeMeans(s: string)
    ensures Escape([]) == []
    ensures s != [] ==> Escape(s) == (if s[0] == '\\' || s[0] == '"' then ['\\', s[0]] else [s[0]]) + Escape(s[1..])
  {
    if s != [] {
      var first := if s[0] == '\\' then ['\\', '\\'] else [s[0]];
      var rest := ReplaceChar(s[1..], '\\', ['\\', '\\']);
      ReplaceConcat(first, rest, '"', ['\\', '"']);
      EscapeShort(first);
    }
  }

  lemma EscapeShort(t: string)
    requires |t| == 1 || (|t| == 2 && t[0] == t[1] == '\\')
    ensures ReplaceChar(t, '"', ['\\', '"']) == if t[0] == '"' then ['\\', '"'] else t
  {
    assert t[1..] == [] || t[1..] == ['\\'];
    assert ['\\'][1..] == [];
    assert ReplaceChar(['\\'], '"', ['\\', '"']) == ['\\'];
  }

  lemma {:induction false} ReplaceKeepsOut(s: string, c: char, r: string, x: char)
    requires x !in s && x !in r
    ensures x !in ReplaceChar(s, c, r)
  {
    if s != [] {
      ReplaceKeepsOut(s[1..], c, r, x);
    }
  }

  // ---- Lines -------------------------------------------------------------

  const PREFIX: string := "CONFIG_"
  const UNSET: string := " is not set"

  predicate IsWord(c: char) {
    'a' <= c <= 'z' || 'A' <= c <= 'Z' || '0' <= c <= '9' || c == '_'
  }

  predicate IsSpace(c: char) {
    c == ' ' || '\t' <= c <= '\r' || '\U{1c}' <= c <= '\U{1f}' || c == '\U{85}' || c == '\U{a0}'
  }

  /** A name the loader's \w+ can match. */
  predicate WordName(s: string) {
    s != [] && forall i | 0 <= i < |s| :: IsWord(s[i])
  }

  function RStrip(s: string): string {
    if s != [] && IsSpace(s[|s| - 1]) then RStrip(s[..|s| - 1]) else s
  }

  /** The length of the longest prefix of word characters. */
  function WordLen(s: string): (n: nat)
    ensures n <= |s|
  {
    if s == [] || !IsWord(s[0]) then 0 else 1 + WordLen(s[1..])
  }

  datatype Parsed = Assign(name: string, val: string) | Ignored | Malformed

  /** The value part of an assignment: a string literal is unquoted, anything else is verbatim. */
  function ParseValue(name: string, val: string): Parsed {
    if val != [] && val[0] == '"' then
      if |val| < 2 || val[|val| - 1] != '"' then Malformed
      else Assign(name, Unescape(val[1..|val| - 1]))
    else Assign(name, val)
  }

  /** One line of load_config: "CONFIG_X=value" or "# CONFIG_X is not set". */
  function ParseLine(raw: string): Parsed {
    var line := RStrip(raw);
    if PREFIX <= line then
      var rest := line[|PREFIX|..];
      var n := WordLen(rest);
      if 0 < n < |rest| && rest[n] == '=' then ParseValue(rest[..n], rest[n + 1..]) else Ignored
    else if "# " + PREFIX <= line then
      var rest := line[|"# " + PREFIX|..];
      var n := WordLen(rest);
      if 0 < n && UNSET <= rest[n..] then Assign(rest[..n], "n") else Ignored
    else Ignored
  }

  lemma {:induction false} WordLenOfName(name: string, tail: string)
    requires WordName(name) && (tail != [] ==> !IsWord(tail[0]))
    ensures WordLen(name + tail) == |name|
  {
    var s := name + tail;
    assert s[1..] == name[1..] + tail;
    if |name| > 1 {
      WordLenOfName(name[1..], tail);
    } else {
      assert s[1..] == tail;
    }
  }

  lemma RStripKeeps(s: string)
    requires s != [] ==> !IsSpace(s[|s| - 1])
    ensures RStrip(s) == s
  {
  }

  /** A number's text survives the line format: no blank, quote, newline or backslash in the way. */
  predicate PlainText(v: string) {
    && '\n' !in v
    && (v != [] ==> v[0] != '"' && !IsSpace(v[|v| - 1]) && v[|v| - 1] != '\\')
  }

  function SetLine(name: string, val: string): string {
    PREFIX + name + "=" + val
  }

  function UnsetLine(name: string): string {
    "# " + PREFIX + name + UNSET
  }

  function StringLine(name: string, val: string): string {
    SetLine(name, "\"" + Escape(val) + "\"")
  }

  lemma ParseSetLine(name: string, val: string)
    requires WordName(name) && (val != [] ==> !IsSpace(val[|val| - 1]))
    ensures ParseLine(SetLine(name, val)) == ParseValue(name, val)
  {
    var line := SetLine(name, val);
    RStripKeeps(line);
    var rest := name + ("=" + val);
    assert line == PREFIX + rest;
    assert line[|PREFIX|..] == rest;
    WordLenOfName(name, "=" + val);
    assert rest[..|name|] == name && rest[|name| + 1..] == val;
  }

  lemma ParseUnsetLine(name: string)
    requires WordName(name)
    ensures ParseLine(UnsetLine(name)) == Assign(name, "n")
  {
    var line := UnsetLine(name);
    assert line[|line| - 1] == 't';
    RStripKeeps(line);
    var pre := "# " + PREFIX;
    var rest := name + UNSET;
    assert line == pre + rest;
    assert line[|pre|..] == rest;
    assert line[0] == '#';
    WordLenOfName(name, UNSET);
    assert rest[..|name|] == name && rest[|name|..] == UNSET;
  }

  /** A written string is read back unchanged, whatever quotes and backslashes it holds. */
  lemma ParseStringLine(name: string, val: string)
    requires WordName(name)
    ensures ParseLine(StringLine(name, val)) == Assign(name, val)
  {
    var q := "\"" + Escape(val) + "\"";
    ParseSetLine(name, q);
    assert q[1..|q| - 1] == Escape(val);
    UnescapeEscape(val);
  }

  // ---- Files -------------------------------------------------------------

  /** "\n".join(lines) + "\n". */
  function Text(lines: seq<string>): string {
    if |lines| == 0 then "\n"
    else if |lines| == 1 then lines[0] + "\n"
    else lines[0] + "\n" + Text(lines[1..])
  }

  /** The position of the first newline, or the length. */
  function LineEnd(s: string): (n: nat)
    ensures n <= |s|
    ensures n < |s| ==> s[n] == '\n'
  {
    if s == [] || s[0] == '\n' then 0 else 1 + LineEnd(s[1..])
  }

  /** The lines of a file without their newlines; a line ending in a backslash goes on in the next. */
  function Lines(text: string): seq<string>
    decreases |text|
  {
    if text == [] then []
    else
      var n := LineEnd(text);
      if n == |text| then [text]
      else
        var rest := Lines(text[n + 1..]);
        if n > 0 && text[n - 1] == '\\' && rest != [] then [text[..n - 1] + rest[0]] + rest[1..]
        else [text[..n]] + rest
  }

  predicate OneLine(s: string) {
    '\n' !in s && (s != [] ==> s[|s| - 1] != '\\')
  }

  lemma {:induction false} LineEndOf(line: string, tail: string)
    requires '\n' !in line
    ensures LineEnd(line + "\n" + tail) == |line|
  {
    var s := line + "\n" + tail;
    if line != [] {
      assert s[1..] == line[1..] + "\n" + tail;
      LineEndOf(line[1..], tail);
    }
  }

  lemma FirstLine(line: string, tail: string)
    requires OneLine(line)
    ensures Lines(line + "\n" + tail) == [line] + Lines(tail)
  {
    var s := line + "\n" + tail;
    LineEndOf(line, tail);
    assert s[|line| + 1..] == tail && s[..|line|] == line;
    if line != [] {
      assert s[|line| - 1] == line[|line| - 1];
    }
  }

  /** Reading a file that was written line by line gives the lines back. */
  lemma {:induction false} LinesOfText(lines: seq<string>)
    requires forall i | 0 <= i < |lines| :: OneLine(lines[i])
    ensures Lines(Text(lines)) == if lines == [] then [""] else lines
  {
    if lines == [] {
      FirstLine("", "");
      assert "" + "\n" + "" == "\n";
    } else if |lines| == 1 {
      FirstLine(lines[0], "");
      assert lines[0] + "\n" + "" == lines[0] + "\n";
      assert lines == [lines[0]] + [];
    } else {
      FirstLine(lines[0], Text(lines[1..]));
      LinesOfText(lines[1..]);
    }
  }
}
