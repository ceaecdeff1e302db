/**
 The iCalendar export: escaping (section 3.3.11 of RFC 5545) and line folding
 (section 3.1 of RFC 5545), with the reader's unfolding and unescaping as their
 inverses.
 */
module Ics {
  import opened Prelude

  const MAX_OCTETS := 75

  // ---------- Escaping ----------

  /** strings.ReplaceAll. */
  function ReplaceAll(s: string, pattern: string, replacement: string): string
    requires pattern != []
  {
    if |s| < |pattern| then s
    else if pattern <= s then replacement + ReplaceAll(s[|pattern|..], pattern, replacement)
    else [s[0]] + ReplaceAll(s[1..], pattern, replacement)
  }

  /** The line break at the head of a text, if there is one: its length. */
  function Break(s: string): nat {
    if s == [] then 0
    else if s[0] == '\r' then (if |s| > 1 && s[1] == '\n' then 2 else 1)
    else if s[0] == '\n' then 1 else 0
  }

  /** The escaped form of one character. */
  function Escaped(c: char): string {
    if c == '\\' then "\\\\" else if c == ';' then "\\;" else if c == ',' then "\\," else [c]
  }

  /** Escaping in one pass from left to right. */
  function Escape(s: string): string {
    if s == [] then []
    else if Break(s) > 0 then "\\n" + Escape(s[Break(s)..])
    else Escaped(s[0]) + Escape(s[1..])
  }

  /** Every line break, of whatever form, as a single line feed. */
  function Normalised(s: string): string {
    if s == [] then []
    else if Break(s) > 0 then "\n" + Normalised(s[Break(s)..])
    else [s[0]] + Normalised(s[1..])
  }

  /** What a reader makes of an escaped text. */
  function Unescape(s: string): string {
    if |s| < 2 then s
    else if s[0] != '\\' then [s[0]] + Unescape(s[1..])
    else if s[1] == 'n' || s[1] == 'N' then "\n" + Unescape(s[2..])
    else if s[1] == '\\' || s[1] == ';' || s[1] == ',' then [s[1]] + Unescape(s[2..])
    else [s[0]] + Unescape(s[1..])
  }

  /** Nothing in the text ends a line. */
  predicate OneLine(s: string) {
    forall i | 0 <= i < |s| :: s[i] != '\r' && s[i] != '\n'
  }

  /** Reading back an escaped text gives the text with its line breaks normalised. */
  lemma {:induction false} UnescapeInvertsEscape(s: string)
    ensures Unescape(Escape(s)) == Normalised(s)
    decreases |s|
  {
    if s != [] {
      var n := if Break(s) > 0 then Break(s) else 1;
      UnescapeInvertsEscape(s[n..]);
      UnescapeHead(if Break(s) > 0 then "\\n" else Escaped(s[0]), Escape(s[n..]),
        if Break(s) > 0 then '\n' else s[0]);
    }
  }

  /** One escaped character reads back as that character. */
  lemma UnescapeHead(head: string, rest: string, c: char)
    requires c == '\n' ==> head == "\\n"
    requires c != '\n' ==> head == Escaped(c)
    ensures Unescape(head + rest) == [c] + Unescape(rest)
  {
    var s := head + rest;
    if c != '\n' && c != '\\' && c != ';' && c != ',' {
      assert s[1..] == rest && s[0] == c;
      if |s| < 2 {
        assert rest == [];
      }
    } else {
      assert s[2..] == rest && s[0] == '\\';
    }
  }

  lemma {:induction false} EscapeIsOneLine(s: string)
    ensures OneLine(Escape(s))
    decreases |s|
  {
    if s != [] {
      EscapeIsOneLine(s[if Break(s) > 0 then Break(s) else 1..]);
    }
  }

  // ---------- Six passes are one ----------

  function One(x: char, c: char, r: string): string { if x == c then r else [x] }

  /** A one-character pattern is replaced character by character. */
  lemma ReplaceStep(x: char, t: string, c: char, r: string)
    ensures ReplaceAll([x] + t, [c], r) == One(x, c, r) + ReplaceAll(t, [c], r)
  {
    var s := [x] + t;
    assert s[1..] == t;
    if x == c {
      assert s[..1] == [c];
    } else {
      assert s[0] != [c][0];
    }
  }

  lemma Regroup(a: string, b: string, c: string)
    ensures (a + b) + c == a + (b + c)
  {
  }

  lemma {:induction false} ReplaceSplits(a: string, b: string, c: char, r: string)
    ensures ReplaceAll(a + b, [c], r) == ReplaceAll(a, [c], r) + ReplaceAll(b, [c], r)
  {
    if a == [] {
      assert a + b == b;
    } else {
      var x, t := a[0], a[1..];
      assert a == [x] + t;
      Regroup([x], t, b);
      calc {
        ReplaceAll(a + b, [c], r);
      ==
        ReplaceAll([x] + (t + b), [c], r);
      == { ReplaceStep(x, t + b, c, r); }
        One(x, c, r) + ReplaceAll(t + b, [c], r);
      == { ReplaceSplits(t, b, c, r); }
        One(x, c, r) + (ReplaceAll(t, [c], r) + ReplaceAll(b, [c], r));
      == { Regroup(One(x, c, r), ReplaceAll(t, [c], r), ReplaceAll(b, [c], r)); }
        (One(x, c, r) + ReplaceAll(t, [c], r)) + ReplaceAll(b, [c], r);
      == { ReplaceStep(x, t, c, r); }
        ReplaceAll(a, [c], r) + ReplaceAll(b, [c], r);
      }
    }
  }

  lemma ReplaceOne(x: char, c: char, r: string)
    ensures ReplaceAll([x], [c], r) == One(x, c, r)
  {
    ReplaceStep(x, [], c, r);
    assert [x] + [] == [x];
  }

  lemma ReplaceTwo(x: char, y: char, c: char, r: string)
    requires x != c && y != c
    ensures ReplaceAll([x, y], [c], r) == [x, y]
  {
    assert [x, y] == [x] + [y];
    ReplaceSplits([x], [y], c, r);
    ReplaceOne(x, c, r);
    ReplaceOne(y, c, r);
  }

  /** The first three passes: they work character by character. */
  function Three(s: string): string {
    ReplaceAll(ReplaceAll(ReplaceAll(s, "\\", "\\\\"), ";", "\\;"), ",", "\\,")
  }

  /** The last two. */
  function Two(s: string): string {
    ReplaceAll(ReplaceAll(s, "\n", "\\n"), "\r", "\\n")
  }

  lemma ThreeOfOne(x: char)
    ensures Three([x]) == Escaped(x)
  {
    ReplaceOne(x, '\\', "\\\\");
    if x == '\\' {
      ReplaceTwo('\\', '\\', ';', "\\;");
      ReplaceTwo('\\', '\\', ',', "\\,");
    } else {
      ReplaceOne(x, ';', "\\;");
      if x == ';' {
        ReplaceTwo('\\', ';', ',', "\\,");
      } else {
        ReplaceOne(x, ',', "\\,");
      }
    }
  }

  lemma ThreeSplits(x: char, t: string)
    ensures Three([x] + t) == Escaped(x) + Three(t)
  {
    ReplaceSplits([x], t, '\\', "\\\\");
    var a, b := ReplaceAll([x], "\\", "\\\\"), ReplaceAll(t, "\\", "\\\\");
    ReplaceSplits(a, b, ';', "\\;");
    ReplaceSplits(ReplaceAll(a, ";", "\\;"), ReplaceAll(b, ";", "\\;"), ',', "\\,");
    ThreeOfOne(x);
  }

  lemma TwoSplits(a: string, b: string)
    ensures Two(a + b) == Two(a) + Two(b)
  {
    ReplaceSplits(a, b, '\n', "\\n");
    ReplaceSplits(ReplaceAll(a, "\n", "\\n"), ReplaceAll(b, "\n", "\\n"), '\r', "\\n");
  }

  /** The last two passes leave anything but a line break alone. */
  lemma TwoOfOne(x: char)
    ensures Two([x]) == if x == '\r' || x == '\n' then "\\n" else [x]
  {
    ReplaceOne(x, '\n', "\\n");
    if x == '\n' {
      ReplaceTwo('\\', 'n', '\r', "\\n");
    } else {
      ReplaceOne(x, '\r', "\\n");
    }
  }

  lemma TwoOfPair(x: char, y: char)
    requires x != '\r' && x != '\n' && y != '\r' && y != '\n'
    ensures Two([x, y]) == [x, y]
  {
    ReplaceTwo(x, y, '\n', "\\n");
    ReplaceTwo(x, y, '\r', "\\n");
  }

  function Crlf(s: string): string { ReplaceAll(s, "\r\n", "\\n") }

  /** The fourth pass: a character that does not start a CR LF stays. */
  lemma CrlfSkips(x: char, t: string)
    requires x != '\r' || t == [] || t[0] != '\n'
    ensures Crlf([x] + t) == [x] + Crlf(t)
  {
    var s := [x] + t;
    assert s[1..] == t && s[0] == x;
    if t == [] {
      assert |s| < 2;
    } else {
      assert s[1] == t[0];
    }
  }

  lemma CrlfTakes(t: string)
    ensures Crlf("\r\n" + t) == "\\n" + Crlf(t)
  {
    assert ("\r\n" + t)[2..] == t;
  }

  lemma CrlfSkipsEscaped(x: char, t: string)
    requires x != '\r' || t == [] || t[0] != '\n'
    ensures Crlf(Escaped(x) + t) == Escaped(x) + Crlf(t)
  {
    if x == '\\' || x == ';' || x == ',' {
      assert Escaped(x) + t == ['\\'] + ([x] + t);
      CrlfSkips('\\', [x] + t);
      CrlfSkips(x, t);
      assert Escaped(x) + Crlf(t) == ['\\'] + ([x] + Crlf(t));
    } else {
      CrlfSkips(x, t);
    }
  }

  /** After three passes a text starts with a line feed only if it did before. */
  lemma ThreeHead(t: string)
    ensures Three(t) == [] <==> t == []
    ensures t != [] ==> (Three(t)[0] == '\n' <==> t[0] == '\n')
  {
    if t != [] {
      assert t == [t[0]] + t[1..];
      ThreeSplits(t[0], t[1..]);
    }
  }

  function Six(s: string): string { Two(Crlf(Three(s))) }

  lemma SixAtBreak(t: string)
    ensures Six("\r\n" + t) == "\\n" + Six(t)
  {
    assert "\r\n" + t == ['\r'] + (['\n'] + t);
    ThreeSplits('\r', ['\n'] + t);
    ThreeSplits('\n', t);
    assert ['\r'] + (['\n'] + Three(t)) == "\r\n" + Three(t);
    CrlfTakes(Three(t));
    TwoSplits("\\n", Crlf(Three(t)));
    TwoOfPair('\\', 'n');
  }

  lemma SixAtOne(x: char, t: string)
    requires x != '\r' || t == [] || t[0] != '\n'
    ensures Six([x] + t) == (if x == '\r' || x == '\n' then "\\n" else Escaped(x)) + Six(t)
  {
    ThreeSplits(x, t);
    ThreeHead(t);
    CrlfSkipsEscaped(x, Three(t));
    TwoSplits(Escaped(x), Crlf(Three(t)));
    if x == '\\' || x == ';' || x == ',' {
      TwoOfPair('\\', x);
    } else {
      TwoOfOne(x);
    }
  }

  /** The six replacements, one after the other, do what one pass does. */
  lemma {:induction false} SixPassesAreOne(s: string)
    ensures Six(s) == Escape(s)
    decreases |s|
  {
    if s == [] {
    } else if Break(s) == 2 {
      SixPassesAreOne(s[2..]);
      SixAtBreak(s[2..]);
      assert s == "\r\n" + s[2..];
    } else {
      SixPassesAreOne(s[1..]);
      SixAtOne(s[0], s[1..]);
      assert s == [s[0]] + s[1..];
    }
  }

  /** escapeICS. */
  method EscapeIcs(text: string) returns (value: string)
    ensures value == Escape(text)
  {
    value := ReplaceAll(text, "\\", "\\\\");
    value := ReplaceAll(value, ";", "\\;");
    value := ReplaceAll(value, ",", "\\,");
    value := ReplaceAll(value, "\r\n", "\\n");
    value := ReplaceAll(value, "\n", "\\n");
    value := ReplaceAll(value, "\r", "\\n");
    SixPassesAreOne(text);
  }

  // ---------- Folding ----------

  /** The number of octets of a character in UTF-8. */
  function Width(c: char): nat {
    if c as int < 0x80 then 1 else if c as int < 0x800 then 2
    else if c as int < 0x10000 then 3 else 4
  }

  function Octets(s: string): nat {
    if s == [] then 0 else Width(s[0]) + Octets(s[1..])
  }

  /** The folded form of the rest of a line, `column` octets into a physical line. */
  function FoldFrom(line: string, column: nat): string {
    if line == [] then []
    else
      var w := Width(line[0]);
      if column + w > MAX_OCTETS then "\r\n " + [line[0]] + FoldFrom(line[1..], 1 + w)
      else [line[0]] + FoldFrom(line[1..], column + w)
  }

  lemma FoldNext(out: string, line: string, i: nat, column: nat)
    requires i < |line|
    ensures var w := Width(line[i]);
      out + FoldFrom(line[i..], column) ==
      if column + w > MAX_OCTETS
      then out + "\r\n " + [line[i]] + FoldFrom(line[i + 1..], 1 + w)
      else out + [line[i]] + FoldFrom(line[i + 1..], column + w)
  {
    var c, t, w := line[i], line[i + 1..], Width(line[i]);
    assert line[i..][0] == c && line[i..][1..] == t;
    if column + w > MAX_OCTETS {
      Regroup(out, "\r\n " + [c], FoldFrom(t, 1 + w));
      Regroup(out, "\r\n ", [c]);
    } else {
      Regroup(out, [c], FoldFrom(t, column + w));
    }
  }

  /** foldICSLine. */
  method FoldIcsLine(line: string) returns (out: string)
    ensures out == FoldFrom(line, 0)
  {
    out := "";
    var column: nat := 0;
    var i := 0;
    while i < |line|
      invariant 0 <= i <= |line|
      invariant FoldFrom(line, 0) == out + FoldFrom(line[i..], column)
    {
      var width := Width(line[i]);
      FoldNext(out, line, i, column);
      if column + width > MAX_OCTETS {
        out := out + "\r\n ";
        column := 1;
      }
      out := out + [line[i]];
      column := column + width;
      i := i + 1;
    }
    assert FoldFrom(line[i..], column) == [];
  }

  /** A reader drops every line break that is followed by a space or a tab. */
  predicate Continues(s: string) {
    |s| >= 3 && s[0] == '\r' && s[1] == '\n' && (s[2] == ' ' || s[2] == '\t')
  }

  function Unfold(s: string): string {
    if s == [] then []
    else if Continues(s) then Unfold(s[3..])
    else [s[0]] + Unfold(s[1..])
  }

  /** Then it splits at the line breaks that are left. */
  function Lines(s: string): (lines: seq<string>)
    ensures lines != []
  {
    if s == [] then [[]]
    else if |s| >= 2 && s[0] == '\r' && s[1] == '\n' then [[]] + Lines(s[2..])
    else
      var rest := Lines(s[1..]);
      [[s[0]] + rest[0]] + rest[1..]
  }

  /** The first character of a folded line, with the break before it if it wraps. */
  lemma FoldHead(line: string, column: nat, rest: string)
    requires line != []
    ensures var c, w := line[0], Width(line[0]);
      FoldFrom(line, column) + rest ==
      if column + w > MAX_OCTETS
      then "\r\n" + ([' '] + ([c] + (FoldFrom(line[1..], 1 + w) + rest)))
      else [c] + (FoldFrom(line[1..], column + w) + rest)
  {
    var c, w := line[0], Width(line[0]);
    if column + w > MAX_OCTETS {
      var tail := FoldFrom(line[1..], 1 + w);
      assert "\r\n " + [c] + tail + rest == "\r\n" + ([' '] + ([c] + (tail + rest)));
    } else {
      Regroup([c], FoldFrom(line[1..], column + w), rest);
    }
  }

  /** Unfolding undoes folding, wherever the line began. */
  lemma {:induction false} UnfoldInvertsFold(line: string, column: nat, rest: string)
    requires OneLine(line)
    ensures Unfold(FoldFrom(line, column) + rest) == line + Unfold(rest)
    decreases |line|
  {
    if line == [] {
      assert FoldFrom(line, column) + rest == rest;
      assert line + Unfold(rest) == Unfold(rest);
    } else {
      var c, t := line[0], line[1..];
      var next := if column + Width(c) > MAX_OCTETS then 1 + Width(c) else column + Width(c);
      var tail := FoldFrom(t, next) + rest;
      UnfoldInvertsFold(t, next, rest);
      UnfoldKeeps(c, tail);
      UnfoldSkips([c] + tail);
      FoldHead(line, column, rest);
      Regroup([c], t, Unfold(rest));
      assert line == [c] + t;
    }
  }

  lemma UnfoldKeeps(c: char, s: string)
    requires c != '\r'
    ensures Unfold([c] + s) == [c] + Unfold(s)
  {
    assert ([c] + s)[1..] == s;
  }

  lemma UnfoldSkips(s: string)
    ensures Unfold("\r\n" + ([' '] + s)) == Unfold(s)
  {
    var t := "\r\n" + ([' '] + s);
    assert t[3..] == s;
    assert t[0] == '\r' && t[1] == '\n' && t[2] == ' ';
  }

  /** Every physical line is short; `column` octets of the first one went before. */
  ghost predicate Fits(lines: seq<string>, column: nat) {
    && lines != [] && column + Octets(lines[0]) <= MAX_OCTETS
    && forall i | 0 < i < |lines| :: Octets(lines[i]) <= MAX_OCTETS
  }

  lemma LinesStep(c: char, s: string)
    requires c != '\r'
    ensures Lines([c] + s) == [[c] + Lines(s)[0]] + Lines(s)[1..]
  {
    assert ([c] + s)[1..] == s;
  }

  lemma LinesBreak(s: string)
    ensures Lines("\r\n" + s) == [[]] + Lines(s)
  {
    assert ("\r\n" + s)[2..] == s;
  }

  lemma OctetsStep(c: char, s: string)
    ensures Octets([c] + s) == Width(c) + Octets(s)
  {
    assert ([c] + s)[1..] == s;
  }

  lemma FitsStep(c: char, s: string, column: nat)
    requires c != '\r' && Fits(Lines(s), column + Width(c))
    ensures Fits(Lines([c] + s), column)
  {
    LinesStep(c, s);
    OctetsStep(c, Lines(s)[0]);
  }

  lemma FitsBreak(s: string, column: nat)
    requires Fits(Lines(s), 0) && column <= MAX_OCTETS
    ensures Fits(Lines("\r\n" + s), column)
  {
    LinesBreak(s);
  }

  /** No physical line of a folded line exceeds 75 octets. */
  lemma {:induction false} FoldFits(line: string, column: nat, rest: string)
    requires OneLine(line) && column <= MAX_OCTETS && Fits(Lines(rest), 0)
    ensures Fits(Lines(FoldFrom(line, column) + ("\r\n" + rest)), column)
    decreases |line|
  {
    var after := "\r\n" + rest;
    if line == [] {
      FitsBreak(rest, column);
      assert FoldFrom(line, column) + after == after;
    } else {
      var c, t, w := line[0], line[1..], Width(line[0]);
      FoldHead(line, column, after);
      if column + w > MAX_OCTETS {
        FoldFits(t, 1 + w, rest);
        FitsWrapped(c, FoldFrom(t, 1 + w) + after, column);
      } else {
        FoldFits(t, column + w, rest);
        FitsStep(c, FoldFrom(t, column + w) + after, column);
      }
    }
  }

  lemma FitsWrapped(c: char, tail: string, column: nat)
    requires c != '\r' && Fits(Lines(tail), 1 + Width(c)) && column <= MAX_OCTETS
    ensures Fits(Lines("\r\n" + ([' '] + ([c] + tail))), column)
  {
    FitsStep(c, tail, 1);
    FitsStep(' ', [c] + tail, 0);
    FitsBreak([' '] + ([c] + tail), column);
  }

  // ---------- A text of folded lines ----------

  /** The lines, folded, each with its line break. */
  function Print(lines: seq<string>): string {
    if lines == [] then [] else FoldFrom(lines[0], 0) + ("\r\n" + Print(lines[1..]))
  }

  /** A content line: on one line, and starting with a name. */
  predicate ContentLine(s: string) {
    s != [] && s[0] != ' ' && s[0] != '\t' && OneLine(s)
  }

  ghost predicate ContentLines(lines: seq<string>) {
    forall i | 0 <= i < |lines| :: ContentLine(lines[i])
  }

  lemma {:induction false} PrintFits(lines: seq<string>)
    requires ContentLines(lines)
    ensures Fits(Lines(Print(lines)), 0)
  {
    if lines != [] {
      PrintFits(lines[1..]);
      FoldFits(lines[0], 0, Print(lines[1..]));
    }
  }

  lemma PrintHead(lines: seq<string>)
    requires ContentLines(lines)
    ensures Print(lines) != [] ==> Print(lines)[0] != ' ' && Print(lines)[0] != '\t'
  {
    if lines != [] {
      assert ContentLine(lines[0]);
      assert Print(lines)[0] == lines[0][0];
    }
  }

  lemma UnfoldBreak(rest: string)
    requires rest != [] ==> rest[0] != ' ' && rest[0] != '\t'
    ensures Unfold("\r\n" + rest) == "\r\n" + Unfold(rest)
  {
    var s := "\r\n" + rest;
    assert s == ['\r'] + (['\n'] + rest);
    assert s[1..] == ['\n'] + rest;
    assert !Continues(s) by {
      if |s| >= 3 { assert s[2] == rest[0]; }
    }
    UnfoldKeeps('\n', rest);
    assert ['\r'] + (['\n'] + Unfold(rest)) == "\r\n" + Unfold(rest);
  }

  lemma {:induction false} LinesOf(line: string, rest: string)
    requires OneLine(line)
    ensures Lines(line + ("\r\n" + rest)) == [line] + Lines(rest)
  {
    if line == [] {
      LinesBreak(rest);
      assert line + ("\r\n" + rest) == "\r\n" + rest;
    } else {
      LinesOf(line[1..], rest);
      LinesStep(line[0], line[1..] + ("\r\n" + rest));
      assert line + ("\r\n" + rest) == [line[0]] + (line[1..] + ("\r\n" + rest));
      assert line == [line[0]] + line[1..];
    }
  }

  /** Unfolding and splitting a printed text gives back its lines, and an empty rest. */
  lemma {:induction false} ReadInvertsPrint(lines: seq<string>)
    requires ContentLines(lines)
    ensures Lines(Unfold(Print(lines))) == lines + [[]]
  {
    if lines != [] {
      var line, rest := lines[0], Print(lines[1..]);
      ReadInvertsPrint(lines[1..]);
      PrintHead(lines[1..]);
      assert ContentLine(line);
      UnfoldInvertsFold(line, 0, "\r\n" + rest);
      UnfoldBreak(rest);
      LinesOf(line, Unfold(rest));
      assert [line] + (lines[1..] + [[]]) == lines + [[]];
    }
  }

  // ---------- The calendar ----------

  /** What the library prints: UUIDs, dates and UTC timestamps, never a line break. */
  type Plain = s: string | OneLine(s) witness ""

  datatype Item = Item(
    uid: Plain, created: Plain, allDay: bool, startDate: Option<Plain>, endDate: Option<Plain>,
    start: Plain, end: Option<Plain>, title: string, description: Option<string>,
    location: Option<string>, status: string)

  function Compact(date: string): string { ReplaceAll(date, "-", "") }

  function TimeLines(i: Item): seq<string> {
    if i.allDay && i.startDate.Some? && i.endDate.Some? then
      ["DTSTART;VALUE=DATE:" + Compact(i.startDate.value), "DTEND;VALUE=DATE:" + Compact(i.endDate.value)]
    else ["DTSTART:" + i.start] + if i.end.Some? then ["DTEND:" + i.end.value] else []
  }

  /** A text property, if it is present. */
  function TextLine(name: string, text: Option<string>): seq<string> {
    if text.Some? then [name + Escape(text.value)] else []
  }

  function StatusLine(status: string): string {
    if status == "cancelled" then "STATUS:CANCELLED"
    else if status == "tentative" then "STATUS:TENTATIVE" else "STATUS:CONFIRMED"
  }

  function EventLines(i: Item): seq<string> {
    ["BEGIN:VEVENT", "UID:" + i.uid + "@svc-core", "DTSTAMP:" + i.created] + TimeLines(i)
    + TextLine("SUMMARY:", Some(i.title)) + TextLine("DESCRIPTION:", i.description)
    + TextLine("LOCATION:", i.location) + [StatusLine(i.status), "END:VEVENT"]
  }

  function AllEvents(items: seq<Item>): seq<string> {
    if items == [] then [] else AllEvents(items[..|items| - 1]) + EventLines(items[|items| - 1])
  }

  function Opening(): seq<string> {
    ["BEGIN:VCALENDAR", "VERSION:2.0", "PRODID:-//svc-core//Schedule Calendar//EN",
     "CALSCALE:GREGORIAN"]
  }

  /** The content lines of a calendar. */
  function CalendarLines(items: seq<Item>): seq<string> {
    Opening() + AllEvents(items) + ["END:VCALENDAR"]
  }

  lemma ContentJoin(a: seq<string>, b: seq<string>)
    requires ContentLines(a) && ContentLines(b)
    ensures ContentLines(a + b)
  {
  }

  /** A property line is a content line whatever its one-line value is. */
  lemma PropertyLine(name: string, value: string)
    requires ContentLine(name) && OneLine(value)
    ensures ContentLine(name + value)
  {
    assert (name + value)[0] == name[0];
  }

  lemma {:induction false} CompactIsOneLine(date: string)
    requires OneLine(date)
    ensures OneLine(Compact(date))
  {
    if date != [] {
      CompactIsOneLine(date[1..]);
    }
  }

  lemma TimeLinesAreContent(i: Item)
    ensures ContentLines(TimeLines(i))
  {
    if i.allDay && i.startDate.Some? && i.endDate.Some? {
      CompactIsOneLine(i.startDate.value);
      CompactIsOneLine(i.endDate.value);
      PropertyLine("DTSTART;VALUE=DATE:", Compact(i.startDate.value));
      PropertyLine("DTEND;VALUE=DATE:", Compact(i.endDate.value));
    } else {
      PropertyLine("DTSTART:", i.start);
      if i.end.Some? {
        PropertyLine("DTEND:", i.end.value);
      }
    }
  }

  lemma TextLineIsContent(name: string, text: Option<string>)
    requires ContentLine(name)
    ensures ContentLines(TextLine(name, text))
  {
    if text.Some? {
      EscapeIsOneLine(text.value);
      PropertyLine(name, Escape(text.value));
    }
  }

  lemma HeadIsContent(i: Item)
    ensures ContentLines(["BEGIN:VEVENT", "UID:" + i.uid + "@svc-core", "DTSTAMP:" + i.created])
  {
    PropertyLine("UID:", i.uid);
    PropertyLine("UID:" + i.uid, "@svc-core");
    PropertyLine("DTSTAMP:", i.created);
  }

  lemma EventLinesAreContent(i: Item)
    ensures ContentLines(EventLines(i))
  {
    var head := ["BEGIN:VEVENT", "UID:" + i.uid + "@svc-core", "DTSTAMP:" + i.created];
    HeadIsContent(i);
    TimeLinesAreContent(i);
    TextLineIsContent("SUMMARY:", Some(i.title));
    TextLineIsContent("DESCRIPTION:", i.description);
    TextLineIsContent("LOCATION:", i.location);
    ContentJoin(head, TimeLines(i));
    var a := head + TimeLines(i);
    ContentJoin(a, TextLine("SUMMARY:", Some(i.title)));
    var b := a + TextLine("SUMMARY:", Some(i.title));
    ContentJoin(b, TextLine("DESCRIPTION:", i.description));
    var c := b + TextLine("DESCRIPTION:", i.description);
    ContentJoin(c, TextLine("LOCATION:", i.location));
    ContentJoin(c + TextLine("LOCATION:", i.location), [StatusLine(i.status), "END:VEVENT"]);
  }

  lemma {:induction false} AllEventsAreContent(items: seq<Item>)
    ensures ContentLines(AllEvents(items))
  {
    if items != [] {
      AllEventsAreContent(items[..|items| - 1]);
      EventLinesAreContent(items[|items| - 1]);
      ContentJoin(AllEvents(items[..|items| - 1]), EventLines(items[|items| - 1]));
    }
  }

  lemma ProductIsContent()
    ensures ContentLine("PRODID:-//svc-core//Schedule Calendar//EN")
  {
  }

  lemma OpeningIsContent()
    ensures ContentLines(Opening())
  {
    ProductIsContent();
    var o := Opening();
    assert ContentLine(o[0]);
    assert ContentLine(o[1]);
    assert ContentLine(o[3]);
  }

  lemma CalendarIsContent(items: seq<Item>)
    ensures ContentLines(CalendarLines(items))
  {
    OpeningIsContent();
    AllEventsAreContent(items);
    ContentJoin(Opening(), AllEvents(items));
    ContentJoin(Opening() + AllEvents(items), ["END:VCALENDAR"]);
  }

  /** Whatever text the schedules hold: a reader of the calendar finds exactly the
      content lines built from them, and no physical line exceeds 75 octets. */
  lemma CalendarReadsBack(items: seq<Item>)
    ensures var text := Print(CalendarLines(items));
      && Lines(Unfold(text)) == CalendarLines(items) + [[]]
      && forall i | 0 <= i < |Lines(text)| :: Octets(Lines(text)[i]) <= 75
  {
    CalendarIsContent(items);
    ReadInvertsPrint(CalendarLines(items));
    PrintFits(CalendarLines(items));
  }

  method AppendTimes(lines: seq<string>, i: Item) returns (out: seq<string>)
    ensures out == lines + TimeLines(i)
  {
    if i.allDay && i.startDate.Some? && i.endDate.Some? {
      out := lines + ["DTSTART;VALUE=DATE:" + ReplaceAll(i.startDate.value, "-", ""),
                      "DTEND;VALUE=DATE:" + ReplaceAll(i.endDate.value, "-", "")];
    } else {
      out := lines + ["DTSTART:" + i.start];
      if i.end.Some? {
        out := out + ["DTEND:" + i.end.value];
      }
    }
  }

  method AppendText(lines: seq<string>, name: string, text: Option<string>)
    returns (out: seq<string>)
    ensures out == lines + TextLine(name, text)
  {
    out := lines;
    if text.Some? {
      var value := EscapeIcs(text.value);
      out := out + [name + value];
    }
  }

  method AppendEvent(lines: seq<string>, i: Item) returns (out: seq<string>)
    ensures out == lines + EventLines(i)
  {
    out := lines + ["BEGIN:VEVENT", "UID:" + i.uid + "@svc-core", "DTSTAMP:" + i.created];
    out := AppendTimes(out, i);
    out := AppendText(out, "SUMMARY:", Some(i.title));
    out := AppendText(out, "DESCRIPTION:", i.description);
    out := AppendText(out, "LOCATION:", i.location);
    var status := "STATUS:CONFIRMED";
    if i.status == "cancelled" {
      status := "STATUS:CANCELLED";
    } else if i.status == "tentative" {
      status := "STATUS:TENTATIVE";
    }
    out := out + [status, "END:VEVENT"];
  }

  lemma {:induction false} PrintAppend(lines: seq<string>, line: string)
    ensures Print(lines + [line]) == Print(lines) + (FoldFrom(line, 0) + "\r\n")
  {
    if lines == [] {
      PrintOne(line);
      assert lines + [line] == [line];
    } else {
      var first, rest := FoldFrom(lines[0], 0), Print(lines[1..]);
      var last := FoldFrom(line, 0) + "\r\n";
      PrintAppend(lines[1..], line);
      assert (lines + [line])[1..] == lines[1..] + [line];
      PrintRegroup(first, rest, last);
    }
  }

  lemma PrintRegroup(first: string, rest: string, last: string)
    ensures first + ("\r\n" + (rest + last)) == first + ("\r\n" + rest) + last
  {
    Regroup("\r\n", rest, last);
    Regroup(first, "\r\n" + rest, last);
  }

  lemma PrintOne(line: string)
    ensures Print([line]) == FoldFrom(line, 0) + "\r\n"
  {
    assert [line][1..] == [];
    assert Print([line][1..]) == [];
    assert "\r\n" + [] == "\r\n";
  }

  lemma NextEvent(opening: seq<string>, items: seq<Item>, i: nat)
    requires i < |items|
    ensures opening + AllEvents(items[..i + 1]) ==
      opening + AllEvents(items[..i]) + EventLines(items[i])
  {
    var upto := items[..i + 1];
    assert upto[..i] == items[..i] && upto[i] == items[i];
    assert AllEvents(upto) == AllEvents(items[..i]) + EventLines(items[i]);
  }

  /** The lines of all schedules, after the calendar's opening ones. */
  method AppendEvents(opening: seq<string>, items: seq<Item>) returns (lines: seq<string>)
    ensures lines == opening + AllEvents(items)
  {
    lines := opening;
    assert AllEvents(items[..0]) == [];
    var i := 0;
    while i < |items|
      invariant 0 <= i <= |items|
      invariant lines == opening + AllEvents(items[..i])
    {
      NextEvent(opening, items, i);
      lines := AppendEvent(lines, items[i]);
      i := i + 1;
    }
    assert items[..i] == items;
  }

  /** schedulesCalendar. */
  method SchedulesCalendar(items: seq<Item>) returns (out: string)
    ensures out == Print(CalendarLines(items))
    ensures Lines(Unfold(out)) == CalendarLines(items) + [[]]
  {
    CalendarReadsBack(items);
    var lines := AppendEvents(Opening(), items);
    lines := lines + ["END:VCALENDAR"];
    out := PrintLines(lines);
  }

  method PrintLines(lines: seq<string>) returns (out: string)
    ensures out == Print(lines)
  {
    out := "";
    var i := 0;
    while i < |lines|
      invariant 0 <= i <= |lines|
      invariant out == Print(lines[..i])
    {
      var folded := FoldIcsLine(lines[i]);
      PrintAppend(lines[..i], lines[i]);
      assert lines[..i + 1] == lines[..i] + [lines[i]];
      out := out + (folded + "\r\n");
      i := i + 1;
    }
    assert lines[..i] == lines;
  }

  // ---------- What a reader finds in an event ----------

  /** The value of the first line with that property name. */
  function Find(lines: seq<string>, name: string): Option<string> {
    if lines == [] then None
    else if name <= lines[0] then Some(lines[0][|name|..])
    else Find(lines[1..], name)
  }

  function Either(a: Option<string>, b: Option<string>): Option<string> {
    if a.Some? then a else b
  }

  lemma {:induction false} FindJoin(a: seq<string>, b: seq<string>, name: string)
    ensures Find(a + b, name) == Either(Find(a, name), Find(b, name))
  {
    if a == [] {
      assert a + b == b;
    } else {
      FindJoin(a[1..], b, name);
      assert (a + b)[1..] == a[1..] + b;
    }
  }

  lemma FindHit(name: string, value: string)
    ensures Find([name + value], name) == Some(value)
  {
    assert (name + value)[|name|..] == value;
    assert (name + value)[..|name|] == name;
  }

  lemma FindMiss(line: string, name: string, k: nat)
    requires k < |line| && k < |name| && line[k] != name[k]
    ensures Find([line], name) == None
  {
    assert Find([line][1..], name) == None;
  }

  function Head(i: Item): seq<string> {
    ["BEGIN:VEVENT", "UID:" + i.uid + "@svc-core", "DTSTAMP:" + i.created]
  }

  lemma FindInEvent(i: Item, name: string)
    ensures Find(EventLines(i), name) ==
      Either(Find(Head(i), name), Either(Find(TimeLines(i), name),
        Either(Find(TextLine("SUMMARY:", Some(i.title)), name),
          Either(Find(TextLine("DESCRIPTION:", i.description), name),
            Either(Find(TextLine("LOCATION:", i.location), name),
              Find([StatusLine(i.status), "END:VEVENT"], name))))))
  {
    var s, d, l := TextLine("SUMMARY:", Some(i.title)), TextLine("DESCRIPTION:", i.description),
      TextLine("LOCATION:", i.location);
    var tail := [StatusLine(i.status), "END:VEVENT"];
    FindJoin(Head(i) + TimeLines(i) + s + d + l, tail, name);
    FindJoin(Head(i) + TimeLines(i) + s + d, l, name);
    FindJoin(Head(i) + TimeLines(i) + s, d, name);
    FindJoin(Head(i) + TimeLines(i), s, name);
    FindJoin(Head(i), TimeLines(i), name);
  }

  /** The name differs from a line in one of its first two characters. */
  predicate Unlike(name: string, line: string) {
    |name| >= 2 && |line| >= 2 && (name[0] != line[0] || name[1] != line[1])
  }

  lemma FindUnlike(lines: seq<string>, name: string)
    requires forall i | 0 <= i < |lines| :: Unlike(name, lines[i])
    ensures Find(lines, name) == None
  {
    if lines != [] {
      FindUnlike(lines[1..], name);
      assert Unlike(name, lines[0]);
    }
  }

  lemma TextElsewhere(name: string, other: string, text: Option<string>)
    requires Unlike(name, other)
    ensures Find(TextLine(other, text), name) == None
  {
    if text.Some? {
      assert Unlike(name, other + Escape(text.value));
    }
    FindUnlike(TextLine(other, text), name);
  }

  predicate TextName(name: string) {
    |name| >= 2 && (
      (name[0] == 'S' && name[1] == 'U') || (name[0] == 'D' && name[1] == 'E') ||
      (name[0] == 'L' && name[1] == 'O'))
  }

  lemma NotInTimes(i: Item, name: string)
    requires TextName(name)
    ensures Find(TimeLines(i), name) == None
  {
    forall k | 0 <= k < |TimeLines(i)|
      ensures Unlike(name, TimeLines(i)[k])
    {
      var line := TimeLines(i)[k];
      assert line[0] == 'D' && line[1] == 'T';
    }
    FindUnlike(TimeLines(i), name);
  }

  lemma NotInFrame(i: Item, name: string)
    requires TextName(name)
    ensures Find(Head(i), name) == None && Find(TimeLines(i), name) == None
    ensures Find([StatusLine(i.status), "END:VEVENT"], name) == None
  {
    NotInTimes(i, name);
    FindUnlike(Head(i), name);
    var status := StatusLine(i.status);
    assert status[0] == 'S' && status[1] == 'T';
    FindUnlike([status, "END:VEVENT"], name);
  }

  /** A reader's value of a text property. */
  function Text(lines: seq<string>, name: string): Option<string> {
    var value := Find(lines, name);
    if value.Some? then Some(Unescape(value.value)) else None
  }

  function NormalisedOption(text: Option<string>): Option<string> {
    if text.Some? then Some(Normalised(text.value)) else None
  }

  lemma TextHere(name: string, text: Option<string>)
    ensures Text(TextLine(name, text), name) == NormalisedOption(text)
    ensures Find(TextLine(name, text), name).Some? <==> text.Some?
  {
    if text.Some? {
      FindHit(name, Escape(text.value));
      UnescapeInvertsEscape(text.value);
    }
  }

  /** From each event a reader recovers the schedule's title, description and
      location, line breaks normalised, and none that is not there. */
  lemma TextsReadBack(i: Item)
    ensures Text(EventLines(i), "SUMMARY:") == Some(Normalised(i.title))
    ensures Text(EventLines(i), "DESCRIPTION:") == NormalisedOption(i.description)
    ensures Text(EventLines(i), "LOCATION:") == NormalisedOption(i.location)
  {
    SummaryReadsBack(i);
    DescriptionReadsBack(i);
    LocationReadsBack(i);
  }

  lemma SummaryReadsBack(i: Item)
    ensures Text(EventLines(i), "SUMMARY:") == Some(Normalised(i.title))
  {
    FindInEvent(i, "SUMMARY:");
    NotInFrame(i, "SUMMARY:");
    TextHere("SUMMARY:", Some(i.title));
  }

  lemma DescriptionReadsBack(i: Item)
    ensures Text(EventLines(i), "DESCRIPTION:") == NormalisedOption(i.description)
  {
    FindInEvent(i, "DESCRIPTION:");
    NotInFrame(i, "DESCRIPTION:");
    TextElsewhere("DESCRIPTION:", "SUMMARY:", Some(i.title));
    TextElsewhere("DESCRIPTION:", "LOCATION:", i.location);
    TextHere("DESCRIPTION:", i.description);
  }

  lemma LocationReadsBack(i: Item)
    ensures Text(EventLines(i), "LOCATION:") == NormalisedOption(i.location)
  {
    FindInEvent(i, "LOCATION:");
    NotInFrame(i, "LOCATION:");
    TextElsewhere("LOCATION:", "SUMMARY:", Some(i.title));
    TextElsewhere("LOCATION:", "DESCRIPTION:", i.description);
    TextHere("LOCATION:", i.location);
  }

  lemma TimesAreApart(i: Item, name: string)
    requires name == "DTSTART:" || name == "DTEND:"
    ensures Find(EventLines(i), name) == Either(Find(Head(i), name), Find(TimeLines(i), name))
  {
    FindInEvent(i, name);
    TextElsewhere(name, "SUMMARY:", Some(i.title));
    TextElsewhere(name, "DESCRIPTION:", i.description);
    TextElsewhere(name, "LOCATION:", i.location);
    FindUnlike([StatusLine(i.status), "END:VEVENT"], name);
  }

  lemma HeadHasNoTimes(i: Item, name: string, k: nat)
    requires (name == "DTSTART:" && k == 5) || (name == "DTEND:" && k == 2)
    ensures Find(Head(i), name) == None
  {
    var stamp := "DTSTAMP:" + i.created;
    var first := ["BEGIN:VEVENT", "UID:" + i.uid + "@svc-core"];
    FindUnlike(first, name);
    assert stamp[k] == "DTSTAMP:"[k];
    FindMiss(stamp, name, k);
    FindJoin(first, [stamp], name);
    assert Head(i) == first + [stamp];
  }

  predicate Dated(i: Item) { i.allDay && i.startDate.Some? && i.endDate.Some? }

  lemma DatedHasNoTimes(i: Item, name: string)
    requires Dated(i) && (name == "DTSTART:" || name == "DTEND:")
    ensures Find(TimeLines(i), name) == None
  {
    var a := "DTSTART;VALUE=DATE:" + Compact(i.startDate.value);
    var b := "DTEND;VALUE=DATE:" + Compact(i.endDate.value);
    assert a[2] == 'S' && a[7] == ';' && b[2] == 'E' && b[5] == ';';
    FindMiss(a, name, if name == "DTSTART:" then 7 else 2);
    FindMiss(b, name, if name == "DTSTART:" then 2 else 5);
    FindJoin([a], [b], name);
    assert TimeLines(i) == [a] + [b];
  }

  /** A timed event carries its instants, a dated one carries none. */
  lemma TimesReadBack(i: Item)
    ensures Find(EventLines(i), "DTSTART:") == if Dated(i) then None else Some(i.start)
    ensures Find(EventLines(i), "DTEND:") == if Dated(i) then None else i.end
  {
    TimesAreApart(i, "DTSTART:");
    TimesAreApart(i, "DTEND:");
    HeadHasNoTimes(i, "DTSTART:", 5);
    HeadHasNoTimes(i, "DTEND:", 2);
    if Dated(i) {
      DatedHasNoTimes(i, "DTSTART:");
      DatedHasNoTimes(i, "DTEND:");
    } else {
      TimedLines(i);
    }
  }

  lemma TimedLines(i: Item)
    requires !Dated(i)
    ensures Find(TimeLines(i), "DTSTART:") == Some(i.start)
    ensures Find(TimeLines(i), "DTEND:") == i.end
  {
    var start := "DTSTART:" + i.start;
    var rest := if i.end.Some? then ["DTEND:" + i.end.value] else [];
    FindHit("DTSTART:", i.start);
    assert start[2] == 'S';
    FindMiss(start, "DTEND:", 2);
    FindJoin([start], rest, "DTSTART:");
    FindJoin([start], rest, "DTEND:");
    if i.end.Some? {
      FindHit("DTEND:", i.end.value);
    }
  }

  // ---------- Dates, identity and status ----------

  /** The text without its hyphens. */
  function Unhyphened(s: string): string {
    if s == [] then [] else (if s[0] == '-' then [] else [s[0]]) + Unhyphened(s[1..])
  }

  lemma {:induction false} CompactDropsHyphens(s: string)
    ensures Compact(s) == Unhyphened(s)
  {
    if s != [] {
      ReplaceStep(s[0], s[1..], '-', "");
      CompactDropsHyphens(s[1..]);
      assert s == [s[0]] + s[1..];
    }
  }

  lemma {:induction false} NoHyphen(s: string)
    requires '-' !in s
    ensures Unhyphened(s) == s
  {
    if s != [] {
      NoHyphen(s[1..]);
      assert s == [s[0]] + s[1..];
    }
  }

  lemma HyphenJoins(a: string, b: string)
    ensures Compact(a + "-" + b) == Compact(a) + Compact(b)
  {
    ReplaceSplits(a + "-", b, '-', "");
    ReplaceSplits(a, "-", '-', "");
    ReplaceOne('-', '-', "");
    assert Compact(a) + "" == Compact(a);
  }

  lemma CompactKeeps(s: string)
    requires '-' !in s
    ensures Compact(s) == s
  {
    CompactDropsHyphens(s);
    NoHyphen(s);
  }

  /** A date YYYY-MM-DD becomes YYYYMMDD. */
  lemma DateDigits(y: string, m: string, d: string)
    requires '-' !in y && '-' !in m && '-' !in d
    ensures Compact(y + "-" + m + "-" + d) == y + m + d
  {
    HyphenJoins(y + "-" + m, d);
    HyphenJoins(y, m);
    CompactKeeps(y);
    CompactKeeps(m);
    CompactKeeps(d);
  }

  lemma DateNamesAreApart(i: Item, name: string)
    requires name == "DTSTART;VALUE=DATE:" || name == "DTEND;VALUE=DATE:"
    ensures Find(EventLines(i), name) == Either(Find(Head(i), name), Find(TimeLines(i), name))
  {
    FindInEvent(i, name);
    TextElsewhere(name, "SUMMARY:", Some(i.title));
    TextElsewhere(name, "DESCRIPTION:", i.description);
    TextElsewhere(name, "LOCATION:", i.location);
    FindUnlike([StatusLine(i.status), "END:VEVENT"], name);
  }

  lemma HeadHasNoDates(i: Item, name: string, k: nat)
    requires (name == "DTSTART;VALUE=DATE:" && k == 5) || (name == "DTEND;VALUE=DATE:" && k == 2)
    ensures Find(Head(i), name) == None
  {
    var stamp := "DTSTAMP:" + i.created;
    var first := ["BEGIN:VEVENT", "UID:" + i.uid + "@svc-core"];
    FindUnlike(first, name);
    assert stamp[k] == "DTSTAMP:"[k];
    FindMiss(stamp, name, k);
    FindJoin(first, [stamp], name);
    assert Head(i) == first + [stamp];
  }

  lemma DatedLines(i: Item)
    requires Dated(i)
    ensures Find(TimeLines(i), "DTSTART;VALUE=DATE:") == Some(Compact(i.startDate.value))
    ensures Find(TimeLines(i), "DTEND;VALUE=DATE:") == Some(Compact(i.endDate.value))
  {
    var a := "DTSTART;VALUE=DATE:" + Compact(i.startDate.value);
    var b := "DTEND;VALUE=DATE:" + Compact(i.endDate.value);
    FindHit("DTSTART;VALUE=DATE:", Compact(i.startDate.value));
    FindHit("DTEND;VALUE=DATE:", Compact(i.endDate.value));
    assert a[2] == 'S';
    FindMiss(a, "DTEND;VALUE=DATE:", 2);
    FindJoin([a], [b], "DTSTART;VALUE=DATE:");
    FindJoin([a], [b], "DTEND;VALUE=DATE:");
    assert TimeLines(i) == [a] + [b];
  }

  lemma TimedHasNoDates(i: Item, name: string)
    requires !Dated(i) && (name == "DTSTART;VALUE=DATE:" || name == "DTEND;VALUE=DATE:")
    ensures Find(TimeLines(i), name) == None
  {
    var start := "DTSTART:" + i.start;
    var rest := if i.end.Some? then ["DTEND:" + i.end.value] else [];
    assert start[2] == 'S' && start[7] == ':';
    FindMiss(start, name, if name == "DTSTART;VALUE=DATE:" then 7 else 2);
    if i.end.Some? {
      var end := "DTEND:" + i.end.value;
      assert end[2] == 'E' && end[5] == ':';
      FindMiss(end, name, if name == "DTSTART;VALUE=DATE:" then 2 else 5);
    }
    FindJoin([start], rest, name);
  }

  /** A dated event carries its first day and the day after its last; a timed one
      carries none. */
  lemma DatesReadBack(i: Item)
    ensures Find(EventLines(i), "DTSTART;VALUE=DATE:") ==
      if Dated(i) then Some(Unhyphened(i.startDate.value)) else None
    ensures Find(EventLines(i), "DTEND;VALUE=DATE:") ==
      if Dated(i) then Some(Unhyphened(i.endDate.value)) else None
  {
    DateNamesAreApart(i, "DTSTART;VALUE=DATE:");
    DateNamesAreApart(i, "DTEND;VALUE=DATE:");
    HeadHasNoDates(i, "DTSTART;VALUE=DATE:", 5);
    HeadHasNoDates(i, "DTEND;VALUE=DATE:", 2);
    if Dated(i) {
      DatedLines(i);
      CompactDropsHyphens(i.startDate.value);
      CompactDropsHyphens(i.endDate.value);
    } else {
      TimedHasNoDates(i, "DTSTART;VALUE=DATE:");
      TimedHasNoDates(i, "DTEND;VALUE=DATE:");
    }
  }

  /** Every event carries its schedule's identity. */
  lemma UidReadsBack(i: Item)
    ensures Find(EventLines(i), "UID:") == Some(i.uid + "@svc-core")
  {
    FindInEvent(i, "UID:");
    var begin, uid := "BEGIN:VEVENT", "UID:" + (i.uid + "@svc-core");
    Regroup("UID:", i.uid, "@svc-core");
    FindMiss(begin, "UID:", 0);
    FindHit("UID:", i.uid + "@svc-core");
    FindJoin([begin], [uid], "UID:");
    FindJoin([begin] + [uid], ["DTSTAMP:" + i.created], "UID:");
    assert Head(i) == [begin] + [uid] + ["DTSTAMP:" + i.created];
  }

  /** And its status: cancelled, tentative, or else confirmed. */
  lemma StatusReadsBack(i: Item)
    ensures Find(EventLines(i), "STATUS:") ==
      Some(if i.status == "cancelled" then "CANCELLED"
           else if i.status == "tentative" then "TENTATIVE" else "CONFIRMED")
  {
    FindInEvent(i, "STATUS:");
    FindUnlike(Head(i), "STATUS:");
    StatusNotInTimes(i);
    TextElsewhere("STATUS:", "SUMMARY:", Some(i.title));
    TextElsewhere("STATUS:", "DESCRIPTION:", i.description);
    TextElsewhere("STATUS:", "LOCATION:", i.location);
    StatusFound(i.status);
  }

  lemma StatusNotInTimes(i: Item)
    ensures Find(TimeLines(i), "STATUS:") == None
  {
    forall k | 0 <= k < |TimeLines(i)|
      ensures Unlike("STATUS:", TimeLines(i)[k])
    {
      assert TimeLines(i)[k][0] == 'D';
    }
    FindUnlike(TimeLines(i), "STATUS:");
  }

  lemma StatusFound(status: string)
    ensures Find([StatusLine(status), "END:VEVENT"], "STATUS:") ==
      Some(if status == "cancelled" then "CANCELLED"
           else if status == "tentative" then "TENTATIVE" else "CONFIRMED")
  {
    var value :=
      if status == "cancelled" then "CANCELLED"
      else if status == "tentative" then "TENTATIVE" else "CONFIRMED";
    FindHit("STATUS:", value);
    assert "STATUS:" + value == StatusLine(status);
    FindJoin(["STATUS:" + value], ["END:VEVENT"], "STATUS:");
  }
}
