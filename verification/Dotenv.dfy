/**
 The dotenv reader: readFile and parseValue of internal/envloader/load.go.  strconv.Unquote,
 which handles double-quoted values, is a parameter.
 */
module Dotenv {
  import opened Wrappers
  import opened Text

  type Unquoter = string -> Option<string>

  datatype Line = Skip | Entry(key: string, value: string) | NotAnEntry | BadValue

  datatype BadLine = BadLine(number: nat, kind: Line)

  /** parseValue. */
  function ParseValue(value: string, unquote: Unquoter): Option<string>
  {
    if |value| < 2 then Some(value)
    else if value[0] == '"' && value[|value| - 1] == '"' then unquote(value)
    else if value[0] == '\'' && value[|value| - 1] == '\'' then Some(value[1..|value| - 1])
    else Some(value)
  }

  const EXPORT := "export "

  /** What the scan loop of readFile makes of one line. */
  function ParseLine(raw: string, unquote: Unquoter): Line
  {
    var line := TrimSpace(raw);
    if line == "" || line[0] == '#' then Skip
    else ParseEntry(if EXPORT <= line then TrimSpace(line[|EXPORT|..]) else line, unquote)
  }

  function ParseEntry(line: string, unquote: Unquoter): Line
  {
    var i := IndexOf(line, '=');
    if i == |line| || TrimSpace(line[..i]) == "" then NotAnEntry
    else
      match ParseValue(TrimSpace(line[i + 1..]), unquote)
      case None => BadValue
      case Some(v) => Entry(TrimSpace(line[..i]), v)
  }

  /** bufio.ScanLines: splits at newlines, drops one carriage return before each, and yields no empty last line. */
  function SplitLines(content: string): seq<string>
  {
    if content == "" then []
    else
      var i := IndexOf(content, '\n');
      [DropReturn(content[..i])] + if i == |content| then [] else SplitLines(content[i + 1..])
  }

  function DropReturn(line: string): string
  {
    if line != "" && line[|line| - 1] == '\r' then line[..|line| - 1] else line
  }

  ghost function Classify(lines: seq<string>, unquote: Unquoter): seq<Line>
  {
    seq(|lines|, i requires 0 <= i < |lines| => ParseLine(lines[i], unquote))
  }

  predicate Bad(line: Line)
  {
    line.NotAnEntry? || line.BadValue?
  }

  /** The values the lines assign, or the first line that cannot be read. */
  ghost function Collect(lines: seq<Line>): Result<map<string, string>, BadLine>
  {
    if lines == [] then Ok(map[])
    else
      var front, last := Collect(lines[..|lines| - 1]), lines[|lines| - 1];
      if front.Err? then front
      else if Bad(last) then Err(BadLine(|lines|, last))
      else if last.Entry? then Ok(front.value[last.key := last.value])
      else front
  }

  /** What reading a file that holds `content` yields. */
  ghost function Parse(content: string, unquote: Unquoter): Result<map<string, string>, BadLine>
  {
    Collect(Classify(SplitLines(content), unquote))
  }

  /** An error found in a prefix is the error of the whole file. */
  lemma {:induction false} FirstErrorWins(lines: seq<Line>, n: nat)
    requires n <= |lines| && Collect(lines[..n]).Err?
    ensures Collect(lines) == Collect(lines[..n])
    decreases |lines|
  {
    if n == |lines| {
      assert lines[..n] == lines;
    } else {
      assert lines[..|lines| - 1][..n] == lines[..n];
      FirstErrorWins(lines[..|lines| - 1], n);
    }
  }

  lemma {:induction false} CollectStep(lines: seq<Line>, n: nat)
    requires n < |lines| && Collect(lines[..n]).Ok?
    ensures Bad(lines[n]) ==> Collect(lines) == Err(BadLine(n + 1, lines[n]))
    ensures lines[n].Skip? ==> Collect(lines[..n + 1]) == Collect(lines[..n])
    ensures lines[n].Entry? ==> Collect(lines[..n + 1]) == Ok(Collect(lines[..n]).value[lines[n].key := lines[n].value])
  {
    assert lines[..n + 1][..n] == lines[..n];
    if Bad(lines[n]) {
      FirstErrorWins(lines, n + 1);
    }
  }

  /** The scan loop of readFile over an opened file. */
  method ReadLines(content: string, unquote: Unquoter) returns (r: Result<map<string, string>, BadLine>)
    ensures r == Parse(content, unquote)
  {
    var lines := SplitLines(content);
    ghost var classified := Classify(lines, unquote);
    var values: map<string, string> := map[];
    var lineNumber := 0;
    while lineNumber < |lines|
      invariant lineNumber <= |lines|
      invariant Collect(classified[..lineNumber]) == Ok(values)
    {
      CollectStep(classified, lineNumber);
      var line := ParseLine(lines[lineNumber], unquote);
      lineNumber := lineNumber + 1;
      if Bad(line) {
        return Err(BadLine(lineNumber, line));
      }
      if line.Entry? {
        values := values[line.key := line.value];
      }
    }
    assert classified[..lineNumber] == classified;
    return Ok(values);
  }

  // ---------------------------------------------------------------- what a read means

  /** Line `i` assigns `k`, and no later line does. */
  ghost predicate LastAssigns(lines: seq<Line>, i: int, k: string)
  {
    && 0 <= i < |lines|
    && lines[i].Entry? && lines[i].key == k
    && forall j :: i < j < |lines| && lines[j].Entry? ==> lines[j].key != k
  }

  /** Reading fails exactly when some line is bad, and it then reports the first bad line. */
  lemma {:induction false} FailsAtFirstBadLine(lines: seq<Line>)
    ensures Collect(lines).Ok? <==> forall i :: 0 <= i < |lines| ==> !Bad(lines[i])
    ensures Collect(lines).Err? ==>
              var BadLine(n, kind) := Collect(lines).error;
              1 <= n <= |lines| && kind == lines[n - 1] && Bad(kind) && forall i :: 0 <= i < n - 1 ==> !Bad(lines[i])
  {
    if lines != [] {
      FailsAtFirstBadLine(lines[..|lines| - 1]);
    }
  }

  /** A key is present exactly when some line assigns it, and then holds the value of the last such line. */
  lemma {:induction false} LastLineWins(lines: seq<Line>, k: string)
    requires Collect(lines).Ok?
    ensures k in Collect(lines).value <==> exists i :: LastAssigns(lines, i, k)
    ensures forall i :: LastAssigns(lines, i, k) ==> k in Collect(lines).value && Collect(lines).value[k] == lines[i].value
  {
    if lines != [] {
      var n := |lines| - 1;
      var front := lines[..n];
      LastLineWins(front, k);
      if lines[n].Entry? && lines[n].key == k {
        assert LastAssigns(lines, n, k);
      } else {
        forall i
          ensures LastAssigns(lines, i, k) <==> LastAssigns(front, i, k)
        {
          assert forall j :: 0 <= j < n ==> front[j] == lines[j];
        }
      }
    }
  }

  // ---------------------------------------------------------------- writing a file and reading it back

  datatype Quote = Bare | Single | Double

  datatype Item =
    | Filler(text: string)
    | Assignment(lead: string, exported: bool, afterExport: string, key: string, beforeEq: string,
                 afterEq: string, quote: Quote, value: string, trail: string)

  /** A value in its quotes; between double quotes stands an escaped text. */
  function Written(quote: Quote, value: string): string
  {
    match quote
    case Bare => value
    case Single => "'" + value + "'"
    case Double => "\"" + value + "\""
  }

  function Body(a: Item): string
    requires a.Assignment?
  {
    a.key + a.beforeEq + "=" + a.afterEq + Written(a.quote, a.value)
  }

  /** One line of the file. */
  function Render(a: Item): string
  {
    match a
    case Filler(text) => text
    case Assignment(lead, exported, afterExport, _, _, _, _, _, trail) =>
      lead + (if exported then EXPORT + afterExport + Body(a) else Body(a)) + trail
  }

  function RenderFile(items: seq<Item>): string
  {
    if items == [] then "" else Render(items[0]) + "\n" + RenderFile(items[1..])
  }

  /** The value begins and ends with this quote sign. */
  predicate Enclosed(v: string, sign: char)
  {
    |v| >= 2 && v[0] == sign && v[|v| - 1] == sign
  }

  /** A value that needs no quotes. */
  predicate NeedsNoQuotes(v: string)
  {
    Trimmed(v) && !Enclosed(v, '\'') && !Enclosed(v, '"')
  }

  /** A filler is a blank line or a comment; the gaps of an assignment are white space, and its value is quoted if it must be. */
  ghost predicate WellSpaced(a: Item)
  {
    match a
    case Filler(text) => Blank(text) || TrimSpace(text)[0] == '#'
    case Assignment(lead, _, afterExport, _, beforeEq, afterEq, quote, value, trail) =>
      && AllSpace(lead) && AllSpace(afterExport) && AllSpace(beforeEq) && AllSpace(afterEq) && AllSpace(trail)
      && (quote == Bare ==> NeedsNoQuotes(value))
  }

  /** A key that survives being written down: without the prefix it must not read as a comment or as the prefix itself. */
  ghost predicate LegalKey(a: Item)
    requires a.Assignment?
  {
    && a.key != "" && Trimmed(a.key) && '=' !in a.key
    && (!a.exported ==> a.key[0] != '#' && !(EXPORT <= a.key + a.beforeEq))
  }

  /** A double-quoted value stands for what it unquotes to, if it does; other values for themselves. */
  function Meaning(a: Item, unquote: Unquoter): Line
  {
    match a
    case Filler(_) => Skip
    case Assignment(_, _, _, key, _, _, quote, value, _) =>
      if quote != Double then Entry(key, value)
      else
        match unquote("\"" + value + "\"")
        case None => BadValue
        case Some(v) => Entry(key, v)
  }

  lemma {:induction false} IndexOfFirst(s: string, c: char, i: nat)
    requires i < |s| && s[i] == c && c !in s[..i]
    ensures IndexOf(s, c) == i
  {
    var j := IndexOf(s, c);
    assert forall k :: 0 <= k < i ==> s[..i][k] != c;
    assert forall k :: 0 <= k < j ==> s[..j][k] != c;
  }

  /** The three kinds of values: quoted or not, a written value is trimmed and parses to what it stands for. */
  lemma {:induction false} WrittenValueParses(quote: Quote, value: string, unquote: Unquoter)
    requires quote == Bare ==> NeedsNoQuotes(value)
    ensures Trimmed(Written(quote, value))
    ensures ParseValue(Written(quote, value), unquote) == if quote == Double then unquote("\"" + value + "\"") else Some(value)
  {
    var quoted := "'" + value + "'";
    assert quoted[1..|quoted| - 1] == value;
  }

  /** What follows the equals sign up to the last character that is not white space. */
  function Tail(a: Item): string
    requires a.Assignment?
  {
    "=" + if Written(a.quote, a.value) == "" then "" else a.afterEq + Written(a.quote, a.value)
  }

  /** The assignment without the prefix and without surrounding white space. */
  function Core(a: Item): string
    requires a.Assignment?
  {
    a.key + a.beforeEq + Tail(a)
  }

  function Pad(a: Item): string
    requires a.Assignment?
  {
    if Written(a.quote, a.value) == "" then a.afterEq + a.trail else a.trail
  }

  lemma {:induction false} RenderedCore(a: Item)
    requires a.Assignment? && WellSpaced(a)
    ensures Render(a) == a.lead + (if a.exported then EXPORT + a.afterExport + Core(a) else Core(a)) + Pad(a) && AllSpace(Pad(a))
  {
    assert Body(a) + a.trail == Core(a) + Pad(a);
    if a.exported {
      assert Render(a) == a.lead + (EXPORT + a.afterExport) + (Body(a) + a.trail);
    } else {
      assert Render(a) == a.lead + (Body(a) + a.trail);
    }
  }

  lemma {:induction false} CoreTrimmed(a: Item)
    requires a.Assignment? && WellSpaced(a) && a.key != "" && Trimmed(a.key)
    ensures Trimmed(Core(a)) && Core(a) != "" && Core(a)[0] == a.key[0]
    ensures Trimmed(Tail(a)) && Tail(a)[0] == '='
  {
    WrittenValueParses(a.quote, a.value, s => None);
    var w, tail := Written(a.quote, a.value), Tail(a);
    assert w != "" ==> tail[|tail| - 1] == w[|w| - 1];
    assert Core(a)[|Core(a)| - 1] == tail[|tail| - 1];
  }

  lemma {:induction false} CoreParses(a: Item, unquote: Unquoter)
    requires a.Assignment? && WellSpaced(a) && a.key != "" && Trimmed(a.key) && '=' !in a.key
    ensures ParseEntry(Core(a), unquote) == Meaning(a, unquote)
  {
    var core, i, w := Core(a), |a.key + a.beforeEq|, Written(a.quote, a.value);
    assert core[..i] == a.key + a.beforeEq && core[i] == '=';
    IndexOfFirst(core, '=', i);
    assert "" + a.key + a.beforeEq == a.key + a.beforeEq;
    TrimPadded("", a.key, a.beforeEq);
    WrittenValueParses(a.quote, a.value, unquote);
    assert TrimSpace(core[i + 1..]) == w by {
      if w == "" {
        assert core[i + 1..] == "";
      } else {
        assert core[i + 1..] == a.afterEq + w + "";
        TrimPadded(a.afterEq, w, "");
      }
    }
  }

  /** A written line reads back as the assignment it stands for. */
  lemma {:induction false} LegalAssignmentParses(a: Item, unquote: Unquoter)
    requires a.Assignment? && WellSpaced(a) && LegalKey(a)
    ensures ParseLine(Render(a), unquote) == Meaning(a, unquote)
  {
    CoreParses(a, unquote);
    CoreTrimmed(a);
    RenderedCore(a);
    if a.exported {
      TrimPadded(a.lead, EXPORT + a.afterExport + Core(a), Pad(a));
      PrefixRemoved(a.afterExport, Core(a));
    } else {
      TrimPadded(a.lead, Core(a), Pad(a));
      PrefixOfCore(a);
    }
  }

  lemma {:induction false} PrefixRemoved(gap: string, body: string)
    requires AllSpace(gap) && Trimmed(body) && body != ""
    ensures var line := EXPORT + gap + body; EXPORT <= line && TrimSpace(line[|EXPORT|..]) == body
  {
    var line := EXPORT + gap + body;
    assert line[|EXPORT|..] == gap + body + "";
    TrimPadded(gap, body, "");
  }

  /** The prefix has no equals sign, so it ends before the first one. */
  lemma {:induction false} PrefixBeforeEquals(front: string, rest: string)
    ensures EXPORT <= front + "=" + rest <==> EXPORT <= front
  {
    var line := front + "=" + rest;
    assert line[..|front|] == front && line[|front|] == '=';
    assert '=' !in EXPORT;
    assert EXPORT <= line ==> forall i :: 0 <= i < |EXPORT| ==> line[i] == EXPORT[i];
  }

  lemma {:induction false} PrefixOfCore(a: Item)
    requires a.Assignment?
    ensures EXPORT <= Core(a) <==> EXPORT <= a.key + a.beforeEq
  {
    var front, rest := a.key + a.beforeEq, Tail(a)[1..];
    assert Core(a) == front + "=" + rest;
    PrefixBeforeEquals(front, rest);
  }

  /** Whatever a line parses to, its key is a non-empty trimmed string without an equals sign. */
  lemma {:induction false} ParsedKeyIsClean(raw: string, unquote: Unquoter)
    ensures ParseLine(raw, unquote).Entry? ==>
              var k := ParseLine(raw, unquote).key; k != "" && Trimmed(k) && '=' !in k
  {
    if ParseLine(raw, unquote).Entry? {
      var line := TrimSpace(raw);
      var body := if EXPORT <= line then TrimSpace(line[|EXPORT|..]) else line;
      var front := body[..IndexOf(body, '=')];
      var l, r := TrimSplits(front);
      assert forall c :: c in TrimSpace(front) ==> c in l + TrimSpace(front) + r;
    }
  }

  lemma {:induction false} TrimKeepsFront(x: string, tail: string)
    requires tail != "" && Trimmed(tail)
    ensures TrimSpace(x + tail) == TrimLeft(x) + tail
  {
    var pad := TrimLeftSplits(x);
    var front := TrimLeft(x);
    assert x + tail == pad + (front + tail) + "";
    TrimPadded(pad, front + tail, "");
  }

  lemma {:induction false} TrimLeftFirst(x: string)
    ensures TrimSpace(TrimLeft(x)) == TrimSpace(x)
    ensures forall c :: c in TrimLeft(x) ==> c in x
  {
    var pad := TrimLeftSplits(x);
    assert x == pad + TrimLeft(x) + "";
    TrimSpacePadded(pad, TrimLeft(x), "");
  }

  lemma {:induction false} KeyBeforeEquals(x: string, tail: string, unquote: Unquoter)
    requires '=' !in x && tail != "" && tail[0] == '=' && Trimmed(tail)
    ensures var line := ParseEntry(TrimSpace(x + tail), unquote); line.Entry? ==> line.key == TrimSpace(x)
  {
    TrimKeepsFront(x, tail);
    TrimLeftFirst(x);
    var front := TrimLeft(x);
    assert (front + tail)[..|front|] == front;
    IndexOfFirst(front + tail, '=', |front|);
  }

  lemma {:induction false} TrimSpaceShrinks(s: string)
    ensures |TrimSpace(s)| <= |s|
  {
    var l, r := TrimSplits(s);
  }

  /** A key that reads as the prefix loses it when the line is read back. */
  lemma {:induction false} PrefixIsStripped(a: Item)
    requires a.Assignment? && WellSpaced(a) && Trimmed(a.key) && a.key != ""
    requires EXPORT <= a.key + a.beforeEq
    ensures TrimSpace((a.key + a.beforeEq)[|EXPORT|..]) != a.key
  {
    var front := a.key + a.beforeEq;
    var x := front[|EXPORT|..];
    if |a.key| < |EXPORT| {
      assert forall i :: 0 <= i < |x| ==> x[i] == a.beforeEq[i + |EXPORT| - |a.key|];
      BlankIffAllSpace(x);
    } else {
      assert x == "" + a.key[|EXPORT|..] + a.beforeEq;
      TrimSpacePadded("", a.key[|EXPORT|..], a.beforeEq);
      TrimSpaceShrinks(a.key[|EXPORT|..]);
    }
  }

  lemma {:induction false} PrefixedKeyIsLost(a: Item, unquote: Unquoter)
    requires a.Assignment? && WellSpaced(a) && a.key != "" && Trimmed(a.key) && '=' !in a.key
    requires EXPORT <= a.key + a.beforeEq
    ensures EXPORT <= Core(a)
    ensures var line := ParseEntry(TrimSpace(Core(a)[|EXPORT|..]), unquote); line.Entry? ==> line.key != a.key
  {
    var x := (a.key + a.beforeEq)[|EXPORT|..];
    assert Core(a)[|EXPORT|..] == x + Tail(a);
    assert forall i :: 0 <= i < |x| ==> x[i] != '=';
    CoreTrimmed(a);
    KeyBeforeEquals(x, Tail(a), unquote);
    PrefixIsStripped(a);
  }

  lemma {:induction false} IllegalAssignmentLost(a: Item, unquote: Unquoter)
    requires a.Assignment? && WellSpaced(a) && !LegalKey(a)
    requires a.key != "" && Trimmed(a.key) && '=' !in a.key
    ensures var line := ParseLine(Render(a), unquote); line.Entry? ==> line.key != a.key
  {
    CoreTrimmed(a);
    RenderedCore(a);
    TrimPadded(a.lead, Core(a), Pad(a));
    if a.key[0] != '#' {
      PrefixOfCore(a);
      PrefixedKeyIsLost(a, unquote);
    }
  }

  /** Exactly the legal keys survive being written and read back, whichever way the value is quoted. */
  lemma {:induction false} AssignmentParsesIffLegal(a: Item, unquote: Unquoter)
    requires a.Assignment? && WellSpaced(a) && Meaning(a, unquote).Entry?
    ensures ParseLine(Render(a), unquote) == Meaning(a, unquote) <==> LegalKey(a)
  {
    if LegalKey(a) {
      LegalAssignmentParses(a, unquote);
    } else if a.key != "" && Trimmed(a.key) && '=' !in a.key {
      IllegalAssignmentLost(a, unquote);
    } else {
      ParsedKeyIsClean(Render(a), unquote);
    }
  }

  /** A key that starts like a comment: its line reads as one, unless it is written with the prefix. */
  lemma {:induction false} CommentKeyIsLost(unquote: Unquoter)
    ensures ParseLine("#a=1", unquote) == Skip && ParseLine("export #a=1", unquote) == Entry("#a", "1")
  {
    var exported := Assignment("", true, "", "#a", "", "", Bare, "1", "");
    TrimPadded("", "#a=1", "");
    assert "" + "#a=1" + "" == "#a=1";
    RenderedBare(exported);
    assert Render(exported) == "export #a=1";
    LegalAssignmentParses(exported, unquote);
  }

  /** Lines that are skipped, and lines that are no assignment. */
  lemma {:induction false} OtherLines(raw: string, unquote: Unquoter)
    ensures ParseLine(raw, unquote).Skip? <==> Blank(raw) || TrimSpace(raw)[0] == '#'
    ensures '=' !in raw && !ParseLine(raw, unquote).Skip? ==> ParseLine(raw, unquote) == NotAnEntry
    ensures forall gap :: AllSpace(gap) && gap + "=" <= raw ==> ParseLine(raw, unquote) == NotAnEntry
  {
    var l, r := TrimSplits(raw);
    var line := TrimSpace(raw);
    assert forall c :: c in line ==> c in l + line + r;
    if EXPORT <= line {
      var l2, r2 := TrimSplits(line[|EXPORT|..]);
      assert forall c :: c in TrimSpace(line[|EXPORT|..]) ==> c in l2 + TrimSpace(line[|EXPORT|..]) + r2;
      assert forall c :: c in line[|EXPORT|..] ==> c in line;
    }
    forall gap | AllSpace(gap) && gap + "=" <= raw
      ensures ParseLine(raw, unquote) == NotAnEntry
    {
      KeylessLine(gap, raw, unquote);
    }
  }

  lemma {:induction false} KeylessLine(gap: string, raw: string, unquote: Unquoter)
    requires AllSpace(gap) && gap + "=" <= raw
    ensures ParseLine(raw, unquote) == NotAnEntry
  {
    var rest := raw[|gap|..];
    assert raw == gap + rest + "" && rest[0] == '=' by {
      assert raw[..|gap| + 1] == gap + "=";
      assert raw[|gap|] == (gap + "=")[|gap|];
    }
    TrimSpacePadded(gap, rest, "");
    assert TrimLeft(rest) == rest;
    var pad := TrimRightSplits(rest);
    BlankIffAllSpace(rest);
    assert TrimSpace(rest)[0] == rest[0];
    assert TrimSpace(raw)[..0] == "";
    IndexOfFirst(TrimSpace(raw), '=', 0);
  }

  lemma {:induction false} ReturnIsDropped(line: string, unquote: Unquoter)
    ensures ParseLine(DropReturn(line), unquote) == ParseLine(line, unquote)
  {
    var kept := DropReturn(line);
    var dropped := line[|kept|..];
    assert line == "" + kept + dropped;
    TrimSpacePadded("", kept, dropped);
  }

  lemma {:induction false} SplitFirstLine(line: string, rest: string)
    requires '\n' !in line
    ensures SplitLines(line + "\n" + rest) == [DropReturn(line)] + SplitLines(rest)
  {
    var content := line + "\n" + rest;
    assert content[..|line|] == line;
    IndexOfFirst(content, '\n', |line|);
    assert content[|line| + 1..] == rest;
  }

  /** The newline after the last line is optional. */
  lemma {:induction false} FinalNewlineOptional(content: string)
    requires content != "" && content[|content| - 1] != '\n'
    ensures SplitLines(content + "\n") == SplitLines(content)
    decreases |content|
  {
    var i := IndexOf(content, '\n');
    if i == |content| {
      assert content[..i] == content && content + "\n" == content + "\n" + "";
      SplitFirstLine(content, "");
    } else {
      FinalNewlineOptional(content[i + 1..]);
      OneLineLater(content, i);
    }
  }

  lemma {:induction false} OneLineLater(content: string, i: nat)
    requires i < |content| && i == IndexOf(content, '\n')
    ensures SplitLines(content) == [DropReturn(content[..i])] + SplitLines(content[i + 1..])
    ensures SplitLines(content + "\n") == [DropReturn(content[..i])] + SplitLines(content[i + 1..] + "\n")
  {
    var line, after := content[..i], content[i + 1..];
    assert content + "\n" == line + "\n" + (after + "\n");
    SplitFirstLine(line, after + "\n");
  }

  ghost predicate Writable(a: Item)
  {
    WellSpaced(a) && '\n' !in Render(a) && (a.Assignment? ==> LegalKey(a))
  }

  lemma {:induction false} WritableParses(a: Item, unquote: Unquoter)
    requires Writable(a)
    ensures ParseLine(DropReturn(Render(a)), unquote) == Meaning(a, unquote)
  {
    ReturnIsDropped(Render(a), unquote);
    if a.Assignment? {
      LegalAssignmentParses(a, unquote);
    }
  }

  ghost function Meanings(items: seq<Item>, unquote: Unquoter): seq<Line>
  {
    seq(|items|, i requires 0 <= i < |items| => Meaning(items[i], unquote))
  }

  lemma {:induction false} FileClassifies(items: seq<Item>, unquote: Unquoter)
    requires forall i :: 0 <= i < |items| ==> Writable(items[i])
    ensures Classify(SplitLines(RenderFile(items)), unquote) == Meanings(items, unquote)
  {
    if items != [] {
      var line, rest := DropReturn(Render(items[0])), items[1..];
      FileClassifies(rest, unquote);
      FirstLineOf(items);
      ClassifyCons(line, SplitLines(RenderFile(rest)), unquote);
      MeaningsCons(items, unquote);
      WritableParses(items[0], unquote);
    }
  }

  lemma {:induction false} FirstLineOf(items: seq<Item>)
    requires items != [] && Writable(items[0])
    ensures SplitLines(RenderFile(items)) == [DropReturn(Render(items[0]))] + SplitLines(RenderFile(items[1..]))
  {
    SplitFirstLine(Render(items[0]), RenderFile(items[1..]));
  }

  lemma {:induction false} MeaningsCons(items: seq<Item>, unquote: Unquoter)
    requires items != []
    ensures Meanings(items, unquote) == [Meaning(items[0], unquote)] + Meanings(items[1..], unquote)
  {
  }

  lemma {:induction false} ClassifyCons(line: string, lines: seq<string>, unquote: Unquoter)
    ensures Classify([line] + lines, unquote) == [ParseLine(line, unquote)] + Classify(lines, unquote)
  {
  }

  /** `m` is what the assignments among `items` say, the last one for a key counting; all of them can be unquoted. */
  ghost predicate Says(items: seq<Item>, m: map<string, string>, unquote: Unquoter)
  {
    && (forall i :: 0 <= i < |items| ==> !Bad(Meanings(items, unquote)[i]))
    && forall k ::
         && (k in m ==> exists i :: LastAssigns(Meanings(items, unquote), i, k) && Meanings(items, unquote)[i].value == m[k])
         && (k !in m ==> forall i :: !LastAssigns(Meanings(items, unquote), i, k))
  }

  /**
   Dotenv round trip: a map written as assignments with legal keys and values without newlines, single-quoted,
   double-quoted or, where the value allows it, without quotes, in any order, with any earlier assignments to
   the same keys, any spacing, optional `export` prefixes, and any blank lines and comments in between,
   reads back as the map, with or without a newline at the very end.
   */
  lemma {:induction false} RoundTrip(items: seq<Item>, m: map<string, string>, unquote: Unquoter)
    requires forall i :: 0 <= i < |items| ==> Writable(items[i])
    requires Says(items, m, unquote)
    ensures Parse(RenderFile(items), unquote) == Ok(m)
    ensures forall content :: content + "\n" == RenderFile(items) && content != "" && content[|content| - 1] != '\n' ==>
              Parse(content, unquote) == Ok(m)
  {
    FileClassifies(items, unquote);
    CollectsWhatItSays(items, m, unquote);
    forall content | content + "\n" == RenderFile(items) && content != "" && content[|content| - 1] != '\n'
      ensures Parse(content, unquote) == Ok(m)
    {
      FinalNewlineOptional(content);
    }
  }

  lemma {:induction false} CollectsWhatItSays(items: seq<Item>, m: map<string, string>, unquote: Unquoter)
    requires Says(items, m, unquote)
    ensures Collect(Meanings(items, unquote)) == Ok(m)
  {
    var lines := Meanings(items, unquote);
    assert Collect(lines).Ok? by {
      FailsAtFirstBadLine(lines);
    }
    var read := Collect(lines).value;
    forall k
      ensures k in read <==> k in m
      ensures k in m ==> k in read && read[k] == m[k]
    {
      LastLineWins(lines, k);
      if k in m {
        var i :| LastAssigns(lines, i, k) && lines[i].value == m[k];
      }
    }
    assert read == m;
  }

  /** The barest way to write an assignment with a quoted value. */
  function Plain(key: string, value: string): Item
  {
    Assignment("", false, "", key, "", "", Single, value, "")
  }

  lemma {:induction false} PlainWritable(key: string, value: string)
    requires '\n' !in key && '\n' !in value && LegalKey(Plain(key, value))
    ensures Writable(Plain(key, value))
  {
    assert Render(Plain(key, value)) == "" + Body(Plain(key, value)) + "";
  }

  function PlainItems(keys: seq<string>, m: map<string, string>): seq<Item>
    requires forall i :: 0 <= i < |keys| ==> keys[i] in m
  {
    seq(|keys|, i requires 0 <= i < |keys| => Plain(keys[i], m[keys[i]]))
  }

  lemma {:induction false} PlainItemsSay(keys: seq<string>, m: map<string, string>, unquote: Unquoter)
    requires forall k :: k in m <==> k in keys
    requires forall i, j :: 0 <= i < j < |keys| ==> keys[i] != keys[j]
    ensures Says(PlainItems(keys, m), m, unquote)
  {
    var lines := Meanings(PlainItems(keys, m), unquote);
    assert forall i :: 0 <= i < |keys| ==> lines[i] == Entry(keys[i], m[keys[i]]);
    forall k | k in m
      ensures exists i :: LastAssigns(lines, i, k) && lines[i].value == m[k]
    {
      var i :| 0 <= i < |keys| && keys[i] == k;
      assert LastAssigns(lines, i, k);
    }
  }

  /** Every map with legal keys and newline-free values can be written down, one assignment a key, and read back. */
  lemma {:induction false} MapRoundTrip(keys: seq<string>, m: map<string, string>, unquote: Unquoter)
    requires forall k :: k in m <==> k in keys
    requires forall i, j :: 0 <= i < j < |keys| ==> keys[i] != keys[j]
    requires forall k :: k in m ==> '\n' !in k && '\n' !in m[k] && LegalKey(Plain(k, m[k]))
    ensures Parse(RenderFile(PlainItems(keys, m)), unquote) == Ok(m)
  {
    forall i | 0 <= i < |keys|
      ensures Writable(PlainItems(keys, m)[i])
    {
      assert keys[i] in m;
      PlainWritable(keys[i], m[keys[i]]);
    }
    PlainItemsSay(keys, m, unquote);
    RoundTrip(PlainItems(keys, m), m, unquote);
  }

  // ---------------------------------------------------------------- a file of one line

  ghost predicate SimpleKey(key: string)
  {
    key != "" && Trimmed(key) && '=' !in key && '\n' !in key && key[0] != '#' && !("export " <= key)
  }

  /** A line that stands alone in its file. */
  lemma {:induction false} OnlyLine(line: string, unquote: Unquoter)
    requires line != "" && '\n' !in line
    ensures Parse(line, unquote) == match ParseLine(line, unquote)
                                    case Skip => Ok(map[])
                                    case Entry(key, value) => Ok(map[key := value])
                                    case bad => Err(BadLine(1, bad))
  {
    assert line[..|line|] == line;
    assert IndexOf(line, '\n') == |line|;
    assert SplitLines(line) == [DropReturn(line)];
    ReturnIsDropped(line, unquote);
    var lines := [ParseLine(line, unquote)];
    assert Classify(SplitLines(line), unquote) == lines;
    assert lines[..0] == [] && Collect(lines[..0]) == Ok(map[]);
  }

  /** An unquoted line, as one is usually written, reads back as its key and value. */
  lemma {:induction false} BareLineReadsBack(key: string, value: string, unquote: Unquoter)
    requires SimpleKey(key) && '\n' !in value && NeedsNoQuotes(value)
    ensures Parse(key + "=" + value, unquote) == Ok(map[key := value])
  {
    ValueOfLine(key, value, unquote);
    assert "" + value + "" == value;
    TrimPadded("", value, "");
  }

  /** So it does behind the prefix. */
  lemma {:induction false} ExportedLineReadsBack(key: string, value: string, unquote: Unquoter)
    requires SimpleKey(key) && '\n' !in value && NeedsNoQuotes(value)
    ensures Parse("export " + key + "=" + value, unquote) == Ok(map[key := value])
  {
    var a := Assignment("", true, "", key, "", "", Bare, value, "");
    LegalAssignmentParses(a, unquote);
    RenderedBare(a);
    ExportedLine(key, value, ParseLine(Render(a), unquote), unquote);
  }

  lemma {:induction false} ExportedLine(key: string, value: string, line: Line, unquote: Unquoter)
    requires '\n' !in key && '\n' !in value && line == ParseLine("export " + key + "=" + value, unquote) == Entry(key, value)
    ensures Parse("export " + key + "=" + value, unquote) == Ok(map[key := value])
  {
    OnlyLine("export " + key + "=" + value, unquote);
  }

  lemma {:induction false} RenderedBare(a: Item)
    requires a.Assignment? && a.quote == Bare && a.lead == a.afterExport == a.beforeEq == a.afterEq == a.trail == ""
    ensures Render(a) == (if a.exported then "export " else "") + a.key + "=" + a.value
    ensures a.key + a.beforeEq == a.key
  {
    assert Body(a) == a.key + "=" + a.value;
  }

  /** A key, an equals sign and a trimmed value. */
  lemma {:induction false} CoreOfLine(key: string, gap: string, v: string, pad: string)
    requires SimpleKey(key) && AllSpace(gap) && AllSpace(pad) && Trimmed(v) && (v == "" ==> gap == "")
    ensures var core := key + "=" + gap + v; TrimSpace(core + pad) == core && core[0] == key[0] && !(EXPORT <= core)
  {
    var core := key + "=" + gap + v;
    assert core[|core| - 1] == if v == "" then '=' else v[|v| - 1];
    assert core + pad == "" + core + pad;
    TrimPadded("", core, pad);
    assert core == key + "=" + (gap + v);
    PrefixBeforeEquals(key, gap + v);
  }

  lemma {:induction false} EntryOfCore(key: string, gap: string, v: string, unquote: Unquoter)
    requires SimpleKey(key) && AllSpace(gap) && Trimmed(v)
    ensures ParseEntry(key + "=" + gap + v, unquote) == match ParseValue(v, unquote)
                                                        case None => BadValue
                                                        case Some(x) => Entry(key, x)
  {
    var core := key + "=" + gap + v;
    assert core[..|key|] == key;
    IndexOfFirst(core, '=', |key|);
    assert "" + key + "" == key;
    TrimPadded("", key, "");
    assert core[|key| + 1..] == gap + v + "";
    TrimPadded(gap, v, "");
  }

  /** Whatever stands behind the equals sign is trimmed and then parsed. */
  lemma {:induction false} ValueOfLine(key: string, value: string, unquote: Unquoter)
    requires SimpleKey(key) && '\n' !in value
    ensures Parse(key + "=" + value, unquote) == match ParseValue(TrimSpace(value), unquote)
                                                 case None => Err(BadLine(1, BadValue))
                                                 case Some(v) => Ok(map[key := v])
  {
    var left, right := TrimSplits(value);
    var v := TrimSpace(value);
    var gap, pad := if v == "" then "" else left, if v == "" then value else right;
    BlankIffAllSpace(value);
    assert key + "=" + value == key + "=" + gap + v + pad;
    CoreOfLine(key, gap, v, pad);
    EntryOfCore(key, gap, v, unquote);
    OnlyLine(key + "=" + value, unquote);
  }

  /** Unless it is in double quotes, an unquoted value reads back exactly if it is trimmed and not in single quotes. */
  lemma {:induction false} BareValueReadsBackIff(key: string, value: string, unquote: Unquoter)
    requires SimpleKey(key) && '\n' !in value && !Enclosed(TrimSpace(value), '"')
    ensures Parse(key + "=" + value, unquote) == Ok(map[key := value]) <==> NeedsNoQuotes(value)
  {
    ValueOfLine(key, value, unquote);
    var l, r := TrimSplits(value);
    assert "" + value + "" == value;
    if Trimmed(value) {
      TrimPadded("", value, "");
    }
    assert map[key := value][key] == value;
    if Parse(key + "=" + value, unquote) == Ok(map[key := value]) {
      var m := Parse(key + "=" + value, unquote).value;
      assert m[key] == value;
    }
  }

  /** A value in double quotes is what it unquotes to, and the line is bad if it cannot be unquoted. */
  lemma {:induction false} DoubleQuotedValue(key: string, value: string, unquote: Unquoter)
    requires SimpleKey(key) && '\n' !in value && Enclosed(TrimSpace(value), '"')
    ensures Parse(key + "=" + value, unquote) == match unquote(TrimSpace(value))
                                                 case None => Err(BadLine(1, BadValue))
                                                 case Some(v) => Ok(map[key := v])
  {
    ValueOfLine(key, value, unquote);
  }
}
