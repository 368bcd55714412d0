// Text seen as lines: what splitting at /\r?\n/, trimming and the patterns of the
// update manifest scripts mean for JavaScript strings
// (scripts/merge-mac-update-manifests.ts, scripts/lib/mac-update-zip.ts).
module TextLines {
  import opened Wrappers

  // \s, which is also what trim() and trimEnd() remove.
  predicate IsSpace(c: char) {
    var n := c as int;
    || 0x9 <= n <= 0xD || n == 0x20 || n == 0xA0 || n == 0x1680 || 0x2000 <= n <= 0x200A
    || n == 0x2028 || n == 0x2029 || n == 0x202F || n == 0x205F || n == 0x3000 || n == 0xFEFF
  }

  // What `.` does not match.
  predicate IsLineTerminator(c: char) {
    c == '\n' || c == '\r' || c as int == 0x2028 || c as int == 0x2029
  }

  predicate OneLine(s: string) {
    forall i :: 0 <= i < |s| ==> !IsLineTerminator(s[i])
  }

  predicate Trimmed(s: string) {
    s != "" ==> !IsSpace(s[0]) && !IsSpace(s[|s| - 1])
  }

  // ---- Splitting and joining ----

  predicate StartsCrLf(text: string) {
    |text| >= 2 && text[0] == '\r' && text[1] == '\n'
  }

  // text.split(/\r?\n/)
  function Lines(text: string): (lines: seq<string>)
    ensures lines != []
    ensures forall i :: 0 <= i < |lines| ==> '\n' !in lines[i]
  {
    if text == "" then [""]
    else if text[0] == '\n' then [""] + Lines(text[1..])
    else if StartsCrLf(text) then [""] + Lines(text[2..])
    else
      var rest := Lines(text[1..]);
      [[text[0]] + rest[0]] + rest[1..]
  }

  // lines.join("\n")
  function Join(lines: seq<string>): string {
    if lines == [] then ""
    else if |lines| == 1 then lines[0] else lines[0] + "\n" + Join(lines[1..])
  }

  predicate EndsInCr(line: string) {
    line != "" && line[|line| - 1] == '\r'
  }

  // Some line but the last ends in a carriage return.
  predicate InnerCr(lines: seq<string>) {
    |lines| >= 2 && (EndsInCr(lines[0]) || InnerCr(lines[1..]))
  }

  predicate Contains(text: string, pattern: string) {
    |pattern| <= |text| && (pattern <= text || (text != "" && Contains(text[1..], pattern)))
  }

  lemma {:induction false} InnerCrAt(lines: seq<string>, i: nat)
    requires i < |lines| - 1 && EndsInCr(lines[i])
    ensures InnerCr(lines)
  {
    if i > 0 {
      InnerCrAt(lines[1..], i - 1);
    }
  }

  lemma {:induction false} InnerCrIndex(lines: seq<string>) returns (i: nat)
    requires InnerCr(lines)
    ensures i < |lines| - 1 && EndsInCr(lines[i])
  {
    if EndsInCr(lines[0]) {
      i := 0;
    } else {
      var j := InnerCrIndex(lines[1..]);
      i := j + 1;
    }
  }

  lemma {:induction false} LinesOfFirst(line: string, rest: string)
    requires '\n' !in line && !EndsInCr(line)
    ensures Lines(line + "\n" + rest) == [line] + Lines(rest)
  {
    var text := line + "\n" + rest;
    if line == "" {
      assert text[1..] == rest;
    } else {
      assert text[1..] == line[1..] + "\n" + rest;
      assert text[0] == line[0];
      if |line| > 1 {
        assert line[1..][|line| - 2] == line[|line| - 1];
        assert text[1] == line[1];
      }
      LinesOfFirst(line[1..], rest);
      assert [line[0]] + line[1..] == line;
    }
  }

  lemma {:induction false} LinesOfCrLf(line: string, rest: string)
    requires '\n' !in line
    ensures Lines(line + "\r\n" + rest) == [line] + Lines(rest)
  {
    var text := line + "\r\n" + rest;
    if line == "" {
      assert text[0] == '\r' && text[1] == '\n' && text[2..] == rest;
    } else {
      assert text[1..] == line[1..] + "\r\n" + rest;
      assert text[0] == line[0];
      assert text[1] != '\n' by {
        if |line| > 1 {
          assert text[1] == line[1];
        } else {
          assert text[1] == '\r';
        }
      }
      LinesOfCrLf(line[1..], rest);
      assert [line[0]] + line[1..] == line;
    }
  }

  lemma {:induction false} LinesOfOne(line: string)
    requires '\n' !in line
    ensures Lines(line) == [line]
  {
    if line != "" {
      LinesOfOne(line[1..]);
      assert [line[0]] + line[1..] == line;
    }
  }

  // Splitting undoes joining, unless a line but the last ends in a carriage return.
  lemma {:induction false} SplitUndoesJoin(lines: seq<string>)
    requires lines != [] && (forall i :: 0 <= i < |lines| ==> '\n' !in lines[i]) && !InnerCr(lines)
    ensures Lines(Join(lines)) == lines
  {
    if |lines| == 1 {
      LinesOfOne(lines[0]);
    } else {
      LinesOfFirst(lines[0], Join(lines[1..]));
      SplitUndoesJoin(lines[1..]);
    }
  }

  lemma {:induction false} CrLfAfterFirst(line: string, rest: string)
    requires '\n' !in line
    ensures Contains(line + "\n" + rest, "\r\n") <==> EndsInCr(line) || Contains(rest, "\r\n")
  {
    var text := line + "\n" + rest;
    if line == "" {
      assert text[1..] == rest;
      assert text[0] == '\n';
    } else {
      assert text[1..] == line[1..] + "\n" + rest;
      CrLfAfterFirst(line[1..], rest);
      assert text[0] == line[0];
      if |line| > 1 {
        assert text[1] == line[1] && line[1] != '\n';
        assert line[1..][|line| - 2] == line[|line| - 1];
      } else {
        assert text[..2] == [line[0], '\n'];
      }
    }
  }

  lemma {:induction false} NoLfNoCrLf(line: string)
    requires '\n' !in line
    ensures !Contains(line, "\r\n")
  {
    if line != "" {
      NoLfNoCrLf(line[1..]);
      assert "\r\n"[1] == '\n';
    }
  }

  lemma {:induction false} JoinedCrLf(lines: seq<string>)
    requires lines != [] && forall i :: 0 <= i < |lines| ==> '\n' !in lines[i]
    ensures Contains(Join(lines), "\r\n") <==> InnerCr(lines)
  {
    if |lines| == 1 {
      NoLfNoCrLf(lines[0]);
    } else {
      CrLfAfterFirst(lines[0], Join(lines[1..]));
      JoinedCrLf(lines[1..]);
    }
  }

  // A carriage return is left at the end of a line only by two in front of a line feed.
  lemma {:induction false} SplitLeavesCr(text: string)
    ensures InnerCr(Lines(text)) ==> Contains(text, "\r\r\n")
  {
    if text == "" {
    } else if text[0] == '\n' {
      SplitLeavesCr(text[1..]);
      assert Lines(text)[1..] == Lines(text[1..]);
    } else if StartsCrLf(text) {
      SplitLeavesCr(text[2..]);
      assert Lines(text)[1..] == Lines(text[2..]);
      assert text[1..][1..] == text[2..];
    } else {
      var rest := Lines(text[1..]);
      SplitLeavesCr(text[1..]);
      assert Lines(text)[1..] == rest[1..];
      if |rest| >= 2 && EndsInCr(Lines(text)[0]) && rest[0] == "" {
        assert text[0] == '\r';
        FirstLineEmpty(text[1..]);
        assert "\r\r\n" <= text;
      }
    }
  }

  lemma FirstLineEmpty(text: string)
    requires Lines(text)[0] == "" && |Lines(text)| >= 2
    ensures "\n" <= text || "\r\n" <= text
  {
  }

  function CountCr(text: string): nat {
    if text == "" then 0 else (if text[0] == '\r' then 1 else 0) + CountCr(text[1..])
  }

  lemma {:induction false} CountCrAppend(a: string, b: string)
    ensures CountCr(a + b) == CountCr(a) + CountCr(b)
  {
    if a == "" {
      assert a + b == b;
    } else {
      assert (a + b)[1..] == a[1..] + b;
      CountCrAppend(a[1..], b);
    }
  }

  function CountCrs(lines: seq<string>): nat {
    if lines == [] then 0 else CountCrs(lines[..|lines| - 1]) + CountCr(lines[|lines| - 1])
  }

  lemma {:induction false} CountCrsFront(line: string, rest: seq<string>)
    ensures CountCrs([line] + rest) == CountCr(line) + CountCrs(rest)
  {
    var all := [line] + rest;
    if rest == [] {
      assert all[..0] == [];
    } else {
      assert all[..|all| - 1] == [line] + rest[..|rest| - 1];
      CountCrsFront(line, rest[..|rest| - 1]);
    }
  }

  lemma {:induction false} CountCrJoin(lines: seq<string>)
    requires lines != []
    ensures CountCr(Join(lines)) == CountCrs(lines)
  {
    if |lines| == 1 {
      assert lines[..0] == [];
    } else {
      CountCrJoin(lines[1..]);
      CountCrAppend(lines[0] + "\n", Join(lines[1..]));
      CountCrAppend(lines[0], "\n");
      assert "\n"[1..] == "";
      CountCrsFront(lines[0], lines[1..]);
      assert [lines[0]] + lines[1..] == lines;
    }
  }

  // Splitting loses the carriage returns in front of line feeds.
  lemma {:induction false} CountCrLines(text: string)
    ensures CountCrs(Lines(text)) <= CountCr(text)
    ensures Contains(text, "\r\n") ==> CountCrs(Lines(text)) < CountCr(text)
  {
    if text == "" {
      assert [""][..0] == [];
    } else if text[0] == '\n' {
      CountCrLines(text[1..]);
      CountCrsFront("", Lines(text[1..]));
    } else if StartsCrLf(text) {
      CountCrLines(text[2..]);
      CountCrsFront("", Lines(text[2..]));
      assert text[1..][1..] == text[2..];
    } else {
      CountCrLines(text[1..]);
      var rest := Lines(text[1..]);
      CountCrsFront(rest[0], rest[1..]);
      assert [rest[0]] + rest[1..] == rest;
      CountCrsFront([text[0]] + rest[0], rest[1..]);
      assert ([text[0]] + rest[0])[1..] == rest[0];
    }
  }

  // ---- Trimming and matching ----

  // How many leading characters \s* takes.
  function SpaceCount(s: string): (n: nat)
    ensures n <= |s|
    ensures n < |s| ==> !IsSpace(s[n])
    ensures forall i :: 0 <= i < n ==> IsSpace(s[i])
  {
    if s == "" || !IsSpace(s[0]) then 0 else 1 + SpaceCount(s[1..])
  }

  function TrimEnd(s: string): (r: string)
    ensures r <= s
    ensures r != "" ==> !IsSpace(r[|r| - 1])
  {
    if s == "" || !IsSpace(s[|s| - 1]) then s else TrimEnd(s[..|s| - 1])
  }

  function Trim(s: string): string {
    TrimEnd(s[SpaceCount(s)..])
  }

  // The captured text of /\s*(.+)$/ on the rest of a line. \s* gives back one
  // character when it took them all.
  function Capture(rest: string): Option<string> {
    if rest == "" then None
    else
      var spaces := SpaceCount(rest);
      var taken := if spaces < |rest| then spaces else |rest| - 1;
      if OneLine(rest[taken..]) then Some(rest[taken..]) else None
  }

  // The captured text of /^prefix\s*(.+)$/.
  function Field(prefix: string, line: string): Option<string> {
    if prefix <= line then Capture(line[|prefix|..]) else None
  }

  lemma FieldOf(prefix: string, value: string)
    requires value != "" && OneLine(value) && Trimmed(value)
    ensures Field(prefix, prefix + " " + value) == Some(value)
    ensures Trim(value) == value
  {
  }

  lemma TrimEndOf(prefix: string, value: string)
    requires value != "" && !IsSpace(value[|value| - 1])
    ensures TrimEnd(prefix + value) == prefix + value
  {
  }

  // ---- Reading a field back ----

  predicate AllSpace(s: string) {
    forall i :: 0 <= i < |s| ==> IsSpace(s[i])
  }

  lemma {:induction false} TrimEndBlank(prefix: string, spaces: string)
    requires AllSpace(spaces) && (prefix != "" ==> !IsSpace(prefix[|prefix| - 1]))
    ensures TrimEnd(prefix + spaces) == prefix
  {
    if spaces == "" {
      assert prefix + spaces == prefix;
    } else {
      assert (prefix + spaces)[..|prefix + spaces| - 1] == prefix + spaces[..|spaces| - 1];
      TrimEndBlank(prefix, spaces[..|spaces| - 1]);
    }
  }

  lemma {:induction false} TrimEndPast(prefix: string, s: string)
    requires !AllSpace(s)
    ensures TrimEnd(prefix + s) == prefix + TrimEnd(s) && TrimEnd(s) != ""
  {
    assert (prefix + s)[|prefix + s| - 1] == s[|s| - 1];
    if IsSpace(s[|s| - 1]) {
      assert (prefix + s)[..|prefix + s| - 1] == prefix + s[..|s| - 1];
      TrimEndPast(prefix, s[..|s| - 1]);
    }
  }

  lemma {:induction false} SpaceCountOf(spaces: string, s: string)
    requires AllSpace(spaces) && (s != "" ==> !IsSpace(s[0]))
    ensures SpaceCount(spaces + s) == |spaces|
  {
    if spaces == "" {
      assert spaces + s == s;
    } else {
      assert (spaces + s)[1..] == spaces[1..] + s;
      SpaceCountOf(spaces[1..], s);
    }
  }

  // A match of /^prefix\s*(.+)$/.
  ghost predicate Splits(line: string, prefix: string, spaces: string, value: string) {
    line == prefix + spaces + value && AllSpace(spaces) && value != "" && OneLine(value)
  }

  // A field is captured exactly if there is a match, and it is the shortest of them all.
  lemma FieldMeans(prefix: string, line: string)
    ensures Field(prefix, line).Some? <==> exists spaces, value :: Splits(line, prefix, spaces, value)
    ensures Field(prefix, line).Some? ==> exists spaces :: Splits(line, prefix, spaces, Field(prefix, line).value)
    ensures forall spaces, value :: Field(prefix, line).Some? && Splits(line, prefix, spaces, value) ==>
              |Field(prefix, line).value| <= |value|
  {
    hide Field, OneLine, AllSpace;
    forall spaces, value | Splits(line, prefix, spaces, value)
      ensures Field(prefix, line).Some? && |Field(prefix, line).value| <= |value|
    {
      MatchIsCaptured(prefix, spaces, value);
      assert prefix + spaces + value == prefix + (spaces + value);
    }
    if Field(prefix, line).Some? {
      CapturedIsAMatch(prefix, line);
    }
  }

  lemma CapturedIsAMatch(prefix: string, line: string)
    requires Field(prefix, line).Some?
    ensures exists spaces :: Splits(line, prefix, spaces, Field(prefix, line).value)
  {
    var value := Field(prefix, line).value;
    var rest := line[|prefix|..];
    var spaces := rest[..|rest| - |value|];
    assert rest == spaces + value;
    assert Splits(line, prefix, spaces, value);
  }

  lemma MatchIsCaptured(prefix: string, spaces: string, value: string)
    requires AllSpace(spaces) && value != "" && OneLine(value)
    ensures var r := Field(prefix, prefix + (spaces + value)); r.Some? && |r.value| <= |value|
  {
    var line, rest := prefix + (spaces + value), spaces + value;
    assert line[|prefix|..] == rest;
    var n := SpaceCount(rest);
    assert forall i :: 0 <= i < |spaces| ==> rest[i] == spaces[i];
    var taken := if n < |rest| then n else |rest| - 1;
    assert rest[taken..] == value[taken - |spaces|..];
    assert OneLine(value[taken - |spaces|..]);
  }

  lemma TrimBlank(v: string)
    requires AllSpace(v)
    ensures Trim(v) == ""
  {
  }

  // Trimming a text that is not blank: the spaces in front, and the rest.
  lemma TrimSplits(v: string) returns (spaces: string)
    requires !AllSpace(v)
    ensures AllSpace(spaces) && TrimEnd(v) == spaces + Trim(v)
    ensures Trim(v) != "" && Trimmed(Trim(v))
  {
    var n := SpaceCount(v);
    assert n < |v|;
    spaces := v[..n];
    var rest := v[n..];
    assert v == spaces + rest;
    assert rest[0] == v[n];
    assert !AllSpace(rest);
    TrimEndPast(spaces, rest);
    assert TrimEnd(rest)[0] == rest[0];
  }

  lemma TrimTwice(v: string)
    requires Trimmed(v)
    ensures Trim(v) == v
  {
  }

  lemma Reassociate(a: string, b: string, c: string, d: string)
    ensures (a + b) + (c + d) == a + (b + c) + d
  {
  }

  lemma FieldPast(prefix: string, spaces: string, value: string)
    requires AllSpace(spaces) && value != "" && Trimmed(value) && OneLine(value)
    ensures Field(prefix, prefix + spaces + value) == Some(value)
    ensures prefix <= prefix + spaces + value
  {
    SpaceCountOf(spaces, value);
    assert (prefix + spaces + value)[|prefix|..] == spaces + value;
    assert (spaces + value)[|spaces|..] == value;
  }

  lemma FieldReadBlank(prefix: string, value: string)
    requires prefix != "" && !IsSpace(prefix[|prefix| - 1]) && AllSpace(value)
    ensures TrimEnd(prefix + " " + value) == prefix && Field(prefix, prefix) == None
  {
    var padded := " " + value;
    assert AllSpace(padded);
    assert prefix + " " + value == prefix + padded;
    TrimEndBlank(prefix, padded);
    assert prefix[|prefix|..] == "";
  }

  lemma FieldReadSome(prefix: string, value: string)
    requires prefix != "" && OneLine(value) && !AllSpace(value)
    ensures var line := TrimEnd(prefix + " " + value);
            prefix <= line && line != "" && Field(prefix, line) == Some(Trim(value))
  {
    var spaces := TrimSplits(value);
    TrimEndPast(prefix + " ", value);
    TrimIsOneLine(value);
    var padded := " " + spaces;
    assert AllSpace(padded);
    hide *;
    Reassociate(prefix, " ", spaces, Trim(value));
    FieldPast(prefix, padded, Trim(value));
  }

  // What the trimmed line `prefix value` gives for that field.
  lemma FieldRead(prefix: string, value: string)
    requires prefix != "" && !IsSpace(prefix[|prefix| - 1]) && OneLine(value)
    ensures var line := TrimEnd(prefix + " " + value);
            && prefix <= line && line != ""
            && (Trim(value) == "" ==> line == prefix)
            && Field(prefix, line) == if Trim(value) == "" then None else Some(Trim(value))
    ensures Trim(value) != "" ==> Trimmed(Trim(value)) && Trim(Trim(value)) == Trim(value)
  {
    hide Trim, TrimEnd, Field, AllSpace, IsSpace, OneLine, Trimmed;
    if AllSpace(value) {
      TrimBlank(value);
      FieldReadBlank(prefix, value);
    } else {
      var spaces := TrimSplits(value);
      TrimTwice(Trim(value));
      FieldReadSome(prefix, value);
    }
  }

  lemma TrimIsOneLine(s: string)
    requires OneLine(s)
    ensures OneLine(Trim(s))
  {
  }

  predicate AllOneLine(lines: seq<string>) {
    forall i :: 0 <= i < |lines| ==> OneLine(lines[i])
  }

  lemma AllOneLineAppend(a: seq<string>, b: seq<string>)
    requires AllOneLine(a) && AllOneLine(b)
    ensures AllOneLine(a + b)
  {
  }

  // Lines free of line terminators are what their joined text splits into.
  lemma OneLinesSurviveJoining(lines: seq<string>)
    requires lines != [] && AllOneLine(lines)
    ensures Lines(Join(lines)) == lines
  {
    if InnerCr(lines) {
      var i := InnerCrIndex(lines);
      assert IsLineTerminator(lines[i][|lines[i]| - 1]);
    }
    SplitUndoesJoin(lines);
  }

  lemma Associate<T>(a: seq<T>, b: seq<T>, c: seq<T>)
    ensures (a + b) + c == a + (b + c)
  {
  }
}
