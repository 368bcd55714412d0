// The macOS update manifest: printing and parsing it
// (scripts/merge-mac-update-manifests.ts).
//
// Two definitions of parsing: Parse, a fold over the lines, and ParseManifest, the
// loop over local variables, which computes the same.
module MacManifest {
  import opened Wrappers
  import opened TextLines
  import opened TextOrder
  import opened ManifestScalars

  datatype File = File(url: string, sha512: string, size: nat)

  datatype Manifest = Manifest(version: string, releaseDate: string, files: seq<File>, extras: map<string, Scalar>)

  const URL := "  - url:"
  const SHA := "    sha512:"
  const SIZE := "    size:"

  // ---- Printing ----

  function FileEntry(f: File): seq<string> {
    [URL + " " + f.url, SHA + " " + f.sha512, SIZE + " " + PrintSize(f.size)]
  }

  function FileLines(files: seq<File>): seq<string> {
    if files == [] then [] else FileLines(files[..|files| - 1]) + FileEntry(files[|files| - 1])
  }

  function KeyLine(key: string, value: string): string {
    (key + ":") + " " + value
  }

  function ExtraLines(keys: seq<string>, extras: map<string, Scalar>): seq<string>
    requires forall i :: 0 <= i < |keys| ==> keys[i] in extras
  {
    if keys == [] then []
    else
      var key := keys[|keys| - 1];
      ExtraLines(keys[..|keys| - 1], extras) + [KeyLine(key, PrintScalar(extras[key]))]
  }

  function PrintLines(m: Manifest): seq<string> {
    [KeyLine("version", m.version), "files:"] + FileLines(m.files)
    + ExtraLines(SortedKeys(m.extras.Keys), m.extras)
    + [KeyLine("releaseDate", Quote(m.releaseDate))] + [""]
  }

  function Print(m: Manifest): string {
    Join(PrintLines(m))
  }

  lemma MoreFiles(before: seq<string>, files: seq<File>, i: nat)
    requires i < |files|
    ensures before + FileLines(files[..i]) + [URL + " " + files[i].url] + [SHA + " " + files[i].sha512]
            + [SIZE + " " + PrintSize(files[i].size)] == before + FileLines(files[..i + 1])
  {
    assert files[..i + 1][..i] == files[..i];
    var lines, url, sha, size := before + FileLines(files[..i]), URL + " " + files[i].url,
                                 SHA + " " + files[i].sha512, SIZE + " " + PrintSize(files[i].size);
    assert lines + [url] + [sha] + [size] == lines + [url, sha, size];
    Associate(before, FileLines(files[..i]), [url, sha, size]);
  }

  lemma MoreExtras(before: seq<string>, keys: seq<string>, k: nat, extras: map<string, Scalar>)
    requires k < |keys| && forall i :: 0 <= i < |keys| ==> keys[i] in extras
    ensures before + ExtraLines(keys[..k], extras) + [KeyLine(keys[k], PrintScalar(extras[keys[k]]))]
         == before + ExtraLines(keys[..k + 1], extras)
  {
    assert keys[..k + 1][..k] == keys[..k];
    Associate(before, ExtraLines(keys[..k], extras), [KeyLine(keys[k], PrintScalar(extras[keys[k]]))]);
  }

  lemma NothingYet(before: seq<string>, extras: map<string, Scalar>)
    ensures before + FileLines([]) == before && before + ExtraLines([], extras) == before
  {
  }

  method Serialize(m: Manifest) returns (text: string)
    ensures text == Print(m)
  {
    hide FileLines, ExtraLines, KeyLine, PrintScalar, PrintSize, Join, Quote, SortedKeys;
    var lines := [KeyLine("version", m.version), "files:"];
    ghost var header := lines;
    var i := 0;
    NothingYet(lines, m.extras);
    assert m.files[..0] == [];
    while i < |m.files|
      invariant 0 <= i <= |m.files|
      invariant lines == header + FileLines(m.files[..i])
    {
      MoreFiles(header, m.files, i);
      var file := m.files[i];
      lines := lines + [URL + " " + file.url];
      lines := lines + [SHA + " " + file.sha512];
      lines := lines + [SIZE + " " + PrintSize(file.size)];
      i := i + 1;
    }
    assert m.files[..i] == m.files;
    var keys := SortedKeys(m.extras.Keys);
    assert forall j :: 0 <= j < |keys| ==> keys[j] in m.extras;
    ghost var filesToo := lines;
    var k := 0;
    NothingYet(lines, m.extras);
    assert keys[..0] == [];
    while k < |keys|
      invariant 0 <= k <= |keys|
      invariant lines == filesToo + ExtraLines(keys[..k], m.extras)
    {
      MoreExtras(filesToo, keys, k, m.extras);
      lines := lines + [KeyLine(keys[k], PrintScalar(m.extras[keys[k]]))];
      k := k + 1;
    }
    assert keys[..k] == keys;
    lines := lines + [KeyLine("releaseDate", Quote(m.releaseDate))];
    lines := lines + [""];
    text := Join(lines);
  }

  // ---- What a line is ----

  predicate IsLetter(c: char) {
    'A' <= c <= 'Z' || 'a' <= c <= 'z'
  }

  predicate IsKeyChar(c: char) {
    IsLetter(c) || IsDigit(c)
  }

  predicate IsKey(key: string) {
    key != "" && IsLetter(key[0]) && forall i :: 0 <= i < |key| ==> IsKeyChar(key[i])
  }

  // How many characters [A-Za-z0-9]* takes.
  function KeyCount(line: string): (n: nat)
    ensures n <= |line| && (n < |line| ==> !IsKeyChar(line[n]))
    ensures forall i :: 0 <= i < n ==> IsKeyChar(line[i])
  {
    if line == "" || !IsKeyChar(line[0]) then 0 else 1 + KeyCount(line[1..])
  }

  datatype TopLine = TopLine(key: string, raw: string)

  // /^([A-Za-z][A-Za-z0-9]*):\s*(.+)$/
  function TopLevel(line: string): (r: Option<TopLine>)
    ensures r.Some? ==> IsKey(r.value.key) && OneLine(r.value.raw)
  {
    var n := KeyCount(line);
    if n == 0 || !IsLetter(line[0]) || n == |line| || line[n] != ':' then None
    else match Capture(line[n + 1..])
      case Some(raw) => Some(TopLine(line[..n], raw))
      case None => None
  }

  // /^    size:\s*(\d+)$/
  function SizeField(line: string): Option<nat> {
    if !(SIZE <= line) then None
    else
      var rest := line[|SIZE|..];
      var digits := rest[SpaceCount(rest)..];
      if digits != "" && Digits(digits) then Some(ParseNat(digits)) else None
  }

  datatype Line =
    | Blank
    | UrlLine(url: string)
    | ShaLine(sha512: string)
    | SizeLine(size: nat)
    | FilesHeader
    | KeyValue(key: string, value: Scalar)
    | Unsupported

  // The patterns, in the order they are tried.
  function Classify(line: string): Line {
    if line == "" then Blank
    else if Field(URL, line).Some? then UrlLine(StripQuotes(Trim(Field(URL, line).value)))
    else if Field(SHA, line).Some? then ShaLine(StripQuotes(Trim(Field(SHA, line).value)))
    else if SizeField(line).Some? then SizeLine(SizeField(line).value)
    else if line == "files:" then FilesHeader
    else match TopLevel(line)
      case Some(top) => KeyValue(top.key, ParseScalar(top.raw))
      case None => Unsupported
  }

  // ---- Parsing ----

  datatype Problem =
    | IncompleteFile | ShaWithoutFile | SizeWithoutFile | UnsupportedLine
    | VersionNotText | DateNotText

  datatype Error = AtLine(line: nat, problem: Problem) | MissingVersion | MissingDate | MissingFiles

  // A file entry being read.
  datatype Entry = Entry(url: string, sha512: Option<string>, size: Option<nat>)

  datatype Scan = Scan(line: nat, version: Option<string>, releaseDate: Option<string>, inFiles: bool,
                       current: Option<Entry>, files: seq<File>, extras: map<string, Scalar>)

  const START := Scan(0, None, None, false, None, [], map[])

  predicate Complete(current: Option<Entry>) {
    current.Some? ==> current.value.sha512.Some? && current.value.size.Some?
  }

  function Finished(current: Option<Entry>): seq<File>
    requires Complete(current)
  {
    match current
    case Some(e) => [File(e.url, e.sha512.value, e.size.value)]
    case None => []
  }

  // Puts the current entry, if there is one, among the files.
  function Flush(s: Scan): Result<Scan, Error> {
    if Complete(s.current) then Ok(s.(files := s.files + Finished(s.current)))
    else Err(AtLine(s.line, IncompleteFile))
  }

  function Assign(s: Scan, key: string, value: Scalar): Result<Scan, Error> {
    if key == "version" then
      if value.Text? then Ok(s.(version := Some(value.text))) else Err(AtLine(s.line, VersionNotText))
    else if key == "releaseDate" then
      if value.Text? then Ok(s.(releaseDate := Some(value.text))) else Err(AtLine(s.line, DateNotText))
    else if key == "path" || key == "sha512" then Ok(s)
    else Ok(s.(extras := s.extras[key := value]))
  }

  // A line outside the file entries ends the one being read.
  function Leave(s: Scan): Result<Scan, Error> {
    if s.inFiles && s.current.Some? then
      match Flush(s)
      case Ok(t) => Ok(t.(current := None, inFiles := false))
      case Err(e) => Err(e)
    else Ok(s.(inFiles := false))
  }

  function Read(s: Scan, line: Line): Result<Scan, Error> {
    match line
    case Blank => Ok(s)
    case UrlLine(url) =>
      (match Flush(s)
       case Ok(t) => Ok(t.(current := Some(Entry(url, None, None)), inFiles := true))
       case Err(e) => Err(e))
    case ShaLine(sha512) =>
      if s.current.None? then Err(AtLine(s.line, ShaWithoutFile))
      else Ok(s.(current := Some(s.current.value.(sha512 := Some(sha512)))))
    case SizeLine(size) =>
      if s.current.None? then Err(AtLine(s.line, SizeWithoutFile))
      else Ok(s.(current := Some(s.current.value.(size := Some(size)))))
    case FilesHeader => Ok(s.(inFiles := true))
    case KeyValue(key, value) =>
      (match Leave(s)
       case Ok(t) => Assign(t, key, value)
       case Err(e) => Err(e))
    case Unsupported =>
      (match Leave(s)
       case Ok(_) => Err(AtLine(s.line, UnsupportedLine))
       case Err(e) => Err(e))
  }

  function Step(s: Scan, rawLine: string): Result<Scan, Error> {
    Read(s.(line := s.line + 1), Classify(TrimEnd(rawLine)))
  }

  function Feed(lines: seq<string>): Result<Scan, Error> {
    if lines == [] then Ok(START)
    else match Feed(lines[..|lines| - 1])
      case Ok(s) => Step(s, lines[|lines| - 1])
      case Err(e) => Err(e)
  }

  function Finish(s: Scan): Result<Manifest, Error> {
    match Flush(s)
    case Err(e) => Err(e)
    case Ok(t) =>
      if t.version.None? || t.version.value == "" then Err(MissingVersion)
      else if t.releaseDate.None? || t.releaseDate.value == "" then Err(MissingDate)
      else if t.files == [] then Err(MissingFiles)
      else Ok(Manifest(t.version.value, t.releaseDate.value, t.files, t.extras))
  }

  function Parse(text: string): Result<Manifest, Error> {
    match Feed(Lines(text))
    case Ok(s) => Finish(s)
    case Err(e) => Err(e)
  }

  lemma FeedNext(lines: seq<string>, i: nat)
    requires i < |lines|
    ensures Feed(lines[..i]).Ok? ==> Feed(lines[..i + 1]) == Step(Feed(lines[..i]).value, lines[i])
  {
    assert lines[..i + 1][..i] == lines[..i];
  }

  lemma {:induction false} FeedStays(lines: seq<string>, i: nat)
    requires i <= |lines| && Feed(lines[..i]).Err?
    ensures Feed(lines) == Feed(lines[..i])
  {
    if i == |lines| {
      assert lines[..i] == lines;
    } else {
      assert lines[..|lines| - 1][..i] == lines[..i];
      FeedStays(lines[..|lines| - 1], i);
    }
  }

  lemma StepFile(s: Scan, rawLine: string)
    ensures var line, n := TrimEnd(rawLine), s.line + 1;
            && (line == "" ==> Step(s, rawLine) == Ok(s.(line := n)))
            && (line != "" && Field(URL, line).Some? ==>
                  Step(s, rawLine) ==
                  if Complete(s.current) then
                    Ok(s.(line := n, files := s.files + Finished(s.current), inFiles := true,
                          current := Some(Entry(StripQuotes(Trim(Field(URL, line).value)), None, None))))
                  else Err(AtLine(n, IncompleteFile)))
            && (line != "" && Field(URL, line).None? && Field(SHA, line).Some? ==>
                  Step(s, rawLine) ==
                  if s.current.None? then Err(AtLine(n, ShaWithoutFile))
                  else
                    var sha512 := Some(StripQuotes(Trim(Field(SHA, line).value)));
                    Ok(s.(line := n, current := Some(s.current.value.(sha512 := sha512)))))
            && (line != "" && Field(URL, line).None? && Field(SHA, line).None? && SizeField(line).Some? ==>
                  Step(s, rawLine) ==
                  if s.current.None? then Err(AtLine(n, SizeWithoutFile))
                  else Ok(s.(line := n, current := Some(s.current.value.(size := Some(SizeField(line).value))))))
            && (line == "files:" && Field(URL, line).None? && Field(SHA, line).None? && SizeField(line).None? ==>
                  Step(s, rawLine) == Ok(s.(line := n, inFiles := true)))
  {
    hide Field, SizeField, TopLevel, ParseScalar, StripQuotes, Trim, TrimEnd;
  }

  predicate OutsideFiles(line: string) {
    line != "" && Field(URL, line).None? && Field(SHA, line).None? && SizeField(line).None? && line != "files:"
  }

  lemma StepOutside(s: Scan, rawLine: string, open: bool)
    requires OutsideFiles(TrimEnd(rawLine)) && open == (s.inFiles && s.current.Some?)
    ensures open && !Complete(s.current) ==> Step(s, rawLine) == Err(AtLine(s.line + 1, IncompleteFile))
    ensures !(open && !Complete(s.current)) ==>
              var left := s.(line := s.line + 1, inFiles := false,
                             files := if open then s.files + Finished(s.current) else s.files,
                             current := if open then None else s.current);
              Step(s, rawLine) ==
              match TopLevel(TrimEnd(rawLine))
              case Some(top) => Assign(left, top.key, ParseScalar(top.raw))
              case None => Err(AtLine(left.line, UnsupportedLine))
  {
    hide Field, SizeField, TopLevel, ParseScalar, StripQuotes, Trim, TrimEnd, Assign;
  }

  lemma ParseIs(text: string, i: nat)
    requires i <= |Lines(text)|
    ensures Feed(Lines(text)[..i]).Err? ==> Parse(text) == Err(Feed(Lines(text)[..i]).error)
    ensures i == |Lines(text)| && Feed(Lines(text)[..i]).Ok? ==> Parse(text) == Finish(Feed(Lines(text)[..i]).value)
  {
    hide Lines, Finish;
    if Feed(Lines(text)[..i]).Err? {
      FeedStays(Lines(text), i);
    } else if i == |Lines(text)| {
      assert Lines(text)[..i] == Lines(text);
    }
  }

  method ParseManifest(raw: string) returns (r: Result<Manifest, Error>)
    ensures r == Parse(raw)
  {
    hide Lines, Field, SizeField, TopLevel, ParseScalar, StripQuotes, Trim, TrimEnd, Feed, Step, Parse, Finish;
    var lines := Lines(raw);
    var files: seq<File> := [];
    var extras: map<string, Scalar> := map[];
    var version: Option<string> := None;
    var releaseDate: Option<string> := None;
    var inFiles := false;
    var currentFile: Option<Entry> := None;
    var index := 0;
    FeedNothing(lines);
    while index < |lines|
      invariant 0 <= index <= |lines|
      invariant Feed(lines[..index]) == Ok(Scan(index, version, releaseDate, inFiles, currentFile, files, extras))
    {
      var rawLine := lines[index];
      var line := TrimEnd(rawLine);
      ghost var before := Scan(index, version, releaseDate, inFiles, currentFile, files, extras);
      FeedNext(lines, index);
      ParseIs(raw, index + 1);
      StepFile(before, rawLine);
      index := index + 1;
      if line == "" {
        continue;
      }
      var url := Field(URL, line);
      if url.Some? {
        if !Complete(currentFile) {
          return Err(AtLine(index, IncompleteFile));
        }
        files := files + Finished(currentFile);
        currentFile := Some(Entry(StripQuotes(Trim(url.value)), None, None));
        inFiles := true;
        continue;
      }
      var sha := Field(SHA, line);
      if sha.Some? {
        if currentFile.None? {
          return Err(AtLine(index, ShaWithoutFile));
        }
        currentFile := Some(currentFile.value.(sha512 := Some(StripQuotes(Trim(sha.value)))));
        continue;
      }
      var size := SizeField(line);
      if size.Some? {
        if currentFile.None? {
          return Err(AtLine(index, SizeWithoutFile));
        }
        currentFile := Some(currentFile.value.(size := Some(size.value)));
        continue;
      }
      if line == "files:" {
        inFiles := true;
        continue;
      }
      StepOutside(before, rawLine, inFiles && currentFile.Some?);
      if inFiles && currentFile.Some? {
        if !Complete(currentFile) {
          return Err(AtLine(index, IncompleteFile));
        }
        files := files + Finished(currentFile);
        currentFile := None;
      }
      inFiles := false;
      var top := TopLevel(line);
      if top.None? {
        return Err(AtLine(index, UnsupportedLine));
      }
      var key, value := top.value.key, ParseScalar(top.value.raw);
      if key == "version" {
        if !value.Text? {
          return Err(AtLine(index, VersionNotText));
        }
        version := Some(value.text);
      } else if key == "releaseDate" {
        if !value.Text? {
          return Err(AtLine(index, DateNotText));
        }
        releaseDate := Some(value.text);
      } else if key != "path" && key != "sha512" {
        extras := extras[key := value];
      }
    }
    ParseIs(raw, index);
    r := FinishManifest(Scan(index, version, releaseDate, inFiles, currentFile, files, extras));
  }

  lemma FeedNothing(lines: seq<string>)
    ensures Feed(lines[..0]) == Ok(START)
  {
  }

  // The checks after the last line.
  method FinishManifest(s: Scan) returns (r: Result<Manifest, Error>)
    ensures r == Finish(s)
  {
    if !Complete(s.current) {
      return Err(AtLine(s.line, IncompleteFile));
    }
    var files := s.files + Finished(s.current);
    if s.version.None? || s.version.value == "" {
      return Err(MissingVersion);
    }
    if s.releaseDate.None? || s.releaseDate.value == "" {
      return Err(MissingDate);
    }
    if files == [] {
      return Err(MissingFiles);
    }
    return Ok(Manifest(s.version.value, s.releaseDate.value, files, s.extras));
  }
}
