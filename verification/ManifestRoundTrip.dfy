// Parsing undoes printing: for which manifests, and for exactly those
// (scripts/merge-mac-update-manifests.ts).
module ManifestRoundTrip {
  import opened Wrappers
  import opened TextLines
  import opened TextOrder
  import opened ManifestScalars
  import opened MacManifest

  predicate LegalKey(key: string) {
    IsKey(key) && key != "version" && key != "releaseDate" && key != "path" && key != "sha512"
  }

  predicate LegibleFiles(files: seq<File>) {
    forall i :: 0 <= i < |files| ==> OneLine(files[i].url) && OneLine(files[i].sha512)
  }

  // What holds of every manifest that parsing returns.
  predicate Legible(m: Manifest) {
    && m.version != "" && OneLine(m.version)
    && m.releaseDate != "" && OneLine(m.releaseDate)
    && m.files != []
    && LegibleFiles(m.files)
    && (forall k :: k in m.extras ==> LegalKey(k) && WellFormedScalar(m.extras[k]))
  }

  // A text that may follow a key unquoted.
  predicate Bare(s: string) {
    s != "" && Trimmed(s) && !Quoted(s)
  }

  predicate BareFiles(files: seq<File>) {
    forall i :: 0 <= i < |files| ==> Bare(files[i].url) && Bare(files[i].sha512) && files[i].size < EXPONENT_FROM
  }

  predicate PlainExtras(extras: map<string, Scalar>) {
    forall k :: k in extras ==> PlainScalar(extras[k])
  }

  predicate WellFormed(m: Manifest) {
    && Legible(m)
    && PlainText(m.version)
    && BareFiles(m.files)
    && PlainExtras(m.extras)
  }

  // ---- What a printed line is read as ----

  // What is read for a field whose text was printed bare.
  function ReadBack(v: string): Option<string> {
    if Trim(v) == "" then None else Some(StripQuotes(Trim(v)))
  }

  lemma PrefixesDiffer()
    ensures URL[2] == '-' && SHA[2] == ' ' && SIZE[2] == ' ' && SHA[5] == 'h' && SIZE[5] == 'i'
    ensures URL[0] == ' ' && SHA[0] == ' ' && SIZE[0] == ' '
    ensures |URL| == 8 && |SHA| == 11 && |SIZE| == 9
    ensures !IsSpace(URL[7]) && !IsSpace(SHA[10]) && !IsSpace(SIZE[8])
  {
  }

  lemma IndentedIsNotTopLevel(line: string)
    requires line != "" && line[0] == ' '
    ensures TopLevel(line) == None && line != "files:"
  {
  }

  lemma ClassifyUrl(v: string)
    requires OneLine(v)
    ensures Classify(TrimEnd(URL + " " + v)) == if ReadBack(v).Some? then UrlLine(ReadBack(v).value) else Unsupported
  {
    PrefixesDiffer();
    FieldRead(URL, v);
    var line := TrimEnd(URL + " " + v);
    hide Trim, TrimEnd, Capture, TopLevel, ParseScalar, StripQuotes;
    if Trim(v) == "" {
      assert line[0] == URL[0];
      IndentedIsNotTopLevel(line);
    }
  }

  lemma ClassifySha(v: string)
    requires OneLine(v)
    ensures Classify(TrimEnd(SHA + " " + v)) == if ReadBack(v).Some? then ShaLine(ReadBack(v).value) else Unsupported
  {
    PrefixesDiffer();
    FieldRead(SHA, v);
    var line := TrimEnd(SHA + " " + v);
    hide Trim, TrimEnd, Capture, TopLevel, ParseScalar, StripQuotes;
    assert line[2] == SHA[2] && line[0] == SHA[0];
    if Trim(v) == "" {
      IndentedIsNotTopLevel(line);
    }
  }

  lemma ClassifySize(n: nat)
    ensures Classify(TrimEnd(SIZE + " " + PrintSize(n))) == if n < EXPONENT_FROM then SizeLine(n) else Unsupported
  {
    PrefixesDiffer();
    var digits := PrintSize(n);
    ParseUndoesPrintSize(n);
    PrintSizeOf(n);
    hide Capture, TopLevel, ParseScalar, StripQuotes, PrintSize, ParseNat;
    TrimEndOf(SIZE + " ", digits);
    var line := SIZE + " " + digits;
    assert line[2] == SIZE[2] && line[5] == SIZE[5];
    assert line[|SIZE|..] == " " + digits;
    SpaceCountOf(" ", digits);
    assert (" " + digits)[1..] == digits;
    assert line[0] == SIZE[0];
    IndentedIsNotTopLevel(line);
  }

  lemma {:induction false} KeyCountOf(key: string, rest: string)
    requires forall i :: 0 <= i < |key| ==> IsKeyChar(key[i])
    requires rest != "" && !IsKeyChar(rest[0])
    ensures KeyCount(key + rest) == |key|
  {
    if key == "" {
      assert key + rest == rest;
    } else {
      assert (key + rest)[1..] == key[1..] + rest;
      KeyCountOf(key[1..], rest);
    }
  }

  lemma TopLevelOf(key: string, line: string)
    requires IsKey(key) && key + ":" <= line
    ensures TopLevel(line) == match Field(key + ":", line)
                              case Some(raw) => Some(TopLine(key, raw))
                              case None => None
    ensures Field(URL, line) == None && Field(SHA, line) == None && SizeField(line) == None && line != ""
  {
    PrefixesDiffer();
    var rest := line[|key|..];
    assert line == key + rest;
    assert rest[0] == line[|key|] == (key + ":")[|key|] == ':';
    KeyCountOf(key, rest);
    assert line[0] == key[0];
    assert line[..|key|] == key;
    assert line[|key + ":"|..] == line[|key| + 1..];
    hide Capture;
  }

  // A top-level line is one of a key: there is at most one, and its field is captured.
  lemma TopLevelMeans(line: string)
    ensures TopLevel(line).Some? <==> exists key :: IsKey(key) && Field(key + ":", line).Some?
    ensures TopLevel(line).Some? ==>
              IsKey(TopLevel(line).value.key)
              && Field(TopLevel(line).value.key + ":", line) == Some(TopLevel(line).value.raw)
  {
    forall key | IsKey(key) && Field(key + ":", line).Some?
      ensures TopLevel(line).Some?
    {
      TopLevelOf(key, line);
    }
    if TopLevel(line).Some? {
      var n := KeyCount(line);
      assert line == line[..n] + ":" + line[n + 1..];
      TopLevelOf(line[..n], line);
    }
  }

  lemma ClassifyTopLine(key: string, line: string)
    requires IsKey(key) && key + ":" <= line && line != "files:"
    ensures Classify(line) == match Field(key + ":", line)
                              case Some(raw) => KeyValue(key, ParseScalar(raw))
                              case None => Unsupported
  {
    hide Field, SizeField, TopLevel, ParseScalar, StripQuotes, Trim;
    TopLevelOf(key, line);
  }

  lemma ClassifyKey(key: string, v: string)
    requires IsKey(key) && OneLine(v) && (key == "files" ==> Trim(v) != "")
    ensures Classify(TrimEnd(KeyLine(key, v)))
         == if Trim(v) == "" then Unsupported else KeyValue(key, ParseScalar(Trim(v)))
  {
    hide Trim, TrimEnd, Field, Classify, ParseScalar, IsKey, OneLine;
    FieldRead(key + ":", v);
    var line := TrimEnd(KeyLine(key, v));
    if line == "files:" {
      OnlyColonEnds(key, line);
    }
    ClassifyTopLine(key, line);
  }

  lemma OnlyColonEnds(key: string, line: string)
    requires IsKey(key) && key + ":" <= line && line == "files:"
    ensures key == "files" && Field(key + ":", line) == None
  {
    assert line[|key|] == (key + ":")[|key|] == ':';
    assert forall i :: 0 <= i < 5 ==> "files:"[i] != ':';
    assert |key| == 5;
    assert line[..5] == key && line[..5] == "files";
    assert line[|key + ":"|..] == "";
  }

  // ---- What printed lines are read as ----

  // After these lines, this is what was read, counting the entry under way as a file.
  predicate Reached(lines: seq<string>, version: Option<string>, releaseDate: Option<string>, files: seq<File>,
                    extras: map<string, Scalar>)
  {
    && Feed(lines).Ok?
    && var s := Feed(lines).value;
    && s.version == version && s.releaseDate == releaseDate && s.extras == extras
    && Complete(s.current) && (s.current.Some? ==> s.inFiles) && s.files + Finished(s.current) == files
  }

  function ReadFile(f: File): Option<File> {
    if ReadBack(f.url).Some? && ReadBack(f.sha512).Some? && f.size < EXPONENT_FROM
    then Some(File(ReadBack(f.url).value, ReadBack(f.sha512).value, f.size))
    else None
  }

  function ReadFiles(files: seq<File>): Option<seq<File>> {
    if files == [] then Some([])
    else
      var before := ReadFiles(files[..|files| - 1]);
      var last := ReadFile(files[|files| - 1]);
      if before.Some? && last.Some? then Some(before.value + [last.value]) else None
  }

  lemma FeedOne(lines: seq<string>, line: string)
    ensures Feed(lines + [line]) == if Feed(lines).Ok? then Step(Feed(lines).value, line) else Feed(lines)
  {
    assert (lines + [line])[..|lines|] == lines;
  }

  lemma FeedFails(lines: seq<string>, more: seq<string>)
    requires Feed(lines).Err?
    ensures Feed(lines + more).Err?
  {
    assert (lines + more)[..|lines|] == lines;
    FeedStays(lines + more, |lines|);
  }

  lemma FeedKind(lines: seq<string>, line: string, kind: Line)
    requires Feed(lines).Ok? && Classify(TrimEnd(line)) == kind
    ensures var s := Feed(lines).value; Feed(lines + [line]) == Read(s.(line := s.line + 1), kind)
  {
    hide Classify, TrimEnd, Read;
    FeedOne(lines, line);
  }

  lemma ReachFile(lines: seq<string>, f: File, version: Option<string>, releaseDate: Option<string>,
                  files: seq<File>, extras: map<string, Scalar>)
    requires Reached(lines, version, releaseDate, files, extras) && OneLine(f.url) && OneLine(f.sha512)
    ensures match ReadFile(f)
            case Some(g) => Reached(lines + FileEntry(f), version, releaseDate, files + [g], extras)
            case None => Feed(lines + FileEntry(f)).Err?
  {
    hide Classify, ReadBack, PrintSize, Feed, TrimEnd, OneLine;
    var url, sha, size := URL + " " + f.url, SHA + " " + f.sha512, SIZE + " " + PrintSize(f.size);
    assert lines + FileEntry(f) == lines + [url] + [sha] + [size];
    hide FileEntry;
    ClassifyUrl(f.url);
    ClassifySha(f.sha512);
    ClassifySize(f.size);
    FeedKind(lines, url, Classify(TrimEnd(url)));
    if ReadBack(f.url).Some? {
      FeedKind(lines + [url], sha, Classify(TrimEnd(sha)));
      if ReadBack(f.sha512).Some? {
        FeedKind(lines + [url] + [sha], size, Classify(TrimEnd(size)));
      } else {
        FeedFails(lines + [url] + [sha], [size]);
      }
    } else {
      FeedFails(lines + [url], [sha]);
      FeedFails(lines + [url] + [sha], [size]);
    }
  }

  lemma {:induction false} ReachFiles(lines: seq<string>, fs: seq<File>, version: Option<string>,
                                      releaseDate: Option<string>, extras: map<string, Scalar>)
    requires Reached(lines, version, releaseDate, [], extras)
    requires LegibleFiles(fs)
    ensures match ReadFiles(fs)
            case Some(gs) => Reached(lines + FileLines(fs), version, releaseDate, gs, extras)
            case None => Feed(lines + FileLines(fs)).Err?
  {
    hide Reached, OneLine, ReadFile, FileEntry, Feed;
    if fs == [] {
      assert lines + FileLines(fs) == lines;
    } else {
      var rest, last := fs[..|fs| - 1], fs[|fs| - 1];
      ReachFiles(lines, rest, version, releaseDate, extras);
      var before := lines + FileLines(rest);
      Associate(lines, FileLines(rest), FileEntry(last));
      match ReadFiles(rest)
      case Some(gs) => ReachFile(before, last, version, releaseDate, gs, extras);
      case None => FeedFails(before, FileEntry(last));
    }
  }

  lemma ClassifyScalar(key: string, value: Scalar)
    requires IsKey(key) && WellFormedScalar(value)
    ensures Classify(TrimEnd(KeyLine(key, PrintScalar(value)))) == KeyValue(key, ReadScalar(value))
  {
    hide Classify, TrimEnd, KeyLine, ParseScalar, PrintScalar, WellFormedScalar, IsKey, Trim, ReadScalar;
    ScalarPrintable(value);
    PrintableTrim(PrintScalar(value));
    ParseUndoesPrintScalar(value);
    ClassifyKey(key, PrintScalar(value));
  }

  lemma ReachExtra(lines: seq<string>, key: string, value: Scalar, version: Option<string>,
                   releaseDate: Option<string>, files: seq<File>, extras: map<string, Scalar>)
    requires Reached(lines, version, releaseDate, files, extras) && LegalKey(key) && WellFormedScalar(value)
    ensures Reached(lines + [KeyLine(key, PrintScalar(value))], version, releaseDate, files,
                    extras[key := ReadScalar(value)])
  {
    hide Classify, PrintScalar, Feed, TrimEnd, KeyLine, WellFormedScalar, IsKey, ReadScalar;
    ClassifyScalar(key, value);
    FeedKind(lines, KeyLine(key, PrintScalar(value)), KeyValue(key, ReadScalar(value)));
  }

  function Restrict(all: map<string, Scalar>, keys: seq<string>): map<string, Scalar>
    requires forall i :: 0 <= i < |keys| ==> keys[i] in all
  {
    map k | k in all && k in keys :: ReadScalar(all[k])
  }

  function ReadExtras(extras: map<string, Scalar>): map<string, Scalar> {
    map k | k in extras :: ReadScalar(extras[k])
  }

  lemma RestrictMore(all: map<string, Scalar>, keys: seq<string>)
    requires forall i :: 0 <= i < |keys| ==> keys[i] in all
    ensures keys == [] ==> Restrict(all, keys) == map[]
    ensures keys != [] ==>
              var last := |keys| - 1;
              Restrict(all, keys) == Restrict(all, keys[..last])[keys[last] := ReadScalar(all[keys[last]])]
  {
    hide ReadScalar;
  }

  lemma {:induction false} ReachExtras(lines: seq<string>, keys: seq<string>, all: map<string, Scalar>,
                                       version: Option<string>, files: seq<File>)
    requires Reached(lines, version, None, files, map[])
    requires forall i :: 0 <= i < |keys| ==> keys[i] in all && LegalKey(keys[i]) && WellFormedScalar(all[keys[i]])
    ensures Reached(lines + ExtraLines(keys, all), version, None, files, Restrict(all, keys))
  {
    hide Reached, LegalKey, WellFormedScalar, KeyLine, Restrict, PrintScalar, ReadScalar;
    RestrictMore(all, keys);
    if keys == [] {
      assert lines + ExtraLines(keys, all) == lines;
    } else {
      var rest, last := keys[..|keys| - 1], keys[|keys| - 1];
      ReachExtras(lines, rest, all, version, files);
      ReachExtra(lines + ExtraLines(rest, all), last, all[last], version, None, files, Restrict(all, rest));
      Associate(lines, ExtraLines(rest, all), [KeyLine(last, PrintScalar(all[last]))]);
    }
  }

  function ReadVersion(v: string): Option<string> {
    if Trim(v) != "" && ParseScalar(Trim(v)).Text? then Some(ParseScalar(Trim(v)).text) else None
  }

  lemma ReachVersion(version: string)
    requires OneLine(version)
    ensures var lines := [KeyLine("version", version)];
            if ReadVersion(version).Some? then Reached(lines, Some(ReadVersion(version).value), None, [], map[])
            else Feed(lines).Err?
  {
    KeysAreKeys();
    hide Classify, Trim, ParseScalar, TrimEnd, KeyLine;
    ClassifyKey("version", version);
    var line := KeyLine("version", version);
    assert Feed([]) == Ok(START);
    assert [] + [line] == [line];
    FeedKind([], line, Classify(TrimEnd(line)));
  }

  lemma KeysAreKeys()
    ensures IsKey("version") && IsKey("releaseDate")
    ensures "version" != "files" && "releaseDate" != "files" && "version" != "releaseDate"
  {
    assert "version"[0] == 'v' && "releaseDate"[0] == 'r' && "files"[0] == 'f';
  }

  lemma FixedLines()
    ensures Classify(TrimEnd("files:")) == FilesHeader && Classify(TrimEnd("")) == Blank
  {
  }

  lemma AddFilesHeader(line: string, version: Option<string>)
    requires Reached([line], version, None, [], map[])
    ensures Reached([line, "files:"], version, None, [], map[])
  {
    hide Classify, TrimEnd, Feed;
    FixedLines();
    assert [line] + ["files:"] == [line, "files:"];
    FeedKind([line], "files:", FilesHeader);
  }

  lemma ReachHeader(version: string)
    requires OneLine(version)
    ensures var lines := [KeyLine("version", version), "files:"];
            if ReadVersion(version).Some? then Reached(lines, Some(ReadVersion(version).value), None, [], map[])
            else Feed(lines).Err?
  {
    hide Reached, ReadVersion, KeyLine, OneLine, Feed;
    ReachVersion(version);
    var line := KeyLine("version", version);
    if ReadVersion(version).Some? {
      AddFilesHeader(line, Some(ReadVersion(version).value));
    } else {
      FeedFails([line], ["files:"]);
      assert [line] + ["files:"] == [line, "files:"];
    }
  }

  lemma ReachDate(lines: seq<string>, date: string, version: Option<string>, files: seq<File>,
                  extras: map<string, Scalar>)
    requires Reached(lines, version, None, files, extras) && OneLine(date)
    ensures Reached(lines + [KeyLine("releaseDate", Quote(date))] + [""], version, Some(date), files, extras)
  {
    hide Classify, Quote, Feed, TrimEnd, KeyLine, IsKey, OneLine;
    var line := KeyLine("releaseDate", Quote(date));
    KeysAreKeys();
    FixedLines();
    ClassifyScalar("releaseDate", Text(date));
    FeedKind(lines, line, KeyValue("releaseDate", Text(date)));
    FeedKind(lines + [line], "", Blank);
  }

  // ---- The whole text ----

  lemma FileEntryOneLine(f: File)
    requires OneLine(f.url) && OneLine(f.sha512)
    ensures AllOneLine(FileEntry(f))
  {
    assert OneLine(URL) && OneLine(SHA) && OneLine(SIZE);
    PrintSizeOneLine(f.size);
    LinePartsOneLine(URL, f.url);
    LinePartsOneLine(SHA, f.sha512);
    LinePartsOneLine(SIZE, PrintSize(f.size));
    hide OneLine, PrintSize;
  }

  lemma {:induction false} FileLinesOneLine(files: seq<File>)
    requires LegibleFiles(files)
    ensures AllOneLine(FileLines(files))
  {
    if files != [] {
      hide OneLine, AllOneLine, FileEntry;
      var rest, last := files[..|files| - 1], files[|files| - 1];
      FileLinesOneLine(rest);
      FileEntryOneLine(last);
      AllOneLineAppend(FileLines(rest), FileEntry(last));
    }
  }

  lemma PrintSizeOneLine(n: nat)
    ensures OneLine(PrintSize(n))
  {
    PrintSizeOf(n);
    hide PrintSize;
  }

  lemma LinePartsOneLine(prefix: string, value: string)
    requires OneLine(prefix) && OneLine(value)
    ensures OneLine(prefix + " " + value)
  {
  }

  lemma KeyLineOneLine(key: string, value: string)
    requires IsKey(key) && OneLine(value)
    ensures OneLine(KeyLine(key, value))
  {
  }

  lemma {:induction false} ExtraLinesOneLine(keys: seq<string>, all: map<string, Scalar>)
    requires forall i :: 0 <= i < |keys| ==> keys[i] in all && LegalKey(keys[i]) && WellFormedScalar(all[keys[i]])
    ensures AllOneLine(ExtraLines(keys, all))
  {
    if keys != [] {
      var last := keys[|keys| - 1];
      ExtraLinesOneLine(keys[..|keys| - 1], all);
      ScalarPrintable(all[last]);
      KeyLineOneLine(last, PrintScalar(all[last]));
      hide OneLine, PrintScalar, KeyLine, IsKey;
    }
  }

  lemma BodyLinesOneLine(m: Manifest)
    requires Legible(m)
    ensures AllOneLine(BodyLines(m))
  {
    KeysAreKeys();
    QuotePrintable(m.releaseDate);
    KeyLineOneLine("releaseDate", Quote(m.releaseDate));
    FileLinesOneLine(m.files);
    ExtraLinesOneLine(SortedKeys(m.extras.Keys), m.extras);
    var files, extras := FileLines(m.files), ExtraLines(SortedKeys(m.extras.Keys), m.extras);
    var date := [KeyLine("releaseDate", Quote(m.releaseDate))];
    assert AllOneLine(date) && AllOneLine([""]);
    hide AllOneLine, Legible, KeyLine, FileLines, ExtraLines, Quote, SortedKeys;
    AllOneLineAppend(files, extras);
    AllOneLineAppend(files + extras, date);
    AllOneLineAppend(files + extras + date, [""]);
  }

  // The lines after the version and the files header.
  function BodyLines(m: Manifest): seq<string> {
    FileLines(m.files) + ExtraLines(SortedKeys(m.extras.Keys), m.extras)
    + [KeyLine("releaseDate", Quote(m.releaseDate))] + [""]
  }

  lemma PrintLinesIsHeaderAndBody(m: Manifest)
    ensures PrintLines(m) == [KeyLine("version", m.version), "files:"] + BodyLines(m)
  {
    hide KeyLine, FileLines, ExtraLines, Quote, SortedKeys;
    var header := [KeyLine("version", m.version), "files:"];
    var files, extras := FileLines(m.files), ExtraLines(SortedKeys(m.extras.Keys), m.extras);
    var date := [KeyLine("releaseDate", Quote(m.releaseDate))];
    Associate(header, files, extras);
    Associate(header, files + extras, date);
    Associate(header, files + extras + date, [""]);
  }

  lemma HeaderAndBodyLines(m: Manifest, version: string)
    requires Legible(m) && OneLine(version)
    ensures var lines := [KeyLine("version", version), "files:"] + BodyLines(m); Lines(Join(lines)) == lines
  {
    KeysAreKeys();
    KeyLineOneLine("version", version);
    BodyLinesOneLine(m);
    var header := [KeyLine("version", version), "files:"];
    assert OneLine("files:");
    assert AllOneLine(header);
    hide AllOneLine, Legible, KeyLine, BodyLines, OneLine, IsKey;
    AllOneLineAppend(header, BodyLines(m));
    OneLinesSurviveJoining(header + BodyLines(m));
  }

  lemma RestrictAll(all: map<string, Scalar>)
    ensures var keys := SortedKeys(all.Keys);
            (forall i :: 0 <= i < |keys| ==> keys[i] in all) && Restrict(all, keys) == ReadExtras(all)
  {
  }

  lemma BodyReach(header: seq<string>, m: Manifest, version: Option<string>)
    requires Legible(m) && Reached(header, version, None, [], map[])
    ensures match ReadFiles(m.files)
            case Some(files) => Reached(header + BodyLines(m), version, Some(m.releaseDate), files, ReadExtras(m.extras))
            case None => Feed(header + BodyLines(m)).Err?
  {
    hide Reached, ReadFiles, OneLine, Feed, FileLines, KeyLine, Quote, LegalKey, WellFormedScalar,
      ExtraLines, Restrict, SortedKeys, ReadExtras;
    RestrictAll(m.extras);
    var keys := SortedKeys(m.extras.Keys);
    var files, extras := FileLines(m.files), ExtraLines(keys, m.extras);
    var date := [KeyLine("releaseDate", Quote(m.releaseDate))];
    Associate(header, files, extras);
    Associate(header, files + extras, date);
    Associate(header, files + extras + date, [""]);
    ReachFiles(header, m.files, version, None, map[]);
    match ReadFiles(m.files)
    case Some(read) =>
      ReachExtras(header + files, keys, m.extras, version, read);
      ReachDate(header + files + extras, m.releaseDate, version, read, ReadExtras(m.extras));
    case None =>
      FeedFails(header + files, extras);
      FeedFails(header + files + extras, date);
      FeedFails(header + files + extras + date, [""]);
  }

  // What parsing makes of a printed manifest: every field as it is read back.
  lemma PrintedIsRead(m: Manifest)
    requires Legible(m)
    ensures var version, files := ReadVersion(m.version), ReadFiles(m.files);
            if version.Some? && version.value != "" && files.Some?
            then Parse(Print(m)) == Ok(Manifest(version.value, m.releaseDate, files.value, ReadExtras(m.extras)))
            else Parse(Print(m)).Err?
  {
    var version := ReadVersion(m.version);
    var header := [KeyLine("version", m.version), "files:"];
    PrintLinesIsHeaderAndBody(m);
    hide PrintLines, ReadVersion, ReadFiles, Feed, Lines, Join, OneLine, LegalKey, WellFormedScalar, BodyLines, KeyLine,
      ReadExtras;
    HeaderAndBodyLines(m, m.version);
    ReachHeader(m.version);
    if version.Some? {
      BodyReach(header, m, version);
      if ReadFiles(m.files).Some? {
        ReadFilesCount(m.files);
      }
    } else {
      FeedFails(header, BodyLines(m));
    }
  }

  lemma {:induction false} ReadFilesCount(files: seq<File>)
    requires ReadFiles(files).Some?
    ensures |ReadFiles(files).value| == |files|
  {
    if files != [] {
      ReadFilesCount(files[..|files| - 1]);
    }
  }

  // ---- Which fields survive ----

  lemma {:induction false} UndoubleShrinks(s: string)
    ensures |Undouble(s)| <= |s|
    ensures OneLine(s) ==> OneLine(Undouble(s))
  {
    if s == "" {
    } else if |s| >= 2 && s[0] == '\'' && s[1] == '\'' {
      UndoubleShrinks(s[2..]);
    } else {
      UndoubleShrinks(s[1..]);
    }
  }

  lemma TrimShrinks(v: string)
    requires Trim(v) != ""
    ensures |Trim(v)| <= |v| && Trimmed(Trim(v)) && Trim(Trim(v)) == Trim(v)
  {
  }

  lemma BareIsReadBack(v: string)
    ensures ReadBack(v) == Some(v) <==> Bare(v)
  {
    if Trim(v) != "" {
      TrimShrinks(v);
      var t := Trim(v);
      if Quoted(t) && |t| >= 2 {
        UndoubleShrinks(t[1..|t| - 1]);
      }
      if Bare(v) {
        TrimTwice(v);
      }
    } else if Bare(v) {
      TrimTwice(v);
    }
  }

  lemma PlainTextIsReadBack(v: string)
    requires OneLine(v)
    ensures ReadVersion(v) == Some(v) <==> PlainText(v)
  {
    hide ParseDecimal, OneLine;
    if Trim(v) != "" {
      TrimShrinks(v);
      var t := Trim(v);
      if Quoted(t) && |t| >= 2 {
        UndoubleShrinks(t[1..|t| - 1]);
      }
      if PlainText(v) {
        TrimTwice(v);
      }
    } else if PlainText(v) {
      TrimTwice(v);
    }
  }

  lemma {:induction false} BareFilesAreReadBack(files: seq<File>)
    ensures ReadFiles(files) == Some(files) <==>
            BareFiles(files)
  {
    hide Bare, ReadBack;
    if files != [] {
      var rest, last := files[..|files| - 1], files[|files| - 1];
      BareFilesAreReadBack(rest);
      BareIsReadBack(last.url);
      BareIsReadBack(last.sha512);
      assert files == rest + [last];
      assert ReadFile(last) == Some(last) <==> Bare(last.url) && Bare(last.sha512) && last.size < EXPONENT_FROM;
      assert ReadFiles(files) == Some(files) <==> ReadFiles(rest) == Some(rest) && ReadFile(last) == Some(last);
      assert BareFiles(files) <==> BareFiles(rest) && BareFiles([last]) by {
        assert forall i :: 0 <= i < |rest| ==> files[i] == rest[i];
      }
    }
  }

  // ---- What parsing returns ----

  predicate LegibleLine(line: Line) {
    match line
    case UrlLine(url) => OneLine(url)
    case ShaLine(sha512) => OneLine(sha512)
    case KeyValue(key, value) => IsKey(key) && WellFormedScalar(value)
    case _ => true
  }

  lemma StripQuotesOneLine(s: string)
    requires OneLine(s)
    ensures OneLine(StripQuotes(s))
  {
    if Quoted(s) && |s| >= 2 {
      UndoubleShrinks(s[1..|s| - 1]);
    }
  }

  lemma ParseScalarWellFormed(raw: string)
    requires OneLine(raw)
    ensures WellFormedScalar(ParseScalar(raw))
  {
    TrimIsOneLine(raw);
    var t := Trim(raw);
    if Quoted(t) && |t| >= 2 {
      UndoubleShrinks(t[1..|t| - 1]);
    }
  }

  lemma FieldOneLine(prefix: string, line: string)
    ensures Field(prefix, line).Some? ==> OneLine(Field(prefix, line).value)
  {
  }

  lemma ClassifyLegible(line: string)
    ensures LegibleLine(Classify(line))
  {
    FieldOneLine(URL, line);
    FieldOneLine(SHA, line);
    hide Field, Trim, StripQuotes, SizeField, TopLevel, ParseScalar, OneLine, WellFormedScalar, IsKey;
    if Field(URL, line).Some? {
      TrimIsOneLine(Field(URL, line).value);
      StripQuotesOneLine(Trim(Field(URL, line).value));
    }
    if Field(SHA, line).Some? {
      TrimIsOneLine(Field(SHA, line).value);
      StripQuotesOneLine(Trim(Field(SHA, line).value));
    }
    if TopLevel(line).Some? {
      ParseScalarWellFormed(TopLevel(line).value.raw);
    }
  }

  predicate LegibleScan(s: Scan) {
    && (s.version.Some? ==> OneLine(s.version.value))
    && (s.releaseDate.Some? ==> OneLine(s.releaseDate.value))
    && LegibleFiles(s.files)
    && (s.current.Some? ==> OneLine(s.current.value.url)
                            && (s.current.value.sha512.Some? ==> OneLine(s.current.value.sha512.value)))
    && (forall k :: k in s.extras ==> LegalKey(k) && WellFormedScalar(s.extras[k]))
  }

  lemma {:induction false} FeedLegible(lines: seq<string>)
    requires Feed(lines).Ok?
    ensures LegibleScan(Feed(lines).value)
  {
    hide LegibleScan, LegibleLine, Classify, TrimEnd, Read;
    if lines == [] {
      StartLegible();
    } else {
      var rest, last := lines[..|lines| - 1], lines[|lines| - 1];
      FeedLegible(rest);
      var s := Feed(rest).value;
      ClassifyLegible(TrimEnd(last));
      NextLineLegible(s);
      ReadLegible(s.(line := s.line + 1), Classify(TrimEnd(last)));
    }
  }

  lemma StartLegible()
    ensures LegibleScan(START)
  {
  }

  lemma NextLineLegible(s: Scan)
    requires LegibleScan(s)
    ensures LegibleScan(s.(line := s.line + 1))
  {
  }

  lemma AssignLegible(s: Scan, key: string, value: Scalar)
    requires LegibleScan(s) && IsKey(key) && WellFormedScalar(value) && Assign(s, key, value).Ok?
    ensures LegibleScan(Assign(s, key, value).value)
  {
    hide OneLine, IsKey, LegibleFiles;
  }

  lemma ReadLegible(s: Scan, line: Line)
    requires LegibleScan(s) && LegibleLine(line) && Read(s, line).Ok?
    ensures LegibleScan(Read(s, line).value)
  {
    hide OneLine, IsKey, Assign, LegalKey, WellFormedScalar;
    if line.KeyValue? {
      assert LegibleScan(Leave(s).value);
      AssignLegible(Leave(s).value, line.key, line.value);
    }
  }

  lemma ParsedIsLegible(text: string)
    requires Parse(text).Ok?
    ensures Legible(Parse(text).value)
  {
    FeedLegible(Lines(text));
    hide Lines, Feed, OneLine, LegalKey, WellFormedScalar;
  }

  // ---- The theorems ----

  // Printing and parsing gives a manifest back exactly when it is well formed.
  lemma RoundTrip(m: Manifest)
    ensures Parse(Print(m)) == Ok(m) <==> WellFormed(m)
  {
    hide Parse, Print, PlainText, BareFiles, PlainExtras, ReadFiles, ReadExtras;
    if Parse(Print(m)) == Ok(m) {
      ParsedIsLegible(Print(m));
    }
    if Legible(m) {
      PrintedIsRead(m);
      PlainTextIsReadBack(m.version);
      BareFilesAreReadBack(m.files);
      PlainExtrasAreReadBack(m.extras);
    }
  }

  lemma PlainExtrasAreReadBack(extras: map<string, Scalar>)
    ensures ReadExtras(extras) == extras <==> PlainExtras(extras)
  {
    hide PlainScalar;
    if ReadExtras(extras) == extras {
      forall k | k in extras
        ensures PlainScalar(extras[k])
      {
        PlainIsReadBack(extras[k]);
        assert ReadExtras(extras)[k] == extras[k];
      }
    }
  }

  lemma PlainIsReadBack(value: Scalar)
    ensures ReadScalar(value) == value <==> PlainScalar(value)
  {
  }

  // Parsing alone does not make a manifest well formed: it takes off quotes that printing
  // does not put back, and reads numbers that are printed with an exponent.
  lemma ParsedRoundTrip(text: string)
    requires Parse(text).Ok?
    ensures var m := Parse(text).value;
            Parse(Print(m)) == Ok(m) <==> PlainText(m.version) && BareFiles(m.files) && PlainExtras(m.extras)
  {
    hide Parse, Print, PlainText, BareFiles, PlainExtras, Legible;
    ParsedIsLegible(text);
    RoundTrip(Parse(text).value);
  }

  // Any legible version can be written quoted.
  lemma QuotedVersionIsRead(m: Manifest)
    requires Legible(m) && BareFiles(m.files) && PlainExtras(m.extras)
    ensures Parse(Join([KeyLine("version", Quote(m.version)), "files:"] + BodyLines(m))) == Ok(m)
    ensures Parse(Print(m)) == Ok(m) <==> PlainText(m.version)
  {
    hide Print, Parse, Join, OneLine, LegibleFiles, LegalKey, WellFormedScalar, BodyLines, KeyLine, BareFiles, Quote,
      PlainText, PlainExtras;
    RoundTrip(m);
    QuotedLinesParse(m);
  }

  lemma QuoteOneLine(s: string)
    requires OneLine(s)
    ensures OneLine(Quote(s))
  {
    DoubleIsOneLine(s);
  }

  lemma QuotedLinesParse(m: Manifest)
    requires Legible(m) && BareFiles(m.files) && PlainExtras(m.extras)
    ensures Parse(Join([KeyLine("version", Quote(m.version)), "files:"] + BodyLines(m))) == Ok(m)
  {
    hide Feed, Lines, Join, OneLine, LegibleFiles, LegalKey, WellFormedScalar, BodyLines, KeyLine, BareFiles, Quote,
      ReadFiles, PlainExtras, ReadExtras;
    QuoteOneLine(m.version);
    var header := [KeyLine("version", Quote(m.version)), "files:"];
    HeaderAndBodyLines(m, Quote(m.version));
    ReachQuotedHeader(m.version);
    BodyReach(header, m, Some(m.version));
    BareFilesAreReadBack(m.files);
    PlainExtrasAreReadBack(m.extras);
  }

  lemma ReachQuotedHeader(version: string)
    requires OneLine(version)
    ensures Reached([KeyLine("version", Quote(version)), "files:"], Some(version), None, [], map[])
  {
    hide KeyLine, OneLine, Quote, Reached;
    ReachQuotedVersion(version);
    AddFilesHeader(KeyLine("version", Quote(version)), Some(version));
  }

  lemma ReachQuotedVersion(version: string)
    requires OneLine(version)
    ensures Reached([KeyLine("version", Quote(version))], Some(version), None, [], map[])
  {
    hide Classify, TrimEnd, KeyLine, OneLine, Quote;
    KeysAreKeys();
    ClassifyScalar("version", Text(version));
    var line := KeyLine("version", Quote(version));
    assert Feed([]) == Ok(START);
    assert [] + [line] == [line];
    FeedKind([], line, KeyValue("version", Text(version)));
  }

  // The version '1.0' is such a version.
  lemma NumericVersionIsNotPlain()
    ensures !PlainText("1.0")
  {
  }
}
