// What parsing a manifest means for any text whatsoever, in terms of what its lines are
// (scripts/merge-mac-update-manifests.ts, parseMacUpdateManifest).
module ManifestParseLaws {
  import opened Wrappers
  import opened TextLines
  import opened TextOrder
  import opened ManifestScalars
  import opened MacManifest
  import opened ManifestRoundTrip

  // ---- The lines ----

  function Reads(lines: seq<string>): (k: seq<Line>)
    ensures |k| == |lines|
    ensures forall i :: 0 <= i < |lines| ==> k[i] == Classify(TrimEnd(lines[i]))
  {
    seq(|lines|, i requires 0 <= i < |lines| => Classify(TrimEnd(lines[i])))
  }

  function ReadAll(k: seq<Line>): Result<Scan, Error> {
    if k == [] then Ok(START)
    else match ReadAll(k[..|k| - 1])
      case Ok(s) => Read(s.(line := s.line + 1), k[|k| - 1])
      case Err(e) => Err(e)
  }

  // Parsing sees nothing of the text but what its lines are.
  lemma {:induction false} FeedReads(lines: seq<string>)
    ensures Feed(lines) == ReadAll(Reads(lines))
  {
    hide Classify, TrimEnd, Read;
    if lines != [] {
      FeedReads(lines[..|lines| - 1]);
      assert Reads(lines)[..|lines| - 1] == Reads(lines[..|lines| - 1]);
    }
  }

  // ---- Entries ----

  // What ends an entry: the next one, or a line of the top level.
  predicate Ends(line: Line) {
    line.UrlLine? || line.KeyValue?
  }

  // The entry of the j-th line is open at the end of the lines.
  ghost predicate OpenAt(k: seq<Line>, j: nat) {
    j < |k| && k[j].UrlLine? && forall a :: j < a < |k| ==> !Ends(k[a])
  }

  ghost predicate InEntry(k: seq<Line>) {
    exists j :: OpenAt(k, j)
  }

  // The last checksum and the last size since the j-th line.
  ghost predicate ShaSince(k: seq<Line>, j: nat, sha512: Option<string>) {
    match sha512
    case None => forall a :: j < a < |k| ==> !k[a].ShaLine?
    case Some(v) => exists a :: j < a < |k| && k[a] == ShaLine(v) && forall b :: a < b < |k| ==> !k[b].ShaLine?
  }

  ghost predicate SizeSince(k: seq<Line>, j: nat, size: Option<nat>) {
    match size
    case None => forall a :: j < a < |k| ==> !k[a].SizeLine?
    case Some(n) => exists a :: j < a < |k| && k[a] == SizeLine(n) && forall b :: a < b < |k| ==> !k[b].SizeLine?
  }

  // The open entry has no checksum or no size yet.
  ghost predicate Incomplete(k: seq<Line>) {
    exists j :: OpenAt(k, j) && (ShaSince(k, j, None) || SizeSince(k, j, None))
  }

  ghost predicate CurrentMeans(k: seq<Line>, current: Option<Entry>) {
    && (current.Some? <==> InEntry(k))
    && forall j: nat :: OpenAt(k, j) && current.Some? ==>
         k[j].url == current.value.url && ShaSince(k, j, current.value.sha512) && SizeSince(k, j, current.value.size)
  }

  lemma OpenIsOne(k: seq<Line>, i: nat, j: nat)
    requires OpenAt(k, i) && OpenAt(k, j)
    ensures i == j
  {
    if i < j {
      assert Ends(k[j]);
      assert false;
    }
    if j < i {
      assert Ends(k[i]);
      assert false;
    }
  }

  lemma OpenNext(k: seq<Line>, line: Line)
    ensures forall j :: OpenAt(k + [line], j) <==>
              if line.UrlLine? then j == |k| else !line.KeyValue? && OpenAt(k, j)
    ensures InEntry(k + [line]) <==> line.UrlLine? || (!line.KeyValue? && InEntry(k))
  {
    var all := k + [line];
    assert all[|k|] == line;
    assert forall a :: 0 <= a < |k| ==> all[a] == k[a];
    forall j: nat
      ensures OpenAt(all, j) <==> if line.UrlLine? then j == |k| else !line.KeyValue? && OpenAt(k, j)
    {
      if OpenAt(all, j) && j < |k| {
        assert !Ends(all[|k|]);
      }
    }
    if line.UrlLine? {
      assert OpenAt(all, |k|);
    } else if !line.KeyValue? && InEntry(k) {
      var j :| OpenAt(k, j);
      assert OpenAt(all, j);
    }
  }

  lemma ShaNext(k: seq<Line>, line: Line, j: nat, sha512: Option<string>)
    requires j < |k| && ShaSince(k, j, sha512)
    ensures ShaSince(k + [line], j, if line.ShaLine? then Some(line.sha512) else sha512)
  {
    var all := k + [line];
    assert all[|k|] == line;
    assert forall a :: 0 <= a < |k| ==> all[a] == k[a];
    if !line.ShaLine? && sha512.Some? {
      var a :| j < a < |k| && k[a] == ShaLine(sha512.value) && forall b :: a < b < |k| ==> !k[b].ShaLine?;
      assert all[a] == ShaLine(sha512.value);
    }
  }

  lemma SizeNext(k: seq<Line>, line: Line, j: nat, size: Option<nat>)
    requires j < |k| && SizeSince(k, j, size)
    ensures SizeSince(k + [line], j, if line.SizeLine? then Some(line.size) else size)
  {
    var all := k + [line];
    assert all[|k|] == line;
    assert forall a :: 0 <= a < |k| ==> all[a] == k[a];
    if !line.SizeLine? && size.Some? {
      var a :| j < a < |k| && k[a] == SizeLine(size.value) && forall b :: a < b < |k| ==> !k[b].SizeLine?;
      assert all[a] == SizeLine(size.value);
    }
  }

  lemma SinceIsOne(k: seq<Line>, j: nat, sha512: Option<string>, size: Option<nat>)
    requires ShaSince(k, j, sha512) && SizeSince(k, j, size)
    ensures sha512.None? <==> ShaSince(k, j, None)
    ensures size.None? <==> SizeSince(k, j, None)
  {
  }

  lemma CurrentNext(k: seq<Line>, line: Line, current: Option<Entry>, next: Option<Entry>)
    requires CurrentMeans(k, current)
    requires next == (match line
                      case UrlLine(url) => Some(Entry(url, None, None))
                      case KeyValue(_, _) => None
                      case ShaLine(v) => if current.None? then None else Some(current.value.(sha512 := Some(v)))
                      case SizeLine(n) => if current.None? then None else Some(current.value.(size := Some(n)))
                      case _ => current)
    ensures CurrentMeans(k + [line], next)
  {
    var all := k + [line];
    OpenNext(k, line);
    forall j: nat | OpenAt(all, j) && next.Some?
      ensures all[j].url == next.value.url && ShaSince(all, j, next.value.sha512) && SizeSince(all, j, next.value.size)
    {
      if !line.UrlLine? {
        assert OpenAt(k, j);
        ShaNext(k, line, j, current.value.sha512);
        SizeNext(k, line, j, current.value.size);
      }
    }
  }

  lemma IncompleteMeans(k: seq<Line>, current: Option<Entry>)
    requires CurrentMeans(k, current)
    ensures Complete(current) <==> !Incomplete(k)
  {
    hide OpenAt, ShaSince, SizeSince;
    if current.Some? {
      var j :| OpenAt(k, j);
      forall i: nat | OpenAt(k, i)
        ensures i == j
      {
        OpenIsOne(k, i, j);
      }
      SinceIsOne(k, j, current.value.sha512, current.value.size);
    }
  }

  // ---- Files ----

  function Urls(k: seq<Line>): nat {
    if k == [] then 0 else Urls(k[..|k| - 1]) + if k[|k| - 1].UrlLine? then 1 else 0
  }

  // The file of the entry of the j-th line, which is over before the e-th: its url, and the
  // last checksum and size in between.
  ghost predicate FileOf(k: seq<Line>, j: nat, e: nat, f: File) {
    && e <= |k| && OpenAt(k[..e], j) && f.url == k[j].url
    && ShaSince(k[..e], j, Some(f.sha512)) && SizeSince(k[..e], j, Some(f.size))
  }

  ghost predicate EndsAt(k: seq<Line>, j: nat, e: nat) {
    e < |k| && OpenAt(k[..e], j) && Ends(k[e])
  }

  // Each entry that is over gave a file, in the order of the entries.
  ghost predicate FilesMean(k: seq<Line>, files: seq<File>) {
    && |files| == Urls(k) - (if InEntry(k) then 1 else 0)
    && forall j: nat, e: nat :: EndsAt(k, j, e) ==>
         Urls(k[..j]) < |files| && FileOf(k, j, e, files[Urls(k[..j])])
  }

  lemma UrlsNext(k: seq<Line>, line: Line)
    ensures Urls(k + [line]) == Urls(k) + if line.UrlLine? then 1 else 0
  {
    assert (k + [line])[..|k|] == k;
  }

  // The open entry is the last one.
  lemma {:induction false} UrlsOfOpen(k: seq<Line>, j: nat)
    requires OpenAt(k, j)
    ensures Urls(k[..j]) == Urls(k) - 1
    decreases |k|
  {
    var n := |k| - 1;
    assert k == k[..n] + [k[n]];
    if j < n {
      OpenNext(k[..n], k[n]);
      UrlsOfOpen(k[..n], j);
      assert k[..n][..j] == k[..j];
      assert !Ends(k[n]);
    }
  }

  lemma EndsNext(k: seq<Line>, line: Line, j: nat, e: nat)
    ensures EndsAt(k + [line], j, e) <==> if e == |k| then OpenAt(k, j) && Ends(line) else EndsAt(k, j, e)
    ensures e <= |k| ==> (k + [line])[..e] == k[..e]
    ensures j <= |k| ==> (k + [line])[..j] == k[..j]
  {
  }

  lemma FilesStay(k: seq<Line>, line: Line, files: seq<File>)
    requires FilesMean(k, files) && !Ends(line)
    ensures FilesMean(k + [line], files)
  {
    var all := k + [line];
    UrlsNext(k, line);
    OpenNext(k, line);
    hide ShaSince, SizeSince, Urls;
    forall j: nat, e: nat | EndsAt(all, j, e)
      ensures Urls(all[..j]) < |files| && FileOf(all, j, e, files[Urls(all[..j])])
    {
      EndsNext(k, line, j, e);
    }
  }

  lemma FilesNext(k: seq<Line>, line: Line, files: seq<File>, current: Option<Entry>)
    requires FilesMean(k, files) && CurrentMeans(k, current) && Ends(line) && Complete(current)
    ensures FilesMean(k + [line], files + Finished(current))
  {
    var all, more := k + [line], files + Finished(current);
    UrlsNext(k, line);
    OpenNext(k, line);
    hide ShaSince, SizeSince, Urls;
    forall j: nat, e: nat | EndsAt(all, j, e)
      ensures Urls(all[..j]) < |more| && FileOf(all, j, e, more[Urls(all[..j])])
    {
      EndsNext(k, line, j, e);
      if e == |k| {
        assert k[..|k|] == k;
        UrlsOfOpen(k, j);
        assert OpenAt(k, j) && current.Some?;
      } else {
        assert FileOf(k, j, e, files[Urls(k[..j])]);
      }
    }
  }

  // ---- Keys ----

  // The last line of a key, and its value.
  ghost predicate LastOf(k: seq<Line>, key: string, value: Scalar) {
    exists a :: 0 <= a < |k| && k[a] == KeyValue(key, value)
                && forall b :: a < b < |k| ==> !(k[b].KeyValue? && k[b].key == key)
  }

  ghost predicate NoneOf(k: seq<Line>, key: string) {
    forall a :: 0 <= a < |k| ==> !(k[a].KeyValue? && k[a].key == key)
  }

  lemma LastNext(k: seq<Line>, line: Line, key: string, value: Scalar)
    ensures LastOf(k + [line], key, value) <==>
              if line.KeyValue? && line.key == key then value == line.value else LastOf(k, key, value)
    ensures NoneOf(k + [line], key) <==> NoneOf(k, key) && !(line.KeyValue? && line.key == key)
  {
    var all := k + [line];
    assert all[|k|] == line;
    assert forall a :: 0 <= a < |k| ==> all[a] == k[a];
    if LastOf(k, key, value) && !(line.KeyValue? && line.key == key) {
      var a :| 0 <= a < |k| && k[a] == KeyValue(key, value)
               && forall b :: a < b < |k| ==> !(k[b].KeyValue? && k[b].key == key);
      assert all[a] == KeyValue(key, value);
    }
    if line.KeyValue? && line.key == key && value == line.value {
      assert all[|k|] == KeyValue(key, value);
    }
  }

  ghost predicate TextMeans(k: seq<Line>, key: string, value: Option<string>) {
    match value
    case None => NoneOf(k, key)
    case Some(text) => LastOf(k, key, Text(text))
  }

  predicate IsExtra(key: string) {
    key != "version" && key != "releaseDate" && key != "path" && key != "sha512"
  }

  ghost predicate ExtrasMean(k: seq<Line>, extras: map<string, Scalar>) {
    && (forall key :: key in extras ==> IsExtra(key) && LastOf(k, key, extras[key]))
    && (forall key :: IsExtra(key) && key !in extras ==> NoneOf(k, key))
  }

  lemma TextNext(k: seq<Line>, line: Line, key: string, value: Option<string>)
    requires TextMeans(k, key, value)
    ensures !(line.KeyValue? && line.key == key) ==> TextMeans(k + [line], key, value)
    ensures line.KeyValue? && line.key == key && line.value.Text? ==> TextMeans(k + [line], key, Some(line.value.text))
  {
    hide LastOf, NoneOf;
    LastNext(k, line, key, if value.Some? then Text(value.value) else Flag(true));
    if line.KeyValue? {
      LastNext(k, line, key, line.value);
    }
  }

  lemma ExtrasNext(k: seq<Line>, line: Line, extras: map<string, Scalar>)
    requires ExtrasMean(k, extras)
    ensures ExtrasMean(k + [line],
                       if line.KeyValue? && IsExtra(line.key) then extras[line.key := line.value] else extras)
  {
    hide LastOf, NoneOf;
    var after := if line.KeyValue? && IsExtra(line.key) then extras[line.key := line.value] else extras;
    forall key | key in after
      ensures IsExtra(key) && LastOf(k + [line], key, after[key])
    {
      LastNext(k, line, key, after[key]);
    }
    forall key | IsExtra(key) && key !in after
      ensures NoneOf(k + [line], key)
    {
      LastNext(k, line, key, Flag(true));
    }
  }

  // ---- The whole text ----

  // What a line that may not follow these lines is refused for.
  ghost function Refused(k: seq<Line>, line: Line): Option<Problem> {
    match line
    case ShaLine(_) => if InEntry(k) then None else Some(ShaWithoutFile)
    case SizeLine(_) => if InEntry(k) then None else Some(SizeWithoutFile)
    case UrlLine(_) => if Incomplete(k) then Some(IncompleteFile) else None
    case KeyValue(key, value) =>
      if Incomplete(k) then Some(IncompleteFile)
      else if key == "version" && !value.Text? then Some(VersionNotText)
      else if key == "releaseDate" && !value.Text? then Some(DateNotText)
      else None
    case Unsupported => if Incomplete(k) then Some(IncompleteFile) else Some(UnsupportedLine)
    case _ => None
  }

  ghost predicate ScanMeans(k: seq<Line>, s: Scan) {
    && s.line == |k| && (s.current.Some? ==> s.inFiles)
    && CurrentMeans(k, s.current) && FilesMean(k, s.files)
    && TextMeans(k, "version", s.version) && TextMeans(k, "releaseDate", s.releaseDate) && ExtrasMean(k, s.extras)
  }

  lemma StartMeans()
    ensures ScanMeans([], START)
  {
  }

  // One line more: refused for what it is, or read with its meaning.
  lemma ReadMeans(k: seq<Line>, line: Line, s: Scan)
    requires ScanMeans(k, s)
    ensures var r := Read(s.(line := s.line + 1), line);
            match Refused(k, line)
            case Some(problem) => r == Err(AtLine(|k| + 1, problem))
            case None => r.Ok? && ScanMeans(k + [line], r.value)
  {
    IncompleteMeans(k, s.current);
    var r := Read(s.(line := s.line + 1), line);
    hide Incomplete, InEntry, TextMeans, ExtrasMean;
    assert s.current.Some? <==> InEntry(k);
    if Refused(k, line).None? {
      assert r.Ok?;
      CurrentNext(k, line, s.current, r.value.current);
      if Ends(line) {
        FilesNext(k, line, s.files, s.current);
      } else {
        FilesStay(k, line, s.files);
      }
      TextNext(k, line, "version", s.version);
      TextNext(k, line, "releaseDate", s.releaseDate);
      ExtrasNext(k, line, s.extras);
      hide CurrentMeans, FilesMean;
    }
  }

  ghost predicate NoneRefused(k: seq<Line>, n: nat)
    requires n <= |k|
  {
    forall i :: 0 <= i < n ==> Refused(k[..i], k[i]).None?
  }

  // The first line that is refused, and for what.
  ghost predicate FirstRefused(k: seq<Line>, i: nat, problem: Problem) {
    i < |k| && NoneRefused(k, i) && Refused(k[..i], k[i]) == Some(problem)
  }

  lemma {:induction false} ReadAllMeans(k: seq<Line>)
    ensures match ReadAll(k)
            case Ok(s) => NoneRefused(k, |k|) && ScanMeans(k, s)
            case Err(AtLine(n, problem)) => n > 0 && FirstRefused(k, n - 1, problem)
            case Err(_) => false
  {
    hide Read, Refused, ScanMeans;
    if k == [] {
      StartMeans();
    } else {
      var rest, line := k[..|k| - 1], k[|k| - 1];
      assert k == rest + [line];
      assert forall i :: 0 <= i <= |rest| ==> rest[..i] == k[..i];
      assert forall i :: 0 <= i < |rest| ==> rest[i] == k[i];
      ReadAllMeans(rest);
      if ReadAll(rest).Ok? {
        ReadMeans(rest, line, ReadAll(rest).value);
      }
    }
  }

  // Every entry of the text gave a file, in order; the last one ends with the text.
  ghost predicate AllFilesMean(k: seq<Line>, files: seq<File>) {
    && |files| == Urls(k)
    && forall j: nat, e: nat :: EndsAt(k, j, e) || (e == |k| && OpenAt(k, j)) ==>
         Urls(k[..j]) < |files| && FileOf(k, j, e, files[Urls(k[..j])])
  }

  lemma FilesEnd(k: seq<Line>, files: seq<File>, current: Option<Entry>)
    requires FilesMean(k, files) && CurrentMeans(k, current) && Complete(current)
    ensures AllFilesMean(k, files + Finished(current))
  {
    hide ShaSince, SizeSince, Urls;
    var all := files + Finished(current);
    assert k[..|k|] == k;
    forall j: nat, e: nat | EndsAt(k, j, e) || (e == |k| && OpenAt(k, j))
      ensures Urls(k[..j]) < |all| && FileOf(k, j, e, all[Urls(k[..j])])
    {
      if EndsAt(k, j, e) {
        assert FileOf(k, j, e, files[Urls(k[..j])]);
      } else {
        UrlsOfOpen(k, j);
      }
    }
  }

  ghost predicate TextMissing(k: seq<Line>, key: string) {
    NoneOf(k, key) || LastOf(k, key, Text(""))
  }

  // What parsing comes to, in terms of what the lines are alone. It is refused for its first
  // refused line; or at its end for an entry without checksum or size; or because version,
  // date or files are missing. Otherwise version, date and extras are those of the last line
  // of each key, and the files are those of the entries, in order.
  ghost predicate Outcome(k: seq<Line>, r: Result<Manifest, Error>) {
    match r
    case Err(AtLine(n, problem)) =>
      || (n > 0 && FirstRefused(k, n - 1, problem))
      || (NoneRefused(k, |k|) && Incomplete(k) && n == |k| && problem == IncompleteFile)
    case Err(MissingVersion) => NoneRefused(k, |k|) && !Incomplete(k) && TextMissing(k, "version")
    case Err(MissingDate) =>
      NoneRefused(k, |k|) && !Incomplete(k) && TextMissing(k, "releaseDate")
      && exists v :: v != "" && LastOf(k, "version", Text(v))
    case Err(MissingFiles) =>
      NoneRefused(k, |k|) && !Incomplete(k) && Urls(k) == 0
      && (exists v :: v != "" && LastOf(k, "version", Text(v)))
      && exists d :: d != "" && LastOf(k, "releaseDate", Text(d))
    case Ok(m) =>
      && NoneRefused(k, |k|) && !Incomplete(k)
      && m.version != "" && LastOf(k, "version", Text(m.version))
      && m.releaseDate != "" && LastOf(k, "releaseDate", Text(m.releaseDate))
      && m.files != [] && AllFilesMean(k, m.files) && ExtrasMean(k, m.extras)
  }

  lemma FinishMeans(k: seq<Line>, s: Scan)
    requires ScanMeans(k, s) && NoneRefused(k, |k|)
    ensures Outcome(k, Finish(s))
  {
    IncompleteMeans(k, s.current);
    if Complete(s.current) {
      FilesEnd(k, s.files, s.current);
    }
    EmptyFiles(k, s.files + if Complete(s.current) then Finished(s.current) else []);
    hide AllFilesMean, FilesMean, CurrentMeans, ExtrasMean, Urls, LastOf, NoneOf, Incomplete, NoneRefused;
  }

  lemma ParseMeans(text: string)
    ensures Outcome(Reads(Lines(text)), Parse(text))
  {
    hide Classify, TrimEnd, Lines, ReadAll, NoneRefused, ScanMeans, Finish, Reads;
    var k := Reads(Lines(text));
    FeedReads(Lines(text));
    ReadAllMeans(k);
    if ReadAll(k).Ok? {
      FinishMeans(k, ReadAll(k).value);
    }
  }

  lemma EmptyFiles(k: seq<Line>, files: seq<File>)
    ensures AllFilesMean(k, files) ==> (files == [] <==> Urls(k) == 0)
  {
  }

  // ---- What a line is ----

  const CAPITALS := "ABCDEFGHIJKLMNOPQRSTUVWXYZ"
  const SMALLS := "abcdefghijklmnopqrstuvwxyz"
  const DIGITS := "0123456789"

  lemma CapitalsMean(c: char)
    ensures 'A' <= c <= 'Z' <==> c in CAPITALS
  {
    if 'A' <= c <= 'Z' {
      assert CAPITALS[c as int - 'A' as int] == c;
    }
  }

  lemma SmallsMean(c: char)
    ensures 'a' <= c <= 'z' <==> c in SMALLS
  {
    if 'a' <= c <= 'z' {
      assert SMALLS[c as int - 'a' as int] == c;
    }
  }

  lemma DigitsMean(c: char)
    ensures '0' <= c <= '9' <==> c in DIGITS
  {
    if '0' <= c <= '9' {
      assert DIGITS[c as int - '0' as int] == c;
    }
  }

  // The characters of a key.
  lemma KeyCharsMean(c: char)
    ensures IsLetter(c) <==> c in CAPITALS || c in SMALLS
    ensures IsKeyChar(c) <==> c in CAPITALS || c in SMALLS || c in DIGITS
  {
    CapitalsMean(c);
    SmallsMean(c);
    DigitsMean(c);
  }

  // The patterns name the kinds, and exclude each other.
  lemma ClassifyMeans(line: string)
    ensures Classify(line) == Blank <==> line == ""
    ensures Field("  - url:", line).Some? ==> Classify(line) == UrlLine(StripQuotes(Trim(Field("  - url:", line).value)))
    ensures Field("    sha512:", line).Some? ==>
              Classify(line) == ShaLine(StripQuotes(Trim(Field("    sha512:", line).value)))
    ensures forall spaces, digits ::
              AllSpace(spaces) && digits != "" && Digits(digits) && line == "    size:" + spaces + digits ==>
                Classify(line) == SizeLine(ParseNat(digits))
    ensures line == "files:" ==> Classify(line) == FilesHeader
    ensures forall key :: IsKey(key) && Field(key + ":", line).Some? ==>
              Classify(line) == KeyValue(key, ParseScalar(Field(key + ":", line).value))
  {
    PrefixesDiffer();
    assert URL == "  - url:" && SHA == "    sha512:" && SIZE == "    size:";
    SizesAreSizes(line);
    FilesIsHeader();
    forall key | IsKey(key) && Field(key + ":", line).Some?
      ensures Classify(line) == KeyValue(key, ParseScalar(Field(key + ":", line).value))
    {
      if line == "files:" {
        OnlyColonEnds(key, line);
      }
      ClassifyTopLine(key, line);
    }
    hide Capture, StripQuotes, Trim, TopLevel, ParseScalar, SizeField;
  }

  lemma FilesIsHeader()
    ensures Classify("files:") == FilesHeader
  {
    FixedLines();
    TrimmedHeader();
  }

  lemma TrimmedHeader()
    ensures TrimEnd("files:") == "files:"
  {
  }

  lemma SizesAreSizes(line: string)
    ensures forall spaces, digits ::
              AllSpace(spaces) && digits != "" && Digits(digits) && line == "    size:" + spaces + digits ==>
                Classify(line) == SizeLine(ParseNat(digits))
  {
    PrefixesDiffer();
    assert SIZE == "    size:";
    forall spaces, digits |
      AllSpace(spaces) && digits != "" && Digits(digits) && line == "    size:" + spaces + digits
      ensures Classify(line) == SizeLine(ParseNat(digits))
    {
      assert line[|SIZE|..] == spaces + digits;
      SpaceCountOf(spaces, digits);
      assert (spaces + digits)[|spaces|..] == digits;
      assert line[2] == SIZE[2] && line[5] == SIZE[5];
      hide Capture, StripQuotes, Trim, TopLevel, ParseScalar, ParseNat;
    }
  }

  // A line of a kind unknown in an entry, such as a block map size.
  lemma IndentedIsUnsupported(line: string)
    requires line != "" && line[0] == ' '
    requires Field(URL, line).None? && Field(SHA, line).None? && SizeField(line).None?
    ensures Classify(line) == Unsupported
  {
    IndentedIsNotTopLevel(line);
    hide Field, SizeField, TopLevel;
  }

  // ---- Lines that printing never writes ----

  // The lines of a text survive being joined.
  predicate Whole(lines: seq<string>) {
    lines != [] && !InnerCr(lines) && forall i :: 0 <= i < |lines| ==> '\n' !in lines[i]
  }

  // Spaces at the end of a line make no difference at all.
  lemma TrailingSpacesDoNotMatter(lines: seq<string>, i: nat, spaces: string)
    requires Whole(lines) && i < |lines| && AllSpace(spaces)
    requires Whole(lines[i := lines[i] + spaces])
    ensures Parse(Join(lines[i := lines[i] + spaces])) == Parse(Join(lines))
  {
    hide InnerCr, AllSpace, Classify;
    var spaced := lines[i := lines[i] + spaces];
    TrimEndMore(lines[i], spaces);
    assert Reads(spaced) == Reads(lines);
    FeedReads(lines);
    FeedReads(spaced);
    SplitUndoesJoin(lines);
    SplitUndoesJoin(spaced);
    hide Reads, Feed;
  }

  lemma {:induction false} TrimEndMore(s: string, spaces: string)
    requires AllSpace(spaces)
    ensures TrimEnd(s + spaces) == TrimEnd(s)
  {
    if spaces == "" {
      assert s + spaces == s;
    } else {
      var n := |spaces| - 1;
      assert (s + spaces)[..|s + spaces| - 1] == s + spaces[..n];
      assert (s + spaces)[|s + spaces| - 1] == spaces[n];
      TrimEndMore(s, spaces[..n]);
    }
  }

  // The same up to the numbers of lines.
  predicate SameScan(a: Result<Scan, Error>, b: Result<Scan, Error>) {
    match (a, b)
    case (Ok(s), Ok(t)) => s == t.(line := s.line)
    case (Err(AtLine(_, p)), Err(AtLine(_, q))) => p == q
    case (Err(x), Err(y)) => x == y
    case _ => false
  }

  predicate SameOutcome(a: Result<Manifest, Error>, b: Result<Manifest, Error>) {
    match (a, b)
    case (Ok(m), Ok(n)) => m == n
    case (Err(AtLine(_, p)), Err(AtLine(_, q))) => p == q
    case (Err(x), Err(y)) => x == y
    case _ => false
  }

  lemma ReadSame(s: Scan, t: Scan, line: Line)
    requires s == t.(line := s.line)
    ensures SameScan(Read(s, line), Read(t, line))
  {
  }

  lemma {:induction false} BlankBetween(a: seq<Line>, b: seq<Line>)
    ensures SameScan(ReadAll(a + b), ReadAll(a + [Blank] + b))
  {
    hide Read;
    if b == [] {
      assert a + b == a && a + [Blank] + b == a + [Blank];
      assert (a + [Blank])[..|a|] == a;
      BlankChangesNothing(a);
    } else {
      var rest, line := b[..|b| - 1], b[|b| - 1];
      BlankBetween(a, rest);
      var one, two := a + b, a + [Blank] + b;
      assert one[..|one| - 1] == a + rest && one[|one| - 1] == line;
      assert two[..|two| - 1] == a + [Blank] + rest && two[|two| - 1] == line;
      if ReadAll(a + rest).Ok? {
        var s, t := ReadAll(a + rest).value, ReadAll(a + [Blank] + rest).value;
        ReadSame(s.(line := s.line + 1), t.(line := t.line + 1), line);
      }
    }
  }

  lemma BlankChangesNothing(a: seq<Line>)
    ensures SameScan(ReadAll(a), ReadAll(a + [Blank]))
  {
    assert (a + [Blank])[..|a|] == a;
  }

  lemma FinishSame(s: Scan, t: Scan)
    requires s == t.(line := s.line)
    ensures SameOutcome(Finish(s), Finish(t))
  {
  }

  lemma ReadsAppend(a: seq<string>, b: seq<string>)
    ensures Reads(a + b) == Reads(a) + Reads(b)
  {
    hide Classify, TrimEnd;
  }

  lemma ReadsBlank(blank: string)
    requires AllSpace(blank)
    ensures Reads([blank]) == [Blank]
  {
    TrimEndBlank("", blank);
    assert "" + blank == blank;
    hide TrimEnd;
  }

  function ParseKinds(k: seq<Line>): Result<Manifest, Error> {
    match ReadAll(k)
    case Ok(s) => Finish(s)
    case Err(e) => Err(e)
  }

  lemma ParseOf(lines: seq<string>)
    requires Whole(lines)
    ensures Parse(Join(lines)) == ParseKinds(Reads(lines))
  {
    SplitUndoesJoin(lines);
    hide InnerCr, Reads, Feed, ReadAll, Lines, Join, Finish;
    FeedReads(lines);
  }

  lemma SameKinds(a: seq<Line>, b: seq<Line>)
    requires SameScan(ReadAll(a), ReadAll(b))
    ensures SameOutcome(ParseKinds(a), ParseKinds(b))
  {
    hide ReadAll, Finish;
    if ReadAll(a).Ok? {
      FinishSame(ReadAll(a).value, ReadAll(b).value);
    }
  }

  // A blank line anywhere changes the numbers of the lines below it, and nothing else.
  lemma BlankLinesDoNotMatter(a: seq<string>, b: seq<string>, blank: string)
    requires AllSpace(blank) && Whole(a + b) && Whole(a + [blank] + b)
    ensures SameOutcome(Parse(Join(a + b)), Parse(Join(a + [blank] + b)))
  {
    hide AllSpace, Reads, Whole, Parse, Join, ReadAll, SameScan, SameOutcome, ParseKinds;
    ReadsAppend(a, b);
    ReadsAppend(a, [blank]);
    ReadsAppend(a + [blank], b);
    ReadsBlank(blank);
    ParseOf(a + b);
    ParseOf(a + [blank] + b);
    BlankBetween(Reads(a), Reads(b));
    SameKinds(Reads(a) + Reads(b), Reads(a) + [Blank] + Reads(b));
  }

  // A text with a line that is nothing known is refused.
  lemma UnsupportedLineIsRefused(text: string, i: nat)
    requires i < |Lines(text)| && Classify(TrimEnd(Lines(text)[i])) == Unsupported
    ensures Parse(text).Err?
  {
    hide Lines, Classify, TrimEnd, InEntry;
    ParseMeans(text);
    var k := Reads(Lines(text));
    assert Refused(k[..i], k[i]).Some?;
  }

  // So is one with a block map size in an entry, as electron-builder writes it.
  lemma BlockMapSizeIsRefused(text: string, i: nat, digits: string)
    requires i < |Lines(text)| && Lines(text)[i] == "    blockMapSize: " + digits
    requires digits != "" && Digits(digits)
    ensures Parse(text).Err?
  {
    hide Lines, Parse;
    var line := "    blockMapSize: " + digits;
    BlockMapLine(line, digits);
    UnsupportedLineIsRefused(text, i);
  }

  lemma BlockMapLine(line: string, digits: string)
    requires line == "    blockMapSize: " + digits && digits != "" && Digits(digits)
    ensures Classify(TrimEnd(line)) == Unsupported
  {
    PrefixesDiffer();
    TrimEndOf("    blockMapSize: ", digits);
    assert line[0] == ' ' && line[2] == ' ' && line[4] == 'b';
    assert URL[2] == '-' && SHA[4] == 's' && SIZE[4] == 's';
    IndentedIsUnsupported(line);
  }

  // ---- The lines of electron-builder ----

  // The printed lines with a path and a checksum at the top level, after the files.
  function LinesWithPath(m: Manifest, path: string, sha512: string): seq<string> {
    [KeyLine("version", m.version), "files:"] + FileLines(m.files) + [KeyLine("path", path)] + [KeyLine("sha512", sha512)]
    + ExtraLines(SortedKeys(m.extras.Keys), m.extras) + [KeyLine("releaseDate", Quote(m.releaseDate))] + [""]
  }

  lemma ReachIgnored(lines: seq<string>, key: string, v: string, version: Option<string>, files: seq<File>)
    requires Reached(lines, version, None, files, map[]) && (key == "path" || key == "sha512")
    requires OneLine(v) && Trim(v) != ""
    ensures Reached(lines + [KeyLine(key, v)], version, None, files, map[])
  {
    IgnoredKeys();
    hide Classify, Trim, ParseScalar, TrimEnd, KeyLine, Feed, OneLine, IsKey;
    ClassifyKey(key, v);
    FeedKind(lines, KeyLine(key, v), KeyValue(key, ParseScalar(Trim(v))));
  }

  lemma IgnoredKeys()
    ensures IsKey("path") && IsKey("sha512") && "path" != "files" && "sha512" != "files"
    ensures "path" != "version" && "path" != "releaseDate" && "sha512" != "version" && "sha512" != "releaseDate"
  {
    assert "path"[0] == 'p' && "sha512"[0] == 's' && "files"[0] == 'f' && "version"[0] == 'v' && "releaseDate"[0] == 'r';
  }

  lemma LinesWithPathOneLine(m: Manifest, path: string, sha512: string)
    requires Legible(m) && OneLine(path) && OneLine(sha512)
    ensures AllOneLine(LinesWithPath(m, path, sha512))
  {
    KeysAreKeys();
    IgnoredKeys();
    QuotePrintable(m.releaseDate);
    KeyLineOneLine("releaseDate", Quote(m.releaseDate));
    KeyLineOneLine("version", m.version);
    KeyLineOneLine("path", path);
    KeyLineOneLine("sha512", sha512);
    FileLinesOneLine(m.files);
    ExtraLinesOneLine(SortedKeys(m.extras.Keys), m.extras);
    assert OneLine("files:");
    var header, files := [KeyLine("version", m.version), "files:"], FileLines(m.files);
    var p, q, extras := [KeyLine("path", path)], [KeyLine("sha512", sha512)], ExtraLines(SortedKeys(m.extras.Keys), m.extras);
    var date := [KeyLine("releaseDate", Quote(m.releaseDate))];
    assert AllOneLine(header) && AllOneLine(p) && AllOneLine(q) && AllOneLine(date) && AllOneLine([""]);
    hide AllOneLine, Legible, KeyLine, FileLines, ExtraLines, Quote, SortedKeys, OneLine, IsKey;
    AllOneLineAppend(header, files);
    AllOneLineAppend(header + files, p);
    AllOneLineAppend(header + files + p, q);
    AllOneLineAppend(header + files + p + q, extras);
    AllOneLineAppend(header + files + p + q + extras, date);
    AllOneLineAppend(header + files + p + q + extras + date, [""]);
  }

  // They are read and dropped: the text parses to the manifest all the same.
  lemma PathAndShaAreDropped(m: Manifest, path: string, sha512: string)
    requires WellFormed(m) && OneLine(path) && OneLine(sha512) && Trim(path) != "" && Trim(sha512) != ""
    ensures Parse(Join(LinesWithPath(m, path, sha512))) == Ok(m)
  {
    LinesWithPathOneLine(m, path, sha512);
    PlainTextIsReadBack(m.version);
    BareFilesAreReadBack(m.files);
    PlainExtrasAreReadBack(m.extras);
    RestrictAll(m.extras);
    hide Reached, ReadFiles, OneLine, Feed, FileLines, KeyLine, Quote, LegalKey, WellFormedScalar, ExtraLines, Restrict,
      SortedKeys, ReadExtras, ReadVersion, Trim, PlainText, BareFiles, PlainExtras, AllOneLine, Lines, Join;
    var header, keys := [KeyLine("version", m.version), "files:"], SortedKeys(m.extras.Keys);
    var files, extras := FileLines(m.files), ExtraLines(keys, m.extras);
    var version := Some(m.version);
    ReachHeader(m.version);
    ReachFiles(header, m.files, version, None, map[]);
    ReachIgnored(header + files, "path", path, version, m.files);
    var p, q := [KeyLine("path", path)], [KeyLine("sha512", sha512)];
    ReachIgnored(header + files + p, "sha512", sha512, version, m.files);
    ReachExtras(header + files + p + q, keys, m.extras, version, m.files);
    ReachDate(header + files + p + q + extras, m.releaseDate, version, m.files, m.extras);
    OneLinesSurviveJoining(LinesWithPath(m, path, sha512));
    ReachedParses(LinesWithPath(m, path, sha512), m);
  }

  lemma ReachedParses(lines: seq<string>, m: Manifest)
    requires Reached(lines, Some(m.version), Some(m.releaseDate), m.files, m.extras) && Lines(Join(lines)) == lines
    requires m.version != "" && m.releaseDate != "" && m.files != []
    ensures Parse(Join(lines)) == Ok(m)
  {
    hide Feed, Lines, Join;
  }
}
