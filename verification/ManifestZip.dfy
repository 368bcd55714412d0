// Updating the entry of a repacked zip in the text of an update manifest
// (scripts/lib/mac-update-zip.ts, updateMacUpdateManifestZipEntry).
module ManifestZip {
  import opened Wrappers
  import opened TextLines
  import opened ManifestScalars
  import opened MacManifest
  import opened ManifestRoundTrip

  const BLOCK_MAP := "    blockMapSize:"
  const PATH := "path:"
  const TOP_SHA := "sha512:"

  // What stat reports of a file (scripts/lib/mac-update-zip-finalize.ts).
  type FileSize = n: nat | n < EXPONENT_FROM

  datatype Metadata = Metadata(sha512: string, size: FileSize)

  datatype UpdateError = EntryNotUpdated | TopShaNotUpdated

  // ---- What a line is ----

  // /^prefix\s*\d+$/
  predicate HasNumber(prefix: string, line: string) {
    prefix <= line
    && var rest := line[|prefix|..];
       var digits := rest[SpaceCount(rest)..];
       digits != "" && Digits(digits)
  }

  // A match of /^prefix\s*\d+$/.
  ghost predicate SplitsNumber(line: string, prefix: string, spaces: string, digits: string) {
    line == prefix + spaces + digits && AllSpace(spaces) && digits != "" && Digits(digits)
  }

  lemma HasNumberMeans(prefix: string, line: string)
    ensures HasNumber(prefix, line) <==> exists spaces, digits :: SplitsNumber(line, prefix, spaces, digits)
  {
    forall spaces, digits | SplitsNumber(line, prefix, spaces, digits)
      ensures HasNumber(prefix, line)
    {
      assert line[|prefix|..] == spaces + digits;
      SpaceCountOf(spaces, digits);
      assert (spaces + digits)[|spaces|..] == digits;
    }
    if HasNumber(prefix, line) {
      var rest := line[|prefix|..];
      var n := SpaceCount(rest);
      assert rest == rest[..n] + rest[n..];
      assert SplitsNumber(line, prefix, rest[..n], rest[n..]);
    }
  }

  datatype Kind = Url(name: string) | Sha | Size | BlockMap | Path(name: string) | TopSha | Other

  function KindOf(line: string): Kind {
    if Field(URL, line).Some? then Url(StripQuotes(Trim(Field(URL, line).value)))
    else if Field(SHA, line).Some? then Sha
    else if HasNumber(SIZE, line) then Size
    else if HasNumber(BLOCK_MAP, line) then BlockMap
    else if Field(PATH, line).Some? then Path(StripQuotes(Trim(Field(PATH, line).value)))
    else if Field(TOP_SHA, line).Some? then TopSha
    else Other
  }

  // ---- The pass over the lines ----

  // The flags of the pass.
  datatype Progress = Progress(inTarget: bool, found: bool, shaUpdated: bool, sizeUpdated: bool,
                               pathMatches: bool, pathFound: bool, topShaUpdated: bool)

  const BEGIN := Progress(false, false, false, false, false, false, false)

  function Advance(p: Progress, kind: Kind, zip: string): Progress {
    match kind
    case Url(name) => p.(inTarget := name == zip, found := p.found || name == zip)
    case Sha => p.(shaUpdated := p.shaUpdated || p.inTarget)
    case Size => p.(sizeUpdated := p.sizeUpdated || p.inTarget)
    case Path(name) => p.(pathMatches := name == zip, pathFound := p.pathFound || name == zip)
    case TopSha => p.(pathMatches := false, topShaUpdated := p.topShaUpdated || p.pathMatches)
    case _ => p
  }

  function Replacement(p: Progress, line: string, metadata: Metadata): seq<string> {
    match KindOf(line)
    case Sha => [if p.inTarget then SHA + " " + metadata.sha512 else line]
    case Size => [if p.inTarget then SIZE + " " + PrintSize(metadata.size) else line]
    case BlockMap => if p.inTarget then [] else [line]
    case TopSha => [if p.pathMatches then TOP_SHA + " " + metadata.sha512 else line]
    case _ => [line]
  }

  function After(lines: seq<string>, zip: string): Progress {
    if lines == [] then BEGIN
    else Advance(After(lines[..|lines| - 1], zip), KindOf(lines[|lines| - 1]), zip)
  }

  function Rewrite(lines: seq<string>, zip: string, metadata: Metadata): seq<string> {
    if lines == [] then []
    else
      var before := lines[..|lines| - 1];
      Rewrite(before, zip, metadata) + Replacement(After(before, zip), lines[|lines| - 1], metadata)
  }

  function Update(manifest: string, zip: string, metadata: Metadata): Result<string, UpdateError> {
    var lines := Lines(manifest);
    var p := After(lines, zip);
    if !p.found || !p.shaUpdated || !p.sizeUpdated then Err(EntryNotUpdated)
    else if p.pathFound && !p.topShaUpdated then Err(TopShaNotUpdated)
    else Ok(Join(Rewrite(lines, zip, metadata)))
  }

  lemma AfterOne(lines: seq<string>, line: string, zip: string, metadata: Metadata)
    ensures After(lines + [line], zip) == Advance(After(lines, zip), KindOf(line), zip)
    ensures Rewrite(lines + [line], zip, metadata)
         == Rewrite(lines, zip, metadata) + Replacement(After(lines, zip), line, metadata)
  {
  }

  lemma PrefixFacts()
    ensures URL[0] == ' ' && SHA[0] == ' ' && SIZE[0] == ' ' && BLOCK_MAP[0] == ' '
    ensures PATH[0] == 'p' && TOP_SHA[0] == 's'
    ensures URL[2] == '-' && SHA[2] == ' ' && SIZE[2] == ' ' && BLOCK_MAP[2] == ' '
    ensures SHA[4] == 's' && SIZE[4] == 's' && SHA[5] == 'h' && SIZE[5] == 'i' && BLOCK_MAP[4] == 'b'
    ensures |URL| == 8 && |SHA| == 11 && |SIZE| == 9 && |BLOCK_MAP| == 17 && |PATH| == 5 && |TOP_SHA| == 7
  {
  }

  // An indented line is not a top-level one.
  lemma Indented(line: string)
    requires Field(SHA, line).Some? || HasNumber(SIZE, line) || HasNumber(BLOCK_MAP, line)
    ensures Field(URL, line).None? && Field(PATH, line).None? && Field(TOP_SHA, line).None?
    ensures Field(SHA, line).Some? ==> !HasNumber(SIZE, line) && !HasNumber(BLOCK_MAP, line)
    ensures HasNumber(SIZE, line) ==> !HasNumber(BLOCK_MAP, line)
  {
    PrefixFacts();
    hide Capture, SpaceCount;
    assert line[0] == ' ' && line[2] == ' ';
  }

  // The kinds in the order in which the pass asks for them.
  lemma KindCases(line: string)
    ensures Field(URL, line).Some? ==> KindOf(line) == Url(StripQuotes(Trim(Field(URL, line).value)))
    ensures Field(URL, line).None? && Field(SHA, line).Some? ==>
              KindOf(line) == Sha && Field(PATH, line).None? && Field(TOP_SHA, line).None?
              && !HasNumber(SIZE, line) && !HasNumber(BLOCK_MAP, line)
    ensures Field(URL, line).None? && HasNumber(SIZE, line) ==>
              KindOf(line) == Size && Field(PATH, line).None? && Field(TOP_SHA, line).None?
              && !HasNumber(BLOCK_MAP, line)
    ensures Field(URL, line).None? && HasNumber(BLOCK_MAP, line) ==>
              KindOf(line) == BlockMap && Field(PATH, line).None? && Field(TOP_SHA, line).None?
    ensures Field(URL, line).None? && Field(PATH, line).Some? ==>
              KindOf(line) == Path(StripQuotes(Trim(Field(PATH, line).value)))
    ensures Field(URL, line).None? && Field(SHA, line).None? && !HasNumber(SIZE, line) && !HasNumber(BLOCK_MAP, line)
            && Field(PATH, line).None? ==>
              KindOf(line) == if Field(TOP_SHA, line).Some? then TopSha else Other
  {
    hide Field, HasNumber, StripQuotes, Trim;
    if Field(SHA, line).Some? || HasNumber(SIZE, line) || HasNumber(BLOCK_MAP, line) {
      Indented(line);
    }
  }

  method UpdateZipEntry(manifest: string, zipFileName: string, metadata: Metadata)
    returns (r: Result<string, UpdateError>)
    ensures r == Update(manifest, zipFileName, metadata)
  {
    hide Lines, Join, Field, HasNumber, StripQuotes, Trim, After, Rewrite, PrintSize, KindOf;
    var lines := Lines(manifest);
    var inTargetFile, targetFileFound, targetShaUpdated, targetSizeUpdated := false, false, false, false;
    var topLevelPathMatches, matchingTopLevelPathFound, topLevelShaUpdated := false, false, false;
    var nextLines: seq<string> := [];
    var i := 0;
    NothingYet(lines, zipFileName, metadata);
    while i < |lines|
      invariant 0 <= i <= |lines|
      invariant nextLines == Rewrite(lines[..i], zipFileName, metadata)
      invariant After(lines[..i], zipFileName)
             == Progress(inTargetFile, targetFileFound, targetShaUpdated, targetSizeUpdated,
                         topLevelPathMatches, matchingTopLevelPathFound, topLevelShaUpdated)
    {
      var line := lines[i];
      assert lines[..i + 1] == lines[..i] + [line];
      AfterOne(lines[..i], line, zipFileName, metadata);
      KindCases(line);
      i := i + 1;
      var url := Field(URL, line);
      if url.Some? {
        inTargetFile := StripQuotes(Trim(url.value)) == zipFileName;
        if inTargetFile {
          targetFileFound := true;
        }
        nextLines := nextLines + [line];
        continue;
      }
      if inTargetFile && Field(SHA, line).Some? {
        targetShaUpdated := true;
        nextLines := nextLines + [SHA + " " + metadata.sha512];
        continue;
      }
      if inTargetFile && HasNumber(SIZE, line) {
        targetSizeUpdated := true;
        nextLines := nextLines + [SIZE + " " + PrintSize(metadata.size)];
        continue;
      }
      if inTargetFile && HasNumber(BLOCK_MAP, line) {
        assert nextLines + [] == nextLines;
        continue;
      }
      var path := Field(PATH, line);
      if path.Some? {
        topLevelPathMatches := StripQuotes(Trim(path.value)) == zipFileName;
        if topLevelPathMatches {
          matchingTopLevelPathFound := true;
        }
        nextLines := nextLines + [line];
        continue;
      }
      if topLevelPathMatches && Field(TOP_SHA, line).Some? {
        topLevelShaUpdated := true;
        topLevelPathMatches := false;
        nextLines := nextLines + [TOP_SHA + " " + metadata.sha512];
        continue;
      }
      nextLines := nextLines + [line];
    }
    assert lines[..i] == lines;
    if !targetFileFound || !targetShaUpdated || !targetSizeUpdated {
      return Err(EntryNotUpdated);
    }
    if matchingTopLevelPathFound && !topLevelShaUpdated {
      return Err(TopShaNotUpdated);
    }
    return Ok(Join(nextLines));
  }

  lemma NothingYet(lines: seq<string>, zip: string, metadata: Metadata)
    ensures After(lines[..0], zip) == BEGIN && Rewrite(lines[..0], zip, metadata) == []
  {
  }
}
