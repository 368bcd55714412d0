// What updating a zip entry in place promises: which lines change, that a second update
// changes nothing, and that rewriting the text is rewriting the data
// (scripts/lib/mac-update-zip.ts).
module ManifestZipLaws {
  import opened Wrappers
  import opened TextLines
  import opened TextOrder
  import opened ManifestScalars
  import opened MacManifest
  import opened ManifestRoundTrip
  import opened ManifestZip

  // ---- Which lines belong to the entry ----

  function Kinds(lines: seq<string>): (kinds: seq<Kind>)
    ensures |kinds| == |lines|
    ensures forall i :: 0 <= i < |lines| ==> kinds[i] == KindOf(lines[i])
  {
    seq(|lines|, i requires 0 <= i < |lines| => KindOf(lines[i]))
  }

  // The nearest url line above is that of the zip.
  ghost predicate InEntry(above: seq<Kind>, zip: string) {
    exists j :: 0 <= j < |above| && above[j] == Url(zip) && forall k :: j < k < |above| ==> !above[k].Url?
  }

  predicate IsPathOrTopSha(kind: Kind) {
    kind.Path? || kind == TopSha
  }

  // A matching path line above, with no other path and no top-level checksum in between.
  ghost predicate UnderPath(above: seq<Kind>, zip: string) {
    exists j :: 0 <= j < |above| && above[j] == Path(zip)
                && forall k :: j < k < |above| ==> !IsPathOrTopSha(above[k])
  }

  lemma InEntryMore(above: seq<Kind>, kind: Kind, zip: string)
    ensures InEntry(above + [kind], zip) <==> if kind.Url? then kind == Url(zip) else InEntry(above, zip)
  {
    var all := above + [kind];
    assert all[|above|] == kind;
    if InEntry(all, zip) {
      var j :| 0 <= j < |all| && all[j] == Url(zip) && forall k :: j < k < |all| ==> !all[k].Url?;
      if j < |above| {
        assert above[j] == Url(zip) && forall k :: j < k < |above| ==> above[k] == all[k];
      }
    }
    if InEntry(above, zip) && !kind.Url? {
      var j :| 0 <= j < |above| && above[j] == Url(zip) && forall k :: j < k < |above| ==> !above[k].Url?;
      assert all[j] == Url(zip) && forall k :: j < k < |above| ==> above[k] == all[k];
    }
  }

  lemma UnderPathMore(above: seq<Kind>, kind: Kind, zip: string)
    ensures UnderPath(above + [kind], zip) <==>
            if IsPathOrTopSha(kind) then kind == Path(zip) else UnderPath(above, zip)
  {
    var all := above + [kind];
    assert all[|above|] == kind;
    if UnderPath(all, zip) {
      var j :| 0 <= j < |all| && all[j] == Path(zip) && forall k :: j < k < |all| ==> !IsPathOrTopSha(all[k]);
      if j < |above| {
        assert above[j] == Path(zip) && forall k :: j < k < |above| ==> above[k] == all[k];
      }
    }
    if UnderPath(above, zip) && !IsPathOrTopSha(kind) {
      var j :| 0 <= j < |above| && above[j] == Path(zip) && forall k :: j < k < |above| ==> !IsPathOrTopSha(above[k]);
      assert all[j] == Path(zip) && forall k :: j < k < |above| ==> above[k] == all[k];
    }
  }

  lemma KindsOne(lines: seq<string>) returns (rest: seq<string>, last: string)
    requires lines != []
    ensures rest == lines[..|lines| - 1] && last == lines[|lines| - 1]
    ensures Kinds(lines) == Kinds(rest) + [KindOf(last)]
  {
    hide KindOf;
    rest, last := lines[..|lines| - 1], lines[|lines| - 1];
  }

  // A line of this kind in the zip's entry.
  ghost predicate EntryHas(lines: seq<Kind>, zip: string, kind: Kind) {
    exists i :: 0 <= i < |lines| && lines[i] == kind && InEntry(lines[..i], zip)
  }

  ghost predicate HasTopSha(lines: seq<Kind>, zip: string) {
    exists i :: 0 <= i < |lines| && lines[i] == TopSha && UnderPath(lines[..i], zip)
  }

  lemma EntryHasMore(lines: seq<Kind>, last: Kind, zip: string, kind: Kind)
    ensures EntryHas(lines + [last], zip, kind) <==> EntryHas(lines, zip, kind) || (last == kind && InEntry(lines, zip))
  {
    hide InEntry;
    var all := lines + [last];
    assert all[..|lines|] == lines && all[|lines|] == last;
    if EntryHas(lines, zip, kind) {
      var i :| 0 <= i < |lines| && lines[i] == kind && InEntry(lines[..i], zip);
      assert all[..i] == lines[..i] && all[i] == kind;
    }
    if EntryHas(all, zip, kind) {
      var i :| 0 <= i < |all| && all[i] == kind && InEntry(all[..i], zip);
      if i < |lines| {
        assert all[..i] == lines[..i] && lines[i] == kind;
      }
    }
  }

  lemma HasTopShaMore(lines: seq<Kind>, last: Kind, zip: string)
    ensures HasTopSha(lines + [last], zip) <==> HasTopSha(lines, zip) || (last == TopSha && UnderPath(lines, zip))
  {
    hide UnderPath;
    var all := lines + [last];
    assert all[..|lines|] == lines && all[|lines|] == last;
    if HasTopSha(lines, zip) {
      var i :| 0 <= i < |lines| && lines[i] == TopSha && UnderPath(lines[..i], zip);
      assert all[..i] == lines[..i] && all[i] == TopSha;
    }
    if HasTopSha(all, zip) {
      var i :| 0 <= i < |all| && all[i] == TopSha && UnderPath(all[..i], zip);
      if i < |lines| {
        assert all[..i] == lines[..i] && lines[i] == TopSha;
      }
    }
  }

  // What the flags of the pass stand for.
  lemma {:induction false} FlagsMean(lines: seq<string>, zip: string)
    ensures var p, kinds := After(lines, zip), Kinds(lines);
            && (p.inTarget <==> InEntry(kinds, zip))
            && (p.pathMatches <==> UnderPath(kinds, zip))
            && (p.shaUpdated <==> EntryHas(kinds, zip, Sha))
            && (p.sizeUpdated <==> EntryHas(kinds, zip, Size))
            && (p.topShaUpdated <==> HasTopSha(kinds, zip))
            && (p.pathFound <==> Path(zip) in kinds)
            && (p.shaUpdated || p.inTarget ==> p.found)
  {
    hide KindOf, EntryHas, HasTopSha, InEntry, UnderPath, Kinds;
    if lines == [] {
      NoFlags(zip);
    } else {
      var rest, last := KindsOne(lines);
      FlagsMean(rest, zip);
      InEntryMore(Kinds(rest), KindOf(last), zip);
      UnderPathMore(Kinds(rest), KindOf(last), zip);
      EntryHasMore(Kinds(rest), KindOf(last), zip, Sha);
      EntryHasMore(Kinds(rest), KindOf(last), zip, Size);
      HasTopShaMore(Kinds(rest), KindOf(last), zip);
    }
  }

  lemma NoFlags(zip: string)
    ensures var kinds := Kinds([]);
            && !InEntry(kinds, zip) && !UnderPath(kinds, zip) && !HasTopSha(kinds, zip) && Path(zip) !in kinds
            && !EntryHas(kinds, zip, Sha) && !EntryHas(kinds, zip, Size)
  {
  }

  // Updating succeeds exactly when the entry has a checksum and a size, and a top-level
  // checksum follows if its path is that of the zip.
  lemma UpdateSucceeds(manifest: string, zip: string, metadata: Metadata)
    ensures var kinds := Kinds(Lines(manifest));
            Update(manifest, zip, metadata).Ok? <==>
            && EntryHas(kinds, zip, Sha) && EntryHas(kinds, zip, Size)
            && (Path(zip) in kinds ==> HasTopSha(kinds, zip))
    ensures var kinds := Kinds(Lines(manifest));
            Update(manifest, zip, metadata) == Err(EntryNotUpdated) <==>
            !EntryHas(kinds, zip, Sha) || !EntryHas(kinds, zip, Size)
  {
    hide EntryHas, HasTopSha, KindOf, After, Kinds, Lines, Rewrite;
    FlagsMean(Lines(manifest), zip);
  }

  // ---- What becomes of each line ----

  // The line is dropped: a block map size in the zip's entry.
  ghost predicate Dropped(lines: seq<string>, zip: string, j: nat)
    requires j < |lines|
  {
    KindOf(lines[j]) == BlockMap && InEntry(Kinds(lines[..j]), zip)
  }

  ghost function DroppedAbove(lines: seq<string>, zip: string, i: nat): (n: nat)
    requires i <= |lines|
    ensures n <= i
  {
    if i == 0 then 0 else DroppedAbove(lines, zip, i - 1) + if Dropped(lines, zip, i - 1) then 1 else 0
  }

  // What stands in place of a line that is not dropped: the new checksum and size in the
  // zip's entry, the new checksum under its path, and everywhere else the line itself.
  ghost function NewLine(lines: seq<string>, zip: string, metadata: Metadata, i: nat): string
    requires i < |lines|
  {
    var kind, above := KindOf(lines[i]), Kinds(lines[..i]);
    if kind == Sha && InEntry(above, zip) then "    sha512: " + metadata.sha512
    else if kind == Size && InEntry(above, zip) then "    size: " + PrintSize(metadata.size)
    else if kind == TopSha && UnderPath(above, zip) then "sha512: " + metadata.sha512
    else lines[i]
  }

  // A line that is not dropped moves up by the dropped ones above it.
  ghost predicate LineIsNew(out: seq<string>, lines: seq<string>, zip: string, metadata: Metadata, i: nat)
    requires i < |lines|
  {
    !Dropped(lines, zip, i) ==>
      var at := i - DroppedAbove(lines, zip, i);
      at < |out| && out[at] == NewLine(lines, zip, metadata, i)
  }

  ghost predicate EachLineIsNew(out: seq<string>, lines: seq<string>, zip: string, metadata: Metadata) {
    && |out| == |lines| - DroppedAbove(lines, zip, |lines|)
    && forall i :: 0 <= i < |lines| ==> LineIsNew(out, lines, zip, metadata, i)
  }

  lemma NewFields(metadata: Metadata)
    ensures SHA + " " + metadata.sha512 == "    sha512: " + metadata.sha512
    ensures SIZE + " " + PrintSize(metadata.size) == "    size: " + PrintSize(metadata.size)
    ensures TOP_SHA + " " + metadata.sha512 == "sha512: " + metadata.sha512
  {
    assert SHA + " " == "    sha512: " && SIZE + " " == "    size: " && TOP_SHA + " " == "sha512: ";
  }

  lemma OneNewLine(lines: seq<string>, line: string, zip: string, metadata: Metadata)
    ensures var all := lines + [line];
            Replacement(After(lines, zip), line, metadata)
            == if Dropped(all, zip, |lines|) then [] else [NewLine(all, zip, metadata, |lines|)]
  {
    var all := lines + [line];
    assert all[..|lines|] == lines;
    FlagsMean(lines, zip);
    NewFields(metadata);
    hide KindOf, InEntry, UnderPath, After, Kinds, PrintSize;
  }

  lemma {:induction false} DroppedAboveOf(lines: seq<string>, line: string, zip: string, i: nat)
    requires i <= |lines|
    ensures DroppedAbove(lines + [line], zip, i) == DroppedAbove(lines, zip, i)
  {
    hide KindOf, InEntry, Kinds;
    if i > 0 {
      DroppedAboveOf(lines, line, zip, i - 1);
      SameLine(lines, line, zip, Metadata("", 0), i - 1);
    }
  }

  lemma SameLine(lines: seq<string>, line: string, zip: string, metadata: Metadata, i: nat)
    requires i < |lines|
    ensures Dropped(lines + [line], zip, i) <==> Dropped(lines, zip, i)
    ensures NewLine(lines + [line], zip, metadata, i) == NewLine(lines, zip, metadata, i)
  {
    assert (lines + [line])[..i] == lines[..i] && (lines + [line])[i] == lines[i];
  }

  lemma LineStaysNew(before: seq<string>, put: seq<string>, lines: seq<string>, line: string, zip: string,
                     metadata: Metadata, i: nat)
    requires i < |lines| && LineIsNew(before, lines, zip, metadata, i)
    ensures LineIsNew(before + put, lines + [line], zip, metadata, i)
  {
    hide NewLine, Dropped, DroppedAbove;
    DroppedAboveOf(lines, line, zip, i);
    SameLine(lines, line, zip, metadata, i);
    var at := i - DroppedAbove(lines, zip, i);
    assert at < |before| ==> (before + put)[at] == before[at];
  }

  lemma OneMoreLine(before: seq<string>, lines: seq<string>, line: string, zip: string, metadata: Metadata)
    requires EachLineIsNew(before, lines, zip, metadata)
    ensures var all := lines + [line];
            var put := if Dropped(all, zip, |lines|) then [] else [NewLine(all, zip, metadata, |lines|)];
            EachLineIsNew(before + put, all, zip, metadata)
  {
    hide NewLine, Dropped;
    var all := lines + [line];
    var put := if Dropped(all, zip, |lines|) then [] else [NewLine(all, zip, metadata, |lines|)];
    DroppedAboveOf(lines, line, zip, |lines|);
    assert LineIsNew(before + put, all, zip, metadata, |lines|);
    assert |before + put| == |all| - DroppedAbove(all, zip, |all|);
    hide LineIsNew, DroppedAbove;
    forall i | 0 <= i < |all|
      ensures LineIsNew(before + put, all, zip, metadata, i)
    {
      if i < |lines| {
        LineStaysNew(before, put, lines, line, zip, metadata, i);
      }
    }
  }

  // The rewritten lines are the lines that are not dropped, in their order, each as it
  // should now be.
  lemma {:induction false} RewriteEachLine(lines: seq<string>, zip: string, metadata: Metadata)
    ensures EachLineIsNew(Rewrite(lines, zip, metadata), lines, zip, metadata)
  {
    if lines != [] {
      hide After, NewLine, Dropped, Replacement, EachLineIsNew;
      var rest, line := lines[..|lines| - 1], lines[|lines| - 1];
      assert lines == rest + [line];
      RewriteEachLine(rest, zip, metadata);
      OneNewLine(rest, line, zip, metadata);
      OneMoreLine(Rewrite(rest, zip, metadata), rest, line, zip, metadata);
    }
  }

  // On any text on which it succeeds, the update is this rewriting of its lines.
  lemma UpdateEachLine(manifest: string, zip: string, metadata: Metadata) returns (out: seq<string>)
    requires Update(manifest, zip, metadata).Ok?
    ensures Update(manifest, zip, metadata).value == Join(out)
    ensures EachLineIsNew(out, Lines(manifest), zip, metadata)
  {
    hide Lines, Join, After, Rewrite, EachLineIsNew;
    out := Rewrite(Lines(manifest), zip, metadata);
    RewriteEachLine(Lines(manifest), zip, metadata);
  }

  // ---- What changes ----

  predicate Touched(p: Progress, kind: Kind) {
    (p.inTarget && (kind == Sha || kind == Size || kind == BlockMap)) || (p.pathMatches && kind == TopSha)
  }

  // The lines that are neither replaced nor dropped.
  function Kept(lines: seq<string>, zip: string): seq<string> {
    if lines == [] then []
    else
      var before, line := lines[..|lines| - 1], lines[|lines| - 1];
      Kept(before, zip) + if Touched(After(before, zip), KindOf(line)) then [] else [line]
  }

  lemma KeptOne(lines: seq<string>, line: string, zip: string)
    ensures Kept(lines + [line], zip)
         == Kept(lines, zip) + if Touched(After(lines, zip), KindOf(line)) then [] else [line]
  {
  }

  lemma NewFieldCaptured(prefix: string, value: string)
    requires OneLine(value)
    ensures Field(prefix, prefix + " " + value).Some?
  {
  }

  lemma NewShaKind(sha512: string)
    requires OneLine(sha512)
    ensures KindOf(SHA + " " + sha512) == Sha
  {
    PrefixFacts();
    NewFieldCaptured(SHA, sha512);
    assert (SHA + " " + sha512)[2] == ' ';
    hide Capture;
  }

  lemma NewTopShaKind(sha512: string)
    requires OneLine(sha512)
    ensures KindOf(TOP_SHA + " " + sha512) == TopSha
  {
    PrefixFacts();
    NewFieldCaptured(TOP_SHA, sha512);
    assert (TOP_SHA + " " + sha512)[0] == 's';
    hide Capture;
  }

  lemma SizeLineKind(n: FileSize)
    ensures KindOf(SIZE + " " + PrintSize(n)) == Size
  {
    PrefixFacts();
    var digits := PrintSize(n);
    PrintSizeOf(n);
    ParseUndoesPrintSize(n);
    hide Capture, PrintSize;
    var line := SIZE + " " + digits;
    assert line[2] == ' ' && line[5] == 'i';
    assert line[|SIZE|..] == " " + digits;
    SpaceCountOf(" ", digits);
    assert (" " + digits)[1..] == digits;
  }

  lemma ReplacementAgain(p: Progress, line: string, zip: string, metadata: Metadata)
    requires OneLine(metadata.sha512)
    ensures var put := Replacement(p, line, metadata);
            if put == [] then Advance(p, KindOf(line), zip) == p && Touched(p, KindOf(line))
            else
              && |put| == 1 && KindOf(put[0]) == KindOf(line)
              && Replacement(p, put[0], metadata) == put
              && (!Touched(p, KindOf(line)) ==> put == [line])
  {
    hide KindOf, OneLine, PrintSize;
    NewShaKind(metadata.sha512);
    NewTopShaKind(metadata.sha512);
    SizeLineKind(metadata.size);
  }

  // The rewritten lines are where the lines were: the pass goes over them with the same
  // flags and replaces nothing more, and the lines it keeps are the same ones in order.
  lemma {:induction false} RewriteIsStable(lines: seq<string>, zip: string, metadata: Metadata)
    requires OneLine(metadata.sha512)
    ensures var out := Rewrite(lines, zip, metadata);
            && After(out, zip) == After(lines, zip)
            && Rewrite(out, zip, metadata) == out
            && Kept(out, zip) == Kept(lines, zip)
  {
    if lines != [] {
      var rest, line := lines[..|lines| - 1], lines[|lines| - 1];
      RewriteIsStable(rest, zip, metadata);
      var out, p := Rewrite(rest, zip, metadata), After(rest, zip);
      ReplacementAgain(p, line, zip, metadata);
      hide KindOf, OneLine, Replacement, Touched, Advance;
      var put := Replacement(p, line, metadata);
      if put == [] {
        assert out + put == out;
      } else {
        assert put == [put[0]];
        AfterOne(out, put[0], zip, metadata);
        KeptOne(out, put[0], zip);
      }
    }
  }

  // ---- Updating twice ----

  lemma {:induction false} OneLineHasNoCr(s: string)
    requires OneLine(s)
    ensures CountCr(s) == 0
  {
    if s != "" {
      OneLineHasNoCr(s[1..]);
    }
  }

  lemma PrefixesOneLine()
    ensures OneLine(SHA) && OneLine(TOP_SHA) && OneLine(SIZE)
  {
  }

  lemma ReplacementIsOneLine(p: Progress, line: string, metadata: Metadata)
    requires OneLine(metadata.sha512)
    ensures Replacement(p, line, metadata) == [line]
         || forall i :: 0 <= i < |Replacement(p, line, metadata)| ==> OneLine(Replacement(p, line, metadata)[i])
  {
    PrefixesOneLine();
    hide KindOf, OneLine, PrintSize;
    PrintSizeOneLine(metadata.size);
    LinePartsOneLine(SHA, metadata.sha512);
    LinePartsOneLine(TOP_SHA, metadata.sha512);
    LinePartsOneLine(SIZE, PrintSize(metadata.size));
  }

  lemma ReplacementSize(p: Progress, line: string, metadata: Metadata)
    ensures |Replacement(p, line, metadata)| <= 1
  {
  }

  lemma {:induction false} RewriteCr(lines: seq<string>, zip: string, metadata: Metadata)
    requires OneLine(metadata.sha512)
    ensures CountCrs(Rewrite(lines, zip, metadata)) <= CountCrs(lines)
  {
    if lines != [] {
      var rest, line := lines[..|lines| - 1], lines[|lines| - 1];
      RewriteCr(rest, zip, metadata);
      var before, put := Rewrite(rest, zip, metadata), Replacement(After(rest, zip), line, metadata);
      ReplacementIsOneLine(After(rest, zip), line, metadata);
      ReplacementSize(After(rest, zip), line, metadata);
      hide Replacement, OneLine;
      if put == [] {
        assert before + put == before;
      } else {
        if put != [line] {
          OneLineHasNoCr(put[0]);
        }
        assert (before + put)[..|before|] == before;
      }
    }
  }

  lemma {:induction false} RewrittenLine(lines: seq<string>, zip: string, metadata: Metadata, i: nat)
    requires OneLine(metadata.sha512) && i < |Rewrite(lines, zip, metadata)|
    ensures Rewrite(lines, zip, metadata)[i] in lines || OneLine(Rewrite(lines, zip, metadata)[i])
  {
    if lines != [] {
      var rest, line := lines[..|lines| - 1], lines[|lines| - 1];
      ReplacementIsOneLine(After(rest, zip), line, metadata);
      hide Replacement, OneLine;
      if i < |Rewrite(rest, zip, metadata)| {
        RewrittenLine(rest, zip, metadata, i);
      }
    }
  }

  // A line that ends in a carriage return matches no pattern of the pass.
  lemma CrLineIsOther(line: string)
    requires EndsInCr(line)
    ensures KindOf(line) == Other
  {
    PrefixFacts();
    hide SpaceCount, StripQuotes, Trim;
    assert IsLineTerminator(line[|line| - 1]);
  }

  predicate HasCr(lines: seq<string>) {
    exists i :: 0 <= i < |lines| && EndsInCr(lines[i])
  }

  lemma HasCrMore(lines: seq<string>, line: string)
    ensures HasCr(lines + [line]) <==> HasCr(lines) || EndsInCr(line)
    ensures InnerCr(lines + [line]) <==> HasCr(lines)
  {
    hide EndsInCr;
    var all := lines + [line];
    assert all[|lines|] == line;
    if HasCr(lines) {
      var i :| 0 <= i < |lines| && EndsInCr(lines[i]);
      assert all[i] == lines[i];
      InnerCrAt(all, i);
    }
    if InnerCr(all) {
      var i := InnerCrIndex(all);
      assert all[i] == lines[i];
    }
  }

  lemma ReplacementCr(p: Progress, line: string, metadata: Metadata)
    requires OneLine(metadata.sha512)
    ensures var put := Replacement(p, line, metadata);
            && (put == [] <==> p.inTarget && KindOf(line) == BlockMap)
            && (put == [] ==> !EndsInCr(line))
            && (put != [] ==> |put| == 1 && (EndsInCr(put[0]) <==> EndsInCr(line)))
  {
    ReplacementIsOneLine(p, line, metadata);
    if EndsInCr(line) {
      CrLineIsOther(line);
    }
    hide KindOf, PrintSize;
  }

  lemma {:induction false} RewriteHasCr(lines: seq<string>, zip: string, metadata: Metadata)
    requires OneLine(metadata.sha512)
    ensures HasCr(Rewrite(lines, zip, metadata)) <==> HasCr(lines)
  {
    hide EndsInCr, OneLine, Replacement, HasCr;
    if lines != [] {
      var rest, line := lines[..|lines| - 1], lines[|lines| - 1];
      RewriteHasCr(rest, zip, metadata);
      assert lines == rest + [line];
      HasCrMore(rest, line);
      ReplacementCr(After(rest, zip), line, metadata);
      var before, put := Rewrite(rest, zip, metadata), Replacement(After(rest, zip), line, metadata);
      if put == [] {
        assert before + put == before;
      } else {
        assert put == [put[0]];
        HasCrMore(before, put[0]);
      }
    }
  }

  // A carriage return at the end of a line, with a line below it that stays.
  ghost predicate StrayCr(lines: seq<string>, zip: string) {
    exists i, j :: 0 <= i < j < |lines| && EndsInCr(lines[i]) && !Dropped(lines, zip, j)
  }

  lemma StrayCrMore(lines: seq<string>, line: string, zip: string)
    ensures var all := lines + [line];
            StrayCr(all, zip) <==> if Dropped(all, zip, |lines|) then StrayCr(lines, zip) else HasCr(lines)
  {
    hide EndsInCr, KindOf, InEntry, Kinds;
    var all := lines + [line];
    assert forall j :: 0 <= j <= |lines| ==> all[..j] == lines[..j];
    assert forall j :: 0 <= j < |lines| ==> all[j] == lines[j] && Dropped(all, zip, j) == Dropped(lines, zip, j);
    if HasCr(lines) && !Dropped(all, zip, |lines|) {
      var i :| 0 <= i < |lines| && EndsInCr(lines[i]);
      assert EndsInCr(all[i]);
    }
    if StrayCr(lines, zip) {
      var i, j :| 0 <= i < j < |lines| && EndsInCr(lines[i]) && !Dropped(lines, zip, j);
      assert EndsInCr(all[i]) && !Dropped(all, zip, j);
    }
  }

  lemma {:induction false} RewriteStrayCr(lines: seq<string>, zip: string, metadata: Metadata)
    requires OneLine(metadata.sha512)
    ensures InnerCr(Rewrite(lines, zip, metadata)) <==> StrayCr(lines, zip)
  {
    hide EndsInCr, OneLine, Replacement, HasCr, StrayCr, KindOf, InEntry, Kinds;
    if lines == [] {
      NoStrayCr(zip);
    } else {
      var rest, line := lines[..|lines| - 1], lines[|lines| - 1];
      RewriteStrayCr(rest, zip, metadata);
      RewriteHasCr(rest, zip, metadata);
      assert lines == rest + [line];
      StrayCrMore(rest, line, zip);
      FlagsMean(rest, zip);
      ReplacementCr(After(rest, zip), line, metadata);
      var before, put := Rewrite(rest, zip, metadata), Replacement(After(rest, zip), line, metadata);
      if put == [] {
        assert before + put == before;
      } else {
        assert put == [put[0]];
        HasCrMore(before, put[0]);
      }
    }
  }

  lemma NoStrayCr(zip: string)
    ensures !StrayCr([], zip)
  {
  }

  lemma StrayCrIsInner(lines: seq<string>, zip: string)
    requires StrayCr(lines, zip)
    ensures InnerCr(lines)
  {
    hide Dropped;
    var i, j :| 0 <= i < j < |lines| && EndsInCr(lines[i]) && !Dropped(lines, zip, j);
    InnerCrAt(lines, i);
  }

  lemma {:induction false} RewriteHasNoLf(lines: seq<string>, zip: string, metadata: Metadata)
    requires OneLine(metadata.sha512) && forall i :: 0 <= i < |lines| ==> '\n' !in lines[i]
    ensures var out := Rewrite(lines, zip, metadata); forall i :: 0 <= i < |out| ==> '\n' !in out[i]
  {
    var out := Rewrite(lines, zip, metadata);
    forall i | 0 <= i < |out|
      ensures '\n' !in out[i]
    {
      RewrittenLine(lines, zip, metadata, i);
    }
  }

  lemma {:induction false} FoundIsNotEmpty(lines: seq<string>, zip: string, metadata: Metadata)
    requires After(lines, zip).found
    ensures Rewrite(lines, zip, metadata) != []
  {
    hide KindOf;
    var rest, line := lines[..|lines| - 1], lines[|lines| - 1];
    if After(rest, zip).found {
      FoundIsNotEmpty(rest, zip, metadata);
    }
  }

  // A second update changes nothing, exactly when no line ends in a carriage return above
  // a line that stays; and only two carriage returns in front of a line feed leave one
  // there.
  lemma UpdateTwice(manifest: string, zip: string, metadata: Metadata)
    requires OneLine(metadata.sha512) && Update(manifest, zip, metadata).Ok?
    ensures var once := Update(manifest, zip, metadata);
            Update(once.value, zip, metadata) == once <==> !StrayCr(Lines(manifest), zip)
    ensures StrayCr(Lines(manifest), zip) ==> Contains(manifest, "\r\r\n")
  {
    hide Lines, Join, After, Rewrite, InnerCr, Contains, CountCr, CountCrs, OneLine, Kept, StrayCr;
    var lines := Lines(manifest);
    var out := Rewrite(lines, zip, metadata);
    var once := Join(out);
    FoundIsNotEmpty(lines, zip, metadata);
    RewriteHasNoLf(lines, zip, metadata);
    JoinedCrLf(out);
    RewriteStrayCr(lines, zip, metadata);
    if StrayCr(lines, zip) {
      StrayCrIsInner(lines, zip);
      SplitLeavesCr(manifest);
      if Update(once, zip, metadata) == Ok(once) {
        SecondLosesCr(once, zip, metadata);
      }
    } else {
      SplitUndoesJoin(out);
      RewriteIsStable(lines, zip, metadata);
    }
  }

  lemma SecondLosesCr(text: string, zip: string, metadata: Metadata)
    requires OneLine(metadata.sha512) && Contains(text, "\r\n") && Update(text, zip, metadata).Ok?
    ensures Update(text, zip, metadata) != Ok(text)
  {
    hide Lines, Join, After, Rewrite, InnerCr, Contains, CountCr, CountCrs, OneLine;
    FoundIsNotEmpty(Lines(text), zip, metadata);
    RewriteCr(Lines(text), zip, metadata);
    CountCrLines(text);
    CountCrJoin(Rewrite(Lines(text), zip, metadata));
  }

  // ---- Rewriting text is rewriting data ----

  // Every entry of the zip gets the new checksum and size.
  function ReplaceFile(f: File, zip: string, metadata: Metadata): File {
    if f.url == zip then File(f.url, metadata.sha512, metadata.size) else f
  }

  function ReplaceFiles(files: seq<File>, zip: string, metadata: Metadata): (r: seq<File>)
    ensures |r| == |files|
    ensures forall i :: 0 <= i < |files| ==> r[i] == ReplaceFile(files[i], zip, metadata)
  {
    if files == [] then []
    else ReplaceFiles(files[..|files| - 1], zip, metadata) + [ReplaceFile(files[|files| - 1], zip, metadata)]
  }

  function Replaced(m: Manifest, zip: string, metadata: Metadata): Manifest {
    m.(files := ReplaceFiles(m.files, zip, metadata))
  }

  lemma BareUrlKind(url: string)
    requires OneLine(url) && Bare(url)
    ensures KindOf(URL + " " + url) == Url(url)
  {
    FieldOf(URL, url);
  }

  lemma KeyPrefix(key: string, other: string, line: string)
    requires IsKey(key) && IsKey(other) && key + ":" <= line && other + ":" <= line
    ensures key == other
  {
    assert line[|key|] == (key + ":")[|key|] && line[|other|] == (other + ":")[|other|];
    assert line == key + line[|key|..] && line == other + line[|other|..];
    KeyCountOf(key, line[|key|..]);
    KeyCountOf(other, line[|other|..]);
  }

  lemma KeyLineKind(key: string, value: string)
    requires IsKey(key) && key != "path" && key != "sha512"
    ensures KindOf(KeyLine(key, value)) == Other
  {
    var line := KeyLine(key, value);
    assert key + ":" <= line && line[0] == key[0];
    PrefixFacts();
    assert PATH == "path" + ":" && TOP_SHA == "sha512" + ":";
    PathAndShaAreKeys();
    hide Capture, HasNumber;
    assert !(URL <= line) && !(SHA <= line);
    NotIndented(line);
    if PATH <= line {
      KeyPrefix(key, "path", line);
    }
    if TOP_SHA <= line {
      KeyPrefix(key, "sha512", line);
    }
  }

  lemma NotIndented(line: string)
    requires line != "" ==> line[0] != ' '
    ensures !HasNumber(SIZE, line) && !HasNumber(BLOCK_MAP, line) && !(URL <= line) && !(SHA <= line)
  {
  }

  lemma PathAndShaAreKeys()
    ensures IsKey("path") && IsKey("sha512")
  {
  }

  lemma FixedLineKinds()
    ensures KindOf("files:") == Other && KindOf("") == Other
  {
    PrefixFacts();
    assert "files:"[0] == 'f';
    NotIndented("files:");
    NotIndented("");
    hide HasNumber, Capture;
  }

  predicate AllOther(lines: seq<string>) {
    forall i :: 0 <= i < |lines| ==> KindOf(lines[i]) == Other
  }

  lemma {:induction false} OthersAreKept(lines: seq<string>, others: seq<string>, zip: string, metadata: Metadata)
    requires AllOther(others)
    ensures After(lines + others, zip) == After(lines, zip)
    ensures Rewrite(lines + others, zip, metadata) == Rewrite(lines, zip, metadata) + others
  {
    hide KindOf, After, Rewrite;
    if others == [] {
      assert lines + others == lines;
      assert Rewrite(lines, zip, metadata) + others == Rewrite(lines, zip, metadata);
    } else {
      var rest, last := others[..|others| - 1], others[|others| - 1];
      OthersAreKept(lines, rest, zip, metadata);
      assert rest + [last] == others;
      Associate(lines, rest, [last]);
      OtherIsKept(lines + rest, last, zip, metadata);
      Associate(Rewrite(lines, zip, metadata), rest, [last]);
    }
  }

  lemma OtherIsKept(lines: seq<string>, line: string, zip: string, metadata: Metadata)
    requires KindOf(line) == Other
    ensures After(lines + [line], zip) == After(lines, zip)
    ensures Rewrite(lines + [line], zip, metadata) == Rewrite(lines, zip, metadata) + [line]
  {
  }

  // The lines around the file entries stay.
  lemma {:induction false} ExtrasAreOther(keys: seq<string>, all: map<string, Scalar>)
    requires forall i :: 0 <= i < |keys| ==> keys[i] in all && LegalKey(keys[i])
    ensures AllOther(ExtraLines(keys, all))
  {
    if keys != [] {
      var last := keys[|keys| - 1];
      ExtrasAreOther(keys[..|keys| - 1], all);
      KeyLineKind(last, PrintScalar(all[last]));
      hide KindOf, PrintScalar, KeyLine, LegalKey;
    }
  }

  // The pass after the entries of these files, having started without any.
  ghost predicate PassedFiles(p: Progress, files: seq<File>, zip: string) {
    && !p.pathMatches && !p.pathFound && !p.topShaUpdated
    && p.found == p.shaUpdated == p.sizeUpdated == (exists i :: 0 <= i < |files| && files[i].url == zip)
  }

  lemma PassedMore(p: Progress, files: seq<File>, last: File, zip: string, q: Progress)
    requires PassedFiles(p, files, zip)
    requires var hit := last.url == zip;
             q == p.(inTarget := hit, found := p.found || hit, shaUpdated := p.shaUpdated || hit,
                     sizeUpdated := p.sizeUpdated || hit)
    ensures PassedFiles(q, files + [last], zip)
  {
    var all := files + [last];
    assert all[|files|] == last;
    if p.found {
      var i :| 0 <= i < |files| && files[i].url == zip;
      assert all[i].url == zip;
    }
  }

  lemma ThreeLines(lines: seq<string>, url: string, sha: string, size: string, zip: string, metadata: Metadata)
    requires KindOf(url).Url? && KindOf(sha) == Sha && KindOf(size) == Size
    ensures var p, hit := After(lines, zip), KindOf(url).name == zip;
            && After(lines + [url, sha, size], zip)
               == p.(inTarget := hit, found := p.found || hit, shaUpdated := p.shaUpdated || hit,
                     sizeUpdated := p.sizeUpdated || hit)
            && Rewrite(lines + [url, sha, size], zip, metadata)
               == Rewrite(lines, zip, metadata) + [url]
                  + (if hit then [SHA + " " + metadata.sha512, SIZE + " " + PrintSize(metadata.size)] else [sha, size])
  {
    hide KindOf, PrintSize, After, Rewrite;
    assert lines + [url, sha, size] == lines + [url] + [sha] + [size];
    AfterOne(lines, url, zip, metadata);
    AfterOne(lines + [url], sha, zip, metadata);
    AfterOne(lines + [url] + [sha], size, zip, metadata);
  }

  lemma OneEntry(lines: seq<string>, f: File, zip: string, metadata: Metadata)
    requires OneLine(f.url) && OneLine(f.sha512) && Bare(f.url) && f.size < EXPONENT_FROM
    ensures var p, hit := After(lines, zip), f.url == zip;
            After(lines + FileEntry(f), zip)
            == p.(inTarget := hit, found := p.found || hit, shaUpdated := p.shaUpdated || hit,
                  sizeUpdated := p.sizeUpdated || hit)
    ensures Rewrite(lines + FileEntry(f), zip, metadata)
         == Rewrite(lines, zip, metadata) + FileEntry(ReplaceFile(f, zip, metadata))
  {
    hide KindOf, OneLine, Bare, PrintSize, After, Rewrite;
    BareUrlKind(f.url);
    NewShaKind(f.sha512);
    SizeLineKind(f.size);
    ThreeLines(lines, URL + " " + f.url, SHA + " " + f.sha512, SIZE + " " + PrintSize(f.size), zip, metadata);
  }

  lemma {:induction false} EntriesAreRewritten(lines: seq<string>, files: seq<File>, zip: string, metadata: Metadata)
    requires LegibleFiles(files) && BareFiles(files) && PassedFiles(After(lines, zip), [], zip)
    ensures PassedFiles(After(lines + FileLines(files), zip), files, zip)
    ensures Rewrite(lines + FileLines(files), zip, metadata)
         == Rewrite(lines, zip, metadata) + FileLines(ReplaceFiles(files, zip, metadata))
  {
    hide OneLine, Bare, After, Rewrite, PassedFiles, FileEntry, ReplaceFile;
    if files == [] {
      assert lines + FileLines(files) == lines;
    } else {
      var rest, last := files[..|files| - 1], files[|files| - 1];
      EntriesAreRewritten(lines, rest, zip, metadata);
      var before := lines + FileLines(rest);
      OneEntry(before, last, zip, metadata);
      Associate(lines, FileLines(rest), FileEntry(last));
      PassedMore(After(before, zip), rest, last, zip, After(before + FileEntry(last), zip));
      assert rest + [last] == files;
      EntriesOf(files, zip, metadata);
      Associate(Rewrite(lines, zip, metadata), FileLines(ReplaceFiles(rest, zip, metadata)),
                FileEntry(ReplaceFile(last, zip, metadata)));
    }
  }

  lemma EntriesOf(files: seq<File>, zip: string, metadata: Metadata)
    requires files != []
    ensures var rest, last := files[..|files| - 1], files[|files| - 1];
            FileLines(ReplaceFiles(files, zip, metadata))
            == FileLines(ReplaceFiles(rest, zip, metadata)) + FileEntry(ReplaceFile(last, zip, metadata))
  {
  }

  lemma HeaderIsOther(version: string)
    ensures AllOther([KeyLine("version", version), "files:"])
  {
    KeysAreKeys();
    FixedLineKinds();
    assert "version"[0] == 'v';
    KeyLineKind("version", version);
    hide KindOf, KeyLine;
  }

  lemma DateIsOther(date: string)
    ensures AllOther([KeyLine("releaseDate", date)]) && AllOther([""])
  {
    KeysAreKeys();
    FixedLineKinds();
    assert "releaseDate"[0] == 'r';
    KeyLineKind("releaseDate", date);
    hide KindOf, KeyLine;
  }

  lemma LegalKeys(m: Manifest)
    requires Legible(m)
    ensures var keys := SortedKeys(m.extras.Keys);
            forall i :: 0 <= i < |keys| ==> keys[i] in m.extras && LegalKey(keys[i])
  {
  }

  lemma RewritePrinted(m: Manifest, zip: string, metadata: Metadata)
    requires WellFormed(m)
    ensures Rewrite(PrintLines(m), zip, metadata) == PrintLines(Replaced(m, zip, metadata))
    ensures PassedFiles(After(PrintLines(m), zip), m.files, zip)
  {
    var header := [KeyLine("version", m.version), "files:"];
    var files, extras := FileLines(m.files), ExtraLines(SortedKeys(m.extras.Keys), m.extras);
    var date := [KeyLine("releaseDate", Quote(m.releaseDate))];
    HeaderIsOther(m.version);
    LegalKeys(m);
    ExtrasAreOther(SortedKeys(m.extras.Keys), m.extras);
    DateIsOther(Quote(m.releaseDate));
    assert After([], zip) == BEGIN && Rewrite([], zip, metadata) == [] && PassedFiles(BEGIN, [], zip);
    hide KeyLine, After, Rewrite, FileLines, ExtraLines, SortedKeys, AllOther, PassedFiles, Quote, LegibleFiles,
      BareFiles, PlainText, LegalKey, OneLine, WellFormedScalar, ReplaceFiles;
    assert [] + header == header;
    OthersAreKept([], header, zip, metadata);
    EntriesAreRewritten(header, m.files, zip, metadata);
    OthersAreKept(header + files, extras, zip, metadata);
    OthersAreKept(header + files + extras, date, zip, metadata);
    OthersAreKept(header + files + extras + date, [""], zip, metadata);
  }

  // Updating the printed text of a manifest is printing the updated manifest.
  lemma UpdatePrinted(m: Manifest, zip: string, metadata: Metadata)
    requires WellFormed(m)
    ensures Update(Print(m), zip, metadata)
         == if exists i :: 0 <= i < |m.files| && m.files[i].url == zip
            then Ok(Print(Replaced(m, zip, metadata)))
            else Err(EntryNotUpdated)
  {
    hide Lines, PrintLines, Join, After, Rewrite, Legible, PlainText, BareFiles, Replaced;
    RewritePrinted(m, zip, metadata);
    PrintedLines(m);
  }

  lemma PrintedLines(m: Manifest)
    requires WellFormed(m)
    ensures Lines(Print(m)) == PrintLines(m)
  {
    PrintLinesIsHeaderAndBody(m);
    hide PrintLines, Lines, Join, BodyLines, KeyLine, PlainText, BareFiles, LegibleFiles, OneLine, LegalKey,
      WellFormedScalar;
    HeaderAndBodyLines(m, m.version);
  }

  lemma ReplacedIsWellFormed(m: Manifest, zip: string, metadata: Metadata)
    requires WellFormed(m) && OneLine(metadata.sha512) && Bare(metadata.sha512)
    ensures WellFormed(Replaced(m, zip, metadata))
  {
    hide PlainText, OneLine, Bare, LegalKey, WellFormedScalar;
    assert |Replaced(m, zip, metadata).files| == |m.files|;
  }

  // So what is parsed from the updated text is the updated manifest.
  lemma UpdateThenParse(m: Manifest, zip: string, metadata: Metadata)
    requires WellFormed(m) && OneLine(metadata.sha512) && Bare(metadata.sha512)
    requires exists i :: 0 <= i < |m.files| && m.files[i].url == zip
    ensures Update(Print(m), zip, metadata).Ok?
    ensures Parse(Update(Print(m), zip, metadata).value) == Ok(Replaced(m, zip, metadata))
  {
    hide WellFormed, Print, Parse, Update, Replaced;
    UpdatePrinted(m, zip, metadata);
    ReplacedIsWellFormed(m, zip, metadata);
    RoundTrip(Replaced(m, zip, metadata));
  }

  // ---- A text on which updating twice differs ----

  lemma LinesOfThree(a: string, b: string, c: string, rest: string)
    requires OneLine(a) && OneLine(b) && OneLine(c)
    ensures Lines(a + "\n" + (b + "\n" + (c + "\n" + rest))) == [a, b, c] + Lines(rest)
  {
    hide Lines, OneLine, EndsInCr;
    OneLineEnd(a);
    OneLineEnd(b);
    OneLineEnd(c);
    LinesOfFirst(a, b + "\n" + (c + "\n" + rest));
    LinesOfFirst(b, c + "\n" + rest);
    LinesOfFirst(c, rest);
    Associate([b], [c], Lines(rest));
    Associate([a], [b, c], Lines(rest));
    assert [b] + [c] == [b, c] && [a] + [b, c] == [a, b, c];
  }

  lemma OneLineEnd(s: string)
    requires OneLine(s)
    ensures '\n' !in s && !EndsInCr(s)
  {
  }

  lemma TrailingLines()
    ensures Lines("\r\r\n") == ["\r", ""]
    ensures KindOf("\r") == Other && KindOf("") == Other
  {
    var s := "\r\r\n";
    assert s[1..] == "\r\n" && s[1..][2..] == "";
    assert Lines("\r\n") == ["", ""];
    assert s[0] == '\r' && s[1] == '\r' && [s[0]] + "" == "\r";
    assert "\r"[0] == '\r';
    PrefixFacts();
    NotIndented("\r");
    NotIndented("");
    hide HasNumber, Capture;
  }

  // With two carriage returns in front of a line feed, the first update leaves one of
  // them and the second one takes it away.
  lemma UpdateTwiceDiffers(zip: string, metadata: Metadata) returns (manifest: string)
    requires OneLine(zip) && Bare(zip) && OneLine(metadata.sha512)
    ensures Update(manifest, zip, metadata).Ok?
    ensures Update(Update(manifest, zip, metadata).value, zip, metadata) != Update(manifest, zip, metadata)
  {
    hide KindOf, PrintSize, After, Rewrite, Lines, Join, Bare, Contains, StrayCr;
    var url, sha, size := URL + " " + zip, SHA + " " + metadata.sha512, SIZE + " " + PrintSize(metadata.size);
    manifest := url + "\n" + (sha + "\n" + (size + "\n" + "\r\r\n"));
    EntryIsOneLine(zip, metadata);
    hide OneLine;
    LinesOfThree(url, sha, size, "\r\r\n");
    TrailingLines();
    BareUrlKind(zip);
    NewShaKind(metadata.sha512);
    SizeLineKind(metadata.size);
    NoLines(zip, metadata);
    ThreeLines([], url, sha, size, zip, metadata);
    var lines := [url, sha, size];
    assert [] + lines == lines && [] + [url] + [sha, size] == lines;
    OthersAreKept(lines, ["\r", ""], zip, metadata);
    LeavesStrayCr(lines, zip);
    UpdateTwice(manifest, zip, metadata);
  }

  lemma NoLines(zip: string, metadata: Metadata)
    ensures After([], zip) == BEGIN && Rewrite([], zip, metadata) == []
  {
  }

  lemma EntryIsOneLine(zip: string, metadata: Metadata)
    requires OneLine(zip) && OneLine(metadata.sha512)
    ensures OneLine(URL + " " + zip) && OneLine(SHA + " " + metadata.sha512)
    ensures OneLine(SIZE + " " + PrintSize(metadata.size))
  {
    assert OneLine(URL);
    PrefixesOneLine();
    PrintSizeOneLine(metadata.size);
    hide OneLine, PrintSize;
    LinePartsOneLine(URL, zip);
    LinePartsOneLine(SHA, metadata.sha512);
    LinePartsOneLine(SIZE, PrintSize(metadata.size));
  }

  lemma LeavesStrayCr(lines: seq<string>, zip: string)
    requires KindOf("") == Other
    ensures StrayCr(lines + ["\r", ""], zip)
  {
    hide KindOf, InEntry, Kinds;
    var all := lines + ["\r", ""];
    assert EndsInCr(all[|lines|]) && all[|lines| + 1] == "" && !Dropped(all, zip, |lines| + 1);
  }

  // A checksum of two lines is replaced by its first line only, and its second line is
  // written again: digests have to be of one line.
  lemma TwoLineChecksumAddsALine(zip: string, size: FileSize) returns (manifest: string, metadata: Metadata)
    requires OneLine(zip) && Bare(zip)
    ensures Update(manifest, zip, metadata).Ok?
    ensures Update(Update(manifest, zip, metadata).value, zip, metadata) != Update(manifest, zip, metadata)
  {
    metadata := Metadata("x\ny", size);
    hide KindOf, PrintSize, After, Rewrite, Lines, Bare, OneLine, Join;
    var url, bytes := URL + " " + zip, SIZE + " " + PrintSize(size);
    var first, both := SHA + " " + "x", SHA + " " + "x\ny";
    OneLetters();
    EntryIsOneLine(zip, Metadata("x", size));
    BareUrlKind(zip);
    NewShaKind("x");
    SizeLineKind(size);
    NoLines(zip, metadata);
    assert [] + [url, first, bytes] == [url, first, bytes] && [] + [url] + [both, bytes] == [url, both, bytes];
    ThreeLines([], url, first, bytes, zip, metadata);
    manifest := Join([url, first, bytes]);
    ThreeAreOneLine(url, first, bytes);
    var once := Join([url, both, bytes]);
    assert Update(manifest, zip, metadata) == Ok(once);
    JoinedThree(url, both, bytes);
    SplitChecksum(url, first, both, bytes);
    assert [] + [url] + [first] + ["y"] + [bytes] == [url, first, "y", bytes];
    AfterOne([], url, zip, metadata);
    AfterOne([] + [url], first, zip, metadata);
    AfterOne([] + [url] + [first], "y", zip, metadata);
    AfterOne([] + [url] + [first] + ["y"], bytes, zip, metadata);
    assert Rewrite([url, first, "y", bytes], zip, metadata) == [url, both, "y", bytes];
    JoinedFour(url, both, "y", bytes);
  }

  lemma OneLetters()
    ensures OneLine("x") && OneLine("y") && KindOf("y") == Other
  {
  }

  lemma ThreeAreOneLine(a: string, b: string, c: string)
    requires OneLine(a) && OneLine(b) && OneLine(c)
    ensures Lines(Join([a, b, c])) == [a, b, c]
  {
    assert AllOneLine([a, b, c]);
    OneLinesSurviveJoining([a, b, c]);
  }

  lemma JoinedThree(a: string, b: string, c: string)
    ensures Join([a, b, c]) == a + "\n" + (b + "\n" + c)
  {
    assert [a, b, c][1..] == [b, c] && [b, c][1..] == [c];
    assert Join([c]) == c;
    assert Join([b, c]) == b + "\n" + c;
  }

  lemma JoinedFour(a: string, b: string, c: string, d: string)
    ensures |Join([a, b, c, d])| == |a| + |b| + |c| + |d| + 3
  {
    assert [a, b, c, d][1..] == [b, c, d];
    JoinedThree(b, c, d);
  }

  lemma SplitChecksum(url: string, first: string, both: string, bytes: string)
    requires OneLine(url) && OneLine(first) && OneLine("y") && OneLine(bytes) && both == first + "\ny"
    ensures Lines(url + "\n" + (both + "\n" + bytes)) == [url, first, "y", bytes]
  {
    hide Lines, OneLine;
    assert both + "\n" + bytes == first + "\n" + ("y" + "\n" + bytes);
    LinesOfThree(url, first, "y", bytes);
    OneLineEnd(bytes);
    LinesOfOne(bytes);
  }
}
