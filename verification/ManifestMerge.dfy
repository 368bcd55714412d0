// Merging the update manifests of two architectures
// (scripts/merge-mac-update-manifests.ts).
module ManifestMerge {
  import opened Wrappers
  import TextLines
  import opened TextOrder
  import opened ManifestScalars
  import opened MacManifest
  import opened ManifestRoundTrip

  datatype MergeError = DifferentVersions | ConflictingFile | ConflictingExtra

  // ---- Files ----

  // The entry a map keyed by url, kept in order of insertion, has for this url.
  function Find(files: seq<File>, url: string): (r: Option<File>)
    ensures r.Some? ==> r.value in files && r.value.url == url
    ensures r.None? ==> forall f :: f in files ==> f.url != url
  {
    if files == [] then None
    else if files[0].url == url then Some(files[0])
    else Find(files[1..], url)
  }

  // Adds the files one by one.
  function Collect(files: seq<File>): Option<seq<File>> {
    if files == [] then Some([])
    else match Collect(files[..|files| - 1])
      case None => None
      case Some(known) => Add(known, files[|files| - 1])
  }

  function Add(known: seq<File>, file: File): Option<seq<File>> {
    match Find(known, file.url)
    case None => Some(known + [file])
    case Some(existing) => if existing == file then Some(known) else None
  }

  predicate Consistent(files: seq<File>) {
    forall f, g :: f in files && g in files && f.url == g.url ==> f == g
  }

  predicate UniqueUrls(files: seq<File>) {
    forall i, j :: 0 <= i < j < |files| ==> files[i].url != files[j].url
  }

  lemma AddOne(known: seq<File>, file: File)
    requires UniqueUrls(known)
    ensures Add(known, file).Some? <==> forall f :: f in known && f.url == file.url ==> f == file
    ensures Add(known, file).Some? ==>
              && UniqueUrls(Add(known, file).value)
              && forall f :: f in Add(known, file).value <==> f in known || f == file
  {
  }

  lemma UniqueUrl(known: seq<File>, file: File, url: string)
    requires UniqueUrls(known) && file in known && file.url == url
    ensures forall f :: f in known && f.url == url ==> f == file
  {
  }

  // Collecting succeeds exactly on lists without conflicting entries, and then has every
  // entry once.
  lemma {:induction false} CollectMeans(files: seq<File>)
    ensures Collect(files).Some? <==> Consistent(files)
    ensures Collect(files).Some? ==>
              UniqueUrls(Collect(files).value) && forall f :: f in Collect(files).value <==> f in files
  {
    if files != [] {
      var rest, last := files[..|files| - 1], files[|files| - 1];
      CollectMeans(rest);
      hide Find, Add, UniqueUrls;
      assert forall f :: f in files <==> f in rest || f == last;
      if Collect(rest).Some? {
        AddOne(Collect(rest).value, last);
      }
    }
  }

  function First(files: seq<File>, f: File): (i: nat)
    requires f in files
    ensures i < |files| && files[i] == f && f !in files[..i]
  {
    if files[0] == f then 0 else
      var i := 1 + First(files[1..], f);
      assert files[..i] == [files[0]] + files[1..][..i - 1];
      i
  }

  lemma {:induction false} FirstInPrefix(files: seq<File>, last: File, f: File)
    requires f in files
    ensures First(files + [last], f) == First(files, f)
  {
    if files[0] != f {
      assert (files + [last])[1..] == files[1..] + [last];
      FirstInPrefix(files[1..], last, f);
    }
  }

  // The collected entries come in the order in which they first occur.
  lemma {:induction false} CollectKeepsOrder(files: seq<File>, i: nat, j: nat)
    requires Collect(files).Some? && i < j < |Collect(files).value|
    ensures var r := Collect(files).value;
            r[i] in files && r[j] in files && First(files, r[i]) < First(files, r[j])
  {
    var rest, last := files[..|files| - 1], files[|files| - 1];
    assert files == rest + [last];
    var known, r := Collect(rest).value, Collect(files).value;
    CollectMeans(files);
    CollectMeans(rest);
    assert known <= r && r[i] == known[i] && known[i] in rest;
    FirstInPrefix(rest, last, r[i]);
    if j < |known| {
      CollectKeepsOrder(rest, i, j);
      assert known[j] in rest;
      FirstInPrefix(rest, last, r[j]);
    } else {
      assert r[j] == last && last !in rest by { assert Find(known, last.url).None?; }
    }
  }

  lemma {:induction false} CollectUnique(files: seq<File>)
    requires UniqueUrls(files)
    ensures Collect(files) == Some(files)
  {
    if files != [] {
      var rest, last := files[..|files| - 1], files[|files| - 1];
      CollectUnique(rest);
      assert files == rest + [last];
    }
  }

  lemma {:induction false} CollectTwice(files: seq<File>, i: nat)
    requires UniqueUrls(files) && i <= |files|
    ensures Collect(files + files[..i]) == Some(files)
  {
    if i == 0 {
      CollectUnique(files);
      assert files + files[..0] == files;
    } else {
      var twice := files + files[..i];
      assert twice[..|twice| - 1] == files + files[..i - 1];
      CollectTwice(files, i - 1);
      assert files[i - 1] in files;
      UniqueUrl(files, files[i - 1], files[i - 1].url);
    }
  }

  // ---- Extras ----

  // What reading a key finds on an object that has no such property of its own.
  const INHERITED := ["constructor", "hasOwnProperty", "isPrototypeOf", "propertyIsEnumerable", "toLocaleString",
                      "toString", "valueOf", "__proto__", "__defineGetter__", "__defineSetter__",
                      "__lookupGetter__", "__lookupSetter__"]

  predicate Inherited(key: string) {
    key in INHERITED
  }

  // Whether the property read for this key is defined and is not the value.
  predicate Clashes(merged: map<string, Scalar>, key: string, value: Scalar) {
    if key in merged then merged[key] != value else Inherited(key)
  }

  function MergeExtras(primary: map<string, Scalar>, secondary: map<string, Scalar>): Option<map<string, Scalar>> {
    if exists k :: k in secondary && Clashes(primary, k, secondary[k]) then None else Some(primary + secondary)
  }

  method MergeExtrasLoop(primary: map<string, Scalar>, secondary: map<string, Scalar>)
    returns (merged: map<string, Scalar>, conflict: bool)
    ensures conflict <==> MergeExtras(primary, secondary) == None
    ensures !conflict ==> MergeExtras(primary, secondary) == Some(merged)
  {
    hide Inherited;
    merged := primary;
    var entries := secondary.Keys;
    while entries != {}
      invariant entries <= secondary.Keys
      invariant forall k :: k in secondary && k !in entries ==>
                  !Clashes(primary, k, secondary[k]) && k in merged && merged[k] == secondary[k]
      invariant forall k :: k in primary ==> k in merged && merged[k] == primary[k]
      invariant forall k :: k in merged ==> k in primary || (k in secondary && k !in entries)
    {
      var key :| key in entries;
      if Clashes(merged, key, secondary[key]) {
        assert Clashes(primary, key, secondary[key]);
        return merged, true;
      }
      merged := merged[key := secondary[key]];
      entries := entries - {key};
    }
    assert merged == primary + secondary;
    conflict := false;
  }

  // ---- Merging ----

  function Merge(primary: Manifest, secondary: Manifest): Result<Manifest, MergeError> {
    if primary.version != secondary.version then Err(DifferentVersions)
    else match Collect(primary.files + secondary.files)
      case None => Err(ConflictingFile)
      case Some(files) =>
        match MergeExtras(primary.extras, secondary.extras)
        case None => Err(ConflictingExtra)
        case Some(extras) =>
          Ok(Manifest(primary.version, Later(primary.releaseDate, secondary.releaseDate), files, extras))
  }

  lemma {:induction false} CollectFails(files: seq<File>, i: nat)
    requires i <= |files| && Collect(files[..i]) == None
    ensures Collect(files) == None
  {
    if i == |files| {
      assert files[..i] == files;
    } else {
      assert files[..|files| - 1][..i] == files[..i];
      CollectFails(files[..|files| - 1], i);
    }
  }

  method MergeManifests(primary: Manifest, secondary: Manifest) returns (r: Result<Manifest, MergeError>)
    ensures r == Merge(primary, secondary)
  {
    hide Collect, MergeExtras, Later;
    if primary.version != secondary.version {
      return Err(DifferentVersions);
    }
    var files := primary.files + secondary.files;
    var filesByUrl := CollectLoop(files);
    if filesByUrl.None? {
      return Err(ConflictingFile);
    }
    var extras, conflict := MergeExtrasLoop(primary.extras, secondary.extras);
    if conflict {
      return Err(ConflictingExtra);
    }
    var releaseDate := Later(primary.releaseDate, secondary.releaseDate);
    return Ok(Manifest(primary.version, releaseDate, filesByUrl.value, extras));
  }

  method CollectLoop(files: seq<File>) returns (filesByUrl: Option<seq<File>>)
    ensures filesByUrl == Collect(files)
  {
    var known: seq<File> := [];
    var i := 0;
    while i < |files|
      invariant 0 <= i <= |files| && Collect(files[..i]) == Some(known)
    {
      assert files[..i + 1][..i] == files[..i];
      var existing := Find(known, files[i].url);
      if existing.Some? && (existing.value.sha512 != files[i].sha512 || existing.value.size != files[i].size) {
        CollectFails(files, i + 1);
        return None;
      }
      if existing.None? {
        known := known + [files[i]];
      }
      i := i + 1;
    }
    assert files[..i] == files;
    filesByUrl := Some(known);
  }

  // ---- The merge is a partial join ----

  // Values both manifests have agree.
  predicate Compatible(a: Manifest, b: Manifest) {
    && a.version == b.version
    && Consistent(a.files + b.files)
    && forall k :: k in a.extras && k in b.extras ==> a.extras[k] == b.extras[k]
  }

  // Every key only the second one has is absent from the prototype too.
  predicate OwnKeysOnly(a: Manifest, b: Manifest) {
    forall k :: k in b.extras && k !in a.extras ==> !Inherited(k)
  }

  // The same manifest, but for the order of the files.
  ghost predicate SameContents(a: Manifest, b: Manifest) {
    && a.version == b.version && a.releaseDate == b.releaseDate && a.extras == b.extras
    && forall f :: f in a.files <==> f in b.files
  }

  ghost predicate IsUnion(m: Manifest, a: Manifest, b: Manifest) {
    && m.version == a.version == b.version
    && m.releaseDate == Later(a.releaseDate, b.releaseDate)
    && (forall f :: f in m.files <==> f in a.files || f in b.files)
    && (forall k :: k in m.extras <==> k in a.extras || k in b.extras)
    && (forall k :: k in a.extras ==> m.extras[k] == a.extras[k])
    && (forall k :: k in b.extras ==> m.extras[k] == b.extras[k])
  }

  // When merging succeeds, and that it then is the union of both: of the files by url, of
  // the extras by key, with the later date.
  lemma MergeIsTheUnion(a: Manifest, b: Manifest)
    ensures Merge(a, b).Ok? <==> Compatible(a, b) && OwnKeysOnly(a, b)
    ensures Merge(a, b).Ok? ==> IsUnion(Merge(a, b).value, a, b) && UniqueUrls(Merge(a, b).value.files)
  {
    CollectMeans(a.files + b.files);
    hide Collect, Inherited, UniqueUrls, Consistent, Later;
    assert forall f :: f in a.files + b.files <==> f in a.files || f in b.files;
    if Merge(a, b).Ok? {
      assert forall k :: k in b.extras ==> !Clashes(a.extras, k, b.extras[k]);
    }
  }

  lemma CompatibleEitherWay(a: Manifest, b: Manifest)
    ensures Compatible(a, b) <==> Compatible(b, a)
  {
  }

  lemma UnionIsUnique(m: Manifest, n: Manifest, a: Manifest, b: Manifest)
    requires IsUnion(m, a, b) && IsUnion(n, b, a)
    ensures SameContents(m, n)
  {
    LaterIsTheMaximum(a.releaseDate, b.releaseDate, a.releaseDate);
    assert m.extras.Keys == n.extras.Keys;
  }

  // Both orders give the same manifest, and the second succeeds where the first does
  // unless it reads a key that only the first argument has from the prototype.
  lemma MergeIsSymmetric(a: Manifest, b: Manifest)
    requires Merge(a, b).Ok?
    ensures Merge(b, a).Ok? <==> OwnKeysOnly(b, a)
    ensures Merge(b, a).Ok? ==> SameContents(Merge(a, b).value, Merge(b, a).value)
  {
    hide Merge, Compatible, OwnKeysOnly, IsUnion, SameContents;
    MergeIsTheUnion(a, b);
    MergeIsTheUnion(b, a);
    CompatibleEitherWay(a, b);
    if Merge(b, a).Ok? {
      UnionIsUnique(Merge(a, b).value, Merge(b, a).value, a, b);
    }
  }

  // Such a pair: success in one order is not success in the other.
  lemma MergeOrderMatters() returns (a: Manifest, b: Manifest)
    ensures Merge(a, b).Ok? && Merge(b, a).Err?
  {
    var files := [File("app.zip", "sha", 1)];
    a := Manifest("1.0.0", "2026", files, map["toString" := Flag(true)]);
    b := Manifest("1.0.0", "2026", files, map[]);
    MergeIsTheUnion(a, b);
    MergeIsTheUnion(b, a);
    assert INHERITED[5] == "toString";
    assert "toString" in a.extras && "toString" !in b.extras && Inherited("toString");
    assert forall f :: f in a.files + b.files ==> f == files[0];
  }

  lemma {:induction false} UnionsAssociate(a: Manifest, b: Manifest, c: Manifest, ab: Manifest, bc: Manifest,
                                           l: Manifest, r: Manifest)
    requires IsUnion(ab, a, b) && IsUnion(bc, b, c) && IsUnion(l, ab, c) && IsUnion(r, a, bc)
    ensures SameContents(l, r)
  {
    LaterIsTheMaximum(a.releaseDate, b.releaseDate, c.releaseDate);
    hide Later;
    assert l.extras.Keys == r.extras.Keys;
    forall k | k in l.extras
      ensures l.extras[k] == r.extras[k]
    {
    }
  }

  lemma CompatibilityAssociates(a: Manifest, b: Manifest, c: Manifest, ab: Manifest, bc: Manifest)
    requires IsUnion(ab, a, b) && IsUnion(bc, b, c) && Compatible(b, c) && Compatible(a, b)
    ensures Compatible(ab, c) <==> Compatible(a, bc)
  {
    hide Later;
    assert forall f :: f in ab.files + c.files <==> f in a.files + bc.files;
  }

  lemma OwnKeysAssociate(a: Manifest, b: Manifest, c: Manifest, ab: Manifest, bc: Manifest)
    requires IsUnion(ab, a, b) && IsUnion(bc, b, c) && OwnKeysOnly(a, b) && OwnKeysOnly(b, c)
    ensures OwnKeysOnly(ab, c) <==> OwnKeysOnly(a, bc)
  {
  }

  // Where both inner merges succeed, both outer ones do or neither does, with the same
  // contents.
  lemma MergeIsAssociative(a: Manifest, b: Manifest, c: Manifest)
    requires Merge(a, b).Ok? && Merge(b, c).Ok?
    ensures var ab, bc := Merge(a, b).value, Merge(b, c).value;
            && (Merge(ab, c).Ok? <==> Merge(a, bc).Ok?)
            && (Merge(ab, c).Ok? ==> SameContents(Merge(ab, c).value, Merge(a, bc).value))
  {
    hide Merge, Compatible, OwnKeysOnly, IsUnion, SameContents;
    MergeIsTheUnion(a, b);
    MergeIsTheUnion(b, c);
    var ab, bc := Merge(a, b).value, Merge(b, c).value;
    MergeIsTheUnion(ab, c);
    MergeIsTheUnion(a, bc);
    CompatibilityAssociates(a, b, c, ab, bc);
    OwnKeysAssociate(a, b, c, ab, bc);
    if Merge(ab, c).Ok? {
      UnionsAssociate(a, b, c, ab, bc, Merge(ab, c).value, Merge(a, bc).value);
    }
  }

  // A manifest merges with itself exactly when its entries do not conflict, and with
  // unique urls the result is the manifest itself.
  lemma MergeIsIdempotent(m: Manifest)
    ensures Merge(m, m).Ok? <==> Consistent(m.files)
    ensures Merge(m, m).Ok? ==> SameContents(Merge(m, m).value, m)
    ensures UniqueUrls(m.files) ==> Merge(m, m) == Ok(m)
  {
    MergeIsTheUnion(m, m);
    LaterIsTheMaximum(m.releaseDate, m.releaseDate, m.releaseDate);
    hide Collect, Inherited, Later;
    assert forall f :: f in m.files + m.files <==> f in m.files;
    if UniqueUrls(m.files) {
      assert m.files[..|m.files|] == m.files;
      CollectTwice(m.files, |m.files|);
      assert m.extras + m.extras == m.extras;
    }
  }

  lemma FilesOfEither(files: seq<File>, a: seq<File>, b: seq<File>)
    requires LegibleFiles(a) && LegibleFiles(b) && BareFiles(a) && BareFiles(b)
    requires forall f :: f in files ==> f in a || f in b
    ensures LegibleFiles(files) && BareFiles(files)
  {
    hide Bare, TextLines.OneLine;
    forall i | 0 <= i < |files|
      ensures TextLines.OneLine(files[i].url) && TextLines.OneLine(files[i].sha512)
      ensures Bare(files[i].url) && Bare(files[i].sha512) && files[i].size < ManifestScalars.EXPONENT_FROM
    {
      assert files[i] in files;
    }
  }

  lemma WellFormedUnion(m: Manifest, a: Manifest, b: Manifest)
    requires WellFormed(a) && WellFormed(b) && IsUnion(m, a, b)
    ensures WellFormed(m)
  {
    FilesOfEither(m.files, a.files, b.files);
    assert a.files[0] in m.files;
    hide PlainText, BareFiles, LegibleFiles, TextLines.OneLine, LegalKey, WellFormedScalar, ManifestScalars.PlainScalar;
  }

  // Merging well-formed manifests gives one, so that what was printed is read back.
  lemma MergedIsReadBack(a: Manifest, b: Manifest)
    requires WellFormed(a) && WellFormed(b) && Merge(a, b).Ok?
    ensures Parse(Print(Merge(a, b).value)) == Ok(Merge(a, b).value)
  {
    hide Merge, WellFormed, Parse, Print, IsUnion, UniqueUrls, Compatible, OwnKeysOnly;
    MergeIsTheUnion(a, b);
    WellFormedUnion(Merge(a, b).value, a, b);
    RoundTrip(Merge(a, b).value);
  }
}
