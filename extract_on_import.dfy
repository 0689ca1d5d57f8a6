/** The package's first-load step: it unpacks the bundled archives, either as a
    fresh install or as an update of an older installation, and then keeps
    the newest copy of the archives in a shared temporary folder.

    Zip archives, the project tree, the temporary folder and `manifest.json`
    are modelled as values: an archive is the sequence of its entries' full
    names, the project tree is the set of its directories and the set of
    its files, and the manifest is its sequence of lines. */
module ExtractOnImport {
  import opened Wrappers
  import opened Text
  import opened Json

  // ---------------------------------------------------------------------------
  // `UpdateFileSettings`
  // ---------------------------------------------------------------------------

  datatype UpdateFileSettings = UpdateFileSettings(
    extractFilenames: seq<string>,
    overwriteExtensions: seq<string>,
    overwriteFilenames: seq<string>,
    overwriteFullPaths: seq<string>,
    removeFilenames: seq<string>,
    removeFolders: seq<string>,
    removePackages: seq<string>)

  /** `needles.Any(text.Contains)`.  An empty needle is contained in every text. */
  function AnyContained(needles: seq<string>, text: string): (r: bool)
    ensures r <==> exists i :: 0 <= i < |needles| && Contains(text, needles[i])
  {
    if needles == [] then false
    else if Contains(text, needles[0]) then true
    else
      var rest := AnyContained(needles[1..], text);
      assert rest ==> exists i :: 0 <= i < |needles| && Contains(text, needles[i]) by {
        if rest {
          var i :| 0 <= i < |needles[1..]| && Contains(text, needles[1..][i]);
          assert needles[i + 1] == needles[1..][i];
        }
      }
      assert (exists i :: 0 <= i < |needles| && Contains(text, needles[i])) ==> rest by {
        if exists i :: 0 <= i < |needles| && Contains(text, needles[i]) {
          var i :| 0 <= i < |needles| && Contains(text, needles[i]);
          assert i != 0;
          assert needles[1..][i - 1] == needles[i];
        }
      }
      rest
  }

  /** `isExtractFilename`: the path's file name is one of `extract_filenames`.
      The update treats these names as never to be overwritten. */
  predicate IsExtractFilename(settings: UpdateFileSettings, fullPath: string) {
    FileName(fullPath) in settings.extractFilenames
  }

  /** `isMatchPathOrExtention`: the name contains one of
      `overwrite_filenames`, or its extension is one of `overwrite_extentions`. */
  function IsMatchPathOrExtension(settings: UpdateFileSettings, fileName: string): (r: bool)
    ensures r <==> (exists i :: 0 <= i < |settings.overwriteFilenames| && Contains(fileName, settings.overwriteFilenames[i]))
                   || Extension(fileName) in settings.overwriteExtensions
  {
    AnyContained(settings.overwriteFilenames, fileName) || Extension(fileName) in settings.overwriteExtensions
  }

  /** `isMatchFullPath`: the full path contains one of `overwrite_filefullpathnames`. */
  function IsMatchFullPath(settings: UpdateFileSettings, fullPath: string): (r: bool)
    ensures r <==> exists i :: 0 <= i < |settings.overwriteFullPaths| && Contains(fullPath, settings.overwriteFullPaths[i])
  {
    AnyContained(settings.overwriteFullPaths, fullPath)
  }

  // ---------------------------------------------------------------------------
  // Unpacking the project-base archive during an update
  // ---------------------------------------------------------------------------

  /** The project tree below the project root, by relative path. */
  datatype Tree = Tree(dirs: set<string>, files: set<string>)

  /** The rule for an existing file: its name is not protected, and it
      matches a name/extension rule or a full-path rule. */
  predicate Overwritable(settings: UpdateFileSettings, fullName: string) {
    !IsExtractFilename(settings, FileName(fullName))
    && (IsMatchPathOrExtension(settings, FileName(fullName)) || IsMatchFullPath(settings, fullName))
  }

  datatype Action = MakeDirectory | DirectoryExists | Extract | Overwrite | Keep

  /** What the update does with one archive entry.  An entry whose name (the
      part of its full name after the last separator) is empty is a
      directory, created when missing; a file missing from the tree is
      extracted; an existing file is overwritten only when its name is not
      protected and it matches a name/extension rule or a full-path rule. */
  function Decide(settings: UpdateFileSettings, tree: Tree, fullName: string): Action {
    var name := FileName(fullName);
    if name == "" then
      if fullName in tree.dirs then DirectoryExists else MakeDirectory
    else if fullName !in tree.files then Extract
    else if Overwritable(settings, fullName) then Overwrite
    else Keep
  }

  /** Each action is taken exactly in its case. */
  lemma DecideCases(settings: UpdateFileSettings, tree: Tree, fullName: string)
    ensures var r := Decide(settings, tree, fullName);
            && (r == MakeDirectory <==> FileName(fullName) == "" && fullName !in tree.dirs)
            && (r == DirectoryExists <==> FileName(fullName) == "" && fullName in tree.dirs)
            && (r == Extract <==> FileName(fullName) != "" && fullName !in tree.files)
            && (r == Overwrite <==> FileName(fullName) != "" && fullName in tree.files && Overwritable(settings, fullName))
  {
  }

  function Apply(tree: Tree, fullName: string, action: Action): Tree {
    match action
    case MakeDirectory => tree.(dirs := tree.dirs + {fullName})
    case Extract => tree.(files := tree.files + {fullName})
    case _ => tree
  }

  predicate Writes(action: Action) {
    action == Extract || action == Overwrite
  }

  /** The tree after the entries, in order, and the entries whose file was
      written (extracted or overwritten), in order. */
  function Unpacked(settings: UpdateFileSettings, tree: Tree, entries: seq<string>): (Tree, seq<string>)
  {
    if entries == [] then (tree, [])
    else Step(settings, Unpacked(settings, tree, entries[..|entries| - 1]), entries[|entries| - 1])
  }

  /** One entry: the tree and the written entries after it. */
  function Step(settings: UpdateFileSettings, state: (Tree, seq<string>), entry: string): (Tree, seq<string>)
  {
    var action := Decide(settings, state.0, entry);
    (Apply(state.0, entry, action), state.1 + if Writes(action) then [entry] else [])
  }

  /** The entry loop of the update. */
  method UnpackArchive(settings: UpdateFileSettings, tree: Tree, entries: seq<string>)
    returns (after: Tree, written: seq<string>)
    ensures (after, written) == Unpacked(settings, tree, entries)
  {
    after := tree;
    written := [];
    var i := 0;
    while i < |entries|
      invariant 0 <= i <= |entries|
      invariant (after, written) == Unpacked(settings, tree, entries[..i])
    {
      var done := entries[..i + 1];
      assert done[..i] == entries[..i] && done[i] == entries[i];
      assert Unpacked(settings, tree, done) == Step(settings, (after, written), entries[i]);
      ghost var next := Step(settings, (after, written), entries[i]);
      var action := Decide(settings, after, entries[i]);
      if Writes(action) {
        written := written + [entries[i]];
      }
      after := Apply(after, entries[i], action);
      assert after == next.0 && written == next.1;
      i := i + 1;
    }
    assert entries[..i] == entries;
  }

  /** Unpacking removes nothing, adds only entries, and writes only file
      entries. */
  lemma {:induction false} UnpackAddsOnlyEntries(settings: UpdateFileSettings, tree: Tree, entries: seq<string>)
    ensures var r := Unpacked(settings, tree, entries);
            && tree.dirs <= r.0.dirs && tree.files <= r.0.files
            && (forall e :: e in r.0.files ==> e in tree.files || e in entries)
            && (forall e :: e in r.1 ==> e in entries && FileName(e) != "")
  {
    if entries != [] {
      var init := entries[..|entries| - 1];
      var last := entries[|entries| - 1];
      UnpackAddsOnlyEntries(settings, tree, init);
      assert Unpacked(settings, tree, entries) == Step(settings, Unpacked(settings, tree, init), last);
      assert forall e :: e in init ==> e in entries;
    }
  }

  /** After unpacking, every entry is present: a file entry as a file and a
      directory entry as a directory. */
  lemma {:induction false} UnpackLeavesEntries(settings: UpdateFileSettings, tree: Tree, entries: seq<string>, e: string)
    requires e in entries
    ensures FileName(e) != "" ==> e in Unpacked(settings, tree, entries).0.files
    ensures FileName(e) == "" ==> e in Unpacked(settings, tree, entries).0.dirs
  {
    var init := entries[..|entries| - 1];
    if e != entries[|entries| - 1] {
      var k :| 0 <= k < |entries| && entries[k] == e;
      assert k < |init| && init[k] == e;
      UnpackLeavesEntries(settings, tree, init, e);
    }
    UnpackLastEntry(settings, tree, entries);
  }

  /** The last entry keeps what the earlier ones left and leaves itself in
      the tree. */
  lemma UnpackLastEntry(settings: UpdateFileSettings, tree: Tree, entries: seq<string>)
    requires entries != []
    ensures var before := Unpacked(settings, tree, entries[..|entries| - 1]).0;
            var after := Unpacked(settings, tree, entries).0;
            var last := entries[|entries| - 1];
            && before.dirs <= after.dirs && before.files <= after.files
            && (FileName(last) != "" ==> last in after.files)
            && (FileName(last) == "" ==> last in after.dirs)
  {
  }

  /** A file that already existed is rewritten only when its name is not
      protected and an overwrite rule matches it. */
  lemma {:induction false} OverwriteNeedsRule(settings: UpdateFileSettings, tree: Tree, entries: seq<string>, f: string)
    requires f in tree.files
    ensures f in Unpacked(settings, tree, entries).1 ==> Overwritable(settings, f)
  {
    if entries != [] {
      var init := entries[..|entries| - 1];
      var last := entries[|entries| - 1];
      OverwriteNeedsRule(settings, tree, init, f);
      UnpackAddsOnlyEntries(settings, tree, init);
      var prev := Unpacked(settings, tree, init);
      var action := Decide(settings, prev.0, last);
      DecideCases(settings, prev.0, last);
      assert Unpacked(settings, tree, entries).1 == prev.1 + if Writes(action) then [last] else [];
    }
  }

  /** A file that did not exist is written as soon as an entry names it. */
  lemma {:induction false} MissingFilesAreWritten(settings: UpdateFileSettings, tree: Tree, entries: seq<string>, f: string)
    requires f !in tree.files && f in entries && FileName(f) != ""
    ensures f in Unpacked(settings, tree, entries).1
  {
    var init := entries[..|entries| - 1];
    var last := entries[|entries| - 1];
    assert entries == init + [last];
    if f in init {
      MissingFilesAreWritten(settings, tree, init, f);
    } else {
      assert f == last;
      UnpackAddsOnlyEntries(settings, tree, init);
    }
    var prev := Unpacked(settings, tree, init);
    assert Unpacked(settings, tree, entries) == Step(settings, prev, last);
    DecideCases(settings, prev.0, last);
  }

  // ---------------------------------------------------------------------------
  // `manifest.json` filtering
  // ---------------------------------------------------------------------------

  /** The manifest lines that mention none of `remove_packages`, in order. */
  function KeptLines(lines: seq<string>, removePackages: seq<string>): (r: seq<string>)
    ensures |r| <= |lines|
  {
    if lines == [] then []
    else
      var last := lines[|lines| - 1];
      var init := lines[..|lines| - 1];
      assert lines == init + [last];
      KeptLines(init, removePackages) + if AnyContained(removePackages, last) then [] else [last]
  }

  /** The filtering loop. */
  method FilterManifest(lines: seq<string>, removePackages: seq<string>) returns (result: seq<string>)
    ensures result == KeptLines(lines, removePackages)
  {
    result := [];
    var i := 0;
    while i < |lines|
      invariant 0 <= i <= |lines|
      invariant result == KeptLines(lines[..i], removePackages)
    {
      assert lines[..i + 1][..i] == lines[..i];
      if !AnyContained(removePackages, lines[i]) {
        result := result + [lines[i]];
      }
      i := i + 1;
    }
    assert lines[..i] == lines;
  }

  /** A single line is kept exactly when it mentions no removed package. */
  lemma KeptLine(line: string, removePackages: seq<string>)
    ensures KeptLines([line], removePackages) == if AnyContained(removePackages, line) then [] else [line]
  {
    assert [line][..0] == [];
  }

  /** A line is in the filtered manifest exactly when it is in the manifest
      and mentions no removed package. */
  lemma {:induction false} KeptLinesMembers(lines: seq<string>, removePackages: seq<string>)
    ensures forall line :: line in KeptLines(lines, removePackages) <==>
                             line in lines && !AnyContained(removePackages, line)
  {
    if lines != [] {
      var init := lines[..|lines| - 1];
      var last := lines[|lines| - 1];
      assert lines == init + [last];
      KeptLinesMembers(init, removePackages);
    }
  }

  /** Filtering works line by line: the kept lines of two consecutive parts
      of a manifest are the kept lines of each part, in that order.  With
      `KeptLine` this fixes the order and the multiplicity of the result. */
  lemma {:induction false} KeptLinesAppend(a: seq<string>, b: seq<string>, removePackages: seq<string>)
    ensures KeptLines(a + b, removePackages) == KeptLines(a, removePackages) + KeptLines(b, removePackages)
    decreases |b|
  {
    if b == [] {
      assert a + b == a;
    } else {
      var init := b[..|b| - 1];
      var last := b[|b| - 1];
      var tail := if AnyContained(removePackages, last) then [] else [last];
      assert a + b == (a + init) + [last];
      assert (a + b)[..|a + b| - 1] == a + init;
      assert KeptLines(a + b, removePackages) == KeptLines(a + init, removePackages) + tail;
      assert KeptLines(b, removePackages) == KeptLines(init, removePackages) + tail;
      KeptLinesAppend(a, init, removePackages);
    }
  }

  /** Filtering keeps the kept lines in their original order: the result
      is what remains after deleting the removed lines, so a manifest with
      nothing to remove is unchanged, and an empty package name (contained
      in every line) empties it. */
  lemma {:induction false} ManifestFilterKeepsOrder(lines: seq<string>, removePackages: seq<string>)
    ensures (forall k :: 0 <= k < |lines| ==> !AnyContained(removePackages, lines[k])) ==>
              KeptLines(lines, removePackages) == lines
    ensures "" in removePackages ==> KeptLines(lines, removePackages) == []
  {
    if lines != [] {
      ManifestFilterKeepsOrder(lines[..|lines| - 1], removePackages);
      if "" in removePackages {
        var i :| 0 <= i < |removePackages| && removePackages[i] == "";
        assert Contains(lines[|lines| - 1], removePackages[i]);
      }
      if forall k :: 0 <= k < |lines| ==> !AnyContained(removePackages, lines[k]) {
        assert lines == lines[..|lines| - 1] + [lines[|lines| - 1]];
      }
    }
  }

  // ---------------------------------------------------------------------------
  // `System.Version`
  // ---------------------------------------------------------------------------

  /** Two to four components; a component the text leaves out compares as
      smaller than any given one, so a proper prefix is the smaller version. */
  type Version = seq<nat>

  /** One component: `int.TryParse` with surrounding white space and a sign
      allowed, and a value between 0 and `int.MaxValue`. */
  function ParseComponent(text: string): (r: Option<nat>)
    ensures r.Some? ==> ParseInteger(text) == Some(r.value as int) && r.value <= Int32Max
    ensures ParseInteger(text).Some? && 0 <= ParseInteger(text).value <= Int32Max ==> r.Some?
  {
    match ParseInteger(text)
    case Some(n) => if 0 <= n <= Int32Max then Some(n) else None
    case None => None
  }

  function ParseComponents(parts: seq<string>): (r: Option<Version>)
    ensures r.Some? ==> |r.value| == |parts|
    ensures r.Some? <==> forall i :: 0 <= i < |parts| ==> ParseComponent(parts[i]).Some?
    ensures r.Some? ==> forall i :: 0 <= i < |parts| ==> r.value[i] == ParseComponent(parts[i]).value
  {
    if parts == [] then Some([])
    else
      match ParseComponent(parts[0])
      case None => None
      case Some(c) =>
        match ParseComponents(parts[1..])
        case None =>
          assert !forall i :: 0 <= i < |parts| ==> ParseComponent(parts[i]).Some? by {
            var j :| 0 <= j < |parts[1..]| && ParseComponent(parts[1..][j]).None?;
            assert parts[j + 1] == parts[1..][j];
          }
          None
        case Some(rest) =>
          assert forall i :: 1 <= i < |parts| ==> parts[i] == parts[1..][i - 1];
          Some([c] + rest)
  }

  /** `Version.TryParse` (and `new Version`, which throws where this gives
      `None`): two to four '.'-separated components. */
  function ParseVersion(text: string): (r: Option<Version>)
    ensures r.Some? ==> 2 <= |r.value| <= 4 && |r.value| == |Split(text, '.')|
    ensures r.Some? ==> forall i :: 0 <= i < |r.value| ==> r.value[i] <= Int32Max
  {
    var parts := Split(text, '.');
    if |parts| < 2 || |parts| > 4 then None else ParseComponents(parts)
  }

  /** `a < b` on versions. */
  predicate Less(a: Version, b: Version)
    decreases |a|
  {
    if a == [] then b != []
    else if b == [] then false
    else a[0] < b[0] || (a[0] == b[0] && Less(a[1..], b[1..]))
  }

  lemma {:induction false} LessIrreflexive(a: Version)
    ensures !Less(a, a)
  {
    if a != [] {
      LessIrreflexive(a[1..]);
    }
  }

  lemma {:induction false} LessTransitive(a: Version, b: Version, c: Version)
    requires Less(a, b) && Less(b, c)
    ensures Less(a, c)
  {
    if a != [] && b != [] && c != [] && a[0] == b[0] && b[0] == c[0] {
      LessTransitive(a[1..], b[1..], c[1..]);
    }
  }

  /** Any two different versions are ordered one way or the other. */
  lemma {:induction false} LessTotal(a: Version, b: Version)
    ensures a == b || Less(a, b) || Less(b, a)
  {
    if a != [] && b != [] && a[0] == b[0] {
      LessTotal(a[1..], b[1..]);
      if a[1..] == b[1..] {
        assert a == [a[0]] + a[1..] && b == [b[0]] + b[1..];
      }
    }
  }

  lemma {:induction false} LessAsymmetric(a: Version, b: Version)
    requires Less(a, b)
    ensures !Less(b, a)
  {
    if a != [] && b != [] && a[0] == b[0] {
      LessAsymmetric(a[1..], b[1..]);
    }
  }

  // ---------------------------------------------------------------------------
  // The update gate
  // ---------------------------------------------------------------------------

  /** `InstallUniteVersion`, the version this package installs. */
  const InstallVersionText: string := "1.2.4"
  const InstallVersion: Version := [1, 2, 4]

  /** The version assumed when `version.txt` is missing. */
  const DefaultVersionText: string := "1.0.0"

  /** A single digit is a component with that digit's value. */
  lemma DigitComponent(d: char)
    requires IsDigit(d)
    ensures ParseComponent([d]) == Some(DigitValue(d))
  {
    assert TrimNumberWhite([d]) == [d];
    assert DigitsValue([d]) == DigitValue(d) by {
      assert [d][..0] == [];
    }
  }

  /** "x.y.z" for three digits splits into the three digits. */
  lemma SplitThreeDigits(x: char, y: char, z: char)
    requires IsDigit(x) && IsDigit(y) && IsDigit(z)
    ensures Split([x, '.', y, '.', z], '.') == [[x], [y], [z]]
  {
    assert Split([], '.') == [""];
    assert Split([z], '.') == [[z]] by {
      assert [z][1..] == [];
    }
    assert Split(['.', z], '.') == ["", [z]] by {
      assert ['.', z][1..] == [z];
    }
    assert Split([y, '.', z], '.') == [[y], [z]] by {
      assert [y, '.', z][1..] == ['.', z];
      assert [y] + "" == [y];
    }
    assert Split(['.', y, '.', z], '.') == ["", [y], [z]] by {
      assert ['.', y, '.', z][1..] == [y, '.', z];
    }
    assert [x, '.', y, '.', z][1..] == ['.', y, '.', z];
    assert [x] + "" == [x];
  }

  /** "x.y.z" for three digits is the version of those digits. */
  lemma ThreeDigitVersion(x: char, y: char, z: char)
    requires IsDigit(x) && IsDigit(y) && IsDigit(z)
    ensures ParseVersion([x, '.', y, '.', z]) == Some([DigitValue(x), DigitValue(y), DigitValue(z)])
  {
    SplitThreeDigits(x, y, z);
    DigitComponent(x);
    DigitComponent(y);
    DigitComponent(z);
    var parts: seq<string> := [[x], [y], [z]];
    assert forall i :: 0 <= i < |parts| ==> ParseComponent(parts[i]).Some?;
    var r := ParseComponents(parts);
    assert r.Some? && |r.value| == 3;
    assert r.value[0] == DigitValue(x) && r.value[1] == DigitValue(y) && r.value[2] == DigitValue(z);
    assert r.value == [DigitValue(x), DigitValue(y), DigitValue(z)];
  }

  lemma VersionTextsParse()
    ensures ParseVersion(InstallVersionText) == Some(InstallVersion)
    ensures ParseVersion(DefaultVersionText) == Some([1, 0, 0])
  {
    assert InstallVersionText == ['1', '.', '2', '.', '4'];
    assert DefaultVersionText == ['1', '.', '0', '.', '0'];
    ThreeDigitVersion('1', '2', '4');
    ThreeDigitVersion('1', '0', '0');
  }

  /** `new Version(text)` failed: the exception ends the import. */
  datatype GateError = InvalidVersion(text: string)

  /** Whether an existing installation is updated: only when the installed
      version, read from `version.txt` (or "1.0.0" when it is missing), is
      older than the package's.  An unreadable version aborts. */
  function UpdateGate(versionFile: Option<string>): (r: Result<bool, GateError>)
    ensures r.Err? <==> ParseVersion(versionFile.GetOr(DefaultVersionText)).None?
    ensures r.Ok? ==> (r.value <==> Less(ParseVersion(versionFile.GetOr(DefaultVersionText)).value, InstallVersion))
  {
    var text := versionFile.GetOr(DefaultVersionText);
    match ParseVersion(text)
    case None => Err(InvalidVersion(text))
    case Some(current) => Ok(Less(current, InstallVersion))
  }

  /** A project without `version.txt` is updated; one that already records
      the package's own version, or a later one, is not — so a second load
      after the version file is written changes nothing. */
  lemma UpdateGateDecisions(later: Version)
    requires Less(InstallVersion, later)
    ensures UpdateGate(None) == Ok(true)
    ensures UpdateGate(Some(InstallVersionText)) == Ok(false)
    ensures forall text :: ParseVersion(text) == Some(later) ==> UpdateGate(Some(text)) == Ok(false)
  {
    VersionTextsParse();
    LessIrreflexive(InstallVersion);
    LessAsymmetric(InstallVersion, later);
  }

  // ---------------------------------------------------------------------------
  // The first install
  // ---------------------------------------------------------------------------

  datatype Language = Japanese | Chinese | ChineseSimplified | ChineseTraditional | OtherLanguage

  /** The archives a fresh install unpacks, in order: the project base, the
      Japanese master data, then the Chinese or English master data unless
      the editor runs in Japanese. */
  function FreshInstallArchives(language: Language): (r: seq<string>)
    ensures |r| == if language == Japanese then 2 else 3
    ensures r[..2] == ["project_base_v" + InstallVersionText + ".zip", "masterdata_jp_v" + InstallVersionText + ".zip"]
    ensures language.Chinese? || language.ChineseSimplified? || language.ChineseTraditional? ==>
              r[2] == "masterdata_ch_v" + InstallVersionText + ".zip"
    ensures language.OtherLanguage? ==> r[2] == "masterdata_en_v" + InstallVersionText + ".zip"
  {
    var common := ["project_base_v" + InstallVersionText + ".zip", "masterdata_jp_v" + InstallVersionText + ".zip"];
    match language
    case Japanese => common
    case OtherLanguage => common + ["masterdata_en_v" + InstallVersionText + ".zip"]
    case _ => common + ["masterdata_ch_v" + InstallVersionText + ".zip"]
  }

  // ---------------------------------------------------------------------------
  // The temporary folder: the highest-version scan
  // ---------------------------------------------------------------------------

  /** The version a folder's name holds, if it parses. */
  function FolderVersion(dir: string): Option<Version> {
    ParseVersion(FileName(dir))
  }

  /** The highest version seen and the folders deleted, after the folders
      in order: a folder with a parseable name raises the highest version
      when newer and is deleted otherwise; other folders are left alone. */
  function Scanned(install: Version, dirs: seq<string>): (Version, seq<string>)
  {
    if dirs == [] then (install, [])
    else
      var prev := Scanned(install, dirs[..|dirs| - 1]);
      var last := dirs[|dirs| - 1];
      match FolderVersion(last)
      case None => prev
      case Some(v) => if Less(prev.0, v) then (v, prev.1) else (prev.0, prev.1 + [last])
  }

  /** The scanning loop. */
  method ScanVersionFolders(install: Version, dirs: seq<string>) returns (higher: Version, deleted: seq<string>)
    ensures (higher, deleted) == Scanned(install, dirs)
  {
    higher := install;
    deleted := [];
    var i := 0;
    while i < |dirs|
      invariant 0 <= i <= |dirs|
      invariant (higher, deleted) == Scanned(install, dirs[..i])
    {
      assert dirs[..i + 1][..i] == dirs[..i];
      var parsed := FolderVersion(dirs[i]);
      if parsed.Some? {
        if Less(higher, parsed.value) {
          higher := parsed.value;
        } else {
          deleted := deleted + [dirs[i]];
        }
      }
      i := i + 1;
    }
    assert dirs[..i] == dirs;
  }

  /** The versions the folder names parse to, folder by folder. */
  function FolderVersions(dirs: seq<string>): (r: seq<Option<Version>>)
    ensures |r| == |dirs| && forall i :: 0 <= i < |dirs| ==> r[i] == FolderVersion(dirs[i])
  {
    seq(|dirs|, i requires 0 <= i < |dirs| => FolderVersion(dirs[i]))
  }

  /** The highest of `install` and the parsed versions, kept the way the scan
      keeps it: a version replaces the current one only when newer. */
  function Highest(install: Version, vs: seq<Option<Version>>): Version {
    if vs == [] then install
    else
      var prev := Highest(install, vs[..|vs| - 1]);
      match vs[|vs| - 1]
      case None => prev
      case Some(v) => if Less(prev, v) then v else prev
  }

  lemma {:induction false} ScannedIsHighest(install: Version, dirs: seq<string>)
    ensures Scanned(install, dirs).0 == Highest(install, FolderVersions(dirs))
  {
    if dirs != [] {
      var init := dirs[..|dirs| - 1];
      ScannedIsHighest(install, init);
      assert FolderVersions(dirs)[..|dirs| - 1] == FolderVersions(init);
    }
  }

  /** `Highest` is no smaller than `install` or any version, and is one of them. */
  lemma {:induction false} HighestIsMaximum(install: Version, vs: seq<Option<Version>>)
    ensures !Less(Highest(install, vs), install)
    ensures forall i :: 0 <= i < |vs| && vs[i].Some? ==> !Less(Highest(install, vs), vs[i].value)
    ensures Highest(install, vs) == install || exists i :: 0 <= i < |vs| && vs[i] == Some(Highest(install, vs))
  {
    if vs == [] {
      LessIrreflexive(install);
    } else {
      var init := vs[..|vs| - 1];
      var last := vs[|vs| - 1];
      HighestIsMaximum(install, init);
      var before := Highest(install, init);
      var higher := Highest(install, vs);
      if last.Some? && Less(before, last.value) {
        // the last version raised the maximum
        assert higher == last.value;
        LessAsymmetric(before, higher);
        forall i | 0 <= i < |vs| && vs[i].Some?
          ensures !Less(higher, vs[i].value)
        {
          if i < |init| {
            assert vs[i] == init[i];
            if Less(higher, vs[i].value) {
              LessTransitive(before, higher, vs[i].value);
            }
          } else {
            LessIrreflexive(higher);
          }
        }
        if Less(higher, install) {
          LessTransitive(before, higher, install);
        }
      } else {
        assert higher == before;
        forall i | 0 <= i < |vs| && vs[i].Some?
          ensures !Less(higher, vs[i].value)
        {
          if i < |init| {
            assert vs[i] == init[i];
          }
        }
        if higher != install {
          var i :| 0 <= i < |init| && init[i] == Some(higher);
          assert vs[i] == init[i];
        }
      }
    }
  }

  /** The highest version is the maximum of the package's version and the
      versions of the folders: no smaller than any of them, and one of them. */
  lemma ScanFindsMaximum(install: Version, dirs: seq<string>)
    ensures !Less(Scanned(install, dirs).0, install)
    ensures forall i :: 0 <= i < |dirs| && FolderVersion(dirs[i]).Some? ==>
              !Less(Scanned(install, dirs).0, FolderVersion(dirs[i]).value)
    ensures Scanned(install, dirs).0 == install ||
            exists i :: 0 <= i < |dirs| && FolderVersion(dirs[i]) == Some(Scanned(install, dirs).0)
  {
    ScannedIsHighest(install, dirs);
    var vs := FolderVersions(dirs);
    HighestIsMaximum(install, vs);
    if Scanned(install, dirs).0 != install {
      var i :| 0 <= i < |vs| && vs[i] == Some(Highest(install, vs));
      assert FolderVersion(dirs[i]) == Some(Scanned(install, dirs).0);
    }
  }

  /** Deleted folders are folders with a parseable name, and every folder
      whose version is not newer than the package's is deleted. */
  lemma {:induction false} ScanDeletesOlder(install: Version, dirs: seq<string>)
    ensures var deleted := Scanned(install, dirs).1;
            && (forall d :: d in deleted ==> d in dirs && FolderVersion(d).Some?)
            && (forall i :: 0 <= i < |dirs| && FolderVersion(dirs[i]).Some? && !Less(install, FolderVersion(dirs[i]).value)
                  ==> dirs[i] in deleted)
  {
    if dirs != [] {
      var init := dirs[..|dirs| - 1];
      var last := dirs[|dirs| - 1];
      ScanDeletesOlder(install, init);
      ScanFindsMaximum(install, init);
      var before := Scanned(install, init).0;
      forall i | 0 <= i < |dirs| && FolderVersion(dirs[i]).Some? && !Less(install, FolderVersion(dirs[i]).value)
        ensures dirs[i] in Scanned(install, dirs).1
      {
        if i < |dirs| - 1 {
          assert dirs[i] == init[i];
        } else if Less(before, FolderVersion(last).value) {
          if before == install {
          } else {
            LessTotal(install, before);
            LessTransitive(install, before, FolderVersion(last).value);
          }
        }
      }
    }
  }

  /** One scan step: only the last folder can join the deleted list, and it
      joins when its version is not above the maximum so far. */
  lemma ScanStepMembers(install: Version, dirs: seq<string>)
    requires dirs != []
    ensures var prev := Scanned(install, dirs[..|dirs| - 1]); var last := dirs[|dirs| - 1];
            && (forall d :: d != last ==> (d in Scanned(install, dirs).1 <==> d in prev.1))
            && (FolderVersion(last).Some? ==>
                  (last in Scanned(install, dirs).1 <==> last in prev.1 || !Less(prev.0, FolderVersion(last).value)))
  {
  }

  /** Among distinct folders, one is deleted exactly when its version does
      not exceed the highest version seen before it in listing order, so an
      older folder listed before a newer one survives the scan. */
  lemma {:induction false} DeletedIffNotAboveRunningMax(install: Version, dirs: seq<string>)
    requires forall i, j :: 0 <= i < j < |dirs| ==> dirs[i] != dirs[j]
    ensures forall i :: 0 <= i < |dirs| && FolderVersion(dirs[i]).Some? ==>
              (dirs[i] in Scanned(install, dirs).1 <==> !Less(Scanned(install, dirs[..i]).0, FolderVersion(dirs[i]).value))
  {
    if dirs != [] {
      var init := dirs[..|dirs| - 1];
      var last := dirs[|dirs| - 1];
      DeletedIffNotAboveRunningMax(install, init);
      ScanDeletesOlder(install, init);
      ScanStepMembers(install, dirs);
      forall i | 0 <= i < |dirs| && FolderVersion(dirs[i]).Some?
        ensures dirs[i] in Scanned(install, dirs).1 <==> !Less(Scanned(install, dirs[..i]).0, FolderVersion(dirs[i]).value)
      {
        if i < |dirs| - 1 {
          assert dirs[i] == init[i] && dirs[i] != last;
          assert dirs[..i] == init[..i];
        } else {
          assert last !in init;
          assert last !in Scanned(install, init).1;
        }
      }
    }
  }

  /** The archives are copied into the temporary folder exactly when no
      folder there holds a version newer than the package's. */
  lemma CopiesWhenNewest(install: Version, dirs: seq<string>)
    ensures Scanned(install, dirs).0 == install <==>
              forall i :: 0 <= i < |dirs| && FolderVersion(dirs[i]).Some? ==> !Less(install, FolderVersion(dirs[i]).value)
  {
    ScanFindsMaximum(install, dirs);
    var higher := Scanned(install, dirs).0;
    if higher != install {
      var i :| 0 <= i < |dirs| && FolderVersion(dirs[i]) == Some(higher);
      LessTotal(install, higher);
    }
  }

  /** The name prefixes of the archives kept in the temporary folder. */
  const TemplateNames: seq<string> :=
    ["project_base_v", "masterdata_jp_v", "masterdata_en_v", "masterdata_ch_v",
     "defaultgame_jp_v", "defaultgame_en_v", "defaultgame_ch_v"]

  /** The archive file names copied into the version folder: each template's
      archive for this version that the package holds, in template order. */
  function ZipsToCopy(archive: set<string>): (r: seq<string>)
    ensures |r| <= |TemplateNames|
    ensures forall z :: z in r <==> z in archive && exists t :: t in TemplateNames && z == t + InstallVersionText + ".zip"
  {
    ZipsFrom(TemplateNames, archive)
  }

  function ZipsFrom(templates: seq<string>, archive: set<string>): (r: seq<string>)
    ensures |r| <= |templates|
    ensures forall z :: z in r <==> z in archive && exists t :: t in templates && z == t + InstallVersionText + ".zip"
  {
    if templates == [] then []
    else
      var z := templates[0] + InstallVersionText + ".zip";
      var rest := ZipsFrom(templates[1..], archive);
      assert forall t :: t in templates <==> t == templates[0] || t in templates[1..];
      (if z in archive then [z] else []) + rest
  }

  /** The files of the temporary folder that are deleted as stale archives. */
  function StaleZips(files: seq<string>): (r: seq<string>)
    ensures forall f :: f in r <==> f in files && Extension(f) == ".zip"
  {
    if files == [] then []
    else
      var rest := StaleZips(files[1..]);
      assert forall f :: f in files <==> f == files[0] || f in files[1..];
      (if Extension(files[0]) == ".zip" then [files[0]] else []) + rest
  }
}
