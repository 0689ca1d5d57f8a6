/** The RPG Maker asset handler: image and sound files sorted into fixed
    category directories under `Storage/Images` and `Storage/Sounds`.

    The storage is a map per kind from category directory name (such as
    "Characters" or "BGM") to the files under it, each given by its path
    relative to that directory; a name without a directory separator is a
    file directly in the category directory, one with a separator lies in a
    sub-directory.  A category directory that is not a key of the map does
    not exist.  A missing `Images` or `Sounds` root is a map with no keys. */
module RPGMakerAssetsHandler {
  import opened Wrappers
  import opened Text
  import opened Seqs

  datatype Kind = Images | Sounds

  // ---------------------------------------------------------------------------
  // Category tables
  // ---------------------------------------------------------------------------

  /** `ImageCategories`: payload key to directory name, in declaration order. */
  const ImageCategories: seq<(string, string)> :=
    [("characters", "Characters"), ("faces", "Faces"), ("objects", "Objects"), ("enemy", "Enemy"),
     ("sv_actors", "SV_Actors"), ("system", "System"), ("ui", "Ui"), ("titles1", "Titles1"),
     ("titles2", "Titles2"), ("pictures", "Pictures"), ("parallaxes", "Parallaxes"),
     ("animation", "Animation"), ("background", "Background")]

  /** `SoundCategories`. */
  const SoundCategories: seq<(string, string)> :=
    [("bgm", "BGM"), ("bgs", "BGS"), ("me", "ME"), ("se", "SE")]

  function Table(kind: Kind): seq<(string, string)> {
    if kind == Images then ImageCategories else SoundCategories
  }

  function Keys(table: seq<(string, string)>): (r: seq<string>)
    ensures |r| == |table| && forall i :: 0 <= i < |table| ==> r[i] == table[i].0
  {
    seq(|table|, i requires 0 <= i < |table| => table[i].0)
  }

  /** The category directories of a kind, in table order. */
  function Dirs(kind: Kind): (r: seq<string>)
    ensures |r| == |Table(kind)| && forall i :: 0 <= i < |r| ==> r[i] == Table(kind)[i].1
  {
    var table := Table(kind);
    seq(|table|, i requires 0 <= i < |table| => table[i].1)
  }

  /** The extensions each kind accepts, lower-case, in the order the listing
      operations search for them. */
  function Extensions(kind: Kind): seq<string> {
    if kind == Images then [".png", ".jpg", ".jpeg"] else [".wav", ".mp3", ".ogg"]
  }

  /** Both tables have distinct keys and distinct directories, thirteen
      image categories and four sound categories. */
  lemma TablesAreFunctional()
    ensures |ImageCategories| == 13 && |SoundCategories| == 4
    ensures Distinct(Keys(ImageCategories)) && Distinct(Keys(SoundCategories))
    ensures Distinct(Dirs(Images)) && Distinct(Dirs(Sounds))
  {
    ImageKeysDistinct();
    ImageDirsDistinct();
    assert Distinct(Keys(SoundCategories));
    assert Distinct(Dirs(Sounds));
  }

  lemma ImageKeysDistinct()
    ensures Distinct(Keys(ImageCategories))
  {
  }

  lemma ImageDirsDistinct()
    ensures Distinct(Dirs(Images))
  {
  }

  /** The directory stored under `key`, if the table has it. */
  function Lookup(table: seq<(string, string)>, key: string): (r: Option<string>)
    ensures r.Some? <==> key in Keys(table)
    ensures r.Some? ==> (key, r.value) in table
  {
    if table == [] then None
    else if table[0].0 == key then Some(table[0].1)
    else
      var rest := Lookup(table[1..], key);
      assert Keys(table) == [table[0].0] + Keys(table[1..]);
      rest
  }

  /** `GetString(payload, "category")?.ToLower()`. */
  function Normalized(category: Option<string>): (r: Option<string>)
    ensures r.Some? <==> category.Some?
    ensures r.Some? ==> r.value == ToLower(category.value)
  {
    if category.Some? then Some(ToLower(category.value)) else None
  }

  /** The directory a requested category names: present exactly when the
      lower-cased category is non-empty and one of the kind's keys. */
  function CategoryDir(kind: Kind, category: Option<string>): (r: Option<string>)
    ensures r.Some? <==> category.Some? && ToLower(category.value) in Keys(Table(kind))
    ensures r.Some? ==> (ToLower(category.value), r.value) in Table(kind) && r.value in Dirs(kind)
  {
    var c := Normalized(category);
    if c.None? || c.value == "" then None
    else
      var r := Lookup(Table(kind), c.value);
      assert r.Some? ==> r.value in Dirs(kind) by {
        if r.Some? {
          var i :| 0 <= i < |Table(kind)| && Table(kind)[i] == (c.value, r.value);
          assert Dirs(kind)[i] == r.value;
        }
      }
      r
  }

  /** `string.Join(sep, parts)`. */
  function JoinWith(parts: seq<string>, sep: string): string {
    if parts == [] then ""
    else if |parts| == 1 then parts[0]
    else parts[0] + sep + JoinWith(parts[1..], sep)
  }

  // ---------------------------------------------------------------------------
  // Errors of the single-file operations
  // ---------------------------------------------------------------------------

  datatype AssetError =
    | FilenameRequired
    | CategoryRequired(kind: Kind)
    | FileNotFound(kind: Kind, filename: string, category: Option<string>)
    | SourcePathRequired
    | SourceMissing(sourcePath: string)

  function Noun(kind: Kind): string {
    if kind == Images then "Image" else "Sound"
  }

  /** The message of the exception each error stands for.  `FileNotFound`
      names the lower-cased category only in the get-by-id operations. */
  function Message(e: AssetError): string {
    match e
    case FilenameRequired => "Filename is required."
    case CategoryRequired(kind) => "Valid category is required. Available: " + JoinWith(Keys(Table(kind)), ", ")
    case FileNotFound(kind, filename, category) =>
      Noun(kind) + " file not found: " + filename
      + (if category.Some? then " in category " + category.value else "")
    case SourcePathRequired => "Source path is required."
    case SourceMissing(sourcePath) => "Source file does not exist: " + sourcePath
  }

  /** The storage of every category directory of one kind. */
  type Folders = map<string, seq<string>>

  /** The checks that get-by-id, export and delete share, in their order: a
      file name, a valid category, then the file in that category's
      directory.  The result is the directory. */
  function Locate(kind: Kind, folders: Folders, filename: Option<string>, category: Option<string>,
                  naming: bool): (r: Result<string, AssetError>)
    ensures r.Ok? <==> filename.Some? && filename.value != "" && CategoryDir(kind, category).Some?
                       && CategoryDir(kind, category).value in folders
                       && filename.value in folders[CategoryDir(kind, category).value]
    ensures r.Ok? ==> r.value == CategoryDir(kind, category).value
    ensures r == Err(FilenameRequired) <==> filename.None? || filename.value == ""
    ensures r.Err? && r.error.CategoryRequired? <==>
              filename.Some? && filename.value != "" && CategoryDir(kind, category).None?
  {
    if filename.None? || filename.value == "" then Err(FilenameRequired)
    else
      match CategoryDir(kind, category)
      case None => Err(CategoryRequired(kind))
      case Some(dir) =>
        if dir in folders && filename.value in folders[dir] then Ok(dir)
        else Err(FileNotFound(kind, filename.value, if naming then Normalized(category) else None))
  }

  /** `GetImageById` / `GetSoundById`: the file name and the category's
      directory name (size and modification time are not modelled). */
  function GetById(kind: Kind, folders: Folders, filename: Option<string>, category: Option<string>)
    : (r: Result<AssetEntry, AssetError>)
    ensures r.Ok? ==> r.value.category in folders && r.value.filename in folders[r.value.category]
    ensures r.Ok? ==> Some(r.value.filename) == filename && Some(r.value.category) == CategoryDir(kind, category)
    ensures r.Ok? <==> filename.Some? && filename.value != "" && CategoryDir(kind, category).Some?
                       && CategoryDir(kind, category).value in folders
                       && filename.value in folders[CategoryDir(kind, category).value]
    ensures r == Err(FilenameRequired) <==> filename.None? || filename.value == ""
    ensures filename.Some? && filename.value != "" && CategoryDir(kind, category).None? ==>
              r == Err(CategoryRequired(kind))
    ensures filename.Some? && filename.value != "" && CategoryDir(kind, category).Some? && r.Err? ==>
              r == Err(FileNotFound(kind, filename.value, Normalized(category)))
    ensures r.Err? && r.error.FileNotFound? ==> r.error.category == Normalized(category)
  {
    match Locate(kind, folders, filename, category, true)
    case Err(e) => Err(e)
    case Ok(dir) => Ok(AssetEntry(filename.value, dir))
  }

  /** `ExportImage` / `ExportSound`: the relative source path copied out (the
      target path and the copy itself are not modelled). */
  function Export(kind: Kind, folders: Folders, filename: Option<string>, category: Option<string>)
    : (r: Result<string, AssetError>)
    ensures r.Ok? <==> Locate(kind, folders, filename, category, false).Ok?
    ensures r.Ok? ==> var dir := CategoryDir(kind, category).value; r.value == dir + "/" + filename.value
    ensures r.Err? && r.error.FileNotFound? ==> r.error.category.None?
  {
    match Locate(kind, folders, filename, category, false)
    case Err(e) => Err(e)
    case Ok(dir) => Ok(dir + "/" + filename.value)
  }

  /** `DeleteImage` / `DeleteSound`: the file leaves its category directory. */
  function Delete(kind: Kind, folders: Folders, filename: Option<string>, category: Option<string>)
    : (r: Result<(Folders, string), AssetError>)
  {
    match Locate(kind, folders, filename, category, false)
    case Err(e) => Err(e)
    case Ok(dir) =>
      var name := filename.value;
      Ok((folders[dir := Filter(folders[dir], (f: string) => f != name)],
          Noun(kind) + " '" + name + "' deleted successfully."))
  }

  /** A successful delete removes exactly the named file: the directory keeps
      every other file in order, the other directories are untouched, and a
      second delete of the same file fails with "file not found". */
  lemma DeleteRemovesFile(kind: Kind, folders: Folders, filename: Option<string>, category: Option<string>)
    requires Delete(kind, folders, filename, category).Ok?
    ensures var dir := CategoryDir(kind, category).value;
            var after := Delete(kind, folders, filename, category).value.0;
            && after.Keys == folders.Keys
            && (forall d :: d in folders && d != dir ==> after[d] == folders[d])
            && filename.value in folders[dir] && filename.value !in after[dir]
            && after[dir] == Filter(folders[dir], (f: string) => f != filename.value)
            && Delete(kind, after, filename, category) == Err(FileNotFound(kind, filename.value, None))
  {
  }

  /** `ImportImage` / `ImportSound`.  Whether the source file exists is a
      parameter; the copy (which overwrites) puts the file into the category
      directory, creating that directory when it is missing.  The stored name
      is the given file name or, when none is given, the source's file name. */
  function Import(kind: Kind, folders: Folders, sourcePath: Option<string>, category: Option<string>,
                  filename: Option<string>, sourceExists: bool): (r: Result<(Folders, string), AssetError>)
    ensures r == Err(SourcePathRequired) <==> sourcePath.None? || sourcePath.value == ""
    ensures r.Ok? <==> sourcePath.Some? && sourcePath.value != "" && CategoryDir(kind, category).Some? && sourceExists
  {
    if sourcePath.None? || sourcePath.value == "" then Err(SourcePathRequired)
    else
      match CategoryDir(kind, category)
      case None => Err(CategoryRequired(kind))
      case Some(dir) =>
        if !sourceExists then Err(SourceMissing(sourcePath.value))
        else
          var name := if filename.None? || filename.value == "" then FileName(sourcePath.value) else filename.value;
          Ok((Store(folders, dir, name), name))
  }

  /** The copy into `dir`: the directory is created when missing, and an
      existing file of that name is overwritten rather than listed twice. */
  function Store(folders: Folders, dir: string, name: string): Folders {
    var files := if dir in folders then folders[dir] else [];
    folders[dir := if name in files then files else files + [name]]
  }

  /** Storing a file adds its directory, holds the name exactly once more
      than before unless it was already there, and touches nothing else. */
  lemma StoreAddsOnce(folders: Folders, dir: string, name: string)
    ensures var after := Store(folders, dir, name);
            && after.Keys == folders.Keys + {dir}
            && (forall d :: d in folders && d != dir ==> after[d] == folders[d])
            && name in after[dir]
            && multiset(after[dir])[name] == (if dir in folders && name in folders[dir] then multiset(folders[dir])[name] else 1)
  {
    var files := if dir in folders then folders[dir] else [];
    if name !in files {
      assert multiset(files + [name]) == multiset(files) + multiset{name};
    }
  }

  /** An import makes the file findable under its category, adds it at most
      once, and leaves every other directory as it was. */
  lemma ImportThenFind(kind: Kind, folders: Folders, sourcePath: Option<string>, category: Option<string>,
                       filename: Option<string>, sourceExists: bool)
    requires Import(kind, folders, sourcePath, category, filename, sourceExists).Ok?
    ensures var (after, name) := Import(kind, folders, sourcePath, category, filename, sourceExists).value;
            var dir := CategoryDir(kind, category).value;
            && (filename.Some? && filename.value != "" ==> name == filename.value)
            && (filename.None? || filename.value == "" ==> name == FileName(sourcePath.value))
            && after.Keys == folders.Keys + {dir}
            && (forall d :: d in folders && d != dir ==> after[d] == folders[d])
            && (name != "" ==> Locate(kind, after, Some(name), category, false) == Ok(dir))
            && multiset(after[dir])[name] == (if dir in folders && name in folders[dir] then multiset(folders[dir])[name] else 1)
  {
    var dir := CategoryDir(kind, category).value;
    var name := if filename.None? || filename.value == "" then FileName(sourcePath.value) else filename.value;
    var after := Store(folders, dir, name);
    assert Import(kind, folders, sourcePath, category, filename, sourceExists).value == (after, name);
    StoreAddsOnce(folders, dir, name);
    if name != "" {
      assert Locate(kind, after, Some(name), category, false) == Ok(dir);
    }
  }

  // ---------------------------------------------------------------------------
  // Listing (`ListImages`, `GetImages`, `ListSounds`, `GetSounds`)
  // ---------------------------------------------------------------------------

  datatype AssetEntry = AssetEntry(filename: string, category: string)

  /** A file directly in its category directory. */
  predicate TopLevel(file: string) {
    forall i :: 0 <= i < |file| ==> !IsDirSeparator(file[i])
  }

  /** The top-level files `Directory.GetFiles(path, "*" + ext)` returns. */
  function Matching(files: seq<string>, ext: string): (r: seq<string>)
    ensures forall f :: f in r <==> f in files && TopLevel(f) && Extension(f) == ext
  {
    Filter(files, (f: string) => TopLevel(f) && Extension(f) == ext)
  }

  /** One entry per file, in the files' order. */
  function Entries(dir: string, files: seq<string>): (r: seq<AssetEntry>)
    ensures |r| == |files| && forall i :: 0 <= i < |files| ==> r[i] == AssetEntry(files[i], dir)
    ensures forall e :: e in r <==> e.category == dir && e.filename in files
  {
    if files == [] then [] else [AssetEntry(files[0], dir)] + Entries(dir, files[1..])
  }

  /** The entries for one directory (`GetImageFileIds`, `GetSoundFileIds`):
      the files of each extension after those of the extensions before it. */
  function FolderListing(kind: Kind, dir: string, files: seq<string>): (r: seq<AssetEntry>)
  {
    var exts := Extensions(kind);
    Entries(dir, Matching(files, exts[0]) + Matching(files, exts[1]) + Matching(files, exts[2]))
  }

  /** The directories a list operation scans: the requested category's own
      directory when the category is valid, every directory otherwise. */
  function ScanDirs(kind: Kind, category: Option<string>): (r: seq<string>)
    ensures CategoryDir(kind, category).Some? ==> r == [CategoryDir(kind, category).value]
    ensures CategoryDir(kind, category).None? ==> r == Dirs(kind)
  {
    match CategoryDir(kind, category)
    case Some(dir) => [dir]
    case None => Dirs(kind)
  }

  /** The listing of the directories in `dirs` that exist, in order. */
  function ListingOf(kind: Kind, folders: Folders, dirs: seq<string>): seq<AssetEntry>
  {
    if dirs == [] then []
    else
      var last := dirs[|dirs| - 1];
      ListingOf(kind, folders, dirs[..|dirs| - 1]) + (if last in folders then FolderListing(kind, last, folders[last]) else [])
  }

  /** One directory's listing holds exactly its top-level files with one of
      the kind's extensions. */
  lemma FolderListingIsExact(kind: Kind, dir: string, files: seq<string>, e: AssetEntry)
    ensures e in FolderListing(kind, dir, files) <==>
              e.category == dir && e.filename in files && TopLevel(e.filename) && Extension(e.filename) in Extensions(kind)
  {
    var exts := Extensions(kind);
    var f := e.filename;
    var m0, m1, m2 := Matching(files, exts[0]), Matching(files, exts[1]), Matching(files, exts[2]);
    assert FolderListing(kind, dir, files) == Entries(dir, m0 + m1 + m2);
    assert f in m0 + m1 + m2 <==> f in m0 || f in m1 || f in m2;
    assert f in m0 <==> f in files && TopLevel(f) && Extension(f) == exts[0];
    assert f in m1 <==> f in files && TopLevel(f) && Extension(f) == exts[1];
    assert f in m2 <==> f in files && TopLevel(f) && Extension(f) == exts[2];
    InThree(Extension(f), exts);
  }

  lemma InThree(x: string, xs: seq<string>)
    requires |xs| == 3
    ensures x in xs <==> x == xs[0] || x == xs[1] || x == xs[2]
  {
  }

  /** Every entry of a listing is a top-level file with one of the kind's
      extensions in an existing scanned directory, and every such file is
      listed. */
  lemma {:induction false} ListingIsExact(kind: Kind, folders: Folders, dirs: seq<string>, e: AssetEntry)
    ensures e in ListingOf(kind, folders, dirs) <==>
              e.category in dirs && e.category in folders && e.filename in folders[e.category]
              && TopLevel(e.filename) && Extension(e.filename) in Extensions(kind)
  {
    if dirs != [] {
      var init := dirs[..|dirs| - 1];
      var last := dirs[|dirs| - 1];
      ListingIsExact(kind, folders, init, e);
      assert dirs == init + [last];
      if last in folders {
        FolderListingIsExact(kind, last, folders[last], e);
      }
    }
  }

  /** The listing loop: one directory after the other, appending each
      existing directory's entries. */
  method ListAssets(kind: Kind, folders: Folders, category: Option<string>) returns (r: seq<AssetEntry>)
    ensures r == ListingOf(kind, folders, ScanDirs(kind, category))
  {
    var dirs := ScanDirs(kind, category);
    r := ListDirs(kind, folders, dirs);
  }

  lemma ListingStep(kind: Kind, folders: Folders, dirs: seq<string>, i: nat)
    requires i < |dirs|
    ensures ListingOf(kind, folders, dirs[..i + 1]) ==
            ListingOf(kind, folders, dirs[..i]) + (if dirs[i] in folders then FolderListing(kind, dirs[i], folders[dirs[i]]) else [])
  {
    assert dirs[..i + 1][..i] == dirs[..i];
  }

  method ListDirs(kind: Kind, folders: Folders, dirs: seq<string>) returns (r: seq<AssetEntry>)
    ensures r == ListingOf(kind, folders, dirs)
  {
    r := [];
    var i := 0;
    while i < |dirs|
      invariant 0 <= i <= |dirs|
      invariant r == ListingOf(kind, folders, dirs[..i])
    {
      var dir := dirs[i];
      ListingStep(kind, folders, dirs, i);
      if dir in folders {
        r := r + FolderListing(kind, dir, folders[dir]);
      }
      i := i + 1;
    }
    assert dirs[..i] == dirs;
  }

  /** An empty, unknown or absent category lists every category, so it lists
      exactly what no category filter at all would. */
  lemma UnknownCategoryListsAll(kind: Kind, folders: Folders, category: Option<string>)
    requires category.None? || ToLower(category.value) !in Keys(Table(kind))
    ensures ScanDirs(kind, category) == Dirs(kind)
    ensures forall e :: e in ListingOf(kind, folders, ScanDirs(kind, category)) <==>
              e.category in Dirs(kind) && e.category in folders && e.filename in folders[e.category]
              && TopLevel(e.filename) && Extension(e.filename) in Extensions(kind)
  {
    forall e ensures e in ListingOf(kind, folders, Dirs(kind)) <==>
              e.category in Dirs(kind) && e.category in folders && e.filename in folders[e.category]
              && TopLevel(e.filename) && Extension(e.filename) in Extensions(kind)
    {
      ListingIsExact(kind, folders, Dirs(kind), e);
    }
  }

  /** A valid category lists only its own directory. */
  lemma KnownCategoryListsOne(kind: Kind, folders: Folders, category: Option<string>, e: AssetEntry)
    requires category.Some? && ToLower(category.value) in Keys(Table(kind))
    ensures e in ListingOf(kind, folders, ScanDirs(kind, category)) ==>
              Some(e.category) == CategoryDir(kind, category) && e.category in folders && e.filename in folders[e.category]
  {
    ListingIsExact(kind, folders, ScanDirs(kind, category), e);
  }

  // ---------------------------------------------------------------------------
  // `ValidateAssets`
  // ---------------------------------------------------------------------------

  datatype Verdict = Accepted | Ignored | Unsupported

  function LowerExtension(file: string): string {
    ToLower(Extension(file))
  }

  /** A file is accepted when its lower-cased extension is one of the kind's,
      ignored when it is ".meta", and unsupported otherwise. */
  function Classify(kind: Kind, file: string): Verdict {
    VerdictFor(kind, LowerExtension(file))
  }

  /** The verdict for a lower-cased extension: no kind accepts ".meta", so
      the three verdicts are told apart by the extension alone. */
  function VerdictFor(kind: Kind, ext: string): (r: Verdict)
    ensures r == Accepted <==> ext in Extensions(kind)
    ensures r == Ignored <==> ext == ".meta"
  {
    InThree(".meta", Extensions(kind));
    if ext in Extensions(kind) then Accepted
    else if ext == ".meta" then Ignored
    else Unsupported
  }

  datatype Issue = Issue(issueType: string, file: string, category: string, message: string)

  function IssueFor(kind: Kind, dir: string, file: string): Issue {
    if kind == Images then
      Issue("invalid_image_format", file, dir, "Unsupported image format: " + LowerExtension(file))
    else
      Issue("invalid_sound_format", file, dir, "Unsupported sound format: " + LowerExtension(file))
  }

  /** How many files of `files` have the verdict `v`. */
  function CountOf(kind: Kind, files: seq<string>, v: Verdict): nat {
    if files == [] then 0
    else CountOf(kind, files[..|files| - 1], v) + (if Classify(kind, files[|files| - 1]) == v then 1 else 0)
  }

  /** The issues of one directory, in file order. */
  function IssuesIn(kind: Kind, dir: string, files: seq<string>): seq<Issue> {
    if files == [] then []
    else
      var last := files[|files| - 1];
      IssuesIn(kind, dir, files[..|files| - 1]) + (if Classify(kind, last) == Unsupported then [IssueFor(kind, dir, last)] else [])
  }

  /** Each unsupported file yields exactly one issue, naming it. */
  lemma {:induction false} IssuesAreUnsupported(kind: Kind, dir: string, files: seq<string>)
    ensures |IssuesIn(kind, dir, files)| == CountOf(kind, files, Unsupported)
    ensures forall k :: 0 <= k < |IssuesIn(kind, dir, files)| ==>
              var issue := IssuesIn(kind, dir, files)[k];
              issue.file in files && Classify(kind, issue.file) == Unsupported && issue == IssueFor(kind, dir, issue.file)
  {
    if files != [] {
      var init := files[..|files| - 1];
      var last := files[|files| - 1];
      IssuesAreUnsupported(kind, dir, init);
      var before := IssuesIn(kind, dir, init);
      var here: seq<Issue> := if Classify(kind, last) == Unsupported then [IssueFor(kind, dir, last)] else [];
      assert IssuesIn(kind, dir, files) == before + here;
      assert IssueFor(kind, dir, last).file == last;
      forall k | 0 <= k < |before + here|
        ensures (before + here)[k].file in files && Classify(kind, (before + here)[k].file) == Unsupported
        ensures (before + here)[k] == IssueFor(kind, dir, (before + here)[k].file)
      {
        if k < |before| {
          assert (before + here)[k] == before[k];
          assert before[k].file in init;
          assert init <= files;
        } else {
          assert here != [] && (before + here)[k] == IssueFor(kind, dir, last);
          assert Classify(kind, last) == Unsupported;
        }
      }
    }
  }

  /** Every file of a directory is counted once: accepted, ignored, or
      reported as an issue. */
  lemma {:induction false} FolderCountsAddUp(kind: Kind, dir: string, files: seq<string>)
    ensures CountOf(kind, files, Accepted) + |IssuesIn(kind, dir, files)| + CountOf(kind, files, Ignored) == |files|
  {
    if files != [] {
      FolderCountsAddUp(kind, dir, files[..|files| - 1]);
    }
  }

  lemma FolderStep(kind: Kind, dir: string, files: seq<string>, i: nat)
    requires i < |files|
    ensures CountOf(kind, files[..i + 1], Accepted) ==
            CountOf(kind, files[..i], Accepted) + (if Classify(kind, files[i]) == Accepted then 1 else 0)
    ensures IssuesIn(kind, dir, files[..i + 1]) ==
            IssuesIn(kind, dir, files[..i]) + (if Classify(kind, files[i]) == Unsupported then [IssueFor(kind, dir, files[i])] else [])
  {
    assert files[..i + 1][..i] == files[..i];
  }

  /** The inner loop: the files of one directory, in order. */
  method ValidateFolder(kind: Kind, dir: string, files: seq<string>) returns (valid: nat, issues: seq<Issue>)
    ensures valid == CountOf(kind, files, Accepted)
    ensures issues == IssuesIn(kind, dir, files)
  {
    valid := 0;
    issues := [];
    var i := 0;
    while i < |files|
      invariant 0 <= i <= |files|
      invariant valid == CountOf(kind, files[..i], Accepted)
      invariant issues == IssuesIn(kind, dir, files[..i])
    {
      var verdict := Classify(kind, files[i]);
      FolderStep(kind, dir, files, i);
      if verdict == Accepted {
        valid := valid + 1;
      } else if verdict == Unsupported {
        issues := issues + [IssueFor(kind, dir, files[i])];
      }
      i := i + 1;
    }
    assert files[..i] == files;
  }

  /** Accepted files, issues, ignored files and all files of the existing
      directories among `dirs`. */
  function AcceptedAcross(kind: Kind, folders: Folders, dirs: seq<string>): nat {
    if dirs == [] then 0
    else
      var last := dirs[|dirs| - 1];
      AcceptedAcross(kind, folders, dirs[..|dirs| - 1]) + (if last in folders then CountOf(kind, folders[last], Accepted) else 0)
  }

  function IssuesAcross(kind: Kind, folders: Folders, dirs: seq<string>): seq<Issue> {
    if dirs == [] then []
    else
      var last := dirs[|dirs| - 1];
      IssuesAcross(kind, folders, dirs[..|dirs| - 1]) + (if last in folders then IssuesIn(kind, last, folders[last]) else [])
  }

  function IgnoredAcross(kind: Kind, folders: Folders, dirs: seq<string>): nat {
    if dirs == [] then 0
    else
      var last := dirs[|dirs| - 1];
      IgnoredAcross(kind, folders, dirs[..|dirs| - 1]) + (if last in folders then CountOf(kind, folders[last], Ignored) else 0)
  }

  function FilesAcross(folders: Folders, dirs: seq<string>): nat {
    if dirs == [] then 0
    else
      var last := dirs[|dirs| - 1];
      FilesAcross(folders, dirs[..|dirs| - 1]) + (if last in folders then |folders[last]| else 0)
  }

  /** validAssets + issueCount + the ignored ".meta" files is the number of
      files scanned. */
  lemma {:induction false} ValidationCountsAddUp(kind: Kind, folders: Folders, dirs: seq<string>)
    ensures AcceptedAcross(kind, folders, dirs) + |IssuesAcross(kind, folders, dirs)| + IgnoredAcross(kind, folders, dirs)
            == FilesAcross(folders, dirs)
  {
    if dirs != [] {
      var last := dirs[|dirs| - 1];
      ValidationCountsAddUp(kind, folders, dirs[..|dirs| - 1]);
      if last in folders {
        FolderCountsAddUp(kind, last, folders[last]);
      }
    }
  }

  lemma AcrossStep(kind: Kind, folders: Folders, dirs: seq<string>, i: nat)
    requires i < |dirs|
    ensures AcceptedAcross(kind, folders, dirs[..i + 1]) ==
            AcceptedAcross(kind, folders, dirs[..i]) + (if dirs[i] in folders then CountOf(kind, folders[dirs[i]], Accepted) else 0)
    ensures IssuesAcross(kind, folders, dirs[..i + 1]) ==
            IssuesAcross(kind, folders, dirs[..i]) + (if dirs[i] in folders then IssuesIn(kind, dirs[i], folders[dirs[i]]) else [])
  {
    assert dirs[..i + 1][..i] == dirs[..i];
  }

  /** One kind's part of `ValidateAssets`: every existing category directory
      in table order, every file in it (sub-directories included). */
  method ValidateKind(kind: Kind, folders: Folders) returns (valid: nat, issues: seq<Issue>)
    ensures valid == AcceptedAcross(kind, folders, Dirs(kind))
    ensures issues == IssuesAcross(kind, folders, Dirs(kind))
  {
    valid, issues := ValidateDirs(kind, folders, Dirs(kind));
  }

  method ValidateDirs(kind: Kind, folders: Folders, dirs: seq<string>) returns (valid: nat, issues: seq<Issue>)
    ensures valid == AcceptedAcross(kind, folders, dirs)
    ensures issues == IssuesAcross(kind, folders, dirs)
  {
    valid := 0;
    issues := [];
    var i := 0;
    while i < |dirs|
      invariant 0 <= i <= |dirs|
      invariant valid == AcceptedAcross(kind, folders, dirs[..i])
      invariant issues == IssuesAcross(kind, folders, dirs[..i])
    {
      var dir := dirs[i];
      AcrossStep(kind, folders, dirs, i);
      if dir in folders {
        var v, found := ValidateFolder(kind, dir, folders[dir]);
        valid := valid + v;
        issues := issues + found;
      }
      i := i + 1;
    }
    assert dirs[..i] == dirs;
  }

  // ---------------------------------------------------------------------------
  // `GetAssetInfo`
  // ---------------------------------------------------------------------------

  /** The files directly in a directory whose lower-cased extension is one
      of the kind's. */
  function CountValid(kind: Kind, files: seq<string>): nat {
    if files == [] then 0
    else
      var last := files[|files| - 1];
      CountValid(kind, files[..|files| - 1]) + (if TopLevel(last) && LowerExtension(last) in Extensions(kind) then 1 else 0)
  }

  /** The per-category counts, keyed by the category's payload key in table
      order; a missing directory counts 0. */
  function Stats(kind: Kind, folders: Folders): (r: seq<(string, nat)>)
    ensures |r| == |Table(kind)|
    ensures forall i :: 0 <= i < |r| ==> r[i].0 == Table(kind)[i].0
    ensures forall i :: 0 <= i < |r| ==>
              r[i].1 == (if Table(kind)[i].1 in folders then CountValid(kind, folders[Table(kind)[i].1]) else 0)
  {
    var table := Table(kind);
    seq(|table|, i requires 0 <= i < |table| =>
      (table[i].0, if table[i].1 in folders then CountValid(kind, folders[table[i].1]) else 0))
  }

  /** `Values.Sum()`. */
  function Sum(stats: seq<(string, nat)>): nat {
    if stats == [] then 0 else Sum(stats[..|stats| - 1]) + stats[|stats| - 1].1
  }

  /** `GetAssetInfo`'s record for one kind. */
  datatype KindInfo = KindInfo(totalCount: nat, categories: seq<(string, nat)>)

  function AssetInfo(kind: Kind, folders: Folders): (r: KindInfo)
    ensures r.categories == Stats(kind, folders) && r.totalCount == Sum(r.categories)
  {
    var stats := Stats(kind, folders);
    KindInfo(Sum(stats), stats)
  }

  /** The top-level files of the existing directories among `dirs`, in order. */
  function TopFiles(folders: Folders, dirs: seq<string>): seq<string> {
    if dirs == [] then []
    else
      var last := dirs[|dirs| - 1];
      TopFiles(folders, dirs[..|dirs| - 1]) + (if last in folders then folders[last] else [])
  }

  lemma {:induction false} CountValidAppend(kind: Kind, a: seq<string>, b: seq<string>)
    ensures CountValid(kind, a + b) == CountValid(kind, a) + CountValid(kind, b)
  {
    if b == [] {
      assert a + b == a;
    } else {
      CountValidAppend(kind, a, b[..|b| - 1]);
      assert (a + b)[..|a + b| - 1] == a + b[..|b| - 1];
      assert (a + b)[|a + b| - 1] == b[|b| - 1];
    }
  }

  /** The sum of per-directory counts is the count over the directories'
      files taken together, for any table of directories. */
  lemma {:induction false} SumCountsTopFiles(kind: Kind, folders: Folders, stats: seq<(string, nat)>, dirs: seq<string>, n: nat)
    requires |stats| == |dirs| && n <= |dirs|
    requires forall i :: 0 <= i < |dirs| ==>
               stats[i].1 == (if dirs[i] in folders then CountValid(kind, folders[dirs[i]]) else 0)
    ensures Sum(stats[..n]) == CountValid(kind, TopFiles(folders, dirs[..n]))
  {
    if n > 0 {
      SumCountsTopFiles(kind, folders, stats, dirs, n - 1);
      var dir := dirs[n - 1];
      var here := if dir in folders then folders[dir] else [];
      assert stats[..n][..n - 1] == stats[..n - 1];
      assert dirs[..n][..n - 1] == dirs[..n - 1];
      assert Sum(stats[..n]) == Sum(stats[..n - 1]) + stats[n - 1].1;
      assert TopFiles(folders, dirs[..n]) == TopFiles(folders, dirs[..n - 1]) + here;
      CountValidAppend(kind, TopFiles(folders, dirs[..n - 1]), here);
    }
  }

  /** `totalCount` counts every file with an accepted extension lying
      directly in one of the kind's existing category directories. */
  lemma TotalCountsEveryValidFile(kind: Kind, folders: Folders, n: nat)
    requires n <= |Table(kind)|
    ensures Sum(Stats(kind, folders)[..n]) == CountValid(kind, TopFiles(folders, Dirs(kind)[..n]))
  {
    SumCountsTopFiles(kind, folders, Stats(kind, folders), Dirs(kind), n);
  }

  /** Where a category holds no sub-directories, `ValidateAssets` accepts
      exactly the files `GetAssetInfo` counts for it. */
  lemma {:induction false} FlatFolderCountsAgree(kind: Kind, files: seq<string>)
    requires forall f :: f in files ==> TopLevel(f)
    ensures CountOf(kind, files, Accepted) == CountValid(kind, files)
  {
    if files != [] {
      FlatFolderCountsAgree(kind, files[..|files| - 1]);
    }
  }

  // ---------------------------------------------------------------------------
  // `OrganizeAssets`
  // ---------------------------------------------------------------------------

  /** The directories of `dirs` that do not yet exist, each counted once, in
      the order they are created. */
  function Missing(folders: Folders, dirs: seq<string>): nat
    decreases dirs
  {
    if dirs == [] then 0
    else
      var rest := Missing(if dirs[0] in folders then folders else folders[dirs[0] := []], dirs[1..]);
      if dirs[0] in folders then rest else rest + 1
  }

  /** The storage after creating each missing directory of `dirs` empty. */
  function Created(folders: Folders, dirs: seq<string>): Folders
    decreases dirs
  {
    if dirs == [] then folders
    else Created(if dirs[0] in folders then folders else folders[dirs[0] := []], dirs[1..])
  }

  /** Organizing creates each listed directory and no other. */
  lemma {:induction false} CreatedKeys(folders: Folders, dirs: seq<string>)
    ensures Created(folders, dirs).Keys == folders.Keys + set d | d in dirs
    decreases dirs
  {
    if dirs != [] {
      var next := if dirs[0] in folders then folders else folders[dirs[0] := []];
      CreatedKeys(next, dirs[1..]);
      assert (set d | d in dirs) == {dirs[0]} + set d | d in dirs[1..];
    }
  }

  /** Organizing keeps every existing directory as it was and creates the
      missing ones empty. */
  lemma {:induction false} CreatedValues(folders: Folders, dirs: seq<string>, d: string)
    requires d in folders || d in dirs
    ensures d in Created(folders, dirs)
    ensures Created(folders, dirs)[d] == if d in folders then folders[d] else []
    decreases dirs
  {
    if dirs != [] {
      var next := if dirs[0] in folders then folders else folders[dirs[0] := []];
      CreatedValues(next, dirs[1..], d);
    }
  }

  /** Each directory created adds one key. */
  lemma {:induction false} MissingCountsNewKeys(folders: Folders, dirs: seq<string>)
    ensures Missing(folders, dirs) <= |dirs|
    ensures folders.Keys <= Created(folders, dirs).Keys
    ensures |Created(folders, dirs).Keys| == |folders.Keys| + Missing(folders, dirs)
    decreases dirs
  {
    if dirs != [] {
      var next := if dirs[0] in folders then folders else folders[dirs[0] := []];
      MissingCountsNewKeys(next, dirs[1..]);
      if dirs[0] !in folders {
        assert next.Keys == folders.Keys + {dirs[0]};
        assert |next.Keys| == |folders.Keys| + 1;
      }
    }
  }

  lemma SubsetDifferenceSize<T>(a: set<T>, b: set<T>)
    requires a <= b
    ensures |b - a| == |b| - |a|
  {
    assert b == (b - a) + a;
    assert (b - a) * a == {};
  }

  /** The count is the number of directories created, so at most |dirs|. */
  lemma MissingCountsCreated(folders: Folders, dirs: seq<string>)
    ensures Missing(folders, dirs) <= |dirs|
    ensures Missing(folders, dirs) == |Created(folders, dirs).Keys - folders.Keys|
  {
    MissingCountsNewKeys(folders, dirs);
    SubsetDifferenceSize(folders.Keys, Created(folders, dirs).Keys);
  }

  /** A second run finds nothing left to create. */
  lemma {:induction false} OrganizeIsIdempotent(folders: Folders, dirs: seq<string>)
    ensures Missing(Created(folders, dirs), dirs) == 0
    ensures Created(Created(folders, dirs), dirs) == Created(folders, dirs)
  {
    forall d | d in dirs ensures d in Created(folders, dirs) {
      CreatedValues(folders, dirs, d);
    }
    AllPresent(Created(folders, dirs), dirs);
  }

  lemma {:induction false} AllPresent(folders: Folders, dirs: seq<string>)
    requires forall d :: d in dirs ==> d in folders
    ensures Missing(folders, dirs) == 0 && Created(folders, dirs) == folders
  {
    if dirs != [] {
      AllPresent(folders, dirs[1..]);
    }
  }

  /** The counting loop over one table's directories. */
  method CreateMissing(folders: Folders, dirs: seq<string>) returns (after: Folders, created: nat)
    ensures after == Created(folders, dirs) && created == Missing(folders, dirs)
  {
    after := folders;
    created := 0;
    var i := 0;
    while i < |dirs|
      invariant 0 <= i <= |dirs|
      invariant Created(after, dirs[i..]) == Created(folders, dirs)
      invariant created + Missing(after, dirs[i..]) == Missing(folders, dirs)
    {
      assert dirs[i..][1..] == dirs[i + 1..];
      if dirs[i] !in after {
        after := after[dirs[i] := []];
        created := created + 1;
      }
      i := i + 1;
    }
  }

  // ---------------------------------------------------------------------------
  // Operations
  // ---------------------------------------------------------------------------

  const ReadOnlyOperations: seq<string> :=
    ["listImages", "getImageById", "getImages", "listSounds", "getSoundById", "getSounds", "getAssetInfo", "validateAssets"]

  const SupportedOperations: seq<string> :=
    ["listImages", "getImageById", "getImages", "importImage", "exportImage", "deleteImage",
     "listSounds", "getSoundById", "getSounds", "importSound", "exportSound", "deleteSound",
     "getAssetInfo", "organizeAssets", "validateAssets", "backupAssets", "restoreAssets"]

  /** `RequiresCompilationWait`. */
  function RequiresCompilationWait(operation: string): bool {
    operation !in ReadOnlyOperations
  }

  /** Of the seventeen supported operations, exactly the nine that change
      files wait for recompilation. */
  lemma ChangingOperationsWait()
    ensures |SupportedOperations| == 17 && |ReadOnlyOperations| == 8
    ensures forall op :: op in ReadOnlyOperations ==> op in SupportedOperations && !RequiresCompilationWait(op)
    ensures forall op :: op in ["importImage", "exportImage", "deleteImage", "importSound", "exportSound",
                                "deleteSound", "organizeAssets", "backupAssets", "restoreAssets"] ==>
              op in SupportedOperations && RequiresCompilationWait(op)
  {
  }

  /** The two storage roots, held in variables between operations. */
  class AssetStore {
    var images: Folders
    var sounds: Folders

    function Of(kind: Kind): Folders
      reads this
    {
      if kind == Images then images else sounds
    }

    constructor(images: Folders, sounds: Folders)
      ensures this.images == images && this.sounds == sounds
    {
      this.images := images;
      this.sounds := sounds;
    }

    method List(kind: Kind, category: Option<string>) returns (r: seq<AssetEntry>)
      ensures r == ListingOf(kind, Of(kind), ScanDirs(kind, category))
    {
      r := ListAssets(kind, Of(kind), category);
    }

    method GetAssetInfo() returns (imageInfo: KindInfo, soundInfo: KindInfo)
      ensures imageInfo == AssetInfo(Images, images) && soundInfo == AssetInfo(Sounds, sounds)
    {
      imageInfo := AssetInfo(Images, images);
      soundInfo := AssetInfo(Sounds, sounds);
    }

    /** `ValidateAssets`: images first, then sounds. */
    method ValidateAssets() returns (valid: nat, issues: seq<Issue>)
      ensures valid == AcceptedAcross(Images, images, Dirs(Images)) + AcceptedAcross(Sounds, sounds, Dirs(Sounds))
      ensures issues == IssuesAcross(Images, images, Dirs(Images)) + IssuesAcross(Sounds, sounds, Dirs(Sounds))
    {
      var imageValid, imageIssues := ValidateKind(Images, images);
      var soundValid, soundIssues := ValidateKind(Sounds, sounds);
      valid := imageValid + soundValid;
      issues := imageIssues + soundIssues;
    }

    /** `OrganizeAssets`: creates the missing image then sound category
        directories and counts them. */
    method OrganizeAssets() returns (organized: nat)
      modifies this
      ensures images == Created(old(images), Dirs(Images)) && sounds == Created(old(sounds), Dirs(Sounds))
      ensures organized == Missing(old(images), Dirs(Images)) + Missing(old(sounds), Dirs(Sounds))
    {
      var created: nat;
      images, organized := CreateMissing(images, Dirs(Images));
      sounds, created := CreateMissing(sounds, Dirs(Sounds));
      organized := organized + created;
    }

    method DeleteAsset(kind: Kind, filename: Option<string>, category: Option<string>)
      returns (r: Result<string, AssetError>)
      modifies this
      ensures Applied(old(Of(kind)), Of(kind), r, Delete(kind, old(Of(kind)), filename, category))
      ensures Of(if kind == Images then Sounds else Images) == old(Of(if kind == Images then Sounds else Images))
    {
      var spec := Delete(kind, Of(kind), filename, category);
      if spec.Err? {
        return Err(spec.error);
      }
      if kind == Images {
        images := spec.value.0;
      } else {
        sounds := spec.value.0;
      }
      r := Ok(spec.value.1);
    }

    method ImportAsset(kind: Kind, sourcePath: Option<string>, category: Option<string>,
                       filename: Option<string>, sourceExists: bool) returns (r: Result<string, AssetError>)
      modifies this
      ensures Applied(old(Of(kind)), Of(kind), r, Import(kind, old(Of(kind)), sourcePath, category, filename, sourceExists))
      ensures Of(if kind == Images then Sounds else Images) == old(Of(if kind == Images then Sounds else Images))
    {
      var spec := Import(kind, Of(kind), sourcePath, category, filename, sourceExists);
      if spec.Err? {
        return Err(spec.error);
      }
      if kind == Images {
        images := spec.value.0;
      } else {
        sounds := spec.value.0;
      }
      r := Ok(spec.value.1);
    }
  }

  /** The store changed as `spec` says, or not at all on an error. */
  predicate Applied(before: Folders, after: Folders, r: Result<string, AssetError>,
                    spec: Result<(Folders, string), AssetError>)
  {
    match spec
    case Err(e) => r == Err(e) && after == before
    case Ok(out) => r == Ok(out.1) && after == out.0
  }

  /** After organizing, every category directory exists, at most seventeen
      were created, and the files already stored are untouched. */
  lemma OrganizeCreatesEveryCategory(images: Folders, sounds: Folders)
    ensures Missing(images, Dirs(Images)) + Missing(sounds, Dirs(Sounds)) <= 17
    ensures forall d :: d in Dirs(Images) ==> d in Created(images, Dirs(Images))
    ensures forall d :: d in Dirs(Sounds) ==> d in Created(sounds, Dirs(Sounds))
    ensures forall d :: d in images ==> d in Created(images, Dirs(Images)) && Created(images, Dirs(Images))[d] == images[d]
    ensures forall d :: d in sounds ==> d in Created(sounds, Dirs(Sounds)) && Created(sounds, Dirs(Sounds))[d] == sounds[d]
  {
    MissingCountsCreated(images, Dirs(Images));
    MissingCountsCreated(sounds, Dirs(Sounds));
    forall d | d in images || d in Dirs(Images) ensures d in Created(images, Dirs(Images)) && Created(images, Dirs(Images))[d] == if d in images then images[d] else [] {
      CreatedValues(images, Dirs(Images), d);
    }
    forall d | d in sounds || d in Dirs(Sounds) ensures d in Created(sounds, Dirs(Sounds)) && Created(sounds, Dirs(Sounds))[d] == if d in sounds then sounds[d] else [] {
      CreatedValues(sounds, Dirs(Sounds), d);
    }
  }
}
