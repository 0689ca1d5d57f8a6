/** The editor bridge's path-safety checks and token masking
    (`Editor/MCPBridge/Config/McpBridgeConstants.cs`).

    `System.IO.Path.GetFullPath` is not modelled: both checks take it as a
    parameter `fullPath`, which either normalises a path or fails with the
    exception's message.  `Application.dataPath` is the parameter `dataPath`.
    A C# `null` string is `None`. */
module McpBridgeConstants {
  import opened Wrappers
  import opened Text
  import Constants

  const TokenVisibleChars: int := 4

  predicate IsNullOrEmpty(s: Option<string>) {
    s.None? || s.value == ""
  }

  /** `MaskToken`. */
  function MaskToken(token: Option<string>): (r: string)
    ensures IsNullOrEmpty(token) ==> r == "not set"
    ensures !IsNullOrEmpty(token) && |token.value| > TokenVisibleChars ==>
              r == "****" + token.value[|token.value| - TokenVisibleChars..]
    ensures !IsNullOrEmpty(token) && |token.value| <= TokenVisibleChars ==> r == "set"
  {
    if IsNullOrEmpty(token) then "not set"
    else if |token.value| > TokenVisibleChars then "****" + token.value[|token.value| - TokenVisibleChars..]
    else "set"
  }

  /** Text whose every character lies in the Basic Multilingual Plane, so
      that a C# string (UTF-16 code units) and a Python string (code points)
      have the same length and the same slices. */
  predicate InBmp(s: string) {
    forall i :: 0 <= i < |s| ==> (s[i] as int) < 0x1_0000
  }

  /** On text within the Basic Multilingual Plane, the editor and the server
      mask a token identically. */
  lemma MaskTokenAgrees(token: Option<string>)
    requires token.None? || InBmp(token.value)
    ensures MaskToken(token) == Constants.MaskToken(token)
  {
  }

  /** The root a check compares against: the explicit root, else the
      project's `Assets` directory. */
  function RootPath(allowedRoot: Option<string>, dataPath: string): string {
    allowedRoot.GetOr(dataPath)
  }

  /** `IsPathWithinProject`: false for an empty path or when either
      normalisation fails; otherwise whether the normalised path starts with
      the normalised root, ignoring case (a plain string prefix test). */
  function IsPathWithinProject(path: Option<string>, allowedRoot: Option<string>, dataPath: string,
                               fullPath: string -> Result<string, string>): (r: bool)
    ensures IsNullOrEmpty(path) ==> !r
    ensures r <==> && !IsNullOrEmpty(path)
                   && fullPath(path.value).Ok?
                   && fullPath(RootPath(allowedRoot, dataPath)).Ok?
                   && StartsWithIgnoreCase(fullPath(path.value).value, fullPath(RootPath(allowedRoot, dataPath)).value)
  {
    if IsNullOrEmpty(path) then false
    else
      match fullPath(path.value)
      case Err(_) => false
      case Ok(full) =>
        match fullPath(RootPath(allowedRoot, dataPath))
        case Err(_) => false
        case Ok(root) => StartsWithIgnoreCase(full, root)
  }

  /** The failures of `ValidateAndNormalizePath`.  `RootFailed` is the
      normalisation exception of the root itself, which the method does not
      catch and so escapes unwrapped. */
  datatype PathError =
    | EmptyPath
    | InvalidPathFormat(cause: string)
    | RootFailed(cause: string)
    | PathTraversal(root: string)
  {
    function Message(): string {
      match this
      case EmptyPath => "Path cannot be null or empty."
      case InvalidPathFormat(cause) => "Invalid path format: " + cause
      case RootFailed(cause) => cause
      case PathTraversal(root) => "Path traversal detected. Path must be within '" + root + "'."
    }
  }

  /** `ValidateAndNormalizePath`: the normalised path when it lies under the
      normalised root, an error otherwise. */
  function ValidateAndNormalizePath(path: Option<string>, allowedRoot: Option<string>, dataPath: string,
                                    fullPath: string -> Result<string, string>): (r: Result<string, PathError>)
    ensures IsNullOrEmpty(path) ==> r == Err(EmptyPath)
    ensures !IsNullOrEmpty(path) && fullPath(path.value).Err? ==>
              r == Err(InvalidPathFormat(fullPath(path.value).error))
    ensures !IsNullOrEmpty(path) && fullPath(path.value).Ok? && fullPath(RootPath(allowedRoot, dataPath)).Err? ==>
              r == Err(RootFailed(fullPath(RootPath(allowedRoot, dataPath)).error))
    ensures !IsNullOrEmpty(path) && fullPath(path.value).Ok? && fullPath(RootPath(allowedRoot, dataPath)).Ok? ==>
              var root := fullPath(RootPath(allowedRoot, dataPath)).value;
              r == if StartsWithIgnoreCase(fullPath(path.value).value, root) then Ok(fullPath(path.value).value)
                   else Err(PathTraversal(root))
    ensures r.Ok? ==> !IsNullOrEmpty(path) && fullPath(path.value) == Ok(r.value)
  {
    if IsNullOrEmpty(path) then Err(EmptyPath)
    else
      match fullPath(path.value)
      case Err(cause) => Err(InvalidPathFormat(cause))
      case Ok(full) =>
        match fullPath(RootPath(allowedRoot, dataPath))
        case Err(cause) => Err(RootFailed(cause))
        case Ok(root) =>
          if !StartsWithIgnoreCase(full, root) then Err(PathTraversal(root)) else Ok(full)
  }

  /** The two checks agree: validation succeeds exactly when the path is
      judged to be within the project, and then it returns the normalised
      path.  A rejected path that normalises, under a root that normalises,
      is reported as a traversal; the other rejections are the empty path
      and the two normalisation failures. */
  lemma ValidateAgreesWithCheck(path: Option<string>, allowedRoot: Option<string>, dataPath: string,
                                fullPath: string -> Result<string, string>)
    ensures ValidateAndNormalizePath(path, allowedRoot, dataPath, fullPath).Ok?
            <==> IsPathWithinProject(path, allowedRoot, dataPath, fullPath)
    ensures IsPathWithinProject(path, allowedRoot, dataPath, fullPath) ==>
              ValidateAndNormalizePath(path, allowedRoot, dataPath, fullPath) == Ok(fullPath(path.value).value)
    ensures !IsPathWithinProject(path, allowedRoot, dataPath, fullPath) ==>
              ValidateAndNormalizePath(path, allowedRoot, dataPath, fullPath) ==
                if IsNullOrEmpty(path) then Err(EmptyPath)
                else if fullPath(path.value).Err? then Err(InvalidPathFormat(fullPath(path.value).error))
                else if fullPath(RootPath(allowedRoot, dataPath)).Err? then
                  Err(RootFailed(fullPath(RootPath(allowedRoot, dataPath)).error))
                else Err(PathTraversal(fullPath(RootPath(allowedRoot, dataPath)).value))
  {
  }

  /** A validated path passes the containment check again, provided that
      normalising an already full path leaves it alone (and yields text). */
  lemma ValidatedPathIsWithinProject(path: Option<string>, allowedRoot: Option<string>, dataPath: string,
                                     fullPath: string -> Result<string, string>)
    requires ValidateAndNormalizePath(path, allowedRoot, dataPath, fullPath).Ok?
    requires var p := ValidateAndNormalizePath(path, allowedRoot, dataPath, fullPath).value;
             p != "" && fullPath(p) == Ok(p)
    ensures IsPathWithinProject(Some(ValidateAndNormalizePath(path, allowedRoot, dataPath, fullPath).value),
                                allowedRoot, dataPath, fullPath)
  {
  }

  // ---------------------------------------------------------------------------
  // Containment at a directory boundary
  // ---------------------------------------------------------------------------

  /** A string starts with itself followed by anything, ignoring case. */
  lemma PrefixIgnoringCase(root: string, rest: string)
    ensures StartsWithIgnoreCase(root + rest, root)
  {
    assert forall i :: 0 <= i < |root| ==> (root + rest)[i] == root[i];
  }

  /** As written, the check accepts a sibling of the root whose name merely
      begins with the root's last segment: with a root of `/p/Assets`, the
      path `/p/AssetsEvil/a.json` is judged to be within the project and
      validation returns it, although it is not below the directory. */
  lemma SiblingDirectoryAccepted()
    ensures var identity := (s: string) => Ok(s);
            && IsPathWithinProject(Some("/p/AssetsEvil/a.json"), Some("/p/Assets"), "", identity)
            && ValidateAndNormalizePath(Some("/p/AssetsEvil/a.json"), Some("/p/Assets"), "", identity)
               == Ok("/p/AssetsEvil/a.json")
            && !UnderDirectory("/p/AssetsEvil/a.json", "/p/Assets")
  {
    assert "/p/AssetsEvil/a.json" == "/p/Assets" + "Evil/a.json";
    PrefixIgnoringCase("/p/Assets", "Evil/a.json");
    SiblingIsNotUnder("/p/Assets", "Evil/a.json");
  }

  /** The relation the check is meant to enforce: `full` is the root itself
      or lies below it, so the root matches a prefix of `full`, ignoring
      case, that ends at a directory boundary. */
  predicate UnderDirectory(full: string, root: string) {
    && StartsWithIgnoreCase(full, root)
    && (|full| == |root| || (|root| > 0 && IsDirSeparator(root[|root| - 1])) || IsDirSeparator(full[|root|]))
  }

  /** The root itself, and anything reached through a separator after it,
      are below the root. */
  lemma ChildIsUnder(root: string, sep: char, rest: string)
    requires IsDirSeparator(sep)
    ensures UnderDirectory(root, root)
    ensures UnderDirectory(root + [sep] + rest, root)
  {
    PrefixIgnoringCase(root, []);
    assert root + [] == root;
    PrefixIgnoringCase(root, [sep] + rest);
    assert root + [sep] + rest == root + ([sep] + rest);
  }

  /** A path that continues the root's last segment with more name
      characters is not below a root written without a trailing separator. */
  lemma SiblingIsNotUnder(root: string, extra: string)
    requires root != "" && !IsDirSeparator(root[|root| - 1])
    requires extra != "" && !IsDirSeparator(extra[0])
    ensures !UnderDirectory(root + extra, root)
  {
    assert (root + extra)[|root|] == extra[0];
  }

  /** `IsPathWithinProject` with the containment test at a directory
      boundary: it accepts only what the plain prefix test accepts, and
      exactly the paths whose normalised form is below the normalised root. */
  function IsPathUnderRoot(path: Option<string>, allowedRoot: Option<string>, dataPath: string,
                           fullPath: string -> Result<string, string>): (r: bool)
    ensures r ==> IsPathWithinProject(path, allowedRoot, dataPath, fullPath)
    ensures r <==> && !IsNullOrEmpty(path)
                   && fullPath(path.value).Ok?
                   && fullPath(RootPath(allowedRoot, dataPath)).Ok?
                   && UnderDirectory(fullPath(path.value).value, fullPath(RootPath(allowedRoot, dataPath)).value)
  {
    if IsNullOrEmpty(path) then false
    else
      match fullPath(path.value)
      case Err(_) => false
      case Ok(full) =>
        match fullPath(RootPath(allowedRoot, dataPath))
        case Err(_) => false
        case Ok(root) => UnderDirectory(full, root)
  }

  /** The corrected check rejects the sibling the written one accepts, and
      still accepts files below the root. */
  lemma CorrectedCheckSeparatesSiblings(root: string, extra: string, sep: char, rest: string)
    requires root != "" && !IsDirSeparator(root[|root| - 1])
    requires extra != "" && !IsDirSeparator(extra[0])
    requires IsDirSeparator(sep)
    ensures var identity := (s: string) => Ok(s);
            && !IsPathUnderRoot(Some(root + extra), Some(root), "", identity)
            && IsPathUnderRoot(Some(root + [sep] + rest), Some(root), "", identity)
  {
    SiblingIsNotUnder(root, extra);
    ChildIsUnder(root, sep, rest);
  }
}
