/** Paths of migration images (internal/migrationimage/service.go): listed paths, cursors and deletes agree. */
module MigrationPaths {
  import opened Base
  import opened AliasPath

  /** A listed path and the file it names below the migration directory. */
  datatype ImagePath = ImagePath(canonical: Bytes, relative: Bytes)

  function TrimSlash(s: Bytes): Bytes { if s != [] && s[0] == SLASH then s[1..] else s }

  /** normalizeImagePath, for a path without surrounding white space. */
  function NormalizeImagePath(raw: Bytes): Option<ImagePath> {
    match NormalizeAliasPath(raw)
    case Err(_) => None
    case Ok(canonical) =>
      var decoded := Unescape(canonical);
      if decoded.None? || TrimSlash(decoded.value) == [] || !ValidPath(TrimSlash(decoded.value)) then None
      else Some(ImagePath(canonical, TrimSlash(decoded.value)))
  }

  /** The path of a scanned file, when the listing shows it. */
  function ListedPath(relative: Bytes): Result<Bytes, PathError> { NormalizeAliasPath(Escape([SLASH] + relative)) }

  /** The later checks reject nothing: every accepted alias path names a file the storage layer accepts. */
  lemma LaterChecksNeverReject(raw: Bytes)
    ensures NormalizeImagePath(raw).Some? <==> NormalizeAliasPath(raw).Ok?
    ensures NormalizeImagePath(raw).Some? ==>
      var relative := NormalizeImagePath(raw).value.relative;
      relative != [] && ValidPath(relative) && BACKSLASH !in relative && 0 !in relative
  {
    if NormalizeAliasPath(raw).Ok? {
      AcceptedPathIsValidDownstream(raw);
      CanonicalKeepsMeaning(raw);
      UnescapeKeepsSlash(raw);
    }
  }

  /** A listed path sent back, in a cursor or for a delete, is accepted unchanged and names the scanned file. */
  lemma ListedPathNamesItsFile(relative: Bytes)
    requires ListedPath(relative).Ok?
    ensures NormalizeImagePath(ListedPath(relative).value) == Some(ImagePath(ListedPath(relative).value, relative))
  {
    var raw := Escape([SLASH] + relative);
    ScannedPathIsCanonical(relative);
    LaterChecksNeverReject(raw);
    UnescapeEscape([SLASH] + relative);
  }

  /** Two scanned files are never listed under one path. */
  lemma ListedPathsDistinct(relative: Bytes, other: Bytes)
    requires ListedPath(relative).Ok? && ListedPath(other) == ListedPath(relative)
    ensures relative == other
  {
    ScannedPathIsCanonical(relative);
    ScannedPathIsCanonical(other);
    ScannedPathsDistinct(relative, other);
  }
}
