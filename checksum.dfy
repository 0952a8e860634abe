/**
 * The checksum algebra and the errors of the file-checksum layer.
 *
 * The digest type is a type parameter `C`; its operations (`aggregate`
 * over a sequence, `+` that mixes a second digest in, and `stringValue`)
 * are not part of this model and stay uninterpreted: callers pass them in
 * as an `Algebra<C>`.
 */
module Checksums {
  import opened Wrappers

  /** The errors of the checksum layer (Sources/Checksum/Error/ChecksumError.swift). */
  datatype ChecksumError =
    | FileDoesntExist(path: string)
    | ZeroChecksum(path: string)
    | UnableToEnumerateDirectory(path: string)

  /** `s` occurs in `text` starting at index `i`. */
  predicate OccursAt(text: string, s: string, i: int) {
    0 <= i <= |text| - |s| && text[i..i + |s|] == s
  }

  /** `s` occurs in `text` as a contiguous block. */
  ghost predicate ContainsSubstring(text: string, s: string) {
    exists i :: OccursAt(text, s, i)
  }

  const FileDoesntExistPrefix := "File doesn't exist at path "
  const ZeroChecksumPrefix := "Checksum for "
  const ZeroChecksumSuffix := " is empty"
  const UnableToEnumeratePrefix := "Unable to enumerate "

  /** The human-readable description of a checksum error; every one names its path. */
  function Description(e: ChecksumError): (r: string)
    ensures ContainsSubstring(r, e.path)
  {
    match e
    case FileDoesntExist(p) =>
      var r := FileDoesntExistPrefix + p;
      assert OccursAt(r, p, |FileDoesntExistPrefix|);
      r
    case ZeroChecksum(p) =>
      var r := ZeroChecksumPrefix + p + ZeroChecksumSuffix;
      assert OccursAt(r, p, |ZeroChecksumPrefix|);
      r
    case UnableToEnumerateDirectory(p) =>
      var r := UnableToEnumeratePrefix + p;
      assert OccursAt(r, p, |UnableToEnumeratePrefix|);
      r
  }

  /** Each case has its own fixed text around the path. */
  lemma DescriptionShape(e: ChecksumError)
    ensures e.FileDoesntExist? ==> Description(e) == "File doesn't exist at path " + e.path
    ensures e.ZeroChecksum? ==> Description(e) == "Checksum for " + e.path + " is empty"
    ensures e.UnableToEnumerateDirectory? ==> Description(e) == "Unable to enumerate " + e.path
  {
  }

  /** The description determines the error: different errors never describe alike. */
  lemma {:induction false} DescriptionInjective(e1: ChecksumError, e2: ChecksumError)
    requires Description(e1) == Description(e2)
    ensures e1 == e2
  {
    var d := Description(e1);
    // the first character tells the three cases apart: 'F', 'C' and 'U'
    assert d[0] == Description(e2)[0];
    match e1
    case FileDoesntExist(p1) =>
      assert e2.FileDoesntExist?;
      assert p1 == d[|FileDoesntExistPrefix|..] == e2.path;
    case ZeroChecksum(p1) =>
      assert e2.ZeroChecksum?;
      assert p1 == d[|ZeroChecksumPrefix|..|d| - |ZeroChecksumSuffix|] == e2.path;
    case UnableToEnumerateDirectory(p1) =>
      assert e2.UnableToEnumerateDirectory?;
      assert p1 == d[|UnableToEnumeratePrefix|..] == e2.path;
  }

  /**
   * The digest operations the core relies on. `aggregate` folds a sequence
   * of digests into one, in order; `add` is the source's `+`, which mixes
   * a second digest into a first; both may fail. `stringValue` renders a
   * digest for keys and paths.
   */
  datatype Algebra<!C> = Algebra(
    aggregate: seq<C> -> Result<C, ChecksumError>,
    add: (C, C) -> Result<C, ChecksumError>,
    stringValue: C -> string)
}
