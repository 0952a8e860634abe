/**
 * The local build-product cache: one directory entry per key, laid out as
 * `<cache>/<type raw value>/<product>/<checksum>/<product><extension>`.
 * A lookup is an existence check; storing replaces the key's entry folder.
 */
module LocalCacheStorage {
  import opened Wrappers
  import opened ProductTypes
  import opened FileSystems
  import opened BuildProductCacheKeys

  /** A resolved hit: the key and where its product lies. */
  datatype BuildProductCacheValue<C> = BuildProductCacheValue(key: BuildProductCacheKey<C>, path: Path)

  /** `path(to:)`: the entry path of `k` below `cacheDirectory`. */
  function EntryPath<C>(cacheDirectory: Path, stringValue: C -> string, k: BuildProductCacheKey<C>): (p: Path)
    ensures |p| == |cacheDirectory| + 4 && IsPrefix(cacheDirectory, p)
  {
    cacheDirectory + [RawValue(k.productType), k.productName, stringValue(k.checksum), k.productName + FileExtension(k.productType)]
  }

  /** The folder that holds the entry, which `add` replaces. */
  function EntryFolder<C>(cacheDirectory: Path, stringValue: C -> string, k: BuildProductCacheKey<C>): (f: Path)
    ensures |f| == |cacheDirectory| + 3 && IsPrefix(f, EntryPath(cacheDirectory, stringValue, k))
  {
    Parent(EntryPath(cacheDirectory, stringValue, k))
  }

  /**
   * Distinct entry paths for distinct keys: two keys share an entry path
   * only when they agree on product type, product name and rendered checksum.
   */
  lemma EntryPathIdentifiesKey<C>(cacheDirectory: Path, stringValue: C -> string, k1: BuildProductCacheKey<C>, k2: BuildProductCacheKey<C>)
    requires EntryPath(cacheDirectory, stringValue, k1) == EntryPath(cacheDirectory, stringValue, k2)
    ensures k1.productType == k2.productType
    ensures k1.productName == k2.productName
    ensures stringValue(k1.checksum) == stringValue(k2.checksum)
  {
    var n := |cacheDirectory|;
    assert EntryPath(cacheDirectory, stringValue, k1)[n] == RawValue(k1.productType);
    assert EntryPath(cacheDirectory, stringValue, k2)[n] == RawValue(k2.productType);
    RawValueRoundTrip(k1.productType);
    RawValueRoundTrip(k2.productType);
    assert EntryPath(cacheDirectory, stringValue, k1)[n + 1] == k1.productName;
    assert EntryPath(cacheDirectory, stringValue, k1)[n + 2] == stringValue(k1.checksum);
  }

  /** The entry folder after its old contents are removed, if it was a directory. */
  function Cleared(items: Items, folder: Path): Items {
    if DirectoryExists(items, folder) then Without(items, folder) else items
  }

  /**
   * `add(cacheKey:at:)` on the file system `items`: clear the entry folder,
   * create it with its ancestors, copy the artifact to the entry path. The
   * result is the file system afterwards (as far as the steps got) and the
   * outcome.
   */
  function AddSpec(items: Items, folder: Path, entry: Path, artifact: Path): (Items, Result<(), FileError>) {
    var cleared := Cleared(items, folder);
    match CreateError(cleared, folder)
    case Some(e) => (cleared, Failure(e))
    case None =>
      var created := WithDirectory(cleared, folder);
      match CopyError(created, artifact, entry)
      case Some(e) => (created, Failure(e))
      case None => (Copied(created, artifact, entry), Success(()))
  }

  class LocalBuildProductCacheStorage<C> {
    const fileManager: FileManager
    const cacheDirectory: Path
    const stringValue: C -> string

    constructor(fileManager: FileManager, cacheDirectory: Path, stringValue: C -> string)
      ensures this.fileManager == fileManager && this.cacheDirectory == cacheDirectory && this.stringValue == stringValue
    {
      this.fileManager := fileManager;
      this.cacheDirectory := cacheDirectory;
      this.stringValue := stringValue;
    }

    /** `cached(for:)`: the entry of `key` when a directory exists at its path. */
    method Cached(key: BuildProductCacheKey<C>) returns (v: Option<BuildProductCacheValue<C>>)
      ensures v.Some? <==> DirectoryExists(fileManager.items, EntryPath(cacheDirectory, stringValue, key))
      ensures v.Some? ==> v.value == BuildProductCacheValue(key, EntryPath(cacheDirectory, stringValue, key))
    {
      var entry := EntryPath(cacheDirectory, stringValue, key);
      var exists_ := fileManager.DirectoryExist(entry);
      if exists_ {
        return Some(BuildProductCacheValue(key, entry));
      }
      return None;
    }

    /** `add(cacheKey:at:)`: replaces the entry folder of `key` with a copy of the artifact. */
    method Add(key: BuildProductCacheKey<C>, artifact: Path) returns (r: Result<(), FileError>)
      requires fileManager.Valid()
      modifies fileManager
      ensures fileManager.Valid()
      ensures (fileManager.items, r) == AddSpec(old(fileManager.items), EntryFolder(cacheDirectory, stringValue, key),
                                                EntryPath(cacheDirectory, stringValue, key), artifact)
    {
      var entry := EntryPath(cacheDirectory, stringValue, key);
      var folder := EntryFolder(cacheDirectory, stringValue, key);
      var present := fileManager.DirectoryExist(folder);
      if present {
        var removed := fileManager.RemoveItem(folder);
      }
      var created := fileManager.CreateDirectory(folder);
      if created.Failure? {
        return created;
      }
      r := fileManager.CopyItem(artifact, entry);
    }
  }

  /**
   * Round trip: after a successful `add` of a directory artifact that lies
   * outside the entry folder, a directory exists at the entry path, so
   * `cached` for the same key finds it.
   */
  lemma AddThenCached(items: Items, folder: Path, entry: Path, artifact: Path)
    requires |entry| > 0 && folder == Parent(entry)
    requires DirectoryExists(items, artifact) && !IsPrefix(folder, artifact)
    requires AddSpec(items, folder, entry, artifact).1.Success?
    ensures DirectoryExists(AddSpec(items, folder, entry, artifact).0, entry)
  {
    var cleared := Cleared(items, folder);
    var created := WithDirectory(cleared, folder);
    assert cleared[artifact] == Directory;
    assert created[artifact] == Directory;
    assert entry[|entry|..] == [];
    assert artifact + entry[|entry|..] == artifact;
  }

  /** What lies below the entry lies below its folder. */
  lemma BelowEntryIsBelowFolder(folder: Path, entry: Path, q: Path)
    requires |entry| > 0 && folder == Parent(entry)
    ensures IsPrefix(entry, q) ==> IsPrefix(folder, q)
  {
    if IsPrefix(entry, q) {
      assert q[..|folder|] == entry[..|folder|];
    }
  }

  /** The only ancestor-or-self of `folder` that lies below `folder` is `folder`. */
  lemma PrefixBothWays(folder: Path, q: Path)
    ensures q in Prefixes(folder) && IsPrefix(folder, q) ==> q == folder
  {
  }

  /**
   * No leftovers: after a successful `add`, everything below the entry
   * folder is the folder itself or lies below the entry path.
   */
  lemma AddLeavesOnlyTheEntry(items: Items, folder: Path, entry: Path, artifact: Path)
    requires WellFormed(items)
    requires |entry| > 1 && folder == Parent(entry)
    requires AddSpec(items, folder, entry, artifact).1.Success?
    ensures forall q :: q in AddSpec(items, folder, entry, artifact).0 && IsPrefix(folder, q) ==> q == folder || IsPrefix(entry, q)
  {
    var cleared := Cleared(items, folder);
    assert CreateError(cleared, folder).None?;
    var created := WithDirectory(cleared, folder);
    assert CopyError(created, artifact, entry).None?;
    var result := Copied(created, artifact, entry);
    assert AddSpec(items, folder, entry, artifact).0 == result;
    ClearedEmptiesFolder(items, folder);
    forall q | q in result && IsPrefix(folder, q) && !IsPrefix(entry, q) ensures q == folder {
      assert q in created;
      PrefixBothWays(folder, q);
    }
  }

  /**
   * After clearing, a well-formed file system holds nothing strictly below
   * the folder, unless the folder is a file (which stops `add`).
   */
  lemma ClearedEmptiesFolder(items: Items, folder: Path)
    requires WellFormed(items) && |folder| > 0
    requires CreateError(Cleared(items, folder), folder).None?
    ensures forall q :: q in Cleared(items, folder) ==> !IsPrefix(folder, q)
  {
    if !DirectoryExists(items, folder) {
      assert folder in Prefixes(folder);
      forall q | q in items ensures !IsPrefix(folder, q) {
        if IsPrefix(folder, q) && q != folder {
          AncestorIsDirectory(items, folder, q);
        }
      }
    }
  }

  /**
   * Clearing and recreating the entry folder after a successful `add`
   * gives back the state the `add` copied into.
   */
  lemma RecreatedFolder(items: Items, folder: Path, entry: Path, a1: Path)
    requires WellFormed(items)
    requires |entry| > 1 && folder == Parent(entry)
    requires CreateError(Cleared(items, folder), folder).None?
    requires CopyError(WithDirectory(Cleared(items, folder), folder), a1, entry).None?
    ensures var created := WithDirectory(Cleared(items, folder), folder);
      var once := Copied(created, a1, entry);
      WithDirectory(Without(once, folder), folder) == created
  {
    var created := WithDirectory(Cleared(items, folder), folder);
    var once := Copied(created, a1, entry);
    var again := WithDirectory(Without(once, folder), folder);
    forall q ensures q in again <==> q in created {
      RecreatedAt(items, folder, entry, a1, q);
    }
    forall q | q in again ensures again[q] == created[q] {
      RecreatedAt(items, folder, entry, a1, q);
    }
  }

  lemma RecreatedAt(items: Items, folder: Path, entry: Path, a1: Path, q: Path)
    requires WellFormed(items)
    requires |entry| > 1 && folder == Parent(entry)
    requires CreateError(Cleared(items, folder), folder).None?
    requires CopyError(WithDirectory(Cleared(items, folder), folder), a1, entry).None?
    ensures var created := WithDirectory(Cleared(items, folder), folder);
      var again := WithDirectory(Without(Copied(created, a1, entry), folder), folder);
      (q in again <==> q in created) && (q in again ==> again[q] == created[q])
  {
    var cleared := Cleared(items, folder);
    var created := WithDirectory(cleared, folder);
    var once := Copied(created, a1, entry);
    var without := Without(once, folder);
    ClearedEmptiesFolder(items, folder);
    BelowEntryIsBelowFolder(folder, entry, q);
    if q in Prefixes(folder) {
      assert q in created;
    } else if q in cleared {
      assert !IsPrefix(folder, q);
      assert q in created && created[q] == cleared[q];
      assert q in once && once[q] == created[q];
      assert q in without && without[q] == once[q];
    } else {
      assert q !in created;
      assert q !in without;
    }
  }

  /**
   * Last write wins: two successive successful adds under the same key
   * leave exactly what the second alone would have left.
   */
  lemma AddLastWriteWins(items: Items, folder: Path, entry: Path, a1: Path, a2: Path)
    requires WellFormed(items)
    requires |entry| > 1 && folder == Parent(entry)
    requires AddSpec(items, folder, entry, a1).1.Success?
    ensures AddSpec(AddSpec(items, folder, entry, a1).0, folder, entry, a2) == AddSpec(items, folder, entry, a2)
  {
    var created := WithDirectory(Cleared(items, folder), folder);
    AddSpecThrough(items, folder, entry, a1, created);
    var once := Copied(created, a1, entry);
    AddedFolderRecreated(items, folder, entry, a1);
    AddSpecThrough(once, folder, entry, a2, created);
    AddSpecThrough(items, folder, entry, a2, created);
  }

  /** After a successful add, clearing and creating the entry folder again gives what the add created. */
  lemma AddedFolderRecreated(items: Items, folder: Path, entry: Path, a1: Path)
    requires WellFormed(items)
    requires |entry| > 1 && folder == Parent(entry)
    requires AddSpec(items, folder, entry, a1).1.Success?
    ensures var created := WithDirectory(Cleared(items, folder), folder);
      var once := Copied(created, a1, entry);
      CreateError(Cleared(once, folder), folder).None? && WithDirectory(Cleared(once, folder), folder) == created
  {
    var cleared := Cleared(items, folder);
    assert CreateError(cleared, folder).None?;
    var created := WithDirectory(cleared, folder);
    assert CopyError(created, a1, entry).None?;
    var once := Copied(created, a1, entry);
    RecreatedFolder(items, folder, entry, a1);
    assert folder in Prefixes(folder);
    ReclearedFolder(created, folder, entry, a1);
    assert Cleared(once, folder) == Without(once, folder);
  }

  /** Once clearing and creating the folder of `items` gives `created`, `add` is the copy into `created`. */
  lemma AddSpecThrough(items: Items, folder: Path, entry: Path, artifact: Path, created: Items)
    requires CreateError(Cleared(items, folder), folder).None?
    requires WithDirectory(Cleared(items, folder), folder) == created
    ensures AddSpec(items, folder, entry, artifact)
      == match CopyError(created, artifact, entry)
         case Some(e) => (created, Failure(e))
         case None => (Copied(created, artifact, entry), Success(()))
  {
  }

  /**
   * After the copy of an add, the entry folder is a directory and clearing
   * it leaves nothing in the way of recreating it.
   */
  lemma ReclearedFolder(created: Items, folder: Path, entry: Path, a1: Path)
    requires |entry| > 1 && folder == Parent(entry)
    requires DirectoryExists(created, folder)
    requires CreateError(created, folder).None?
    ensures DirectoryExists(Copied(created, a1, entry), folder)
    ensures CreateError(Without(Copied(created, a1, entry), folder), folder).None?
  {
    var once := Copied(created, a1, entry);
    BelowEntryIsBelowFolder(folder, entry, folder);
    assert once[folder] == created[folder];
    forall q | q in Prefixes(folder) && q in Without(once, folder) ensures Without(once, folder)[q].Directory? {
      BelowEntryIsBelowFolder(folder, entry, q);
    }
  }

  /**
   * `add` changes nothing outside the entry folder and the folder's
   * ancestors, whether it succeeds or not.
   */
  lemma AddFrame(items: Items, folder: Path, entry: Path, artifact: Path, q: Path)
    requires |entry| > 0 && folder == Parent(entry)
    requires !IsPrefix(folder, q) && q !in Prefixes(folder)
    ensures q in AddSpec(items, folder, entry, artifact).0 <==> q in items
    ensures q in items ==> AddSpec(items, folder, entry, artifact).0[q] == items[q]
  {
    BelowEntryIsBelowFolder(folder, entry, q);
  }
}
