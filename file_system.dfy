/**
 * An abstract file system: a map from paths (sequences of components) to
 * directories and files, and the four file-manager operations the cache
 * uses. A well-formed file system has the parent of every entry present
 * as a directory (the root, the empty path, is implicit).
 */
module FileSystems {
  import opened Wrappers

  type Path = seq<string>

  datatype Node = Directory | File(content: string)

  type Items = map<Path, Node>

  datatype FileError =
    | NoSuchItem(path: Path)
    | ItemExists(path: Path)
    | NotADirectory(path: Path)

  /** `q` is `p` or lies below it. */
  predicate IsPrefix(p: Path, q: Path) {
    |p| <= |q| && q[..|p|] == p
  }

  function Parent(q: Path): Path
    requires |q| > 0
  {
    q[..|q| - 1]
  }

  predicate DirectoryExists(items: Items, p: Path) {
    p in items && items[p].Directory?
  }

  ghost predicate WellFormed(items: Items) {
    forall q :: q in items && |q| > 1 ==> DirectoryExists(items, Parent(q))
  }

  /** In a well-formed file system, anything strictly below `p` has `p` as a directory. */
  lemma {:induction false} AncestorIsDirectory(items: Items, p: Path, q: Path)
    requires WellFormed(items)
    requires q in items && IsPrefix(p, q) && 0 < |p| < |q|
    ensures DirectoryExists(items, p)
    decreases |q|
  {
    var up := Parent(q);
    assert DirectoryExists(items, up);
    assert up[..|p|] == q[..|p|];
    if |up| > |p| {
      AncestorIsDirectory(items, p, up);
    }
  }

  /** `removeItem(at:)` on an existing item: the item and everything below it are gone. */
  function Without(items: Items, p: Path): (r: Items)
    ensures forall q :: q in r <==> q in items && !IsPrefix(p, q)
    ensures forall q :: q in r ==> r[q] == items[q]
  {
    map q | q in items && !IsPrefix(p, q) :: items[q]
  }

  lemma WithoutWellFormed(items: Items, p: Path)
    requires WellFormed(items)
    ensures WellFormed(Without(items, p))
  {
    var r := Without(items, p);
    forall q | q in r && |q| > 1 ensures DirectoryExists(r, Parent(q)) {
      assert DirectoryExists(items, Parent(q));
    }
  }

  /** The non-root ancestors of `p` and `p` itself. */
  function Prefixes(p: Path): (s: set<Path>)
    ensures forall q :: q in s <==> 0 < |q| && IsPrefix(q, p)
  {
    set k | 1 <= k <= |p| :: p[..k]
  }

  /** The shortest prefix of `p` that is a file, which stops `createDirectory` from creating `p`. */
  function CreateError(items: Items, p: Path): (e: Option<FileError>)
    ensures e.None? <==> forall q :: q in Prefixes(p) && q in items ==> items[q].Directory?
    ensures e.Some? ==> e.value.NotADirectory? && IsPrefix(e.value.path, p) && e.value.path in items
  {
    CreateErrorFrom(items, p, 1)
  }

  function CreateErrorFrom(items: Items, p: Path, k: nat): (e: Option<FileError>)
    requires 1 <= k
    ensures e.None? <==> forall j :: k <= j <= |p| && p[..j] in items ==> items[p[..j]].Directory?
    ensures e.Some? ==> e.value.NotADirectory? && IsPrefix(e.value.path, p) && e.value.path in items
    decreases |p| + 1 - k
  {
    if k > |p| then None
    else if p[..k] in items && items[p[..k]].File? then Some(NotADirectory(p[..k]))
    else CreateErrorFrom(items, p, k + 1)
  }

  /** `createDirectory(at:withIntermediateDirectories: true)`: `p` and its ancestors become directories. */
  function WithDirectory(items: Items, p: Path): (r: Items)
    ensures forall q :: q in r <==> q in items || q in Prefixes(p)
    ensures forall q :: q in Prefixes(p) ==> r[q] == Directory
    ensures forall q :: q in items && q !in Prefixes(p) ==> r[q] == items[q]
  {
    items + map q | q in Prefixes(p) :: Directory
  }

  lemma WithDirectoryWellFormed(items: Items, p: Path)
    requires WellFormed(items)
    ensures WellFormed(WithDirectory(items, p))
  {
    var r := WithDirectory(items, p);
    forall q | q in r && |q| > 1 ensures DirectoryExists(r, Parent(q)) {
      if q in Prefixes(p) {
        assert Parent(q) == p[..|q| - 1];
      }
    }
  }

  /** Why `copyItem(at:to:)` refuses, if it does. */
  function CopyError(items: Items, src: Path, dst: Path): (e: Option<FileError>)
    ensures e.None? <==> 0 < |src| && src in items && dst !in items && 0 < |dst| && (|dst| > 1 ==> DirectoryExists(items, Parent(dst)))
  {
    if |src| == 0 || src !in items then Some(NoSuchItem(src))
    else if |dst| == 0 || dst in items then Some(ItemExists(dst))
    else if |dst| > 1 && !DirectoryExists(items, Parent(dst)) then Some(NoSuchItem(Parent(dst)))
    else None
  }

  /** Where the entries below `src` land when the tree at `src` is copied to `dst`. */
  function Targets(items: Items, src: Path, dst: Path): set<Path> {
    set q | q in items && IsPrefix(src, q) :: dst + q[|src|..]
  }

  lemma TargetSource(items: Items, src: Path, dst: Path, t: Path)
    requires t in Targets(items, src, dst)
    ensures IsPrefix(dst, t) && src + t[|dst|..] in items
  {
    var q :| q in items && IsPrefix(src, q) && t == dst + q[|src|..];
    assert t[|dst|..] == q[|src|..];
    assert src + q[|src|..] == q;
  }

  /** `copyItem(at:to:)`: the tree at `src` is duplicated at `dst`. */
  function Copied(items: Items, src: Path, dst: Path): (r: Items)
    ensures forall q :: q in r <==> q in items || (IsPrefix(dst, q) && src + q[|dst|..] in items)
    ensures forall q :: q in r && IsPrefix(dst, q) && src + q[|dst|..] in items ==> r[q] == items[src + q[|dst|..]]
    ensures forall q :: q in items && !IsPrefix(dst, q) ==> r[q] == items[q]
  {
    var copy := map t | t in Targets(items, src, dst) :: (TargetSource(items, src, dst, t); items[src + t[|dst|..]]);
    CopyCovers(items, src, dst, copy);
    items + copy
  }

  lemma CopyCovers(items: Items, src: Path, dst: Path, copy: Items)
    requires copy.Keys == Targets(items, src, dst)
    ensures forall q :: IsPrefix(dst, q) && src + q[|dst|..] in items ==> q in copy
    ensures forall q :: q in copy ==> IsPrefix(dst, q) && src + q[|dst|..] in items
  {
    forall q | q in copy ensures IsPrefix(dst, q) && src + q[|dst|..] in items {
      TargetSource(items, src, dst, q);
    }
    forall q | IsPrefix(dst, q) && src + q[|dst|..] in items ensures q in copy {
      var orig := src + q[|dst|..];
      assert orig[|src|..] == q[|dst|..];
      assert dst + q[|dst|..] == q;
      assert q in Targets(items, src, dst);
    }
  }

  /** Copying keeps a file system well formed. */
  lemma CopiedWellFormed(items: Items, src: Path, dst: Path)
    requires WellFormed(items)
    requires CopyError(items, src, dst).None?
    ensures WellFormed(Copied(items, src, dst))
  {
    var r := Copied(items, src, dst);
    forall q | q in r && |q| > 1 ensures DirectoryExists(r, Parent(q)) {
      if q in items {
        OldEntryParent(items, src, dst, q);
      } else {
        CopiedEntryParent(items, src, dst, q);
      }
    }
  }

  lemma OldEntryParent(items: Items, src: Path, dst: Path, q: Path)
    requires WellFormed(items)
    requires CopyError(items, src, dst).None?
    requires q in items && |q| > 1
    ensures DirectoryExists(Copied(items, src, dst), Parent(q))
  {
    var up := Parent(q);
    assert DirectoryExists(items, up);
    NothingBelowNewItem(items, dst, up);
  }

  lemma CopiedEntryParent(items: Items, src: Path, dst: Path, q: Path)
    requires WellFormed(items)
    requires CopyError(items, src, dst).None?
    requires q in Copied(items, src, dst) && q !in items && |q| > 1
    ensures DirectoryExists(Copied(items, src, dst), Parent(q))
  {
    var r := Copied(items, src, dst);
    var rel := q[|dst|..];
    var up := Parent(q);
    assert IsPrefix(dst, q) && src + rel in items;
    if |rel| == 0 {
      assert q == dst;
      NothingBelowNewItem(items, dst, up);
      assert r[up] == items[up];
    } else {
      CopiedBelowEntryParent(items, src, dst, q);
    }
  }

  /** A copied path strictly below the destination has its parent copied from the source's directory. */
  lemma CopiedBelowEntryParent(items: Items, src: Path, dst: Path, q: Path)
    requires WellFormed(items)
    requires 0 < |src| && IsPrefix(dst, q) && |q| > |dst| && src + q[|dst|..] in items
    ensures DirectoryExists(Copied(items, src, dst), Parent(q))
  {
    var up := Parent(q);
    var orig := src + q[|dst|..];
    ParentOfCopiedPath(src, dst, q);
    assert DirectoryExists(items, Parent(orig));
    var r := Copied(items, src, dst);
    assert up in r && r[up] == items[src + up[|dst|..]];
  }

  /** The parent of a path below the destination is below it too, and is the copy of the source path's parent. */
  lemma ParentOfCopiedPath(src: Path, dst: Path, q: Path)
    requires 0 < |src| && IsPrefix(dst, q) && |q| > |dst|
    ensures |src + q[|dst|..]| > 1
    ensures IsPrefix(dst, Parent(q)) && src + Parent(q)[|dst|..] == Parent(src + q[|dst|..])
  {
    var rel := q[|dst|..];
    assert Parent(q)[|dst|..] == rel[..|rel| - 1];
    assert Parent(src + rel) == src + rel[..|rel| - 1];
  }

  /** A path that does not exist has nothing below it in a well-formed file system. */
  lemma NothingBelowNewItem(items: Items, dst: Path, q: Path)
    requires WellFormed(items)
    requires 0 < |dst| && dst !in items && q in items
    ensures !IsPrefix(dst, q)
  {
    if IsPrefix(dst, q) {
      assert q != dst;
      AncestorIsDirectory(items, dst, q);
    }
  }

  /** The file manager: a well-formed file system changed one operation at a time. */
  class FileManager {
    var items: Items

    ghost predicate Valid()
      reads this
    {
      WellFormed(items)
    }

    constructor(items: Items)
      requires WellFormed(items)
      ensures this.items == items && Valid()
    {
      this.items := items;
    }

    method DirectoryExist(p: Path) returns (b: bool)
      ensures b <==> p in items && items[p].Directory?
    {
      b := p in items && items[p].Directory?;
    }

    /** Removes the item at `p` and everything below it; fails when there is none. */
    method RemoveItem(p: Path) returns (r: Result<(), FileError>)
      requires Valid()
      modifies this
      ensures Valid()
      ensures p in old(items) ==> r == Success(()) && items == Without(old(items), p)
      ensures p !in old(items) ==> r == Failure(NoSuchItem(p)) && items == old(items)
    {
      if p !in items {
        return Failure(NoSuchItem(p));
      }
      WithoutWellFormed(items, p);
      items := Without(items, p);
      return Success(());
    }

    /** Creates `p` and its missing ancestors as directories; fails when one of them is a file. */
    method CreateDirectory(p: Path) returns (r: Result<(), FileError>)
      requires Valid()
      modifies this
      ensures Valid()
      ensures CreateError(old(items), p).Some? ==> r == Failure(CreateError(old(items), p).value) && items == old(items)
      ensures CreateError(old(items), p).None? ==> r == Success(()) && items == WithDirectory(old(items), p)
    {
      var e := CreateError(items, p);
      if e.Some? {
        return Failure(e.value);
      }
      WithDirectoryWellFormed(items, p);
      items := WithDirectory(items, p);
      return Success(());
    }

    /** Copies the tree at `src` to the new path `dst`. */
    method CopyItem(src: Path, dst: Path) returns (r: Result<(), FileError>)
      requires Valid()
      modifies this
      ensures Valid()
      ensures CopyError(old(items), src, dst).Some? ==> r == Failure(CopyError(old(items), src, dst).value) && items == old(items)
      ensures CopyError(old(items), src, dst).None? ==> r == Success(()) && items == Copied(old(items), src, dst)
    {
      var e := CopyError(items, src, dst);
      if e.Some? {
        return Failure(e.value);
      }
      CopiedWellFormed(items, src, dst);
      items := Copied(items, src, dst);
      return Success(());
    }
  }
}
