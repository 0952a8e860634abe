/**
 * The target checksum builder: a recursive, memoised computation of one
 * holder per target, whose digest folds the digests of the target's
 * dependencies and of its files.
 */
module TargetChecksumBuilding {
  import opened Wrappers
  import opened Checksums
  import opened ProductTypes
  import opened XcodeGraph
  import opened ChecksumHolders
  import opened CalculatorErrors

  /** The file checksum builder, which this model takes as given. */
  type FileHolderBuilder<!C> = (PBXFileElement, string) -> Result<FileChecksumHolder<C>, ChecksumError>

  function TargetDigests<C>(hs: seq<TargetChecksumHolder<C>>): (ds: seq<C>)
    ensures |ds| == |hs| && forall i :: 0 <= i < |hs| ==> ds[i] == hs[i].checksum
  {
    seq(|hs|, i requires 0 <= i < |hs| => hs[i].checksum)
  }

  function FileDigests<C>(fs: seq<FileChecksumHolder<C>>): (ds: seq<C>)
    ensures |ds| == |fs| && forall i :: 0 <= i < |fs| ==> ds[i] == fs[i].checksum
  {
    seq(|fs|, i requires 0 <= i < |fs| => fs[i].checksum)
  }

  /**
   * The product type a raw identifier names; an unknown or absent
   * identifier gives `NoType`.
   */
  function ResolveProductType(raw: Option<string>): (t: TargetProductType)
    ensures raw.Some? && FromRawValue(raw.value).Some? ==> RawValue(t) == raw.value
    ensures t != NoType ==> raw == Some(RawValue(t))
    ensures (raw.None? || FromRawValue(raw.value).None?) ==> t == NoType
  {
    match raw
    case None => NoType
    case Some(s) => FromRawValue(s).GetOr(NoType)
  }

  /** A framework's product name must not contain a dash; any other name is valid. */
  predicate IsValidProductName(name: string, t: TargetProductType) {
    t == Framework ==> '-' !in name
  }

  /** The product name candidates in the order they are tried. */
  function ProductNameCandidates(t: PBXTarget): seq<Option<string>> {
    [ if t.product.Some? then t.product.value.name else None,
      if t.product.Some? then t.product.value.path else None,
      t.productNameWithExtension ]
  }

  predicate Acceptable(c: Option<string>, ty: TargetProductType) {
    c.Some? && IsValidProductName(c.value, ty)
  }

  /** The first candidate that is present and valid, else `EmptyProductName`. */
  function ObtainProductName(t: PBXTarget, ty: TargetProductType): Result<string, CalculatorError> {
    if t.product.Some? && t.product.value.name.Some? && IsValidProductName(t.product.value.name.value, ty) then
      Success(t.product.value.name.value)
    else if t.product.Some? && t.product.value.path.Some? && IsValidProductName(t.product.value.path.value, ty) then
      Success(t.product.value.path.value)
    else if t.productNameWithExtension.Some? && IsValidProductName(t.productNameWithExtension.value, ty) then
      Success(t.productNameWithExtension.value)
    else
      Failure(EmptyProductName(t.name))
  }

  /**
   * The product name is the first acceptable candidate; the lookup fails,
   * naming the target, exactly when no candidate is acceptable.
   */
  lemma ObtainProductNameFirstAcceptable(t: PBXTarget, ty: TargetProductType)
    ensures ObtainProductName(t, ty).Failure? <==>
      forall k :: 0 <= k < 3 ==> !Acceptable(ProductNameCandidates(t)[k], ty)
    ensures ObtainProductName(t, ty).Failure? ==> ObtainProductName(t, ty).error == EmptyProductName(t.name)
    ensures ObtainProductName(t, ty).Success? ==>
      exists k :: 0 <= k < 3 && ProductNameCandidates(t)[k] == Some(ObtainProductName(t, ty).value)
        && Acceptable(ProductNameCandidates(t)[k], ty)
        && forall j :: 0 <= j < k ==> !Acceptable(ProductNameCandidates(t)[j], ty)
  {
    var cs := ProductNameCandidates(t);
    if Acceptable(cs[0], ty) {
      assert ProductNameCandidates(t)[0] == Some(ObtainProductName(t, ty).value);
    } else if Acceptable(cs[1], ty) {
      assert ProductNameCandidates(t)[1] == Some(ObtainProductName(t, ty).value);
    } else if Acceptable(cs[2], ty) {
      assert ProductNameCandidates(t)[2] == Some(ObtainProductName(t, ty).value);
    }
  }

  /** A framework never gets a product name with a dash in it. */
  lemma FrameworkProductNameHasNoDash(t: PBXTarget)
    requires ObtainProductName(t, Framework).Success?
    ensures '-' !in ObtainProductName(t, Framework).value
  {
  }

  /** For a type other than framework the first present candidate wins, whatever it contains. */
  lemma NonFrameworkTakesFirstPresent(t: PBXTarget, ty: TargetProductType)
    requires ty != Framework
    ensures ObtainProductName(t, ty).Failure? <==>
      forall k :: 0 <= k < 3 ==> ProductNameCandidates(t)[k].None?
  {
    ObtainProductNameFirstAcceptable(t, ty);
  }

  /**
   * The file holders of `files`, built in order; the first failure aborts.
   */
  function FileHolders<C>(fb: FileHolderBuilder<C>, files: seq<PBXFileElement>, root: string)
    : (r: Result<seq<FileChecksumHolder<C>>, CalculatorError>)
    ensures r.Success? ==>
      |r.value| == |files| && forall i :: 0 <= i < |files| ==> fb(files[i], root) == Success(r.value[i])
    ensures r.Failure? ==>
      exists k :: 0 <= k < |files| && Lift(fb(files[k], root)) == Failure(r.error)
        && (forall j :: 0 <= j < k ==> fb(files[j], root).Success?)
  {
    if |files| == 0 then Success([])
    else
      var h :- Lift(fb(files[0], root));
      var rest :- FileHolders(fb, files[1..], root);
      Success([h] + rest)
  }

  /**
   * The holder the builder produces for target `t`, in the source's order:
   * the dependencies (absent targets skipped), their aggregate digest,
   * the files, their aggregate digest, the aggregate of those two, the
   * product type and the product name.
   */
  function BuildSpec<C>(alg: Algebra<C>, fb: FileHolderBuilder<C>, t: PBXTarget, root: string)
    : Result<TargetChecksumHolder<C>, CalculatorError>
    decreases t, 1
  {
    var deps :- BuildDependencies(alg, fb, t, 0, root);
    Complete(alg, fb, t, deps, root)
  }

  /** The steps of `BuildSpec` that follow the dependencies' holders `deps`. */
  function Complete<C>(alg: Algebra<C>, fb: FileHolderBuilder<C>, t: PBXTarget, deps: seq<TargetChecksumHolder<C>>, root: string)
    : Result<TargetChecksumHolder<C>, CalculatorError>
  {
    var depsDigest :- Lift(alg.aggregate(TargetDigests(deps)));
    var files :- FileHolders(fb, FileElements(t), root);
    var filesDigest :- Lift(alg.aggregate(FileDigests(files)));
    var digest :- Lift(alg.aggregate([depsDigest, filesDigest]));
    var productType := ResolveProductType(t.productType);
    var productName :- ObtainProductName(t, productType);
    Success(TargetChecksumHolder(t.name, productName, productType, digest, files, deps))
  }

  /** The holders of the dependencies of `parent` at positions `i..`, in order. */
  function BuildDependencies<C>(alg: Algebra<C>, fb: FileHolderBuilder<C>, parent: PBXTarget, i: nat, root: string)
    : Result<seq<TargetChecksumHolder<C>>, CalculatorError>
    requires i <= |parent.dependencies|
    decreases parent, 0, |parent.dependencies| - i
  {
    if i == |parent.dependencies| then Success([])
    else
      assert parent.dependencies[i] in parent.dependencies;
      match parent.dependencies[i].target
      case None => BuildDependencies(alg, fb, parent, i + 1, root)
      case Some(d) =>
        var h :- BuildSpec(alg, fb, d, root);
        var rest :- BuildDependencies(alg, fb, parent, i + 1, root);
        Success([h] + rest)
  }

  /** `compactMap { $0.target }` over the dependencies at positions `i..`. */
  function DependencyTargets(parent: PBXTarget, i: nat): (ts: seq<PBXTarget>)
    requires i <= |parent.dependencies|
    ensures |ts| <= |parent.dependencies| - i
    decreases |parent.dependencies| - i
  {
    if i == |parent.dependencies| then []
    else
      match parent.dependencies[i].target
      case None => DependencyTargets(parent, i + 1)
      case Some(d) => [d] + DependencyTargets(parent, i + 1)
  }

  /** `compactMap { $0.target }` over a list of dependencies. */
  function CompactTargets(ds: seq<PBXTargetDependency>): (ts: seq<PBXTarget>)
    ensures |ts| <= |ds|
  {
    if |ds| == 0 then []
    else (if ds[0].target.Some? then [ds[0].target.value] else []) + CompactTargets(ds[1..])
  }

  /** A target is kept exactly when some dependency points to it. */
  lemma {:induction false} CompactTargetsMembership(ds: seq<PBXTargetDependency>, t: PBXTarget)
    ensures t in CompactTargets(ds) <==> exists d :: d in ds && d.target == Some(t)
  {
    if |ds| > 0 {
      CompactTargetsMembership(ds[1..], t);
      assert forall d :: d in ds <==> d == ds[0] || d in ds[1..];
    }
  }

  /** Dropping absent targets commutes with concatenation: the declared order is kept. */
  lemma {:induction false} CompactTargetsAppend(xs: seq<PBXTargetDependency>, ys: seq<PBXTargetDependency>)
    ensures CompactTargets(xs + ys) == CompactTargets(xs) + CompactTargets(ys)
  {
    if |xs| == 0 {
      assert xs + ys == ys;
    } else {
      var zs := xs + ys;
      assert zs[0] == xs[0];
      assert zs[1..] == xs[1..] + ys;
      var head := if xs[0].target.Some? then [xs[0].target.value] else [];
      assert CompactTargets(zs) == head + CompactTargets(xs[1..] + ys);
      assert CompactTargets(xs) == head + CompactTargets(xs[1..]);
      CompactTargetsAppend(xs[1..], ys);
    }
  }

  /** The dependency targets from position `i` on are the targets of `dependencies[i..]`, absent ones dropped, in order. */
  lemma {:induction false} DependencyTargetsCompact(parent: PBXTarget, i: nat)
    requires i <= |parent.dependencies|
    ensures DependencyTargets(parent, i) == CompactTargets(parent.dependencies[i..])
    decreases |parent.dependencies| - i
  {
    if i < |parent.dependencies| {
      DependencyTargetsCompact(parent, i + 1);
      assert parent.dependencies[i..][0] == parent.dependencies[i];
      assert parent.dependencies[i..][1..] == parent.dependencies[i + 1..];
    }
  }

  /** A target is built as a dependency of `parent` exactly when one of its dependencies points to it. */
  lemma DependencyTargetsMembership(parent: PBXTarget, t: PBXTarget)
    ensures t in DependencyTargets(parent, 0) <==>
      exists j :: 0 <= j < |parent.dependencies| && parent.dependencies[j].target == Some(t)
  {
    DependencyTargetsCompact(parent, 0);
    assert parent.dependencies[0..] == parent.dependencies;
    CompactTargetsMembership(parent.dependencies, t);
    if t in DependencyTargets(parent, 0) {
      var d :| d in parent.dependencies && d.target == Some(t);
      var j :| 0 <= j < |parent.dependencies| && parent.dependencies[j] == d;
    }
  }

  /**
   * Building the dependencies is building each non-absent dependency
   * target in order: on success, one holder per target.
   */
  lemma {:induction false} BuildDependenciesSuccess<C>(alg: Algebra<C>, fb: FileHolderBuilder<C>, parent: PBXTarget, i: nat, root: string)
    requires i <= |parent.dependencies|
    requires BuildDependencies(alg, fb, parent, i, root).Success?
    ensures |BuildDependencies(alg, fb, parent, i, root).value| == |DependencyTargets(parent, i)|
    ensures forall k :: 0 <= k < |DependencyTargets(parent, i)| ==>
      BuildSpec(alg, fb, DependencyTargets(parent, i)[k], root) == Success(BuildDependencies(alg, fb, parent, i, root).value[k])
    decreases |parent.dependencies| - i
  {
    if i < |parent.dependencies| {
      BuildDependenciesSuccess(alg, fb, parent, i + 1, root);
      match parent.dependencies[i].target
      case None =>
      case Some(d) =>
        var hs := BuildDependencies(alg, fb, parent, i, root).value;
        var rest := BuildDependencies(alg, fb, parent, i + 1, root).value;
        var ts := DependencyTargets(parent, i + 1);
        assert hs == [BuildSpec(alg, fb, d, root).value] + rest;
        assert DependencyTargets(parent, i) == [d] + ts;
    }
  }

  /** On failure, the error is that of the first dependency target that fails. */
  lemma {:induction false} BuildDependenciesFailure<C>(alg: Algebra<C>, fb: FileHolderBuilder<C>, parent: PBXTarget, i: nat, root: string)
    requires i <= |parent.dependencies|
    requires BuildDependencies(alg, fb, parent, i, root).Failure?
    ensures exists k :: FirstFailureAt(alg, fb, DependencyTargets(parent, i), root, k, BuildDependencies(alg, fb, parent, i, root).error)
    decreases |parent.dependencies| - i
  {
    var e := BuildDependencies(alg, fb, parent, i, root).error;
    match parent.dependencies[i].target
    case None =>
      BuildDependenciesFailure(alg, fb, parent, i + 1, root);
      var k :| FirstFailureAt(alg, fb, DependencyTargets(parent, i + 1), root, k, e);
      assert DependencyTargets(parent, i) == DependencyTargets(parent, i + 1);
      assert FirstFailureAt(alg, fb, DependencyTargets(parent, i), root, k, e);
    case Some(d) =>
      var ts := DependencyTargets(parent, i);
      var rest := DependencyTargets(parent, i + 1);
      assert ts == [d] + rest;
      if BuildSpec(alg, fb, d, root).Failure? {
        assert FirstFailureAt(alg, fb, ts, root, 0, e);
      } else {
        BuildDependenciesFailure(alg, fb, parent, i + 1, root);
        var k :| FirstFailureAt(alg, fb, rest, root, k, e);
        FirstFailureAfter(alg, fb, d, rest, root, k, e);
      }
  }

  /** A target that succeeds, put in front, moves the first failure one place on. */
  lemma FirstFailureAfter<C>(alg: Algebra<C>, fb: FileHolderBuilder<C>, d: PBXTarget, rest: seq<PBXTarget>, root: string, k: int, e: CalculatorError)
    requires BuildSpec(alg, fb, d, root).Success?
    requires FirstFailureAt(alg, fb, rest, root, k, e)
    ensures FirstFailureAt(alg, fb, [d] + rest, root, k + 1, e)
  {
    var r := BuildSpec(alg, fb, d, root);
    var rs := Outcomes(alg, fb, rest, root);
    assert Outcomes(alg, fb, [d] + rest, root) == [r] + rs;
    FirstFailureInCons(r, rs, k, e);
  }

  /** The result of building each target of `ts`, in order. */
  ghost function Outcomes<C>(alg: Algebra<C>, fb: FileHolderBuilder<C>, ts: seq<PBXTarget>, root: string)
    : seq<Result<TargetChecksumHolder<C>, CalculatorError>>
  {
    seq(|ts|, j requires 0 <= j < |ts| => BuildSpec(alg, fb, ts[j], root))
  }

  /** `rs[k]` is `Failure(e)` and every outcome before it is a success. */
  ghost predicate FirstFailureIn<T>(rs: seq<Result<T, CalculatorError>>, k: int, e: CalculatorError) {
    0 <= k < |rs| && rs[k] == Failure(e) && forall j :: 0 <= j < k ==> rs[j].Success?
  }

  /** A success put in front moves the first failure one place on. */
  lemma FirstFailureInCons<T>(r: Result<T, CalculatorError>, rs: seq<Result<T, CalculatorError>>, k: int, e: CalculatorError)
    requires r.Success?
    requires FirstFailureIn(rs, k, e)
    ensures FirstFailureIn([r] + rs, k + 1, e)
  {
    var xs := [r] + rs;
    forall j | 0 <= j < k + 1 ensures xs[j].Success? {
      if j > 0 { assert xs[j] == rs[j - 1]; }
    }
  }

  /** Target `ts[k]` fails with `e` and every target before it succeeds. */
  ghost predicate FirstFailureAt<C>(alg: Algebra<C>, fb: FileHolderBuilder<C>, ts: seq<PBXTarget>, root: string, k: int, e: CalculatorError) {
    FirstFailureIn(Outcomes(alg, fb, ts, root), k, e)
  }

  /**
   * The composition law of a target's holder: it carries the target's
   * name, one holder per non-absent dependency target built the same way
   * and one per file element, both in order; its digest is the aggregate
   * of the aggregate of the dependency digests and the aggregate of the
   * file digests; and its product type and name are the resolved ones.
   */
  lemma BuildComposition<C>(alg: Algebra<C>, fb: FileHolderBuilder<C>, t: PBXTarget, root: string)
    requires BuildSpec(alg, fb, t, root).Success?
    ensures var h := BuildSpec(alg, fb, t, root).value;
      var ts := DependencyTargets(t, 0);
      var files := FileElements(t);
      && h.name == t.name
      && |h.dependencies| == |ts|
      && (forall k :: 0 <= k < |ts| ==> BuildSpec(alg, fb, ts[k], root) == Success(h.dependencies[k]))
      && |h.files| == |files|
      && (forall k :: 0 <= k < |files| ==> fb(files[k], root) == Success(h.files[k]))
      && alg.aggregate(TargetDigests(h.dependencies)).Success?
      && alg.aggregate(FileDigests(h.files)).Success?
      && alg.aggregate([alg.aggregate(TargetDigests(h.dependencies)).value,
                        alg.aggregate(FileDigests(h.files)).value]) == Success(h.checksum)
      && h.productType == ResolveProductType(t.productType)
      && ObtainProductName(t, h.productType) == Success(h.productName)
  {
    BuildDependenciesSuccess(alg, fb, t, 0, root);
  }

  /**
   * A target's digest depends only on the digests of its dependencies and
   * of its files: two targets whose dependency and file digests agree get
   * the same digest.
   */
  lemma DigestDependsOnlyOnParts<C>(alg: Algebra<C>, fb: FileHolderBuilder<C>, t1: PBXTarget, t2: PBXTarget, root: string)
    requires BuildSpec(alg, fb, t1, root).Success? && BuildSpec(alg, fb, t2, root).Success?
    requires TargetDigests(BuildSpec(alg, fb, t1, root).value.dependencies) == TargetDigests(BuildSpec(alg, fb, t2, root).value.dependencies)
    requires FileDigests(BuildSpec(alg, fb, t1, root).value.files) == FileDigests(BuildSpec(alg, fb, t2, root).value.files)
    ensures BuildSpec(alg, fb, t1, root).value.checksum == BuildSpec(alg, fb, t2, root).value.checksum
  {
    BuildComposition(alg, fb, t1, root);
    BuildComposition(alg, fb, t2, root);
  }

  /** The dictionary shared by the builds of one run, keyed by target. */
  class ThreadSafeDictionary<K(==), V> {
    var storage: map<K, V>

    constructor()
      ensures storage == map[]
    {
      storage := map[];
    }

    method Read(key: K) returns (v: Option<V>)
      ensures v.Some? <==> key in storage
      ensures v.Some? ==> v.value == storage[key]
    {
      if key in storage {
        v := Some(storage[key]);
      } else {
        v := None;
      }
    }

    method Write(value: V, key: K)
      modifies this
      ensures storage == old(storage)[key := value]
    {
      storage := storage[key := value];
    }
  }

  function Prepend<T, E>(xs: seq<T>, r: Result<seq<T>, E>): Result<seq<T>, E> {
    match r
    case Success(ys) => Success(xs + ys)
    case Failure(e) => Failure(e)
  }

  class TargetChecksumHolderBuilder<C> {
    const algebra: Algebra<C>
    const fileBuilder: FileHolderBuilder<C>
    /** The targets whose holder this builder computed (not read from the cache), in order. */
    ghost var computed: seq<PBXTarget>

    constructor(algebra: Algebra<C>, fileBuilder: FileHolderBuilder<C>)
      ensures this.algebra == algebra && this.fileBuilder == fileBuilder
      ensures computed == []
    {
      this.algebra := algebra;
      this.fileBuilder := fileBuilder;
      computed := [];
    }

    /** Every cached holder is the one the specification gives for its target. */
    ghost predicate CacheConsistent(cache: ThreadSafeDictionary<PBXTarget, TargetChecksumHolder<C>>, root: string)
      reads cache
    {
      forall t :: t in cache.storage ==> BuildSpec(algebra, fileBuilder, t, root) == Success(cache.storage[t])
    }

    /** Each target was computed at most once, and every computed target is cached. */
    ghost predicate ComputedOnce(cache: ThreadSafeDictionary<PBXTarget, TargetChecksumHolder<C>>)
      reads this, cache
    {
      (forall i, j :: 0 <= i < j < |computed| ==> computed[i] != computed[j])
      && (forall t :: t in computed ==> t in cache.storage)
    }

    /**
     * The holder of `target`: the cached one when there is one, otherwise
     * built from the dependencies' holders (each built the same way) and
     * the files, and then cached.
     */
    method Build(target: PBXTarget, root: string, cache: ThreadSafeDictionary<PBXTarget, TargetChecksumHolder<C>>)
      returns (r: Result<TargetChecksumHolder<C>, CalculatorError>)
      requires CacheConsistent(cache, root) && ComputedOnce(cache)
      modifies this, cache
      ensures CacheConsistent(cache, root) && ComputedOnce(cache)
      ensures r == BuildSpec(algebra, fileBuilder, target, root)
      ensures target in old(cache.storage) ==>
        r == Success(old(cache.storage)[target]) && cache.storage == old(cache.storage) && computed == old(computed)
      ensures r.Success? ==> target in cache.storage && cache.storage[target] == r.value
      ensures forall t :: t in old(cache.storage) ==> t in cache.storage && cache.storage[t] == old(cache.storage)[t]
      ensures forall t :: t in cache.storage ==> t in old(cache.storage) || t in Reachable(target)
      decreases target, 1
    {
      var cached := cache.Read(target);
      if cached.Some? {
        return Success(cached.value);
      }
      NotReachableFromDependencies(target);
      var deps := BuildDependencyHolders(target, root, cache);
      if deps.Failure? {
        return Failure(deps.error);
      }
      r := Complete(algebra, fileBuilder, target, deps.value, root);
      if r.Success? {
        cache.Write(r.value, target);
        computed := computed + [target];
      }
    }

    /** The holders of the non-absent dependency targets of `target`, in order; the first failure aborts. */
    method BuildDependencyHolders(target: PBXTarget, root: string, cache: ThreadSafeDictionary<PBXTarget, TargetChecksumHolder<C>>)
      returns (r: Result<seq<TargetChecksumHolder<C>>, CalculatorError>)
      requires CacheConsistent(cache, root) && ComputedOnce(cache)
      modifies this, cache
      ensures CacheConsistent(cache, root) && ComputedOnce(cache)
      ensures r == BuildDependencies(algebra, fileBuilder, target, 0, root)
      ensures forall t :: t in old(cache.storage) ==> t in cache.storage && cache.storage[t] == old(cache.storage)[t]
      ensures forall t :: t in cache.storage ==> t in old(cache.storage) || t in ReachableFrom(target, 0)
      decreases target, 0
    {
      var deps: seq<TargetChecksumHolder<C>> := [];
      PrependNothing(BuildDependencies(algebra, fileBuilder, target, 0, root));
      var i := 0;
      while i < |target.dependencies|
        invariant 0 <= i <= |target.dependencies|
        invariant CacheConsistent(cache, root) && ComputedOnce(cache)
        invariant BuildDependencies(algebra, fileBuilder, target, 0, root)
          == Prepend(deps, BuildDependencies(algebra, fileBuilder, target, i, root))
        invariant forall t :: t in old(cache.storage) ==> t in cache.storage && cache.storage[t] == old(cache.storage)[t]
        invariant forall t :: t in cache.storage ==> t in old(cache.storage) || t in ReachableFrom(target, 0)
      {
        assert target.dependencies[i] in target.dependencies;
        var dep := target.dependencies[i].target;
        if dep.Some? {
          DependencyReachableFrom(target, 0, i);
          var h := Build(dep.value, root, cache);
          BuildDependenciesStep(algebra, fileBuilder, target, i, root);
          if h.Failure? {
            return Failure(h.error);
          }
          PrependTwice(deps, [h.value], BuildDependencies(algebra, fileBuilder, target, i + 1, root));
          deps := deps + [h.value];
        }
        i := i + 1;
      }
      assert deps + [] == deps;
      return Success(deps);
    }
  }

  /** One dependency of `BuildDependencies`: an absent target is skipped, a failing one aborts, a built one is prepended. */
  lemma BuildDependenciesStep<C>(alg: Algebra<C>, fb: FileHolderBuilder<C>, parent: PBXTarget, i: nat, root: string)
    requires i < |parent.dependencies|
    ensures parent.dependencies[i].target.None? ==>
      BuildDependencies(alg, fb, parent, i, root) == BuildDependencies(alg, fb, parent, i + 1, root)
    ensures parent.dependencies[i].target.Some? ==>
      var h := BuildSpec(alg, fb, parent.dependencies[i].target.value, root);
      BuildDependencies(alg, fb, parent, i, root)
        == if h.Failure? then Failure(h.error) else Prepend([h.value], BuildDependencies(alg, fb, parent, i + 1, root))
  {
  }

  lemma PrependNothing<T, E>(r: Result<seq<T>, E>)
    ensures Prepend([], r) == r
  {
    if r.Success? {
      assert [] + r.value == r.value;
    }
  }

  lemma PrependTwice<T, E>(xs: seq<T>, ys: seq<T>, r: Result<seq<T>, E>)
    ensures Prepend(xs, Prepend(ys, r)) == Prepend(xs + ys, r)
  {
    if r.Success? {
      assert xs + (ys + r.value) == (xs + ys) + r.value;
    }
  }

  /** A fresh cache is consistent with every builder. */
  lemma EmptyCacheConsistent<C>(b: TargetChecksumHolderBuilder<C>, cache: ThreadSafeDictionary<PBXTarget, TargetChecksumHolder<C>>, root: string)
    requires cache.storage == map[]
    ensures b.CacheConsistent(cache, root)
  {
  }
}
