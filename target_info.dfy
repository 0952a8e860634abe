/**
 * The target-info projection: looking a holder up by target or product
 * name in a checksum run and turning holders into the records the remote
 * cache works with, each digest mixed with the build-parameters digest.
 */
module TargetInfos {
  import opened Wrappers
  import opened Checksums
  import opened ProductTypes
  import opened ChecksumHolders
  import opened CalculatorErrors

  datatype TargetInfo<C> = TargetInfo(
    targetName: string,
    productName: string,
    productType: TargetProductType,
    dependencies: seq<string>,
    checksum: C)

  /** The holders of every target of every project, projects in order, targets in order. */
  function Flatten<C>(ps: seq<ProjectChecksumHolder<C>>): (hs: seq<TargetChecksumHolder<C>>)
    ensures forall i, t :: 0 <= i < |ps| && 0 <= t < |ps[i].targets| ==> ps[i].targets[t] in hs
    ensures forall h :: h in hs ==> exists i :: 0 <= i < |ps| && h in ps[i].targets
  {
    if |ps| == 0 then []
    else
      var rest := Flatten(ps[1..]);
      FlattenTail(ps, rest);
      ps[0].targets + rest
  }

  lemma FlattenTail<C>(ps: seq<ProjectChecksumHolder<C>>, rest: seq<TargetChecksumHolder<C>>)
    requires |ps| > 0
    requires forall i, t :: 0 <= i < |ps[1..]| && 0 <= t < |ps[1..][i].targets| ==> ps[1..][i].targets[t] in rest
    ensures forall i, t :: 0 < i < |ps| && 0 <= t < |ps[i].targets| ==> ps[i].targets[t] in rest
  {
    forall i, t | 0 < i < |ps| && 0 <= t < |ps[i].targets| ensures ps[i].targets[t] in rest {
      assert ps[1..][i - 1] == ps[i];
    }
  }

  /** Flattening respects concatenation: the projects' targets appear project by project. */
  lemma {:induction false} FlattenAppend<C>(ps: seq<ProjectChecksumHolder<C>>, qs: seq<ProjectChecksumHolder<C>>)
    ensures Flatten(ps + qs) == Flatten(ps) + Flatten(qs)
  {
    if |ps| == 0 {
      assert ps + qs == qs;
    } else {
      assert (ps + qs)[1..] == ps[1..] + qs;
      FlattenAppend(ps[1..], qs);
    }
  }

  lemma FlattenSingle<C>(p: ProjectChecksumHolder<C>)
    ensures Flatten([p]) == p.targets
  {
    assert [p][1..] == [];
  }

  /** `targetChecksumHolders()`: all target holders of the run. */
  function AllTargetHolders<C>(x: XcodeProjChecksumHolder<C>): seq<TargetChecksumHolder<C>> {
    Flatten(x.proj.projects)
  }

  /** The first holder of `hs` that satisfies `p`, if any. */
  function FirstMatch<C>(hs: seq<TargetChecksumHolder<C>>, p: TargetChecksumHolder<C> -> bool)
    : (r: Option<TargetChecksumHolder<C>>)
    ensures r.None? <==> forall i :: 0 <= i < |hs| ==> !p(hs[i])
    ensures r.Some? ==> exists i :: IsFirstMatch(hs, p, i) && hs[i] == r.value
  {
    if |hs| == 0 then None
    else if p(hs[0]) then
      assert IsFirstMatch(hs, p, 0);
      Some(hs[0])
    else
      var r := FirstMatch(hs[1..], p);
      FirstMatchTail(hs, p, r);
      r
  }

  lemma FirstMatchTail<C>(hs: seq<TargetChecksumHolder<C>>, p: TargetChecksumHolder<C> -> bool, r: Option<TargetChecksumHolder<C>>)
    requires |hs| > 0 && !p(hs[0])
    requires r.None? <==> forall i :: 0 <= i < |hs[1..]| ==> !p(hs[1..][i])
    requires r.Some? ==> exists i :: IsFirstMatch(hs[1..], p, i) && hs[1..][i] == r.value
    ensures r.None? <==> forall i :: 0 <= i < |hs| ==> !p(hs[i])
    ensures r.Some? ==> exists i :: IsFirstMatch(hs, p, i) && hs[i] == r.value
  {
    if r.Some? {
      var i :| IsFirstMatch(hs[1..], p, i) && hs[1..][i] == r.value;
      assert IsFirstMatch(hs, p, i + 1);
    } else {
      forall i | 0 < i < |hs| ensures !p(hs[i]) {
        assert hs[i] == hs[1..][i - 1];
      }
    }
  }

  /** `hs[i]` satisfies `p` and no earlier holder does. */
  ghost predicate IsFirstMatch<C>(hs: seq<TargetChecksumHolder<C>>, p: TargetChecksumHolder<C> -> bool, i: int) {
    0 <= i < |hs| && p(hs[i]) && forall j :: 0 <= j < i ==> !p(hs[j])
  }

  /** The filter `{ $0.targetName == target }`. */
  function NameIs<C>(target: string): TargetChecksumHolder<C> -> bool {
    (h: TargetChecksumHolder<C>) => h.name == target
  }

  /** The filter `{ $0.productName == productName }`. */
  function ProductIs<C>(productName: string): TargetChecksumHolder<C> -> bool {
    (h: TargetChecksumHolder<C>) => h.productName == productName
  }

  function NamedTarget<C>(x: XcodeProjChecksumHolder<C>, target: string): Option<TargetChecksumHolder<C>> {
    FirstMatch(AllTargetHolders(x), NameIs(target))
  }

  function NamedProduct<C>(x: XcodeProjChecksumHolder<C>, productName: string): Option<TargetChecksumHolder<C>> {
    FirstMatch(AllTargetHolders(x), ProductIs(productName))
  }

  /** The record of one holder: its fields, its direct dependencies' names and its digest plus `p`. */
  function Info<C>(alg: Algebra<C>, h: TargetChecksumHolder<C>, p: C): (r: Result<TargetInfo<C>, CalculatorError>)
    ensures r.Success? <==> alg.add(h.checksum, p).Success?
    ensures r.Failure? ==> r.error == ChecksumFailure(alg.add(h.checksum, p).error)
  {
    var c :- Lift(alg.add(h.checksum, p));
    Success(TargetInfo(h.name, h.productName, h.productType, DependencyNames(h), c))
  }

  /** `r` is the record of `h` with digest `h.checksum + p`. */
  ghost predicate DescribesHolder<C>(alg: Algebra<C>, r: TargetInfo<C>, h: TargetChecksumHolder<C>, p: C) {
    && r.targetName == h.name
    && r.productName == h.productName
    && r.productType == h.productType
    && |r.dependencies| == |h.dependencies|
    && (forall k :: 0 <= k < |h.dependencies| ==> r.dependencies[k] == h.dependencies[k].name)
    && alg.add(h.checksum, p) == Success(r.checksum)
  }

  lemma InfoDescribesHolder<C>(alg: Algebra<C>, h: TargetChecksumHolder<C>, p: C)
    requires Info(alg, h, p).Success?
    ensures DescribesHolder(alg, Info(alg, h, p).value, h, p)
  {
  }

  /** The records of `hs`, in order; the first failing `+` aborts. */
  function Infos<C>(alg: Algebra<C>, hs: seq<TargetChecksumHolder<C>>, p: C)
    : (r: Result<seq<TargetInfo<C>>, CalculatorError>)
    ensures r.Success? ==> |r.value| == |hs|
    ensures r.Success? ==> forall i :: 0 <= i < |hs| ==> Info(alg, hs[i], p) == Success(r.value[i])
    ensures r.Failure? ==> exists k :: (0 <= k < |hs| && Info(alg, hs[k], p) == Failure(r.error)
      && forall j :: 0 <= j < k ==> Info(alg, hs[j], p).Success?)
    ensures r.Failure? ==> r.error.ChecksumFailure?
  {
    if |hs| == 0 then Success([])
    else
      var first :- Info(alg, hs[0], p);
      var rest :- Infos(alg, hs[1..], p);
      Success([first] + rest)
  }

  /**
   * `dependencies(for:buildParametersChecksum:)`: the records of the flat
   * dependency list of the first holder named `target`; `flat` stands for
   * `allFlatDependencies`, which this model takes as given.
   */
  function Dependencies<C>(x: XcodeProjChecksumHolder<C>, flat: TargetChecksumHolder<C> -> seq<TargetChecksumHolder<C>>,
                           alg: Algebra<C>, target: string, p: C)
    : Result<seq<TargetInfo<C>>, CalculatorError>
  {
    match NamedTarget(x, target)
    case None => Failure(EmptyTargetChecksum(target))
    case Some(h) => Infos(alg, flat(h), p)
  }

  /** `targetInfo(for:buildParametersChecksum:)`: the record of the first holder whose product is `productName`. */
  function TargetInfoFor<C>(x: XcodeProjChecksumHolder<C>, alg: Algebra<C>, productName: string, p: C)
    : Result<TargetInfo<C>, CalculatorError>
  {
    match NamedProduct(x, productName)
    case None => Failure(EmptyProductChecksum(productName))
    case Some(h) => Info(alg, h, p)
  }

  /** The lookup by target name fails with `emptyTargetChecksum` exactly when no holder has that name. */
  lemma DependenciesNotFound<C>(x: XcodeProjChecksumHolder<C>, flat: TargetChecksumHolder<C> -> seq<TargetChecksumHolder<C>>,
                                alg: Algebra<C>, target: string, p: C)
    ensures Dependencies(x, flat, alg, target, p) == Failure(EmptyTargetChecksum(target))
      <==> forall h :: h in AllTargetHolders(x) ==> h.name != target
  {
    var hs := AllTargetHolders(x);
    if forall h :: h in hs ==> h.name != target {
      assert forall i :: 0 <= i < |hs| ==> hs[i] in hs;
    } else {
      var h :| h in hs && h.name == target;
      var i :| 0 <= i < |hs| && hs[i] == h;
      assert NameIs(target)(hs[i]);
    }
  }

  /**
   * On success the result has one record per flat dependency of the first
   * holder named `target`, in the same order, each describing its holder.
   */
  lemma DependenciesSuccess<C>(x: XcodeProjChecksumHolder<C>, flat: TargetChecksumHolder<C> -> seq<TargetChecksumHolder<C>>,
                               alg: Algebra<C>, target: string, p: C)
    requires Dependencies(x, flat, alg, target, p).Success?
    ensures exists i :: (
      && IsFirstMatch(AllTargetHolders(x), NameIs(target), i)
      && var deps := flat(AllTargetHolders(x)[i]);
         var r := Dependencies(x, flat, alg, target, p).value;
         |r| == |deps| && forall k :: 0 <= k < |deps| ==> DescribesHolder(alg, r[k], deps[k], p))
  {
    var h := NamedTarget(x, target).value;
    var r := Dependencies(x, flat, alg, target, p).value;
    forall k | 0 <= k < |flat(h)| ensures DescribesHolder(alg, r[k], flat(h)[k], p) {
      InfoDescribesHolder(alg, flat(h)[k], p);
    }
  }

  /** The lookup by product name fails with `emptyProductChecksum` exactly when no holder has that product. */
  lemma TargetInfoForNotFound<C>(x: XcodeProjChecksumHolder<C>, alg: Algebra<C>, productName: string, p: C)
    ensures TargetInfoFor(x, alg, productName, p) == Failure(EmptyProductChecksum(productName))
      <==> forall h :: h in AllTargetHolders(x) ==> h.productName != productName
  {
    var hs := AllTargetHolders(x);
    if forall h :: h in hs ==> h.productName != productName {
      assert forall i :: 0 <= i < |hs| ==> hs[i] in hs;
    } else {
      var h :| h in hs && h.productName == productName;
      var i :| 0 <= i < |hs| && hs[i] == h;
      assert ProductIs(productName)(hs[i]);
    }
  }

  /** On success the result describes the first holder whose product is `productName`. */
  lemma TargetInfoForSuccess<C>(x: XcodeProjChecksumHolder<C>, alg: Algebra<C>, productName: string, p: C)
    requires TargetInfoFor(x, alg, productName, p).Success?
    ensures exists i :: (
      && IsFirstMatch(AllTargetHolders(x), ProductIs(productName), i)
      && DescribesHolder(alg, TargetInfoFor(x, alg, productName, p).value, AllTargetHolders(x)[i], p))
  {
    InfoDescribesHolder(alg, NamedProduct(x, productName).value, p);
  }
}
