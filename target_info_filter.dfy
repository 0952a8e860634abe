/**
 * The target-info filter of the remote-cache preparer: the required
 * records of a target and the records of its non-bundle products.
 */
module TargetInfoFiltering {
  import opened Wrappers
  import opened Checksums
  import opened ProductTypes
  import opened ChecksumHolders
  import opened CalculatorErrors
  import opened TargetInfos

  /** `obtainRequiredTargets(targetName:buildParametersChecksum:)`: the provider's dependency records. */
  function ObtainRequiredTargets<C>(x: XcodeProjChecksumHolder<C>, flat: TargetChecksumHolder<C> -> seq<TargetChecksumHolder<C>>,
                                    alg: Algebra<C>, targetName: string, p: C)
    : Result<seq<TargetInfo<C>>, CalculatorError>
  {
    Dependencies(x, flat, alg, targetName, p)
  }

  /** `frameworkTargetInfos`: the records whose product is not a bundle, in order. */
  function FrameworkTargetInfos<C>(infos: seq<TargetInfo<C>>): (r: seq<TargetInfo<C>>)
    ensures forall i :: 0 <= i < |r| ==> r[i].productType != Bundle
    ensures forall x :: x in infos && x.productType != Bundle ==> x in r
    ensures forall x :: x in r ==> x in infos
    ensures |r| <= |infos|
  {
    if |infos| == 0 then []
    else if infos[0].productType == Bundle then FrameworkTargetInfos(infos[1..])
    else [infos[0]] + FrameworkTargetInfos(infos[1..])
  }

  /** `xs` is `ys` with some elements left out, the rest in their order. */
  ghost predicate IsSubsequence<T>(xs: seq<T>, ys: seq<T>)
    decreases |ys|
  {
    if |xs| == 0 then true
    else if |ys| == 0 then false
    else (xs[0] == ys[0] && IsSubsequence(xs[1..], ys[1..])) || IsSubsequence(xs, ys[1..])
  }

  /** The filter keeps the order of the records it keeps. */
  lemma {:induction false} FrameworkTargetInfosIsSubsequence<C>(infos: seq<TargetInfo<C>>)
    ensures IsSubsequence(FrameworkTargetInfos(infos), infos)
  {
    if |infos| > 0 {
      FrameworkTargetInfosIsSubsequence(infos[1..]);
      var rest := FrameworkTargetInfos(infos[1..]);
      if infos[0].productType != Bundle {
        assert ([infos[0]] + rest)[1..] == rest;
      } else if |rest| > 0 {
        assert IsSubsequence(rest, infos[1..]);
      }
    }
  }

  /** Filtering a list with no bundle changes nothing; in particular filtering twice is filtering once. */
  lemma {:induction false} FrameworkTargetInfosIdempotent<C>(infos: seq<TargetInfo<C>>)
    ensures FrameworkTargetInfos(FrameworkTargetInfos(infos)) == FrameworkTargetInfos(infos)
  {
    NoBundleUnchanged(FrameworkTargetInfos(infos));
  }

  lemma {:induction false} NoBundleUnchanged<C>(infos: seq<TargetInfo<C>>)
    requires forall i :: 0 <= i < |infos| ==> infos[i].productType != Bundle
    ensures FrameworkTargetInfos(infos) == infos
  {
    if |infos| > 0 {
      NoBundleUnchanged(infos[1..]);
      assert [infos[0]] + infos[1..] == infos;
    }
  }

  /** The target whose records the preparer asks for first, `Pods-<target>-Calcifer`. */
  function CalciferPodsTargetName(targetName: string): string {
    "Pods-" + targetName + "-Calcifer"
  }

  /** The target it falls back to, `Pods-<target>`. */
  function PodsTargetName(targetName: string): string {
    "Pods-" + targetName
  }

  /**
   * The preparer's lookup: the records of `Pods-<target>-Calcifer` when
   * there are any; when that lookup succeeds with none, those of
   * `Pods-<target>`. A failing first lookup is not retried.
   */
  function RequiredTargetsWithFallback<C>(x: XcodeProjChecksumHolder<C>, flat: TargetChecksumHolder<C> -> seq<TargetChecksumHolder<C>>,
                                          alg: Algebra<C>, targetName: string, p: C)
    : (r: Result<seq<TargetInfo<C>>, CalculatorError>)
    ensures ObtainRequiredTargets(x, flat, alg, CalciferPodsTargetName(targetName), p).Failure? ==>
      r == ObtainRequiredTargets(x, flat, alg, CalciferPodsTargetName(targetName), p)
    ensures (ObtainRequiredTargets(x, flat, alg, CalciferPodsTargetName(targetName), p).Success? &&
             |ObtainRequiredTargets(x, flat, alg, CalciferPodsTargetName(targetName), p).value| > 0) ==>
      r == ObtainRequiredTargets(x, flat, alg, CalciferPodsTargetName(targetName), p)
    ensures ObtainRequiredTargets(x, flat, alg, CalciferPodsTargetName(targetName), p) == Success([]) ==>
      r == ObtainRequiredTargets(x, flat, alg, PodsTargetName(targetName), p)
  {
    var first :- ObtainRequiredTargets(x, flat, alg, CalciferPodsTargetName(targetName), p);
    if |first| > 0 then Success(first)
    else ObtainRequiredTargets(x, flat, alg, PodsTargetName(targetName), p)
  }

  /**
   * When no holder is named `Pods-<target>-Calcifer`, the lookup fails with
   * `emptyTargetChecksum` for that name and never reaches `Pods-<target>`.
   */
  lemma MissingCalciferTargetIsNotRetried<C>(x: XcodeProjChecksumHolder<C>, flat: TargetChecksumHolder<C> -> seq<TargetChecksumHolder<C>>,
                                             alg: Algebra<C>, targetName: string, p: C)
    requires forall h :: h in AllTargetHolders(x) ==> h.name != CalciferPodsTargetName(targetName)
    ensures RequiredTargetsWithFallback(x, flat, alg, targetName, p)
      == Failure(EmptyTargetChecksum(CalciferPodsTargetName(targetName)))
  {
    DependenciesNotFound(x, flat, alg, CalciferPodsTargetName(targetName), p);
  }
}
