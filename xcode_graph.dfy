/**
 * The part of the Xcode project graph the checksum core reads: targets, the
 * dependencies between them, their products and their build phases. These are
 * values; a target's dependencies hold the dependency targets themselves, so
 * the graph is acyclic by construction.
 */
module XcodeGraph {
  import opened Wrappers
  import opened ProductTypes

  /** A file of the project (only passed on to the file-checksum layer). */
  datatype PBXFileElement = PBXFileElement(name: Option<string>, path: Option<string>)

  /** A build file: an entry of a build phase, which may reference no file. */
  datatype PBXBuildFile = PBXBuildFile(file: Option<PBXFileElement>)

  /** A build phase; its file list may be absent. */
  datatype PBXBuildPhase = PBXBuildPhase(files: Option<seq<PBXBuildFile>>)

  /** The reference to a target's product on disk. */
  datatype PBXFileReference = PBXFileReference(name: Option<string>, path: Option<string>)

  datatype PBXTargetDependency = PBXTargetDependency(name: Option<string>, target: Option<PBXTarget>)

  /**
   * A target. `productType` is Xcode's raw product-type identifier;
   * `productNameWithExtension` is the name the project library derives from
   * the product name and type; `sourcesBuildPhase` and `resourcesBuildPhase`
   * are the phases the library finds for the target (absent when it finds none).
   */
  datatype PBXTarget = PBXTarget(
    name: string,
    dependencies: seq<PBXTargetDependency>,
    productType: Option<string>,
    product: Option<PBXFileReference>,
    productNameWithExtension: Option<string>,
    sourcesBuildPhase: Option<PBXBuildPhase>,
    resourcesBuildPhase: Option<PBXBuildPhase>)

  /** `compactMap { $0.file }`: the referenced files, in order, without the empty entries. */
  function CompactFiles(bs: seq<PBXBuildFile>): (r: seq<PBXFileElement>)
    ensures |r| <= |bs|
  {
    if bs == [] then []
    else (if bs[0].file.Some? then [bs[0].file.value] else []) + CompactFiles(bs[1..])
  }

  /** A file is kept exactly when some build file references it. */
  lemma {:induction false} CompactFilesMembership(bs: seq<PBXBuildFile>, f: PBXFileElement)
    ensures f in CompactFiles(bs) <==> exists b :: b in bs && b.file == Some(f)
  {
    if bs != [] {
      CompactFilesMembership(bs[1..], f);
      assert forall b :: b in bs <==> b == bs[0] || b in bs[1..];
    }
  }

  /** Dropping empty entries commutes with concatenation, so the order of the entries is kept. */
  lemma {:induction false} CompactFilesAppend(xs: seq<PBXBuildFile>, ys: seq<PBXBuildFile>)
    ensures CompactFiles(xs + ys) == CompactFiles(xs) + CompactFiles(ys)
  {
    if xs == [] {
      assert xs + ys == ys;
    } else {
      var zs := xs + ys;
      assert zs[0] == xs[0];
      assert zs[1..] == xs[1..] + ys;
      var head := if xs[0].file.Some? then [xs[0].file.value] else [];
      assert CompactFiles(zs) == head + CompactFiles(xs[1..] + ys);
      assert CompactFiles(xs) == head + CompactFiles(xs[1..]);
      CompactFilesAppend(xs[1..], ys);
    }
  }

  /** `PBXBuildPhase.fileElements()`: a phase without a file list contributes nothing. */
  function PhaseFileElements(phase: PBXBuildPhase): seq<PBXFileElement> {
    match phase.files
    case None => []
    case Some(files) => CompactFiles(files)
  }

  /** The files a phase that may be absent contributes. */
  function OptionalPhaseFiles(phase: Option<PBXBuildPhase>): seq<PBXFileElement> {
    match phase
    case None => []
    case Some(p) => PhaseFileElements(p)
  }

  /** `f` is referenced by a build file of `phase`. */
  ghost predicate PhaseReferences(phase: Option<PBXBuildPhase>, f: PBXFileElement) {
    phase.Some? && phase.value.files.Some? &&
    exists b :: b in phase.value.files.value && b.file == Some(f)
  }

  predicate IsBundleTarget(t: PBXTarget) {
    t.productType == Some(BundleRawValue)
  }

  /**
   * `PBXTarget.fileElements()`: the source files, then, for bundle products
   * only, the resource files.
   */
  function FileElements(t: PBXTarget): (files: seq<PBXFileElement>)
    ensures |OptionalPhaseFiles(t.sourcesBuildPhase)| <= |files|
    ensures files[..|OptionalPhaseFiles(t.sourcesBuildPhase)|] == OptionalPhaseFiles(t.sourcesBuildPhase)
    ensures !IsBundleTarget(t) ==> files == OptionalPhaseFiles(t.sourcesBuildPhase)
  {
    var sources := OptionalPhaseFiles(t.sourcesBuildPhase);
    if IsBundleTarget(t) then sources + OptionalPhaseFiles(t.resourcesBuildPhase) else sources
  }

  lemma OptionalPhaseMembership(phase: Option<PBXBuildPhase>, f: PBXFileElement)
    ensures f in OptionalPhaseFiles(phase) <==> PhaseReferences(phase, f)
  {
    if phase.Some? && phase.value.files.Some? {
      CompactFilesMembership(phase.value.files.value, f);
    }
  }

  /**
   * A file is among a target's file elements exactly when the sources phase
   * references it, or the target is a bundle and the resources phase does.
   */
  lemma FileElementsMembership(t: PBXTarget, f: PBXFileElement)
    ensures f in FileElements(t) <==>
      PhaseReferences(t.sourcesBuildPhase, f) ||
      (IsBundleTarget(t) && PhaseReferences(t.resourcesBuildPhase, f))
  {
    OptionalPhaseMembership(t.sourcesBuildPhase, f);
    OptionalPhaseMembership(t.resourcesBuildPhase, f);
  }

  /** Sizes of target trees, used to show that a target never depends on itself. */
  function Height(t: PBXTarget): (h: nat)
    decreases t, 1
  {
    1 + MaxHeightFrom(t, 0)
  }

  /** The largest height among the dependency targets at positions `i..`. */
  function MaxHeightFrom(parent: PBXTarget, i: nat): nat
    requires i <= |parent.dependencies|
    decreases parent, 0, |parent.dependencies| - i
  {
    if i == |parent.dependencies| then 0
    else
      assert parent.dependencies[i] in parent.dependencies;
      var here := match parent.dependencies[i].target
        case None => 0
        case Some(d) => Height(d);
      var rest := MaxHeightFrom(parent, i + 1);
      if here < rest then rest else here
  }

  lemma {:induction false} DependencyWithinMax(parent: PBXTarget, i: nat, j: nat)
    requires i <= j < |parent.dependencies|
    requires parent.dependencies[j].target.Some?
    ensures Height(parent.dependencies[j].target.value) <= MaxHeightFrom(parent, i)
    decreases |parent.dependencies| - i
  {
    if i < j {
      DependencyWithinMax(parent, i + 1, j);
    }
  }

  /** Every dependency target is strictly lower than the target that declares it. */
  lemma DependencyIsLower(parent: PBXTarget, j: nat)
    requires j < |parent.dependencies|
    requires parent.dependencies[j].target.Some?
    ensures Height(parent.dependencies[j].target.value) < Height(parent)
  {
    DependencyWithinMax(parent, 0, j);
  }

  /** A target and every target it depends on, directly or transitively. */
  ghost function Reachable(t: PBXTarget): set<PBXTarget>
    decreases t, 1
  {
    {t} + ReachableFrom(t, 0)
  }

  /** The targets reachable from the dependencies at positions `i..`. */
  ghost function ReachableFrom(parent: PBXTarget, i: nat): set<PBXTarget>
    requires i <= |parent.dependencies|
    decreases parent, 0, |parent.dependencies| - i
  {
    if i == |parent.dependencies| then {}
    else
      assert parent.dependencies[i] in parent.dependencies;
      var here := match parent.dependencies[i].target
        case None => {}
        case Some(d) => Reachable(d);
      here + ReachableFrom(parent, i + 1)
  }

  /** Nothing a target reaches is higher than the target. */
  lemma {:induction false} ReachableIsLower(t: PBXTarget, x: PBXTarget)
    requires x in Reachable(t)
    ensures Height(x) <= Height(t)
    decreases t, 1
  {
    if x != t {
      ReachableFromIsLower(t, 0, x);
    }
  }

  /** What the dependencies of a target reach is strictly lower than the target. */
  lemma {:induction false} ReachableFromIsLower(parent: PBXTarget, i: nat, x: PBXTarget)
    requires i <= |parent.dependencies|
    requires x in ReachableFrom(parent, i)
    ensures Height(x) < Height(parent)
    decreases parent, 0, |parent.dependencies| - i
  {
    assert parent.dependencies[i] in parent.dependencies;
    match parent.dependencies[i].target
    case None =>
      ReachableFromIsLower(parent, i + 1, x);
    case Some(d) =>
      if x in Reachable(d) {
        ReachableIsLower(d, x);
        DependencyIsLower(parent, i);
      } else {
        ReachableFromIsLower(parent, i + 1, x);
      }
  }

  /** A target never reaches itself through its dependencies: the graph is acyclic. */
  lemma NotReachableFromDependencies(t: PBXTarget)
    ensures t !in ReachableFrom(t, 0)
  {
    if t in ReachableFrom(t, 0) {
      ReachableFromIsLower(t, 0, t);
    }
  }

  lemma {:induction false} DependencyReachableFrom(parent: PBXTarget, i: nat, j: nat)
    requires i <= j < |parent.dependencies|
    requires parent.dependencies[j].target.Some?
    ensures Reachable(parent.dependencies[j].target.value) <= ReachableFrom(parent, i)
    decreases |parent.dependencies| - i
  {
    if i < j {
      DependencyReachableFrom(parent, i + 1, j);
    }
  }

  /** What a dependency reaches, its parent reaches. */
  lemma DependencyReachable(parent: PBXTarget, j: nat)
    requires j < |parent.dependencies|
    requires parent.dependencies[j].target.Some?
    ensures Reachable(parent.dependencies[j].target.value) <= Reachable(parent)
  {
    DependencyReachableFrom(parent, 0, j);
  }
}
