/**
 * The project patcher: keeps the listed targets of a project, removes the
 * others, and appends an aggregate target that depends on every kept one.
 */
module ProjectPatching {
  import opened Wrappers
  import opened XcodeGraph

  const AggregateName: string := "Aggregate"

  /** The aggregate target: a name and dependencies, nothing to build itself. */
  function AggregateTarget(dependencies: seq<PBXTargetDependency>): PBXTarget {
    PBXTarget(AggregateName, dependencies, None, None, None, None, None)
  }

  /** The targets whose name is listed, in order. */
  function Listed(ts: seq<PBXTarget>, names: seq<string>): (r: seq<PBXTarget>)
    ensures forall i :: 0 <= i < |r| ==> r[i].name in names
    ensures forall t :: t in ts && t.name in names ==> t in r
    ensures forall t :: t in r ==> t in ts
  {
    if |ts| == 0 then []
    else if ts[0].name in names then [ts[0]] + Listed(ts[1..], names)
    else Listed(ts[1..], names)
  }

  /** The aggregate's dependencies: one per listed target, in order, naming it. */
  function AggregateDependencies(ts: seq<PBXTarget>, names: seq<string>): (r: seq<PBXTargetDependency>)
    ensures |r| == |Listed(ts, names)|
    ensures forall i :: 0 <= i < |r| ==> r[i] == PBXTargetDependency(Some(Listed(ts, names)[i].name), Some(Listed(ts, names)[i]))
  {
    if |ts| == 0 then []
    else if ts[0].name in names then [PBXTargetDependency(Some(ts[0].name), Some(ts[0]))] + AggregateDependencies(ts[1..], names)
    else AggregateDependencies(ts[1..], names)
  }

  /** The names of the targets that are not listed, in order (with repeats). */
  function UnlistedNames(ts: seq<PBXTarget>, names: seq<string>): (r: seq<string>)
    ensures forall i :: 0 <= i < |r| ==> r[i] !in names
  {
    if |ts| == 0 then []
    else if ts[0].name in names then UnlistedNames(ts[1..], names)
    else [ts[0].name] + UnlistedNames(ts[1..], names)
  }

  /** `firstIndex(where: { $0.name == name })`. */
  function FirstIndexNamed(ts: seq<PBXTarget>, name: string): (r: Option<nat>)
    ensures r.None? <==> forall i :: 0 <= i < |ts| ==> ts[i].name != name
    ensures r.Some? ==> r.value < |ts| && ts[r.value].name == name && forall j :: 0 <= j < r.value ==> ts[j].name != name
  {
    if |ts| == 0 then None
    else if ts[0].name == name then Some(0)
    else match FirstIndexNamed(ts[1..], name)
      case None => None
      case Some(i) => Some(i + 1)
  }

  /** `ts` without the first target named `name`. */
  function RemoveFirstNamed(ts: seq<PBXTarget>, name: string): seq<PBXTarget> {
    if |ts| == 0 then []
    else if ts[0].name == name then ts[1..]
    else [ts[0]] + RemoveFirstNamed(ts[1..], name)
  }

  /** Removing at the first matching index is removing the first target so named. */
  lemma {:induction false} RemoveAtFirstIndex(ts: seq<PBXTarget>, name: string)
    ensures FirstIndexNamed(ts, name).None? ==> RemoveFirstNamed(ts, name) == ts
    ensures FirstIndexNamed(ts, name).Some? ==>
      var i := FirstIndexNamed(ts, name).value;
      ts[..i] + ts[i + 1..] == RemoveFirstNamed(ts, name)
  {
    if |ts| > 0 && ts[0].name != name {
      var tail := ts[1..];
      RemoveAtFirstIndex(tail, name);
      var rest := RemoveFirstNamed(tail, name);
      assert RemoveFirstNamed(ts, name) == [ts[0]] + rest;
      match FirstIndexNamed(tail, name)
      case Some(i) =>
        assert FirstIndexNamed(ts, name) == Some(i + 1);
        RemoveAtShift(ts, i);
      case None =>
        assert FirstIndexNamed(ts, name).None?;
        assert [ts[0]] + tail == ts;
    }
  }

  /** Removing position `i + 1` of `ts` keeps the head and removes position `i` of the tail. */
  lemma RemoveAtShift(ts: seq<PBXTarget>, i: nat)
    requires i + 1 < |ts|
    ensures ts[..i + 1] + ts[i + 2..] == [ts[0]] + (ts[1..][..i] + ts[1..][i + 1..])
  {
    assert ts[..i + 1] == [ts[0]] + ts[1..][..i];
    assert ts[i + 2..] == ts[1..][i + 1..];
  }

  /** `ts` without its first `k` unlisted targets. */
  function DropUnlisted(ts: seq<PBXTarget>, names: seq<string>, k: nat): seq<PBXTarget> {
    if k == 0 || |ts| == 0 then ts
    else if ts[0].name !in names then DropUnlisted(ts[1..], names, k - 1)
    else [ts[0]] + DropUnlisted(ts[1..], names, k)
  }

  /**
   * Removing the first target named after the `k`-th unlisted target, once
   * the first `k` unlisted targets are gone, removes exactly that target:
   * every earlier target of that name is unlisted too, so already removed.
   */
  lemma {:induction false} DropNextUnlisted(ts: seq<PBXTarget>, names: seq<string>, k: nat)
    requires k < |UnlistedNames(ts, names)|
    ensures RemoveFirstNamed(DropUnlisted(ts, names, k), UnlistedNames(ts, names)[k]) == DropUnlisted(ts, names, k + 1)
  {
    var n := UnlistedNames(ts, names)[k];
    if ts[0].name in names {
      assert UnlistedNames(ts, names) == UnlistedNames(ts[1..], names);
      DropNextUnlisted(ts[1..], names, k);
      assert ts[0].name != n;
    } else if k > 0 {
      assert UnlistedNames(ts, names)[k] == UnlistedNames(ts[1..], names)[k - 1];
      DropNextUnlisted(ts[1..], names, k - 1);
    }
  }

  /** Once every unlisted target is dropped, the listed ones remain. */
  lemma {:induction false} DropAllUnlisted(ts: seq<PBXTarget>, names: seq<string>)
    ensures DropUnlisted(ts, names, |UnlistedNames(ts, names)|) == Listed(ts, names)
  {
    if |ts| > 0 {
      DropAllUnlisted(ts[1..], names);
    }
  }

  class PBXProject {
    var targets: seq<PBXTarget>

    constructor(targets: seq<PBXTarget>)
      ensures this.targets == targets
    {
      this.targets := targets;
    }
  }

  /** An opened project file: its root project, if any, and the paths it was written to. */
  class XcodeProj {
    const rootProject: PBXProject?
    var writtenTo: seq<string>

    constructor(rootProject: PBXProject?)
      ensures this.rootProject == rootProject && writtenTo == []
    {
      this.rootProject := rootProject;
      writtenTo := [];
    }
  }

  /**
   * `patch(projectPath:outputPath:targets:)`: with no root project nothing
   * happens; otherwise the root project keeps its listed targets in order,
   * followed by an aggregate that depends on each of them, and the project
   * is written to `outputPath`.
   */
  method Patch(xcodeproj: XcodeProj, outputPath: string, names: seq<string>)
    modifies xcodeproj, xcodeproj.rootProject
    ensures xcodeproj.rootProject == null ==> xcodeproj.writtenTo == old(xcodeproj.writtenTo)
    ensures xcodeproj.rootProject != null ==>
      var old_ := old(xcodeproj.rootProject.targets);
      && xcodeproj.rootProject.targets == Listed(old_, names) + [AggregateTarget(AggregateDependencies(old_, names))]
      && xcodeproj.writtenTo == old(xcodeproj.writtenTo) + [outputPath]
  {
    var project := xcodeproj.rootProject;
    if project == null {
      return;
    }
    var dependencies, targetsForRemoving := ScanTargets(project.targets, names);
    RemoveTargets(project, names, targetsForRemoving);
    project.targets := project.targets + [AggregateTarget(dependencies)];
    xcodeproj.writtenTo := xcodeproj.writtenTo + [outputPath];
  }

  /**
   * The loop of lines 17-29: the aggregate's dependencies, one per listed
   * target, and the names of the other targets, both in order.
   */
  method ScanTargets(targets: seq<PBXTarget>, names: seq<string>)
    returns (dependencies: seq<PBXTargetDependency>, targetsForRemoving: seq<string>)
    ensures dependencies == AggregateDependencies(targets, names)
    ensures targetsForRemoving == UnlistedNames(targets, names)
  {
    dependencies := [];
    targetsForRemoving := [];
    var i := 0;
    while i < |targets|
      invariant 0 <= i <= |targets|
      invariant dependencies == AggregateDependencies(targets[..i], names)
      invariant targetsForRemoving == UnlistedNames(targets[..i], names)
    {
      var target := targets[i];
      ExtendPrefix(targets, names, i);
      if target.name in names {
        dependencies := dependencies + [PBXTargetDependency(Some(target.name), Some(target))];
      } else {
        targetsForRemoving := targetsForRemoving + [target.name];
      }
      i := i + 1;
    }
    assert targets[..i] == targets;
  }

  /** The loop of lines 30-40: each named target is removed at its first index; the listed ones remain. */
  method RemoveTargets(project: PBXProject, names: seq<string>, targetsForRemoving: seq<string>)
    requires targetsForRemoving == UnlistedNames(project.targets, names)
    modifies project
    ensures project.targets == Listed(old(project.targets), names)
  {
    ghost var original := project.targets;
    var j := 0;
    while j < |targetsForRemoving|
      invariant 0 <= j <= |targetsForRemoving|
      invariant project.targets == DropUnlisted(original, names, j)
    {
      var index := FirstIndexNamed(project.targets, targetsForRemoving[j]);
      RemoveAtFirstIndex(project.targets, targetsForRemoving[j]);
      DropNextUnlisted(original, names, j);
      if index.Some? {
        project.targets := project.targets[..index.value] + project.targets[index.value + 1..];
      }
      j := j + 1;
    }
    DropAllUnlisted(original, names);
  }

  /** Extending the scanned prefix by one target extends the dependency and removal lists accordingly. */
  lemma ExtendPrefix(ts: seq<PBXTarget>, names: seq<string>, i: nat)
    requires i < |ts|
    ensures AggregateDependencies(ts[..i + 1], names) == AggregateDependencies(ts[..i], names)
      + (if ts[i].name in names then [PBXTargetDependency(Some(ts[i].name), Some(ts[i]))] else [])
    ensures UnlistedNames(ts[..i + 1], names) == UnlistedNames(ts[..i], names)
      + (if ts[i].name in names then [] else [ts[i].name])
  {
    assert ts[..i + 1] == ts[..i] + [ts[i]];
    DependenciesAppend(ts[..i], ts[i], names);
    UnlistedAppend(ts[..i], ts[i], names);
  }

  lemma {:induction false} DependenciesAppend(ts: seq<PBXTarget>, t: PBXTarget, names: seq<string>)
    ensures AggregateDependencies(ts + [t], names) == AggregateDependencies(ts, names)
      + (if t.name in names then [PBXTargetDependency(Some(t.name), Some(t))] else [])
  {
    if |ts| == 0 {
      assert ts + [t] == [t];
      assert [t][1..] == [];
    } else {
      assert (ts + [t])[1..] == ts[1..] + [t];
      DependenciesAppend(ts[1..], t, names);
    }
  }

  lemma {:induction false} UnlistedAppend(ts: seq<PBXTarget>, t: PBXTarget, names: seq<string>)
    ensures UnlistedNames(ts + [t], names) == UnlistedNames(ts, names) + (if t.name in names then [] else [t.name])
  {
    if |ts| == 0 {
      assert ts + [t] == [t];
      assert [t][1..] == [];
    } else {
      assert (ts + [t])[1..] == ts[1..] + [t];
      UnlistedAppend(ts[1..], t, names);
    }
  }

  /** Every listed target is a dependency of the aggregate, and nothing else is. */
  lemma AggregateCoversListed(ts: seq<PBXTarget>, names: seq<string>, t: PBXTarget)
    ensures (t in ts && t.name in names) <==>
      PBXTargetDependency(Some(t.name), Some(t)) in AggregateDependencies(ts, names)
  {
    var deps := AggregateDependencies(ts, names);
    var kept := Listed(ts, names);
    if t in ts && t.name in names {
      var i :| 0 <= i < |kept| && kept[i] == t;
      assert deps[i] == PBXTargetDependency(Some(t.name), Some(t));
    }
    if PBXTargetDependency(Some(t.name), Some(t)) in deps {
      var i :| 0 <= i < |deps| && deps[i] == PBXTargetDependency(Some(t.name), Some(t));
      assert kept[i] == t;
    }
  }
}
