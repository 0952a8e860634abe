/**
 * Checksum holders: the per-file and per-target results of a checksum run,
 * the project-level aggregates, and their projection into detached trees
 * that the diff tool compares.
 */
module ChecksumHolders {
  import opened ProductTypes

  /** The checksum of one file. */
  datatype FileChecksumHolder<C> = FileChecksumHolder(name: string, checksum: C)

  /**
   * The checksum of one target, with the holders of its files and of the
   * targets it depends on. The memberwise initialiser of the source is the
   * datatype constructor, which stores every field as given.
   */
  datatype TargetChecksumHolder<C> = TargetChecksumHolder(
    name: string,
    productName: string,
    productType: TargetProductType,
    checksum: C,
    files: seq<FileChecksumHolder<C>>,
    dependencies: seq<TargetChecksumHolder<C>>)

  /** The holders of the targets of one project file. */
  datatype ProjectChecksumHolder<C> = ProjectChecksumHolder(
    name: string,
    checksum: C,
    targets: seq<TargetChecksumHolder<C>>)

  /** The aggregate over all project files of a workspace. */
  datatype ProjChecksumHolder<C> = ProjChecksumHolder(
    projects: seq<ProjectChecksumHolder<C>>,
    checksum: C)

  /** The persisted root of one checksum run. */
  datatype XcodeProjChecksumHolder<C> = XcodeProjChecksumHolder(proj: ProjChecksumHolder<C>)

  /** The names of the direct dependencies, in order. */
  function DependencyNames<C>(h: TargetChecksumHolder<C>): (names: seq<string>)
    ensures |names| == |h.dependencies|
    ensures forall i :: 0 <= i < |h.dependencies| ==> names[i] == h.dependencies[i].name
  {
    seq(|h.dependencies|, i requires 0 <= i < |h.dependencies| => h.dependencies[i].name)
  }

  /** A detached name/value/children tree, the input of the diff tool. */
  datatype TreeNode<C> = TreeNode(name: string, value: C, children: seq<TreeNode<C>>)

  /** The tree of a file holder is a leaf. */
  function FileNode<C>(f: FileChecksumHolder<C>): TreeNode<C> {
    TreeNode(f.name, f.checksum, [])
  }

  /** `TargetChecksumHolder.node()`: the file nodes, then the dependency nodes, in order. */
  function TargetNode<C>(h: TargetChecksumHolder<C>): (n: TreeNode<C>)
    ensures n.name == h.name && n.value == h.checksum
    ensures |n.children| == |h.files| + |h.dependencies|
    decreases h
  {
    var fileNodes := seq(|h.files|, i requires 0 <= i < |h.files| => FileNode(h.files[i]));
    var dependencyNodes := seq(|h.dependencies|, j requires 0 <= j < |h.dependencies| =>
      TargetNode(h.dependencies[j]));
    TreeNode(h.name, h.checksum, fileNodes + dependencyNodes)
  }

  /** The children of a target's tree: its files' leaves, then its dependencies' trees, in declared order. */
  lemma TargetNodeChildren<C>(h: TargetChecksumHolder<C>)
    ensures forall i :: 0 <= i < |h.files| ==> TargetNode(h).children[i] == FileNode(h.files[i])
    ensures forall j :: 0 <= j < |h.dependencies| ==>
      TargetNode(h).children[|h.files| + j] == TargetNode(h.dependencies[j])
  {
  }

  /** A holder describes itself by its target name, the name of its tree node. */
  function Description<C>(h: TargetChecksumHolder<C>): (r: string)
    ensures r == TargetNode(h).name
  {
    h.name
  }

  /**
   * The tree of a project file. `ProjectChecksumHolder.node()` is not part of
   * this model; it is taken to follow the target holder's shape: the project's
   * name and checksum over its targets' trees.
   */
  function ProjectNode<C>(p: ProjectChecksumHolder<C>): TreeNode<C> {
    TreeNode(p.name, p.checksum,
      seq(|p.targets|, i requires 0 <= i < |p.targets| => TargetNode(p.targets[i])))
  }

  const ProjDescription := "PBXProj"

  /** `ProjChecksumHolder.node()`: a node named "PBXProj" over the projects' trees, in order. */
  function ProjNode<C>(x: ProjChecksumHolder<C>): (n: TreeNode<C>)
    ensures n.name == "PBXProj" && n.value == x.checksum
    ensures |n.children| == |x.projects|
    ensures forall i :: 0 <= i < |x.projects| ==> n.children[i] == ProjectNode(x.projects[i])
  {
    TreeNode(ProjDescription, x.checksum,
      seq(|x.projects|, i requires 0 <= i < |x.projects| => ProjectNode(x.projects[i])))
  }

  /** Some node of the tree `n` (itself included) carries `name` and `value`. */
  ghost predicate HasNode<C>(n: TreeNode<C>, name: string, value: C)
    decreases n
  {
    (n.name == name && n.value == value) ||
    exists k :: 0 <= k < |n.children| && HasNode(n.children[k], name, value)
  }

  /** Every holder reachable through dependencies, directly or transitively (the holder itself excluded). */
  ghost function Closure<C>(h: TargetChecksumHolder<C>): set<TargetChecksumHolder<C>>
    decreases h
  {
    set j, x | 0 <= j < |h.dependencies| && x in {h.dependencies[j]} + Closure(h.dependencies[j]) :: x
  }

  /** A holder reachable from `h` is one of its dependencies or reachable from one of them. */
  lemma ClosureMember<C>(h: TargetChecksumHolder<C>, x: TargetChecksumHolder<C>)
    requires x in Closure(h)
    ensures exists j :: (0 <= j < |h.dependencies| &&
      (x == h.dependencies[j] || x in Closure(h.dependencies[j])))
  {
  }

  /**
   * The tree of a holder is complete: every target reachable through its
   * dependencies shows up in it with its own name and checksum.
   */
  lemma {:induction false} TargetNodeCoversClosure<C>(h: TargetChecksumHolder<C>, x: TargetChecksumHolder<C>)
    requires x in Closure(h)
    ensures HasNode(TargetNode(h), x.name, x.checksum)
    decreases h
  {
    ClosureMember(h, x);
    var j :| 0 <= j < |h.dependencies| && (x == h.dependencies[j] || x in Closure(h.dependencies[j]));
    var d := h.dependencies[j];
    var n := TargetNode(h);
    TargetNodeChildren(h);
    assert n.children[|h.files| + j] == TargetNode(d);
    if x != d {
      TargetNodeCoversClosure(d, x);
    }
    assert HasNode(n.children[|h.files| + j], x.name, x.checksum);
  }

  /** Every target holder of every project shows up in the root tree with its name and checksum. */
  lemma ProjNodeCoversTargets<C>(x: ProjChecksumHolder<C>, i: nat, t: nat)
    requires i < |x.projects| && t < |x.projects[i].targets|
    ensures HasNode(ProjNode(x), x.projects[i].targets[t].name, x.projects[i].targets[t].checksum)
  {
    var target := x.projects[i].targets[t];
    var project := ProjNode(x).children[i];
    assert project.children[t] == TargetNode(target);
    assert HasNode(project.children[t], target.name, target.checksum);
    assert HasNode(project, target.name, target.checksum);
  }
}
