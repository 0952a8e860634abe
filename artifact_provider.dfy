/**
 * The build-artifact provider: for each target record, the directory the
 * build left for it, checked to hold the product and its debug symbols.
 */
module BuildArtifacts {
  import opened Wrappers
  import opened FileSystems
  import opened TargetInfos

  datatype BuildArtifactsError =
    | ProductDirectoryDoesntExist(targetName: string, path: Path)
    | FrameworkDoesntExist(productName: string, path: Path)
    | DsymDoesntExist(productName: string, path: Path)

  datatype TargetBuildArtifact<C> = TargetBuildArtifact(targetInfo: TargetInfo<C>, path: Path)

  /** The artifact directory of a record: the build directory plus the target name. */
  function ArtifactPath<C>(path: Path, info: TargetInfo<C>): Path {
    path + [info.targetName]
  }

  function DsymName(productName: string): string {
    productName + ".dSYM"
  }

  /**
   * `valideArtifact`: the product, then its debug symbols, must be
   * directories inside the artifact directory. Both errors carry the
   * record's target name in their `productName` field.
   */
  function ValidateArtifact<C>(items: Items, artifactPath: Path, info: TargetInfo<C>): Option<BuildArtifactsError> {
    if !DirectoryExists(items, artifactPath + [info.productName]) then
      Some(FrameworkDoesntExist(info.targetName, artifactPath))
    else if !DirectoryExists(items, artifactPath + [DsymName(info.productName)]) then
      Some(DsymDoesntExist(info.targetName, artifactPath))
    else
      None
  }

  /** All three directories a record needs. */
  predicate ArtifactComplete<C>(items: Items, path: Path, info: TargetInfo<C>) {
    && DirectoryExists(items, ArtifactPath(path, info))
    && DirectoryExists(items, ArtifactPath(path, info) + [info.productName])
    && DirectoryExists(items, ArtifactPath(path, info) + [DsymName(info.productName)])
  }

  /** The artifact of one record. */
  function Artifact<C>(items: Items, path: Path, info: TargetInfo<C>): (r: Result<TargetBuildArtifact<C>, BuildArtifactsError>)
    ensures r.Success? <==> ArtifactComplete(items, path, info)
    ensures r.Success? ==> r.value == TargetBuildArtifact(info, path + [info.targetName])
  {
    var artifactPath := ArtifactPath(path, info);
    if !DirectoryExists(items, artifactPath) then
      Failure(ProductDirectoryDoesntExist(info.targetName, path))
    else match ValidateArtifact(items, artifactPath, info)
      case Some(e) => Failure(e)
      case None => Success(TargetBuildArtifact(info, artifactPath))
  }

  /**
   * The checks run in the order product directory, product, debug
   * symbols; the first missing directory decides the error.
   */
  lemma ArtifactCheckOrder<C>(items: Items, path: Path, info: TargetInfo<C>)
    ensures var ap := ArtifactPath(path, info);
      && (!DirectoryExists(items, ap) ==>
            Artifact(items, path, info) == Failure(ProductDirectoryDoesntExist(info.targetName, path)))
      && (DirectoryExists(items, ap) && !DirectoryExists(items, ap + [info.productName]) ==>
            Artifact(items, path, info) == Failure(FrameworkDoesntExist(info.targetName, ap)))
      && (DirectoryExists(items, ap) && DirectoryExists(items, ap + [info.productName])
          && !DirectoryExists(items, ap + [DsymName(info.productName)]) ==>
            Artifact(items, path, info) == Failure(DsymDoesntExist(info.targetName, ap)))
  {
  }

  /** `artifacts(for:at:)`: one artifact per record, in order; the first failing record aborts. */
  function Artifacts<C>(items: Items, infos: seq<TargetInfo<C>>, path: Path)
    : (r: Result<seq<TargetBuildArtifact<C>>, BuildArtifactsError>)
    ensures r.Success? ==> |r.value| == |infos|
    ensures r.Success? ==> forall i :: 0 <= i < |infos| ==>
      r.value[i] == TargetBuildArtifact(infos[i], path + [infos[i].targetName]) && ArtifactComplete(items, path, infos[i])
    ensures r.Failure? ==> exists k :: FirstIncomplete(items, path, infos, k) && Artifact(items, path, infos[k]) == Failure(r.error)
  {
    if |infos| == 0 then Success([])
    else
      var first :- Artifact(items, path, infos[0]);
      var rest := Artifacts(items, infos[1..], path);
      if rest.Failure? then
        ShiftIncomplete(items, path, infos, rest.error);
        Failure(rest.error)
      else
        Success([first] + rest.value)
  }

  /** `infos[k]` is the first record whose artifact is incomplete. */
  ghost predicate FirstIncomplete<C>(items: Items, path: Path, infos: seq<TargetInfo<C>>, k: int) {
    0 <= k < |infos| && !ArtifactComplete(items, path, infos[k])
    && forall j :: 0 <= j < k ==> ArtifactComplete(items, path, infos[j])
  }

  lemma ShiftIncomplete<C>(items: Items, path: Path, infos: seq<TargetInfo<C>>, e: BuildArtifactsError)
    requires |infos| > 0 && ArtifactComplete(items, path, infos[0])
    requires exists k :: FirstIncomplete(items, path, infos[1..], k) && Artifact(items, path, infos[1..][k]) == Failure(e)
    ensures exists k :: FirstIncomplete(items, path, infos, k) && Artifact(items, path, infos[k]) == Failure(e)
  {
    var k :| FirstIncomplete(items, path, infos[1..], k) && Artifact(items, path, infos[1..][k]) == Failure(e);
    forall j | 0 <= j < k + 1 ensures ArtifactComplete(items, path, infos[j]) {
      if j > 0 {
        assert infos[j] == infos[1..][j - 1];
      }
    }
    assert FirstIncomplete(items, path, infos, k + 1);
  }

  /** The call succeeds exactly when every record's artifact is complete. */
  lemma {:induction false} ArtifactsSucceedIff<C>(items: Items, infos: seq<TargetInfo<C>>, path: Path)
    ensures Artifacts(items, infos, path).Success? <==> forall i :: 0 <= i < |infos| ==> ArtifactComplete(items, path, infos[i])
  {
    if Artifacts(items, infos, path).Failure? {
      var k :| FirstIncomplete(items, path, infos, k) && Artifact(items, path, infos[k]) == Failure(Artifacts(items, infos, path).error);
    }
  }
}
