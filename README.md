# Calcifer checksum-and-cache core, modelled in Dafny

Calcifer is a remote build cache for Xcode projects. This project models the
core that decides what may be reused.

- **Target checksums.** A target's checksum folds the checksums of the
  targets it depends on and of its source (and, for bundles, resource)
  files. It is computed recursively and memoised in a dictionary shared by
  the builds of one run (`TargetChecksumBuilding`). The results are
  checksum holders (`ChecksumHolders`), written to and read from a keyed
  container (`HolderCoding`). They are projected into trees for the diff
  tool, and their transitive framework dependencies are collected
  (`FrameworkDependencies`).
- **Target records.** A run is turned into the records the remote cache
  works with. Each record's checksum is mixed with the build-parameters
  checksum (`TargetInfos`). Bundles are filtered out, and the
  `Pods-<target>-Calcifer` / `Pods-<target>` lookup is made
  (`TargetInfoFiltering`).
- **Cache keys and the local store.** A key is product name, product type
  and checksum (`BuildProductCacheKeys`). The local store lays entries out
  as `<cache>/<type>/<product>/<checksum>/<product><ext>`
  (`LocalCacheStorage`). It works over an abstract file system of
  directories and files (`FileSystems`).
- **Build artifacts.** The build directory of each record is checked for
  its product and debug symbols (`BuildArtifacts`).
- **Hit-rate metric paths.** The short and full metric paths of the
  hit-rate logger, and the order of its two sends (`StatisticLogging`).
- **Project patcher.** The listed targets are kept, the others removed, and
  an `Aggregate` target that depends on the kept ones is appended
  (`ProjectPatching`).

### The digest algebra is a parameter

The digest type is a type parameter `C`. Its operations are passed in as
an `Algebra<C>` record of functions: `aggregate` over a sequence, the
`+` that mixes in a second digest, and `stringValue`. Each of them may
fail with a `ChecksumError`. The model assumes that a list of holders'
`checksum()` is `aggregate` applied to their digests, in order. The file
checksum builder is also a parameter, of type `FileHolderBuilder<C>`.

### Modelling choices

- The target holder file declares `productType` as a `String`. The
  builder, the target-info provider and the filter all treat it as a
  `TargetProductType`. The model uses the enumeration throughout.
  `IsFramework` compares raw values, as the holder file does.
- Both errors of `valideArtifact` carry the target name in their
  `productName` field. The model keeps that.
- Targets are values that hold their dependency targets, so every target
  graph the model can express is acyclic.

## Model

| member | source | states |
|---|---|---|
| Checksums.Description | Sources/Checksum/Error/ChecksumError.swift:8-17 | every error's description contains its path |
| Checksums.DescriptionShape | Sources/Checksum/Error/ChecksumError.swift:10-15 | the fixed text of each case around the path |
| Checksums.DescriptionInjective | Sources/Checksum/Error/ChecksumError.swift:4-17 | different errors never have the same description |
| ProductTypes.FromRawValue | Sources/XcodeProjectChecksumCalculator/ChecksumBuilder/TargetChecksumHolderBuilder.swift:46-47 | `TargetProductType(rawValue:)` gives a case exactly when some case has that raw value, and that case |
| ProductTypes.RawValueRoundTrip | Sources/XcodeProjectChecksumCalculator/ChecksumBuilder/TargetChecksumHolderBuilder.swift:46-48 | reading a case's own raw value back gives the case |
| XcodeGraph.CompactFiles | Sources/XcodeProjectChecksumCalculator/ChecksumBuilder/TargetChecksumHolderBuilder.swift:115-118 | dropping build files without a file never lengthens the list |
| XcodeGraph.CompactFilesMembership | Sources/XcodeProjectChecksumCalculator/ChecksumBuilder/TargetChecksumHolderBuilder.swift:115-118 | a file is kept exactly when some build file of the phase references it |
| XcodeGraph.CompactFilesAppend | Sources/XcodeProjectChecksumCalculator/ChecksumBuilder/TargetChecksumHolderBuilder.swift:115-118 | the phase's file order is kept (the filter commutes with concatenation) |
| XcodeGraph.FileElements | Sources/XcodeProjectChecksumCalculator/ChecksumBuilder/TargetChecksumHolderBuilder.swift:97-111 | the sources come first, and a non-bundle target has only its sources; bundles are those `IsBundleTarget` accepts |
| XcodeGraph.FileElementsMembership | Sources/XcodeProjectChecksumCalculator/ChecksumBuilder/TargetChecksumHolderBuilder.swift:97-111 | a file is an element exactly when the sources phase references it, or the target is a bundle and the resources phase does (`IsBundleTarget` decides bundles) |
| XcodeGraph.DependencyIsLower | Sources/XcodeProjectChecksumCalculator/ChecksumBuilder/TargetChecksumHolderBuilder.swift:26-33 | in the value representation of targets, every dependency target is strictly lower than its parent; this, not the source, is what makes the model's recursion finite |
| XcodeGraph.NotReachableFromDependencies | Sources/XcodeProjectChecksumCalculator/ChecksumBuilder/TargetChecksumHolderBuilder.swift:26-33 | a target is never reached from its own dependencies (the dependency graph is acyclic) |
| XcodeGraph.DependencyReachable | Sources/XcodeProjectChecksumCalculator/ChecksumBuilder/TargetChecksumHolderBuilder.swift:26-33 | whatever a dependency reaches, its parent reaches |
| ChecksumHolders.DependencyNames | Sources/XcodeProjectChecksumCalculator/Models/XcodeProjChecksumHolders/TargetChecksumHolder.swift:62-63 | one name per direct dependency, in order |
| ChecksumHolders.TargetNode | Sources/XcodeProjectChecksumCalculator/Models/XcodeProjChecksumHolders/TargetChecksumHolder.swift:80-87 | a node with the holder's name and checksum and one child per file and per dependency |
| ChecksumHolders.TargetNodeChildren | Sources/XcodeProjectChecksumCalculator/Models/XcodeProjChecksumHolders/TargetChecksumHolder.swift:80-87 | the children are the file leaves, then the dependencies' trees, in declared order |
| ChecksumHolders.Description | Sources/XcodeProjectChecksumCalculator/Models/XcodeProjChecksumHolders/TargetChecksumHolder.swift:41-43 | a holder describes itself by the name of its tree node |
| ChecksumHolders.ProjNode | Sources/XcodeProjectChecksumCalculator/Models/XcodeProjChecksumHolders/ProjChecksumHolder.swift:12-18 | a node named "PBXProj" with the run's checksum over the projects' trees, in order |
| ChecksumHolders.TargetNodeCoversClosure | Sources/XcodeProjectChecksumCalculator/Models/XcodeProjChecksumHolders/TargetChecksumHolder.swift:80-87 | every holder reachable through dependencies appears in the tree with its own name and checksum |
| ChecksumHolders.ProjNodeCoversTargets | Sources/XcodeProjectChecksumCalculator/Models/XcodeProjChecksumHolders/ProjChecksumHolder.swift:12-18 | every target holder of every project appears in the root tree with its name and checksum |
| FrameworkDependencies.LastFrameworkByNameEntries | Sources/XcodeProjectChecksumCalculator/Models/XcodeProjChecksumHolders/TargetChecksumHolder.swift:30-35 | under each name the dictionary holds a framework holder of that name taken from the scanned list |
| FrameworkDependencies.LastFrameworkByNameIsLast | Sources/XcodeProjectChecksumCalculator/Models/XcodeProjChecksumHolders/TargetChecksumHolder.swift:30-35 | the holder kept under a name is the last framework holder of that name (later ones overwrite) |
| FrameworkDependencies.LastFrameworkByNameKeys | Sources/XcodeProjectChecksumCalculator/Models/XcodeProjChecksumHolders/TargetChecksumHolder.swift:30-35 | the dictionary's keys are exactly the framework names of the scanned list |
| FrameworkDependencies.IndexFrameworks | Sources/XcodeProjectChecksumCalculator/Models/XcodeProjChecksumHolders/TargetChecksumHolder.swift:30-35 | the loop builds exactly the last-wins dictionary |
| FrameworkDependencies.DictionaryValues | Sources/XcodeProjectChecksumCalculator/Models/XcodeProjChecksumHolders/TargetChecksumHolder.swift:37 | the dictionary's values: one per key, distinct names, covering every key |
| FrameworkDependencies.UniqueFrameworks | Sources/XcodeProjectChecksumCalculator/Models/XcodeProjChecksumHolders/TargetChecksumHolder.swift:30-37 | one framework holder of the list per framework name of the list, and for a repeated name the last holder of that name in the list |
| FrameworkDependencies.CollectDependencies | Sources/XcodeProjectChecksumCalculator/Models/XcodeProjChecksumHolders/TargetChecksumHolder.swift:29-35 | the direct dependencies plus each one's framework dependencies: the list starts with the direct dependencies, every holder is reachable, the framework names are exactly the reachable ones, and the last-wins dictionary of the list holds `Winner` under every name |
| FrameworkDependencies.AllFrameworkDependencies | Sources/XcodeProjectChecksumCalculator/Models/XcodeProjChecksumHolders/TargetChecksumHolder.swift:28-38 | every result is a framework holder reachable through dependencies; names are distinct; every reachable framework name is present; under each name the kept holder is `Winner`: the one kept by the last dependency whose own result has that name, or else the last framework holder of that name among the direct dependencies |
| FrameworkDependencies.LastFrameworkByNameAppend | Sources/XcodeProjectChecksumCalculator/Models/XcodeProjChecksumHolders/TargetChecksumHolder.swift:29-35 | appending framework holders with distinct names (one dependency's result) to the scanned list: a name they carry is then kept with their holder, every other name keeps its entry |
| FrameworkDependencies.WinnerStep | Sources/XcodeProjectChecksumCalculator/Models/XcodeProjChecksumHolders/TargetChecksumHolder.swift:29-35 | after appending the result of dependency `i`, the dictionary holds under every name exactly the winner over the direct dependencies and the results of the first `i + 1` dependencies |
| HolderCoding.KeyedEncodingContainer.Encode | Sources/XcodeProjectChecksumCalculator/Models/XcodeProjChecksumHolders/TargetChecksumHolder.swift:55-64 | writing a key replaces what was stored under it and nothing else |
| HolderCoding.EncodedFieldsAsWritten | Sources/XcodeProjectChecksumCalculator/Models/XcodeProjChecksumHolders/TargetChecksumHolder.swift:55-64 | the written keys are name, product name, checksum, files and dependencies, with the dependencies as their names |
| HolderCoding.EncodeAsWritten | Sources/XcodeProjectChecksumCalculator/Models/XcodeProjChecksumHolders/TargetChecksumHolder.swift:55-64 | the container afterwards holds exactly the fields written as the source writes them |
| HolderCoding.EncodedFields | Sources/XcodeProjectChecksumCalculator/Models/XcodeProjChecksumHolders/TargetChecksumHolder.swift:46-64 | the corrected encoding writes all six keys, the product type as its raw value |
| HolderCoding.Encode | Sources/XcodeProjectChecksumCalculator/Models/XcodeProjChecksumHolders/TargetChecksumHolder.swift:46-64 | the container afterwards holds exactly the corrected fields |
| HolderCoding.Decode | Sources/XcodeProjectChecksumCalculator/Models/XcodeProjChecksumHolders/TargetChecksumHolder.swift:66-75 | a decoded holder needs the five keys it reads and always has no dependencies |
| HolderCoding.DecodeOfWrittenEncodingFails | Sources/XcodeProjectChecksumCalculator/Models/XcodeProjChecksumHolders/TargetChecksumHolder.swift:55-75 | decoding what `encode(to:)` writes fails with the product-type key missing, for every holder |
| HolderCoding.EncodeDecodeRoundTrip | Sources/XcodeProjectChecksumCalculator/Models/XcodeProjChecksumHolders/TargetChecksumHolder.swift:55-75 | with the product type written, decoding gives back the holder with every field but its dependencies |
| TargetChecksumBuilding.ResolveProductType | Sources/XcodeProjectChecksumCalculator/ChecksumBuilder/TargetChecksumHolderBuilder.swift:45-51 | a known raw identifier gives its case; an unknown or absent one gives `.none` |
| TargetChecksumBuilding.ObtainProductNameFirstAcceptable | Sources/XcodeProjectChecksumCalculator/ChecksumBuilder/TargetChecksumHolderBuilder.swift:67-84 | the product name is the first present and valid candidate among product name, product path and name with extension; it fails with `emptyProductName(target)` exactly when none is; specifies `ObtainProductName` and `IsValidProductName` |
| TargetChecksumBuilding.FrameworkProductNameHasNoDash | Sources/XcodeProjectChecksumCalculator/ChecksumBuilder/TargetChecksumHolderBuilder.swift:86-93 | a framework's product name never contains a dash (about `ObtainProductName`) |
| TargetChecksumBuilding.NonFrameworkTakesFirstPresent | Sources/XcodeProjectChecksumCalculator/ChecksumBuilder/TargetChecksumHolderBuilder.swift:86-93 | for other types the first present candidate wins; the lookup fails only when all are absent (about `ObtainProductName`) |
| TargetChecksumBuilding.FileHolders | Sources/XcodeProjectChecksumCalculator/ChecksumBuilder/TargetChecksumHolderBuilder.swift:37-39 | one file holder per file element, in order; on failure, the error of the first failing file, all earlier ones having succeeded |
| TargetChecksumBuilding.DependencyTargets | Sources/XcodeProjectChecksumCalculator/ChecksumBuilder/TargetChecksumHolderBuilder.swift:26 | the non-absent dependency targets never outnumber the dependencies |
| TargetChecksumBuilding.CompactTargets | Sources/XcodeProjectChecksumCalculator/ChecksumBuilder/TargetChecksumHolderBuilder.swift:26 | `compactMap { $0.target }` never lengthens the list |
| TargetChecksumBuilding.CompactTargetsMembership | Sources/XcodeProjectChecksumCalculator/ChecksumBuilder/TargetChecksumHolderBuilder.swift:26 | a target is kept exactly when some dependency points to it |
| TargetChecksumBuilding.CompactTargetsAppend | Sources/XcodeProjectChecksumCalculator/ChecksumBuilder/TargetChecksumHolderBuilder.swift:26 | dropping absent targets commutes with concatenation, so the declared order is kept |
| TargetChecksumBuilding.DependencyTargetsCompact | Sources/XcodeProjectChecksumCalculator/ChecksumBuilder/TargetChecksumHolderBuilder.swift:26 | the targets built from position `i` on are those of `dependencies[i..]` with the absent ones dropped, in order |
| TargetChecksumBuilding.DependencyTargetsMembership | Sources/XcodeProjectChecksumCalculator/ChecksumBuilder/TargetChecksumHolderBuilder.swift:26 | a target is built as a dependency exactly when one of the parent's dependencies points to it |
| TargetChecksumBuilding.BuildDependenciesSuccess | Sources/XcodeProjectChecksumCalculator/ChecksumBuilder/TargetChecksumHolderBuilder.swift:26-33 | on success, one holder per non-absent dependency target, each built the same way, in order; specifies `BuildSpec` on the dependency list |
| TargetChecksumBuilding.BuildDependenciesFailure | Sources/XcodeProjectChecksumCalculator/ChecksumBuilder/TargetChecksumHolderBuilder.swift:26-33 | on failure, the error of the first failing dependency target, all earlier ones having succeeded |
| TargetChecksumBuilding.BuildComposition | Sources/XcodeProjectChecksumCalculator/ChecksumBuilder/TargetChecksumHolderBuilder.swift:25-62 | the holder has the target's name, its dependencies' and files' holders in order; its checksum is the aggregate of the dependencies' and files' aggregates; its product type and name are the resolved ones; specifies `BuildSpec` |
| TargetChecksumBuilding.DigestDependsOnlyOnParts | Sources/XcodeProjectChecksumCalculator/ChecksumBuilder/TargetChecksumHolderBuilder.swift:34-43 | two targets whose dependency and file checksums agree get the same checksum |
| TargetChecksumBuilding.ThreadSafeDictionary.Read | Sources/XcodeProjectChecksumCalculator/ChecksumBuilder/TargetChecksumHolderBuilder.swift:22 | a value is returned exactly when the key is stored, and it is the stored one |
| TargetChecksumBuilding.ThreadSafeDictionary.Write | Sources/XcodeProjectChecksumCalculator/ChecksumBuilder/TargetChecksumHolderBuilder.swift:63 | the key maps to the new value; every other entry is kept |
| TargetChecksumBuilding.TargetChecksumHolderBuilder.Build | Sources/XcodeProjectChecksumCalculator/ChecksumBuilder/TargetChecksumHolderBuilder.swift:16-65 | the result is the specified holder; a cached target is returned from the cache with nothing changed; on success the target is cached; old entries are kept; only reachable targets are added; each target is computed at most once |
| TargetChecksumBuilding.TargetChecksumHolderBuilder.BuildDependencyHolders | Sources/XcodeProjectChecksumCalculator/ChecksumBuilder/TargetChecksumHolderBuilder.swift:26-33 | the dependencies' holders as specified; old entries are kept; only targets reachable from the dependencies are added |
| TargetChecksumBuilding.EmptyCacheConsistent | Sources/XcodeProjectChecksumCalculator/ChecksumBuilder/TargetChecksumHolderBuilder.swift:16-22 | a fresh dictionary satisfies the cache invariant |
| TargetInfos.Flatten | Sources/XcodeProjectChecksumCalculator/TargetInfoProvider/TargetInfoProvider.swift:67-69 | every target holder of every project is present, and nothing else is |
| TargetInfos.FlattenAppend | Sources/XcodeProjectChecksumCalculator/TargetInfoProvider/TargetInfoProvider.swift:67-69 | projects contribute their targets project by project, in order |
| TargetInfos.FirstMatch | Sources/XcodeProjectChecksumCalculator/TargetInfoProvider/TargetInfoProvider.swift:58-65 | nothing is found exactly when no holder matches; otherwise the first match |
| TargetInfos.Info | Sources/XcodeProjectChecksumCalculator/TargetInfoProvider/TargetInfoProvider.swift:42-49 | a record exists exactly when `checksum + buildParametersChecksum` succeeds; otherwise the checksum error |
| TargetInfos.InfoDescribesHolder | Sources/XcodeProjectChecksumCalculator/TargetInfoProvider/TargetInfoProvider.swift:42-49 | the record carries the holder's names, type and dependency names, and the mixed checksum |
| TargetInfos.Infos | Sources/XcodeProjectChecksumCalculator/TargetInfoProvider/TargetInfoProvider.swift:19-28 | one record per holder, in order; the first failing `+` decides the error |
| TargetInfos.DependenciesNotFound | Sources/XcodeProjectChecksumCalculator/TargetInfoProvider/TargetInfoProvider.swift:12-30 | the lookup fails with `emptyTargetChecksum(target)` exactly when no holder has that name; specifies `Dependencies` |
| TargetInfos.DependenciesSuccess | Sources/XcodeProjectChecksumCalculator/TargetInfoProvider/TargetInfoProvider.swift:12-30 | on success, one record per flat dependency of the first holder with that name, each describing its holder; specifies `Dependencies` |
| TargetInfos.TargetInfoForNotFound | Sources/XcodeProjectChecksumCalculator/TargetInfoProvider/TargetInfoProvider.swift:32-50 | the lookup fails with `emptyProductChecksum(productName)` exactly when no holder has that product; specifies `TargetInfoFor` |
| TargetInfos.TargetInfoForSuccess | Sources/XcodeProjectChecksumCalculator/TargetInfoProvider/TargetInfoProvider.swift:32-50 | on success, the record of the first holder with that product; specifies `TargetInfoFor` |
| TargetInfoFiltering.FrameworkTargetInfos | Sources/RemoteCachePreparer/Helper/TargetInfoFilter.swift:26-36 | no bundle remains; every non-bundle record is kept; nothing new appears |
| TargetInfoFiltering.FrameworkTargetInfosIsSubsequence | Sources/RemoteCachePreparer/Helper/TargetInfoFilter.swift:26-36 | the kept records keep their order |
| TargetInfoFiltering.FrameworkTargetInfosIdempotent | Sources/RemoteCachePreparer/Helper/TargetInfoFilter.swift:26-36 | filtering twice is filtering once |
| TargetInfoFiltering.RequiredTargetsWithFallback | Sources/RemoteCachePreparer/RemoteCachePreparer/RemoteCachePreparer.swift:198-217 | a failing first lookup is the result; a non-empty one is the result; an empty one gives the `Pods-<target>` lookup; specifies `ObtainRequiredTargets` |
| TargetInfoFiltering.MissingCalciferTargetIsNotRetried | Sources/RemoteCachePreparer/RemoteCachePreparer/RemoteCachePreparer.swift:204-211 | with no `Pods-<target>-Calcifer` holder, the call fails for that name and never tries `Pods-<target>` (about `ObtainRequiredTargets`) |
| BuildProductCacheKeys.Description | Sources/BuildProductCacheStorage/Models/BuildProductCacheKey.swift:19-21 | the product name, a space, ..., the rendered checksum at the end |
| BuildProductCacheKeys.DescriptionIdentifiesKey | Sources/BuildProductCacheStorage/Models/BuildProductCacheKey.swift:19-21 | for product names without spaces, the description determines product name, type and rendered checksum |
| LocalCacheStorage.EntryPath | Sources/BuildProductCacheStorage/LocalStorage/LocalBuildProductCacheStorage.swift:46-54 | four components below the cache directory |
| LocalCacheStorage.EntryFolder | Sources/BuildProductCacheStorage/LocalStorage/LocalBuildProductCacheStorage.swift:27 | the entry's parent, three components below the cache directory |
| LocalCacheStorage.EntryPathIdentifiesKey | Sources/BuildProductCacheStorage/LocalStorage/LocalBuildProductCacheStorage.swift:46-54 | keys with the same entry path agree on type, product name and rendered checksum |
| LocalCacheStorage.LocalBuildProductCacheStorage.Cached | Sources/BuildProductCacheStorage/LocalStorage/LocalBuildProductCacheStorage.swift:15-21 | a value exactly when a directory exists at the entry path, naming the key and that path |
| LocalCacheStorage.LocalBuildProductCacheStorage.Add | Sources/BuildProductCacheStorage/LocalStorage/LocalBuildProductCacheStorage.swift:23-37 | the file system and outcome are those of remove-folder, create-folder, copy; the file system stays well formed; `AddSpec` is that composition |
| LocalCacheStorage.AddThenCached | Sources/BuildProductCacheStorage/LocalStorage/LocalBuildProductCacheStorage.swift:15-37 | after a successful add of a directory, the entry is found (about `AddSpec`) |
| LocalCacheStorage.AddLeavesOnlyTheEntry | Sources/BuildProductCacheStorage/LocalStorage/LocalBuildProductCacheStorage.swift:27-36 | after a successful add, the entry folder holds only the new entry |
| LocalCacheStorage.AddLastWriteWins | Sources/BuildProductCacheStorage/LocalStorage/LocalBuildProductCacheStorage.swift:23-37 | two successful adds under one key leave what the second alone leaves |
| LocalCacheStorage.AddFrame | Sources/BuildProductCacheStorage/LocalStorage/LocalBuildProductCacheStorage.swift:23-37 | nothing outside the entry folder and its ancestors changes |
| FileSystems.FileManager.RemoveItem | Sources/BuildProductCacheStorage/LocalStorage/LocalBuildProductCacheStorage.swift:29 | removes the item and everything below it; an absent item is an error and changes nothing |
| FileSystems.FileManager.CreateDirectory | Sources/BuildProductCacheStorage/LocalStorage/LocalBuildProductCacheStorage.swift:31-34 | creates the folder with its missing ancestors; a file in the way is an error and changes nothing |
| FileSystems.FileManager.CopyItem | Sources/BuildProductCacheStorage/LocalStorage/LocalBuildProductCacheStorage.swift:36 | duplicates the tree at the source at the new path; a missing source, an existing target or a missing parent is an error and changes nothing |
| FileSystems.CopiedWellFormed | Sources/BuildProductCacheStorage/LocalStorage/LocalBuildProductCacheStorage.swift:36 | copying keeps the file system well formed |
| BuildArtifacts.Artifact | Sources/BuildArtifacts/Provider/TargetBuildArtifactProvider.swift:14-30 | an artifact exactly when the target's directory, its product and its debug symbols all exist, at `<path>/<target>` |
| BuildArtifacts.ArtifactCheckOrder | Sources/BuildArtifacts/Provider/TargetBuildArtifactProvider.swift:32-52 | the first missing directory of directory, product, debug symbols decides the error |
| BuildArtifacts.Artifacts | Sources/BuildArtifacts/Provider/TargetBuildArtifactProvider.swift:14-30 | one artifact per record, in order; on failure, the error of the first incomplete record |
| BuildArtifacts.ArtifactsSucceedIff | Sources/BuildArtifacts/Provider/TargetBuildArtifactProvider.swift:14-30 | the call succeeds exactly when every record is complete |
| StatisticLogging.Split | Sources/StatisticLogger/GraphiteCacheHitStatisticLogger.swift:87 | the pieces are non-empty and free of the separator |
| StatisticLogging.SplitJoin | Sources/StatisticLogger/GraphiteCacheHitStatisticLogger.swift:87-92 | splitting undoes joining for such pieces |
| StatisticLogging.ShortMetricKey | Sources/StatisticLogger/GraphiteCacheHitStatisticLogger.swift:59-71 | the root key followed by eight components |
| StatisticLogging.ArchitecturesComponent | Sources/StatisticLogger/GraphiteCacheHitStatisticLogger.swift:92 | the architectures component contains no space |
| StatisticLogging.FullMetricKey | Sources/StatisticLogger/GraphiteCacheHitStatisticLogger.swift:73-94 | the root key followed by fifteen components plus the Swift version pieces |
| StatisticLogging.ShortAndFullKeys | Sources/StatisticLogger/GraphiteCacheHitStatisticLogger.swift:59-94 | the paths agree up to the metric type ("short"/"full"); the version pieces sit between "swiftVersion" and "configuration"; the last component is the space-free architectures |
| StatisticLogging.GraphiteClient.Send | Sources/StatisticLogger/GraphiteCacheHitStatisticLogger.swift:45-56 | an accepted send records the metric; a refused one records nothing and fails |
| StatisticLogging.LogStatisticCache | Sources/StatisticLogger/GraphiteCacheHitStatisticLogger.swift:36-57 | the call succeeds exactly when the client accepts both sends; on success the short, then the full metric were sent with one value and timestamp; a failed short send stops the call, so one outcome is used, otherwise two |
| ProjectPatching.Listed | Sources/ProjectPatcher/ProjectPatcher.swift:17-29 | only listed targets, every listed target, nothing new |
| ProjectPatching.AggregateDependencies | Sources/ProjectPatcher/ProjectPatcher.swift:17-24 | one dependency per listed target, in order, naming it |
| ProjectPatching.AggregateCoversListed | Sources/ProjectPatcher/ProjectPatcher.swift:17-24 | a target is a dependency of the aggregate exactly when it is listed |
| ProjectPatching.RemoveAtFirstIndex | Sources/ProjectPatcher/ProjectPatcher.swift:30-40 | removing at `firstIndex` removes the first target so named; no match removes nothing |
| ProjectPatching.DropNextUnlisted | Sources/ProjectPatcher/ProjectPatcher.swift:30-40 | each removal takes out exactly the next unlisted target |
| ProjectPatching.DropAllUnlisted | Sources/ProjectPatcher/ProjectPatcher.swift:30-40 | after all removals the listed targets remain, in order |
| ProjectPatching.UnlistedNames | Sources/ProjectPatcher/ProjectPatcher.swift:17-29 | no name it collects is among the listed targets |
| ProjectPatching.FirstIndexNamed | Sources/ProjectPatcher/ProjectPatcher.swift:31 | it is absent exactly when no target has the name; otherwise it points at a target with that name and no earlier target has it |
| ProjectPatching.ScanTargets | Sources/ProjectPatcher/ProjectPatcher.swift:17-29 | the collected dependencies are one per listed target in order, and the names to remove are those of the other targets in order |
| ProjectPatching.RemoveTargets | Sources/ProjectPatcher/ProjectPatcher.swift:30-40 | removing each collected name at its first index leaves exactly the listed targets, in order |
| ProjectPatching.Patch | Sources/ProjectPatcher/ProjectPatcher.swift:9-44 | no root project: nothing written; otherwise the targets become the listed ones followed by an aggregate over them, and the project is written once |

## Left out

- Reading and writing files, the XcodeProj library calls that edit the
  project file (deleting build files and groups, `removeGroup`), and the
  diff command are not part of this model. `Patch` records the output
  path instead of writing.
- `saveChecksum(to:)` is serialisation to disk and is left out. The
  container model in `HolderCoding` stands for it.
- Thread safety: the dictionary is modelled single-threaded. The locking
  of `ThreadSafeDictionary` is not captured.
- Checksum internals are not modelled: `aggregate`, `+`, `stringValue`
  and the file checksum builder are parameters.
- `allFlatDependencies` is not part of this model. It is the parameter
  `flat` of `TargetInfos.Dependencies`.
- FrameworkDependencies.AllFrameworkDependencies: the order of the result
  is not stated, since Swift dictionary values have no specified order.
  Which holder is kept under each name is stated, as `Winner`.
- `ProjectChecksumHolder.node()` is not part of this model. It is taken
  to have the target holder's shape, a node over its targets' trees.
- `FileChecksumHolder.node()` is not part of this model. A file holder's
  node is taken to be a leaf carrying the file's name and checksum, with
  no children (`ChecksumHolders.FileNode`).
- The `TargetProductType` declaration is not part of this model. Its raw
  values, case names and file extensions are the ones given in
  `ProductTypes`.
- StatisticLogging.LogStatisticCache: the hit rate is a parameter, because
  it is floating-point arithmetic on counts. The clock reading is a
  parameter. The network is a queue of accept/refuse outcomes.
- The file system is abstract: no permissions, no symbolic links, no
  atomicity, no path normalisation. A path is a sequence of components,
  and a "/" inside a component is not split.
- TargetInfoFiltering.RequiredTargetsWithFallback: the build-parameters
  checksum is given, not computed from the environment.
- `LocalBuildProductCacheStorage.Add` removes the entry folder, recreates
  it and copies the artifact in, as LocalBuildProductCacheStorage.swift
  lines 23-37 do. Atomicity under concurrent stores is not modelled.
- TargetChecksumBuilding.TargetChecksumHolderBuilder.Build: the shared
  dictionary is required to hold only holders built against the current
  source root. Swift keys it by target alone
  (TargetChecksumHolderBuilder.swift lines 22 and 63), so one builder
  reused for a second source root would return the first root's holder.
  The model does not capture that reuse.
- HolderCoding.Decode: the product type is decoded into the enumeration,
  so an unknown raw value fails with `DataCorrupted`, as Swift's decoding
  of a raw-value enumeration does. The holder file declares the field as
  a `String`, which would accept any value.
- Cyclic target graphs are excluded by the representation: a target holds
  its dependency targets as values. On a cyclic graph the source's
  `build` would recurse without end, since it writes the cache only after
  the dependencies are built (TargetChecksumHolderBuilder.swift lines
  16-33 and 63). The model does not capture that case.
- Strings are modelled as sequences of Unicode scalars. Swift's `String`
  operations (`split(separator:)`, `contains`) work on grapheme clusters,
  so a separator or dash followed by a combining mark differs between the
  two. This affects `StatisticLogging.Split`, the dash check behind
  `TargetChecksumBuilding.FrameworkProductNameHasNoDash`, and the space
  split behind `BuildProductCacheKeys.DescriptionIdentifiesKey`.

## Findings

| source | as written | input that shows it | evidently intended | confidence | as-written member | corrected member |
|---|---|---|---|---|---|---|
| Sources/XcodeProjectChecksumCalculator/Models/XcodeProjChecksumHolders/TargetChecksumHolder.swift:55-75 | `encode(to:)` writes name, product name, checksum, files and dependencies, but not `productType`, which `init(from:)` requires | any holder: its encoding lacks the product-type key, so decoding it fails with key not found | `productType` is written too, so that what is saved can be read back | not executed | HolderCoding.DecodeOfWrittenEncodingFails | HolderCoding.EncodeDecodeRoundTrip |
