/** The data the store works on: the application as its two queries fetch it
    (the snapshot), and the draft the user edits. */
module Configuration {
  import opened JsValues
  import opened KeyedCollections

  datatype Option<+T> = None | Some(value: T)

  // The snapshot. One type serves both queries: the population query reads
  // `persistentVolumeID` and `repositoryName`/`repositoryOwner`, the baseline
  // query reads `id`, `name` and `group`; each reader below only looks at the
  // fields its query fetched.

  datatype EnvironmentVariable = EnvironmentVariable(key: string, value: string)

  // `id` is fetched but read nowhere in the store; it is kept to mirror the query.
  datatype PersistentVolumeBinding = PersistentVolumeBinding(id: int, persistentVolumeID: int, mountingPath: string)

  datatype BuildArg = BuildArg(key: string, value: string)

  datatype LatestDeployment = LatestDeployment(
    upstreamType: string,
    dockerfile: string,
    buildArgs: seq<BuildArg>,
    gitProvider: string,
    gitEndpoint: string,
    gitCredentialID: Option<int>,
    repositoryUrl: string,
    repositoryName: string,
    repositoryOwner: string,
    repositoryBranch: string,
    codePath: string,
    imageRegistryCredentialID: Option<int>,
    dockerImage: string,
    sourceCodeCompressedFileName: string)

  datatype Application = Application(
    name: string,
    deploymentMode: string,
    replicas: int,
    command: string,
    resourceLimitMemoryMb: int,
    reservedResourceMemoryMb: int,
    environmentVariables: seq<EnvironmentVariable>,
    persistentVolumeBindings: seq<PersistentVolumeBinding>,
    latestDeployment: LatestDeployment,
    capabilities: seq<string>,
    sysctls: seq<string>,
    group: string)

  /** A nullable integer field of the snapshot as the JavaScript value it arrives as. */
  function NullableInt(v: Option<int>): JsValue
  {
    if v.Some? then Num(v.value) else Null
  }

  // The draft. Its scalar fields are written by form controls and keep
  // whatever JavaScript value they are given, so they are `JsValue`s.

  datatype EnvironmentVariableDraft = EnvironmentVariableDraft(name: string, value: string)

  datatype VolumeBindingDraft = VolumeBindingDraft(persistentVolumeID: JsValue, mountingPath: string)

  datatype DeploymentConfiguration = DeploymentConfiguration(
    deploymentMode: JsValue,
    replicas: JsValue,
    resourceLimitMemoryMb: JsValue,
    reservedResourceMemoryMb: JsValue)

  datatype SourceConfiguration = SourceConfiguration(
    command: JsValue,
    gitCredentialID: JsValue,
    gitProvider: JsValue,
    gitEndpoint: JsValue,
    repositoryUrl: JsValue,
    repositoryName: JsValue,
    repositoryOwner: JsValue,
    repositoryBranch: JsValue,
    codePath: JsValue,
    imageRegistryCredentialID: JsValue,
    dockerImage: JsValue,
    sourceCodeCompressedFileName: JsValue,
    dockerfile: JsValue,
    buildArgs: map<string, string>)

  /** The argument of `updateApplicationSource`, as the source editor builds it. */
  datatype ApplicationSource = ApplicationSource(
    command: JsValue,
    gitCredentialID: JsValue,
    gitRepoUrl: JsValue,
    gitBranch: JsValue,
    codePath: JsValue,
    imageRegistryCredentialID: JsValue,
    dockerImage: JsValue,
    sourceCodeCompressedFileName: JsValue,
    dockerFile: JsValue,
    buildArgs: map<string, string>)

  /** `deploymentConfigurationDetails` as the store creates it. */
  const InitialDeployment := DeploymentConfiguration(Str(""), Num(0), Num(0), Num(0))

  /** `sourceConfigurationRef` as the store creates it; `repositoryName` and
      `repositoryOwner` are not among its initial properties. */
  const InitialSource := SourceConfiguration(
    Str(""), Num(0), Str(""), Str(""), Str(""), Undefined, Undefined,
    Str(""), Str(""), Num(0), Str(""), Str(""), Str(""), map[])

  /** The record `addEnvironmentVariable` appends. */
  const NewEnvironmentVariable := EnvironmentVariableDraft("", "")

  /** The record `addPersistentVolumeBinding` appends. */
  const NewVolumeBinding := VolumeBindingDraft(Num(-1), "")

  /** Everything the change check and the submission read from the store, as
      one value. */
  datatype Draft = Draft(
    envKeys: seq<Key>,
    envRecords: map<Key, EnvironmentVariableDraft>,
    volumeKeys: seq<Key>,
    volumeRecords: map<Key, VolumeBindingDraft>,
    deployment: DeploymentConfiguration,
    source: SourceConfiguration)
  {
    /** Both keyed collections keep their invariant. */
    ghost predicate Valid()
    {
      Consistent(envKeys, envRecords) && Consistent(volumeKeys, volumeRecords)
    }
  }
}
