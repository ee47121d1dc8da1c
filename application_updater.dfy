/** The draft-configuration store of one application: two keyed collections,
    the deployment and source records, the dirty flag, and the results of the
    two application queries. Every handler changes the draft in place and
    then recomputes the dirty flag; reset rebuilds the draft from the
    population snapshot. */
module ApplicationUpdater {
  import opened JsValues
  import opened KeyedCollections
  import opened Configuration
  import opened ChangeDetection
  import opened Submission

  /** The records the reset loop creates from the snapshot's environment variables. */
  function EnvironmentVariableDrafts(vars: seq<EnvironmentVariable>): seq<EnvironmentVariableDraft>
  {
    seq(|vars|, i requires 0 <= i < |vars| => EnvironmentVariableDraft(vars[i].key, vars[i].value))
  }

  /** The records the reset loop creates from the snapshot's volume bindings. */
  function VolumeBindingDrafts(bindings: seq<PersistentVolumeBinding>): seq<VolumeBindingDraft>
  {
    seq(|bindings|, i requires 0 <= i < |bindings| =>
      VolumeBindingDraft(Num(bindings[i].persistentVolumeID), bindings[i].mountingPath))
  }

  /** How many `uuidv4()` calls a reset from this snapshot makes. */
  function ResetIdCount(application: Option<Application>): nat
  {
    if application.Some? then
      |application.value.environmentVariables| + |application.value.persistentVolumeBindings|
    else 0
  }

  lemma DistinctSplit(ids: seq<Key>, n: nat)
    requires Distinct(ids) && n <= |ids|
    ensures Distinct(ids[..n]) && Distinct(ids[n..])
  {
  }

  /** The draft after `resetDetailsToApplicationDetails` with a population
      snapshot: `ids` are the successive `uuidv4()` results, the environment
      variables' first. Each collection holds one fresh id per snapshot entry,
      in snapshot order; the scalars are copied; the build args are not part
      of the reset and keep the draft's value. */
  function ResetDraft(d: Draft, app: Application, ids: seq<Key>): (r: Draft)
    requires Distinct(ids) && |ids| == ResetIdCount(Some(app))
    ensures r.Valid()
    ensures r.envKeys == ids[..|app.environmentVariables|]
    ensures Flatten(r.envKeys, r.envRecords) == EnvironmentVariableDrafts(app.environmentVariables)
    ensures r.volumeKeys == ids[|app.environmentVariables|..]
    ensures Flatten(r.volumeKeys, r.volumeRecords) == VolumeBindingDrafts(app.persistentVolumeBindings)
    ensures r.source.buildArgs == d.source.buildArgs
  {
    var n := |app.environmentVariables|;
    var envItems := EnvironmentVariableDrafts(app.environmentVariables);
    var volumeItems := VolumeBindingDrafts(app.persistentVolumeBindings);
    DistinctSplit(ids, n);
    SeedRoundTrip(ids[..n], envItems);
    SeedRoundTrip(ids[n..], volumeItems);
    var deployment := app.latestDeployment;
    Draft(
      ids[..n], SeedRecords(ids[..n], envItems),
      ids[n..], SeedRecords(ids[n..], volumeItems),
      DeploymentConfiguration(
        Str(app.deploymentMode), Num(app.replicas), Num(app.resourceLimitMemoryMb), Num(app.reservedResourceMemoryMb)),
      d.source.(
        command := Str(app.command),
        gitCredentialID := NullableInt(deployment.gitCredentialID),
        gitProvider := Str(deployment.gitProvider),
        gitEndpoint := Str(deployment.gitEndpoint),
        repositoryUrl := Str(deployment.repositoryUrl),
        repositoryName := Str(deployment.repositoryName),
        repositoryOwner := Str(deployment.repositoryOwner),
        repositoryBranch := Str(deployment.repositoryBranch),
        codePath := Str(deployment.codePath),
        imageRegistryCredentialID := NullableInt(deployment.imageRegistryCredentialID),
        dockerImage := Str(deployment.dockerImage),
        sourceCodeCompressedFileName := Str(deployment.sourceCodeCompressedFileName),
        dockerfile := Str(deployment.dockerfile)))
  }

  /** The draft a reset leaves behind without a population snapshot: both
      collections emptied and the mode and replica count read as undefined
      from `{}`, before reading `resourceLimit.memoryMb` of it throws. */
  function AbortedResetDraft(d: Draft): (r: Draft)
    ensures r.Valid()
  {
    Draft([], map[], [], map[], d.deployment.(deploymentMode := Undefined, replicas := Undefined), d.source)
  }

  /** The dirty flag after `triggerUpdateHook`: the check's verdict, or the
      previous flag when the check throws. */
  function FlagAfterHook(previous: bool, check: Completion<bool>): bool
  {
    if check.Normal? then check.value else previous
  }

  /** How a handler that ends with `triggerUpdateHook` completes. */
  function HookOutcome(check: Completion<bool>): Completion<()>
  {
    if check.Normal? then Normal(()) else TypeError
  }

  /** One `forEach` of the reset: a fresh id pushed per item and the item
      stored under it. */
  method SeedCollection<T>(ids: seq<Key>, items: seq<T>) returns (keys: seq<Key>, records: map<Key, T>)
    requires |ids| == |items| && Distinct(ids)
    ensures keys == ids && records == SeedRecords(ids, items)
    ensures Consistent(keys, records) && Flatten(keys, records) == items
  {
    keys := [];
    records := map[];
    for i := 0 to |items|
      invariant keys == ids[..i]
      invariant records == SeedRecords(ids[..i], items[..i])
    {
      assert ids[..i + 1][..i] == ids[..i] && items[..i + 1][..i] == items[..i];
      keys := keys + [ids[i]];
      records := records[ids[i] := items[i]];
    }
    assert ids[..|ids|] == ids && items[..|items|] == items;
    SeedRoundTrip(ids, items);
  }

  class ApplicationUpdater {
    const environmentVariableDetails: KeyedCollection<EnvironmentVariableDraft>
    const persistentVolumeBindingsDetails: KeyedCollection<VolumeBindingDraft>
    var deploymentConfigurationDetails: DeploymentConfiguration
    var sourceConfigurationRef: SourceConfiguration
    var isConfigurationUpdated: bool
    /** The population query's result (None while it has none). */
    var applicationDetails: Option<Application>
    /** The baseline query's result (None while it has none). */
    var applicationExistingDetails: Option<Application>

    ghost predicate Valid()
      reads this, environmentVariableDetails, persistentVolumeBindingsDetails
    {
      environmentVariableDetails.Valid() && persistentVolumeBindingsDetails.Valid()
    }

    /** Everything the check and the submission read, as one value. */
    function CurrentDraft(): Draft
      reads this, environmentVariableDetails, persistentVolumeBindingsDetails
    {
      Draft(
        environmentVariableDetails.keys, environmentVariableDetails.records,
        persistentVolumeBindingsDetails.keys, persistentVolumeBindingsDetails.records,
        deploymentConfigurationDetails, sourceConfigurationRef)
    }

    /** The dirty flag and the completion are what `triggerUpdateHook` leaves
        for the current draft and baseline. */
    ghost predicate HookRan(previous: bool, c: Completion<()>)
      reads this, environmentVariableDetails, persistentVolumeBindingsDetails
      requires Valid()
    {
      var check := IsDirty(CurrentDraft(), applicationExistingDetails);
      isConfigurationUpdated == FlagAfterHook(previous, check) && c == HookOutcome(check)
    }

    /** Neither snapshot changed. */
    twostate predicate SnapshotsUnchanged()
      reads this
    {
      applicationDetails == old(applicationDetails) && applicationExistingDetails == old(applicationExistingDetails)
    }

    /** Neither scalar draft record changed. */
    twostate predicate ScalarsUnchanged()
      reads this
    {
      deploymentConfigurationDetails == old(deploymentConfigurationDetails)
      && sourceConfigurationRef == old(sourceConfigurationRef)
    }

    /** The store as it is created, before either query has a result. */
    constructor ()
      ensures Valid() && fresh(environmentVariableDetails) && fresh(persistentVolumeBindingsDetails)
      ensures CurrentDraft() == Draft([], map[], [], map[], InitialDeployment, InitialSource)
      ensures !isConfigurationUpdated && applicationDetails.None? && applicationExistingDetails.None?
    {
      environmentVariableDetails := new KeyedCollection();
      persistentVolumeBindingsDetails := new KeyedCollection();
      deploymentConfigurationDetails := InitialDeployment;
      sourceConfigurationRef := InitialSource;
      isConfigurationUpdated := false;
      applicationDetails := None;
      applicationExistingDetails := None;
    }

    /** `checkIfApplicationDetailsAreChanged()`, step by step in the store's
        order; it reads the store and changes nothing. */
    method CheckIfApplicationDetailsAreChanged() returns (r: Completion<bool>)
      requires Valid()
      ensures r == IsDirty(CurrentDraft(), applicationExistingDetails)
    {
      var d := CurrentDraft();
      var mode := if applicationExistingDetails.Some? then Str(applicationExistingDetails.value.deploymentMode) else Undefined;
      if !StrictEquals(mode, deploymentConfigurationDetails.deploymentMode) {
        return Normal(true);
      }
      if applicationExistingDetails.None? {
        return TypeError;
      }
      var app := applicationExistingDetails.value;
      var replicas := CallToString(deploymentConfigurationDetails.replicas);
      if replicas.TypeError? {
        return TypeError;
      }
      if IntToDecimal(app.replicas) != replicas.value {
        return Normal(true);
      }
      if !StrictEquals(Num(app.resourceLimitMemoryMb), deploymentConfigurationDetails.resourceLimitMemoryMb) {
        return Normal(true);
      }
      if !StrictEquals(Num(app.reservedResourceMemoryMb), deploymentConfigurationDetails.reservedResourceMemoryMb) {
        return Normal(true);
      }
      var environmentDiverged := FindPairsDivergence(BaselineEnvironmentPairs(app), DraftEnvironmentPairs(d));
      if environmentDiverged {
        return Normal(true);
      }
      var volumesDiverged := FindPairsDivergence(BaselineVolumePairs(app), DraftVolumePairs(d));
      if volumesDiverged {
        return Normal(true);
      }
      if !StrictEquals(ParseInt(sourceConfigurationRef.gitCredentialID), NullableInt(app.latestDeployment.gitCredentialID)) {
        return Normal(true);
      }
      if SourceScalarsDiverge(sourceConfigurationRef, app) {
        return Normal(true);
      }
      var buildArgsDiverged := FindBuildArgsDivergence(BaselineBuildArgs(app), sourceConfigurationRef.buildArgs);
      return Normal(buildArgsDiverged);
    }

    /** `isConfigurationUpdated.value = checkIfApplicationDetailsAreChanged()`:
        when the check throws, the flag keeps its value and the caller throws. */
    method TriggerUpdateHook() returns (c: Completion<()>)
      requires Valid()
      modifies this
      ensures Valid() && ScalarsUnchanged() && SnapshotsUnchanged()
      ensures HookRan(old(isConfigurationUpdated), c)
    {
      var changed := CheckIfApplicationDetailsAreChanged();
      if changed.TypeError? {
        return TypeError;
      }
      isConfigurationUpdated := changed.value;
      return Normal(());
    }

    /** `addEnvironmentVariable()`, `key` being the `uuidv4()` result. */
    method AddEnvironmentVariable(key: Key) returns (c: Completion<()>)
      requires Valid() && key !in environmentVariableDetails.records
      modifies this, environmentVariableDetails
      ensures Valid() && ScalarsUnchanged() && SnapshotsUnchanged()
      ensures environmentVariableDetails.keys == old(environmentVariableDetails.keys) + [key]
      ensures environmentVariableDetails.records == old(environmentVariableDetails.records)[key := NewEnvironmentVariable]
      ensures environmentVariableDetails.Values() == old(environmentVariableDetails.Values()) + [NewEnvironmentVariable]
      ensures HookRan(old(isConfigurationUpdated), c)
    {
      environmentVariableDetails.Add(key, NewEnvironmentVariable);
      c := TriggerUpdateHook();
    }

    /** `deleteEnvironmentVariable(key)`: the id is filtered out of the list and
        deleted from the dictionary; an absent id leaves the collection as it is. */
    method DeleteEnvironmentVariable(key: Key) returns (c: Completion<()>)
      requires Valid()
      modifies this, environmentVariableDetails
      ensures Valid() && ScalarsUnchanged() && SnapshotsUnchanged()
      ensures environmentVariableDetails.keys == Without(old(environmentVariableDetails.keys), key)
      ensures environmentVariableDetails.records == old(environmentVariableDetails.records) - {key}
      ensures key !in old(environmentVariableDetails.records) ==>
        environmentVariableDetails.keys == old(environmentVariableDetails.keys)
        && environmentVariableDetails.records == old(environmentVariableDetails.records)
      ensures forall i | 0 <= i < |old(environmentVariableDetails.keys)| && old(environmentVariableDetails.keys)[i] == key ::
        environmentVariableDetails.Values() == old(environmentVariableDetails.Values())[..i] + old(environmentVariableDetails.Values())[i + 1..]
      ensures HookRan(old(isConfigurationUpdated), c)
    {
      environmentVariableDetails.Delete(key);
      c := TriggerUpdateHook();
    }

    /** `onEnvironmentVariableNameChange(key, value)`: `map[key]` is undefined
        for an absent id and the assignment throws before anything changes. */
    method OnEnvironmentVariableNameChange(key: Key, value: string) returns (c: Completion<()>)
      requires Valid()
      modifies this, environmentVariableDetails
      ensures Valid() && ScalarsUnchanged() && SnapshotsUnchanged()
      ensures environmentVariableDetails.keys == old(environmentVariableDetails.keys)
      ensures key !in old(environmentVariableDetails.records) ==>
        c == TypeError && unchanged(this, environmentVariableDetails)
      ensures key in old(environmentVariableDetails.records) ==>
        && environmentVariableDetails.records == old(environmentVariableDetails.records)[key := old(environmentVariableDetails.records)[key].(name := value)]
        && HookRan(old(isConfigurationUpdated), c)
      ensures forall i | 0 <= i < |environmentVariableDetails.keys| && environmentVariableDetails.keys[i] == key ::
        environmentVariableDetails.Values() == old(environmentVariableDetails.Values())[i := old(environmentVariableDetails.Values())[i].(name := value)]
    {
      if key !in environmentVariableDetails.records {
        return TypeError;
      }
      environmentVariableDetails.Set(key, environmentVariableDetails.records[key].(name := value));
      c := TriggerUpdateHook();
    }

    /** `onEnvironmentVariableValueChange(key, value)`. */
    method OnEnvironmentVariableValueChange(key: Key, value: string) returns (c: Completion<()>)
      requires Valid()
      modifies this, environmentVariableDetails
      ensures Valid() && ScalarsUnchanged() && SnapshotsUnchanged()
      ensures environmentVariableDetails.keys == old(environmentVariableDetails.keys)
      ensures key !in old(environmentVariableDetails.records) ==>
        c == TypeError && unchanged(this, environmentVariableDetails)
      ensures key in old(environmentVariableDetails.records) ==>
        && environmentVariableDetails.records == old(environmentVariableDetails.records)[key := old(environmentVariableDetails.records)[key].(value := value)]
        && HookRan(old(isConfigurationUpdated), c)
      ensures forall i | 0 <= i < |environmentVariableDetails.keys| && environmentVariableDetails.keys[i] == key ::
        environmentVariableDetails.Values() == old(environmentVariableDetails.Values())[i := old(environmentVariableDetails.Values())[i].(value := value)]
    {
      if key !in environmentVariableDetails.records {
        return TypeError;
      }
      environmentVariableDetails.Set(key, environmentVariableDetails.records[key].(value := value));
      c := TriggerUpdateHook();
    }

    /** `addPersistentVolumeBinding()`, `key` being the `uuidv4()` result. */
    method AddPersistentVolumeBinding(key: Key) returns (c: Completion<()>)
      requires Valid() && key !in persistentVolumeBindingsDetails.records
      modifies this, persistentVolumeBindingsDetails
      ensures Valid() && ScalarsUnchanged() && SnapshotsUnchanged()
      ensures persistentVolumeBindingsDetails.keys == old(persistentVolumeBindingsDetails.keys) + [key]
      ensures persistentVolumeBindingsDetails.records == old(persistentVolumeBindingsDetails.records)[key := NewVolumeBinding]
      ensures persistentVolumeBindingsDetails.Values() == old(persistentVolumeBindingsDetails.Values()) + [NewVolumeBinding]
      ensures HookRan(old(isConfigurationUpdated), c)
    {
      persistentVolumeBindingsDetails.Add(key, NewVolumeBinding);
      c := TriggerUpdateHook();
    }

    /** `deletePersistentVolumeBinding(key)`. */
    method DeletePersistentVolumeBinding(key: Key) returns (c: Completion<()>)
      requires Valid()
      modifies this, persistentVolumeBindingsDetails
      ensures Valid() && ScalarsUnchanged() && SnapshotsUnchanged()
      ensures persistentVolumeBindingsDetails.keys == Without(old(persistentVolumeBindingsDetails.keys), key)
      ensures persistentVolumeBindingsDetails.records == old(persistentVolumeBindingsDetails.records) - {key}
      ensures key !in old(persistentVolumeBindingsDetails.records) ==>
        persistentVolumeBindingsDetails.keys == old(persistentVolumeBindingsDetails.keys)
        && persistentVolumeBindingsDetails.records == old(persistentVolumeBindingsDetails.records)
      ensures forall i | 0 <= i < |old(persistentVolumeBindingsDetails.keys)| && old(persistentVolumeBindingsDetails.keys)[i] == key ::
        persistentVolumeBindingsDetails.Values() == old(persistentVolumeBindingsDetails.Values())[..i] + old(persistentVolumeBindingsDetails.Values())[i + 1..]
      ensures HookRan(old(isConfigurationUpdated), c)
    {
      persistentVolumeBindingsDetails.Delete(key);
      c := TriggerUpdateHook();
    }

    /** `onPersistentVolumeChange(key, value)`: the volume id keeps whatever
        value the selector gives it. */
    method OnPersistentVolumeChange(key: Key, value: JsValue) returns (c: Completion<()>)
      requires Valid()
      modifies this, persistentVolumeBindingsDetails
      ensures Valid() && ScalarsUnchanged() && SnapshotsUnchanged()
      ensures persistentVolumeBindingsDetails.keys == old(persistentVolumeBindingsDetails.keys)
      ensures key !in old(persistentVolumeBindingsDetails.records) ==>
        c == TypeError && unchanged(this, persistentVolumeBindingsDetails)
      ensures key in old(persistentVolumeBindingsDetails.records) ==>
        && persistentVolumeBindingsDetails.records
           == old(persistentVolumeBindingsDetails.records)[key := old(persistentVolumeBindingsDetails.records)[key].(persistentVolumeID := value)]
        && HookRan(old(isConfigurationUpdated), c)
      ensures forall i | 0 <= i < |persistentVolumeBindingsDetails.keys| && persistentVolumeBindingsDetails.keys[i] == key ::
        persistentVolumeBindingsDetails.Values()
          == old(persistentVolumeBindingsDetails.Values())[i := old(persistentVolumeBindingsDetails.Values())[i].(persistentVolumeID := value)]
    {
      if key !in persistentVolumeBindingsDetails.records {
        return TypeError;
      }
      persistentVolumeBindingsDetails.Set(key, persistentVolumeBindingsDetails.records[key].(persistentVolumeID := value));
      c := TriggerUpdateHook();
    }

    /** `onPersistentVolumeMountingPathChange(key, value)`. */
    method OnPersistentVolumeMountingPathChange(key: Key, value: string) returns (c: Completion<()>)
      requires Valid()
      modifies this, persistentVolumeBindingsDetails
      ensures Valid() && ScalarsUnchanged() && SnapshotsUnchanged()
      ensures persistentVolumeBindingsDetails.keys == old(persistentVolumeBindingsDetails.keys)
      ensures key !in old(persistentVolumeBindingsDetails.records) ==>
        c == TypeError && unchanged(this, persistentVolumeBindingsDetails)
      ensures key in old(persistentVolumeBindingsDetails.records) ==>
        && persistentVolumeBindingsDetails.records
           == old(persistentVolumeBindingsDetails.records)[key := old(persistentVolumeBindingsDetails.records)[key].(mountingPath := value)]
        && HookRan(old(isConfigurationUpdated), c)
      ensures forall i | 0 <= i < |persistentVolumeBindingsDetails.keys| && persistentVolumeBindingsDetails.keys[i] == key ::
        persistentVolumeBindingsDetails.Values()
          == old(persistentVolumeBindingsDetails.Values())[i := old(persistentVolumeBindingsDetails.Values())[i].(mountingPath := value)]
    {
      if key !in persistentVolumeBindingsDetails.records {
        return TypeError;
      }
      persistentVolumeBindingsDetails.Set(key, persistentVolumeBindingsDetails.records[key].(mountingPath := value));
      c := TriggerUpdateHook();
    }

    /** `onMemoryLimitChanged(value)`. */
    method OnMemoryLimitChanged(value: JsValue) returns (c: Completion<()>)
      requires Valid()
      modifies this
      ensures Valid() && SnapshotsUnchanged()
      ensures deploymentConfigurationDetails == old(deploymentConfigurationDetails).(resourceLimitMemoryMb := value)
      ensures sourceConfigurationRef == old(sourceConfigurationRef)
      ensures HookRan(old(isConfigurationUpdated), c)
    {
      deploymentConfigurationDetails := deploymentConfigurationDetails.(resourceLimitMemoryMb := value);
      c := TriggerUpdateHook();
    }

    /** `onMemoryReservedChanged(value)`. */
    method OnMemoryReservedChanged(value: JsValue) returns (c: Completion<()>)
      requires Valid()
      modifies this
      ensures Valid() && SnapshotsUnchanged()
      ensures deploymentConfigurationDetails == old(deploymentConfigurationDetails).(reservedResourceMemoryMb := value)
      ensures sourceConfigurationRef == old(sourceConfigurationRef)
      ensures HookRan(old(isConfigurationUpdated), c)
    {
      deploymentConfigurationDetails := deploymentConfigurationDetails.(reservedResourceMemoryMb := value);
      c := TriggerUpdateHook();
    }

    /** `replicasCountChanged()`: the replica count itself is written by the
        form control; the handler only recomputes the flag. */
    method ReplicasCountChanged() returns (c: Completion<()>)
      requires Valid()
      modifies this
      ensures Valid() && ScalarsUnchanged() && SnapshotsUnchanged()
      ensures HookRan(old(isConfigurationUpdated), c)
    {
      c := TriggerUpdateHook();
    }

    /** `updateApplicationSource(source)`: the editor's fields are copied under
        the store's names (`gitRepoUrl` to `repositoryUrl`, `gitBranch` to
        `repositoryBranch`, `dockerFile` to `dockerfile`); provider, endpoint,
        repository name and owner keep their values. This is the only writer
        of the build args. */
    method UpdateApplicationSource(source: ApplicationSource) returns (c: Completion<()>)
      requires Valid()
      modifies this
      ensures Valid() && SnapshotsUnchanged()
      ensures deploymentConfigurationDetails == old(deploymentConfigurationDetails)
      ensures sourceConfigurationRef == old(sourceConfigurationRef).(
        command := source.command,
        gitCredentialID := source.gitCredentialID,
        repositoryUrl := source.gitRepoUrl,
        repositoryBranch := source.gitBranch,
        codePath := source.codePath,
        imageRegistryCredentialID := source.imageRegistryCredentialID,
        dockerImage := source.dockerImage,
        sourceCodeCompressedFileName := source.sourceCodeCompressedFileName,
        dockerfile := source.dockerFile,
        buildArgs := source.buildArgs)
      ensures HookRan(old(isConfigurationUpdated), c)
    {
      sourceConfigurationRef := sourceConfigurationRef.(command := source.command);
      sourceConfigurationRef := sourceConfigurationRef.(gitCredentialID := source.gitCredentialID);
      sourceConfigurationRef := sourceConfigurationRef.(repositoryUrl := source.gitRepoUrl);
      sourceConfigurationRef := sourceConfigurationRef.(repositoryBranch := source.gitBranch);
      sourceConfigurationRef := sourceConfigurationRef.(codePath := source.codePath);
      sourceConfigurationRef := sourceConfigurationRef.(imageRegistryCredentialID := source.imageRegistryCredentialID);
      sourceConfigurationRef := sourceConfigurationRef.(dockerImage := source.dockerImage);
      sourceConfigurationRef := sourceConfigurationRef.(sourceCodeCompressedFileName := source.sourceCodeCompressedFileName);
      sourceConfigurationRef := sourceConfigurationRef.(dockerfile := source.dockerFile);
      sourceConfigurationRef := sourceConfigurationRef.(buildArgs := source.buildArgs);
      c := TriggerUpdateHook();
    }

    /** `resetDetailsToApplicationDetails()`, `ids` being the successive
        `uuidv4()` results. With a population snapshot the draft becomes
        `ResetDraft` and the flag is cleared; without one the collections are
        emptied, mode and replicas become undefined and the reset throws
        before it reaches the flag. */
    method ResetDetailsToApplicationDetails(ids: seq<Key>) returns (c: Completion<()>)
      requires Valid() && Distinct(ids) && |ids| == ResetIdCount(applicationDetails)
      modifies this, environmentVariableDetails, persistentVolumeBindingsDetails
      ensures Valid() && SnapshotsUnchanged()
      ensures applicationDetails.Some? ==>
        && CurrentDraft() == ResetDraft(old(CurrentDraft()), applicationDetails.value, ids)
        && !isConfigurationUpdated && c == Normal(())
      ensures applicationDetails.None? ==>
        && CurrentDraft() == AbortedResetDraft(old(CurrentDraft()))
        && isConfigurationUpdated == old(isConfigurationUpdated) && c == TypeError
    {
      var vars := if applicationDetails.Some? then applicationDetails.value.environmentVariables else [];
      var bindings := if applicationDetails.Some? then applicationDetails.value.persistentVolumeBindings else [];
      var n := |vars|;
      DistinctSplit(ids, n);
      var keys, envRecords := SeedCollection(ids[..n], EnvironmentVariableDrafts(vars));
      environmentVariableDetails.keys := keys;
      environmentVariableDetails.records := envRecords;
      var volumeKeys, volumeRecords := SeedCollection(ids[n..], VolumeBindingDrafts(bindings));
      persistentVolumeBindingsDetails.keys := volumeKeys;
      persistentVolumeBindingsDetails.records := volumeRecords;

      if applicationDetails.None? {
        deploymentConfigurationDetails := deploymentConfigurationDetails.(deploymentMode := Undefined, replicas := Undefined);
        return TypeError;
      }
      var app := applicationDetails.value;
      var deployment := app.latestDeployment;
      deploymentConfigurationDetails := deploymentConfigurationDetails.(deploymentMode := Str(app.deploymentMode));
      deploymentConfigurationDetails := deploymentConfigurationDetails.(replicas := Num(app.replicas));
      deploymentConfigurationDetails := deploymentConfigurationDetails.(resourceLimitMemoryMb := Num(app.resourceLimitMemoryMb));
      deploymentConfigurationDetails := deploymentConfigurationDetails.(reservedResourceMemoryMb := Num(app.reservedResourceMemoryMb));
      sourceConfigurationRef := sourceConfigurationRef.(command := Str(app.command));
      sourceConfigurationRef := sourceConfigurationRef.(gitCredentialID := NullableInt(deployment.gitCredentialID));
      sourceConfigurationRef := sourceConfigurationRef.(gitProvider := Str(deployment.gitProvider));
      sourceConfigurationRef := sourceConfigurationRef.(gitEndpoint := Str(deployment.gitEndpoint));
      sourceConfigurationRef := sourceConfigurationRef.(repositoryUrl := Str(deployment.repositoryUrl));
      sourceConfigurationRef := sourceConfigurationRef.(repositoryName := Str(deployment.repositoryName));
      sourceConfigurationRef := sourceConfigurationRef.(repositoryOwner := Str(deployment.repositoryOwner));
      sourceConfigurationRef := sourceConfigurationRef.(repositoryBranch := Str(deployment.repositoryBranch));
      sourceConfigurationRef := sourceConfigurationRef.(codePath := Str(deployment.codePath));
      sourceConfigurationRef := sourceConfigurationRef.(imageRegistryCredentialID := NullableInt(deployment.imageRegistryCredentialID));
      sourceConfigurationRef := sourceConfigurationRef.(dockerImage := Str(deployment.dockerImage));
      sourceConfigurationRef := sourceConfigurationRef.(sourceCodeCompressedFileName := Str(deployment.sourceCodeCompressedFileName));
      sourceConfigurationRef := sourceConfigurationRef.(dockerfile := Str(deployment.dockerfile));
      isConfigurationUpdated := false;
      return Normal(());
    }

    /** `cancelConfigurationChanges()`: a reset. */
    method CancelConfigurationChanges(ids: seq<Key>) returns (c: Completion<()>)
      requires Valid() && Distinct(ids) && |ids| == ResetIdCount(applicationDetails)
      modifies this, environmentVariableDetails, persistentVolumeBindingsDetails
      ensures Valid() && SnapshotsUnchanged()
      ensures applicationDetails.Some? ==>
        && CurrentDraft() == ResetDraft(old(CurrentDraft()), applicationDetails.value, ids)
        && !isConfigurationUpdated && c == Normal(())
      ensures applicationDetails.None? ==>
        && CurrentDraft() == AbortedResetDraft(old(CurrentDraft()))
        && isConfigurationUpdated == old(isConfigurationUpdated) && c == TypeError
    {
      c := ResetDetailsToApplicationDetails(ids);
    }

    /** A new result of the population query: the store's watcher resets the
        draft from it. */
    method OnApplicationDetailsFetched(app: Application, ids: seq<Key>) returns (c: Completion<()>)
      requires Valid() && Distinct(ids) && |ids| == ResetIdCount(Some(app))
      modifies this, environmentVariableDetails, persistentVolumeBindingsDetails
      ensures Valid()
      ensures applicationDetails == Some(app) && applicationExistingDetails == old(applicationExistingDetails)
      ensures CurrentDraft() == ResetDraft(old(CurrentDraft()), app, ids)
      ensures !isConfigurationUpdated && c == Normal(())
    {
      applicationDetails := Some(app);
      c := ResetDetailsToApplicationDetails(ids);
    }

    /** A new result of the baseline query; nothing else reacts to it. */
    method OnApplicationExistingDetailsFetched(app: Application)
      requires Valid()
      modifies this
      ensures Valid() && ScalarsUnchanged()
      ensures applicationExistingDetails == Some(app) && applicationDetails == old(applicationDetails)
      ensures isConfigurationUpdated == old(isConfigurationUpdated)
    {
      applicationExistingDetails := Some(app);
    }

    /** `applyConfigurationChanges()`: the payload it hands to the update
        mutation, which is outside this model; it changes nothing in the store. */
    method ApplyConfigurationChanges() returns (r: Completion<Payload>)
      requires Valid()
      ensures r == SubmissionPayload(CurrentDraft(), applicationExistingDetails)
    {
      var merged := MergeChangesWithExistingApplicationDetails(CurrentDraft(), applicationExistingDetails);
      if merged.TypeError? {
        return TypeError;
      }
      var payload := merged.value;
      payload := payload.(gitCredentialID := ParseInt(payload.gitCredentialID));
      payload := payload.(imageRegistryCredentialID := ParseInt(payload.imageRegistryCredentialID));
      payload := payload.(gitCredentialID := if StrictEquals(payload.gitCredentialID, Num(0)) then Null else payload.gitCredentialID);
      payload := payload.(imageRegistryCredentialID :=
        if StrictEquals(payload.imageRegistryCredentialID, Num(0)) then Null else payload.imageRegistryCredentialID);
      return Normal(payload);
    }
  }
}
