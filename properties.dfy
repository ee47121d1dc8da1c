/** What the store's operations promise together: a draft just reset from an
    application, checked against that same application, and submitted
    unedited. */
module Properties {
  import opened JsValues
  import opened KeyedCollections
  import opened Configuration
  import opened ChangeDetection
  import opened Submission
  import opened ApplicationUpdater

  /** The list `Property(key, value)` of the draft's environment variables
      after a reset is the snapshot's list. */
  lemma ResetEnvironmentPairs(d: Draft, app: Application, ids: seq<Key>)
    requires Distinct(ids) && |ids| == ResetIdCount(Some(app))
    ensures DraftEnvironmentPairs(ResetDraft(d, app, ids)) == BaselineEnvironmentPairs(app)
  {
    var r := ResetDraft(d, app, ids);
    var flat := Flatten(r.envKeys, r.envRecords);
    forall i | 0 <= i < |app.environmentVariables|
      ensures DraftEnvironmentPairs(r)[i] == BaselineEnvironmentPairs(app)[i]
    {
      assert r.envRecords[r.envKeys[i]] == flat[i];
    }
  }

  /** A volume id that is a number never reads as "undefined". */
  lemma NumberIsNotUndefinedText(n: int)
    ensures ToJsString(Num(n)) != "undefined"
  {
    NatToDecimalIsDigits(if n < 0 then -n else n);
    var text := IntToDecimal(n);
    assert text[0] == '-' || '0' <= text[0] <= '9';
  }

  /** A list of pairs never diverges from itself. */
  lemma PairsAgreeWithThemselves(pairs: seq<Property>)
    ensures !PairsDiverge(pairs, pairs)
  {
    PairsAgreeMeansSubDictionary(pairs, pairs);
  }

  /** The scalars and source fields a reset copies from an application. */
  predicate CopiesScalarsOf(r: Draft, app: Application)
  {
    var deployment := app.latestDeployment;
    && r.deployment == DeploymentConfiguration(
         Str(app.deploymentMode), Num(app.replicas), Num(app.resourceLimitMemoryMb), Num(app.reservedResourceMemoryMb))
    && r.source.command == Str(app.command)
    && r.source.gitCredentialID == NullableInt(deployment.gitCredentialID)
    && r.source.repositoryUrl == Str(deployment.repositoryUrl)
    && r.source.repositoryBranch == Str(deployment.repositoryBranch)
    && r.source.codePath == Str(deployment.codePath)
    && r.source.imageRegistryCredentialID == NullableInt(deployment.imageRegistryCredentialID)
    && r.source.dockerImage == Str(deployment.dockerImage)
    && r.source.sourceCodeCompressedFileName == Str(deployment.sourceCodeCompressedFileName)
    && r.source.dockerfile == Str(deployment.dockerfile)
  }

  /** A draft holding the application's scalars and environment variables
      passes every step of the check but the volume, git-credential and
      build-args steps. */
  lemma CopiedScalarsLeaveThreeSteps(r: Draft, app: Application)
    requires r.Valid() && CopiesScalarsOf(r, app)
    requires DraftEnvironmentPairs(r) == BaselineEnvironmentPairs(app)
    ensures IsDirty(r, Some(app)) == Normal(
      || PairsDiverge(BaselineVolumePairs(app), DraftVolumePairs(r))
      || !StrictEquals(ParseInt(r.source.gitCredentialID), NullableInt(app.latestDeployment.gitCredentialID))
      || BuildArgsDiverge(BaselineBuildArgs(app), r.source.buildArgs))
  {
    PairsAgreeWithThemselves(BaselineEnvironmentPairs(app));
  }

  /** The volume step after a reset diverges exactly when the application
      has volume bindings. */
  lemma ResetVolumeStep(d: Draft, app: Application, ids: seq<Key>)
    requires Distinct(ids) && |ids| == ResetIdCount(Some(app))
    ensures PairsDiverge(BaselineVolumePairs(app), DraftVolumePairs(ResetDraft(d, app, ids)))
      <==> |app.persistentVolumeBindings| > 0
  {
    var r := ResetDraft(d, app, ids);
    if |app.persistentVolumeBindings| > 0 {
      var flat := Flatten(r.volumeKeys, r.volumeRecords);
      forall k | k in r.volumeRecords
        ensures ToJsString(r.volumeRecords[k].persistentVolumeID) != "undefined"
      {
        var i :| 0 <= i < |r.volumeKeys| && r.volumeKeys[i] == k;
        assert r.volumeRecords[k] == flat[i];
        NumberIsNotUndefinedText(app.persistentVolumeBindings[i].persistentVolumeID);
      }
      VolumeStepDivergesOnFetchedBindings(r, app);
    }
  }

  /** The git-credential step diverges for a draft credential copied from the
      snapshot exactly when the snapshot's credential is null. */
  lemma CopiedGitCredentialStep(id: Option<int>)
    ensures !StrictEquals(ParseInt(NullableInt(id)), NullableInt(id)) <==> id.None?
  {
    if id.Some? {
      ParseIntOfNumber(id.value);
    } else {
      ParseIntOfNonNumbers();
    }
  }

  /** Reset the draft from an application and check it against the same
      application: the check reports clean exactly when the application has
      no volume bindings (the volume step reads the unfetched `binding.key`),
      its git credential is set (`parseInt(null)` is NaN, which is not
      `null`), and the draft's build args, which the reset does not touch,
      equal the application's. */
  lemma CleanAfterResetExactlyWhen(d: Draft, app: Application, ids: seq<Key>)
    requires Distinct(ids) && |ids| == ResetIdCount(Some(app))
    ensures IsDirty(ResetDraft(d, app, ids), Some(app)) == Normal(
      || |app.persistentVolumeBindings| > 0
      || app.latestDeployment.gitCredentialID.None?
      || d.source.buildArgs != BaselineBuildArgs(app))
  {
    var r := ResetDraft(d, app, ids);
    ResetEnvironmentPairs(d, app, ids);
    assert CopiesScalarsOf(r, app);
    CopiedScalarsLeaveThreeSteps(r, app);
    ResetVolumeStep(d, app, ids);
    CopiedGitCredentialStep(app.latestDeployment.gitCredentialID);
    BuildArgsDivergeIffUnequal(BaselineBuildArgs(app), d.source.buildArgs);
  }

  /** The credential an unedited draft submits for a snapshot credential:
      0 as null, any other id as itself, and a null one as NaN. */
  function ResubmittedCredential(id: Option<int>): JsValue
  {
    if id == Some(0) then Null else if id.Some? then Num(id.value) else NaN
  }

  lemma ResubmittedCredentialIsNormalized(id: Option<int>)
    ensures NormalizeCredential(NullableInt(id)) == ResubmittedCredential(id)
  {
    if id.Some? {
      NormalizeNumericCredential(id.value);
    } else {
      NormalizeUnsetCredential();
    }
  }

  /** The volume bindings of a snapshot as an unedited draft submits them. */
  function ResubmittedVolumeBindings(bindings: seq<PersistentVolumeBinding>): seq<VolumeBindingInput>
  {
    seq(|bindings|, i requires 0 <= i < |bindings| =>
      VolumeBindingInput(Num(bindings[i].persistentVolumeID), bindings[i].mountingPath))
  }

  /** Reset from an application and submit at once against the same
      application: the payload is the application itself, field for field,
      except that the credentials are normalised and the build args are the
      draft's. */
  lemma SubmitAfterResetResendsApplication(d: Draft, app: Application, ids: seq<Key>)
    requires Distinct(ids) && |ids| == ResetIdCount(Some(app))
    ensures
      var deployment := app.latestDeployment;
      SubmissionPayload(ResetDraft(d, app, ids), Some(app)) == Normal(Payload(
        app.name,
        deployment.upstreamType,
        Str(app.command),
        Str(app.deploymentMode),
        Num(app.replicas),
        Num(app.resourceLimitMemoryMb),
        Num(app.reservedResourceMemoryMb),
        d.source.buildArgs,
        app.environmentVariables,
        ResubmittedVolumeBindings(app.persistentVolumeBindings),
        ResubmittedCredential(deployment.gitCredentialID),
        Str(deployment.repositoryUrl),
        Str(deployment.repositoryBranch),
        Str(deployment.codePath),
        ResubmittedCredential(deployment.imageRegistryCredentialID),
        Str(deployment.dockerImage),
        Str(deployment.sourceCodeCompressedFileName),
        Str(deployment.dockerfile),
        app.capabilities,
        app.sysctls,
        app.group))
  {
    var r := ResetDraft(d, app, ids);
    ResubmittedCredentialIsNormalized(app.latestDeployment.gitCredentialID);
    ResubmittedCredentialIsNormalized(app.latestDeployment.imageRegistryCredentialID);
    assert EnvironmentVariableInputs(Flatten(r.envKeys, r.envRecords)) == app.environmentVariables;
    assert VolumeBindingInputs(Flatten(r.volumeKeys, r.volumeRecords)) == ResubmittedVolumeBindings(app.persistentVolumeBindings);
  }

  /** The text "0" chosen for the git credential is submitted as null, yet
      the check compares its parse, the number 0, with the baseline's null
      and reports the draft dirty. */
  lemma ZeroCredentialAgainstUnsetBaseline()
    ensures NormalizeCredential(Str("0")) == Null
    ensures !StrictEquals(ParseInt(Str("0")), NullableInt(None))
  {
    assert IntToDecimal(0) == "0";
    NormalizeTextCredential(0);
    ParseIntOfDecimal(0);
  }

  /** Editing the memory limit of a draft the check reports clean to any
      other value makes the check report it dirty. */
  lemma MemoryLimitEditOfCleanDraftIsDetected(d: Draft, app: Application, value: JsValue)
    requires d.Valid() && IsDirty(d, Some(app)) == Normal(false)
    requires value != d.deployment.resourceLimitMemoryMb
    ensures IsDirty(d.(deployment := d.deployment.(resourceLimitMemoryMb := value)), Some(app)) == Normal(true)
  {
    ReportsCleanExactlyWhen(d, app);
  }

  /** Editing the docker image of a draft the check reports clean to any
      other value makes the check report it dirty. */
  lemma DockerImageEditOfCleanDraftIsDetected(d: Draft, app: Application, value: JsValue)
    requires d.Valid() && IsDirty(d, Some(app)) == Normal(false)
    requires value != d.source.dockerImage
    ensures IsDirty(d.(source := d.source.(dockerImage := value)), Some(app)) == Normal(true)
  {
    ReportsCleanExactlyWhen(d, app);
    ReportsCleanExactlyWhen(d.(source := d.source.(dockerImage := value)), app);
  }

  /** The environment variables a reset seeds from a snapshot are submitted
      as that snapshot's list again: `{name: key, value}` and back. */
  lemma SeededEnvironmentVariablesRoundTrip(vars: seq<EnvironmentVariable>)
    ensures EnvironmentVariableInputs(EnvironmentVariableDrafts(vars)) == vars
  {
    var back := EnvironmentVariableInputs(EnvironmentVariableDrafts(vars));
    forall i | 0 <= i < |vars| ensures back[i] == vars[i] {
      assert back[i] == EnvironmentVariable(vars[i].key, vars[i].value);
    }
  }

  /** The volume bindings a reset seeds from a snapshot are submitted with the
      snapshot's volume ids, as numbers, and mounting paths, in order. */
  lemma SeededVolumeBindingsRoundTrip(bindings: seq<PersistentVolumeBinding>)
    ensures VolumeBindingInputs(VolumeBindingDrafts(bindings)) == ResubmittedVolumeBindings(bindings)
  {
  }

  /** A reset without a population snapshot leaves a draft whose mode is
      undefined: checked against a loaded baseline it is dirty, and without
      a baseline the check throws at the replica comparison. */
  lemma AbortedResetDraftCheck(d: Draft, app: Application)
    ensures IsDirty(AbortedResetDraft(d), Some(app)) == Normal(true)
    ensures IsDirty(AbortedResetDraft(d), None) == TypeError
  {
  }
}
