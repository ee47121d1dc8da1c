/** The submission record (`mergeChangesWithExistingApplicationDetails` and the
    credential normalisation of `applyConfigurationChanges`): the fields that
    cannot be edited here come from the baseline, the rest from the draft, the
    keyed collections flattened in editing order, and each credential id
    parsed with `parseInt`, a parsed `0` sent as null. */
module Submission {
  import opened JsValues
  import opened KeyedCollections
  import opened Configuration

  datatype VolumeBindingInput = VolumeBindingInput(persistentVolumeID: JsValue, mountingPath: string)

  /** The `input` of the update mutation. The build args are the set of
      `{key, value}` entries of the draft's object; the order in which
      `Object.entries` lists them is not part of this model. */
  datatype Payload = Payload(
    name: string,
    upstreamType: string,
    command: JsValue,
    deploymentMode: JsValue,
    replicas: JsValue,
    resourceLimitMemoryMb: JsValue,
    reservedResourceMemoryMb: JsValue,
    buildArgs: map<string, string>,
    environmentVariables: seq<EnvironmentVariable>,
    persistentVolumeBindings: seq<VolumeBindingInput>,
    gitCredentialID: JsValue,
    repositoryUrl: JsValue,
    repositoryBranch: JsValue,
    codePath: JsValue,
    imageRegistryCredentialID: JsValue,
    dockerImage: JsValue,
    sourceCodeCompressedFileName: JsValue,
    dockerfile: JsValue,
    capabilities: seq<string>,
    sysctls: seq<string>,
    group: string)

  /** `applicationExistingDetails.length`: neither the application object nor
      the `{}` that stands in for a missing one has a `length` property, so
      `baseline` is deliberately unused. */
  function LengthProperty(baseline: Option<Application>): JsValue
  {
    Undefined
  }

  /** The guard meant to catch a baseline that has not loaded. */
  predicate MissingBaselineGuardFires(baseline: Option<Application>)
  {
    StrictEquals(LengthProperty(baseline), Num(0))
  }

  /** `{ key: name, value }` for one environment variable of the draft. */
  function EnvironmentVariableInputs(records: seq<EnvironmentVariableDraft>): seq<EnvironmentVariable>
  {
    seq(|records|, i requires 0 <= i < |records| => EnvironmentVariable(records[i].name, records[i].value))
  }

  /** `{ persistentVolumeID, mountingPath }` for one binding of the draft. */
  function VolumeBindingInputs(records: seq<VolumeBindingDraft>): seq<VolumeBindingInput>
  {
    seq(|records|, i requires 0 <= i < |records| =>
      VolumeBindingInput(records[i].persistentVolumeID, records[i].mountingPath))
  }

  /** `mergeChangesWithExistingApplicationDetails()`. Without a baseline the
      store reads `{}`; its length guard does not fire and reading
      `latestDeployment.upstreamType` of it throws. */
  function MergeChangesWithExistingApplicationDetails(d: Draft, baseline: Option<Application>): (r: Completion<Payload>)
    requires d.Valid()
    ensures r.TypeError? <==> baseline.None?
    ensures r.Normal? ==>
      && |r.value.environmentVariables| == |d.envKeys|
      && |r.value.persistentVolumeBindings| == |d.volumeKeys|
  {
    if baseline.None? then TypeError
    else
      var app := baseline.value;
      Normal(Payload(
        app.name,
        app.latestDeployment.upstreamType,
        d.source.command,
        d.deployment.deploymentMode,
        d.deployment.replicas,
        d.deployment.resourceLimitMemoryMb,
        d.deployment.reservedResourceMemoryMb,
        d.source.buildArgs,
        EnvironmentVariableInputs(Flatten(d.envKeys, d.envRecords)),
        VolumeBindingInputs(Flatten(d.volumeKeys, d.volumeRecords)),
        d.source.gitCredentialID,
        d.source.repositoryUrl,
        d.source.repositoryBranch,
        d.source.codePath,
        d.source.imageRegistryCredentialID,
        d.source.dockerImage,
        d.source.sourceCodeCompressedFileName,
        d.source.dockerfile,
        app.capabilities,
        app.sysctls,
        app.group))
  }

  /** `id = parseInt(id); id = id === 0 ? null : id`: never 0, null exactly
      for a value that parses to 0, otherwise the parsed value (a number or
      NaN). */
  function NormalizeCredential(v: JsValue): (r: JsValue)
    ensures r != Num(0)
    ensures r.Null? <==> ParseInt(v) == Num(0)
    ensures !r.Null? ==> r == ParseInt(v)
  {
    var parsed := ParseInt(v);
    if StrictEquals(parsed, Num(0)) then Null else parsed
  }

  /** The payload `applyConfigurationChanges` hands to the update mutation. */
  function SubmissionPayload(d: Draft, baseline: Option<Application>): (r: Completion<Payload>)
    requires d.Valid()
    ensures r.TypeError? <==> baseline.None?
    ensures r.Normal? ==> r.value.gitCredentialID != Num(0) && r.value.imageRegistryCredentialID != Num(0)
  {
    var merged := MergeChangesWithExistingApplicationDetails(d, baseline);
    if merged.TypeError? then TypeError
    else Normal(merged.value.(
      gitCredentialID := NormalizeCredential(merged.value.gitCredentialID),
      imageRegistryCredentialID := NormalizeCredential(merged.value.imageRegistryCredentialID)))
  }

  /** The length guard never fires, not even without a baseline. */
  lemma MissingBaselineGuardNeverFires(baseline: Option<Application>)
    ensures !MissingBaselineGuardFires(baseline)
  {
  }

  /** A numeric credential id is sent as itself, except 0, which is sent as null. */
  lemma NormalizeNumericCredential(n: int)
    ensures NormalizeCredential(Num(n)) == if n == 0 then Null else Num(n)
  {
    ParseIntOfNumber(n);
  }

  /** A credential id chosen as the text of a number is sent as that number,
      and the text "0" as null. */
  lemma NormalizeTextCredential(n: int)
    ensures NormalizeCredential(Str(IntToDecimal(n))) == if n == 0 then Null else Num(n)
  {
    ParseIntOfDecimal(n);
  }

  /** A credential that is null or undefined in the draft does not parse and
      is sent as NaN, not as null. */
  lemma NormalizeUnsetCredential()
    ensures NormalizeCredential(Null) == NaN && NormalizeCredential(Undefined) == NaN
  {
    ParseIntOfNonNumbers();
  }

  /** Adding an environment variable appends `{key: '', value: ''}` to the
      submitted list and changes nothing else in the payload. */
  lemma AddedEnvironmentVariableIsSubmittedLast(d: Draft, baseline: Option<Application>, key: Key)
    requires d.Valid() && key !in d.envRecords && baseline.Some?
    ensures d.(envKeys := d.envKeys + [key], envRecords := d.envRecords[key := NewEnvironmentVariable]).Valid()
    ensures
      var d' := d.(envKeys := d.envKeys + [key], envRecords := d.envRecords[key := NewEnvironmentVariable]);
      var before := SubmissionPayload(d, baseline).value;
      SubmissionPayload(d', baseline).value
        == before.(environmentVariables := before.environmentVariables + [EnvironmentVariable("", "")])
  {
    AppendFresh(d.envKeys, d.envRecords, key, NewEnvironmentVariable);
    var flat := Flatten(d.envKeys, d.envRecords);
    assert EnvironmentVariableInputs(flat + [NewEnvironmentVariable])
      == EnvironmentVariableInputs(flat) + [EnvironmentVariable("", "")];
  }

  /** Adding a volume binding appends `{persistentVolumeID: -1, mountingPath: ''}`
      to the submitted list and changes nothing else in the payload. */
  lemma AddedVolumeBindingIsSubmittedLast(d: Draft, baseline: Option<Application>, key: Key)
    requires d.Valid() && key !in d.volumeRecords && baseline.Some?
    ensures d.(volumeKeys := d.volumeKeys + [key], volumeRecords := d.volumeRecords[key := NewVolumeBinding]).Valid()
    ensures
      var d' := d.(volumeKeys := d.volumeKeys + [key], volumeRecords := d.volumeRecords[key := NewVolumeBinding]);
      var before := SubmissionPayload(d, baseline).value;
      SubmissionPayload(d', baseline).value
        == before.(persistentVolumeBindings := before.persistentVolumeBindings + [VolumeBindingInput(Num(-1), "")])
  {
    AppendFresh(d.volumeKeys, d.volumeRecords, key, NewVolumeBinding);
    var flat := Flatten(d.volumeKeys, d.volumeRecords);
    assert VolumeBindingInputs(flat + [NewVolumeBinding])
      == VolumeBindingInputs(flat) + [VolumeBindingInput(Num(-1), "")];
  }

  /** Deleting the environment variable at position `i` removes exactly that
      entry from the submitted list; the others keep their order. */
  lemma DeletedEnvironmentVariableIsNotSubmitted(d: Draft, baseline: Option<Application>, i: nat)
    requires d.Valid() && i < |d.envKeys| && baseline.Some?
    ensures d.(envKeys := Without(d.envKeys, d.envKeys[i]), envRecords := d.envRecords - {d.envKeys[i]}).Valid()
    ensures
      var d' := d.(envKeys := Without(d.envKeys, d.envKeys[i]), envRecords := d.envRecords - {d.envKeys[i]});
      var before := SubmissionPayload(d, baseline).value;
      SubmissionPayload(d', baseline).value
        == before.(environmentVariables := before.environmentVariables[..i] + before.environmentVariables[i + 1..])
  {
    Remove(d.envKeys, d.envRecords, d.envKeys[i]);
    RemoveAt(d.envKeys, d.envRecords, i);
    var flat := Flatten(d.envKeys, d.envRecords);
    assert EnvironmentVariableInputs(flat[..i] + flat[i + 1..])
      == EnvironmentVariableInputs(flat)[..i] + EnvironmentVariableInputs(flat)[i + 1..];
  }

  /** Renaming the environment variable at position `i` changes exactly that
      entry's key in the submitted list. */
  lemma RenamedEnvironmentVariableIsSubmitted(d: Draft, baseline: Option<Application>, i: nat, name: string)
    requires d.Valid() && i < |d.envKeys| && baseline.Some?
    ensures
      var key := d.envKeys[i];
      d.(envRecords := d.envRecords[key := d.envRecords[key].(name := name)]).Valid()
    ensures
      var key := d.envKeys[i];
      var d' := d.(envRecords := d.envRecords[key := d.envRecords[key].(name := name)]);
      var before := SubmissionPayload(d, baseline).value;
      SubmissionPayload(d', baseline).value
        == before.(environmentVariables := before.environmentVariables[i := before.environmentVariables[i].(key := name)])
  {
    var key := d.envKeys[i];
    Replace(d.envKeys, d.envRecords, key, d.envRecords[key].(name := name));
  }
}
