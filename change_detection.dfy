/** The dirty check of the store (`checkIfApplicationDetailsAreChanged`):
    compares the draft with the baseline snapshot, which the store fetches by
    a separate, uncached query, and answers whether anything changed. It only
    reads state. `IsDirty` states it as a function of the draft and the
    baseline; the loop methods below compute its steps the way the store's
    `for` loops do. */
module ChangeDetection {
  import opened JsValues
  import opened KeyedCollections
  import opened Configuration

  /** One property written into a plain object used as a dictionary. */
  datatype Property = Property(key: string, value: string)

  /** `pairs.reduce((map, p) => { map[p.key] = p.value; return map }, {})`:
      a plain object built by assigning each pair in turn, so that the last
      pair with a given key wins. */
  function ObjectFromPairs(pairs: seq<Property>): map<string, string>
  {
    if pairs == [] then map[]
    else ObjectFromPairs(pairs[..|pairs| - 1])[pairs[|pairs| - 1].key := pairs[|pairs| - 1].value]
  }

  /** `object[key]`: the property's value, or undefined. */
  function Get(dictionary: map<string, string>, key: string): JsValue
  {
    if key in dictionary then Str(dictionary[key]) else Undefined
  }

  /** No two pairs share a key. */
  predicate DistinctKeys(pairs: seq<Property>)
  {
    forall i, j | 0 <= i < j < |pairs| :: pairs[i].key != pairs[j].key
  }

  /** Every property of `a` is in `b` with the same value. */
  predicate IsSubDictionary(a: map<string, string>, b: map<string, string>)
  {
    forall k | k in a :: k in b && b[k] == a[k]
  }

  /** The keyed-list step, used for environment variables and for volume
      bindings: divergent when the entry counts differ, or when some existing
      entry's key reads differently in the existing and the current object. */
  predicate PairsDiverge(existing: seq<Property>, current: seq<Property>)
  {
    || |existing| != |current|
    || exists i | 0 <= i < |existing| ::
         !StrictEquals(Get(ObjectFromPairs(existing), existing[i].key), Get(ObjectFromPairs(current), existing[i].key))
  }

  /** The build-args step: divergent when the numbers of keys differ, or when
      some existing key reads differently in the draft's object. */
  predicate BuildArgsDiverge(existing: map<string, string>, current: map<string, string>)
  {
    || |existing| != |current|
    || exists key | key in existing :: !StrictEquals(Str(existing[key]), Get(current, key))
  }

  /** The baseline's environment variables as `key`/`value` pairs. */
  function BaselineEnvironmentPairs(app: Application): seq<Property>
  {
    var vars := app.environmentVariables;
    seq(|vars|, i requires 0 <= i < |vars| => Property(vars[i].key, vars[i].value))
  }

  /** The draft's environment variables, in key order, as `name`/`value` pairs. */
  function DraftEnvironmentPairs(d: Draft): seq<Property>
    requires d.Valid()
  {
    seq(|d.envKeys|, i requires 0 <= i < |d.envKeys| =>
      Property(d.envRecords[d.envKeys[i]].name, d.envRecords[d.envKeys[i]].value))
  }

  /** `binding.key` of a fetched volume binding: no query asks for a `key`
      field of a binding, so the property is undefined. `binding` is
      deliberately unused for that reason. */
  function BindingKey(binding: PersistentVolumeBinding): JsValue
  {
    Undefined
  }

  /** The baseline's volume bindings as pairs keyed by `String(binding.key)`. */
  function BaselineVolumePairs(app: Application): seq<Property>
  {
    var bindings := app.persistentVolumeBindings;
    seq(|bindings|, i requires 0 <= i < |bindings| =>
      Property(ToJsString(BindingKey(bindings[i])), bindings[i].mountingPath))
  }

  /** The draft's volume bindings, in key order, as pairs keyed by
      `String(persistentVolumeID)`. */
  function DraftVolumePairs(d: Draft): seq<Property>
    requires d.Valid()
  {
    seq(|d.volumeKeys|, i requires 0 <= i < |d.volumeKeys| =>
      Property(ToJsString(d.volumeRecords[d.volumeKeys[i]].persistentVolumeID),
               d.volumeRecords[d.volumeKeys[i]].mountingPath))
  }

  /** The object `existingBuildArgs` the check builds from the baseline list. */
  function BaselineBuildArgs(app: Application): map<string, string>
  {
    var args := app.latestDeployment.buildArgs;
    ObjectFromPairs(seq(|args|, i requires 0 <= i < |args| => Property(args[i].key, args[i].value)))
  }

  /** The source-configuration comparisons after the git credential, each a
      `!==` between the draft's field and the baseline's. */
  predicate SourceScalarsDiverge(s: SourceConfiguration, app: Application)
  {
    var deployment := app.latestDeployment;
    || !StrictEquals(s.repositoryUrl, Str(deployment.repositoryUrl))
    || !StrictEquals(s.repositoryBranch, Str(deployment.repositoryBranch))
    || !StrictEquals(s.codePath, Str(deployment.codePath))
    || !StrictEquals(s.imageRegistryCredentialID, NullableInt(deployment.imageRegistryCredentialID))
    || !StrictEquals(s.dockerImage, Str(deployment.dockerImage))
    || !StrictEquals(s.command, Str(app.command))
    || !StrictEquals(s.sourceCodeCompressedFileName, Str(deployment.sourceCodeCompressedFileName))
    || !StrictEquals(s.dockerfile, Str(deployment.dockerfile))
  }

  /** `checkIfApplicationDetailsAreChanged()` against the baseline slot (None
      while the baseline query has no result, when the store reads `{}`). The
      steps run in the store's order and stop at the first divergence; a
      TypeError ends the check when it calls `toString()` on an undefined or
      null replica count. Without a baseline the check never reports clean. */
  function IsDirty(d: Draft, baseline: Option<Application>): (r: Completion<bool>)
    requires d.Valid()
    ensures baseline.None? ==> r == if d.deployment.deploymentMode == Undefined then TypeError else Normal(true)
    ensures baseline.Some? ==>
      (r.TypeError? <==> StrictEquals(Str(baseline.value.deploymentMode), d.deployment.deploymentMode)
                         && (d.deployment.replicas.Undefined? || d.deployment.replicas.Null?))
  {
    var mode := if baseline.Some? then Str(baseline.value.deploymentMode) else Undefined;
    if !StrictEquals(mode, d.deployment.deploymentMode) then Normal(true)
    else if baseline.None? then TypeError
    else
      var app := baseline.value;
      var replicas := CallToString(d.deployment.replicas);
      if replicas.TypeError? then TypeError
      else if IntToDecimal(app.replicas) != replicas.value then Normal(true)
      else if !StrictEquals(Num(app.resourceLimitMemoryMb), d.deployment.resourceLimitMemoryMb) then Normal(true)
      else if !StrictEquals(Num(app.reservedResourceMemoryMb), d.deployment.reservedResourceMemoryMb) then Normal(true)
      else if PairsDiverge(BaselineEnvironmentPairs(app), DraftEnvironmentPairs(d)) then Normal(true)
      else if PairsDiverge(BaselineVolumePairs(app), DraftVolumePairs(d)) then Normal(true)
      else if !StrictEquals(ParseInt(d.source.gitCredentialID), NullableInt(app.latestDeployment.gitCredentialID)) then Normal(true)
      else if SourceScalarsDiverge(d.source, app) then Normal(true)
      else Normal(BuildArgsDiverge(BaselineBuildArgs(app), d.source.buildArgs))
  }

  /** The keyed-list step as the store runs it: build both objects, compare
      the counts, then walk the existing keys and stop at the first mismatch. */
  method FindPairsDivergence(existing: seq<Property>, current: seq<Property>) returns (diverged: bool)
    ensures diverged == PairsDiverge(existing, current)
  {
    var existingObject := ObjectFromPairs(existing);
    var currentObject := ObjectFromPairs(current);
    if |existing| != |current| {
      return true;
    }
    for i := 0 to |existing|
      invariant forall j | 0 <= j < i ::
        StrictEquals(Get(existingObject, existing[j].key), Get(currentObject, existing[j].key))
    {
      if !StrictEquals(Get(existingObject, existing[i].key), Get(currentObject, existing[i].key)) {
        return true;
      }
    }
    return false;
  }

  /** The build-args step as the store runs it: compare the key counts, then
      visit the existing keys (`for (const key in existingBuildArgs)`). */
  method FindBuildArgsDivergence(existing: map<string, string>, current: map<string, string>) returns (diverged: bool)
    ensures diverged == BuildArgsDiverge(existing, current)
  {
    if |existing| != |current| {
      return true;
    }
    var pending := existing.Keys;
    while pending != {}
      invariant pending <= existing.Keys
      invariant forall key | key in existing.Keys - pending :: StrictEquals(Str(existing[key]), Get(current, key))
      decreases pending
    {
      var key :| key in pending;
      if !StrictEquals(Str(existing[key]), Get(current, key)) {
        return true;
      }
      pending := pending - {key};
    }
    return false;
  }

  /** The object has exactly the keys of the pairs. */
  lemma {:induction false} ObjectFromPairsKeys(pairs: seq<Property>)
    ensures forall k :: k in ObjectFromPairs(pairs) <==> exists i | 0 <= i < |pairs| :: pairs[i].key == k
    decreases |pairs|
  {
    if pairs != [] {
      var n := |pairs| - 1;
      ObjectFromPairsKeys(pairs[..n]);
      forall k ensures k in ObjectFromPairs(pairs) <==> exists i | 0 <= i < |pairs| :: pairs[i].key == k {
        if k in ObjectFromPairs(pairs) && k != pairs[n].key {
          assert k in ObjectFromPairs(pairs[..n]);
          var i :| 0 <= i < |pairs[..n]| && pairs[..n][i].key == k;
          assert pairs[i].key == k;
        }
        if exists i | 0 <= i < |pairs| :: pairs[i].key == k {
          var i :| 0 <= i < |pairs| && pairs[i].key == k;
          if i < n {
            assert pairs[..n][i].key == k;
          }
        }
      }
    }
  }

  /** The last pair with a given key decides its value. */
  lemma {:induction false} ObjectFromPairsLastWins(pairs: seq<Property>, i: nat)
    requires i < |pairs|
    requires forall j | i < j < |pairs| :: pairs[j].key != pairs[i].key
    ensures pairs[i].key in ObjectFromPairs(pairs) && ObjectFromPairs(pairs)[pairs[i].key] == pairs[i].value
    decreases |pairs|
  {
    var n := |pairs| - 1;
    if i < n {
      assert pairs[..n][i] == pairs[i];
      ObjectFromPairsLastWins(pairs[..n], i);
    }
  }

  /** With distinct keys the object has one property per pair. */
  lemma {:induction false} ObjectFromPairsSize(pairs: seq<Property>)
    requires DistinctKeys(pairs)
    ensures |ObjectFromPairs(pairs)| == |pairs|
    decreases |pairs|
  {
    if pairs != [] {
      var n := |pairs| - 1;
      ObjectFromPairsSize(pairs[..n]);
      ObjectFromPairsKeys(pairs[..n]);
      assert pairs[n].key !in ObjectFromPairs(pairs[..n]);
    }
  }

  /** With equal counts, the keyed-list step passes exactly when every
      existing key maps, in the current object (last entry wins), to the
      value it has in the existing object. */
  lemma PairsAgreeMeansSubDictionary(existing: seq<Property>, current: seq<Property>)
    ensures !PairsDiverge(existing, current) <==>
      |existing| == |current| && IsSubDictionary(ObjectFromPairs(existing), ObjectFromPairs(current))
  {
    var e := ObjectFromPairs(existing);
    var c := ObjectFromPairs(current);
    ObjectFromPairsKeys(existing);
    if !PairsDiverge(existing, current) {
      forall k | k in e ensures k in c && c[k] == e[k] {
        var i :| 0 <= i < |existing| && existing[i].key == k;
        assert StrictEquals(Get(e, existing[i].key), Get(c, existing[i].key));
      }
    }
    if |existing| == |current| && IsSubDictionary(e, c) {
      forall i | 0 <= i < |existing| ensures StrictEquals(Get(e, existing[i].key), Get(c, existing[i].key)) {
        assert existing[i].key in e;
      }
    }
  }

  lemma SubsetOfSameSize<T>(a: set<T>, b: set<T>)
    requires a <= b && |a| == |b|
    ensures a == b
  {
    assert b == a + (b - a);
    assert a * (b - a) == {};
    assert |b - a| == 0;
  }

  /** When neither side repeats a key, the keyed-list step passes exactly when
      the two objects are equal: the comparison is by business key, not by
      position. */
  lemma PairsAgreeIffSameDictionary(existing: seq<Property>, current: seq<Property>)
    requires DistinctKeys(existing) && DistinctKeys(current)
    ensures !PairsDiverge(existing, current) <==> ObjectFromPairs(existing) == ObjectFromPairs(current)
  {
    var e := ObjectFromPairs(existing);
    var c := ObjectFromPairs(current);
    PairsAgreeMeansSubDictionary(existing, current);
    ObjectFromPairsSize(existing);
    ObjectFromPairsSize(current);
    if !PairsDiverge(existing, current) {
      assert |e.Keys| == |c.Keys| by {
        assert |e| == |e.Keys| && |c| == |c.Keys|;
      }
      SubsetOfSameSize(e.Keys, c.Keys);
    }
  }

  /** Two lists of the same pairs, each without repeated keys, build the same
      object whatever their order. */
  lemma SamePairsSameObject(p: seq<Property>, q: seq<Property>)
    requires DistinctKeys(p) && DistinctKeys(q)
    requires forall x :: x in p <==> x in q
    ensures ObjectFromPairs(p) == ObjectFromPairs(q)
  {
    ObjectFromPairsKeys(p);
    ObjectFromPairsKeys(q);
    forall i | 0 <= i < |p| ensures ObjectFromPairs(p)[p[i].key] == p[i].value {
      ObjectFromPairsLastWins(p, i);
    }
    forall j | 0 <= j < |q| ensures ObjectFromPairs(q)[q[j].key] == q[j].value {
      ObjectFromPairsLastWins(q, j);
    }
    forall k | k in ObjectFromPairs(p) ensures k in ObjectFromPairs(q) && ObjectFromPairs(q)[k] == ObjectFromPairs(p)[k] {
      var i :| 0 <= i < |p| && p[i].key == k;
      assert p[i] in q;
      var j :| 0 <= j < |q| && q[j] == p[i];
    }
    forall k | k in ObjectFromPairs(q) ensures k in ObjectFromPairs(p) {
      var j :| 0 <= j < |q| && q[j].key == k;
      assert q[j] in p;
      var i :| 0 <= i < |p| && p[i] == q[j];
    }
  }

  /** No two environment variables of the draft have the same name. */
  ghost predicate DistinctNames(records: map<Key, EnvironmentVariableDraft>)
  {
    forall k1, k2 | k1 in records && k2 in records && k1 != k2 :: records[k1].name != records[k2].name
  }

  /** Reordering the ids of environment variables with distinct names gives
      pairs that build the same object. */
  lemma ReorderedPairsSameObject(d: Draft, order: seq<Key>)
    requires d.Valid() && DistinctNames(d.envRecords)
    requires Distinct(order) && |order| == |d.envKeys| && forall k :: k in order <==> k in d.envKeys
    ensures d.(envKeys := order).Valid()
    ensures ObjectFromPairs(DraftEnvironmentPairs(d.(envKeys := order))) == ObjectFromPairs(DraftEnvironmentPairs(d))
  {
    var d' := d.(envKeys := order);
    assert d'.Valid();
    var p := DraftEnvironmentPairs(d);
    var q := DraftEnvironmentPairs(d');
    forall i, j | 0 <= i < j < |p| ensures p[i].key != p[j].key {
      assert d.envKeys[i] != d.envKeys[j];
    }
    forall i, j | 0 <= i < j < |q| ensures q[i].key != q[j].key {
      assert order[i] != order[j];
    }
    forall x ensures x in p <==> x in q {
      if x in p {
        var i :| 0 <= i < |p| && p[i] == x;
        var key := d.envKeys[i];
        assert key in d.envKeys;
        assert key in order;
        var j :| 0 <= j < |order| && order[j] == key;
        assert q[j] == x;
      }
      if x in q {
        var j :| 0 <= j < |q| && q[j] == x;
        var key := order[j];
        assert key in order;
        assert key in d.envKeys;
        var i :| 0 <= i < |d.envKeys| && d.envKeys[i] == key;
        assert p[i] == x;
      }
    }
    SamePairsSameObject(p, q);
  }

  /** Reordering the draft's environment variables, when their names are
      distinct, does not change the verdict. */
  lemma ReorderingEnvironmentVariablesKeepsVerdict(d: Draft, order: seq<Key>, baseline: Option<Application>)
    requires d.Valid() && DistinctNames(d.envRecords)
    requires Distinct(order) && |order| == |d.envKeys| && forall k :: k in order <==> k in d.envKeys
    ensures d.(envKeys := order).Valid()
    ensures IsDirty(d.(envKeys := order), baseline) == IsDirty(d, baseline)
  {
    ReorderedPairsSameObject(d, order);
    var d' := d.(envKeys := order);
    if baseline.Some? {
      var e := BaselineEnvironmentPairs(baseline.value);
      assert |DraftEnvironmentPairs(d')| == |DraftEnvironmentPairs(d)|;
      assert PairsDiverge(e, DraftEnvironmentPairs(d')) == PairsDiverge(e, DraftEnvironmentPairs(d));
      assert DraftVolumePairs(d') == DraftVolumePairs(d);
    }
  }

  /** The build-args step diverges exactly when the draft's object differs
      from the baseline's. */
  lemma BuildArgsDivergeIffUnequal(existing: map<string, string>, current: map<string, string>)
    ensures BuildArgsDiverge(existing, current) <==> existing != current
  {
    if !BuildArgsDiverge(existing, current) {
      forall key | key in existing ensures key in current && current[key] == existing[key] {
        assert StrictEquals(Str(existing[key]), Get(current, key));
      }
      SubsetOfSameSize(existing.Keys, current.Keys);
    }
  }

  /** The check reports clean exactly when every compared field agrees:
      replicas as the number or its decimal text, every baseline environment
      variable and volume entry read back from the draft's objects, the parsed
      git credential equal to the baseline's, the other source fields equal,
      and the draft's build args equal to the baseline's as objects. */
  lemma ReportsCleanExactlyWhen(d: Draft, app: Application)
    requires d.Valid()
    ensures IsDirty(d, Some(app)) == Normal(false) <==>
      && d.deployment.deploymentMode == Str(app.deploymentMode)
      && (d.deployment.replicas == Num(app.replicas) || d.deployment.replicas == Str(IntToDecimal(app.replicas)))
      && d.deployment.resourceLimitMemoryMb == Num(app.resourceLimitMemoryMb)
      && d.deployment.reservedResourceMemoryMb == Num(app.reservedResourceMemoryMb)
      && |d.envKeys| == |app.environmentVariables|
      && IsSubDictionary(ObjectFromPairs(BaselineEnvironmentPairs(app)), ObjectFromPairs(DraftEnvironmentPairs(d)))
      && |d.volumeKeys| == |app.persistentVolumeBindings|
      && IsSubDictionary(ObjectFromPairs(BaselineVolumePairs(app)), ObjectFromPairs(DraftVolumePairs(d)))
      && ParseInt(d.source.gitCredentialID) == NullableInt(app.latestDeployment.gitCredentialID)
      && d.source.repositoryUrl == Str(app.latestDeployment.repositoryUrl)
      && d.source.repositoryBranch == Str(app.latestDeployment.repositoryBranch)
      && d.source.codePath == Str(app.latestDeployment.codePath)
      && d.source.imageRegistryCredentialID == NullableInt(app.latestDeployment.imageRegistryCredentialID)
      && d.source.dockerImage == Str(app.latestDeployment.dockerImage)
      && d.source.command == Str(app.command)
      && d.source.sourceCodeCompressedFileName == Str(app.latestDeployment.sourceCodeCompressedFileName)
      && d.source.dockerfile == Str(app.latestDeployment.dockerfile)
      && d.source.buildArgs == BaselineBuildArgs(app)
  {
    ToStringMatchesDecimal(d.deployment.replicas, app.replicas);
    PairsAgreeMeansSubDictionary(BaselineEnvironmentPairs(app), DraftEnvironmentPairs(d));
    PairsAgreeMeansSubDictionary(BaselineVolumePairs(app), DraftVolumePairs(d));
    BuildArgsDivergeIffUnequal(BaselineBuildArgs(app), d.source.buildArgs);
  }

  /** The volume step reads `binding.key`, which is undefined, so both the
      existing keys and the existing object's only property are "undefined".
      With equal, non-zero counts the step therefore diverges unless some draft
      binding's volume id reads as the text "undefined". */
  lemma VolumeStepDivergesOnFetchedBindings(d: Draft, app: Application)
    requires d.Valid() && |d.volumeKeys| == |app.persistentVolumeBindings| > 0
    requires forall k | k in d.volumeRecords :: ToJsString(d.volumeRecords[k].persistentVolumeID) != "undefined"
    ensures PairsDiverge(BaselineVolumePairs(app), DraftVolumePairs(d))
  {
    var e := BaselineVolumePairs(app);
    var c := DraftVolumePairs(d);
    ObjectFromPairsKeys(e);
    ObjectFromPairsKeys(c);
    assert e[0].key == "undefined";
    assert "undefined" !in ObjectFromPairs(c);
    assert !StrictEquals(Get(ObjectFromPairs(e), e[0].key), Get(ObjectFromPairs(c), e[0].key));
  }

  /** Once the replica count can be converted, a draft whose entry counts
      differ from the baseline's is reported dirty. */
  lemma CountMismatchIsDirty(d: Draft, app: Application)
    requires d.Valid() && CallToString(d.deployment.replicas).Normal?
    requires |d.envKeys| != |app.environmentVariables| || |d.volumeKeys| != |app.persistentVolumeBindings|
    ensures IsDirty(d, Some(app)) == Normal(true)
  {
  }
}
