# Application configuration updater, modelled in Dafny

This project models the draft-configuration store in
`src/store/applicationUpdater.js`. The store is a per-application store that
lets a user edit a deployed application's configuration before resubmitting it.

The store holds the following:

- two keyed collections, one for environment variables and one for
  persistent-volume bindings. Each is a list of surrogate ids (`keys`) plus a
  dictionary from id to record (`map`);
- the deployment record: mode, replicas and the two memory figures;
- the source record: command, git and image provenance, Dockerfile and
  build args;
- the dirty flag `isConfigurationUpdated`;
- the results of two independent application queries. The *population*
  snapshot seeds the draft. The *baseline* snapshot, fetched without a cache,
  is what the draft is compared against.

It has four operations:

- **Handlers** edit the draft in place. Each then recomputes the dirty flag
  (`triggerUpdateHook`).
- **Reset** rebuilds the draft from the population snapshot and clears the
  flag. Cancel and the query watcher both use it.
- **Change check** compares the draft with the baseline, step by step, and
  stops at the first difference.
- **Submission** builds the update payload. It copies immutable fields from
  the baseline, flattens the collections in editing order, and parses the
  credential ids, sending a parsed `0` as null.

The model files:

- `js_values.dfy`: the JavaScript values the draft holds, and the built-ins
  the store relies on. These are `===`, `String()`, `.toString()` (which
  throws on `null` and `undefined`) and `parseInt` as section 19.2.5 of
  ECMA-262 defines it. A thrown TypeError is a `Completion`.
- `keyed_collection.dfy`: the keyed collection as a class with `keys` and
  `records` fields. The JavaScript field `map` is a Dafny keyword, so it is
  called `records` here. The file also has its invariant and the lemmas about
  flattening it.
- `configuration.dfy`: the snapshot and draft datatypes, and the initial
  values.
- `change_detection.dfy`: the check as a function `IsDirty`, plus the loop
  methods proved equal to its steps.
- `submission.dfy`: the payload and credential normalisation.
- `application_updater.dfy`: the store as a class. Every handler is a method
  whose contract gives the new state and the recomputed flag. Reset and
  submission are stated against `ResetDraft` and `SubmissionPayload`.
- `properties.dfy`: what reset, check and submission promise together.

The model follows the code as written, including the behaviour below.

- **Volume comparison.** The check keys baseline bindings by `binding.key`,
  which the baseline query never fetches. So every fetched binding reads as
  `"undefined"`, and the volume step diverges whenever the counts are equal
  and non-zero, unless a draft volume id itself reads as `"undefined"`
  (`VolumeStepDivergesOnFetchedBindings`). Reset fills in numeric ids, which
  never do (`NumberIsNotUndefinedText`).
- **Git credential.** The check compares `parseInt(draft)` with the raw
  baseline value, and `parseInt(null)` is NaN. A null baseline credential
  therefore always reads as changed. Likewise, the text `"0"` is not equal to
  a null baseline (`ZeroCredentialAgainstUnsetBaseline`).
- **Image credential.** The check compares it unparsed.
- **Missing-baseline guard.** It tests `length === 0` on an object without a
  `length` property, so it never fires (`MissingBaselineGuardNeverFires`).
  Without a baseline, the submission throws a TypeError instead.
- **Build args.** Reset never writes them; only `updateApplicationSource`
  does.
- **Exceptions.** Against a baseline, the check throws exactly when the
  draft's mode equals the baseline's and its replica count is `null` or
  `undefined`; when the modes differ it reports dirty before reaching the
  replicas. Without a baseline it throws exactly when the draft's mode is
  undefined, and otherwise reports dirty (`IsDirty`). A handler whose check
  throws leaves the flag as it was.

Taken together, these make a round trip fail:

- **Reset then check.** A reset followed by a check against the same
  application does not always report clean. It does only when the application
  has no volume bindings, its git credential is set, and the draft's build
  args equal the application's (`CleanAfterResetExactlyWhen`).

A credential id that does not parse as an integer is NaN in the mutation's
input object (`NormalizeUnsetCredential`). JSON serialisation sends NaN as
`null`, so on the wire it arrives as an unset credential.

## Model

| member | source | states |
|---|---|---|
| JsValues.ToStringMatchesDecimal | src/store/applicationUpdater.js:356 | the replica comparison through `toString()` accepts exactly the number and the decimal text of the baseline count (`2` and `"2"` are equal, `2` and `3` are not) |
| JsValues.IntToDecimalInjective | src/store/applicationUpdater.js:356 | two integers print the same decimal text if and only if they are equal |
| JsValues.ParseInt | src/store/applicationUpdater.js:15-16 | `parseInt` always yields an integer or NaN |
| JsValues.ParseUnsignedOfDecimal | src/store/applicationUpdater.js:15-16 | the digit reader of `parseInt` reads a natural number's decimal text back as that number |
| JsValues.ParseIntOfDecimal | src/store/applicationUpdater.js:15-16 | `parseInt` of an integer's decimal text is that integer |
| JsValues.ParseIntOfNumber | src/store/applicationUpdater.js:416 | `parseInt` of an integral number is the number itself |
| JsValues.ParseIntOfNonDigit | src/store/applicationUpdater.js:416 | text starting with anything other than whitespace, a sign or a digit parses to NaN |
| JsValues.ParseIntOfNonNumbers | src/store/applicationUpdater.js:416 | `parseInt` of `null`, `undefined` and NaN is NaN |
| KeyedCollections.KeyedCollection.constructor | src/store/applicationUpdater.js:166-174 | a collection starts empty and consistent |
| KeyedCollections.KeyedCollection.Add | src/store/applicationUpdater.js:202-208 | pushing a fresh id appends exactly that id and its record; the flattened list gains the record at the end; the invariant is kept |
| KeyedCollections.KeyedCollection.Delete | src/store/applicationUpdater.js:212-216 | filtering and deleting an id drops it from both list and dictionary, and the flattened list loses exactly that position with the others in order; an absent id changes nothing |
| KeyedCollections.KeyedCollection.Set | src/store/applicationUpdater.js:220-228 | replacing the record of a present id changes the flattened list at that id's position only |
| KeyedCollections.WithoutMembers | src/store/applicationUpdater.js:214 | the filter keeps exactly the ids other than the removed one |
| KeyedCollections.WithoutAbsent | src/store/applicationUpdater.js:214 | filtering an absent id leaves the list as it is |
| KeyedCollections.WithoutAt | src/store/applicationUpdater.js:214 | filtering the id at a position of a duplicate-free list removes that position and keeps the order of the rest |
| KeyedCollections.WithoutDistinct | src/store/applicationUpdater.js:214 | filtering keeps the ids distinct |
| KeyedCollections.AppendFresh | src/store/applicationUpdater.js:204-208 | appending a fresh id keeps the invariant and appends its record to the flattening |
| KeyedCollections.Remove | src/store/applicationUpdater.js:214-216 | removing an id keeps the invariant; removing an absent id changes nothing |
| KeyedCollections.RemoveAt | src/store/applicationUpdater.js:214-216 | removing the id at a position removes that record from the flattening, order kept |
| KeyedCollections.Replace | src/store/applicationUpdater.js:221 | replacing a record keeps the invariant and changes the flattening at that id's position only |
| KeyedCollections.SeedRecordsAt | src/store/applicationUpdater.js:116-123 | the dictionary the reset loop builds holds exactly the fresh ids, each mapped to its snapshot entry |
| KeyedCollections.SeedRoundTrip | src/store/applicationUpdater.js:116-125 | a collection seeded from a snapshot list is consistent and flattens back to that list |
| ChangeDetection.IsDirty | src/store/applicationUpdater.js:348-467 | the check without a baseline reports dirty unless the draft's mode is undefined (then it throws); with a baseline it throws exactly when the modes agree and the draft's replica count is null or undefined |
| ChangeDetection.FindPairsDivergence | src/store/applicationUpdater.js:382-390 | the count comparison and the early-exit loop over existing keys compute exactly the keyed-list divergence |
| ChangeDetection.FindBuildArgsDivergence | src/store/applicationUpdater.js:458-465 | the key-count comparison and the `for … in` loop compute exactly the build-args divergence |
| ChangeDetection.ObjectFromPairsKeys | src/store/applicationUpdater.js:373-376 | the object the `reduce` builds has exactly the keys of the pairs |
| ChangeDetection.ObjectFromPairsLastWins | src/store/applicationUpdater.js:378-381 | when a name occurs several times, the object holds the value of its last occurrence |
| ChangeDetection.ObjectFromPairsSize | src/store/applicationUpdater.js:373-376 | pairs with distinct keys give an object with one property per pair |
| ChangeDetection.PairsAgreeMeansSubDictionary | src/store/applicationUpdater.js:382-390 | the keyed-list step passes exactly when the counts agree and every existing name maps to the same value in the draft's object |
| ChangeDetection.PairsAgreeIffSameDictionary | src/store/applicationUpdater.js:382-390 | with distinct names on both sides, the step passes exactly when the two objects are equal |
| ChangeDetection.SamePairsSameObject | src/store/applicationUpdater.js:378-381 | two duplicate-free pair lists with the same members build the same object |
| ChangeDetection.ReorderedPairsSameObject | src/store/applicationUpdater.js:377-381 | reordering the draft's ids with distinct names leaves the name-to-value object unchanged |
| ChangeDetection.ReorderingEnvironmentVariablesKeepsVerdict | src/store/applicationUpdater.js:371-390 | reordering environment variables with distinct names does not change the check's result |
| ChangeDetection.BuildArgsDivergeIffUnequal | src/store/applicationUpdater.js:453-466 | the build-args step diverges exactly when the two objects differ |
| ChangeDetection.ReportsCleanExactlyWhen | src/store/applicationUpdater.js:348-467 | the check reports clean if and only if every compared field agrees: replicas as number or decimal text, each baseline name and volume key read back from the draft's objects with equal counts, the parsed git credential, the other source fields, and equal build args |
| ChangeDetection.VolumeStepDivergesOnFetchedBindings | src/store/applicationUpdater.js:392-412 | the baseline bindings' `key` is undefined, so with equal non-zero counts the volume step diverges unless a draft volume id reads as "undefined" |
| ChangeDetection.CountMismatchIsDirty | src/store/applicationUpdater.js:382-406 | once the replica count converts, a draft whose environment-variable or volume count differs from the baseline's is dirty |
| Submission.MergeChangesWithExistingApplicationDetails | src/store/applicationUpdater.js:469-518 | the merge throws exactly when there is no baseline; otherwise it has one entry per environment variable and per volume binding of the draft |
| Submission.NormalizeCredential | src/store/applicationUpdater.js:15-19 | a normalised credential is never 0; it is null exactly when the value parses to 0, and otherwise it is the parsed value |
| Submission.SubmissionPayload | src/store/applicationUpdater.js:13-19 | the submission throws exactly without a baseline, and never sends a credential id 0 |
| Submission.MissingBaselineGuardNeverFires | src/store/applicationUpdater.js:470-473 | the `length === 0` guard never fires, not even without a baseline |
| Submission.NormalizeNumericCredential | src/store/applicationUpdater.js:15-19 | a numeric credential is sent as itself, except 0, which is sent as null |
| Submission.NormalizeTextCredential | src/store/applicationUpdater.js:15-19 | a credential held as a number's decimal text is sent as that number, and "0" as null |
| Submission.NormalizeUnsetCredential | src/store/applicationUpdater.js:15-19 | a null or undefined credential is sent as NaN, not null |
| Submission.AddedEnvironmentVariableIsSubmittedLast | src/store/applicationUpdater.js:493-498 | after adding an environment variable, the payload is the same except for a trailing `{key: '', value: ''}` |
| Submission.AddedVolumeBindingIsSubmittedLast | src/store/applicationUpdater.js:499-504 | after adding a volume binding, the payload is the same except for a trailing `{persistentVolumeID: -1, mountingPath: ''}` |
| Submission.DeletedEnvironmentVariableIsNotSubmitted | src/store/applicationUpdater.js:212-218 | after deleting the variable at a position, the payload lacks exactly that entry, the rest in order |
| Submission.RenamedEnvironmentVariableIsSubmitted | src/store/applicationUpdater.js:220-223 | after renaming the variable at a position, the payload differs only in that entry's key |
| ApplicationUpdater.ResetDraft | src/store/applicationUpdater.js:112-160 | a reset draft is consistent; its collections hold one fresh id per snapshot entry, in snapshot order, and flatten to the snapshot's lists; the build args are not touched |
| ApplicationUpdater.SeedCollection | src/store/applicationUpdater.js:116-125 | the `forEach` loop builds exactly the seeded collection, which is consistent and flattens to the items |
| ApplicationUpdater.ApplicationUpdater.constructor | src/store/applicationUpdater.js:166-200 | the store starts with empty collections, the initial records, a clear flag and no query results |
| ApplicationUpdater.ApplicationUpdater.CheckIfApplicationDetailsAreChanged | src/store/applicationUpdater.js:348-467 | the step-by-step check with its loops computes exactly `IsDirty` of the current draft and baseline |
| ApplicationUpdater.ApplicationUpdater.TriggerUpdateHook | src/store/applicationUpdater.js:290-292 | the flag becomes the check's verdict, or keeps its value when the check throws; nothing else changes |
| ApplicationUpdater.ApplicationUpdater.AddEnvironmentVariable | src/store/applicationUpdater.js:202-210 | the fresh id and `{name: '', value: ''}` are appended, the rest is unchanged, and the flag is recomputed |
| ApplicationUpdater.ApplicationUpdater.DeleteEnvironmentVariable | src/store/applicationUpdater.js:212-218 | the id leaves list and dictionary with the order of the rest kept; an absent id changes nothing in the collection; the flag is recomputed |
| ApplicationUpdater.ApplicationUpdater.OnEnvironmentVariableNameChange | src/store/applicationUpdater.js:220-223 | only the name of the record at the id changes and the flag is recomputed; an absent id throws and changes nothing |
| ApplicationUpdater.ApplicationUpdater.OnEnvironmentVariableValueChange | src/store/applicationUpdater.js:225-228 | only the value of the record at the id changes and the flag is recomputed; an absent id throws and changes nothing |
| ApplicationUpdater.ApplicationUpdater.AddPersistentVolumeBinding | src/store/applicationUpdater.js:230-238 | the fresh id and `{persistentVolumeID: -1, mountingPath: ''}` are appended, the rest is unchanged, and the flag is recomputed |
| ApplicationUpdater.ApplicationUpdater.DeletePersistentVolumeBinding | src/store/applicationUpdater.js:240-246 | the id leaves list and dictionary with the order of the rest kept; an absent id changes nothing in the collection; the flag is recomputed |
| ApplicationUpdater.ApplicationUpdater.OnPersistentVolumeChange | src/store/applicationUpdater.js:248-251 | only the volume id of the record at the id changes and the flag is recomputed; an absent id throws and changes nothing |
| ApplicationUpdater.ApplicationUpdater.OnPersistentVolumeMountingPathChange | src/store/applicationUpdater.js:253-256 | only the mounting path of the record at the id changes and the flag is recomputed; an absent id throws and changes nothing |
| ApplicationUpdater.ApplicationUpdater.OnMemoryLimitChanged | src/store/applicationUpdater.js:275-278 | only the memory limit changes, and the flag is recomputed |
| ApplicationUpdater.ApplicationUpdater.OnMemoryReservedChanged | src/store/applicationUpdater.js:280-283 | only the reserved memory changes, and the flag is recomputed |
| ApplicationUpdater.ApplicationUpdater.ReplicasCountChanged | src/store/applicationUpdater.js:285-287 | the draft is unchanged and the flag is recomputed |
| ApplicationUpdater.ApplicationUpdater.UpdateApplicationSource | src/store/applicationUpdater.js:528-540 | the editor's ten fields replace the source record's under the store's names, provider, endpoint and repository name and owner are kept, and the flag is recomputed |
| ApplicationUpdater.ApplicationUpdater.ResetDetailsToApplicationDetails | src/store/applicationUpdater.js:112-164 | with a population snapshot the draft becomes `ResetDraft` and the flag is cleared; without one the partial reset of `AbortedResetDraft` is left, the flag kept, and the reset throws |
| ApplicationUpdater.ApplicationUpdater.CancelConfigurationChanges | src/store/applicationUpdater.js:26-28 | cancelling is a reset |
| ApplicationUpdater.ApplicationUpdater.OnApplicationDetailsFetched | src/store/applicationUpdater.js:108-110 | a new population result is stored and the draft is reset from it, clearing the flag |
| ApplicationUpdater.ApplicationUpdater.OnApplicationExistingDetailsFetched | src/store/applicationUpdater.js:294-346 | a new baseline result is stored and nothing else changes |
| ApplicationUpdater.ApplicationUpdater.ApplyConfigurationChanges | src/store/applicationUpdater.js:13-19 | the parse-then-null-on-zero steps give exactly `SubmissionPayload` of the current draft and baseline, and the store is not changed |
| Properties.ResetEnvironmentPairs | src/store/applicationUpdater.js:116-123 | after a reset, the draft's name/value pairs are the snapshot's key/value pairs in order |
| Properties.NumberIsNotUndefinedText | src/store/applicationUpdater.js:400 | a numeric volume id never stringifies to "undefined" |
| Properties.PairsAgreeWithThemselves | src/store/applicationUpdater.js:382-390 | a pair list never diverges from itself |
| Properties.CopiedScalarsLeaveThreeSteps | src/store/applicationUpdater.js:352-451 | a draft holding the snapshot's scalars and variables passes every step but the volume, git-credential and build-args steps |
| Properties.ResetVolumeStep | src/store/applicationUpdater.js:392-412 | after a reset the volume step diverges exactly when the snapshot has bindings |
| Properties.CopiedGitCredentialStep | src/store/applicationUpdater.js:415-419 | a git credential copied from the snapshot reads as changed exactly when the snapshot's is null |
| Properties.CleanAfterResetExactlyWhen | src/store/applicationUpdater.js:112-164 | a draft reset from an application, checked against it, is clean exactly when it has no bindings, its git credential is set and the draft's build args equal its own |
| Properties.ResubmittedCredentialIsNormalized | src/store/applicationUpdater.js:15-19 | a snapshot credential comes back as null for 0, itself for other ids, and NaN for null |
| Properties.SubmitAfterResetResendsApplication | src/store/applicationUpdater.js:469-518 | submitting a just-reset draft sends the application field for field, with normalised credentials and the draft's build args |
| Properties.ZeroCredentialAgainstUnsetBaseline | src/store/applicationUpdater.js:415-419 | "0" is submitted as null, yet the check finds it different from a null baseline |
| Properties.MemoryLimitEditOfCleanDraftIsDetected | src/store/applicationUpdater.js:360-362 | changing the memory limit of a clean draft makes it dirty |
| Properties.DockerImageEditOfCleanDraftIsDetected | src/store/applicationUpdater.js:437-439 | changing the docker image of a clean draft makes it dirty |
| Properties.SeededEnvironmentVariablesRoundTrip | src/store/applicationUpdater.js:116-123 | the variables a reset seeds from a snapshot are submitted (`{key: name, value}`) as the snapshot's own list |
| Properties.SeededVolumeBindingsRoundTrip | src/store/applicationUpdater.js:130-137 | the bindings a reset seeds from a snapshot are submitted with the snapshot's volume ids and paths, in order |
| Properties.AbortedResetDraftCheck | src/store/applicationUpdater.js:141-145 | the draft a reset leaves without a population snapshot reads as changed against any baseline, and the check throws without one |

## Left out

- Transport: the Apollo queries and the mutation are left out. The two
  snapshots are `Option<Application>` fields filled by
  `OnApplicationDetailsFetched` and `OnApplicationExistingDetailsFetched`. The
  mutation is a sink that `ApplyConfigurationChanges` returns the payload to.
  Its done and error callbacks are not modelled: the refetch, the navigation
  and the alerts.
- Presentation and routing: `router.push` and every `alert`. The alert of the
  dead missing-baseline guard is unreachable anyway.
- Store wiring: Pinia `defineStore` and Vue reactivity are left out, and so is
  the `gitRepoURL` computed getter, which only reads the baseline's endpoint.
  The watcher is modelled as `OnApplicationDetailsFetched`.
- Key generation: `uuidv4()` values are parameters. Handlers take a fresh key.
  Reset takes the list of distinct ids in call order: first the environment
  variables', then the volume bindings'.
- `changeDeploymentStrategy`: it only shows an alert, and its body is
  commented out.
- `isDeployRequestSubmitting`: a loading flag owned by the library, with no
  logic in the store.
- `tailwind.config.js`: styling configuration, with no logic in it.
- ReplicasCountChanged: the view writes the replica count directly into the
  deployment record, outside any handler. The model keeps the replica count
  as whatever `JsValue` the draft holds, but has no operation that writes it.
- Numbers are integers. Fractional numbers, `-0`, `Infinity` and exponent
  notation in `String(number)` are not modelled.
- Snapshot strings and counts are taken as non-null. Only the two credential
  ids are nullable.
- Property names that collide with `Object.prototype` members (`__proto__`,
  `constructor`, …) behave like ordinary keys here.
- The draft's `buildArgs` is taken to be an object. An undefined or null one
  (for instance from `updateApplicationSource`) would make `Object.keys`
  (line 458) or `Object.entries` (line 487) throw; that path is not modelled.
- ApplicationUpdater.ApplicationUpdater.UpdateApplicationSource: copies the
  build args by value. The store keeps the editor's object by reference
  (line 538), so the editor's later in-place edits reach the store without a
  flag recompute; that aliasing is not modelled.
- `latestDeployment` is taken as non-null in both snapshots. A null one would
  make the reset (lines 147-160), the check (line 416) and the merge
  (line 477) throw; that path is not modelled.
- Submission.Payload: the build args are carried as a map. The order in which
  `Object.entries` lists them is not modelled.
- JSON serialisation: NaN turns into `null` on the wire, but NaN is kept as it
  is here.
- Concurrency: an out-of-order arrival of query results is not modelled
  beyond replacing the stored snapshot.
