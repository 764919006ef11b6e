# rke2-patcher, modelled and proved

rke2-patcher replaces the image tags of RKE2's bundled components. It writes the new tag into a component's
`HelmChartConfig`, either from the command line (with a record of its patches in a ConfigMap) or from a controller
that reconciles `ImagePatch` objects. This project models both, from the values trees up to whole runs of the
controller in a cluster that users, upgrades, crashes and other writers keep changing, and proves what a cluster
administrator relies on.

## What is modelled

| file | what it models |
|---|---|
| `text.dfy` | the string operations used: order, trimming, searching, splitting, numbers, letter case |
| `values.dfy`, `compare.dfy` | values trees; merging, subtracting and comparing them, and the laws between these |
| `components.dfy`, `patcher.dfy` | the component table, the values generated for a tag, and the patcher's loops over trees |
| `indent.dfy` | the passes that indent and de-indent a block of values |
| `tags.dfy`, `releases.dfy`, `window.dfy`, `selection.dfy` | release tags and their order, what makes one newer, the calendar and the 45-day window, the selection of a target |
| `clistate.dfy`, `writers.dfy`, `calls.dfy` | the recorded CLI patches, and the retry loop that updates them: one writer call by call, any number of writers at once, and what one call of many commits |
| `framing.dfy` | the text that a batch scan prints, and the parser that reads it back |
| `cluster.dfy` | the objects the controller works on, and what one pass decides and does |
| `protocol.dfy` | the same pass as steps, one for each read and each write, with everybody else moving in between |
| `safety.dfy`, `upgrade.dfy`, `layout.dfy`, `preserve.dfy` | invariants of every run: ownership marks, the revert marker, disjoint leaves, user values |
| `pass.dfy`, `reconciler.dfy` | the steps of an undisturbed pass add up to the whole pass; the controller's methods do the same |
| `convergence.dfy`, `rewrites.dfy` | passes settle from any state after two rounds; how often one ImagePatch is written on the way |
| `history.dfy`, `records.dfy` | the tags that are written and recorded: by one pass, and along every run, read and write by read and write |
| `images.dfy`, `guards.dfy` | along every run: which image a write names, that it overwrites no user value, why a patch is stripped, who sets the marker |
| `outcomes.dfy` | what one undisturbed pass leaves, case by case, in terms of what it finds |
| `scenes.dfy`, `backward.dfy`, `races.dfy`, `limits.dfy` | runs from the initial state that end where a promise fails |
| `modes.dfy`, `commands.dfy` | the two commands of the CLI that change a cluster, beside the controller; what each of them leaves |

### How to read the controller model

A `World` holds the RKE2 version, the CLI state, the ImagePatches (with generation, finalizer, revert marker and
applied tag), the HelmChartConfigs (with their values and ownership marks) and, in `out`, everything a pass reads from
elsewhere: charts, published tags, zero day, running images, prime mode. `AfterPass` says what an undisturbed pass
does. `Protocol.Step` is one read or one write of it. A run interleaves these steps with `Move`s: a pass starts or the
process crashes; users create, edit, touch and delete ImagePatches and remove markers; users write any values to a
HelmChartConfig, drop marks, or delete it; the RKE2 version, the CLI state and everything in `out` change. There is no
fairness assumption and no bound on anything. `World.clock` hands out resource versions, which are never reused, so a
write that expects a version fails when anybody got in between.

`Cluster.TheRules`, `Convergence.Passer`, `Tags.Parser` and `Patcher.Stripper` are functions of the model as values:
their contracts say that they equal the patcher's and the policy's functions, a pass, the tag parser, and the removal of
a registry host. Proofs that only need the results use the values and do not look into the functions.

### Assumptions

- One worker reconciles at a time, and it reads the latest ImagePatch.
- A HelmChartConfig write succeeds only on the resource version it was computed from, or when it creates the object.
- Only the controller writes ownership marks, revert markers and finalizers. Users may remove marks and markers.
- A failed call ends the pass, like a crash. The status written for a failed pass changes conditions, which are not modelled.
- YAML parsing and printing are inverse to each other, and mergo's merge with override is the right-biased merge of maps.
- Disjoint ownership, and the single write of `AtMostOneWrite`, assume that every RKE2 version keeps its charts. Nothing
  else needs this.
- In `modes.dfy` every CLI command is one step. A pass may still be cut off after any of its steps.

### What turned out not to hold

Each of these is proved, with the exact condition or a concrete case.

- **Ownership can overlap after an upgrade.** A pass reads the RKE2 version and then the chart (controller lines
  205-217). If an upgrade comes in between, the pass checks the new chart and marks its values with the old version, so
  that the version check of the other marks passes as well. `OwnershipCanOverlap` is a run from the initial state, with
  fixed charts for every version, that ends with `rke2-coredns` and `rke2-dns-node-cache` owning the same leaves of one
  HelmChartConfig. `OverlapIs` says that no other pair can, and `DisjointOwnership` that it takes such a race.
- **One ImagePatch can cause two writes.** With no user, upgrade or crash in between, a pass that has written the
  HelmChartConfig can be followed by another write for the same ImagePatch: the values of `rke2-coredns` and
  `rke2-dns-node-cache` are at the same place, and finalizing one strips what the other has just applied.
  `WritesAgainIff` has the exact condition, from any state: the pass applies, and the other component is being deleted
  and still managed. `SecondWriteIsReached` is a run that ends there, `AtMostTwoWrites` says that there is no third write,
  and `AtMostOneWrite` that there is no second one in a state without a race before it (`ReachableIsSound`).
- **Applied tags can go back.** The rule that a target is not older than the applied tag is only checked on the way to
  an apply. A pass that finds the values for an older `spec.tag` already in place records that tag without the check
  (controller lines 303-317), and from then on tags between the two are accepted. `RecordStepsBackIffAdopted` has the
  exact condition before a pass, `RecordStepsBackIff` says that along a run this is the only way, `TagsCanGoBack` gives
  such a run, and `TagsDoNotGoBack` is the guarantee without it.
- **A marker does not always end in a revert.** A pass that finds the marker of the current generation leaves the
  component managed if it is stopped before it looks at the marker: outside prime mode, while CLI patches exist, or when
  the chart layout no longer fits (`MarkerPassEnds`). `MarkerPassMayLeaveManaged` is a run in which that happens: the
  marker is stored after an upgrade, the process crashes before the revert, and prime mode is switched off.
- **Drift is not always corrected.** A patch whose values were removed by hand is put back only if its tag would still
  be accepted as a new target: still published, still inside the window, and no other component stale
  (`DriftIsCorrected` has the exact condition, `DriftMayStay` a run).
- **A batch scan of one image always fails.** The script frames its output only for two or more images, the parser
  expects frames, so the image is reported as missing (`SingleImageIsMissing`).
- **An unterminated report loses its exit code.** If trivy's output does not end in a line break, the exit code marker
  is glued to its last line and the image is reported as missing (`RoundTrip`, `ReportsArrive`).
- **A removed baseline tag can come back.** `Persist` keeps the entry it has filled in between attempts. After a
  conflict with a removal, the new entry carries the baseline tag of the removed one: exactly when the last baseline
  tag that a load of the call has seen is not its own and is gone when it commits (`RevivesIff`).
  `RemovedBaselineComesBack` is such a run.

## Model

| member | source | states |
|---|---|---|
| Values.MergeExact | internal/patcher/helmchartconfig.go:184-197 | at every path, a merge holds the generated leaf, the old end if no generated leaf is above, at or below it, and nothing else |
| Values.SubtractExact | internal/patcher/helmchartconfig.go:415-441 | at every path, a subtraction leaves the old end unless a removed leaf is above, at or below it; emptied maps are gone |
| Values.EndsDetermine | internal/patcher/helmchartconfig.go:415-441 | two trees with the same scalars and empty maps at the same paths are the same tree |
| Values.RevertAfterPatch | internal/patcher/helmchartconfig.go:357-441 | patching and reverting leaves what reverting alone would have left, whatever tag was patched |
| Values.RevertAfterPatches | internal/patcher/helmchartconfig.go:357-441 | any number of patches of a component with any tags, then one revert: the original minus the generated leaves and the maps this empties |
| Values.RevertRestores | internal/controller/imagepatch_controller.go:469-487 | a revert gives back the original if and only if the user had no scalar and no empty map above, at or below a generated leaf |
| Values.RevertTwice | internal/controller/imagepatch_controller.go:469-487 | a second revert changes nothing |
| Values.RevertsCommute | internal/patcher/helmchartconfig.go:415-441 | reverts of two components may be done in either order |
| Values.PatchesCommute | internal/patcher/helmchartconfig.go:184-197 | patches of components with disjoint leaves may be done in either order |
| Values.PatchAndRevertCommute | internal/patcher/helmchartconfig.go:184-441 | a patch of one component and a revert of another with disjoint leaves may be done in either order |
| Values.LastPatchWins | internal/patcher/helmchartconfig.go:184-197 | a later patch of a component leaves no trace of an earlier one |
| Comparison.AtMerge | internal/patcher/helmchartconfig.go:184-197 | the node, map or scalar, that a merge holds at each path, including where a scalar replaces a map and the other way round |
| Comparison.PresentMeansNothingToDo | internal/patcher/values_compare.go:41-72 | generated values are present if and only if merging them changes nothing but the spelling of scalars |
| Comparison.NoConflictMeansKept | internal/patcher/values_compare.go:41-72 | there is no conflict if and only if merging keeps every value the user already has |
| Comparison.MergeMakesPresent | internal/patcher/values_compare.go:41-72 | after a merge the generated values are present and nothing conflicts |
| Components.GeneratedLeaves | internal/patcher/helmchartconfig.go:457-513 | the leaves generated for a component are exactly its tag paths, holding the tag, and its repository paths, holding the repository |
| Components.GeneratedShape | internal/patcher/helmchartconfig.go:457-513 | generated values have no empty map and live under one top-level key of the component |
| Patcher.DeepSubtractMap | internal/patcher/helmchartconfig.go:415-441 | the loop that deletes keys computes the subtraction that SubtractExact describes |
| Patcher.CompareLeaves | internal/patcher/values_compare.go:41-72 | the loop clears the flag unless every generated leaf is present, and appends every conflicting path once, below the given prefix |
| Patcher.CollectSentinelPaths | internal/patcher/bundled.go:33-45 | exactly the paths that hold the sentinel are appended, each once |
| Patcher.SentinelMarksTagPaths | internal/patcher/bundled.go:17-30 | generating with the sentinel as tag marks exactly the places where a tag of the component is written |
| Patcher.LookupString | internal/patcher/bundled.go:103-118 | the loop reads the trimmed text at a path, and nothing for a missing or null value |
| Patcher.ImageTag | internal/patcher/bundled.go:51-78 | the tag of one image, if and only if it is set and stands next to the component's repository |
| Patcher.BundledImageTag | internal/patcher/bundled.go:51-78 | a tag is returned that all images of the component have next to its repository, or there is no such tag |
| Patcher.BundledTagIs | internal/patcher/bundled.go:51-78 | a chart's bundled tag is t if and only if every image of the component has t next to the component's repository |
| Patcher.BundledTagReads | internal/patcher/bundled.go:51-78 | a chart has the bundled tag t if and only if t is not empty and is the text at every tag path of the component, next to a repository that is the component's once its registry host is dropped |
| Patcher.PatchedTagReadsBack | internal/patcher/bundled.go:82-118 | after merging the values for a tag over any user tree, every tag path of the component reads that tag |
| Patcher.GeneratedArePlain | internal/patcher/helmchartconfig.go:457-513 | the laws of comparing apply to generated values exactly when neither repository nor tag reads like a printed map |
| Patcher.SharedImageSharesRepository | internal/patcher/bundled.go:65-74 | two components that write next to each other fit a chart together only if their repositories are equal |
| Patcher.WithoutRegistryByParts | internal/patcher/helmchartconfig.go:515-528 | cutting an image name at its first slash equals splitting it, dropping the host and joining the rest |
| Patcher.OnlyHostsAreStripped | internal/patcher/helmchartconfig.go:515-528 | what is in front of the first slash is dropped if it has a dot or a colon or is localhost, in any letter case, and otherwise the name stays |
| Indentation.CheckIndentation | internal/patcher/helmchartconfig.go:222-236 | true if and only if every line that is not blank starts with four spaces |
| Indentation.EnsureProperIndentation | internal/patcher/helmchartconfig.go:203-218 | the loop computes the block that EnsureIndents and EnsureKeepsShape are about |
| Indentation.DeindentValuesContent | internal/patcher/helmchartconfig.go:265-294 | the loop computes the block that DeindentTakesALayer and DeindentKeepsShape are about |
| Indentation.ProperMeans | internal/patcher/helmchartconfig.go:222-236 | a text counts as indented if and only if each of its lines that is not blank has four spaces in front |
| Indentation.EnsureIndents | internal/patcher/helmchartconfig.go:203-218 | the result is always indented; if the text was not, it is four spaces and each line that is not blank, and otherwise the same lines |
| Indentation.DeindentTakesALayer | internal/patcher/helmchartconfig.go:265-294 | an indented text loses four spaces in front of each line that is not blank; any other text stays |
| Indentation.EnsureKeepsShape | internal/patcher/helmchartconfig.go:203-218 | indenting keeps all lines that are not blank, in order, and the differences between their indentations |
| Indentation.DeindentKeepsShape | internal/patcher/helmchartconfig.go:265-294 | so does de-indenting |
| Indentation.PassesKeepShape | internal/patcher/helmchartconfig.go:203-294 | so does indenting followed by any number of de-indenting passes, for every text |
| Indentation.DeindentUndoesEnsure | internal/patcher/helmchartconfig.go:265-294 | de-indenting a block that was indented gives the block back |
| Tags.SplitFlavorLoop | internal/policy/tags.go:135-160 | the base ends in no digit, all that follows are digits, and they are the number; without trailing digits that make a 64-bit number the flavor stays whole |
| Tags.ParseRendered | internal/policy/tags.go:58-133 | printing a version, flavor and build number and parsing the text gives all of them back |
| Releases.ParsePrinted | internal/policy/tags.go:58-133 | so does printing without a build number, which is then 0, if the flavor holds no build marker, ends in no space and not like a signature or attestation |
| Releases.ParsedName | internal/policy/tags.go:58-133 | and whatever parses is, trimmed, a v, three numbers with dots in between, the flavor after a dash, and the build number after the last build marker |
| Tags.CompareTagsTotal | internal/policy/tags.go:163-186 | the comparison is antisymmetric, and zero only for equal tags |
| Tags.CompareTagsTransitive | internal/policy/tags.go:163-186 | the comparison is transitive |
| Tags.CompareTagsMeans | internal/policy/tags.go:163-186 | a tag is newer if and only if it has more of the first field in which the two differ: build, major, minor, patch, flavor base, flavor number, flavor, name; of two texts, the one with the greater character at the first difference, or the longer one |
| Releases.LaterIsNewer | internal/policy/tags.go:163-186 | of two printed releases of one such flavor, with or without build numbers, one is newer if and only if its build is later, or its version is higher and the builds are the same |
| Tags.EqualOnlyByName | internal/policy/tags.go:163-186 | two published names compare equal if and only if they are the same trimmed name |
| Tags.OrderTags | internal/policy/tags.go:28-55 | the list holds exactly the trimmed parseable names, and each has more than any that follows it of the first field in which the two differ |
| Tags.NewestFirstUnique | internal/policy/tags.go:28-55 | there is only one strictly newest-first list of given names |
| Tags.OrderIgnoresInputOrder | internal/policy/tags.go:28-55 | the ordered list does not depend on the order or repetition of the registry's answer |
| Policy.NextDayCounts | internal/policy/window.go:45-67 | the day number of the next calendar day is one higher, through leap years and month ends |
| Policy.AddDaysCounts | internal/policy/window.go:45-67 | adding n calendar days adds n to the day number |
| Policy.StampOrder | internal/policy/tags.go:207-219 | comparing dates as numbers yyyymmdd is comparing days |
| Policy.DateOfBuildIs | internal/policy/tags.go:207-219 | a build number is dated if and only if it spells a calendar date |
| Policy.WindowIs45Days | internal/policy/window.go:45-67 | a target is accepted if and only if the component is rke2-ingress-nginx or the build day is at most 45 days after the zero day; the build number alone decides that; what has no build date is refused as unparsable |
| Policy.ValidateExplicitTargetLoop | internal/policy/window.go:71-84 | the loop refuses exactly what is not published or fails against the baseline |
| Policy.BaselineRule | internal/policy/window.go:103-121 | of two tags that parse, the target is refused as not newer unless it is ahead in the order of tags, then as another line unless major and minor are the same, and else allowed |
| Selection.ResolveTarget | internal/cmd/tags.go:88-137 | on the ordered list, an explicit target is accepted exactly when the controller's rule accepts it there; without one the least newer tag is picked if and only if its major version is lower than the current one or equal with no higher minor version; the refusals say when a tag is missing, running, older or the latest |
| Selection.PickTarget | internal/cmd/tags.go:88-127 | the search by position finds an explicit target unless it is missing, running or older, and the least newer tag unless the current one is the latest |
| Selection.ResolvePublished | internal/cmd/tags.go:72-137 | on the registry's answer as it is: an explicit target is accepted exactly when it is listed, trimmed, and passes against the current tag; the controller's check of the same answer agrees if and only if the target is listed trimmed just when it is listed as it is, or fails against the current tag; without a target the least newer tag is picked if and only if it is on no newer major/minor line than the current one |
| Selection.TrimmedNamesAgree | internal/policy/window.go:71-84 | where no published name has space around it, the two agree on every tag |
| Selection.AcceptedIsNewer | internal/policy/window.go:103-121 | the controller's rule accepts exactly the newer tags of the same minor line |
| Selection.NextIsBefore | internal/cmd/tags.go:99-110 | in the newest-first list, the least newer tag stands right before the current one |
| Selection.SelectTagsForListing | internal/cmd/tags.go:30-65 | the listing is everything newer than the current tag, the current tag and one previous tag |
| Selection.SplitByPatchWindow | internal/cmd/patch_window.go:38-70 | the listing is partitioned in order; the current and the previous tag are always kept |
| Selection.BlockedIsPrefix | internal/cmd/patch_window.go:38-70 | in a newest-first listing of dated tags, the blocked ones are a prefix |
| Selection.ListAndSplit | internal/cmd/patch_window.go:38-70 | from the published tags to the screen: of what is listed around the current tag, exactly the tags outside the window are blocked, and if the listed tags are dated they come first |
| CliState.RunMutation | internal/clistate/state.go:165-194 | the closures of Persist and RemoveEntries compute the next state, or report that nothing changes, and say what is kept for another attempt |
| CliState.StaleKeys | internal/clistate/state.go:119-127 | exactly the keys of entries recorded on another RKE2 version |
| CliState.KeysAreApart | internal/clistate/state.go:103-105 | entries of different components or versions have different keys |
| CliState.PersistMeans | internal/clistate/state.go:165-180 | Persist records the target, and its baseline tag unless one is recorded; it changes nothing if and only if both are recorded already |
| CliState.RemoveMeans | internal/clistate/state.go:182-194 | exactly the named entries go; nothing changes if and only if none of them is there |
| CliState.BaselineIsSticky | internal/clistate/state.go:165-180 | over any later mutations, a recorded baseline tag stays until its entry is removed |
| CliState.OtherEntriesStay | internal/clistate/state.go:165-194 | a mutation leaves every entry it does not name as it was |
| CliState.StateStore.Load | internal/kube/state_configmap.go:31-50 | what is stored, and its resource version |
| CliState.StateStore.Save | internal/kube/state_configmap.go:55-101 | commits exactly once, on the state that was loaded, and always if no other event comes in; a conflict means that somebody else got in, and a failure that somebody has deleted the ConfigMap |
| CliState.StateStore.Attempt | internal/clistate/state.go:132-157 | one attempt commits on the state it loaded, finds nothing to change, fails because somebody has deleted the ConfigMap, or conflicts because somebody else got in; if nobody does, it commits what changes the state and reports the rest as unchanged |
| CliState.StateStore.Update | internal/clistate/state.go:131-162 | commits the mutation once or not at all, on the state it is committed to; without other events it commits what changes the state and reports the rest as unchanged; failing means that somebody has deleted the ConfigMap, giving up means at least five foreign events during the call; it makes at most fifteen calls |
| Writers.RunsKeep | internal/clistate/state.go:131-162 | with any number of writers, every pending write was computed from what is stored unless that has changed since |
| Writers.NoLostUpdate | internal/clistate/state.go:131-162 | in every reachable state the ConfigMap is the fold of the committed mutations in commit order |
| Writers.GivingUpMeansContention | internal/clistate/state.go:131-162 | a call that ended after its retries has seen five foreign writes of the ConfigMap since it started, writes that leave the record alone included |
| Writers.UndisturbedCommits | internal/clistate/state.go:131-162 | three calls of one writer in a row store its mutation and end committed, or end at once if there is nothing to change |
| Writers.FailsIff | internal/kube/state_configmap.go:85-101 | a call fails at a step if and only if the ConfigMap it is about to update is gone |
| Writers.BaselinesStay | internal/clistate/state.go:165-180 | along any run a recorded baseline tag changes only after its entry was removed |
| Calls.CommitsOnce | internal/clistate/state.go:131-162 | in every run, a call that ended committed has exactly one event of its own since it started, the mutation it was started with up to the baseline tag; any other call has none |
| Calls.CommittedBaseline | internal/clistate/state.go:165-180 | the entry a Persist writes is its own with the last baseline tag that its loads have seen; what is still recorded when it commits stays |
| Calls.RevivesIff | internal/clistate/state.go:165-180 | a Persist writes a baseline tag that is neither recorded any more nor its own if and only if none is recorded when it commits and the last one its loads have seen is another |
| Calls.RemovedBaselineComesBack | internal/clistate/state.go:131-180 | a run of two writers in which a removed baseline tag is written again |
| Framing.FrameReads | internal/kube/cve_job.go:237-252 | the lines of one image's frame are read as its markers and its output, also for names with double underscores |
| Framing.ParseLog | internal/cve/scanner.go:112-162 | the line loop computes the parse of the whole log, and fails on a malformed marker or an overlong line |
| Framing.ParseKeeps | internal/cve/scanner.go:112-162 | for any order of markers, the parser keeps for each image the lines for which its begin marker is the last one and no end marker of it follows, and its last exit code |
| Framing.ParseRefusesIff | internal/cve/scanner.go:134-162 | a log is refused if and only if a line is too long or an exit code marker has no image or no number |
| Framing.RoundTrip | internal/cve/scanner.go:112-162 | for two or more images the parser recovers every output, and every exit code exactly when the output is empty or ends in a line break |
| Framing.Collect | internal/cve/scanner.go:164-191 | every target lands in exactly one of results and errors: it has a result if and only if its exit code is 0 and its trimmed output is a report, and then that report; the error is a missing exit code, the printed text of a failed scan, its exit code if that is blank, or an output that is no report |
| Framing.ParseBatch | internal/cve/scanner.go:112-191 | the log is parsed and every target collected, or the log is refused and nothing is returned |
| Framing.ReportsArrive | internal/cve/scanner.go:112-191 | from script to result: an image has a result if and only if trivy exited with 0 and printed a report in whole lines; a failed scan is explained by what it printed, or by its exit code; an output that does not end in a line break is missing |
| Framing.SingleImageIsMissing | internal/kube/cve_job.go:237-252 | a batch of one image is printed without a frame, and its error is always the missing exit code |
| Controller.Reconciler.Reconcile | internal/controller/imagepatch_controller.go:135-179 | for whatever is in the cluster, the method leaves the state AfterPass gives |
| Controller.Reconciler.ReconcilePatch | internal/controller/imagepatch_controller.go:182-218 | the gates in their order, then the HelmChartConfig |
| Controller.Reconciler.ReconcileConfig | internal/controller/imagepatch_controller.go:220-240 | a marker of this spec finishes the revert; any other is removed |
| Controller.Reconciler.ReconcileUpgrade | internal/controller/imagepatch_controller.go:242-272 | a patch from another RKE2 version stays with Manual; with AutoRevert the marker is written before the revert |
| Controller.Reconciler.ReconcileTarget | internal/controller/imagepatch_controller.go:274-292 | the bundled tag means no patch |
| Controller.Reconciler.ReconcileTag | internal/controller/imagepatch_controller.go:294-318 | values in place are kept, or reverted when the bundled tag has overtaken them |
| Controller.Reconciler.ReconcileNew | internal/controller/imagepatch_controller.go:320-400 | stale patches, rules and conflicts in their order, then the merge and the mark |
| Controller.Reconciler.CheckRules | internal/controller/imagepatch_controller.go:336-361 | the verdict on a new target: applied tag, published, baseline, window |
| Controller.Reconciler.Compare | internal/patcher/values_compare.go:14-39 | whether the generated values are all present, and whether anything conflicts |
| Controller.Reconciler.StalePatches | internal/controller/imagepatch_controller.go:495-514 | only other components managed on another version are listed, and some if there are any |
| Controller.Reconciler.SetRevertedGeneration | internal/controller/imagepatch_controller.go:433-448 | the marker is set or removed, and nothing else of the object changes |
| Controller.Reconciler.Apply | internal/patcher/annotations.go:21-45 | the values are merged in and the component's mark is set to the version read; the rest of the object stays |
| Controller.Reconciler.Revert | internal/controller/imagepatch_controller.go:469-487 | the component's keys and its mark are stripped; the rest of the object stays |
| Controller.Reconciler.ApplyHelmChartConfig | internal/kube/helmchartconfigs.go:166-194 | succeeds exactly when the object is at the expected version, or absent if none is expected; otherwise nothing changes |
| Controller.Reconciler.Finalize | internal/controller/imagepatch_controller.go:543-563 | what the controller manages is stripped before the object is released |
| Pass.StepDescends | internal/controller/imagepatch_controller.go:182-401 | every step of a pass makes progress, so every pass ends |
| Pass.StepsMakeThePass | internal/controller/imagepatch_controller.go:135-401 | the reads and writes of an undisturbed pass, one after the other, add up to AfterPass |
| Safety.WorkerStepKeeps | internal/controller/imagepatch_controller.go:182-401 | every read and write of a pass keeps the invariant, whatever the pass has read before |
| Safety.RunsAreSafe | internal/controller/imagepatch_controller.go:135-401 | in every reachable state all ownership marks carry the same RKE2 version, and each has its ImagePatch with the finalizer |
| Safety.MarkerPersists | internal/controller/imagepatch_controller.go:227-240 | a marker of the current generation stays until the generation changes, a user removes it, or the object goes |
| Safety.NoResurrection | internal/controller/imagepatch_controller.go:261-272 | and as long as it stays, nothing is applied for the ImagePatch, with crashes between any two writes |
| Upgrades.MarkedBeforeReverted | internal/controller/imagepatch_controller.go:261-268 | whenever a pass is about to strip a component after an upgrade, an earlier state of the run holds the marker of its spec |
| Upgrades.AutoRevertIsFinal | README.md:331-331 | from then on the old spec is not applied again, even if the pass is cut off before the strip, until the generation changes, a user removes the marker, or the object is replaced |
| Safety.RevertedPassesEndUnmanaged | internal/controller/imagepatch_controller.go:227-312 | a pass that reports a revert after an upgrade, the bundled tag or an overtaken tag ends with the component unmanaged |
| Safety.ReleasedOnlyUnmanaged | internal/controller/imagepatch_controller.go:543-563 | the finalizer goes only when the component is unmanaged, also when the user deletes in mid-pass |
| Layout.ManagedFits | internal/controller/imagepatch_controller.go:205-217 | when every version keeps its charts and no pass has raced with an upgrade, a managed component fits the chart of the version it is managed on |
| Layout.FittingComponentsApart | internal/patcher/bundled.go:51-78 | two components of one chart that both fit it write to disjoint leaves |
| Layout.BothAtImage | README.md:338-338 | no chart fits rke2-coredns and rke2-dns-node-cache at the same time |
| Layout.OverlapIs | internal/components/components.go:22-113 | of two components of one chart, whatever images they name, some leaves are above, at or below each other if and only if they are rke2-coredns and rke2-dns-node-cache |
| Layout.DisjointOwnership | internal/controller/imagepatch_controller.go:205-217 | when every version keeps its charts, two components managed on one HelmChartConfig own no leaf above, at or below one of the other, unless an upgrade has come between a pass's reads of the version and the chart |
| Races.MarksWithOldVersion | internal/controller/imagepatch_controller.go:205-382 | from such a chart read on, the pass marks its component with the version it has read, whatever the version is by now |
| Races.OwnershipCanOverlap | internal/controller/imagepatch_controller.go:205-217 | a run from the initial state, with fixed charts, in which two managed components end up owning the same leaves |
| Preservation.StepSpares | internal/controller/imagepatch_controller.go:369-382 | a step of a pass changes no other HelmChartConfig, and in its own nothing but the component's keys and mark |
| Preservation.UserValuesSurvive | README.md:325-325 | over any run, values that no patch of the chart's components writes stay what they are, and so does the rest of the object |
| Preservation.DeletionGivesBack | README.md:328-328 | applying, deleting and finalizing leaves the original values without the patch's keys; exactly the original if and only if the user had nothing on the way to them |
| Preservation.DriftIsCorrected | README.md:326-326 | values of a patch that were removed or edited are put back by the next pass if and only if no other component is stale and the target passes the rules for a new one; otherwise nothing is written |
| Convergence.PassEffect | internal/controller/imagepatch_controller.go:135-401 | a pass changes nothing but its own ImagePatch, its own mark and the values of its own HelmChartConfig, which become the merged or the subtracted ones |
| Outcomes.ShutGates | internal/controller/imagepatch_controller.go:183-218 | outside prime mode, beside CLI patches, or on a chart without one tag for the component, a pass changes no HelmChartConfig and no record |
| Outcomes.MarkerAfter | internal/controller/imagepatch_controller.go:227-268 | behind open gates the marker stands after a pass if and only if it was there for this spec, or AutoRevert has found a patch of another version |
| Outcomes.MarkedIsWithdrawn | internal/controller/imagepatch_controller.go:227-235 | with a marker for this spec the component ends unmanaged, without its keys and without a record, and every other value is kept |
| Outcomes.UpgradedOutcome | internal/controller/imagepatch_controller.go:242-272 | a patch from another version is left as it is with Manual, and taken out with AutoRevert |
| Outcomes.BundledIsWithdrawn | internal/controller/imagepatch_controller.go:274-292 | a spec that asks for the bundled tag leaves the component unmanaged, without its keys and without a record |
| Outcomes.StandingOutcome | internal/controller/imagepatch_controller.go:294-318 | values that are in place stay and their tag is recorded if and only if it is above the bundled one on its line; otherwise they are taken out |
| Outcomes.NewOutcome | internal/controller/imagepatch_controller.go:320-400 | otherwise the running image is written with the tag, marked and recorded, if and only if no other component is stale, the rules allow the tag, and no value of an unmanaged component conflicts; if not, nothing changes |
| Outcomes.DeletedOutcome | internal/controller/imagepatch_controller.go:543-563 | a deleted object with the finalizer goes, and leaves the component unmanaged and without its keys; all other values are kept |
| Convergence.LivePass | internal/controller/imagepatch_controller.go:182-401 | a pass over a live object carries out its decision, and the marker is what its bookkeeping made it |
| Convergence.PassKeepsSound | internal/controller/imagepatch_controller.go:182-401 | passes keep the invariant of runs and a fitting chart behind every current mark |
| Convergence.WritingSpends | internal/controller/imagepatch_controller.go:182-401 | a pass that writes the HelmChartConfig leaves its component at rest: unmanaged for good, or managed and in place |
| Convergence.TwoRoundsSettle | internal/controller/imagepatch_controller.go:182-401 | from any state, after two rounds over all ImagePatches, in any order, no pass writes a HelmChartConfig |
| Convergence.ReachableIsSound | internal/controller/imagepatch_controller.go:205-217 | when every version keeps its charts, every reachable state is one that AtMostOneWrite starts from, unless a pass has raced with an upgrade |
| Rewrites.WritesAgainIff | internal/controller/imagepatch_controller.go:182-401 | from any state, a pass that writes can be followed by another write for its component if and only if it applies and rke2-coredns or rke2-dns-node-cache, the other one of the two, is being deleted and still managed |
| Rewrites.AtMostTwoWrites | internal/controller/imagepatch_controller.go:182-401 | from any state, an ImagePatch causes at most two writes, whatever passes come in between |
| Rewrites.AtMostOneWrite | internal/controller/imagepatch_controller.go:182-401 | from a state with a fitting chart behind every current mark, an ImagePatch causes at most one write |
| Races.SecondWriteIsReached | internal/controller/imagepatch_controller.go:469-487 | a run from the initial state, with fixed charts, to a state in which the pass for rke2-coredns writes, and writes again after the pass that finalizes rke2-dns-node-cache |
| Convergence.MarkerPassEnds | internal/controller/imagepatch_controller.go:182-235 | a pass that finds the marker of this spec ends with the component unmanaged if and only if it was so before or the gates are open |
| Limits.MarkerPassMayLeaveManaged | internal/controller/imagepatch_controller.go:183-203 | a run from the initial state to such a pass that leaves the component managed |
| Limits.DriftMayStay | internal/controller/imagepatch_controller.go:346-352 | a run from the initial state after which removed values of an applied patch stay away, because its tag is no longer published |
| History.ApplyIsChecked | internal/controller/imagepatch_controller.go:336-361 | a tag that an undisturbed pass writes is published, inside the patch window, strictly newer than the bundled tag on its minor line, and not older than the recorded one |
| History.AcceptedTarget | internal/controller/imagepatch_controller.go:336-361 | a new target is allowed if and only if it is published, inside the patch window, newer than the bundled tag on its line, and not older than the applied tag |
| History.AdoptsIs | internal/controller/imagepatch_controller.go:183-318 | a pass records its tag without writing it if and only if the gates are open, no marker holds, the component is managed on this version, the tag is not the bundled one and acceptable on it, and its values are in place |
| History.RecordStepsBackIffAdopted | internal/controller/imagepatch_controller.go:303-317 | the recorded tag steps back in a pass if and only if all of this holds before it and the tag is older than the recorded one |
| Records.AppliesAreCleared | internal/controller/imagepatch_controller.go:336-361 | along every run, a write of a component's values has passed the rules against the bundled tag that its own pass has read and the applied tag it has read |
| Records.AppliesObeyTheRules | internal/controller/imagepatch_controller.go:336-361 | along every run, the pass of such a write has, in an earlier state, found the tag published and inside the patch window, on top of these rules |
| Records.AppliesWriteTheTag | internal/controller/imagepatch_controller.go:294-382 | after such a write every tag path of the component reads the tag of the spec that the pass has read |
| Images.PassNamesTheRunningImage | internal/controller/imagepatch_controller.go:618-624 | an undisturbed pass that writes leaves, at every image of the component, the name of the running image without its registry host, or the component's repository if none runs, and the tag of the spec |
| Images.AppliesNameTheRunningImage | internal/controller/imagepatch_controller.go:294-382 | along every run, a write leaves the name of the image that was running when the same pass looked for it |
| Guards.FirstApplyOverwritesNothing | internal/controller/imagepatch_controller.go:363-382 | along every run, the first write for a component changes the text of no value that stands in the HelmChartConfig then, and removes none unless the image is named like a printed map |
| Guards.StripsHaveAReason | internal/controller/imagepatch_controller.go:227-318 | along every run, a pass about to strip its component has the marker of its spec in hand, or has found its tag to be the bundled one or not above it |
| Guards.MarkersAreEarned | internal/controller/imagepatch_controller.go:255-268 | along every run, a new marker is stored only by a pass for AutoRevert, on a component that it has read to be managed on another version than the cluster's |
| Records.RecordsParse | internal/controller/imagepatch_controller.go:565-590 | in every reachable state each record is empty or a release tag |
| Records.RecordStepsBackIff | internal/controller/imagepatch_controller.go:303-317 | along every run, a record steps back at a step if and only if a pass gets to store an older tag that it has found in place |
| Records.TagsDoNotGoBack | internal/policy/window.go:89-99 | of two writes in a run, the later is not older if the status update of the first landed, the component kept a record since, and no pass stored an older tag that it found in place; crashes, upgrades and lost status updates may come anywhere |
| Backward.TagsCanGoBack | internal/controller/imagepatch_controller.go:303-317 | a run in which an older tag is written later, without the component ever being returned to its bundled tag |
| Modes.RunReconcile | internal/cmd/run.go:292-377 | the loops find the component's stale and current entries and revert the stale ones, or the current ones if there are none and that is approved |
| Modes.RunReverts | internal/clistate/revert.go:38-67 | recorded values are stripped entry by entry, and exactly the entries that were reverted are removed from the record |
| Modes.ModesExclude | internal/controller/imagepatch_controller.go:191-203 | in every history of passes, crashes, users and CLI commands, recorded CLI patches and ownership marks never coexist |
| Modes.ImagePatchKeeps | internal/cmd/state.go:79-89 | image-patch keeps the modes apart, because it refuses while any ImagePatch exists |
| Modes.ReconcileSparesTheController | README.md:346-347 | image-reconcile changes nothing while the controller manages any component |
| Modes.ReconcileUndoesPatch | internal/cmd/run.go:292-377 | the first image-patch of a component followed by image-reconcile leaves the user's values and no record |
| Commands.ImagePatchMeans | internal/cmd/run.go:186-287 | image-patch changes nothing, or names the running image with the target tag, keeps every value outside the component's keys, and records the target and the first baseline tag; it goes through if and only if no ImagePatch exists, an image runs, the tag is inside the window, no record is stale and the user agrees |
| Commands.ImageReconcileMeans | internal/cmd/run.go:291-377 | at every path of every HelmChartConfig, image-reconcile takes back exactly what it reverts, and forgets exactly those entries |
| Commands.RecordsAreProper | internal/cmd/state.go:61-77 | in every history the recorded values hold no empty map, which the one before assumes |

## Left out

- CliState.StateStore.Save: asks for what `Update` guarantees, that the state was computed from what has just been loaded; other callers are not modelled.
- Safety.NoResurrection: the second half of the promise, that every pass which sees the marker ends unmanaged, is false behind a shut gate; `MarkerPassEnds` has the exact condition.
- Records.TagsDoNotGoBack: asks that no pass stored an older tag it found in place, because the promise is false without it (`TagsCanGoBack`).
- Layout.DisjointOwnership: asks that no pass raced with an upgrade, because the promise is false without it (`OwnershipCanOverlap`).
- Rewrites.AtMostOneWrite: asks for a sound state, which `ReachableIsSound` gives for runs without such a race, because the promise is false without it (`SecondWriteIsReached`).
- Framing.RoundTrip: characters stand for bytes, and the order of log lines in a pod is the order in which they were printed.
- The Kubernetes clients, informers, leader election, events, requeue times, conditions, and whether pods have rolled out.
- Errors of single calls other than write conflicts: they end the pass like a crash.
- The steps of a pass that only read (tags, zero day and window; images and generated values) are one step each.
- The spelling of component names in commands and objects (`Resolve`, `SameComponent`): components are values of a datatype.
- An ImagePatch with an unknown component, which its schema does not admit, and several ImagePatches for one component, which its schema prevents by fixing the object's name.
- YAML text, a HelmChartConfig whose values are not a map, and the other fields of its specification, which `rest` stands for.
- Dotted and sorted rendering of conflicting paths; the model keeps the paths themselves.
- Registry requests, chart extraction, zero-day lookup and prime detection, whose results are inputs.
- Removing duplicate vulnerabilities from one report, local scanners and VEX files: nothing there spans operations.
- Prompts, dry runs beyond "not confirmed", listings and JSON output of the CLI; the configuration display.
- The selection of image-patch's target inside `modes.dfy`, where it is a parameter; `selection.dfy` has it.
