# Gas Town: nudge addressing, Claude settings compliance and polecat branch pruning

This project models three parts of the Gas Town multi-agent workspace manager in Dafny and proves
properties about them.

- **Nudge address resolution** (`nudge.dfy`, with `fleet.dfy` and `registry.dfy`). The forward
  resolver maps a human address to the names of the running agent sessions it denotes. The forms are:
  - `mayor` and `deacon`;
  - `<rig>/witness`, `*/witness` and `<rig>/refinery`;
  - `<rig>/crew/<name|*>` and `<rig>/polecats/<name|*>`;
  - the legacy polecat form `<rig>/<name>`.

  The inverse resolver maps a tmux session name back to an address, through the prefix registry
  (the `gt` ⇄ `gastown` bijection). The `--if-fresh` gate nudges a session only if it is at most
  60 seconds old. `nudge_fixture.dfy` states the resolver tables over the ten-session test fleet.
- **The `claude-settings` doctor check** (`settings.dfy`, `settings_check.dfy`). The town is a map
  from path segments to file contents. The check works in these steps:
  - classify each file by its place in the tree (mayor, deacon, witness, refinery, crew, polecat);
  - skip the system and hidden top-level directories;
  - mark witness and refinery files that sit one level too shallow;
  - record each structural requirement a file fails: `enabledPlugins`, `hooks`, a `SessionStart`
    PATH export, a deacon nudge and a `Stop` hook;
  - retain the stale files in the check object and summarise them.

  `Fix` deletes the retained files that are in the wrong location. `settings_fixture.dfy` states
  each test town and what a scan of it finds.
- **`gt polecat prune`** (`polecat_prune.dfy`). This is an imperative model of `runPolecatPrune`:
  - It builds the set of branches of active polecats.
  - It runs a loop over the local branch list that keeps active branches. It counts the other
    branches as pruned in a dry run, and otherwise force-deletes them, counting only the deletions
    that succeed.
  - With `--remote`, it runs the same loop over the remote branches with `origin/` stripped.
  - It then chooses one of three summaries.

  `repoBaseForRig` is modelled as a choice between the bare repo and `mayor/rig`. As in the code,
  `mayor/rig` is refused only when stat reports it missing. Any other stat failure still selects it.

The implementation files of the nudge resolver, the prefix registry and the settings check are not
part of this model. Their behaviour here follows the cited tests (`nudge_test.go`,
`claude_settings_check_test.go`) and the conventions those tests exercise. `runPolecatPrune` in
`polecat_prune.go` is modelled branch by branch, from the rig and manager lookup to the summary.
A dry run deletes no branch, but with `--remote` it still runs `git fetch --prune`, which
updates the remote-tracking refs; the model keeps only that fetch's outcome, which changes nothing
it counts.

Session names do not always identify one agent. A polecat named `witness`, `refinery` or
`crew-<n>` gets the same session name as its rig's witness, its refinery or crew member `<n>`,
and that name reads back as the other agent. The session-name round trips therefore hold for the
agents whose names avoid these collisions (`Nudge.WellFormedIdentity`), and
`Nudge.PolecatNameCollides` records the collision.

`wrappers.dfy` (Option, Result) and `strings.dfy` are small helper modules:
- `strings.dfy` has Go's `strings.Cut`, `strings.Contains`, `strings.Join` and
  `strings.TrimPrefix`, plus decimal formatting.

## Model

| member | source | states |
|---|---|---|
| Fleet.IdentityOf | internal/cmd/nudge_test.go:46-57 | a session record denotes exactly one agent of its own type; only the rig and agent name its type uses are kept |
| Registry.PrefixRegistry.constructor | internal/cmd/nudge_test.go:13 | a new registry is empty and its two maps are inverse to each other |
| Registry.PrefixRegistry.Register | internal/cmd/nudge_test.go:14-15 | registration succeeds exactly when neither the prefix nor the rig is bound to something else; on success both maps gain the pair, on failure nothing changes; the bijection invariant is kept |
| Registry.PrefixRegistry.LookupRig | internal/cmd/nudge_test.go:11-19 | a prefix is found exactly when registered, and the rig found maps back to that prefix |
| Registry.PrefixRegistry.LookupPrefix | internal/cmd/nudge_test.go:11-19 | a rig is found exactly when registered, and the prefix found maps back to that rig |
| Registry.NudgeTestRegistry | internal/cmd/nudge_test.go:11-19 | the test registry binds `gt` to gastown and `bd` to beads, in both directions |
| Nudge.Select | internal/cmd/nudge_test.go:126-147 | one name per listed session that matches the pattern, so the result length is the number of matching sessions, and a name is selected exactly when some matching session has it |
| Nudge.Resolve | internal/cmd/nudge_test.go:119-147 | an address outside the grammar resolves to nothing; otherwise one name per session matching the parsed pattern, and a name is returned exactly when some matching session has it |
| Nudge.ParseFormat | internal/cmd/nudge_test.go:64-118 | every well-formed pattern written out as an address parses back to itself |
| Nudge.FormatParse | internal/cmd/nudge_test.go:119-123 | every address that parses is the text of a well-formed pattern, so any other shape (such as `invalid`) denotes nothing |
| Nudge.ResolveFormat | internal/cmd/nudge_test.go:64-118 | resolving the text of a well-formed pattern selects exactly what that pattern selects |
| Nudge.SelectNone | internal/cmd/nudge_test.go:114-118 | a pattern no session matches selects nothing |
| Nudge.SelectSingle | internal/cmd/nudge_test.go:74-78 | a pattern exactly one session matches selects exactly that session's name |
| Nudge.SelectPair | internal/cmd/nudge_test.go:79-83 | a pattern exactly two sessions match selects both names in listing order |
| Nudge.SelectAgree | internal/cmd/nudge_test.go:109-113 | two patterns that agree on every session select the same list |
| Nudge.ResolveTownRole | internal/cmd/nudge_test.go:64-73 | `mayor` and `deacon` denote exactly the sessions of that type |
| Nudge.ResolveSingleMayor | internal/cmd/nudge_test.go:64-68 | with one mayor, `mayor` resolves to exactly its session name |
| Nudge.ResolveSingleDeacon | internal/cmd/nudge_test.go:69-73 | with one deacon, `deacon` resolves to exactly its session name |
| Nudge.ResolveRigSingleton | internal/cmd/nudge_test.go:74-88 | `<rig>/witness` and `<rig>/refinery` denote exactly that rig's sessions of that role |
| Nudge.ResolveAllWitnesses | internal/cmd/nudge_test.go:79-83 | `*/witness` denotes every witness session of every rig and nothing else |
| Nudge.ResolveRigWildcard | internal/cmd/nudge_test.go:89-103 | `<rig>/crew/*` and `<rig>/polecats/*` denote exactly that rig's crew or polecat sessions |
| Nudge.ResolveNamed | internal/cmd/nudge_test.go:94-108 | `<rig>/crew/<n>` and `<rig>/polecats/<n>` denote exactly the sessions with that rig, type and agent name |
| Nudge.LegacyIsPolecat | internal/cmd/nudge_test.go:109-113 | the legacy `<rig>/<n>` resolves to the same list as `<rig>/polecats/<n>` |
| Nudge.ResolveUnknownRig | internal/cmd/nudge_test.go:114-118 | a rig-scoped address naming a rig no session belongs to resolves to nothing |
| Nudge.ParseSessionNameOf | internal/cmd/nudge_test.go:151-187 | reading an agent's session name under its rig's registered prefix gives back that agent, for every agent whose name does not collide (no polecat named `witness`, `refinery` or `crew-<n>`, no `*` or `/` in names) |
| Nudge.SessionNameRoundTrip | internal/cmd/nudge_test.go:151-187 | the address computed from an agent's session name is the agent's canonical address, for every agent whose name does not collide |
| Nudge.AddressResolves | internal/cmd/nudge_test.go:64-113 | an agent's canonical address resolves to exactly the sessions standing for that agent |
| Nudge.NameAddressResolve | internal/cmd/nudge_test.go:151-187 | session name to address and back to sessions finds exactly the sessions of that agent, for every agent whose name does not collide |
| Nudge.PolecatNameCollides | internal/cmd/nudge_test.go:151-187 | a polecat named `witness` or `crew-<n>` has the session name of its rig's witness or of crew member `<n>`, and that name reads back as the other agent |
| Nudge.BarePrefixUnrecognised | internal/cmd/nudge_test.go:193-197 | a prefix followed by a dash and nothing else has no address |
| Nudge.DashlessUnrecognised | internal/cmd/nudge_test.go:188-192 | a name without a dash has no address |
| Nudge.UnknownPrefixUnrecognised | internal/cmd/nudge_test.go:188-197 | a name whose prefix before the first dash is neither `hq` nor registered has the empty address, whatever follows |
| Nudge.ShouldNudgeMonotone | internal/cmd/nudge_test.go:252-253 | a session younger than one that is nudged is nudged too |
| Nudge.FreshnessBoundary | internal/cmd/nudge_test.go:210-258 | the threshold is 60 s, the boundary is inclusive, and ages 10 s and 59 s are nudged while 61 s and 5 min are not |
| NudgeFixture.MayorRow | internal/cmd/nudge_test.go:64-68 | `mayor` resolves to `hq-mayor` in the test fleet |
| NudgeFixture.DeaconRow | internal/cmd/nudge_test.go:69-73 | `deacon` resolves to `hq-deacon` |
| NudgeFixture.SpecificWitnessParses | internal/cmd/nudge_test.go:74-78 | `gastown/witness` is read as the witness pattern of gastown |
| NudgeFixture.SpecificWitnessSelects | internal/cmd/nudge_test.go:74-78 | that pattern selects `gt-witness` |
| NudgeFixture.SpecificWitnessRow | internal/cmd/nudge_test.go:74-78 | `gastown/witness` resolves to `gt-witness` |
| NudgeFixture.AllWitnessesParses | internal/cmd/nudge_test.go:79-83 | `*/witness` is read as the any-rig witness pattern |
| NudgeFixture.AllWitnessesSelects | internal/cmd/nudge_test.go:79-83 | that pattern selects `gt-witness` and `bd-witness` |
| NudgeFixture.AllWitnessesRow | internal/cmd/nudge_test.go:79-83 | `*/witness` resolves to `gt-witness`, `bd-witness` |
| NudgeFixture.SpecificRefineryParses | internal/cmd/nudge_test.go:84-88 | `gastown/refinery` is read as the refinery pattern of gastown |
| NudgeFixture.SpecificRefinerySelects | internal/cmd/nudge_test.go:84-88 | that pattern selects `gt-refinery` |
| NudgeFixture.SpecificRefineryRow | internal/cmd/nudge_test.go:84-88 | `gastown/refinery` resolves to `gt-refinery` |
| NudgeFixture.AllPolecatsParses | internal/cmd/nudge_test.go:89-93 | `gastown/polecats/*` is read as gastown's any-name polecat pattern |
| NudgeFixture.AllPolecatsSelects | internal/cmd/nudge_test.go:89-93 | that pattern selects `gt-alpha`, `gt-beta` |
| NudgeFixture.AllPolecatsRow | internal/cmd/nudge_test.go:89-93 | `gastown/polecats/*` resolves to `gt-alpha`, `gt-beta` |
| NudgeFixture.SpecificPolecatParses | internal/cmd/nudge_test.go:94-98 | `gastown/polecats/alpha` is read as the polecat pattern for alpha |
| NudgeFixture.SpecificPolecatSelects | internal/cmd/nudge_test.go:94-98 | that pattern selects `gt-alpha` |
| NudgeFixture.SpecificPolecatRow | internal/cmd/nudge_test.go:94-98 | `gastown/polecats/alpha` resolves to `gt-alpha` |
| NudgeFixture.AllCrewParses | internal/cmd/nudge_test.go:99-103 | `gastown/crew/*` is read as gastown's any-name crew pattern |
| NudgeFixture.AllCrewSelects | internal/cmd/nudge_test.go:99-103 | that pattern selects `gt-crew-max`, `gt-crew-jack` |
| NudgeFixture.AllCrewRow | internal/cmd/nudge_test.go:99-103 | `gastown/crew/*` resolves to `gt-crew-max`, `gt-crew-jack` |
| NudgeFixture.SpecificCrewParses | internal/cmd/nudge_test.go:104-108 | `gastown/crew/max` is read as the crew pattern for max |
| NudgeFixture.SpecificCrewSelects | internal/cmd/nudge_test.go:104-108 | that pattern selects `gt-crew-max` |
| NudgeFixture.SpecificCrewRow | internal/cmd/nudge_test.go:104-108 | `gastown/crew/max` resolves to `gt-crew-max` |
| NudgeFixture.LegacyPolecatParses | internal/cmd/nudge_test.go:109-113 | `gastown/alpha` is read as the legacy polecat pattern |
| NudgeFixture.LegacyPolecatSelects | internal/cmd/nudge_test.go:109-113 | that pattern selects `gt-alpha` |
| NudgeFixture.LegacyPolecatRow | internal/cmd/nudge_test.go:109-113 | `gastown/alpha` resolves to `gt-alpha` |
| NudgeFixture.NoMatchesParses | internal/cmd/nudge_test.go:114-118 | `nonexistent/polecats/*` is read as a polecat pattern of an unknown rig |
| NudgeFixture.NoMatchesSelects | internal/cmd/nudge_test.go:114-118 | that pattern selects nothing |
| NudgeFixture.NoMatchesRow | internal/cmd/nudge_test.go:114-118 | `nonexistent/polecats/*` resolves to nothing |
| NudgeFixture.InvalidRow | internal/cmd/nudge_test.go:119-123 | `invalid` resolves to nothing |
| NudgeFixture.AddressOfMayor | internal/cmd/nudge_test.go:158-162 | `hq-mayor` maps to `mayor` |
| NudgeFixture.AddressOfDeacon | internal/cmd/nudge_test.go:163-167 | `hq-deacon` maps to `deacon` |
| NudgeFixture.AddressOfWitness | internal/cmd/nudge_test.go:168-172 | `gt-witness` maps to `gastown/witness` |
| NudgeFixture.AddressOfRefinery | internal/cmd/nudge_test.go:173-177 | `gt-refinery` maps to `gastown/refinery` |
| NudgeFixture.AddressOfCrewMember | internal/cmd/nudge_test.go:178-182 | `gt-crew-max` maps to `gastown/crew/max` |
| NudgeFixture.AddressOfPolecat | internal/cmd/nudge_test.go:183-187 | `gt-alpha` maps to the legacy `gastown/alpha` |
| NudgeFixture.AddressOfUnrecognised | internal/cmd/nudge_test.go:188-197 | `plaintext` and `gt-` map to the empty address |
| ClaudeSettings.Classify | internal/doctor/claude_settings_check_test.go:178-456 | every file the scanner recognises gets a well-formed role and placement whose path is the file's own path, and a rig role only under a real rig directory |
| ClaudeSettings.ClassifyLocation | internal/doctor/claude_settings_check_test.go:178-456 | every recognised role and placement is classified back as itself from its path |
| ClaudeSettings.LocationsDistinct | internal/doctor/claude_settings_check_test.go:178-456 | two recognised locations never share a path |
| ClaudeSettings.StaleReason.Label | internal/doctor/claude_settings_check_test.go:336-512 | the label of each reason contains that reason's fixed word (`PATH export`, `deacon nudge`, `Stop hook`, `wrong location`, `invalid JSON`, ...) |
| ClaudeSettings.ReasonIf | internal/doctor/claude_settings_check_test.go:284-400 | a reason is listed exactly when its requirement failed |
| ClaudeSettings.StructuralReasons | internal/doctor/claude_settings_check_test.go:284-400 | no reasons exactly when the content is compliant, and each missing element contributes its own reason, exactly when that element is missing |
| ClaudeSettings.MissingHooksFailsEveryHook | internal/doctor/claude_settings_check_test.go:304-319 | without a `hooks` key the PATH, deacon-nudge and Stop requirements fail too |
| ClaudeSettings.Reasons | internal/doctor/claude_settings_check_test.go:402-515 | a file is marked wrong-location exactly when misplaced and invalid-JSON exactly when unparseable; it has no reasons exactly when it is correctly placed, parses and is compliant |
| SettingsCheck.Inspect | internal/doctor/claude_settings_check_test.go:178-515 | a file yields a finding exactly when it is recognised and either misplaced or not parsed and compliant; the finding carries its own path, location and non-empty reasons |
| SettingsCheck.AppendDistinct | internal/doctor/claude_settings_check_test.go:458-483 | a finding for a path not yet visited keeps the findings' paths distinct |
| SettingsCheck.ScanStep | internal/doctor/claude_settings_check_test.go:458-483 | inspecting one more file keeps the findings exactly the stale files visited so far |
| SettingsCheck.ScanCount | internal/doctor/claude_settings_check_test.go:458-483 | a complete scan holds exactly as many findings as the town has stale files |
| SettingsCheck.ScanDetermined | internal/doctor/claude_settings_check_test.go:458-483 | two complete scans of the same town hold the same findings |
| SettingsCheck.ScanFindsMisplaced | internal/doctor/claude_settings_check_test.go:402-456 | the misplaced findings of a scan are exactly the town's misplaced files |
| SettingsCheck.StalePathsUpdate | internal/doctor/claude_settings_check_test.go:582-613 | writing one file changes the stale set at that path only |
| SettingsCheck.AddStaleFile | internal/doctor/claude_settings_check_test.go:458-483 | adding a stale file to a town adds its path to the stale set |
| SettingsCheck.AddCleanFile | internal/doctor/claude_settings_check_test.go:582-613 | adding a file that is not stale removes its path from the stale set |
| SettingsCheck.EveryFileStale | internal/doctor/claude_settings_check_test.go:458-483 | when every file is stale, the stale set is the whole town |
| SettingsCheck.OneFileStale | internal/doctor/claude_settings_check_test.go:582-613 | when exactly one file is stale, the stale set is that file alone |
| SettingsCheck.NonRigTreesIgnored | internal/doctor/claude_settings_check_test.go:551-580 | files below top-level directories that are not rigs are never stale |
| SettingsCheck.CompliantTownClean | internal/doctor/claude_settings_check_test.go:178-282 | a town whose recognised files are all correctly placed and compliant has nothing stale |
| SettingsCheck.FixLeavesPlacedStale | internal/doctor/claude_settings_check_test.go:517-549 | after the misplaced findings are deleted nothing misplaced remains, and the stale files left are the correctly placed ones that were stale |
| SettingsCheck.LineContainsPart | internal/doctor/claude_settings_check_test.go:336-343 | a detail line contains each of the labels joined into it |
| SettingsCheck.Detail | internal/doctor/claude_settings_check_test.go:336-512 | a file's detail line contains the file's path, and the label and the word of each of its reasons |
| SettingsCheck.StaleMessage | internal/doctor/claude_settings_check_test.go:299-301 | the error message contains the stale count followed by ` stale` |
| SettingsCheck.Summarize | internal/doctor/claude_settings_check_test.go:284-613 | the result is named `claude-settings`; it is OK exactly when there are no findings; it has one detail line per finding, naming its path and each reason; an error message counts the findings |
| SettingsCheck.Town.constructor | internal/doctor/claude_settings_check_test.go:23-35 | a town holds the files it is given |
| SettingsCheck.ClaudeSettingsCheck.constructor | internal/doctor/claude_settings_check_test.go:11-21 | the check is named `claude-settings`, can fix, and retains nothing yet |
| SettingsCheck.ClaudeSettingsCheck.Run | internal/doctor/claude_settings_check_test.go:458-483 | the retained findings are a complete scan of the town, one per stale file; the result is their summary, OK exactly when the town has no stale file |
| SettingsCheck.ClaudeSettingsCheck.Fix | internal/doctor/claude_settings_check_test.go:517-549 | the town loses exactly the retained misplaced files |
| SettingsFixture.WithoutDirective | internal/doctor/claude_settings_check_test.go:87-176 | the hooks kept are exactly those whose command lacks the directive |
| SettingsFixture.PathHookExportsPath | internal/doctor/claude_settings_check_test.go:37-85 | the valid PATH hook carries the PATH directive |
| SettingsFixture.NudgeHookNudgesDeacon | internal/doctor/claude_settings_check_test.go:37-85 | the valid nudge hook carries the deacon-nudge directive |
| SettingsFixture.PathHookDoesNotNudge | internal/doctor/claude_settings_check_test.go:37-85 | the PATH hook does not nudge the deacon |
| SettingsFixture.NudgeHookDoesNotExport | internal/doctor/claude_settings_check_test.go:37-85 | the nudge hook does not export PATH |
| SettingsFixture.ValidSettingsCompliant | internal/doctor/claude_settings_check_test.go:37-85 | the test's valid settings pass every requirement |
| SettingsFixture.MissingEnabledPluginsReason | internal/doctor/claude_settings_check_test.go:284-302 | dropping `enabledPlugins` fails that requirement only |
| SettingsFixture.MissingHooksReasons | internal/doctor/claude_settings_check_test.go:304-319 | dropping `hooks` fails hooks, PATH, deacon nudge and Stop |
| SettingsFixture.WithoutDirectiveOfTwo | internal/doctor/claude_settings_check_test.go:87-176 | of two hooks of which exactly one carries the directive, filtering keeps the other |
| SettingsFixture.SingleStartHook | internal/doctor/claude_settings_check_test.go:87-176 | a `SessionStart` group of one hook runs exactly the directives that hook carries |
| SettingsFixture.MissingPathReason | internal/doctor/claude_settings_check_test.go:321-346 | dropping the PATH command fails the PATH requirement only |
| SettingsFixture.MissingDeaconNudgeReason | internal/doctor/claude_settings_check_test.go:348-373 | dropping the nudge command fails the deacon-nudge requirement only |
| SettingsFixture.MissingStopReason | internal/doctor/claude_settings_check_test.go:375-400 | dropping `Stop` fails the Stop requirement only |
| SettingsFixture.SingleFileScan | internal/doctor/claude_settings_check_test.go:178-515 | a scan of a one-file town holds that file's finding, if it has one |
| SettingsFixture.EmptyTownOK | internal/doctor/claude_settings_check_test.go:23-35 | an empty town scans clean and reports OK |
| SettingsFixture.ValidAtCanonicalPlaceOK | internal/doctor/claude_settings_check_test.go:178-282 | valid settings at any role's own place report OK |
| SettingsFixture.TestPlacesWellFormed | internal/doctor/claude_settings_check_test.go:178-282 | the six places the tests write valid settings to are recognised locations |
| SettingsFixture.OneStale | internal/doctor/claude_settings_check_test.go:299 | the count 1 is written `1 stale` |
| SettingsFixture.ThreeStale | internal/doctor/claude_settings_check_test.go:480 | the count 3 is written `3 stale` |
| SettingsFixture.StaleMayorScan | internal/doctor/claude_settings_check_test.go:284-400 | a non-compliant mayor file is the one finding, with its structural reasons, and the message says `1 stale` |
| SettingsFixture.DetailMentions | internal/doctor/claude_settings_check_test.go:336-343 | the detail line of a town's one finding names each of its reasons |
| SettingsFixture.MissingEnabledPluginsScan | internal/doctor/claude_settings_check_test.go:284-302 | error, `1 stale`, and a detail naming `enabledPlugins` |
| SettingsFixture.MissingHooksScan | internal/doctor/claude_settings_check_test.go:304-319 | error |
| SettingsFixture.MissingPathScan | internal/doctor/claude_settings_check_test.go:321-346 | error, and a detail naming `PATH export` |
| SettingsFixture.MissingDeaconNudgeScan | internal/doctor/claude_settings_check_test.go:348-373 | error, and a detail naming `deacon nudge` |
| SettingsFixture.MissingStopScan | internal/doctor/claude_settings_check_test.go:375-400 | error, and a detail naming `Stop hook` |
| SettingsFixture.WrongLocationScan | internal/doctor/claude_settings_check_test.go:402-456 | valid witness or refinery settings one level too shallow give an error naming `wrong location` |
| SettingsFixture.InvalidJsonScan | internal/doctor/claude_settings_check_test.go:485-515 | an unparseable mayor file gives an error naming `invalid JSON` |
| SettingsFixture.PlacedInspect | internal/doctor/claude_settings_check_test.go:178-400 | a file at its role's own place is stale exactly when its content fails a requirement |
| SettingsFixture.MisplacedInspect | internal/doctor/claude_settings_check_test.go:402-456 | a misplaced witness or refinery file is stale whatever it holds |
| SettingsFixture.ThreeStalePaths | internal/doctor/claude_settings_check_test.go:458-483 | three distinct stale files make a stale set of three |
| SettingsFixture.AllThreeStale | internal/doctor/claude_settings_check_test.go:458-483 | three distinct stale files give three findings |
| SettingsFixture.OnlySecondStalePaths | internal/doctor/claude_settings_check_test.go:582-613 | of three files, the stale set is the one stale file |
| SettingsFixture.OnlySecondStale | internal/doctor/claude_settings_check_test.go:582-613 | of three files only the stale one is found |
| SettingsFixture.MultipleStaleScan | internal/doctor/claude_settings_check_test.go:458-483 | the three-file town gives an error saying `3 stale` |
| SettingsFixture.MixedTownStalePaths | internal/doctor/claude_settings_check_test.go:582-613 | in the mixed town only the witness file is stale |
| SettingsFixture.MixedTownOneStale | internal/doctor/claude_settings_check_test.go:582-613 | a scan of the mixed town holds one finding |
| SettingsFixture.MixedScan | internal/doctor/claude_settings_check_test.go:582-613 | the mixed town gives an error saying `1 stale` with one detail |
| SettingsFixture.SkippedDirsAreNotRigs | internal/doctor/claude_settings_check_test.go:554-556 | none of `mayor`, `deacon`, `daemon`, `.git`, `docs` and `.hidden` is scanned as a rig |
| SettingsFixture.SkippedDirScan | internal/doctor/claude_settings_check_test.go:551-580 | witness-shaped files under those directories are not found, whatever they hold |
| SettingsFixture.SoleMisplacedFileFixed | internal/doctor/claude_settings_check_test.go:517-549 | fixing a town whose one file is misplaced empties it |
| SettingsFixture.FixDeletesMisplacedFile | internal/doctor/claude_settings_check_test.go:517-549 | for a town whose one file is misplaced: the first run reports an error, the fix deletes the file, and the second run reports OK |
| SettingsFixture.FixDeletesWrongLocationFile | internal/doctor/claude_settings_check_test.go:517-549 | run reports an error, fix deletes the misplaced file, and a second run reports OK |
| PolecatPrune.ActiveSet | internal/cmd/polecat_prune.go:70-75 | the branches of the polecats in a working state, and no others |
| PolecatPrune.ActiveBranches | internal/cmd/polecat_prune.go:70-75 | a branch is in the set the loop builds exactly when some polecat in a working state is on it |
| PolecatPrune.PrunePass | internal/cmd/polecat_prune.go:95-121 | kept counts the active branches; a dry run attempts no deletion and counts every other branch as pruned, so pruned plus kept is the listing's length; a real run force-deletes each non-active branch once, in order, and counts only the successful deletions; an active branch is never attempted |
| PolecatPrune.KeptPlusCandidates | internal/cmd/polecat_prune.go:95-121 | every listed branch is kept or a prune candidate |
| PolecatPrune.CandidatesExact | internal/cmd/polecat_prune.go:96-105 | the prune candidates are exactly the listed branches outside the active set |
| PolecatPrune.DeletedAreCandidates | internal/cmd/polecat_prune.go:113-120 | only candidates whose deletion succeeded are counted, so a real run never prunes more than a dry run reports |
| PolecatPrune.AllDeletionsSucceed | internal/cmd/polecat_prune.go:113-120 | when every deletion succeeds, a real run prunes what a dry run reports |
| PolecatPrune.AllDeletionsFail | internal/cmd/polecat_prune.go:114-115 | when every deletion fails, a real run prunes nothing |
| PolecatPrune.StripOrigin | internal/cmd/polecat_prune.go:141-142 | each remote name loses a leading `origin/` and is otherwise unchanged |
| PolecatPrune.StripOriginOf | internal/cmd/polecat_prune.go:141-162 | remote `origin/<b>` names are tested and deleted as `<b>` |
| PolecatPrune.RepoBaseForRig | internal/cmd/polecat_prune.go:194-207 | the bare repo exactly when `.repo.git` is a directory; an error exactly when it is not and `mayor/rig` does not exist; `mayor/rig` otherwise |
| PolecatPrune.RemotePass | internal/cmd/polecat_prune.go:128-174 | with `--remote` and a working listing, the counts of a pass over the stripped remote names, whatever `fetch --prune` did; else zero |
| PolecatPrune.RunPolecatPrune | internal/cmd/polecat_prune.go:50-191 | errors in order: the rig or manager lookup's own error unwrapped, then the repo base, the polecat listing and the local listing with their prefixes; otherwise the local counts of one pass; remote counts of another pass only with `--remote` and a working listing, else zero, whatever `fetch --prune` did; a summary that is a would-prune total in a dry run, nothing-to-prune when no deletion succeeded, and a pruned total otherwise |

## Left out

- Glob matching inside address components is not modelled. A name component is a literal or `*`;
  a rig wildcard `*` is accepted for every rig-scoped form.
- `runNudge`, `--stdin`/`--message` conflict checking, message delivery to tmux, and all cobra
  command and flag wiring are CLI plumbing and are not modelled.
- The process-wide default registry and its swap in the test setup are not modelled. The
  resolver takes the prefix-to-rig map as a parameter.
- `time.Now` and `time.Since` are not modelled. A session's age is an integer number of nanoseconds.
- JSON decoding is not modelled. A settings file is either unparseable or a `Settings` value with
  only the keys the check reads.
- The directory walk, `os.Stat` and I/O errors during the scan are not modelled. The town is a map
  from paths to contents. The scan visits files in an arbitrary order, so the order of findings
  and detail lines is not fixed.
- SettingsCheck.ClaudeSettingsCheck.Fix: it does not model a failed deletion, nor any rewriting
  of correctly placed stale files. The test exercises only the deletion of misplaced files.
- SettingsCheck.StaleMessage: only the part `<count> stale` is fixed, which is all the tests
  rely on. The rest of the message and the detail-line layout are this model's own wording.
- `createStaleSettings` with several missing elements at once, and its failure paths, are not
  modelled. Each test leaves out one element.
- All terminal output and styling of `runPolecatPrune` are not modelled; only the counters and the
  summary case are kept.
- `getPolecatManager`, the rig lookup, `ListBranches`, `DeleteBranch`, `FetchPrune`,
  `ListRemoteBranches`, `DeleteRemoteBranch` and `mgr.List` are not modelled as git or filesystem
  operations. They are inputs: a lookup outcome and listings that may fail with a message, and a per-branch
  deletion-outcome function.
- PolecatPrune.RepoBaseForRig: returns which repository is chosen rather than a git handle.
