/**
 * The settings files the compliance tests write, and what a scan of each test town finds.
 */
module SettingsFixture {
  import opened Wrappers
  import opened Strings
  import opened ClaudeSettings
  import opened SettingsCheck

  // ---------------------------------------------------------------------------------------------
  // The test settings
  // ---------------------------------------------------------------------------------------------

  // The two SessionStart commands, `export PATH=/usr/local/bin:$PATH` and
  // `gt nudge deacon session-started`, written around the directives they carry.
  function PathHook(): Hook { Hook("command", "export " + PathDirective + "/usr/local/bin:$PATH") }
  function NudgeHook(): Hook { Hook("command", DeaconNudgeDirective + " session-started") }
  function CostsHook(): Hook { Hook("command", "gt costs record --session $CLAUDE_SESSION_ID") }

  function StartHooks(): seq<Hook> { [PathHook(), NudgeHook()] }

  /** Settings with every required element, as `createValidSettings` writes them. */
  function ValidSettings(): Settings {
    Settings(
      Some(["plugin1"]),
      Some(map[SessionStart := [HookGroup("**", StartHooks())], Stop := [HookGroup("**", [CostsHook()])]]))
  }

  /** The hooks whose command does not contain `directive`, in order. */
  function WithoutDirective(hooks: seq<Hook>, directive: string): (kept: seq<Hook>)
    ensures forall h :: h in kept <==> h in hooks && !Contains(h.command, directive)
  {
    if hooks == [] then []
    else if Contains(hooks[0].command, directive) then WithoutDirective(hooks[1..], directive)
    else [hooks[0]] + WithoutDirective(hooks[1..], directive)
  }

  /** The valid settings with the `SessionStart` group's commands containing `directive` filtered out. */
  function WithoutStartDirective(directive: string): Settings {
    ValidSettings().(hooks := Some(ValidSettings().hooks.value[SessionStart :=
      [HookGroup("**", WithoutDirective(StartHooks(), directive))]]))
  }

  /** The elements `createStaleSettings` can leave out: `enabledPlugins`, `hooks`, `PATH`,
      `deacon-nudge` and `Stop`. */
  datatype Element = EnabledPluginsKey | HooksKey | PathCommand | DeaconNudgeCommand | StopKey

  /** `createStaleSettings` with one missing element. */
  function StaleSettings(missing: Element): Settings {
    match missing
    case EnabledPluginsKey => ValidSettings().(enabledPlugins := None)
    case HooksKey => ValidSettings().(hooks := None)
    case PathCommand => WithoutStartDirective(PathDirective)
    case DeaconNudgeCommand => WithoutStartDirective(DeaconNudgeDirective)
    case StopKey => ValidSettings().(hooks := Some(ValidSettings().hooks.value - {Stop}))
  }

  lemma PathHookExportsPath()
    ensures Contains(PathHook().command, PathDirective)
  {
    ContainsMiddle("export ", PathDirective, "/usr/local/bin:$PATH");
  }

  lemma NudgeHookNudgesDeacon()
    ensures Contains(NudgeHook().command, DeaconNudgeDirective)
  {
    ContainsMiddle("", DeaconNudgeDirective, " session-started");
    assert "" + DeaconNudgeDirective + " session-started" == NudgeHook().command;
  }

  lemma PathHookDoesNotNudge()
    ensures !Contains(PathHook().command, DeaconNudgeDirective)
  {
    assert 'g' !in PathHook().command by {}
    MissingCharNotContained(PathHook().command, DeaconNudgeDirective, 0);
  }

  lemma NudgeHookDoesNotExport()
    ensures !Contains(NudgeHook().command, PathDirective)
  {
    assert 'P' !in NudgeHook().command by {}
    MissingCharNotContained(NudgeHook().command, PathDirective, 0);
  }

  /** The test's valid settings pass every structural requirement. */
  lemma ValidSettingsCompliant()
    ensures Compliant(ValidSettings())
    ensures StructuralReasons(ValidSettings()) == []
  {
    PathHookExportsPath();
    NudgeHookNudgesDeacon();
    var groups := ValidSettings().hooks.value[SessionStart];
    assert groups[0].hooks[0] == PathHook();
    assert groups[0].hooks[1] == NudgeHook();
  }

  // Removing one element makes the file stale for that element and nothing else.

  lemma MissingEnabledPluginsReason()
    ensures StructuralReasons(StaleSettings(EnabledPluginsKey)) == [MissingEnabledPlugins]
  {
    ValidSettingsCompliant();
  }

  lemma MissingHooksReasons()
    ensures StructuralReasons(StaleSettings(HooksKey)) ==
      [MissingHooks, MissingPathExport, MissingDeaconNudge, MissingStopHook]
  {
    MissingHooksFailsEveryHook(StaleSettings(HooksKey));
  }

  /** Filtering a directive out of two hooks of which exactly one carries it. */
  lemma WithoutDirectiveOfTwo(a: Hook, b: Hook, directive: string)
    requires Contains(a.command, directive) != Contains(b.command, directive)
    ensures WithoutDirective([a, b], directive) == if Contains(a.command, directive) then [b] else [a]
  {
    assert [a, b][1..] == [b];
    assert [b][1..] == [];
    assert WithoutDirective([b], directive) == if Contains(b.command, directive) then [] else [b];
  }

  /** Settings whose `SessionStart` group holds one hook run exactly the directives that hook carries. */
  lemma SingleStartHook(s: Settings, h: Hook, directive: string)
    requires s.hooks.Some? && SessionStart in s.hooks.value
    requires s.hooks.value[SessionStart] == [HookGroup("**", [h])]
    ensures SessionStartRuns(s, directive) <==> Contains(h.command, directive)
  {
    var groups := s.hooks.value[SessionStart];
    assert groups[0].hooks[0] == h;
  }

  lemma MissingPathReason()
    ensures StructuralReasons(StaleSettings(PathCommand)) == [MissingPathExport]
  {
    PathHookExportsPath();
    NudgeHookDoesNotExport();
    NudgeHookNudgesDeacon();
    WithoutDirectiveOfTwo(PathHook(), NudgeHook(), PathDirective);
    var s := StaleSettings(PathCommand);
    assert s.hooks.value[SessionStart] == [HookGroup("**", [NudgeHook()])];
    SingleStartHook(s, NudgeHook(), PathDirective);
    SingleStartHook(s, NudgeHook(), DeaconNudgeDirective);
  }

  lemma MissingDeaconNudgeReason()
    ensures StructuralReasons(StaleSettings(DeaconNudgeCommand)) == [MissingDeaconNudge]
  {
    PathHookExportsPath();
    PathHookDoesNotNudge();
    NudgeHookNudgesDeacon();
    WithoutDirectiveOfTwo(PathHook(), NudgeHook(), DeaconNudgeDirective);
    var s := StaleSettings(DeaconNudgeCommand);
    assert s.hooks.value[SessionStart] == [HookGroup("**", [PathHook()])];
    SingleStartHook(s, PathHook(), PathDirective);
    SingleStartHook(s, PathHook(), DeaconNudgeDirective);
  }

  lemma MissingStopReason()
    ensures StructuralReasons(StaleSettings(StopKey)) == [MissingStopHook]
  {
    ValidSettingsCompliant();
    var s := StaleSettings(StopKey);
    assert s.hooks.value[SessionStart] == ValidSettings().hooks.value[SessionStart];
  }

  // ---------------------------------------------------------------------------------------------
  // Test towns
  // ---------------------------------------------------------------------------------------------

  const TestRig := "testrig"

  function At(role: Role): Path { LocationPath(Located(role, Correct)) }
  function Shallow(role: Role): Path { LocationPath(Located(role, WrongLocation)) }

  /** A scan of a one-file town holds that file's finding, if it has one. */
  lemma SingleFileScan(stale: seq<StaleFile>, path: Path, content: Content)
    requires IsScanOf(stale, map[path := content])
    ensures Inspect(path, content).None? ==> stale == []
    ensures Inspect(path, content).Some? ==> stale == [Inspect(path, content).value]
  {
    var files := map[path := content];
    ScanCount(stale, files);
    if Inspect(path, content).Some? {
      assert StalePaths(files) == {path};
      assert stale[0].path in files;
    } else {
      assert StalePaths(files) == {};
    }
  }

  /** `NoSettingsFiles`: an empty town is compliant. */
  lemma EmptyTownOK(stale: seq<StaleFile>)
    requires IsScanOf(stale, map[])
    ensures stale == [] && Summarize(stale).status == StatusOK
  {
    ScanCount(stale, map[]);
  }

  /** The `Valid*Settings` tests: valid content at a role's own place is compliant. */
  lemma ValidAtCanonicalPlaceOK(stale: seq<StaleFile>, role: Role)
    requires WellFormedLocated(Located(role, Correct))
    requires IsScanOf(stale, map[At(role) := Parsed(ValidSettings())])
    ensures stale == [] && Summarize(stale).status == StatusOK
  {
    ValidSettingsCompliant();
    ClassifyLocation(Located(role, Correct));
    SingleFileScan(stale, At(role), Parsed(ValidSettings()));
  }

  /** The six canonical places the tests write valid settings to are all recognised. */
  lemma TestPlacesWellFormed()
    ensures WellFormedLocated(Located(MayorRole, Correct))
    ensures WellFormedLocated(Located(DeaconRole, Correct))
    ensures WellFormedLocated(Located(WitnessRole(TestRig), Correct))
    ensures WellFormedLocated(Located(RefineryRole(TestRig), Correct))
    ensures WellFormedLocated(Located(CrewRole(TestRig, "agent1"), Correct))
    ensures WellFormedLocated(Located(PolecatRole(TestRig, "pc1"), Correct))
  {
    assert TestRig[0] == 't';
  }

  lemma OneStale()
    ensures DecimalString(1) + StaleWord == "1 stale"
  {
  }

  lemma ThreeStale()
    ensures DecimalString(3) + StaleWord == "3 stale"
  {
  }

  /** A mayor file failing some structural requirement is the town's one stale file. */
  lemma StaleMayorScan(stale: seq<StaleFile>, s: Settings)
    requires IsScanOf(stale, map[At(MayorRole) := Parsed(s)])
    requires StructuralReasons(s) != []
    ensures |stale| == 1 && stale[0].reasons == StructuralReasons(s)
    ensures Summarize(stale).status == StatusError
    ensures Contains(Summarize(stale).message, "1 stale")
  {
    ClassifyLocation(Located(MayorRole, Correct));
    SingleFileScan(stale, At(MayorRole), Parsed(s));
    OneStale();
  }

  /** The detail line of a town's one stale file carries the word of each of its reasons. */
  lemma DetailMentions(stale: seq<StaleFile>, r: StaleReason)
    requires |stale| == 1 && r in stale[0].reasons
    ensures exists d :: d in Summarize(stale).details && Contains(d, r.Word())
  {
    assert Summarize(stale).details[0] in Summarize(stale).details;
  }

  /** `MissingEnabledPlugins`: one stale file. */
  lemma MissingEnabledPluginsScan(stale: seq<StaleFile>)
    requires IsScanOf(stale, map[At(MayorRole) := Parsed(StaleSettings(EnabledPluginsKey))])
    ensures Summarize(stale).status == StatusError
    ensures Contains(Summarize(stale).message, "1 stale")
    ensures exists d :: d in Summarize(stale).details && Contains(d, "enabledPlugins")
  {
    MissingEnabledPluginsReason();
    StaleMayorScan(stale, StaleSettings(EnabledPluginsKey));
    DetailMentions(stale, MissingEnabledPlugins);
  }

  /** `MissingHooks`: the file is stale. */
  lemma MissingHooksScan(stale: seq<StaleFile>)
    requires IsScanOf(stale, map[At(MayorRole) := Parsed(StaleSettings(HooksKey))])
    ensures Summarize(stale).status == StatusError
  {
    MissingHooksReasons();
    StaleMayorScan(stale, StaleSettings(HooksKey));
  }

  /** `MissingPATH`: the detail names the PATH export. */
  lemma MissingPathScan(stale: seq<StaleFile>)
    requires IsScanOf(stale, map[At(MayorRole) := Parsed(StaleSettings(PathCommand))])
    ensures Summarize(stale).status == StatusError
    ensures exists d :: d in Summarize(stale).details && Contains(d, "PATH export")
  {
    MissingPathReason();
    StaleMayorScan(stale, StaleSettings(PathCommand));
    DetailMentions(stale, MissingPathExport);
  }

  /** `MissingDeaconNudge`: the detail names the deacon nudge. */
  lemma MissingDeaconNudgeScan(stale: seq<StaleFile>)
    requires IsScanOf(stale, map[At(MayorRole) := Parsed(StaleSettings(DeaconNudgeCommand))])
    ensures Summarize(stale).status == StatusError
    ensures exists d :: d in Summarize(stale).details && Contains(d, "deacon nudge")
  {
    MissingDeaconNudgeReason();
    StaleMayorScan(stale, StaleSettings(DeaconNudgeCommand));
    DetailMentions(stale, MissingDeaconNudge);
  }

  /** `MissingStopHook`: the detail names the Stop hook. */
  lemma MissingStopScan(stale: seq<StaleFile>)
    requires IsScanOf(stale, map[At(MayorRole) := Parsed(StaleSettings(StopKey))])
    ensures Summarize(stale).status == StatusError
    ensures exists d :: d in Summarize(stale).details && Contains(d, "Stop hook")
  {
    MissingStopReason();
    StaleMayorScan(stale, StaleSettings(StopKey));
    DetailMentions(stale, MissingStopHook);
  }

  /** `WrongLocationWitness` and `WrongLocationRefinery`: valid content one level too shallow is stale. */
  lemma WrongLocationScan(stale: seq<StaleFile>, role: Role)
    requires role == WitnessRole(TestRig) || role == RefineryRole(TestRig)
    requires IsScanOf(stale, map[Shallow(role) := Parsed(ValidSettings())])
    ensures Summarize(stale).status == StatusError
    ensures exists d :: d in Summarize(stale).details && Contains(d, "wrong location")
  {
    assert TestRig[0] == 't';
    ClassifyLocation(Located(role, WrongLocation));
    SingleFileScan(stale, Shallow(role), Parsed(ValidSettings()));
    DetailMentions(stale, MisplacedReason);
  }

  /** `InvalidJSON`: an unparseable mayor file is reported, not fatal. */
  lemma InvalidJsonScan(stale: seq<StaleFile>)
    requires IsScanOf(stale, map[At(MayorRole) := Unparseable])
    ensures Summarize(stale).status == StatusError
    ensures exists d :: d in Summarize(stale).details && Contains(d, "invalid JSON")
  {
    ClassifyLocation(Located(MayorRole, Correct));
    SingleFileScan(stale, At(MayorRole), Unparseable);
    DetailMentions(stale, InvalidJsonReason);
  }

  /** A file at a role's own place is stale exactly when its content fails a requirement. */
  lemma PlacedInspect(role: Role, s: Settings)
    requires WellFormedLocated(Located(role, Correct))
    ensures Inspect(At(role), Parsed(s)).Some? <==> StructuralReasons(s) != []
  {
    ClassifyLocation(Located(role, Correct));
  }

  /** A witness or refinery file one level too shallow is stale whatever it holds. */
  lemma MisplacedInspect(role: Role, c: Content)
    requires role.WitnessRole? || role.RefineryRole?
    requires IsRigDir(role.rig)
    ensures Inspect(Shallow(role), c).Some?
  {
    ClassifyLocation(Located(role, WrongLocation));
  }

  function MultipleStaleTown(): map<Path, Content> {
    map[At(MayorRole) := Parsed(StaleSettings(PathCommand)),
        At(DeaconRole) := Parsed(StaleSettings(StopKey)),
        Shallow(WitnessRole(TestRig)) := Parsed(ValidSettings())]
  }

  /** Three distinct paths make a set of three. */
  lemma ThreeDistinct(p1: Path, p2: Path, p3: Path)
    requires p1 != p2 && p1 != p3 && p2 != p3
    ensures |{p1, p2, p3}| == 3
  {
    assert {p1, p2, p3} == {p1, p2} + {p3} && p3 !in {p1, p2};
    assert {p1, p2} == {p1} + {p2} && p2 !in {p1};
  }

  /** Three distinct files that are each stale make a stale set of three. */
  lemma ThreeStalePaths(p1: Path, c1: Content, p2: Path, c2: Content, p3: Path, c3: Content)
    requires p1 != p2 && p1 != p3 && p2 != p3
    requires Inspect(p1, c1).Some? && Inspect(p2, c2).Some? && Inspect(p3, c3).Some?
    ensures |StalePaths(map[p1 := c1, p2 := c2, p3 := c3])| == 3
  {
    var none: map<Path, Content> := map[];
    assert StalePaths(none) == {};
    AddStaleFile(none, p1, c1);
    AddStaleFile(none[p1 := c1], p2, c2);
    AddStaleFile(none[p1 := c1][p2 := c2], p3, c3);
    assert map[p1 := c1, p2 := c2, p3 := c3] == none[p1 := c1][p2 := c2][p3 := c3];
    ThreeDistinct(p1, p2, p3);
  }

  /** A scan of three distinct files that are each stale counts three. */
  lemma AllThreeStale(stale: seq<StaleFile>, p1: Path, c1: Content, p2: Path, c2: Content, p3: Path, c3: Content)
    requires p1 != p2 && p1 != p3 && p2 != p3
    requires Inspect(p1, c1).Some? && Inspect(p2, c2).Some? && Inspect(p3, c3).Some?
    requires IsScanOf(stale, map[p1 := c1, p2 := c2, p3 := c3])
    ensures |stale| == 3
  {
    ThreeStalePaths(p1, c1, p2, c2, p3, c3);
    ScanCount(stale, map[p1 := c1, p2 := c2, p3 := c3]);
  }

  /** Of three files, only the second stale one is in the stale set. */
  lemma OnlySecondStalePaths(p1: Path, c1: Content, p2: Path, c2: Content, p3: Path, c3: Content)
    requires p2 != p3
    requires Inspect(p1, c1).None? && Inspect(p2, c2).Some? && Inspect(p3, c3).None?
    ensures StalePaths(map[p1 := c1, p2 := c2, p3 := c3]) == {p2}
  {
    var none: map<Path, Content> := map[];
    assert StalePaths(none) == {};
    AddCleanFile(none, p1, c1);
    AddStaleFile(none[p1 := c1], p2, c2);
    AddCleanFile(none[p1 := c1][p2 := c2], p3, c3);
    assert map[p1 := c1, p2 := c2, p3 := c3] == none[p1 := c1][p2 := c2][p3 := c3];
  }

  /** A scan of three files of which only the second is stale counts one. */
  lemma OnlySecondStale(stale: seq<StaleFile>, p1: Path, c1: Content, p2: Path, c2: Content, p3: Path, c3: Content)
    requires p2 != p3
    requires Inspect(p1, c1).None? && Inspect(p2, c2).Some? && Inspect(p3, c3).None?
    requires IsScanOf(stale, map[p1 := c1, p2 := c2, p3 := c3])
    ensures |stale| == 1
  {
    OnlySecondStalePaths(p1, c1, p2, c2, p3, c3);
    ScanCount(stale, map[p1 := c1, p2 := c2, p3 := c3]);
  }

  /** `MultipleStaleFiles`: three differently stale files are counted as three. */
  lemma MultipleStaleScan(stale: seq<StaleFile>)
    requires IsScanOf(stale, MultipleStaleTown())
    ensures Summarize(stale).status == StatusError
    ensures Contains(Summarize(stale).message, "3 stale")
  {
    TestPlacesWellFormed();
    MissingPathReason();
    PlacedInspect(MayorRole, StaleSettings(PathCommand));
    MissingStopReason();
    PlacedInspect(DeaconRole, StaleSettings(StopKey));
    MisplacedInspect(WitnessRole(TestRig), Parsed(ValidSettings()));
    assert |At(MayorRole)| == 2 && |At(DeaconRole)| == 3 && |Shallow(WitnessRole(TestRig))| == 4;
    AllThreeStale(stale, At(MayorRole), Parsed(StaleSettings(PathCommand)),
      At(DeaconRole), Parsed(StaleSettings(StopKey)), Shallow(WitnessRole(TestRig)), Parsed(ValidSettings()));
    ThreeStale();
  }

  function MixedTown(): map<Path, Content> {
    map[At(MayorRole) := Parsed(ValidSettings()),
        At(WitnessRole(TestRig)) := Parsed(StaleSettings(PathCommand)),
        At(RefineryRole(TestRig)) := Parsed(ValidSettings())]
  }

  /** Of the mixed town's three files only the witness file is stale. */
  lemma MixedTownStalePaths()
    ensures StalePaths(MixedTown()) == {At(WitnessRole(TestRig))}
  {
    TestPlacesWellFormed();
    ValidSettingsCompliant();
    PlacedInspect(MayorRole, ValidSettings());
    MissingPathReason();
    PlacedInspect(WitnessRole(TestRig), StaleSettings(PathCommand));
    PlacedInspect(RefineryRole(TestRig), ValidSettings());
    assert At(WitnessRole(TestRig))[1] != At(RefineryRole(TestRig))[1];
    OnlySecondStalePaths(At(MayorRole), Parsed(ValidSettings()),
      At(WitnessRole(TestRig)), Parsed(StaleSettings(PathCommand)), At(RefineryRole(TestRig)), Parsed(ValidSettings()));
  }

  lemma MixedTownOneStale(stale: seq<StaleFile>)
    requires IsScanOf(stale, MixedTown())
    ensures |stale| == 1
  {
    MixedTownStalePaths();
    ScanCount(stale, MixedTown());
  }

  /** `MixedValidAndStale`: only the stale witness file is counted, with one detail. */
  lemma MixedScan(stale: seq<StaleFile>)
    requires IsScanOf(stale, MixedTown())
    ensures Summarize(stale).status == StatusError
    ensures Contains(Summarize(stale).message, "1 stale")
    ensures |Summarize(stale).details| == 1
  {
    MixedTownOneStale(stale);
    OneStale();
  }

  /** The top-level directories the test fills with witness-shaped settings that must be skipped. */
  const SkippedDirs: set<string> := {"mayor", "deacon", "daemon", ".git", "docs", ".hidden"}

  lemma SkippedDirsAreNotRigs()
    ensures forall d | d in SkippedDirs :: !IsRigDir(d)
  {
    assert IsHidden(".git") && IsHidden(".hidden");
  }

  /** A witness-shaped file with the given content below each skipped directory. */
  function SkippedDirTown(c: Content): map<Path, Content> {
    map d: string | d in SkippedDirs :: [d, "witness", "rig"] + SettingsTail() := c
  }

  /** `SkipsNonRigDirectories`: witness-shaped files under system and hidden directories are ignored. */
  lemma SkippedDirScan(stale: seq<StaleFile>, c: Content)
    requires IsScanOf(stale, SkippedDirTown(c))
    ensures stale == []
  {
    var files := SkippedDirTown(c);
    SkippedDirsAreNotRigs();
    forall p | p in files ensures |p| > 3 && !IsRigDir(p[0]) {
      var d :| d in SkippedDirs && p == [d, "witness", "rig"] + SettingsTail();
      assert p[0] == d;
    }
    NonRigTreesIgnored(files);
    ScanCount(stale, files);
  }

  /** Fixing a town whose one file is misplaced leaves it empty. */
  lemma SoleMisplacedFileFixed(stale: seq<StaleFile>, path: Path, c: Content)
    requires IsScanOf(stale, map[path := c])
    requires Classify(path).Some? && Classify(path).value.placement == WrongLocation
    ensures map[path := c] - MisplacedPathsOf(stale) == map[]
  {
    ScanFindsMisplaced(stale, map[path := c]);
    assert MisplacedPaths(map[path := c]) == {path};
  }

  /** Run, fix and run again on a town whose one file is misplaced: stale first, deleted, then clean. */
  method FixDeletesMisplacedFile(path: Path, c: Content) returns (before: Status, deleted: bool, after: Status)
    requires Classify(path).Some? && Classify(path).value.placement == WrongLocation
    ensures before == StatusError && deleted && after == StatusOK
  {
    var town := new Town(map[path := c]);
    var check := new ClaudeSettingsCheck();
    var first := check.Run(town);
    SingleFileScan(check.staleSettings, path, c);
    SoleMisplacedFileFixed(check.staleSettings, path, c);
    check.Fix(town);
    assert town.files == map[];
    deleted := path !in town.files;
    var second := check.Run(town);
    EmptyTownOK(check.staleSettings);
    before := first.status;
    after := second.status;
  }

  /** `FixDeletesStaleFile`: the fix deletes a misplaced witness file and a second run is clean. */
  method FixDeletesWrongLocationFile() returns (before: Status, deleted: bool, after: Status)
    ensures before == StatusError && deleted && after == StatusOK
  {
    assert TestRig[0] == 't';
    ClassifyLocation(Located(WitnessRole(TestRig), WrongLocation));
    before, deleted, after := FixDeletesMisplacedFile(Shallow(WitnessRole(TestRig)), Parsed(ValidSettings()));
  }
}
