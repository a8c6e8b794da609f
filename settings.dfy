/**
 * Claude settings compliance: where each role's settings file belongs under the town root, and
 * which stale reasons a settings file earns from its place and its content.
 */
module ClaudeSettings {
  import opened Wrappers
  import opened Strings

  // ---------------------------------------------------------------------------------------------
  // Placement of settings files
  // ---------------------------------------------------------------------------------------------

  /** A file path as its segments below the town root. */
  type Path = seq<string>

  /** The role a settings file serves, read off its position in the tree. */
  datatype Role =
    | MayorRole
    | DeaconRole
    | WitnessRole(rig: string)
    | RefineryRole(rig: string)
    | CrewRole(rig: string, name: string)
    | PolecatRole(rig: string, name: string)
  {
    predicate RigScoped() {
      !MayorRole? && !DeaconRole?
    }
  }

  /** Whether a file sits where its role's settings belong. */
  datatype Placement = Correct | WrongLocation

  datatype Located = Located(role: Role, placement: Placement)

  const SettingsDir := ".claude"
  const SettingsFile := "settings.json"

  /** The last two segments of every settings path. */
  function SettingsTail(): Path {
    [SettingsDir, SettingsFile]
  }

  /** Top-level directories of the town that are never rigs. */
  const NonRigDirs: set<string> := {"mayor", "deacon", "daemon", ".git", "docs"}

  predicate IsHidden(dir: string) {
    |dir| > 0 && dir[0] == '.'
  }

  /** A top-level directory is scanned as a rig unless it is on the skip list or hidden. */
  predicate IsRigDir(dir: string) {
    dir != "" && dir !in NonRigDirs && !IsHidden(dir)
  }

  /** The locations the scanner recognises: rigs are real rig directories, agent names are non-empty,
      and only the witness and refinery have a recognised wrong location. */
  predicate WellFormedLocated(loc: Located) {
    (loc.role.RigScoped() ==> IsRigDir(loc.role.rig)) &&
    ((loc.role.CrewRole? || loc.role.PolecatRole?) ==> loc.role.name != "") &&
    (loc.placement == WrongLocation ==> loc.role.WitnessRole? || loc.role.RefineryRole?)
  }

  /** Where a file of the given role and placement lives. */
  function LocationPath(loc: Located): Path {
    match loc.role
    case MayorRole => SettingsTail()
    case DeaconRole => ["deacon"] + SettingsTail()
    case WitnessRole(r) =>
      if loc.placement == Correct then [r, "witness", "rig"] + SettingsTail() else [r, "witness"] + SettingsTail()
    case RefineryRole(r) =>
      if loc.placement == Correct then [r, "refinery", "rig"] + SettingsTail() else [r, "refinery"] + SettingsTail()
    case CrewRole(r, n) => [r, "crew", n] + SettingsTail()
    case PolecatRole(r, n) => [r, "polecats", n] + SettingsTail()
  }

  /**
   * The role and placement of a file found under the town root, or `None` for a file the scanner
   * does not look at. Every answer is a recognised location whose path is the file's own path, so
   * nothing under a skip-listed or hidden top-level directory is ever taken for a rig's settings.
   */
  function Classify(path: Path): (r: Option<Located>)
    ensures r.Some? ==> WellFormedLocated(r.value) && LocationPath(r.value) == path
    ensures r.Some? && r.value.role.RigScoped() ==> IsRigDir(path[0])
  {
    if |path| == 2 && path == SettingsTail() then Some(Located(MayorRole, Correct))
    else if |path| == 3 && path[0] == "deacon" && path[1..] == SettingsTail() then
      assert path == ["deacon"] + path[1..];
      Some(Located(DeaconRole, Correct))
    else if |path| == 4 && IsRigDir(path[0]) && path[2..] == SettingsTail() then
      assert path == [path[0], path[1]] + path[2..];
      if path[1] == "witness" then Some(Located(WitnessRole(path[0]), WrongLocation))
      else if path[1] == "refinery" then Some(Located(RefineryRole(path[0]), WrongLocation))
      else None
    else if |path| == 5 && IsRigDir(path[0]) && path[3..] == SettingsTail() then
      assert path == [path[0], path[1], path[2]] + path[3..];
      if path[1] == "witness" && path[2] == "rig" then Some(Located(WitnessRole(path[0]), Correct))
      else if path[1] == "refinery" && path[2] == "rig" then Some(Located(RefineryRole(path[0]), Correct))
      else if path[1] == "crew" && path[2] != "" then Some(Located(CrewRole(path[0], path[2]), Correct))
      else if path[1] == "polecats" && path[2] != "" then Some(Located(PolecatRole(path[0], path[2]), Correct))
      else None
    else None
  }

  /** Every recognised location is classified back as itself. */
  lemma ClassifyLocation(loc: Located)
    requires WellFormedLocated(loc)
    ensures Classify(LocationPath(loc)) == Some(loc)
  {
    var p := LocationPath(loc);
    match loc.role
    case MayorRole =>
    case DeaconRole =>
      assert p[1..] == SettingsTail();
    case WitnessRole(r) =>
      if loc.placement == Correct {
        assert p[3..] == SettingsTail();
      } else {
        assert p[2..] == SettingsTail();
      }
    case RefineryRole(r) =>
      if loc.placement == Correct {
        assert p[3..] == SettingsTail();
      } else {
        assert p[2..] == SettingsTail();
      }
    case CrewRole(r, n) =>
      assert p[3..] == SettingsTail();
    case PolecatRole(r, n) =>
      assert p[3..] == SettingsTail();
  }

  /** Two recognised locations never share a path: each file has one role and one placement. */
  lemma LocationsDistinct(a: Located, b: Located)
    requires WellFormedLocated(a) && WellFormedLocated(b)
    requires LocationPath(a) == LocationPath(b)
    ensures a == b
  {
    ClassifyLocation(a);
    ClassifyLocation(b);
  }

  /** A file below a top-level directory that is not a rig is never a rig role's settings. */
  lemma NonRigDirIgnored(path: Path)
    requires |path| > 2 && !IsRigDir(path[0])
    ensures Classify(path).None? || Classify(path).value.role == DeaconRole
  {
  }

  // ---------------------------------------------------------------------------------------------
  // Settings content
  // ---------------------------------------------------------------------------------------------

  /** A hook entry; the check reads only its command, never its `kind`. */
  datatype Hook = Hook(kind: string, command: string)

  /** A hook group; the check reads only its hooks, never its `matcher`. */
  datatype HookGroup = HookGroup(matcher: string, hooks: seq<Hook>)

  /** The parts of `settings.json` the check looks at; an absent key is `None`. */
  datatype Settings = Settings(enabledPlugins: Option<seq<string>>, hooks: Option<map<string, seq<HookGroup>>>)

  /** A settings file's bytes: unparseable, or parsed into `Settings`. */
  datatype Content = Unparseable | Parsed(settings: Settings)

  const SessionStart := "SessionStart"
  const Stop := "Stop"

  /** The directive that puts the tools on PATH, and the one that announces the session to the deacon. */
  const PathDirective := "PATH="
  const DeaconNudgeDirective := "gt nudge deacon"

  /** Some hook in some group runs a command containing `directive`. */
  predicate AnyCommandContains(groups: seq<HookGroup>, directive: string) {
    exists i | 0 <= i < |groups| :: exists j | 0 <= j < |groups[i].hooks| :: Contains(groups[i].hooks[j].command, directive)
  }

  /** The `SessionStart` hooks run a command containing `directive`. */
  predicate SessionStartRuns(s: Settings, directive: string) {
    s.hooks.Some? && SessionStart in s.hooks.value && AnyCommandContains(s.hooks.value[SessionStart], directive)
  }

  predicate HasStopHook(s: Settings) {
    s.hooks.Some? && Stop in s.hooks.value && |s.hooks.value[Stop]| > 0
  }

  /** Content that passes every structural requirement. */
  predicate Compliant(s: Settings) {
    && s.enabledPlugins.Some?
    && s.hooks.Some?
    && SessionStartRuns(s, PathDirective)
    && SessionStartRuns(s, DeaconNudgeDirective)
    && HasStopHook(s)
  }

  // ---------------------------------------------------------------------------------------------
  // Stale reasons
  // ---------------------------------------------------------------------------------------------

  datatype StaleReason =
    | MisplacedReason
    | InvalidJsonReason
    | MissingEnabledPlugins
    | MissingHooks
    | MissingPathExport
    | MissingDeaconNudge
    | MissingStopHook
  {
    /** The fixed vocabulary word naming the reason. */
    function Word(): string {
      match this
      case MisplacedReason => "wrong location"
      case InvalidJsonReason => "invalid JSON"
      case MissingEnabledPlugins => "enabledPlugins"
      case MissingHooks => "hooks"
      case MissingPathExport => "PATH export"
      case MissingDeaconNudge => "deacon nudge"
      case MissingStopHook => "Stop hook"
    }

    predicate IsMissing() {
      !MisplacedReason? && !InvalidJsonReason?
    }

    /** How a detail line states the reason: a missing element is prefixed with `missing `. */
    function Label(): (text: string)
      ensures Contains(text, Word())
    {
      if IsMissing() then
        ContainsMiddle("missing ", Word(), "");
        assert "missing " + Word() + "" == "missing " + Word();
        "missing " + Word()
      else
        ContainsMiddle("", Word(), "");
        assert "" + Word() + "" == Word();
        Word()
    }
  }

  /** The one-reason list when `failed`, else nothing. */
  function ReasonIf(failed: bool, reason: StaleReason): (reasons: seq<StaleReason>)
    ensures forall x :: x in reasons <==> failed && x == reason
  {
    if failed then [reason] else []
  }

  /** Each structural requirement a parsed file fails, once, in a fixed order. */
  function StructuralReasons(s: Settings): (reasons: seq<StaleReason>)
    ensures reasons == [] <==> Compliant(s)
    ensures MissingEnabledPlugins in reasons <==> s.enabledPlugins.None?
    ensures MissingHooks in reasons <==> s.hooks.None?
    ensures MissingPathExport in reasons <==> !SessionStartRuns(s, PathDirective)
    ensures MissingDeaconNudge in reasons <==> !SessionStartRuns(s, DeaconNudgeDirective)
    ensures MissingStopHook in reasons <==> !HasStopHook(s)
    ensures MisplacedReason !in reasons && InvalidJsonReason !in reasons
  {
    ReasonIf(s.enabledPlugins.None?, MissingEnabledPlugins) +
    ReasonIf(s.hooks.None?, MissingHooks) +
    ReasonIf(!SessionStartRuns(s, PathDirective), MissingPathExport) +
    ReasonIf(!SessionStartRuns(s, DeaconNudgeDirective), MissingDeaconNudge) +
    ReasonIf(!HasStopHook(s), MissingStopHook)
  }

  /** Without a `hooks` key every hook requirement fails as well. */
  lemma MissingHooksFailsEveryHook(s: Settings)
    requires s.hooks.None?
    ensures StructuralReasons(s) ==
      (if s.enabledPlugins.None? then [MissingEnabledPlugins] else []) +
      [MissingHooks, MissingPathExport, MissingDeaconNudge, MissingStopHook]
  {
  }

  /**
   * The reasons a recognised file is stale: its placement, then its content. An unparseable file
   * stops at the parse stage; a misplaced file is still checked structurally.
   */
  function Reasons(loc: Located, content: Content): (reasons: seq<StaleReason>)
    ensures MisplacedReason in reasons <==> loc.placement == WrongLocation
    ensures InvalidJsonReason in reasons <==> content.Unparseable?
    ensures reasons == [] <==> loc.placement == Correct && content.Parsed? && Compliant(content.settings)
    ensures content.Unparseable? ==> |reasons| <= 2
  {
    ReasonIf(loc.placement == WrongLocation, MisplacedReason) +
    (match content
     case Unparseable => [InvalidJsonReason]
     case Parsed(s) => StructuralReasons(s))
  }
}
