/**
 * The nudge address resolver: human addresses to session names (forward), session names back to
 * addresses (inverse), and the freshness gate of `--if-fresh`.
 */
module Nudge {
  import opened Wrappers
  import opened Strings
  import opened Fleet

  // ---------------------------------------------------------------------------------------------
  // Address patterns
  // ---------------------------------------------------------------------------------------------

  /** The rig component of a pattern: a literal rig name or the wildcard `*`. */
  datatype RigSel = AnyRig | InRig(rig: string)

  /** The agent-name component of a crew or polecat pattern: a literal name or `*`. */
  datatype NameSel = AnyName | Named(name: string)

  /** The recognised address forms, after parsing. */
  datatype Pattern =
    | MayorPattern                                    // mayor
    | DeaconPattern                                   // deacon
    | WitnessPattern(rigSel: RigSel)                  // <rig>/witness, */witness
    | RefineryPattern(rigSel: RigSel)                 // <rig>/refinery
    | CrewPattern(rigSel: RigSel, nameSel: NameSel)   // <rig>/crew/<name|*>
    | PolecatPattern(rigSel: RigSel, nameSel: NameSel) // <rig>/polecats/<name|*>
    | LegacyPattern(rigSel: RigSel, legacyName: string) // <rig>/<name>, a polecat

  function RigSelOf(segment: string): RigSel {
    if segment == "*" then AnyRig else InRig(segment)
  }

  function NameSelOf(segment: string): NameSel {
    if segment == "*" then AnyName else Named(segment)
  }

  /**
   * Reads an address. Anything outside the grammar (bad segment count, empty segment, unknown
   * role keyword) is `None`: resolution is total and never fails.
   */
  function ParsePattern(pattern: string): Option<Pattern> {
    match Cut(pattern, '/')
    case NotFound =>
      if pattern == "mayor" then Some(MayorPattern)
      else if pattern == "deacon" then Some(DeaconPattern)
      else None
    case Found(rig, target) =>
      if rig == "" then None else ParseTarget(RigSelOf(rig), target)
  }

  /** What follows the rig: a role keyword, a legacy polecat name, or `<kind>/<name>`. */
  function ParseTarget(r: RigSel, target: string): Option<Pattern> {
    match Cut(target, '/')
    case NotFound =>
      if target == "" then None
      else if target == "witness" then Some(WitnessPattern(r))
      else if target == "refinery" then Some(RefineryPattern(r))
      else Some(LegacyPattern(r, target))
    case Found(kind, name) => ParseMember(r, kind, name)
  }

  /** The three-segment forms `<rig>/crew/<name>` and `<rig>/polecats/<name>`. */
  function ParseMember(r: RigSel, kind: string, name: string): Option<Pattern> {
    if name == "" || '/' in name then None
    else if kind == "crew" then Some(CrewPattern(r, NameSelOf(name)))
    else if kind == "polecats" then Some(PolecatPattern(r, NameSelOf(name)))
    else None
  }

  predicate RigMatches(sel: RigSel, rig: string) {
    sel.AnyRig? || sel.rig == rig
  }

  predicate NameMatches(sel: NameSel, name: string) {
    sel.AnyName? || sel.name == name
  }

  /** Whether session `s` is denoted by pattern `p`. Wildcards never cross a role. */
  predicate Matches(p: Pattern, s: AgentSession) {
    match p
    case MayorPattern => s.agentType == Mayor
    case DeaconPattern => s.agentType == Deacon
    case WitnessPattern(r) => s.agentType == Witness && RigMatches(r, s.rig)
    case RefineryPattern(r) => s.agentType == Refinery && RigMatches(r, s.rig)
    case CrewPattern(r, n) => s.agentType == Crew && RigMatches(r, s.rig) && NameMatches(n, s.agentName)
    case PolecatPattern(r, n) => s.agentType == Polecat && RigMatches(r, s.rig) && NameMatches(n, s.agentName)
    // legacy naming predates crew and defaults to polecat
    case LegacyPattern(r, n) => s.agentType == Polecat && RigMatches(r, s.rig) && NameMatches(NameSelOf(n), s.agentName)
  }

  /** How many listed sessions `p` matches, each listed session counted once. */
  function MatchCount(p: Pattern, sessions: seq<AgentSession>): (n: nat)
    ensures n <= |sessions|
  {
    if sessions == [] then 0
    else (if Matches(p, sessions[|sessions| - 1]) then 1 else 0) + MatchCount(p, sessions[..|sessions| - 1])
  }

  /** The names of the sessions `p` denotes, in listing order, one name per matching session. */
  function Select(p: Pattern, sessions: seq<AgentSession>): (names: seq<string>)
    ensures |names| == MatchCount(p, sessions) && |names| <= |sessions|
    ensures forall x :: x in names <==> exists s :: s in sessions && Matches(p, s) && s.name == x
  {
    if sessions == [] then []
    else
      var head, rest := sessions[0], Select(p, sessions[1..]);
      assert forall s :: s in sessions <==> s == head || s in sessions[1..];
      assert sessions == [head] + sessions[1..];
      MatchCountAppend(p, [head], sessions[1..]);
      assert MatchCount(p, [head]) == if Matches(p, head) then 1 else 0;
      if Matches(p, head) then [head.name] + rest else rest
  }

  /** Splitting the listing in two splits the matches in two. */
  lemma {:induction false} MatchCountAppend(p: Pattern, front: seq<AgentSession>, back: seq<AgentSession>)
    ensures MatchCount(p, front + back) == MatchCount(p, front) + MatchCount(p, back)
  {
    if back != [] {
      var init := back[..|back| - 1];
      assert (front + back)[..|front + back| - 1] == front + init;
      assert (front + back)[|front + back| - 1] == back[|back| - 1];
      MatchCountAppend(p, front, init);
    } else {
      assert front + back == front;
    }
  }

  /** `resolveNudgePattern`: the names of the sessions an address denotes; empty when it denotes none. */
  function Resolve(pattern: string, sessions: seq<AgentSession>): (names: seq<string>)
    ensures ParsePattern(pattern).None? ==> names == []
    ensures ParsePattern(pattern).Some? ==> |names| == MatchCount(ParsePattern(pattern).value, sessions)
    ensures forall x :: x in names <==>
      ParsePattern(pattern).Some? && exists s :: s in sessions && Matches(ParsePattern(pattern).value, s) && s.name == x
  {
    match ParsePattern(pattern)
    case None => []
    case Some(p) => Select(p, sessions)
  }

  // ---------------------------------------------------------------------------------------------
  // Writing patterns back out
  // ---------------------------------------------------------------------------------------------

  /** A path segment: non-empty and free of `/`. */
  predicate ValidSegment(segment: string) {
    segment != "" && '/' !in segment
  }

  /** A name that can stand as the rig of an address. */
  predicate ValidRigName(rig: string) {
    ValidSegment(rig) && rig != "*"
  }

  function RigSegment(sel: RigSel): string {
    match sel
    case AnyRig => "*"
    case InRig(r) => r
  }

  function NameSegment(sel: NameSel): string {
    match sel
    case AnyName => "*"
    case Named(n) => n
  }

  predicate WellFormedRigSel(sel: RigSel) {
    sel.InRig? ==> ValidRigName(sel.rig)
  }

  predicate WellFormedNameSel(sel: NameSel) {
    sel.Named? ==> ValidSegment(sel.name) && sel.name != "*"
  }

  /** Patterns whose components can be written out and read back unchanged. */
  predicate WellFormedPattern(p: Pattern) {
    match p
    case MayorPattern => true
    case DeaconPattern => true
    case WitnessPattern(r) => WellFormedRigSel(r)
    case RefineryPattern(r) => WellFormedRigSel(r)
    case CrewPattern(r, n) => WellFormedRigSel(r) && WellFormedNameSel(n)
    case PolecatPattern(r, n) => WellFormedRigSel(r) && WellFormedNameSel(n)
    case LegacyPattern(r, n) => WellFormedRigSel(r) && ValidSegment(n) && n != "witness" && n != "refinery"
  }

  /** The address text of a pattern. */
  function FormatPattern(p: Pattern): string {
    match p
    case MayorPattern => "mayor"
    case DeaconPattern => "deacon"
    case WitnessPattern(r) => RigSegment(r) + "/witness"
    case RefineryPattern(r) => RigSegment(r) + "/refinery"
    case CrewPattern(r, n) => RigSegment(r) + "/crew/" + NameSegment(n)
    case PolecatPattern(r, n) => RigSegment(r) + "/polecats/" + NameSegment(n)
    case LegacyPattern(r, n) => RigSegment(r) + "/" + n
  }

  lemma RigSelRoundTrip(sel: RigSel)
    requires WellFormedRigSel(sel)
    ensures RigSelOf(RigSegment(sel)) == sel && ValidSegment(RigSegment(sel))
  {
  }

  lemma NameSelRoundTrip(sel: NameSel)
    requires WellFormedNameSel(sel)
    ensures NameSelOf(NameSegment(sel)) == sel && ValidSegment(NameSegment(sel))
  {
  }

  /** An address that starts with a rig segment is read by what follows the rig. */
  lemma {:induction false} ParseRigPrefixed(rig: string, target: string)
    requires ValidSegment(rig)
    ensures ParsePattern(rig + "/" + target) == ParseTarget(RigSelOf(rig), target)
  {
    assert rig + "/" + target == rig + ['/'] + target;
    CutAt(rig, '/', target);
  }

  /** A target `<kind>/<name>` is read as a member pattern. */
  lemma {:induction false} ParseTargetMember(r: RigSel, kind: string, name: string)
    requires '/' !in kind
    ensures ParseTarget(r, kind + "/" + name) == ParseMember(r, kind, name)
  {
    assert kind + "/" + name == kind + ['/'] + name;
    CutAt(kind, '/', name);
  }

  /** The two town-level keywords are read as themselves. */
  lemma ParseTownKeywords()
    ensures ParsePattern("mayor") == Some(MayorPattern)
    ensures ParsePattern("deacon") == Some(DeaconPattern)
  {
    assert '/' !in "mayor" && '/' !in "deacon";
  }

  /** `<rig>/<role>` is read as a role pattern of that rig, or as a legacy polecat name. */
  lemma ParseRoleForm(r: RigSel, target: string)
    requires WellFormedRigSel(r) && ValidSegment(target)
    ensures ParsePattern(RigSegment(r) + "/" + target) ==
      if target == "witness" then Some(WitnessPattern(r))
      else if target == "refinery" then Some(RefineryPattern(r))
      else Some(LegacyPattern(r, target))
  {
    var seg := RigSegment(r);
    RigSelRoundTrip(r);
    ParseRigPrefixed(seg, target);
    assert Cut(target, '/') == NotFound;
  }

  /** `<rig>/<kind>/<name>` is read as a member pattern of that rig. */
  lemma ParseMemberForm(r: RigSel, kind: string, name: string)
    requires WellFormedRigSel(r) && '/' !in kind
    ensures ParsePattern(RigSegment(r) + "/" + kind + "/" + name) == ParseMember(r, kind, name)
  {
    var seg := RigSegment(r);
    RigSelRoundTrip(r);
    assert seg + "/" + kind + "/" + name == seg + "/" + (kind + "/" + name);
    ParseRigPrefixed(seg, kind + "/" + name);
    ParseTargetMember(r, kind, name);
  }

  /** A member pattern's text parses back to that pattern. */
  lemma ParseFormatMember(p: Pattern, kind: string)
    requires (p.CrewPattern? && kind == "crew") || (p.PolecatPattern? && kind == "polecats")
    requires WellFormedPattern(p)
    ensures ParsePattern(FormatPattern(p)) == Some(p)
  {
    var name := NameSegment(p.nameSel);
    NameSelRoundTrip(p.nameSel);
    assert FormatPattern(p) == RigSegment(p.rigSel) + "/" + kind + "/" + name;
    ParseMemberForm(p.rigSel, kind, name);
  }

  /** Parsing inverts formatting on every well-formed pattern. */
  lemma ParseFormat(p: Pattern)
    requires WellFormedPattern(p)
    ensures ParsePattern(FormatPattern(p)) == Some(p)
  {
    match p
    case MayorPattern => ParseTownKeywords();
    case DeaconPattern => ParseTownKeywords();
    case WitnessPattern(r) =>
      assert FormatPattern(p) == RigSegment(r) + "/" + "witness";
      ParseRoleForm(r, "witness");
    case RefineryPattern(r) =>
      assert FormatPattern(p) == RigSegment(r) + "/" + "refinery";
      ParseRoleForm(r, "refinery");
    case CrewPattern(r, n) => ParseFormatMember(p, "crew");
    case PolecatPattern(r, n) => ParseFormatMember(p, "polecats");
    case LegacyPattern(r, n) =>
      ParseRoleForm(r, n);
  }

  /** A single-segment target that parses is written back as itself. */
  lemma FormatParseRole(r: RigSel, target: string)
    requires WellFormedRigSel(r) && '/' !in target && ParseTarget(r, target).Some?
    ensures WellFormedPattern(ParseTarget(r, target).value)
    ensures FormatPattern(ParseTarget(r, target).value) == RigSegment(r) + "/" + target
  {
    assert Cut(target, '/') == NotFound;
    var q := ParseTarget(r, target).value;
    if target == "witness" {
      assert q == WitnessPattern(r);
      assert RigSegment(r) + "/witness" == RigSegment(r) + "/" + target;
    } else if target == "refinery" {
      assert q == RefineryPattern(r);
      assert RigSegment(r) + "/refinery" == RigSegment(r) + "/" + target;
    } else {
      assert q == LegacyPattern(r, target);
    }
  }

  /** A member target `<kind>/<name>` that parses is written back as itself. */
  lemma FormatParseMember(r: RigSel, kind: string, name: string)
    requires WellFormedRigSel(r) && ParseMember(r, kind, name).Some?
    ensures WellFormedPattern(ParseMember(r, kind, name).value)
    ensures FormatPattern(ParseMember(r, kind, name).value) == RigSegment(r) + "/" + kind + "/" + name
  {
    var n := NameSelOf(name);
    assert NameSegment(n) == name && WellFormedNameSel(n);
    var q := ParseMember(r, kind, name).value;
    var seg := RigSegment(r);
    if kind == "crew" {
      assert q == CrewPattern(r, n);
      assert FormatPattern(q) == seg + "/crew/" + name;
      assert seg + "/crew/" + name == seg + "/" + kind + "/" + name;
    } else {
      assert q == PolecatPattern(r, n);
      assert FormatPattern(q) == seg + "/polecats/" + name;
      assert seg + "/polecats/" + name == seg + "/" + kind + "/" + name;
    }
  }

  /** A target that parses is written back as itself, from a well-formed pattern. */
  lemma FormatParseTarget(rig: string, target: string)
    requires ValidSegment(rig) && ParseTarget(RigSelOf(rig), target).Some?
    ensures WellFormedPattern(ParseTarget(RigSelOf(rig), target).value)
    ensures FormatPattern(ParseTarget(RigSelOf(rig), target).value) == rig + "/" + target
  {
    var r := RigSelOf(rig);
    assert RigSegment(r) == rig && WellFormedRigSel(r);
    match Cut(target, '/')
    case NotFound =>
      FormatParseRole(r, target);
    case Found(kind, name) =>
      assert target == kind + "/" + name;
      assert ParseTarget(r, target) == ParseMember(r, kind, name);
      FormatParseMember(r, kind, name);
      assert rig + "/" + kind + "/" + name == rig + "/" + target;
  }

  /**
   * Every address that parses is the text of a well-formed pattern, so no address outside the
   * grammar is read as one inside it.
   */
  lemma FormatParse(s: string)
    requires ParsePattern(s).Some?
    ensures WellFormedPattern(ParsePattern(s).value) && FormatPattern(ParsePattern(s).value) == s
  {
    match Cut(s, '/')
    case NotFound =>
    case Found(rig, target) =>
      assert s == rig + "/" + target;
      FormatParseTarget(rig, target);
  }

  /** Resolving the text of a well-formed pattern selects exactly the sessions the pattern denotes. */
  lemma ResolveFormat(p: Pattern, sessions: seq<AgentSession>)
    requires WellFormedPattern(p)
    ensures Resolve(FormatPattern(p), sessions) == Select(p, sessions)
  {
    ParseFormat(p);
  }

  // ---------------------------------------------------------------------------------------------
  // Facts about selection
  // ---------------------------------------------------------------------------------------------

  /** A pattern that no listed session matches selects nothing. */
  lemma {:induction false} SelectNone(p: Pattern, sessions: seq<AgentSession>)
    requires forall i :: 0 <= i < |sessions| ==> !Matches(p, sessions[i])
    ensures Select(p, sessions) == []
  {
    if sessions != [] {
      SelectNone(p, sessions[1..]);
    }
  }

  /** A pattern that exactly one listed session matches selects exactly that session's name. */
  lemma {:induction false} SelectSingle(p: Pattern, sessions: seq<AgentSession>, k: nat)
    requires k < |sessions| && Matches(p, sessions[k])
    requires forall i :: 0 <= i < |sessions| && i != k ==> !Matches(p, sessions[i])
    ensures Select(p, sessions) == [sessions[k].name]
  {
    if k == 0 {
      SelectNone(p, sessions[1..]);
    } else {
      SelectSingle(p, sessions[1..], k - 1);
    }
  }

  /** A pattern that exactly two listed sessions match selects their names in listing order. */
  lemma {:induction false} SelectPair(p: Pattern, sessions: seq<AgentSession>, j: nat, k: nat)
    requires j < k < |sessions| && Matches(p, sessions[j]) && Matches(p, sessions[k])
    requires forall i :: 0 <= i < |sessions| && i != j && i != k ==> !Matches(p, sessions[i])
    ensures Select(p, sessions) == [sessions[j].name, sessions[k].name]
  {
    if j == 0 {
      SelectSingle(p, sessions[1..], k - 1);
    } else {
      SelectPair(p, sessions[1..], j - 1, k - 1);
    }
  }

  /** Two patterns that agree on every session select the same names in the same order. */
  lemma {:induction false} SelectAgree(p: Pattern, q: Pattern, sessions: seq<AgentSession>)
    requires forall i :: 0 <= i < |sessions| ==> (Matches(p, sessions[i]) <==> Matches(q, sessions[i]))
    ensures Select(p, sessions) == Select(q, sessions)
  {
    if sessions != [] {
      SelectAgree(p, q, sessions[1..]);
    }
  }

  // ---------------------------------------------------------------------------------------------
  // The address forms, one by one
  // ---------------------------------------------------------------------------------------------

  /** `mayor` (and likewise `deacon`) denotes the sessions of that type and no other. */
  lemma ResolveTownRole(sessions: seq<AgentSession>)
    ensures forall x :: x in Resolve("mayor", sessions) <==>
      exists s :: s in sessions && s.agentType == Mayor && s.name == x
    ensures forall x :: x in Resolve("deacon", sessions) <==>
      exists s :: s in sessions && s.agentType == Deacon && s.name == x
  {
    ResolveFormat(MayorPattern, sessions);
    ResolveFormat(DeaconPattern, sessions);
  }

  /** In a fleet with a single mayor, `mayor` resolves to exactly its session name. */
  lemma ResolveSingleMayor(sessions: seq<AgentSession>, k: nat)
    requires k < |sessions| && sessions[k].agentType == Mayor
    requires forall i :: 0 <= i < |sessions| && i != k ==> sessions[i].agentType != Mayor
    ensures Resolve("mayor", sessions) == [sessions[k].name]
  {
    ResolveFormat(MayorPattern, sessions);
    SelectSingle(MayorPattern, sessions, k);
  }

  /** In a fleet with a single deacon, `deacon` resolves to exactly its session name. */
  lemma ResolveSingleDeacon(sessions: seq<AgentSession>, k: nat)
    requires k < |sessions| && sessions[k].agentType == Deacon
    requires forall i :: 0 <= i < |sessions| && i != k ==> sessions[i].agentType != Deacon
    ensures Resolve("deacon", sessions) == [sessions[k].name]
  {
    ResolveFormat(DeaconPattern, sessions);
    SelectSingle(DeaconPattern, sessions, k);
  }

  /** `<rig>/witness` and `<rig>/refinery` denote that rig's session of that role only. */
  lemma ResolveRigSingleton(rig: string, sessions: seq<AgentSession>)
    requires ValidRigName(rig)
    ensures forall x :: x in Resolve(rig + "/witness", sessions) <==>
      exists s :: s in sessions && s.agentType == Witness && s.rig == rig && s.name == x
    ensures forall x :: x in Resolve(rig + "/refinery", sessions) <==>
      exists s :: s in sessions && s.agentType == Refinery && s.rig == rig && s.name == x
  {
    ResolveFormat(WitnessPattern(InRig(rig)), sessions);
    ResolveFormat(RefineryPattern(InRig(rig)), sessions);
  }

  /** The any-rig witness address denotes every witness of every rig and nothing else. */
  lemma ResolveAllWitnesses(sessions: seq<AgentSession>)
    ensures forall x :: x in Resolve("*/witness", sessions) <==>
      exists s :: s in sessions && s.agentType == Witness && s.name == x
  {
    ResolveFormat(WitnessPattern(AnyRig), sessions);
  }

  /** The any-name crew and polecat addresses of a rig denote that rig's sessions of that type. */
  lemma ResolveRigWildcard(rig: string, sessions: seq<AgentSession>)
    requires ValidRigName(rig)
    ensures forall x :: x in Resolve(rig + "/crew/*", sessions) <==>
      exists s :: s in sessions && s.agentType == Crew && s.rig == rig && s.name == x
    ensures forall x :: x in Resolve(rig + "/polecats/*", sessions) <==>
      exists s :: s in sessions && s.agentType == Polecat && s.rig == rig && s.name == x
  {
    assert FormatPattern(CrewPattern(InRig(rig), AnyName)) == rig + "/crew/*";
    assert FormatPattern(PolecatPattern(InRig(rig), AnyName)) == rig + "/polecats/*";
    ResolveFormat(CrewPattern(InRig(rig), AnyName), sessions);
    ResolveFormat(PolecatPattern(InRig(rig), AnyName), sessions);
  }

  /** `<rig>/crew/<n>` and `<rig>/polecats/<n>` denote the sessions with that rig, type and agent name. */
  lemma ResolveNamed(rig: string, name: string, sessions: seq<AgentSession>)
    requires ValidRigName(rig) && ValidSegment(name) && name != "*"
    ensures forall x :: x in Resolve(rig + "/crew/" + name, sessions) <==>
      exists s :: s in sessions && s.agentType == Crew && s.rig == rig && s.agentName == name && s.name == x
    ensures forall x :: x in Resolve(rig + "/polecats/" + name, sessions) <==>
      exists s :: s in sessions && s.agentType == Polecat && s.rig == rig && s.agentName == name && s.name == x
  {
    var crew, polecat := CrewPattern(InRig(rig), Named(name)), PolecatPattern(InRig(rig), Named(name));
    assert FormatPattern(crew) == rig + "/crew/" + name;
    assert FormatPattern(polecat) == rig + "/polecats/" + name;
    ResolveFormat(crew, sessions);
    ResolveFormat(polecat, sessions);
  }

  /** The legacy `<rig>/<n>` resolves exactly as `<rig>/polecats/<n>`, same names, same order. */
  lemma LegacyIsPolecat(rig: string, name: string, sessions: seq<AgentSession>)
    requires ValidRigName(rig) && ValidSegment(name) && name != "witness" && name != "refinery"
    ensures Resolve(rig + "/" + name, sessions) == Resolve(rig + "/polecats/" + name, sessions)
  {
    var legacy := LegacyPattern(InRig(rig), name);
    var explicit := PolecatPattern(InRig(rig), NameSelOf(name));
    NameSelRoundTrip(NameSelOf(name));
    ResolveFormat(legacy, sessions);
    ResolveFormat(explicit, sessions);
    SelectAgree(legacy, explicit, sessions);
  }

  /** A rig-scoped pattern naming a rig no session belongs to resolves to nothing. */
  lemma ResolveUnknownRig(p: Pattern, sessions: seq<AgentSession>)
    requires WellFormedPattern(p)
    requires !p.MayorPattern? && !p.DeaconPattern? && p.rigSel.InRig?
    requires forall i :: 0 <= i < |sessions| ==> sessions[i].rig != p.rigSel.rig
    ensures Resolve(FormatPattern(p), sessions) == []
  {
    ResolveFormat(p, sessions);
    SelectNone(p, sessions);
  }

  // ---------------------------------------------------------------------------------------------
  // Session names and their addresses
  // ---------------------------------------------------------------------------------------------

  /** The prefix of the town-level session names (`hq-mayor`, `hq-deacon`). */
  const HqPrefix: string := "hq"

  /** The canonical address of an agent. Polecats keep the short legacy form `<rig>/<name>`. */
  function Address(id: Identity): string {
    match id
    case MayorId => "mayor"
    case DeaconId => "deacon"
    case WitnessId(r) => r + "/witness"
    case RefineryId(r) => r + "/refinery"
    case CrewId(r, n) => r + "/crew/" + n
    case PolecatId(r, n) => r + "/" + n
  }

  /** The session name of an agent whose rig is registered under `prefix`. */
  function SessionName(id: Identity, prefix: string): string {
    match id
    case MayorId => HqPrefix + "-mayor"
    case DeaconId => HqPrefix + "-deacon"
    case WitnessId(_) => prefix + "-witness"
    case RefineryId(_) => prefix + "-refinery"
    case CrewId(_, n) => prefix + "-crew-" + n
    case PolecatId(_, n) => prefix + "-" + n
  }

  /**
   * Reads a session name `<prefix>-<rest>` back into the agent it names, looking the prefix up
   * in the registry. A name without a dash, an unregistered prefix or an empty remainder is `None`.
   */
  function ParseSessionName(name: string, prefixToRig: map<string, string>): Option<Identity> {
    match Cut(name, '-')
    case NotFound => None
    case Found(prefix, rest) => ParseSessionRest(prefix, rest, prefixToRig)
  }

  /** The agent named by `rest` after the first dash, in the rig registered for `prefix`. */
  function ParseSessionRest(prefix: string, rest: string, prefixToRig: map<string, string>): Option<Identity> {
    if prefix == HqPrefix then
      if rest == "mayor" then Some(MayorId)
      else if rest == "deacon" then Some(DeaconId)
      else None
    else if prefix !in prefixToRig || rest == "" then None
    else
      var rig := prefixToRig[prefix];
      if rest == "witness" then Some(WitnessId(rig))
      else if rest == "refinery" then Some(RefineryId(rig))
      else if "crew-" <= rest then
        if rest == "crew-" then None else Some(CrewId(rig, rest[5..]))
      else Some(PolecatId(rig, rest))
  }

  /** A session name is read at its first dash. */
  lemma {:induction false} ParseSessionNameAt(prefix: string, rest: string, prefixToRig: map<string, string>)
    requires '-' !in prefix
    ensures ParseSessionName(prefix + "-" + rest, prefixToRig) == ParseSessionRest(prefix, rest, prefixToRig)
  {
    assert prefix + "-" + rest == prefix + ['-'] + rest;
    CutAt(prefix, '-', rest);
  }

  /** `sessionNameToAddress`: the address of a session, or "" when the name is not recognised. */
  function SessionNameToAddress(name: string, prefixToRig: map<string, string>): string {
    match ParseSessionName(name, prefixToRig)
    case None => ""
    case Some(id) => Address(id)
  }

  /** Agents whose names and addresses follow the fleet's conventions. */
  predicate WellFormedIdentity(id: Identity) {
    match id
    case MayorId => true
    case DeaconId => true
    case WitnessId(r) => ValidRigName(r)
    case RefineryId(r) => ValidRigName(r)
    case CrewId(r, n) => ValidRigName(r) && ValidSegment(n) && n != "*"
    case PolecatId(r, n) =>
      && ValidRigName(r) && ValidSegment(n) && n != "*"
      && n != "witness" && n != "refinery" && !("crew-" <= n)
  }

  /** `prefix` is the registered, dash-free prefix of the agent's rig (town roles need none). */
  predicate PrefixFor(id: Identity, prefix: string, prefixToRig: map<string, string>) {
    match id
    case MayorId => true
    case DeaconId => true
    case _ => '-' !in prefix && prefix != HqPrefix && prefix in prefixToRig && prefixToRig[prefix] == id.rig
  }

  /** The pattern an agent's address parses to. */
  function PatternOf(id: Identity): Pattern {
    match id
    case MayorId => MayorPattern
    case DeaconId => DeaconPattern
    case WitnessId(r) => WitnessPattern(InRig(r))
    case RefineryId(r) => RefineryPattern(InRig(r))
    case CrewId(r, n) => CrewPattern(InRig(r), Named(n))
    case PolecatId(r, n) => LegacyPattern(InRig(r), n)
  }

  /** The remainder `crew-<n>` names crew member `n` of the prefix's rig. */
  lemma ParseCrewRest(prefix: string, n: string, prefixToRig: map<string, string>)
    requires prefix != HqPrefix && prefix in prefixToRig && n != ""
    ensures ParseSessionRest(prefix, "crew-" + n, prefixToRig) == Some(CrewId(prefixToRig[prefix], n))
  {
    var rest := "crew-" + n;
    assert "crew-" <= rest && rest[5..] == n && |rest| > 5;
    assert rest[0] == 'c';
    assert rest != "witness" && rest != "refinery" && rest != "crew-";
  }

  /** Any other remainder names a polecat of the prefix's rig. */
  lemma ParsePolecatRest(prefix: string, n: string, prefixToRig: map<string, string>)
    requires prefix != HqPrefix && prefix in prefixToRig && n != ""
    requires n != "witness" && n != "refinery" && !("crew-" <= n)
    ensures ParseSessionRest(prefix, n, prefixToRig) == Some(PolecatId(prefixToRig[prefix], n))
  {
  }

  /** The names of the town-level agents read back under the reserved prefix. */
  lemma ParseTownSessionName(id: Identity, prefix: string, prefixToRig: map<string, string>)
    requires id.MayorId? || id.DeaconId?
    ensures ParseSessionName(SessionName(id, prefix), prefixToRig) == Some(id)
  {
    if id.MayorId? {
      assert SessionName(id, prefix) == HqPrefix + "-" + "mayor";
      ParseSessionNameAt(HqPrefix, "mayor", prefixToRig);
    } else {
      assert SessionName(id, prefix) == HqPrefix + "-" + "deacon";
      ParseSessionNameAt(HqPrefix, "deacon", prefixToRig);
    }
  }

  /** The names of a rig's witness and refinery read back under the rig's prefix. */
  lemma ParseRigRoleSessionName(id: Identity, prefix: string, prefixToRig: map<string, string>)
    requires id.WitnessId? || id.RefineryId?
    requires WellFormedIdentity(id) && PrefixFor(id, prefix, prefixToRig)
    ensures ParseSessionName(SessionName(id, prefix), prefixToRig) == Some(id)
  {
    if id.WitnessId? {
      assert SessionName(id, prefix) == prefix + "-" + "witness";
      ParseSessionNameAt(prefix, "witness", prefixToRig);
    } else {
      assert SessionName(id, prefix) == prefix + "-" + "refinery";
      ParseSessionNameAt(prefix, "refinery", prefixToRig);
    }
  }

  /** Reading a session name inverts the naming convention. */
  lemma ParseSessionNameOf(id: Identity, prefix: string, prefixToRig: map<string, string>)
    requires WellFormedIdentity(id) && PrefixFor(id, prefix, prefixToRig)
    ensures ParseSessionName(SessionName(id, prefix), prefixToRig) == Some(id)
  {
    match id
    case MayorId => ParseTownSessionName(id, prefix, prefixToRig);
    case DeaconId => ParseTownSessionName(id, prefix, prefixToRig);
    case WitnessId(_) => ParseRigRoleSessionName(id, prefix, prefixToRig);
    case RefineryId(_) => ParseRigRoleSessionName(id, prefix, prefixToRig);
    case CrewId(r, n) =>
      assert SessionName(id, prefix) == prefix + "-" + ("crew-" + n);
      ParseSessionNameAt(prefix, "crew-" + n, prefixToRig);
      ParseCrewRest(prefix, n, prefixToRig);
    case PolecatId(r, n) =>
      ParseSessionNameAt(prefix, n, prefixToRig);
      ParsePolecatRest(prefix, n, prefixToRig);
  }

  /** The address computed from a session name is the agent's canonical address. */
  lemma SessionNameRoundTrip(id: Identity, prefix: string, prefixToRig: map<string, string>)
    requires WellFormedIdentity(id) && PrefixFor(id, prefix, prefixToRig)
    ensures SessionNameToAddress(SessionName(id, prefix), prefixToRig) == Address(id)
  {
    ParseSessionNameOf(id, prefix, prefixToRig);
  }

  /** An agent's address resolves to exactly the sessions standing for that agent. */
  lemma AddressResolves(id: Identity, sessions: seq<AgentSession>)
    requires WellFormedIdentity(id)
    ensures forall x :: x in Resolve(Address(id), sessions) <==>
      exists s :: s in sessions && IdentityOf(s) == id && s.name == x
  {
    var p := PatternOf(id);
    assert WellFormedPattern(p);
    assert FormatPattern(p) == Address(id);
    ResolveFormat(p, sessions);
    forall s | s in sessions ensures Matches(p, s) <==> IdentityOf(s) == id {
    }
  }

  /**
   * Going from a session name to its address and resolving that address again finds the
   * sessions of that same agent: the inverse and the forward resolver agree, the legacy
   * polecat form included.
   */
  lemma NameAddressResolve(id: Identity, prefix: string, prefixToRig: map<string, string>, sessions: seq<AgentSession>)
    requires WellFormedIdentity(id) && PrefixFor(id, prefix, prefixToRig)
    ensures forall x :: x in Resolve(SessionNameToAddress(SessionName(id, prefix), prefixToRig), sessions) <==>
      exists s :: s in sessions && IdentityOf(s) == id && s.name == x
  {
    SessionNameRoundTrip(id, prefix, prefixToRig);
    AddressResolves(id, sessions);
  }

  /**
   * The naming scheme is not injective: a polecat named `witness` or `crew-<n>` gets the session
   * name of its rig's witness or of crew member `<n>`, and that name reads back as the other agent.
   * This is why the round trip is stated for well-formed agents only.
   */
  lemma PolecatNameCollides(rig: string, prefix: string, n: string, prefixToRig: map<string, string>)
    requires '-' !in prefix && prefix != HqPrefix && prefix in prefixToRig && prefixToRig[prefix] == rig && n != ""
    ensures SessionName(PolecatId(rig, "witness"), prefix) == SessionName(WitnessId(rig), prefix)
    ensures ParseSessionName(SessionName(PolecatId(rig, "witness"), prefix), prefixToRig) == Some(WitnessId(rig))
    ensures SessionName(PolecatId(rig, "crew-" + n), prefix) == SessionName(CrewId(rig, n), prefix)
    ensures ParseSessionName(SessionName(PolecatId(rig, "crew-" + n), prefix), prefixToRig) == Some(CrewId(rig, n))
  {
    PolecatWitnessCollides(rig, prefix, prefixToRig);
    PolecatCrewCollides(rig, prefix, n, prefixToRig);
  }

  lemma PolecatWitnessCollides(rig: string, prefix: string, prefixToRig: map<string, string>)
    requires '-' !in prefix && prefix != HqPrefix && prefix in prefixToRig && prefixToRig[prefix] == rig
    ensures SessionName(PolecatId(rig, "witness"), prefix) == SessionName(WitnessId(rig), prefix)
    ensures ParseSessionName(SessionName(WitnessId(rig), prefix), prefixToRig) == Some(WitnessId(rig))
  {
    var name := prefix + "-witness";
    assert SessionName(WitnessId(rig), prefix) == name;
    assert name == prefix + "-" + "witness";
    ParseSessionNameAt(prefix, "witness", prefixToRig);
  }

  lemma PolecatCrewCollides(rig: string, prefix: string, n: string, prefixToRig: map<string, string>)
    requires '-' !in prefix && prefix != HqPrefix && prefix in prefixToRig && prefixToRig[prefix] == rig && n != ""
    ensures SessionName(PolecatId(rig, "crew-" + n), prefix) == SessionName(CrewId(rig, n), prefix)
    ensures ParseSessionName(SessionName(CrewId(rig, n), prefix), prefixToRig) == Some(CrewId(rig, n))
  {
    var rest := "crew-" + n;
    assert SessionName(PolecatId(rig, rest), prefix) == prefix + "-" + rest;
    assert SessionName(CrewId(rig, n), prefix) == prefix + "-crew-" + n == prefix + "-" + rest;
    ParseSessionNameAt(prefix, rest, prefixToRig);
    ParseCrewRest(prefix, n, prefixToRig);
  }

  /** A name that is only a prefix and a dash, with nothing after it, is not recognised. */
  lemma BarePrefixUnrecognised(prefix: string, prefixToRig: map<string, string>)
    requires '-' !in prefix
    ensures SessionNameToAddress(prefix + "-", prefixToRig) == ""
  {
    assert prefix + "-" == prefix + "-" + "";
    ParseSessionNameAt(prefix, "", prefixToRig);
  }

  /** A name whose prefix is neither the town prefix nor registered is not recognised, whatever follows. */
  lemma UnknownPrefixUnrecognised(prefix: string, rest: string, prefixToRig: map<string, string>)
    requires '-' !in prefix && prefix != HqPrefix && prefix !in prefixToRig
    ensures SessionNameToAddress(prefix + "-" + rest, prefixToRig) == ""
  {
    ParseSessionNameAt(prefix, rest, prefixToRig);
  }

  /** A name without any dash is not recognised. */
  lemma DashlessUnrecognised(name: string, prefixToRig: map<string, string>)
    requires '-' !in name
    ensures SessionNameToAddress(name, prefixToRig) == ""
  {
  }

  // ---------------------------------------------------------------------------------------------
  // Freshness gate of --if-fresh
  // ---------------------------------------------------------------------------------------------

  /** One second in nanoseconds, the unit of Go's `time.Duration`. */
  const Second: int := 1_000_000_000

  /** `ifFreshMaxAge`: sessions younger than this, inclusive, still get nudged. */
  const IfFreshMaxAge: int := 60 * Second

  /** `age <= ifFreshMaxAge` on a session age in nanoseconds. */
  predicate ShouldNudge(age: int) {
    age <= IfFreshMaxAge
  }

  /** Any session at least as young as one that is nudged is nudged too. */
  lemma ShouldNudgeMonotone(younger: int, older: int)
    requires younger <= older && ShouldNudge(older)
    ensures ShouldNudge(younger)
  {
  }

  /** The threshold is sixty seconds and the boundary is inclusive. */
  lemma FreshnessBoundary()
    ensures IfFreshMaxAge == 60 * Second
    ensures ShouldNudge(IfFreshMaxAge) && !ShouldNudge(IfFreshMaxAge + 1)
    ensures ShouldNudge(10 * Second) && ShouldNudge(59 * Second)
    ensures !ShouldNudge(61 * Second) && !ShouldNudge(5 * 60 * Second)
  {
  }
}
