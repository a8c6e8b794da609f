/**
 * The resolution tables of the nudge tests, stated over their ten-session fleet and the
 * registry they install (`gt` for gastown, `bd` for beads).
 */
module NudgeFixture {
  import opened Wrappers
  import opened Fleet
  import opened Nudge
  import Registry

  /** The ten sessions the resolver tests run against. */
  function Agents(): seq<AgentSession> {
    [ AgentSession("hq-mayor", Mayor, "", ""),
      AgentSession("hq-deacon", Deacon, "", ""),
      AgentSession("gt-witness", Witness, "gastown", ""),
      AgentSession("gt-refinery", Refinery, "gastown", ""),
      AgentSession("gt-crew-max", Crew, "gastown", "max"),
      AgentSession("gt-crew-jack", Crew, "gastown", "jack"),
      AgentSession("gt-alpha", Polecat, "gastown", "alpha"),
      AgentSession("gt-beta", Polecat, "gastown", "beta"),
      AgentSession("bd-witness", Witness, "beads", ""),
      AgentSession("bd-gamma", Polecat, "beads", "gamma") ]
  }

  /** The prefix-to-rig map of the registry the tests install, `Registry.NudgeTestRegistry`. */
  function TestPrefixes(): map<string, string> {
    Registry.NudgeTestPrefixes()
  }

  // ---------------------------------------------------------------------------------------------
  // Forward resolution table
  // ---------------------------------------------------------------------------------------------

  // Each rig-scoped row in three steps: how its address parses, what that pattern selects from
  // the fleet, and the resolution the two give together.

  lemma SpecificWitnessParses()
    ensures ParsePattern("gastown/witness") == Some(WitnessPattern(InRig("gastown")))
  {
    var p := WitnessPattern(InRig("gastown"));
    assert FormatPattern(p) == "gastown/witness" by {}
    ParseFormat(p);
  }

  lemma SpecificWitnessSelects()
    ensures Select(WitnessPattern(InRig("gastown")), Agents()) == ["gt-witness"]
  {
    var p := WitnessPattern(InRig("gastown"));
    SelectSingle(p, Agents(), 2);
  }

  lemma SpecificWitnessRow()
    ensures Resolve("gastown/witness", Agents()) == ["gt-witness"]
  {
    SpecificWitnessParses();
    SpecificWitnessSelects();
  }

  lemma AllWitnessesParses()
    ensures ParsePattern("*/witness") == Some(WitnessPattern(AnyRig))
  {
    var p := WitnessPattern(AnyRig);
    assert FormatPattern(p) == "*/witness" by {}
    ParseFormat(p);
  }

  lemma AllWitnessesSelects()
    ensures Select(WitnessPattern(AnyRig), Agents()) == ["gt-witness", "bd-witness"]
  {
    var p := WitnessPattern(AnyRig);
    SelectPair(p, Agents(), 2, 8);
  }

  lemma AllWitnessesRow()
    ensures Resolve("*/witness", Agents()) == ["gt-witness", "bd-witness"]
  {
    AllWitnessesParses();
    AllWitnessesSelects();
  }

  lemma SpecificRefineryParses()
    ensures ParsePattern("gastown/refinery") == Some(RefineryPattern(InRig("gastown")))
  {
    var p := RefineryPattern(InRig("gastown"));
    assert FormatPattern(p) == "gastown/refinery" by {}
    ParseFormat(p);
  }

  lemma SpecificRefinerySelects()
    ensures Select(RefineryPattern(InRig("gastown")), Agents()) == ["gt-refinery"]
  {
    var p := RefineryPattern(InRig("gastown"));
    SelectSingle(p, Agents(), 3);
  }

  lemma SpecificRefineryRow()
    ensures Resolve("gastown/refinery", Agents()) == ["gt-refinery"]
  {
    SpecificRefineryParses();
    SpecificRefinerySelects();
  }

  lemma AllPolecatsParses()
    ensures ParsePattern("gastown/polecats/*") == Some(PolecatPattern(InRig("gastown"), AnyName))
  {
    var p := PolecatPattern(InRig("gastown"), AnyName);
    assert FormatPattern(p) == "gastown/polecats/*" by {}
    ParseFormat(p);
  }

  lemma AllPolecatsSelects()
    ensures Select(PolecatPattern(InRig("gastown"), AnyName), Agents()) == ["gt-alpha", "gt-beta"]
  {
    var p := PolecatPattern(InRig("gastown"), AnyName);
    SelectPair(p, Agents(), 6, 7);
  }

  lemma AllPolecatsRow()
    ensures Resolve("gastown/polecats/*", Agents()) == ["gt-alpha", "gt-beta"]
  {
    AllPolecatsParses();
    AllPolecatsSelects();
  }

  lemma SpecificPolecatParses()
    ensures ParsePattern("gastown/polecats/alpha") == Some(PolecatPattern(InRig("gastown"), Named("alpha")))
  {
    var p := PolecatPattern(InRig("gastown"), Named("alpha"));
    assert FormatPattern(p) == "gastown/polecats/alpha" by {}
    ParseFormat(p);
  }

  lemma SpecificPolecatSelects()
    ensures Select(PolecatPattern(InRig("gastown"), Named("alpha")), Agents()) == ["gt-alpha"]
  {
    var p := PolecatPattern(InRig("gastown"), Named("alpha"));
    SelectSingle(p, Agents(), 6);
  }

  lemma SpecificPolecatRow()
    ensures Resolve("gastown/polecats/alpha", Agents()) == ["gt-alpha"]
  {
    SpecificPolecatParses();
    SpecificPolecatSelects();
  }

  lemma AllCrewParses()
    ensures ParsePattern("gastown/crew/*") == Some(CrewPattern(InRig("gastown"), AnyName))
  {
    var p := CrewPattern(InRig("gastown"), AnyName);
    assert FormatPattern(p) == "gastown/crew/*" by {}
    ParseFormat(p);
  }

  lemma AllCrewSelects()
    ensures Select(CrewPattern(InRig("gastown"), AnyName), Agents()) == ["gt-crew-max", "gt-crew-jack"]
  {
    var p := CrewPattern(InRig("gastown"), AnyName);
    SelectPair(p, Agents(), 4, 5);
  }

  lemma AllCrewRow()
    ensures Resolve("gastown/crew/*", Agents()) == ["gt-crew-max", "gt-crew-jack"]
  {
    AllCrewParses();
    AllCrewSelects();
  }

  lemma SpecificCrewParses()
    ensures ParsePattern("gastown/crew/max") == Some(CrewPattern(InRig("gastown"), Named("max")))
  {
    var p := CrewPattern(InRig("gastown"), Named("max"));
    assert FormatPattern(p) == "gastown/crew/max" by {}
    ParseFormat(p);
  }

  lemma SpecificCrewSelects()
    ensures Select(CrewPattern(InRig("gastown"), Named("max")), Agents()) == ["gt-crew-max"]
  {
    var p := CrewPattern(InRig("gastown"), Named("max"));
    SelectSingle(p, Agents(), 4);
  }

  lemma SpecificCrewRow()
    ensures Resolve("gastown/crew/max", Agents()) == ["gt-crew-max"]
  {
    SpecificCrewParses();
    SpecificCrewSelects();
  }

  lemma LegacyPolecatParses()
    ensures ParsePattern("gastown/alpha") == Some(LegacyPattern(InRig("gastown"), "alpha"))
  {
    var p := LegacyPattern(InRig("gastown"), "alpha");
    assert FormatPattern(p) == "gastown/alpha" by {}
    ParseFormat(p);
  }

  lemma LegacyPolecatSelects()
    ensures Select(LegacyPattern(InRig("gastown"), "alpha"), Agents()) == ["gt-alpha"]
  {
    var p := LegacyPattern(InRig("gastown"), "alpha");
    SelectSingle(p, Agents(), 6);
  }

  lemma LegacyPolecatRow()
    ensures Resolve("gastown/alpha", Agents()) == ["gt-alpha"]
  {
    LegacyPolecatParses();
    LegacyPolecatSelects();
  }

  lemma NoMatchesParses()
    ensures ParsePattern("nonexistent/polecats/*") == Some(PolecatPattern(InRig("nonexistent"), AnyName))
  {
    var p := PolecatPattern(InRig("nonexistent"), AnyName);
    assert FormatPattern(p) == "nonexistent/polecats/*" by {}
    ParseFormat(p);
  }

  lemma NoMatchesSelects()
    ensures Select(PolecatPattern(InRig("nonexistent"), AnyName), Agents()) == []
  {
    var p := PolecatPattern(InRig("nonexistent"), AnyName);
    SelectNone(p, Agents());
  }

  lemma NoMatchesRow()
    ensures Resolve("nonexistent/polecats/*", Agents()) == []
  {
    NoMatchesParses();
    NoMatchesSelects();
  }

  // The town-level rows and the address that is not one.

  lemma MayorRow()
    ensures Resolve("mayor", Agents()) == ["hq-mayor"]
  {
    ResolveSingleMayor(Agents(), 0);
  }

  lemma DeaconRow()
    ensures Resolve("deacon", Agents()) == ["hq-deacon"]
  {
    ResolveSingleDeacon(Agents(), 1);
  }

  lemma InvalidRow()
    ensures Resolve("invalid", Agents()) == []
  {
    assert '/' !in "invalid";
  }

  // ---------------------------------------------------------------------------------------------
  // Inverse resolution table
  // ---------------------------------------------------------------------------------------------

  lemma AddressOfMayor()
    ensures SessionNameToAddress("hq-mayor", TestPrefixes()) == "mayor"
  {
    assert SessionName(MayorId, "") == "hq-mayor" by {}
    SessionNameRoundTrip(MayorId, "", TestPrefixes());
  }

  lemma AddressOfDeacon()
    ensures SessionNameToAddress("hq-deacon", TestPrefixes()) == "deacon"
  {
    assert SessionName(DeaconId, "") == "hq-deacon" by {}
    SessionNameRoundTrip(DeaconId, "", TestPrefixes());
  }

  lemma AddressOfWitness()
    ensures SessionNameToAddress("gt-witness", TestPrefixes()) == "gastown/witness"
  {
    assert SessionName(WitnessId("gastown"), "gt") == "gt-witness" by {}
    assert Address(WitnessId("gastown")) == "gastown/witness" by {}
    SessionNameRoundTrip(WitnessId("gastown"), "gt", TestPrefixes());
  }

  lemma AddressOfRefinery()
    ensures SessionNameToAddress("gt-refinery", TestPrefixes()) == "gastown/refinery"
  {
    assert SessionName(RefineryId("gastown"), "gt") == "gt-refinery" by {}
    assert Address(RefineryId("gastown")) == "gastown/refinery" by {}
    SessionNameRoundTrip(RefineryId("gastown"), "gt", TestPrefixes());
  }

  lemma AddressOfCrewMember()
    ensures SessionNameToAddress("gt-crew-max", TestPrefixes()) == "gastown/crew/max"
  {
    var id := CrewId("gastown", "max");
    assert SessionName(id, "gt") == "gt-crew-max" by {}
    assert Address(id) == "gastown/crew/max" by {}
    SessionNameRoundTrip(id, "gt", TestPrefixes());
  }

  lemma AddressOfPolecat()
    ensures SessionNameToAddress("gt-alpha", TestPrefixes()) == "gastown/alpha"
  {
    var id := PolecatId("gastown", "alpha");
    assert SessionName(id, "gt") == "gt-alpha" by {}
    assert Address(id) == "gastown/alpha" by {}
    assert !("crew-" <= "alpha") by { assert "alpha"[0] != 'c'; }
    SessionNameRoundTrip(id, "gt", TestPrefixes());
  }

  lemma AddressOfUnrecognised()
    ensures SessionNameToAddress("plaintext", TestPrefixes()) == ""
    ensures SessionNameToAddress("gt-", TestPrefixes()) == ""
  {
    assert '-' !in "plaintext";
    DashlessUnrecognised("plaintext", TestPrefixes());
    BarePrefixUnrecognised("gt", TestPrefixes());
  }
}
