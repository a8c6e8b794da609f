/** The fleet's entities as the nudge resolver sees them: running sessions tagged with a role. */
module Fleet {

  /** The closed set of agent roles; every session has exactly one. */
  datatype AgentType = Mayor | Deacon | Witness | Refinery | Crew | Polecat

  /**
   * One running agent session, as listed by session enumeration.
   * `rig` is empty for the town-level roles; `agentName` is set only for crew and polecats.
   */
  datatype AgentSession = AgentSession(name: string, agentType: AgentType, rig: string, agentName: string)

  /** The agent a session stands for, with the fields its role does not use dropped. */
  datatype Identity =
    | MayorId
    | DeaconId
    | WitnessId(rig: string)
    | RefineryId(rig: string)
    | CrewId(rig: string, name: string)
    | PolecatId(rig: string, name: string)

  /** The identity a session record denotes: only the fields its type uses are read. */
  function IdentityOf(s: AgentSession): (id: Identity)
    ensures id.MayorId? <==> s.agentType == Mayor
    ensures id.DeaconId? <==> s.agentType == Deacon
    ensures id.WitnessId? <==> s.agentType == Witness
    ensures id.RefineryId? <==> s.agentType == Refinery
    ensures id.CrewId? <==> s.agentType == Crew
    ensures id.PolecatId? <==> s.agentType == Polecat
    ensures (id.WitnessId? || id.RefineryId? || id.CrewId? || id.PolecatId?) ==> id.rig == s.rig
    ensures (id.CrewId? || id.PolecatId?) ==> id.name == s.agentName
  {
    match s.agentType
    case Mayor => MayorId
    case Deacon => DeaconId
    case Witness => WitnessId(s.rig)
    case Refinery => RefineryId(s.rig)
    case Crew => CrewId(s.rig, s.agentName)
    case Polecat => PolecatId(s.rig, s.agentName)
  }
}
