/** The prefix registry: the bijection between short session-name prefixes and rig names. */
module Registry {
  import opened Wrappers

  class PrefixRegistry {
    var prefixToRig: map<string, string>
    var rigToPrefix: map<string, string>

    /** The two maps are inverse to each other: no prefix names two rigs, no rig has two prefixes. */
    ghost predicate Valid()
      reads this
    {
      && (forall p :: p in prefixToRig ==> prefixToRig[p] in rigToPrefix && rigToPrefix[prefixToRig[p]] == p)
      && (forall r :: r in rigToPrefix ==> rigToPrefix[r] in prefixToRig && prefixToRig[rigToPrefix[r]] == r)
    }

    /** `NewPrefixRegistry`: an empty registry. */
    constructor ()
      ensures Valid()
      ensures prefixToRig == map[] && rigToPrefix == map[]
    {
      prefixToRig := map[];
      rigToPrefix := map[];
    }

    /**
     * Registers `prefix` for `rig`. A prefix or rig already bound to a different counterpart is a
     * duplicate: the call fails and the registry is left as it was. Registering a pair again is harmless.
     */
    method Register(prefix: string, rig: string) returns (ok: bool)
      requires Valid()
      modifies this
      ensures Valid()
      ensures ok <==>
        && (prefix !in old(prefixToRig) || old(prefixToRig)[prefix] == rig)
        && (rig !in old(rigToPrefix) || old(rigToPrefix)[rig] == prefix)
      ensures ok ==> prefixToRig == old(prefixToRig)[prefix := rig] && rigToPrefix == old(rigToPrefix)[rig := prefix]
      ensures !ok ==> prefixToRig == old(prefixToRig) && rigToPrefix == old(rigToPrefix)
    {
      ok := (prefix !in prefixToRig || prefixToRig[prefix] == rig)
         && (rig !in rigToPrefix || rigToPrefix[rig] == prefix);
      if ok {
        prefixToRig := prefixToRig[prefix := rig];
        rigToPrefix := rigToPrefix[rig := prefix];
      }
    }

    /** The rig registered under `prefix`, if any. */
    function LookupRig(prefix: string): (r: Option<string>)
      reads this
      requires Valid()
      ensures r.Some? <==> prefix in prefixToRig
      ensures r.Some? ==> LookupPrefix(r.value) == Some(prefix)
    {
      if prefix in prefixToRig then Some(prefixToRig[prefix]) else None
    }

    /** The prefix registered for `rig`, if any. */
    function LookupPrefix(rig: string): (p: Option<string>)
      reads this
      requires Valid()
      ensures p.Some? <==> rig in rigToPrefix
      ensures p.Some? ==> p.value in prefixToRig && prefixToRig[p.value] == rig
    {
      if rig in rigToPrefix then Some(rigToPrefix[rig]) else None
    }
  }

  /** The prefix-to-rig bindings of the nudge tests' registry. */
  function NudgeTestPrefixes(): map<string, string> {
    map["gt" := "gastown", "bd" := "beads"]
  }

  /** The registry the nudge tests install: `gt` for gastown and `bd` for beads. */
  method NudgeTestRegistry() returns (reg: PrefixRegistry)
    ensures fresh(reg) && reg.Valid()
    ensures reg.prefixToRig == NudgeTestPrefixes() == map["gt" := "gastown", "bd" := "beads"]
    ensures reg.rigToPrefix == map["gastown" := "gt", "beads" := "bd"]
  {
    reg := new PrefixRegistry();
    var ok := reg.Register("gt", "gastown");
    assert ok;
    ok := reg.Register("bd", "beads");
    assert ok;
  }
}
