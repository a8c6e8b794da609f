/**
 * `gt polecat prune <rig>`: deletes the polecat branches, local and optionally on origin, that no
 * active polecat is working on, and counts what it pruned and kept.
 */
module PolecatPrune {
  import opened Wrappers
  import opened Strings

  // ---------------------------------------------------------------------------------------------
  // Polecats and their branches
  // ---------------------------------------------------------------------------------------------

  /** A polecat's lifecycle state; only a working polecat is active. */
  datatype PolecatState = Working | Done | Nuked {
    predicate IsActive() {
      this == Working
    }
  }

  datatype Polecat = Polecat(name: string, branch: string, state: PolecatState)

  /** The branches active polecats are on: the ones pruning must keep. */
  function ActiveSet(polecats: seq<Polecat>): (active: set<string>)
    ensures forall b :: b in active <==> exists p :: p in polecats && p.state.IsActive() && p.branch == b
  {
    set p | p in polecats && p.state.IsActive() :: p.branch
  }

  /** The set of branches of the active polecats, filled in polecat by polecat. */
  method ActiveBranches(polecats: seq<Polecat>) returns (active: set<string>)
    ensures forall b :: b in active <==> exists p :: p in polecats && p.state.IsActive() && p.branch == b
    ensures active == ActiveSet(polecats)
  {
    active := {};
    var i := 0;
    while i < |polecats|
      invariant 0 <= i <= |polecats|
      invariant forall b :: b in active <==> exists k :: 0 <= k < i && polecats[k].state.IsActive() && polecats[k].branch == b
    {
      if polecats[i].state.IsActive() {
        active := active + {polecats[i].branch};
      }
      i := i + 1;
    }
    assert active == ActiveSet(polecats);
  }

  // ---------------------------------------------------------------------------------------------
  // One keep/prune pass over a branch list
  // ---------------------------------------------------------------------------------------------

  /** How many of the branches belong to an active polecat. */
  function KeptCount(names: seq<string>, active: set<string>): nat {
    if names == [] then 0
    else KeptCount(names[..|names| - 1], active) + (if names[|names| - 1] in active then 1 else 0)
  }

  /** The branches no active polecat is on, in listing order: the ones to prune. */
  function Candidates(names: seq<string>, active: set<string>): seq<string> {
    if names == [] then []
    else Candidates(names[..|names| - 1], active) + (if names[|names| - 1] in active then [] else [names[|names| - 1]])
  }

  /** The candidates whose forced deletion succeeds, in order. */
  function Deleted(names: seq<string>, active: set<string>, deleteSucceeds: string -> bool): seq<string> {
    if names == [] then []
    else
      var b := names[|names| - 1];
      Deleted(names[..|names| - 1], active, deleteSucceeds) + (if b !in active && deleteSucceeds(b) then [b] else [])
  }

  /**
   * The loop over one branch list. An active branch is kept and never touched. Otherwise a dry run
   * counts it as pruned without deleting it, and a real run force-deletes it and counts it only if
   * the deletion succeeded; a failed deletion does not stop the loop. `deleteSucceeds` stands for
   * the outcome of the git deletion of each branch.
   */
  method PrunePass(names: seq<string>, active: set<string>, dryRun: bool, deleteSucceeds: string -> bool)
    returns (pruned: nat, kept: nat, attempted: seq<string>, deleted: seq<string>)
    ensures kept == KeptCount(names, active)
    ensures dryRun ==> attempted == [] && deleted == [] && pruned == |Candidates(names, active)|
    ensures !dryRun ==> attempted == Candidates(names, active)
    ensures !dryRun ==> deleted == Deleted(names, active, deleteSucceeds) && pruned == |deleted|
    ensures forall b :: b in attempted ==> b in names && b !in active
    ensures forall b :: b in deleted ==> b in attempted && deleteSucceeds(b)
    ensures dryRun ==> pruned + kept == |names|
    ensures !dryRun ==> pruned + kept <= |names|
  {
    pruned, kept, attempted, deleted := 0, 0, [], [];
    var i := 0;
    while i < |names|
      invariant 0 <= i <= |names|
      invariant kept == KeptCount(names[..i], active)
      invariant dryRun ==> attempted == [] && deleted == [] && pruned == |Candidates(names[..i], active)|
      invariant !dryRun ==> attempted == Candidates(names[..i], active)
      invariant !dryRun ==> deleted == Deleted(names[..i], active, deleteSucceeds) && pruned == |deleted|
    {
      var branch := names[i];
      assert names[..i + 1][..i] == names[..i];
      if branch in active {
        kept := kept + 1;
      } else if dryRun {
        pruned := pruned + 1;
      } else {
        attempted := attempted + [branch];
        if deleteSucceeds(branch) {
          deleted := deleted + [branch];
          pruned := pruned + 1;
        }
      }
      i := i + 1;
    }
    assert names[..i] == names;
    KeptPlusCandidates(names, active);
    CandidatesExact(names, active);
    DeletedAreCandidates(names, active, deleteSucceeds);
  }

  /** Every listed branch is either kept or a prune candidate, never both. */
  lemma {:induction false} KeptPlusCandidates(names: seq<string>, active: set<string>)
    ensures KeptCount(names, active) + |Candidates(names, active)| == |names|
  {
    if names != [] {
      KeptPlusCandidates(names[..|names| - 1], active);
    }
  }

  /** The prune candidates are exactly the listed branches outside the active set. */
  lemma {:induction false} CandidatesExact(names: seq<string>, active: set<string>)
    ensures forall b :: b in Candidates(names, active) <==> b in names && b !in active
  {
    if names != [] {
      var init := names[..|names| - 1];
      CandidatesExact(init, active);
      assert names == init + [names[|names| - 1]];
    }
  }

  /** Only candidates are deleted, so an active branch is never deleted. */
  lemma {:induction false} DeletedAreCandidates(names: seq<string>, active: set<string>, deleteSucceeds: string -> bool)
    ensures forall b :: b in Deleted(names, active, deleteSucceeds) ==> b in Candidates(names, active) && deleteSucceeds(b)
    ensures |Deleted(names, active, deleteSucceeds)| <= |Candidates(names, active)|
  {
    if names != [] {
      DeletedAreCandidates(names[..|names| - 1], active, deleteSucceeds);
    }
  }

  /** When every deletion succeeds, a real run prunes exactly what a dry run would report. */
  lemma {:induction false} AllDeletionsSucceed(names: seq<string>, active: set<string>, deleteSucceeds: string -> bool)
    requires forall b :: deleteSucceeds(b)
    ensures Deleted(names, active, deleteSucceeds) == Candidates(names, active)
  {
    if names != [] {
      AllDeletionsSucceed(names[..|names| - 1], active, deleteSucceeds);
    }
  }

  /** When every deletion fails, a real run prunes nothing. */
  lemma {:induction false} AllDeletionsFail(names: seq<string>, active: set<string>, deleteSucceeds: string -> bool)
    requires forall b :: !deleteSucceeds(b)
    ensures Deleted(names, active, deleteSucceeds) == []
  {
    if names != [] {
      AllDeletionsFail(names[..|names| - 1], active, deleteSucceeds);
    }
  }

  // ---------------------------------------------------------------------------------------------
  // Remote branch names
  // ---------------------------------------------------------------------------------------------

  const OriginPrefix := "origin/"

  /** Remote branch names with their `origin/` prefix dropped, for the active test and the deletion. */
  function StripOrigin(remoteBranches: seq<string>): (names: seq<string>)
    ensures |names| == |remoteBranches|
    ensures forall k :: 0 <= k < |names| ==> OriginPrefix + names[k] == remoteBranches[k] || (!(OriginPrefix <= remoteBranches[k]) && names[k] == remoteBranches[k])
  {
    seq(|remoteBranches|, k requires 0 <= k < |remoteBranches| => TrimPrefix(remoteBranches[k], OriginPrefix))
  }

  /** A remote listing of `origin/<b>` names is compared and deleted as the plain `<b>` names. */
  lemma StripOriginOf(branches: seq<string>)
    ensures StripOrigin(seq(|branches|, k requires 0 <= k < |branches| => OriginPrefix + branches[k])) == branches
  {
    var remote := seq(|branches|, k requires 0 <= k < |branches| => OriginPrefix + branches[k]);
    forall k | 0 <= k < |branches| ensures StripOrigin(remote)[k] == branches[k] {
      TrimPrefixOf(OriginPrefix, branches[k]);
    }
  }

  // ---------------------------------------------------------------------------------------------
  // Repo base
  // ---------------------------------------------------------------------------------------------

  /** What `os.Stat` says about a path. */
  datatype StatResult = IsDirectory | IsFile | DoesNotExist | StatError

  /** The git repository the branches live in: the shared bare repo, or the legacy `mayor/rig` clone. */
  datatype RepoBase = BareRepo | MayorRig

  const NoRepoBaseError := "no repo base found (neither .repo.git nor mayor/rig exists)"

  /**
   * `repoBaseForRig`: the bare repo `.repo.git` when it is a directory; otherwise `mayor/rig`, which
   * is refused only when it does not exist (any other answer from stat still selects it).
   */
  function RepoBaseForRig(bareRepo: StatResult, mayorRig: StatResult): (r: Result<RepoBase>)
    ensures r == Ok(BareRepo) <==> bareRepo == IsDirectory
    ensures r.Err? <==> bareRepo != IsDirectory && mayorRig == DoesNotExist
    ensures r.Err? ==> r.message == NoRepoBaseError
  {
    if bareRepo == IsDirectory then Ok(BareRepo)
    else if mayorRig == DoesNotExist then Err(NoRepoBaseError)
    else Ok(MayorRig)
  }

  // ---------------------------------------------------------------------------------------------
  // The whole command
  // ---------------------------------------------------------------------------------------------

  /** The closing line's three cases. */
  datatype Summary =
    | WouldPrune(pruned: nat, kept: nat)      // dry run
    | NothingToPrune                          // real run that deleted nothing
    | Pruned(pruned: nat, kept: nat)          // real run that deleted something

  datatype PruneReport = PruneReport(localPruned: nat, localKept: nat, remotePruned: nat, remoteKept: nat, summary: Summary)

  /**
   * What git and the polecat manager answer; each can fail with a message. `manager` is the
   * outcome of looking up the rig and its polecat manager.
   */
  datatype Environment = Environment(
    manager: Result<()>,
    bareRepo: StatResult,
    mayorRig: StatResult,
    polecats: Result<seq<Polecat>>,
    localBranches: Result<seq<string>>,
    fetchPruneSucceeds: bool,
    remoteBranches: Result<seq<string>>,
    localDeleteSucceeds: string -> bool,
    remoteDeleteSucceeds: string -> bool)

  /** The remote pass's listing: remote branches when it runs and the listing works, else nothing. */
  function RemoteNames(remote: bool, env: Environment): seq<string> {
    if remote && env.remoteBranches.Ok? then StripOrigin(env.remoteBranches.value) else []
  }

  /**
   * The remote half of the command: only with `--remote`, after a `fetch --prune` whose failure is
   * only reported, and skipped with zero counts when the remote branches cannot be listed.
   */
  method RemotePass(remote: bool, dryRun: bool, env: Environment, active: set<string>) returns (pruned: nat, kept: nat)
    ensures kept == KeptCount(RemoteNames(remote, env), active)
    ensures dryRun ==> pruned == |Candidates(RemoteNames(remote, env), active)|
    ensures !dryRun ==> pruned == |Deleted(RemoteNames(remote, env), active, env.remoteDeleteSucceeds)|
    ensures !remote || env.remoteBranches.Err? ==> pruned == 0 && kept == 0
  {
    pruned, kept := 0, 0;
    if remote {
      // A failed `fetch --prune` is only reported; the pass goes on.
      if env.remoteBranches.Ok? {
        var names := StripOrigin(env.remoteBranches.value);
        var attempted, deleted;
        pruned, kept, attempted, deleted := PrunePass(names, active, dryRun, env.remoteDeleteSucceeds);
      }
    }
  }

  /** The report's counts are those of the two passes, and its summary is the totals' closing line. */
  predicate Reports(report: PruneReport, dryRun: bool, remote: bool, env: Environment, local: seq<string>, active: set<string>) {
    var remoteNames := RemoteNames(remote, env);
    && report.localKept == KeptCount(local, active)
    && report.remoteKept == KeptCount(remoteNames, active)
    && (!remote || env.remoteBranches.Err? ==> report.remotePruned == 0 && report.remoteKept == 0)
    && (dryRun ==> report.localPruned == |Candidates(local, active)| && report.remotePruned == |Candidates(remoteNames, active)|)
    && (!dryRun ==> report.localPruned == |Deleted(local, active, env.localDeleteSucceeds)|)
    && (!dryRun ==> report.remotePruned == |Deleted(remoteNames, active, env.remoteDeleteSucceeds)|)
    && (dryRun ==> report.summary == WouldPrune(report.localPruned + report.remotePruned, report.localKept + report.remoteKept))
    && (!dryRun && report.localPruned + report.remotePruned == 0 ==> report.summary == NothingToPrune)
    && (!dryRun && report.localPruned + report.remotePruned > 0 ==>
          report.summary == Pruned(report.localPruned + report.remotePruned, report.localKept + report.remoteKept))
  }

  /**
   * `runPolecatPrune`. It fails, in this order, when the rig or its polecat manager cannot be found
   * (with that error as it is), when there is no repo base, when the polecats cannot be listed,
   * and when the local branches cannot be listed. Otherwise it prunes the local branches, then
   * (with `--remote`) the remote ones, and reports.
   */
  method RunPolecatPrune(dryRun: bool, remote: bool, env: Environment) returns (r: Result<PruneReport>)
    ensures env.manager.Err? ==> r == Err(env.manager.message)
    ensures env.manager.Ok? && RepoBaseForRig(env.bareRepo, env.mayorRig).Err? ==>
      r == Err("finding repo base: " + NoRepoBaseError)
    ensures env.manager.Ok? && RepoBaseForRig(env.bareRepo, env.mayorRig).Ok? && env.polecats.Err? ==>
      r == Err("listing polecats: " + env.polecats.message)
    ensures env.manager.Ok? && RepoBaseForRig(env.bareRepo, env.mayorRig).Ok? && env.polecats.Ok? && env.localBranches.Err? ==>
      r == Err("listing local branches: " + env.localBranches.message)
    ensures r.Ok? <==>
      env.manager.Ok? && RepoBaseForRig(env.bareRepo, env.mayorRig).Ok? && env.polecats.Ok? && env.localBranches.Ok?
    ensures r.Ok? ==> Reports(r.value, dryRun, remote, env, env.localBranches.value, ActiveSet(env.polecats.value))
  {
    if env.manager.Err? {
      return Err(env.manager.message);
    }
    var base := RepoBaseForRig(env.bareRepo, env.mayorRig);
    if base.Err? {
      return Err("finding repo base: " + base.message);
    }
    if env.polecats.Err? {
      return Err("listing polecats: " + env.polecats.message);
    }
    var active := ActiveBranches(env.polecats.value);
    if env.localBranches.Err? {
      return Err("listing local branches: " + env.localBranches.message);
    }

    var localPruned, localKept, localAttempted, localDeleted := PrunePass(env.localBranches.value, active, dryRun, env.localDeleteSucceeds);
    var remotePruned, remoteKept := RemotePass(remote, dryRun, env, active);

    var totalPruned := localPruned + remotePruned;
    var totalKept := localKept + remoteKept;
    var summary;
    if dryRun {
      summary := WouldPrune(totalPruned, totalKept);
    } else if totalPruned == 0 {
      summary := NothingToPrune;
    } else {
      summary := Pruned(totalPruned, totalKept);
    }
    r := Ok(PruneReport(localPruned, localKept, remotePruned, remoteKept, summary));
  }
}
