/**
 * The `claude-settings` doctor check: a scan of the town's settings files that retains the stale
 * ones, its summary, and the fix that deletes misplaced files.
 */
module SettingsCheck {
  import opened Wrappers
  import opened Strings
  import opened ClaudeSettings

  // ---------------------------------------------------------------------------------------------
  // Per-file findings
  // ---------------------------------------------------------------------------------------------

  /** A recognised settings file that failed at least one requirement. */
  datatype StaleFile = StaleFile(path: Path, location: Located, reasons: seq<StaleReason>)

  /** What the scan makes of one file: a stale finding, or nothing for an ignored or compliant file. */
  function Inspect(path: Path, content: Content): (r: Option<StaleFile>)
    ensures r.None? <==>
      Classify(path).None? ||
      (Classify(path).value.placement == Correct && content.Parsed? && Compliant(content.settings))
    ensures r.Some? ==> r.value.path == path && Classify(path) == Some(r.value.location)
    ensures r.Some? ==> r.value.reasons == Reasons(r.value.location, content) && r.value.reasons != []
  {
    match Classify(path)
    case None => None
    case Some(loc) =>
      var reasons := Reasons(loc, content);
      if reasons == [] then None else Some(StaleFile(path, loc, reasons))
  }

  /** The paths of the stale files in a town. */
  function StalePaths(files: map<Path, Content>): set<Path> {
    set p | p in files && Inspect(p, files[p]).Some?
  }

  /** The paths of the town's files that sit one level too shallow for their role. */
  function MisplacedPaths(files: map<Path, Content>): set<Path> {
    set p | p in files && Classify(p).Some? && Classify(p).value.placement == WrongLocation
  }

  function PathsOf(stale: seq<StaleFile>): set<Path> {
    set i | 0 <= i < |stale| :: stale[i].path
  }

  /** The paths of the retained findings that the fix deletes. */
  function MisplacedPathsOf(stale: seq<StaleFile>): set<Path> {
    set i | 0 <= i < |stale| && stale[i].location.placement == WrongLocation :: stale[i].path
  }

  lemma PathsOfAppend(stale: seq<StaleFile>, f: StaleFile)
    ensures PathsOf(stale + [f]) == PathsOf(stale) + {f.path}
  {
    var s := stale + [f];
    assert s[|stale|] == f;
    forall p | p in PathsOf(stale) ensures p in PathsOf(s) {
      var i :| 0 <= i < |stale| && stale[i].path == p;
      assert s[i] == stale[i];
    }
  }

  predicate DistinctPaths(stale: seq<StaleFile>) {
    forall i, j :: 0 <= i < j < |stale| ==> stale[i].path != stale[j].path
  }

  /** `stale` is a complete scan of `files`: one finding per stale file, each the file's own. */
  predicate IsScanOf(stale: seq<StaleFile>, files: map<Path, Content>) {
    && (forall i :: 0 <= i < |stale| ==>
          stale[i].path in files && Inspect(stale[i].path, files[stale[i].path]) == Some(stale[i]))
    && DistinctPaths(stale)
    && PathsOf(stale) == StalePaths(files)
  }

  /** The scan's progress: `found` holds one finding for each stale file no longer `remaining`. */
  predicate ScannedSoFar(found: seq<StaleFile>, remaining: set<Path>, files: map<Path, Content>) {
    && remaining <= files.Keys
    && (forall i :: 0 <= i < |found| ==>
          found[i].path in files && found[i].path !in remaining &&
          Inspect(found[i].path, files[found[i].path]) == Some(found[i]))
    && DistinctPaths(found)
    && PathsOf(found) == StalePaths(files) - remaining
  }

  lemma ScanStart(files: map<Path, Content>)
    ensures ScannedSoFar([], files.Keys, files)
  {
  }

  /** Appending a finding for a path not yet visited keeps the findings' paths distinct. */
  lemma AppendDistinct(found: seq<StaleFile>, f: StaleFile, remaining: set<Path>)
    requires DistinctPaths(found) && f.path in remaining
    requires forall i :: 0 <= i < |found| ==> found[i].path !in remaining
    ensures DistinctPaths(found + [f])
  {
    var next := found + [f];
    forall i, j | 0 <= i < j < |next| ensures next[i].path != next[j].path {
      assert next[i] == found[i];
      if j < |found| {
        assert next[j] == found[j];
      }
    }
  }

  /** Inspecting one more file keeps the scan's progress exact. */
  lemma ScanStep(found: seq<StaleFile>, remaining: set<Path>, files: map<Path, Content>, p: Path)
    requires ScannedSoFar(found, remaining, files) && p in remaining
    ensures var finding := Inspect(p, files[p]);
      ScannedSoFar(if finding.Some? then found + [finding.value] else found, remaining - {p}, files)
  {
    var finding := Inspect(p, files[p]);
    if finding.Some? {
      var f := finding.value;
      var next := found + [f];
      assert f.path == p;
      AppendDistinct(found, f, remaining);
      PathsOfAppend(found, f);
      assert p in StalePaths(files);
      assert StalePaths(files) - (remaining - {p}) == (StalePaths(files) - remaining) + {p};
      forall i | 0 <= i < |next|
        ensures next[i].path in files && next[i].path !in remaining - {p}
        ensures Inspect(next[i].path, files[next[i].path]) == Some(next[i])
      {
        if i < |found| {
          assert next[i] == found[i];
        }
      }
    } else {
      assert p !in StalePaths(files);
      assert StalePaths(files) - (remaining - {p}) == StalePaths(files) - remaining;
    }
  }

  lemma ScanEnd(found: seq<StaleFile>, files: map<Path, Content>)
    requires ScannedSoFar(found, {}, files)
    ensures IsScanOf(found, files)
  {
  }

  lemma {:induction false} DistinctPathsCount(stale: seq<StaleFile>)
    requires DistinctPaths(stale)
    ensures |PathsOf(stale)| == |stale|
  {
    if stale != [] {
      var init := stale[..|stale| - 1];
      assert DistinctPaths(init);
      DistinctPathsCount(init);
      assert PathsOf(stale) == PathsOf(init) + {stale[|stale| - 1].path};
      assert stale[|stale| - 1].path !in PathsOf(init);
    }
  }

  /** A scan holds exactly as many findings as the town has stale files. */
  lemma ScanCount(stale: seq<StaleFile>, files: map<Path, Content>)
    requires IsScanOf(stale, files)
    ensures |stale| == |StalePaths(files)|
  {
    DistinctPathsCount(stale);
  }

  /** Two scans of the same town hold the same findings; only their order may differ. */
  lemma ScanDetermined(a: seq<StaleFile>, b: seq<StaleFile>, files: map<Path, Content>)
    requires IsScanOf(a, files) && IsScanOf(b, files)
    ensures forall f :: f in a <==> f in b
  {
    forall f | f in a ensures f in b {
      var i :| 0 <= i < |a| && a[i] == f;
      assert f.path in PathsOf(b);
      var j :| 0 <= j < |b| && b[j].path == f.path;
    }
    forall f | f in b ensures f in a {
      var j :| 0 <= j < |b| && b[j] == f;
      assert f.path in PathsOf(a);
      var i :| 0 <= i < |a| && a[i].path == f.path;
    }
  }

  /** Every misplaced file is found stale by a scan, whatever its content. */
  lemma ScanFindsMisplaced(stale: seq<StaleFile>, files: map<Path, Content>)
    requires IsScanOf(stale, files)
    ensures MisplacedPathsOf(stale) == MisplacedPaths(files)
  {
    forall p | p in MisplacedPaths(files) ensures p in MisplacedPathsOf(stale) {
      assert p in StalePaths(files);
      assert p in PathsOf(stale);
      var i :| 0 <= i < |stale| && stale[i].path == p;
    }
  }

  /** Writing one file changes the town's stale set at that file's path only. */
  lemma StalePathsUpdate(files: map<Path, Content>, p: Path, c: Content)
    ensures StalePaths(files[p := c]) == (StalePaths(files) - {p}) + (if Inspect(p, c).Some? then {p} else {})
  {
  }

  /** Adding a stale file to a town adds its path to the stale set. */
  lemma AddStaleFile(files: map<Path, Content>, p: Path, c: Content)
    requires Inspect(p, c).Some?
    ensures StalePaths(files[p := c]) == StalePaths(files) + {p}
  {
    StalePathsUpdate(files, p, c);
  }

  /** Adding a file that is not stale to a town drops its path from the stale set. */
  lemma AddCleanFile(files: map<Path, Content>, p: Path, c: Content)
    requires Inspect(p, c).None?
    ensures StalePaths(files[p := c]) == StalePaths(files) - {p}
  {
    StalePathsUpdate(files, p, c);
  }

  /** When every file of a town is stale, the stale set is the whole town. */
  lemma EveryFileStale(files: map<Path, Content>)
    requires forall p :: p in files ==> Inspect(p, files[p]).Some?
    ensures StalePaths(files) == files.Keys
  {
  }

  /** When exactly one file of a town is stale, the stale set is that file alone. */
  lemma OneFileStale(files: map<Path, Content>, q: Path)
    requires q in files && Inspect(q, files[q]).Some?
    requires forall p :: p in files && p != q ==> Inspect(p, files[p]).None?
    ensures StalePaths(files) == {q}
  {
  }

  /** A town whose recognised files all sit below non-rig top-level directories has nothing stale. */
  lemma NonRigTreesIgnored(files: map<Path, Content>)
    requires forall p :: p in files ==> |p| > 3 && !IsRigDir(p[0])
    ensures StalePaths(files) == {}
  {
    forall p | p in files ensures Classify(p).None? {
      NonRigDirIgnored(p);
    }
  }

  /** A town whose recognised files are all correctly placed and compliant has nothing stale. */
  lemma CompliantTownClean(files: map<Path, Content>)
    requires forall p :: p in files && Classify(p).Some? ==>
      Classify(p).value.placement == Correct && files[p].Parsed? && Compliant(files[p].settings)
    ensures StalePaths(files) == {}
  {
  }

  /**
   * After the misplaced files are deleted, the stale files left are the correctly placed ones that
   * were stale before, and nothing misplaced remains.
   */
  lemma FixLeavesPlacedStale(stale: seq<StaleFile>, files: map<Path, Content>)
    requires IsScanOf(stale, files)
    ensures MisplacedPaths(files - MisplacedPathsOf(stale)) == {}
    ensures StalePaths(files - MisplacedPathsOf(stale)) == StalePaths(files) - MisplacedPaths(files)
  {
    ScanFindsMisplaced(stale, files);
  }

  // ---------------------------------------------------------------------------------------------
  // Summary
  // ---------------------------------------------------------------------------------------------

  const CheckName := "claude-settings"

  datatype Status = StatusOK | StatusError

  datatype CheckResult = CheckResult(name: string, status: Status, message: string, details: seq<string>)

  /** A path as the detail lines show it, segments joined by `/`. */
  function DisplayPath(path: Path): string {
    Join(path, "/")
  }

  function Labels(reasons: seq<StaleReason>): (labels: seq<string>)
    ensures |labels| == |reasons| && forall k :: 0 <= k < |reasons| ==> labels[k] == reasons[k].Label()
  {
    seq(|reasons|, k requires 0 <= k < |reasons| => reasons[k].Label())
  }

  /** A line made of a prefix and joined parts contains each part. */
  lemma LineContainsPart(prefix: string, parts: seq<string>, k: int)
    requires 0 <= k < |parts|
    ensures Contains(prefix + Join(parts, ", "), parts[k])
  {
    JoinContainsPart(parts, ", ", k);
    ContainsWithin(prefix, Join(parts, ", "), "", parts[k]);
    assert prefix + Join(parts, ", ") + "" == prefix + Join(parts, ", ");
  }

  /** A line that starts with a path contains that path. */
  lemma LineContainsPath(path: string, rest: string)
    ensures Contains(path + ": " + rest, path)
  {
    ContainsMiddle("", path, ": " + rest);
    assert "" + path + (": " + rest) == path + ": " + rest;
  }

  /** One detail line per stale file: its path, then its reasons' labels, comma-separated. */
  function Detail(f: StaleFile): (line: string)
    ensures Contains(line, DisplayPath(f.path))
    ensures forall r :: r in f.reasons ==> Contains(line, r.Label()) && Contains(line, r.Word())
  {
    var line := DisplayPath(f.path) + ": " + Join(Labels(f.reasons), ", ");
    LineContainsPath(DisplayPath(f.path), Join(Labels(f.reasons), ", "));
    forall r | r in f.reasons ensures Contains(line, r.Label()) && Contains(line, r.Word()) {
      var k :| 0 <= k < |f.reasons| && f.reasons[k] == r;
      LineContainsPart(DisplayPath(f.path) + ": ", Labels(f.reasons), k);
      ContainsTransitive(line, r.Label(), r.Word());
    }
    line
  }

  const CompliantMessage := "all Claude settings files are up to date"
  const StaleWord := " stale"
  const MessageTail := " Claude settings file(s)"

  /** The error message for `n` stale files, which starts with the count. */
  function StaleMessage(n: nat): (message: string)
    ensures Contains(message, DecimalString(n) + StaleWord)
  {
    var count := DecimalString(n) + StaleWord;
    ContainsMiddle("", count, MessageTail);
    assert "" + count + MessageTail == count + MessageTail;
    count + MessageTail
  }

  /**
   * The check's result for a set of findings: OK with no details when there are none, otherwise
   * an error whose message counts the stale files and which has one detail line per file.
   */
  function Summarize(stale: seq<StaleFile>): (result: CheckResult)
    ensures result.name == CheckName
    ensures result.status == StatusOK <==> stale == []
    ensures |result.details| == |stale|
    ensures forall i :: 0 <= i < |stale| ==> Contains(result.details[i], DisplayPath(stale[i].path))
    ensures forall i, r :: 0 <= i < |stale| && r in stale[i].reasons ==>
      Contains(result.details[i], r.Label()) && Contains(result.details[i], r.Word())
    ensures result.status == StatusError ==> Contains(result.message, DecimalString(|stale|) + StaleWord)
  {
    if stale == [] then CheckResult(CheckName, StatusOK, CompliantMessage, [])
    else
      CheckResult(CheckName, StatusError, StaleMessage(|stale|), seq(|stale|, i requires 0 <= i < |stale| => Detail(stale[i])))
  }

  // ---------------------------------------------------------------------------------------------
  // The town and the check
  // ---------------------------------------------------------------------------------------------

  /** The town's settings files, by path below the town root. */
  class Town {
    var files: map<Path, Content>

    constructor (files: map<Path, Content>)
      ensures this.files == files
    {
      this.files := files;
    }
  }

  class ClaudeSettingsCheck {
    const name: string
    const canFix: bool
    /** The findings of the most recent `Run`, which `Fix` acts on. */
    var staleSettings: seq<StaleFile>

    constructor ()
      ensures name == CheckName && canFix
      ensures staleSettings == []
    {
      name := CheckName;
      canFix := true;
      staleSettings := [];
    }

    /** Scans the town, retains its stale files and reports them. */
    method Run(town: Town) returns (result: CheckResult)
      modifies this
      ensures IsScanOf(staleSettings, town.files)
      ensures |staleSettings| == |StalePaths(town.files)|
      ensures result == Summarize(staleSettings)
      ensures result.status == StatusOK <==> StalePaths(town.files) == {}
    {
      var remaining := town.files.Keys;
      var found: seq<StaleFile> := [];
      ScanStart(town.files);
      while remaining != {}
        invariant ScannedSoFar(found, remaining, town.files)
        decreases |remaining|
      {
        var p :| p in remaining;
        ScanStep(found, remaining, town.files, p);
        var finding := Inspect(p, town.files[p]);
        if finding.Some? {
          found := found + [finding.value];
        }
        remaining := remaining - {p};
      }
      ScanEnd(found, town.files);
      staleSettings := found;
      ScanCount(found, town.files);
      result := Summarize(found);
    }

    /** Deletes every retained finding that is misplaced; correctly placed files are left as they are. */
    method Fix(town: Town)
      modifies town
      ensures town.files == old(town.files) - MisplacedPathsOf(staleSettings)
    {
      var i := 0;
      while i < |staleSettings|
        invariant 0 <= i <= |staleSettings|
        invariant town.files == old(town.files) - MisplacedPathsOf(staleSettings[..i])
      {
        var f := staleSettings[i];
        if f.location.placement == WrongLocation {
          assert MisplacedPathsOf(staleSettings[..i + 1]) == MisplacedPathsOf(staleSettings[..i]) + {f.path};
          town.files := town.files - {f.path};
        } else {
          assert MisplacedPathsOf(staleSettings[..i + 1]) == MisplacedPathsOf(staleSettings[..i]);
        }
        i := i + 1;
      }
      assert staleSettings[..i] == staleSettings;
    }
  }
}
