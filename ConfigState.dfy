/**
 * The persisted Config of the service as a value, and the transitions the
 * service applies to it. The Service class in Service.dfy performs these
 * transitions on its Config object; the lemmas here say what they promise.
 */
module ConfigState {
  import opened Common
  import opened Text
  import opened Paths
  import opened Analytics
  import opened Catalog
  import opened Release
  import opened TestRun

  /** The strategy process last launched: its script's base name, its pid and when it started. */
  datatype RunningInfo = RunningInfo(file: string, pid: int, startedAt: nat)

  /** The fields of Config (the free-form Meta map is not modelled). Times are abstract instants. */
  datatype ConfigData = ConfigData(
    version: string,
    lastStrategy: string,
    lastTestAt: nat,
    testResults: map<string, TestResult>,
    bestStrategy: string,
    running: Option<RunningInfo>,
    testInProgress: bool)

  /** A Config before anything was read or seeded: all fields at their zero value. */
  const EmptyConfig: ConfigData := ConfigData("", "", 0, map[], "", None, false)

  /**
   * isPIDRunning: a pid that is not positive is never running; otherwise the
   * answer is what the process table says, given here as the set of live pids.
   */
  function IsPidRunning(pid: int, alive: set<int>): (r: bool)
    ensures pid <= 0 ==> !r
    ensures r <==> pid > 0 && pid in alive
  {
    if pid <= 0 then false else pid in alive
  }

  /** currentReleasePath: the directory of the installed version, empty while none is installed. */
  function CurrentPath(releasesDir: string, version: string): (p: string)
    ensures p == "" <==> version == ""
  {
    if version == "" then "" else PathJoin(releasesDir, version)
  }

  /** The full path RunStrategy launches: an absolute file as given, else relative to the release. */
  function FullPath(current: string, file: string): string {
    if IsAbs(file) then file else PathJoin(current, file)
  }

  /** The tag State shows: the latest tag, or empty when it could not be fetched. */
  function TagOrEmpty(resp: Result<Response>): string {
    var t := LatestTag(resp);
    if t.Success? then t.value else ""
  }

  // ---------------------------------------------------------------------------
  // Transitions
  // ---------------------------------------------------------------------------

  /** loadConfig: a Config with no version takes the one seedLocalRelease found, if it found one. */
  function Seeded(d: ConfigData, seed: Result<string>): ConfigData {
    if d.version == "" && seed.Success? && seed.value != "" then d.(version := seed.value) else d
  }

  /** StopRunning: whatever was tracked, nothing is tracked afterwards. */
  function Stopped(d: ConfigData): ConfigData {
    d.(running := None)
  }

  /** State, first step: results read back from the latest results file, if it has any. */
  function Rehydrated(d: ConfigData, latest: Result<Parsed>): ConfigData {
    if latest.Success? && |latest.value.results| > 0 then
      d.(testResults := latest.value.results, bestStrategy := latest.value.best)
    else d
  }

  /** State, second step: a tracked process whose pid is not running is forgotten. */
  function Validated(d: ConfigData, alive: set<int>): ConfigData {
    if d.running.Some? && !IsPidRunning(d.running.value.pid, alive) then d.(running := None) else d
  }

  /** What State does to the Config: both steps, and only while a release is installed. */
  function Refreshed(d: ConfigData, latest: Result<Parsed>, alive: set<int>): ConfigData {
    if d.version == "" then d else Validated(Rehydrated(d, latest), alive)
  }

  /**
   * RunStrategy after the launch: the process is tracked only for a positive
   * pid, and the last strategy is the script's base name either way.
   */
  function Launched(d: ConfigData, full: string, pid: int, now: nat): ConfigData {
    var tracked := if pid > 0 then d.(running := Some(RunningInfo(Base(full), pid, now))) else d;
    tracked.(lastStrategy := Base(full))
  }

  /** RunTests before the script starts: results cleared, the run marked as in progress. */
  function TestsStarted(d: ConfigData, now: nat): ConfigData {
    d.(testResults := map[], bestStrategy := "", testInProgress := true, lastTestAt := now)
  }

  /**
   * RunTests after the run: the parsed results if any arrived, else nothing,
   * and the run no longer in progress.
   */
  function TestsFinished(d: ConfigData, parsed: Option<Parsed>, now: nat): ConfigData {
    match parsed
    case Some(p) => d.(testResults := p.results, bestStrategy := p.best, testInProgress := false, lastTestAt := now)
    case None => d.(testResults := map[], bestStrategy := "", testInProgress := false, lastTestAt := now)
  }

  /** Whether CheckAndUpdate skips the download: the installed version already is the latest tag. */
  predicate UpToDate(d: ConfigData, tag: string) {
    d.version == tag && tag != ""
  }

  // ---------------------------------------------------------------------------
  // Properties of the transitions
  // ---------------------------------------------------------------------------

  /** Seeding fills only an empty version, and never with an empty one; nothing else changes. */
  lemma SeedOnlyFillsEmpty(d: ConfigData, seed: Result<string>)
    ensures d.version != "" ==> Seeded(d, seed) == d
    ensures Seeded(d, seed) == d.(version := Seeded(d, seed).version)
    ensures Seeded(d, seed).version != d.version ==>
      d.version == "" && seed == Success(Seeded(d, seed).version) && seed.value != ""
  {
  }

  /**
   * After State a tracked process is known to be running, provided a release
   * is installed; without one the stale-pid check is skipped.
   */
  lemma RefreshedKeepsOnlyLiveProcess(d: ConfigData, latest: Result<Parsed>, alive: set<int>)
    requires d.version != ""
    ensures var r := Refreshed(d, latest, alive);
      && (r.running.Some? ==> IsPidRunning(r.running.value.pid, alive) && r.running == d.running)
      && (d.running.Some? && IsPidRunning(d.running.value.pid, alive) ==> r.running == d.running)
  {
  }

  /** State never touches the version, the last strategy, the test flag or its time. */
  lemma RefreshedFrame(d: ConfigData, latest: Result<Parsed>, alive: set<int>)
    ensures var r := Refreshed(d, latest, alive);
      && r.version == d.version && r.lastStrategy == d.lastStrategy
      && r.testInProgress == d.testInProgress && r.lastTestAt == d.lastTestAt
  {
  }

  /** Reading State twice in a row with nothing changed in between is the same as reading it once. */
  lemma RefreshedIdempotent(d: ConfigData, latest: Result<Parsed>, alive: set<int>)
    ensures Refreshed(Refreshed(d, latest, alive), latest, alive) == Refreshed(d, latest, alive)
  {
  }

  /**
   * RunStrategy on a Config whose process was stopped: a process is tracked
   * exactly when the pid is positive, and it is the launched script.
   */
  lemma LaunchTracksPositivePid(d: ConfigData, full: string, pid: int, now: nat)
    ensures var r := Launched(Stopped(d), full, pid, now);
      && (r.running.Some? <==> pid > 0)
      && (r.running.Some? ==> r.running.value == RunningInfo(Base(full), pid, now))
      && r.lastStrategy == Base(full)
      && r.version == d.version && r.testResults == d.testResults && r.bestStrategy == d.bestStrategy
  {
  }

  /** A script given by name is recorded under that name, not under its full path. */
  lemma LastStrategyIsScriptName(d: ConfigData, current: string, file: string, pid: int, now: nat)
    requires file != [] && forall k :: 0 <= k < |file| ==> !IsSeparator(file[k])
    ensures Launched(d, FullPath(current, file), pid, now).lastStrategy == file
  {
    BaseOfJoin(current, file);
  }

  /** The reset at the start of a run leaves no trace once the run is reconciled. */
  lemma ResetOverwritten(d: ConfigData, t0: nat, parsed: Option<Parsed>, t1: nat)
    ensures TestsFinished(TestsStarted(d, t0), parsed, t1) == TestsFinished(d, parsed, t1)
  {
  }

  /**
   * What a finished run leaves: not in progress, the results and best label of
   * the report that settled the race or none at all, and an error reported
   * exactly when no report arrived.
   */
  lemma RunReconciled(d: ConfigData, t0: nat, events: seq<Event>, t1: nat)
    ensures var o := Race(events);
      var r := TestsFinished(TestsStarted(d, t0), o.parsed, t1);
      && !r.testInProgress && r.lastTestAt == t1
      && (o.parsed.Some? ==> r.testResults == o.parsed.value.results && r.bestStrategy == o.parsed.value.best)
      && (o.parsed.None? ==> r.testResults == map[] && r.bestStrategy == "")
      && (ReportedError(o).Some? <==> o.parsed.None?)
  {
    ErrorIffNoResults(events);
  }

  /**
   * CheckAndUpdate's commit: the version becomes the tag only past the download
   * guards, so it is never emptied, and the committed Config is up to date with
   * that tag, so a later CheckAndUpdate answered with the same tag skips the
   * download.
   */
  lemma CommitNeedsUnpack(d: ConfigData, tag: string, prepare: Option<Error>, targetIsDir: bool, fetch: Option<Error>)
    requires !DownloadAndUnpack(tag, prepare, targetIsDir, fetch).UnpackFailed?
    ensures tag != "" && prepare.None?
    ensures UpToDate(d.(version := tag), tag)
  {
  }

  /** After State on an up-to-date Config, no update is offered. */
  lemma UpToDateNoUpdate(d: ConfigData, tag: string, latest: Result<Parsed>, alive: set<int>)
    requires UpToDate(d, tag)
    ensures !HasUpdate(tag, Refreshed(d, latest, alive).version)
  {
  }
}
