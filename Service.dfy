/**
 * The Service of service.go and the Config object it shares between its
 * operations. Everything outside the process (the file system, the network,
 * the process table, the clock) reaches the model as parameters: a World
 * for what the operations observe, and the outcome of each side effect.
 */
module Service {
  import opened Common
  import opened Text
  import opened Paths
  import opened Analytics
  import opened Catalog
  import opened Release
  import opened ResultFiles
  import opened TestRun
  import opened ConfigState

  /**
   * What the operations observe: the live pids, the test results directory of
   * the current release, the listing of the current release directory, and
   * the answer to the "latest release" request.
   */
  datatype World = World(
    alive: set<int>,
    results: ResultsDir,
    releaseListing: Result<seq<DirEntry>>,
    latest: Result<Response>)

  /** The State DTO handed to the UI (LastTestLog is never filled in and is not modelled). */
  datatype StateView = StateView(
    config: ConfigData,
    strategies: seq<Strategy>,
    latestTag: string,
    hasUpdate: bool,
    currentPath: string,
    running: Option<RunningInfo>)

  /** A listed strategy with the stored result for its name, and marked when it is the best one. */
  function Annotated(s: Strategy, results: map<string, TestResult>, best: string): Strategy {
    var withResult := if s.name in results then s.(result := Some(results[s.name])) else s;
    if best != "" && best == s.name then withResult.(best := true) else withResult
  }

  /**
   * What State shows for Config `d` in world `w`: the latest tag and whether
   * it is an update, the current path, the tracked process, and the release's
   * strategies in name order, each with its stored result and best mark.
   */
  predicate ViewOf(st: StateView, d: ConfigData, releasesDir: string, w: World) {
    var current := CurrentPath(releasesDir, d.version);
    && st.config == d
    && st.latestTag == TagOrEmpty(w.latest)
    && st.hasUpdate == HasUpdate(st.latestTag, d.version)
    && st.currentPath == current
    && st.running == d.running
    && (current == "" || w.releaseListing.Failure? ==> st.strategies == [])
    && (current != "" && w.releaseListing.Success? ==>
      && Names(st.strategies) == Sort(Kept(w.releaseListing.value))
      && forall i :: 0 <= i < |st.strategies| ==>
        st.strategies[i] == Annotated(FreshStrategy(current, st.strategies[i].name), d.testResults, d.bestStrategy))
  }

  /** The Go Config struct, shared by pointer between the operations. */
  class Config {
    var version: string
    var lastStrategy: string
    var lastTestAt: nat
    var testResults: map<string, TestResult>
    var bestStrategy: string
    var running: Option<RunningInfo>
    var testInProgress: bool

    /** The fields as a value. */
    function Data(): ConfigData
      reads this
    {
      ConfigData(version, lastStrategy, lastTestAt, testResults, bestStrategy, running, testInProgress)
    }

    /** A Config holding `d`: what json.Unmarshal leaves in a fresh Config. */
    constructor (d: ConfigData)
      ensures Data() == d
    {
      version := d.version;
      lastStrategy := d.lastStrategy;
      lastTestAt := d.lastTestAt;
      testResults := d.testResults;
      bestStrategy := d.bestStrategy;
      running := d.running;
      testInProgress := d.testInProgress;
    }
  }

  class Service {
    const releasesDir: string
    const config: Config

    /**
     * loadConfig: the stored Config (an unreadable or malformed file leaves the
     * zero Config), seeded from the bundled releases when it names no version.
     * `listing`, `cached` and `copyResult` are what seedLocalRelease observes.
     */
    constructor Load(releasesDir: string, stored: Option<ConfigData>,
                     listing: Result<seq<DirEntry>>, cached: bool, copyResult: Option<Error>)
      ensures this.releasesDir == releasesDir && fresh(config)
      ensures var d := if stored.Some? then stored.value else EmptyConfig;
        && config.Data() == d.(version := config.version)
        && (d.version != "" ==> config.version == d.version)
        && (d.version == "" && config.version != "" ==>
          && listing.Success? && (cached || copyResult.None?)
          && (exists e :: e in listing.value && e.isDir && e.name == config.version)
          && (forall e :: e in listing.value && e.isDir ==> !Less(config.version, e.name)))
      ensures var d := if stored.Some? then stored.value else EmptyConfig;
        d.version == "" && listing.Success? && (exists e :: e in listing.value && e.isDir) && (cached || copyResult.None?) ==>
          && (exists e :: e in listing.value && e.isDir && e.name == config.version)
          && (forall e :: e in listing.value && e.isDir ==> !Less(config.version, e.name))
    {
      var d := if stored.Some? then stored.value else EmptyConfig;
      if d.version == "" {
        var v := SeedLocalRelease(listing, cached, copyResult);
        d := Seeded(d, v);
      }
      this.releasesDir := releasesDir;
      config := new Config(d);
    }

    function CurrentReleasePath(): string
      reads config
    {
      CurrentPath(releasesDir, config.version)
    }

    /**
     * StopRunning: the tracked process, if the process table still shows it, is
     * the one killed (returned here); either way nothing is tracked afterwards.
     * The sweeps for winws.exe are side effects without a trace in the Config.
     */
    method StopRunning(alive: set<int>) returns (killed: Option<int>)
      modifies config
      ensures config.Data() == Stopped(old(config.Data()))
      ensures config.running.None?
      ensures killed.Some? <==> old(config.running).Some? && IsPidRunning(old(config.running).value.pid, alive)
      ensures killed.Some? ==> killed.value == old(config.running).value.pid && killed.value > 0
    {
      killed := None;
      if config.running.Some? {
        if IsPidRunning(config.running.value.pid, alive) {
          killed := Some(config.running.value.pid);
        }
        config.running := None;
      }
    }

    /** The annotation loop of State. */
    method Annotate(ss: seq<Strategy>) returns (r: seq<Strategy>)
      ensures |r| == |ss|
      ensures forall i :: 0 <= i < |r| ==> r[i] == Annotated(ss[i], config.testResults, config.bestStrategy)
    {
      r := ss;
      var i := 0;
      while i < |r|
        invariant 0 <= i <= |r| == |ss|
        invariant forall k :: 0 <= k < i ==> r[k] == Annotated(ss[k], config.testResults, config.bestStrategy)
        invariant forall k :: i <= k < |r| ==> r[k] == ss[k]
      {
        var s := r[i];
        if s.name in config.testResults {
          s := s.(result := Some(config.testResults[s.name]));
        }
        if config.bestStrategy != "" && config.bestStrategy == s.name {
          s := s.(best := true);
        }
        r := r[i := s];
        i := i + 1;
      }
    }

    /**
     * State: rehydrate the results from disk and drop a dead process (both only
     * while a release is installed), then assemble the view.
     */
    method State(w: World) returns (st: StateView)
      modifies config
      ensures config.Data() == Refreshed(old(config.Data()), LatestResult(w.results), w.alive)
      ensures ViewOf(st, config.Data(), releasesDir, w)
    {
      Refresh(w);
      st := View(w);
    }

    /** The part of State that writes to the Config. */
    method Refresh(w: World)
      modifies config
      ensures config.Data() == Refreshed(old(config.Data()), LatestResult(w.results), w.alive)
    {
      if CurrentReleasePath() != "" {
        var latest := ParseLatestResult(w.results);
        if latest.Success? && |latest.value.results| > 0 {
          config.testResults := latest.value.results;
          config.bestStrategy := latest.value.best;
        }
        if config.running.Some? && !IsPidRunning(config.running.value.pid, w.alive) {
          config.running := None;
        }
      }
    }

    /** The part of State that only reads: the DTO for the current Config. */
    method View(w: World) returns (st: StateView)
      ensures ViewOf(st, config.Data(), releasesDir, w)
    {
      var current := CurrentReleasePath();
      var latestTag := TagOrEmpty(w.latest);
      var hasUpdate := HasUpdate(latestTag, config.version);
      var listed := ListStrategies(current, w.releaseListing);
      var strategies := if listed.Success? then listed.value else [];
      var annotated := Annotate(strategies);
      assert Names(annotated) == Names(strategies);
      st := StateView(config.Data(), annotated, latestTag, hasUpdate, current, config.running);
    }

    /**
     * RunStrategy: stop the tracked process, resolve the script against the
     * current release, check that it exists (`statErr`), launch it through
     * PowerShell (`run` is the captured output), track the pid it printed if
     * positive, remember the script's name and return the new State.
     */
    method RunStrategy(file: string, w: World, statErr: Option<Error>, run: Result<string>, now: nat)
      returns (r: Result<StateView>)
      modifies config
      ensures var stopped := Stopped(old(config.Data()));
        var full := FullPath(CurrentPath(releasesDir, old(config.version)), file);
        && (old(config.version) == "" ==> r == Failure(NoCurrentRelease) && config.Data() == stopped)
        && (old(config.version) != "" && statErr.Some? ==> r == Failure(statErr.value) && config.Data() == stopped)
        && (old(config.version) != "" && statErr.None? && run.Failure? ==> r == Failure(run.error) && config.Data() == stopped)
        && (old(config.version) != "" && statErr.None? && run.Success? ==>
          && config.Data() == Refreshed(Launched(stopped, full, Atoi(TrimSpace(run.value)), now), LatestResult(w.results), w.alive)
          && r.Success? && ViewOf(r.value, config.Data(), releasesDir, w))
    {
      var _ := StopRunning(w.alive);
      var current := CurrentReleasePath();
      if current == "" {
        return Failure(NoCurrentRelease);
      }
      var full := FullPath(current, file);
      if statErr.Some? {
        return Failure(statErr.value);
      }
      if run.Failure? {
        return Failure(run.error);
      }
      Launch(full, Atoi(TrimSpace(run.value)), now);
      var st := State(w);
      return Success(st);
    }

    /** The bookkeeping after a launch: track a positive pid, remember the script's name. */
    method Launch(full: string, pid: int, now: nat)
      modifies config
      ensures config.Data() == Launched(old(config.Data()), full, pid, now)
    {
      if pid > 0 {
        config.running := Some(RunningInfo(Base(full), pid, now));
      }
      config.lastStrategy := Base(full);
    }

    /**
     * RunTests. `scriptErr` is the check that the test script exists,
     * `startErr` the outcome of starting PowerShell, `events` the order in
     * which the watcher, the script and the deadline report, `after` the world
     * the closing State call observes, and `t0`, `t1` the two readings of the
     * clock. The results directory in `after` is whatever the reset left: the
     * errors of removing and recreating it are ignored, so old results files
     * may survive and be read back by State. A State is returned whenever the
     * script could be started or not after the reset; the error is the one
     * the run reports.
     */
    method RunTests(scriptErr: Option<Error>, startErr: Option<Error>,
                    events: seq<Event>, after: World, t0: nat, t1: nat)
      returns (st: Option<StateView>, err: Option<Error>)
      modifies config
      ensures old(config.version) == "" ==>
        st.None? && err == Some(NoCurrentRelease) && config.Data() == old(config.Data())
      ensures old(config.version) != "" && scriptErr.Some? ==>
        st.None? && err == scriptErr && config.Data() == old(config.Data())
      ensures old(config.version) != "" && scriptErr.None? && startErr.Some? ==>
        && err == startErr
        && config.Data() == Refreshed(TestsFinished(old(config.Data()), None, t1), LatestResult(after.results), after.alive)
        && st.Some? && ViewOf(st.value, config.Data(), releasesDir, after)
      ensures old(config.version) != "" && scriptErr.None? && startErr.None? ==>
        && err == ReportedError(Race(events))
        && config.Data() == Refreshed(TestsFinished(old(config.Data()), Race(events).parsed, t1), LatestResult(after.results), after.alive)
        && st.Some? && ViewOf(st.value, config.Data(), releasesDir, after)
    {
      var current := CurrentReleasePath();
      if current == "" {
        return None, Some(NoCurrentRelease);
      }
      if scriptErr.Some? {
        return None, scriptErr;
      }
      ghost var d0 := config.Data();
      config.testResults := map[];
      config.bestStrategy := "";
      config.testInProgress := true;
      config.lastTestAt := t0;
      assert config.Data() == TestsStarted(d0, t0);
      ResetOverwritten(d0, t0, None, t1);
      if startErr.Some? {
        config.testResults := map[];
        config.bestStrategy := "";
        config.testInProgress := false;
        config.lastTestAt := t1;
        var s := State(after);
        return Some(s), startErr;
      }
      var o := WaitForOutcome(events);
      ResetOverwritten(d0, t0, o.parsed, t1);
      if o.parsed.Some? {
        config.testResults := o.parsed.value.results;
        config.bestStrategy := o.parsed.value.best;
      } else {
        config.testResults := map[];
        config.bestStrategy := "";
      }
      config.testInProgress := false;
      config.lastTestAt := t1;
      var s := State(after);
      return Some(s), ReportedError(o);
    }

    /**
     * CheckAndUpdate: fetch the latest tag (`resp` is the answer to this
     * request); if it is already installed just return State; otherwise
     * download and unpack it (`prepare`, `targetIsDir` and `fetch` as in
     * DownloadAndUnpack), commit the version, save the Config (`saveErr`) and
     * return State. State makes a request of its own, whose answer is
     * `w.latest`: it may differ from `resp` or fail, so the returned State
     * offers no update only when both requests were answered alike.
     */
    method CheckAndUpdate(resp: Result<Response>, w: World, prepare: Option<Error>, targetIsDir: bool,
                          fetch: Option<Error>, saveErr: Option<Error>)
      returns (st: Option<StateView>, err: Option<Error>)
      modifies config
      ensures st.Some? <==> err.None?
      ensures st.Some? ==> LatestTag(resp).Success? && st.value.config.version == LatestTag(resp).value
      ensures st.Some? && w.latest == resp ==> !st.value.hasUpdate
      ensures LatestTag(resp).Failure? ==>
        err == Some(LatestTag(resp).error) && config.Data() == old(config.Data())
      ensures LatestTag(resp).Success? && UpToDate(old(config.Data()), LatestTag(resp).value) ==>
        && config.Data() == Refreshed(old(config.Data()), LatestResult(w.results), w.alive)
        && st.Some? && ViewOf(st.value, config.Data(), releasesDir, w)
      ensures config.version != old(config.version) ==>
        && LatestTag(resp).Success? && config.version == LatestTag(resp).value && config.version != ""
        && !DownloadAndUnpack(config.version, prepare, targetIsDir, fetch).UnpackFailed?
      ensures LatestTag(resp).Success? && !UpToDate(old(config.Data()), LatestTag(resp).value) ==>
        var tag := LatestTag(resp).value;
        var u := DownloadAndUnpack(tag, prepare, targetIsDir, fetch);
        && (u.UnpackFailed? ==> err == Some(u.error) && config.Data() == old(config.Data()))
        && (!u.UnpackFailed? && saveErr.Some? ==> err == saveErr && config.Data() == old(config.Data()).(version := tag))
        && (!u.UnpackFailed? && saveErr.None? ==>
          && config.Data() == Refreshed(old(config.Data()).(version := tag), LatestResult(w.results), w.alive)
          && st.Some? && ViewOf(st.value, config.Data(), releasesDir, w))
    {
      var latest := LatestTag(resp);
      if latest.Failure? {
        return None, Some(latest.error);
      }
      var tag := latest.value;
      if config.version == tag && tag != "" {
        var s := State(w);
        return Some(s), None;
      }
      var u := DownloadAndUnpack(tag, prepare, targetIsDir, fetch);
      if u.UnpackFailed? {
        return None, Some(u.error);
      }
      config.version := tag;
      if saveErr.Some? {
        return None, saveErr;
      }
      var s := State(w);
      return Some(s), None;
    }
  }

  /** In a view, a strategy carries a result exactly when one is stored under its name. */
  lemma ViewResults(st: StateView, d: ConfigData, releasesDir: string, w: World, i: nat)
    requires ViewOf(st, d, releasesDir, w) && i < |st.strategies|
    requires d.version != "" && w.releaseListing.Success?
    ensures st.strategies[i].result.Some? <==> st.strategies[i].name in d.testResults
    ensures st.strategies[i].result.Some? ==> st.strategies[i].result.value == d.testResults[st.strategies[i].name]
    ensures st.strategies[i].best <==> d.bestStrategy != "" && st.strategies[i].name == d.bestStrategy
    ensures st.strategies[i].file == PathJoin(st.currentPath, st.strategies[i].name)
  {
  }

  /**
   * A view lists exactly the release's strategy scripts, in ascending order,
   * and at most one of them is marked best.
   */
  lemma ViewListing(st: StateView, d: ConfigData, releasesDir: string, w: World, name: string)
    requires ViewOf(st, d, releasesDir, w)
    requires d.version != "" && w.releaseListing.Success?
    ensures Sorted(Names(st.strategies))
    ensures name in Names(st.strategies) <==>
      exists e :: e in w.releaseListing.value && e.name == name && IsStrategyEntry(e)
    ensures forall i, j :: 0 <= i < j < |st.strategies| && st.strategies[i].best && st.strategies[j].best ==>
      st.strategies[i].name == st.strategies[j].name
  {
    ListedStrategies(w.releaseListing.value, name);
  }
}
