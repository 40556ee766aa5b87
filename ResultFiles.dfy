/**
 * parseLatestResult: find the most recently modified file of the test
 * results directory and parse it as an analytics report.
 */
module ResultFiles {
  import opened Common
  import opened Analytics

  /**
   * A directory entry with its modification time, `None` when os.DirEntry.Info
   * fails. Times are abstract instants; 0 is Go's zero time.Time, the value
   * the search starts from.
   */
  datatype FileEntry = FileEntry(name: string, isDir: bool, modTime: Option<nat>)

  /** The test results directory as the service finds it: its listing and what its files hold. */
  datatype ResultsDir = ResultsDir(listing: Result<seq<FileEntry>>, contents: map<string, string>)

  /** A file the search looks at: not a directory, and its time could be read. */
  predicate Candidate(e: FileEntry) {
    !e.isDir && e.modTime.Some?
  }

  /**
   * The search as a left-to-right scan: the chosen index and its time. An
   * entry replaces the choice only if it is strictly later.
   */
  function Scan(entries: seq<FileEntry>): (r: (Option<nat>, nat))
    ensures r.0.Some? ==> r.0.value < |entries|
  {
    if entries == [] then (None, 0)
    else
      var prev := Scan(entries[..|entries| - 1]);
      var e := entries[|entries| - 1];
      if Candidate(e) && e.modTime.value > prev.1 then (Some(|entries| - 1), e.modTime.value) else prev
  }

  /** The index parseLatestResult settles on. */
  function Newest(entries: seq<FileEntry>): Option<nat> {
    Scan(entries).0
  }

  /**
   * The newest file: a candidate later than the zero time, not older than
   * any candidate, and strictly newer than every candidate before it.
   */
  predicate IsNewest(entries: seq<FileEntry>, k: nat) {
    && k < |entries| && Candidate(entries[k]) && entries[k].modTime.value > 0
    && (forall j :: 0 <= j < |entries| && Candidate(entries[j]) ==> entries[j].modTime.value <= entries[k].modTime.value)
    && (forall j :: 0 <= j < k && Candidate(entries[j]) ==> entries[j].modTime.value < entries[k].modTime.value)
  }

  lemma {:induction false} ScanInvariant(entries: seq<FileEntry>)
    ensures var r := Scan(entries);
      && (r.0.None? ==> r.1 == 0)
      && (r.0.Some? ==> IsNewest(entries, r.0.value) && r.1 == entries[r.0.value].modTime.value)
      && (r.0.None? ==> forall j :: 0 <= j < |entries| && Candidate(entries[j]) ==> entries[j].modTime.value == 0)
  {
    if entries != [] {
      var init := entries[..|entries| - 1];
      ScanInvariant(init);
      assert forall j :: 0 <= j < |init| ==> entries[j] == init[j];
    }
  }

  /**
   * The scan finds the newest file when there is one, and finds nothing
   * exactly when no candidate is later than the zero time.
   */
  lemma NewestSpec(entries: seq<FileEntry>)
    ensures Newest(entries).Some? ==> IsNewest(entries, Newest(entries).value)
    ensures Newest(entries).None? <==>
      forall j :: 0 <= j < |entries| && Candidate(entries[j]) ==> entries[j].modTime.value == 0
  {
    ScanInvariant(entries);
  }

  /** At most one index is the newest: ties go to the earliest. */
  lemma NewestUnique(entries: seq<FileEntry>, k: nat, m: nat)
    requires IsNewest(entries, k) && IsNewest(entries, m)
    ensures k == m
  {
  }

  /** The search loop of parseLatestResult. */
  method PickLatest(entries: seq<FileEntry>) returns (latest: Option<nat>)
    ensures latest == Newest(entries)
  {
    latest := None;
    var latestTime := 0;
    var i := 0;
    while i < |entries|
      invariant 0 <= i <= |entries|
      invariant (latest, latestTime) == Scan(entries[..i])
    {
      assert entries[..i + 1][..i] == entries[..i];
      var e := entries[i];
      if !e.isDir && e.modTime.Some? {
        if e.modTime.value > latestTime {
          latest := Some(i);
          latestTime := e.modTime.value;
        }
      }
      i := i + 1;
    }
    assert entries[..i] == entries;
  }

  /** What reading a file yields: its contents, or an error when it cannot be read. */
  function ReadFile(dir: ResultsDir, name: string): Result<string> {
    if name in dir.contents then Success(dir.contents[name]) else Failure(Os(name))
  }

  /** parseLatestResult as a function of the directory. */
  function LatestResult(dir: ResultsDir): Result<Parsed> {
    if dir.listing.Failure? then Failure(dir.listing.error)
    else
      var k := Newest(dir.listing.value);
      if k.None? then Failure(NoTestResultsFound)
      else
        var data := ReadFile(dir, dir.listing.value[k.value].name);
        if data.Failure? then Failure(data.error)
        else ParseSpec(data.value)
  }

  /** parseLatestResult: list, pick the newest file, read it, parse it. */
  method ParseLatestResult(dir: ResultsDir) returns (r: Result<Parsed>)
    ensures r == LatestResult(dir)
  {
    if dir.listing.Failure? {
      return Failure(dir.listing.error);
    }
    var k := PickLatest(dir.listing.value);
    if k.None? {
      return Failure(NoTestResultsFound);
    }
    var data := ReadFile(dir, dir.listing.value[k.value].name);
    if data.Failure? {
      return Failure(data.error);
    }
    r := ParseAnalytics(data.value);
  }

  /**
   * What the result of parseLatestResult means: the listing error, "no test
   * results found" when no file is newer than the zero time, or the parse of
   * the newest file's contents.
   */
  lemma LatestResultMeaning(dir: ResultsDir)
    ensures dir.listing.Failure? ==> LatestResult(dir) == Failure(dir.listing.error)
    ensures dir.listing.Success? ==>
      (forall j :: 0 <= j < |dir.listing.value| && Candidate(dir.listing.value[j]) ==> dir.listing.value[j].modTime.value == 0) ==>
      LatestResult(dir) == Failure(NoTestResultsFound)
    ensures LatestResult(dir).Success? ==> exists k: nat ::
      && IsNewest(dir.listing.value, k)
      && dir.listing.value[k].name in dir.contents
      && LatestResult(dir) == ParseSpec(dir.contents[dir.listing.value[k].name])
  {
    if dir.listing.Success? {
      NewestSpec(dir.listing.value);
    }
  }
}
