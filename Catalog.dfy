/**
 * The strategy catalogue: which files of the current release directory are
 * offered as strategies, and in which order.
 */
module Catalog {
  import opened Common
  import opened Text
  import opened Paths
  import opened Analytics

  /** One entry of a directory listing, as os.ReadDir returns it. */
  datatype DirEntry = DirEntry(name: string, isDir: bool)

  /**
   * A strategy script. `result` is the last known test result, absent where
   * the Go code leaves the zero TestResult.
   */
  datatype Strategy = Strategy(name: string, file: string, result: Option<TestResult>, best: bool)

  /**
   * The selection rule: a plain file whose lower-cased name does not start
   * with "service", ends with ".bat" and starts with "general".
   */
  predicate IsStrategyEntry(e: DirEntry)
    ensures IsStrategyEntry(e) ==> !e.isDir && |e.name| >= |"general"|
  {
    var lower := ToLower(e.name);
    && !e.isDir
    && !HasPrefix(lower, "service")
    && HasSuffix(lower, ".bat")
    && HasPrefix(lower, "general")
  }

  /** The names the selection rule keeps, in listing order. */
  function Kept(entries: seq<DirEntry>): (names: seq<string>)
    ensures |names| <= |entries|
  {
    if entries == [] then []
    else
      var last := entries[|entries| - 1];
      Kept(entries[..|entries| - 1]) + (if IsStrategyEntry(last) then [last.name] else [])
  }

  /** A strategy freshly read from disk: no result yet, not marked best. */
  function FreshStrategy(current: string, name: string): Strategy {
    Strategy(name, PathJoin(current, name), None, false)
  }

  function Names(ss: seq<Strategy>): (names: seq<string>)
    ensures |names| == |ss|
    ensures forall i :: 0 <= i < |ss| ==> names[i] == ss[i].name
  {
    seq(|ss|, i requires 0 <= i < |ss| => ss[i].name)
  }

  /**
   * listStrategies: nothing (and no error) while no release is installed,
   * the listing error if the directory cannot be read, otherwise the kept
   * entries sorted by name, each with its full path.
   */
  method ListStrategies(current: string, listing: Result<seq<DirEntry>>) returns (r: Result<seq<Strategy>>)
    ensures current == "" ==> r == Success([])
    ensures current != "" && listing.Failure? ==> r == Failure(listing.error)
    ensures current != "" && listing.Success? ==>
      && r.Success?
      && Names(r.value) == Sort(Kept(listing.value))
      && (forall i :: 0 <= i < |r.value| ==> r.value[i] == FreshStrategy(current, r.value[i].name))
  {
    if current == "" {
      return Success([]);
    }
    if listing.Failure? {
      return Failure(listing.error);
    }
    var entries := listing.value;
    var kept: seq<string> := [];
    var i := 0;
    while i < |entries|
      invariant 0 <= i <= |entries|
      invariant kept == Kept(entries[..i])
    {
      assert entries[..i + 1][..i] == entries[..i];
      if IsStrategyEntry(entries[i]) {
        kept := kept + [entries[i].name];
      }
      i := i + 1;
    }
    assert entries[..i] == entries;
    var sorted := Sort(kept);
    var res := seq(|sorted|, k requires 0 <= k < |sorted| => FreshStrategy(current, sorted[k]));
    assert Names(res) == sorted;
    return Success(res);
  }

  /** A name is kept exactly when some entry of that name passes the selection rule. */
  lemma {:induction false} KeptExactly(entries: seq<DirEntry>, name: string)
    ensures name in Kept(entries) <==> exists e :: e in entries && e.name == name && IsStrategyEntry(e)
  {
    if entries != [] {
      var init := entries[..|entries| - 1];
      var last := entries[|entries| - 1];
      KeptExactly(init, name);
      assert entries == init + [last];
      if name in Kept(init) {
        var e :| e in init && e.name == name && IsStrategyEntry(e);
        assert e in entries;
      }
      if exists e :: e in entries && e.name == name && IsStrategyEntry(e) {
        var e :| e in entries && e.name == name && IsStrategyEntry(e);
        if e != last {
          assert e in init;
        }
      }
    }
  }

  /**
   * What listStrategies promises about a listing it could read: the names
   * come out in ascending order, each kept entry once per occurrence, and a
   * name is listed exactly when its entry passes the selection rule.
   */
  lemma ListedStrategies(entries: seq<DirEntry>, name: string)
    ensures Sorted(Sort(Kept(entries)))
    ensures multiset(Sort(Kept(entries))) == multiset(Kept(entries))
    ensures name in Sort(Kept(entries)) <==>
      exists e :: e in entries && e.name == name && IsStrategyEntry(e)
  {
    SortSorted(Kept(entries));
    SortPermutes(Kept(entries));
    KeptExactly(entries, name);
    assert name in Sort(Kept(entries)) <==> name in multiset(Sort(Kept(entries)));
  }

  /** A name starting with "general" never starts with "service": that exclusion never fires. */
  lemma ServiceExclusionRedundant(e: DirEntry)
    requires !e.isDir && HasSuffix(ToLower(e.name), ".bat") && HasPrefix(ToLower(e.name), "general")
    ensures IsStrategyEntry(e)
  {
    var lower := ToLower(e.name);
    assert lower[0] == 'g';
  }
}
