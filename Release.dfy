/**
 * Release bookkeeping: the latest tag read off the GitHub "latest release"
 * redirect, when an update is offered, the guards in front of a download,
 * and which bundled release seeds a fresh installation.
 */
module Release {
  import opened Common
  import opened Text
  import opened Catalog

  // ---------------------------------------------------------------------------
  // The latest tag
  // ---------------------------------------------------------------------------

  /**
   * What the HTTP request in latestTag yields: the Location header (empty
   * when absent) and the URL the request ended at.
   */
  datatype Response = Response(location: string, requestURL: string)

  /** The last `/`-separated piece of a location once trailing slashes are cut. */
  function TagOfLocation(loc: string): (tag: string)
    ensures '/' !in tag
  {
    var parts := Split(TrimRightChar(loc, '/'), '/');
    parts[|parts| - 1]
  }

  /**
   * latestTag: a failed request is passed on; otherwise the tag is taken from
   * the Location header, or from the request URL when there is no header.
   */
  function LatestTag(resp: Result<Response>): (r: Result<string>)
    ensures resp.Failure? ==> r == Failure(resp.error)
    ensures resp.Success? && resp.value.location != "" ==>
      r == Success(TagOfLocation(resp.value.location))
    ensures resp.Success? && resp.value.location == "" ==>
      r == Success(TagOfLocation(resp.value.requestURL))
  {
    match resp
    case Failure(e) => Failure(e)
    case Success(Response(location, url)) =>
      Success(TagOfLocation(if location == "" then url else location))
  }

  function Slashes(n: nat): (s: string)
    ensures |s| == n && forall k :: 0 <= k < n ==> s[k] == '/'
  {
    if n == 0 then "" else Slashes(n - 1) + "/"
  }

  lemma {:induction false} TrimSlashes(s: string, n: nat)
    requires s != [] && s[|s| - 1] != '/'
    ensures TrimRightChar(s + Slashes(n), '/') == s
  {
    if n > 0 {
      assert (s + Slashes(n))[..|s| + n - 1] == s + Slashes(n - 1);
      TrimSlashes(s, n - 1);
    }
  }

  lemma LastPieceAfterSlash(s: string, tag: string)
    requires '/' !in tag
    requires |tag| < |s| && s[|s| - |tag|..] == tag && s[|s| - |tag| - 1] == '/'
    ensures var parts := Split(s, '/'); parts[|parts| - 1] == tag
  {
    SplitLastSegment(s, '/', |tag|);
  }

  lemma TagAfterLastSlash(s: string, tag: string, n: nat)
    requires tag != "" && '/' !in tag
    requires |tag| < |s| && s[|s| - |tag|..] == tag && s[|s| - |tag| - 1] == '/'
    ensures TagOfLocation(s + Slashes(n)) == tag
  {
    assert s[|s| - 1] == tag[|tag| - 1];
    assert tag[|tag| - 1] in tag;
    TrimSlashes(s, n);
    LastPieceAfterSlash(s, tag);
    TagOfTrimmed(s + Slashes(n), s);
  }

  lemma TagOfTrimmed(loc: string, s: string)
    requires TrimRightChar(loc, '/') == s
    ensures var parts := Split(s, '/'); TagOfLocation(loc) == parts[|parts| - 1]
  {
  }

  /**
   * The inverse of building a release URL: whatever precedes the last slash
   * and however many slashes follow it, the tag comes back out.
   */
  lemma TagOfReleaseURL(prefix: string, tag: string, n: nat)
    requires tag != "" && '/' !in tag
    ensures TagOfLocation(prefix + "/" + tag + Slashes(n)) == tag
  {
    var s := prefix + "/" + tag;
    assert s[|s| - |tag|..] == tag;
    TagAfterLastSlash(s, tag, n);
  }

  /** A string not ending in a slash has a non-empty last piece. */
  lemma LastPieceNonEmpty(s: string)
    requires s != "" && s[|s| - 1] != '/'
    ensures var parts := Split(s, '/'); parts[|parts| - 1] != ""
  {
    SplitLast(s, '/');
  }

  /** The tag is empty exactly when the location is nothing but slashes. */
  lemma TagEmptyIff(loc: string)
    ensures TagOfLocation(loc) == "" <==> TrimRightChar(loc, '/') == ""
  {
    var s := TrimRightChar(loc, '/');
    if s == "" {
      assert Split(s, '/') == [""];
    } else {
      LastPieceNonEmpty(s);
    }
  }

  /** hasUpdate: a latest tag is known and differs from the installed version. */
  predicate HasUpdate(latest: string, version: string)
    ensures latest == "" ==> !HasUpdate(latest, version)
    ensures latest == version ==> !HasUpdate(latest, version)
  {
    latest != "" && latest != version
  }

  /** Whatever the installed version, an unknown latest tag never offers an update. */
  lemma NoUpdateWithoutTag(resp: Result<Response>, version: string)
    requires resp.Failure? || (resp.Success? && TrimRightChar(
      if resp.value.location == "" then resp.value.requestURL else resp.value.location, '/') == "")
    ensures var latest := if LatestTag(resp).Success? then LatestTag(resp).value else "";
      !HasUpdate(latest, version)
  {
    if resp.Success? {
      TagEmptyIff(if resp.value.location == "" then resp.value.requestURL else resp.value.location);
    }
  }

  // ---------------------------------------------------------------------------
  // Download guards
  // ---------------------------------------------------------------------------

  /**
   * The outcome of downloadAndUnpack. Go reports both successes as a nil
   * error; the model keeps apart whether anything was fetched.
   */
  datatype Unpack = AlreadyUnpacked | Fetched | UnpackFailed(error: Error)

  /**
   * downloadAndUnpack: an empty tag is refused, then the directories are
   * prepared, then an existing tag directory makes the call a no-op; only
   * then is the archive fetched and unpacked. `prepare` is the result of
   * ensureDirs and `fetch` that of the request, the status check, reading
   * the body and unzipping.
   */
  function DownloadAndUnpack(tag: string, prepare: Option<Error>, targetIsDir: bool, fetch: Option<Error>): (u: Unpack)
    ensures tag == "" ==> u == UnpackFailed(TagEmpty)
    ensures tag != "" && prepare.Some? ==> u == UnpackFailed(prepare.value)
    ensures tag != "" && prepare.None? && targetIsDir ==> u == AlreadyUnpacked
    ensures u == Fetched <==> tag != "" && prepare.None? && !targetIsDir && fetch.None?
    ensures u.UnpackFailed? && u.error != TagEmpty ==> tag != "" && (prepare.Some? || fetch.Some?)
    ensures tag != "" && prepare.None? && !targetIsDir && fetch.Some? ==> u == UnpackFailed(fetch.value)
  {
    if tag == "" then UnpackFailed(TagEmpty)
    else if prepare.Some? then UnpackFailed(prepare.value)
    else if targetIsDir then AlreadyUnpacked
    else if fetch.Some? then UnpackFailed(fetch.value)
    else Fetched
  }

  // ---------------------------------------------------------------------------
  // Seeding from a bundled release
  // ---------------------------------------------------------------------------

  /** The directory names of a listing, in listing order. */
  function DirNames(entries: seq<DirEntry>): (names: seq<string>)
    ensures |names| <= |entries|
  {
    if entries == [] then []
    else
      var last := entries[|entries| - 1];
      DirNames(entries[..|entries| - 1]) + (if last.isDir then [last.name] else [])
  }

  /** A name is among the directory names exactly when a directory entry carries it. */
  lemma {:induction false} DirNamesExactly(entries: seq<DirEntry>)
    ensures forall n :: n in DirNames(entries) <==> exists e :: e in entries && e.isDir && e.name == n
    ensures forall e :: e in entries && e.isDir ==> e.name in DirNames(entries)
  {
    if entries != [] {
      var init := entries[..|entries| - 1];
      var last := entries[|entries| - 1];
      DirNamesExactly(init);
      assert entries == init + [last];
      forall n ensures n in DirNames(entries) <==> exists e :: e in entries && e.isDir && e.name == n {
        if n in DirNames(init) {
          var e :| e in init && e.isDir && e.name == n;
          assert e in entries;
        }
        if exists e :: e in entries && e.isDir && e.name == n {
          var e :| e in entries && e.isDir && e.name == n;
          if e != last {
            assert e in init;
          }
        }
      }
    }
  }

  /** In an ascending list nothing is greater than the last element. */
  lemma LastIsGreatest(s: seq<string>)
    requires Sorted(s) && s != []
    ensures forall x :: x in s ==> !Less(s[|s| - 1], x)
  {
    forall x | x in s ensures !Less(s[|s| - 1], x) {
      var k :| 0 <= k < |s| && s[k] == x;
      if k == |s| - 1 {
        LessIrreflexive(x);
      }
    }
  }

  /**
   * The version seedLocalRelease picks: the greatest directory name, found by
   * collecting the directories, sorting them and taking the last.
   */
  method LatestBundled(entries: seq<DirEntry>) returns (r: Result<string>)
    ensures r.Failure? <==> forall e :: e in entries ==> !e.isDir
    ensures r.Failure? ==> r.error == NoBundledReleases
    ensures r.Success? ==> exists e :: e in entries && e.isDir && e.name == r.value
    ensures r.Success? ==> forall e :: e in entries && e.isDir ==> !Less(r.value, e.name)
  {
    var versions: seq<string> := [];
    var i := 0;
    while i < |entries|
      invariant 0 <= i <= |entries|
      invariant versions == DirNames(entries[..i])
    {
      assert entries[..i + 1][..i] == entries[..i];
      if entries[i].isDir {
        versions := versions + [entries[i].name];
      }
      i := i + 1;
    }
    assert entries[..i] == entries;
    DirNamesExactly(entries);
    if |versions| == 0 {
      return Failure(NoBundledReleases);
    }
    var latest := GreatestOf(versions);
    return Success(latest);
  }

  /** The last of the sorted names: a member that nothing in the list exceeds. */
  function GreatestOf(versions: seq<string>): (latest: string)
    requires versions != []
    ensures latest in versions
    ensures forall v :: v in versions ==> !Less(latest, v)
  {
    var sorted := Sort(versions);
    SortSorted(versions);
    SortPermutes(versions);
    assert |sorted| == |versions| by {
      assert |multiset(sorted)| == |multiset(versions)|;
    }
    LastIsGreatest(sorted);
    forall v | v in versions ensures v in sorted {
      assert v in multiset(versions);
    }
    assert sorted[|sorted| - 1] in multiset(versions);
    sorted[|sorted| - 1]
  }

  /**
   * seedLocalRelease: the bundled release root is listed (`listing` carries
   * any error from os.Getwd or os.ReadDir), its greatest version is copied
   * into the cache unless it is already there, and its name is returned.
   */
  method SeedLocalRelease(listing: Result<seq<DirEntry>>, cached: bool, copyResult: Option<Error>)
    returns (r: Result<string>)
    ensures listing.Failure? ==> r == Failure(listing.error)
    ensures listing.Success? && (forall e :: e in listing.value ==> !e.isDir) ==> r == Failure(NoBundledReleases)
    ensures listing.Success? && !cached && copyResult.Some? && (exists e :: e in listing.value && e.isDir) ==>
      r == Failure(copyResult.value)
    ensures r.Success? ==>
      && listing.Success? && (cached || copyResult.None?)
      && (exists e :: e in listing.value && e.isDir && e.name == r.value)
      && (forall e :: e in listing.value && e.isDir ==> !Less(r.value, e.name))
    ensures listing.Success? && (exists e :: e in listing.value && e.isDir) && (cached || copyResult.None?) ==>
      r.Success?
  {
    if listing.Failure? {
      return Failure(listing.error);
    }
    var latest := LatestBundled(listing.value);
    if latest.Failure? {
      return latest;
    }
    if cached {
      return latest;
    }
    if copyResult.Some? {
      return Failure(copyResult.value);
    }
    return latest;
  }
}
