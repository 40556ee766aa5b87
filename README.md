# zapret-ui service core, in Dafny

This project models the core of the zapret-ui back end: the `Service` of
`service.go` and the `RUN_PROCESS_HIDDEN` start-up switch of
`process_visibility.go`. The service manages locally installed releases of
the zapret bundle. It does the following:

- lists the strategy scripts (`general*.bat`) of the installed release;
- launches and stops a strategy;
- runs the bundle's PowerShell test script;
- parses the script's analytics report into per-strategy results;
- tells the UI whether a newer release tag exists.

The model is split into these files:

- **Common.dfy**: `Option`, `Result` and the error values the service reports.
- **Text.dfy**: the parts of Go's `strings` and `sort` that the code relies on.
  - `TrimSpace` uses Unicode white space. `ToLower` covers ASCII, plus the two
    non-ASCII runes that lower into ASCII.
  - `Split` and `Join`, `TrimRight` of one character, and prefix and suffix tests.
  - Byte-wise `<` on strings, and a sort, with its ordering and permutation proofs.
- **Paths.dfy**: the Windows flavour of `filepath.Join` (one name), `IsAbs` and `Base`.
- **Analytics.dfy**: `parseAnalytics` and `atoi`.
  - The two regular expressions are modelled exactly as written: anchored
    only at the start, a greedy `(.*)`, maximal `\d+` groups, and trailing
    text ignored.
  - `ParseAnalytics` is the line loop, proved equal to a fold over per-line
    effects.
- **ReportFormat.dfy**: a renderer for the report the test script writes, and
  the round trip: every well-formed report parses back to its records and its
  best label.
- **Catalog.dfy**: `listStrategies` (the filter, the sort and the full paths).
- **Release.dfy**:
  - tag extraction in `latestTag`;
  - the `hasUpdate` rule;
  - the guards of `downloadAndUnpack`;
  - the choice of the bundled release in `seedLocalRelease`.
- **ResultFiles.dfy**: `parseLatestResult`. It picks the newest results file,
  with a strict "after" comparison so the first entry wins ties, and parses it.
- **TestRun.dfy**: the wait loop of `RunTests` and its error policy. The race
  between the watcher, the script and the deadline is an input: the order in
  which events arrive.
- **ConfigState.dfy**: the persisted `Config` as a value, and the transitions
  the service applies to it: seed, stop, rehydrate, drop a stale pid, launch,
  test reset, reconcile and commit.
- **Service.dfy**: the `Config` and `Service` classes.
  - Their methods (`State`, `RunStrategy`, `StopRunning`, `RunTests`,
    `CheckAndUpdate`, and `loadConfig` as a constructor) update the shared
    `Config` in place.
  - Each is proved to produce the transition of ConfigState.dfy and the
    State DTO described by `ViewOf`.
- **Visibility.dfy**: the `RUN_PROCESS_HIDDEN` flag and its `init` decision
  table, as a class with a method.

Everything outside the process is a parameter of the operation that observes
it:

- directory listings, file contents and modification times;
- the HTTP answer for the latest release;
- the process table (the set of live pids);
- the output of the launching PowerShell command;
- the order in which the test run's events arrive;
- the clock (abstract instants).

Where the code's own comments and the code disagree, the model follows the
code:

- **Grace period.** The comment at service.go:471 says the sleep gives the
  watcher "a short chance to observe the result file". But when the test
  script exits with an error, the code sleeps 500 ms and leaves the wait loop
  without reading the result channel again. The wait loop therefore never
  uses a result written during that grace period
  (`TestRun.FirstSettlingEventWins`). The closing `State` call can still read
  that file back from disk when it rehydrates the results
  (`Service.Service.RunTests`).
- **Default of `RUN_PROCESS_HIDDEN`.** The comment at process_visibility.go:10
  says the default is "true (hide)", but the variable is initialised to
  `false`. The model uses `false`. (`Visibility.BlankKeepsDefault`)
- **The "service" exclusion.** It is tested on the lower-cased name. It can
  never fire, because a kept name must also start with "general".
  (`Catalog.ServiceExclusionRedundant`)
- **Empty split.** `latestTag` checks for an empty split result. That check is
  unreachable, because splitting always yields at least one piece. It has no
  counterpart in the model.

## Model

| member | source | states |
|---|---|---|
| `Analytics.Atoi` | service.go:709-712 | The result is always in the int64 range. It is 0 for anything that is not an optionally signed run of digits. Otherwise it is the value of the digits, negated after a `-`, clamped to the int64 range on overflow; `+` and no sign both give the non-negative value. |
| `Analytics.DigitPrefix` | service.go:651-652 | A `\d+` group takes the longest run of digits at the start. |
| `Analytics.Captures` | service.go:651-652 | A field match yields one digit run per literal. Each run is a non-empty decimal numeral. |
| `Analytics.LastMatch` | service.go:651-652 | The greedy `(.*)` puts the fields at the LAST position where they match. Nothing later matches, and with no match, no position matches. |
| `Analytics.ParseAnalytics` | service.go:645-707 | The line loop returns exactly the fold of the per-line effects. |
| `Analytics.ReadLine` | service.go:654-701 | One pass of the loop applies that line's effect to the map and the best label. |
| `Analytics.ClassifiedRecordConsistent` | service.go:667-700 | A recognised line yields status "ok" exactly when its failure counters (ERR and Ping Fail, or FAIL and BLOCKED) are 0. Its name is trimmed, as `strings.TrimSpace` leaves it. |
| `Analytics.RecordConsistent` | service.go:675-698 | Both record builders set "ok" exactly when the failure counters of their grammar are 0. Counters read from numerals are never negative. |
| `Analytics.FoldConsistent` | service.go:682 | Every stored result sits under its own name, and keeps the consistent status and the trimmed name that every record read from a line has. |
| `Analytics.FoldEmptyIff` | service.go:703-705 | The result map is empty exactly when no line matched either grammar. |
| `Analytics.FoldBestIsLast` | service.go:660-663 | The best label comes from the last `Best strategy:` line. It is "" when there is none. |
| `Analytics.FoldAbsent` | service.go:682 | A name that no line recorded is absent from the map. |
| `Analytics.FoldLastWins` | service.go:699 | A later line with the same name overwrites the earlier record. |
| `Analytics.ParseFailsIffNothingMatched` | service.go:703-705 | Parsing fails exactly when no line matched a grammar, and then only with "no analytics parsed". A report with only a best line fails too. |
| `Analytics.ParseConsistent` | service.go:667-706 | A successful parse is non-empty. Every record is keyed by its trimmed name and has a status consistent with its counters. |
| `ReportFormat.AtoiDecimal` | service.go:709-712 | `atoi` reads back the decimal rendering of every int64-sized count. |
| `ReportFormat.LastMatchRender` | service.go:651-652 | On a rendered line, the fields are found right after the name, and nowhere later. |
| `ReportFormat.DpiNotStd` | service.go:667 | A DPI-summary line never matches the standard grammar, so it is read with the DPI grammar. |
| `ReportFormat.ClassifyRender` | service.go:654-700 | A rendered strategy line is classified as the record it was rendered from. |
| `ReportFormat.ParseReport` | service.go:645-707 | Round trip: a report of well-formed lines and an optional best label parses to the records of those lines and that label. It fails with "no analytics parsed" when there are no strategy lines. |
| `ReportFormat.ToMapShape` | service.go:682 | With distinct names, the expected map has one entry per strategy line, holding that line's record. |
| `ReportFormat.ParseReportCount` | service.go:703-706 | With distinct names, the parse has exactly one entry per strategy line. |
| `Text.SplitJoin` | service.go:272 | `strings.Split` inverts joining on a separator that occurs in no piece. |
| `Text.SortSorted` | service.go:393 | The sort leaves names in ascending byte order. |
| `Text.SortPermutes` | service.go:393 | The sort is a permutation of its input. |
| `Text.TrimSpaceIdempotent` | service.go:655 | Trimming an already trimmed line changes nothing. |
| `Paths.Base` | service.go:882 | `filepath.Base` is never empty. It is "." for "", and a single separator for a path made only of separators. Otherwise it is the longest separator-free tail of the path once trailing separators are dropped. |
| `Paths.IsAbs` | service.go:845 | A path without any separator, such as a plain script name, is never absolute, so it is resolved against the current release. |
| `Paths.BaseOfJoin` | service.go:846 | The base of a joined path is the name that was joined. |
| `Catalog.ListStrategies` | service.go:371-395 | With no release installed, the result is empty and there is no error. An unreadable directory gives its error. Otherwise the names are the sorted kept names, each with its path in the release and no result. |
| `Catalog.KeptExactly` | service.go:381-392 | A name is kept exactly when some entry of that name passes the selection rule. |
| `Catalog.ListedStrategies` | service.go:381-393 | The listed names are ascending and a permutation of the kept ones. A name is listed exactly when its entry is a plain file named `general*.bat` (any case) and not `service*`. |
| `Catalog.ServiceExclusionRedundant` | service.go:383-386 | A `general*.bat` file always passes the `service` exclusion. |
| `Catalog.IsStrategyEntry` | service.go:383-386 | The selection rule keeps only plain files, whose names are at least as long as "general". |
| `Release.TagOfLocation` | service.go:272-276 | The tag contains no `/`. |
| `Release.LatestTag` | service.go:267-277 | A failed request is passed on. Otherwise the tag comes from the Location header, or from the request URL when the header is absent. |
| `Release.TagOfReleaseURL` | service.go:272-276 | The inverse of building a release URL: the tag after the last slash comes back, whatever prefix precedes it and however many slashes follow it. |
| `Release.TagEmptyIff` | service.go:272-276 | The tag is empty exactly when the location is nothing but slashes. |
| `Release.NoUpdateWithoutTag` | service.go:223-224 | With a failed request or an all-slash location, no update is offered, whatever the installed version. |
| `Release.HasUpdate` | service.go:224 | An empty latest tag, or one equal to the installed version, is never an update. |
| `Release.DownloadAndUnpack` | service.go:302-312 | An empty tag is refused. A failed preparation is reported. An existing tag directory is a no-op. Past those guards, a failed fetch is reported with its error, and a fetch happens exactly when all three guards pass and it succeeds. |
| `Release.DirNamesExactly` | service.go:178-182 | The collected versions are exactly the names of the directory entries. |
| `Release.LatestBundled` | service.go:177-187 | It fails with "no bundled releases" exactly when there is no directory. Otherwise it picks a directory name that no directory name exceeds in byte order. |
| `Release.GreatestOf` | service.go:186-187 | The last of the sorted versions belongs to the list and is not less than any of them. |
| `Release.SeedLocalRelease` | service.go:167-197 | A listing error, no bundled release, or a failed copy is reported. With a readable listing holding a directory that is cached or copied without error, it succeeds. A success names the greatest bundled directory. |
| `ResultFiles.NewestSpec` | service.go:529-546 | The scan finds the newest readable file. It finds none exactly when no readable file is later than the zero time. |
| `ResultFiles.NewestUnique` | service.go:539 | The strict "after" comparison makes the newest file unique, so the first entry wins ties. |
| `ResultFiles.PickLatest` | service.go:529-543 | The search loop computes the newest file. |
| `ResultFiles.ParseLatestResult` | service.go:523-553 | The error paths are listing, no file, and read. Otherwise the result is the parse of the newest file. |
| `ResultFiles.LatestResultMeaning` | service.go:544-552 | A successful result is the parse of the contents of a file that is the newest. |
| `TestRun.WaitForOutcome` | service.go:452-485 | The wait loop stops at the first settling event and leaves that event's outcome. |
| `TestRun.RaceSettlesOnce` | service.go:452-485 | Exactly one of parsed, watcher error and script error is set after the loop. |
| `TestRun.ErrorIffNoResults` | service.go:500-515 | An error is reported exactly when no results arrived. |
| `TestRun.ReportedError` | service.go:500-515 | An error is returned exactly when no results arrived or the script failed. With results, the error is the script's own. |
| `TestRun.FirstSettlingEventWins` | service.go:452-485 | The first settling event decides. Results after a script failure or after the deadline are never read. |
| `TestRun.QuietEventsIgnored` | service.go:470-483 | Idle passes and clean script exits do not change the outcome. |
| `ConfigState.IsPidRunning` | service.go:977-986 | A pid is running exactly when it is positive and in the process table. |
| `ConfigState.CurrentPath` | service.go:247-253 | The current path is empty exactly when no version is recorded. |
| `ConfigState.SeedOnlyFillsEmpty` | service.go:145-150 | Seeding changes only an empty version, never to "", and nothing else. |
| `ConfigState.RefreshedKeepsOnlyLiveProcess` | service.go:215-220 | With a release installed, State keeps a tracked process exactly when its pid is running. |
| `ConfigState.RefreshedFrame` | service.go:199-245 | State never changes the version, the last strategy, the in-progress flag or the test time. |
| `ConfigState.RefreshedIdempotent` | service.go:208-221 | A second State read with nothing changed in between changes nothing more. |
| `ConfigState.LaunchTracksPositivePid` | service.go:872-882 | After RunStrategy's stop and launch, a process is tracked exactly when the pid is positive. It is the launched script. The last strategy is always its base name. |
| `ConfigState.LastStrategyIsScriptName` | service.go:844-882 | A script given by a plain name is remembered under that name. |
| `ConfigState.ResetOverwritten` | service.go:416-496 | The reset at the start of a run leaves no trace once the run is reconciled. |
| `ConfigState.RunReconciled` | service.go:487-509 | The Config a run leaves before the closing State call: the test is not in progress, the results and best label come from the settling report or are empty, and an error is reported exactly when no report arrived. |
| `ConfigState.CommitNeedsUnpack` | service.go:289-295 | The version is committed only past the download guards, so never as "". The committed Config is up to date with that tag, so a later check answered with the same tag skips the download. |
| `ConfigState.UpToDateNoUpdate` | service.go:289-290 | When the installed version equals the non-empty latest tag, no update is offered. |
| `Service.Config.constructor` | service.go:137-143 | A fresh Config holds exactly the decoded fields. |
| `Service.Service.Load` | service.go:130-153 | The stored Config is kept, except that a missing version is seeded. Seeding succeeds whenever a bundled directory exists and is cached or copied without error. A seeded version is the greatest bundled directory. |
| `Service.Service.StopRunning` | service.go:888-933 | Afterwards nothing is tracked and everything else is unchanged. The killed pid is the tracked one, exactly when it is still running. |
| `Service.Service.Launch` | service.go:873-882 | After a launch, a positive pid is tracked with the script's base name. The last strategy is that base name. |
| `Service.Service.Annotate` | service.go:227-235 | Each listed strategy gets the result stored under its name, and the best mark when its name is the non-empty best label. |
| `Service.Service.State` | service.go:199-245 | The Config becomes its rehydrated, stale-pid-checked form, and the view shows it. |
| `Service.Service.Refresh` | service.go:208-221 | The rehydration and the stale-pid check, only while a release is installed. |
| `Service.Service.View` | service.go:223-244 | The DTO: latest tag, hasUpdate, current path, the tracked process, and the annotated sorted strategies. |
| `Service.Service.RunStrategy` | service.go:832-885 | It always stops first. Then it reports no release, a stat error or a launch error. Otherwise it tracks the printed pid when positive, remembers the base name and returns State. |
| `Service.Service.RunTests` | service.go:397-516 | Missing release and missing script change nothing. On a start error, the reset is undone and State is returned with that error. Otherwise the settling outcome is reconciled into the Config and the policy error is returned with State. Either way State reads whatever results directory the reset left, since its removal errors are ignored. |
| `Service.Service.CheckAndUpdate` | service.go:280-300 | A tag error changes nothing. An up-to-date version only refreshes. The version changes only to the non-empty tag and only after a successful unpack. A returned State holds that tag as its version. It offers no update when State's own latest-tag request gets the same answer. |
| `Service.ViewResults` | service.go:227-235 | In a view, a strategy has a result exactly when one is stored under its name. It is best exactly when its name is the non-empty best label. Its file is in the current release. |
| `Service.ViewListing` | service.go:226-235 | A view lists exactly the release's strategy scripts, in ascending order, with at most one name marked best. |
| `Visibility.ProcessVisibility.constructor` | process_visibility.go:12 | The flag starts out false. |
| `Visibility.ProcessVisibility.Init` | process_visibility.go:14-25 | The flag becomes the decision table applied to the trimmed, lower-cased variable. |
| `Visibility.DecisionTable` | process_visibility.go:19-24 | False words clear the flag, true words set it, and any other word keeps it. |
| `Visibility.WordListsDisjoint` | process_visibility.go:20-23 | No word is both a false word and a true word. |
| `Visibility.BlankKeepsDefault` | process_visibility.go:15-18 | A blank variable leaves the code default, which is not hidden. |
| `Visibility.PaddedUpperTrueHides` | process_visibility.go:15-23 | `"  TRUE "` sets the flag. |
| `Visibility.DecideIdempotent` | process_visibility.go:14-25 | Applying the same variable twice equals applying it once. |
| `Visibility.HiddenAfterStartup` | process_visibility.go:12-25 | After start-up the flag is set exactly for a true word. |

## Left out

- **Network access.** The network (HTTP requests in `latestTag` and
  `downloadAndUnpack`) is not modelled. Their outcomes are parameters.
- **Archives and copying.** Zip extraction (`unzipBuffer`) and directory
  copying (`copyDir`, `copyFile`) are not modelled. Only their success or
  error reaches the model.
- **Saving the Config.** The JSON (de)serialisation in `saveConfig` and
  `loadConfig` is not modelled. The write errors of `saveConfig` are ignored
  everywhere except in `CheckAndUpdate`, where the model takes the error as a
  parameter. The free-form `Meta` map is not modelled.
- **Processes.** Process spawning and killing are not modelled:
  - `startPowerShellToLog`, `killProcessTree`;
  - the winws.exe sweeps in `StopRunning`;
  - the `tasklist` query in `isPIDRunning`.

  The process table is a set of live pids. The pid printed by the launch
  command is a parameter.
- **Concurrency.** `RunTests` and `waitForResultFile` use goroutines, channels,
  a ticker, sleeps and a 12-minute deadline. This is reduced to the order of
  events in the wait loop.
- **Result-file polling.** The `test_results_*.txt` name filter with which
  `waitForResultFile` decides to call `parseLatestResult` is not modelled,
  and neither is its polling.
- **Timestamps.** `time.Now`, `LastTestedAt` and file modification times are
  abstract natural numbers. A file whose time cannot be read is skipped, as
  in the code.
- **Path cleaning.** `filepath.Join` is modelled without lexical cleaning of
  `.`, `..` and doubled separators. `filepath.Base` does not strip a volume
  name.
- **`runPowerShellVisibleWithParsing`.** It is unused by the service, so it is
  not modelled.
- **Other files.** `app.go` and `tray_windows.go` are not part of this model.
  `app.go` only delegates to the service; `tray_windows.go` is UI.
- **Error paths of `loadConfig`.** The model assumes `loadConfig` has already
  succeeded once. Its `ensureDirs` error path, and the resulting error returns
  of every operation, are not modelled.
- **Unicode case mapping.** `Text.ToLower` maps ASCII letters and the two
  non-ASCII runes that lower into ASCII (U+0130, U+212A). Other non-ASCII
  letters are left unchanged. This is enough for every comparison against an
  ASCII literal, which is all the code makes.
