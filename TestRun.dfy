/**
 * The wait loop of RunTests. The PowerShell test script, a watcher polling
 * the results directory and a 12-minute deadline run side by side; the loop
 * stops at the first event that settles the run. Which event comes first is
 * up to the scheduler, so the model receives the order of events as input.
 */
module TestRun {
  import opened Common
  import opened Analytics

  /** One thing the loop can observe in one pass of its `select`. */
  datatype Event =
    | ResultArrived(parsed: Parsed)         // the watcher parsed a results file
    | WatcherFailed(error: Error)           // the watcher gave up (directory unreadable, context done)
    | ProcessExited(exit: Option<Error>)    // the script ended, with or without an error
    | DeadlineReached                       // the 12-minute context expired
    | Idle                                  // nothing ready: the loop sleeps and polls again

  /** The three variables the loop leaves behind. */
  datatype Outcome = Outcome(parsed: Option<Parsed>, watchErr: Option<Error>, cmdErr: Option<Error>)

  /** Whether an event ends the loop. A clean exit of the script does not: the watcher may still deliver. */
  predicate Settles(e: Event) {
    !e.Idle? && !(e.ProcessExited? && e.exit.None?)
  }

  /** What the loop leaves behind when it stops on event `e`. */
  function Settle(e: Event): Outcome
    requires Settles(e)
  {
    match e
    case ResultArrived(p) => Outcome(Some(p), None, None)
    case WatcherFailed(err) => Outcome(None, Some(err), None)
    case ProcessExited(exit) => Outcome(None, None, exit)
    case DeadlineReached => Outcome(None, Some(DeadlineExceeded), None)
  }

  /**
   * The outcome of a schedule: the first settling event decides. A schedule
   * that runs out without one ends at the deadline, which always fires.
   */
  function Race(events: seq<Event>): Outcome {
    if events == [] then Outcome(None, Some(DeadlineExceeded), None)
    else if Settles(events[0]) then Settle(events[0])
    else Race(events[1..])
  }

  /** The `waitLoop` of RunTests, one event per pass. */
  method WaitForOutcome(events: seq<Event>) returns (o: Outcome)
    ensures o == Race(events)
  {
    var parsed: Option<Parsed> := None;
    var watchErr: Option<Error> := None;
    var cmdErr: Option<Error> := None;
    var i := 0;
    while i < |events|
      invariant 0 <= i <= |events|
      invariant Race(events) == Race(events[i..])
      invariant parsed.None? && watchErr.None? && cmdErr.None?
    {
      assert events[i..] == [events[i]] + events[i + 1..];
      match events[i] {
        case ResultArrived(p) =>
          parsed := Some(p);
          watchErr := None;
          return Outcome(parsed, watchErr, cmdErr);
        case WatcherFailed(err) =>
          watchErr := Some(err);
          return Outcome(parsed, watchErr, cmdErr);
        case ProcessExited(exit) =>
          cmdErr := exit;
          if exit.Some? {
            return Outcome(parsed, watchErr, cmdErr);
          }
        case DeadlineReached =>
          watchErr := Some(DeadlineExceeded);
          return Outcome(parsed, watchErr, cmdErr);
        case Idle =>
      }
      i := i + 1;
    }
    return Outcome(parsed, Some(DeadlineExceeded), cmdErr);
  }

  /**
   * The error RunTests reports after the loop: with no results, the watcher's
   * error unless it is a cancellation, else the script's error, else "test
   * results file not found"; with results, the script's error if any.
   */
  function ReportedError(o: Outcome): (r: Option<Error>)
    ensures r.Some? <==> o.parsed.None? || o.cmdErr.Some?
    ensures o.parsed.Some? ==> r == o.cmdErr
  {
    if o.parsed.None? then
      if o.watchErr.Some? && o.watchErr.value != Canceled then o.watchErr
      else if o.cmdErr.Some? then o.cmdErr
      else Some(TestResultsFileNotFound)
    else o.cmdErr
  }

  /** The loop stops on exactly one kind of event, so at most one of its variables is set. */
  lemma {:induction false} RaceSettlesOnce(events: seq<Event>)
    ensures var o := Race(events);
      && (o.parsed.Some? ==> o.watchErr.None? && o.cmdErr.None?)
      && (o.watchErr.Some? ==> o.parsed.None? && o.cmdErr.None?)
      && (o.cmdErr.Some? ==> o.parsed.None? && o.watchErr.None?)
      && (o.parsed.Some? || o.watchErr.Some? || o.cmdErr.Some?)
  {
    if events != [] && !Settles(events[0]) {
      RaceSettlesOnce(events[1..]);
    }
  }

  /**
   * A run reports an error exactly when no results arrived: results are
   * never paired with an error, and a run without them is never silent.
   */
  lemma ErrorIffNoResults(events: seq<Event>)
    ensures ReportedError(Race(events)).Some? <==> Race(events).parsed.None?
  {
    RaceSettlesOnce(events);
  }

  /**
   * The first settling event decides: results that arrive after the script
   * has failed are never read, and nothing after the deadline counts.
   */
  lemma {:induction false} FirstSettlingEventWins(events: seq<Event>, i: nat)
    requires i < |events| && Settles(events[i])
    requires forall j :: 0 <= j < i ==> !Settles(events[j])
    ensures Race(events) == Settle(events[i])
  {
    if i > 0 {
      FirstSettlingEventWins(events[1..], i - 1);
    }
  }

  /** Idle passes and clean exits of the script leave the outcome as it was. */
  lemma {:induction false} QuietEventsIgnored(quiet: seq<Event>, rest: seq<Event>)
    requires forall j :: 0 <= j < |quiet| ==> !Settles(quiet[j])
    ensures Race(quiet + rest) == Race(rest)
  {
    if quiet != [] {
      assert (quiet + rest)[0] == quiet[0] && !Settles(quiet[0]);
      assert (quiet + rest)[1..] == quiet[1..] + rest;
      QuietEventsIgnored(quiet[1..], rest);
    } else {
      assert quiet + rest == rest;
    }
  }
}
