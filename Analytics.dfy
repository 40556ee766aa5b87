/**
 * The test-report parser of service.go (parseAnalytics and atoi): turns the
 * text written by the test script into per-strategy results keyed by the
 * trimmed strategy name, plus the label of the best strategy.
 */
module Analytics {
  import opened Common
  import opened Text

  datatype Status = Ok | Fail

  /** One strategy's counters as the report gives them; LastTestedAt is not modelled. */
  datatype TestResult = TestResult(
    name: string,
    httpOk: int, httpErr: int, httpUnsup: int,
    pingOk: int, pingFail: int,
    fail: int, blocked: int,
    status: Status)

  datatype Parsed = Parsed(results: map<string, TestResult>, best: string)

  /** A record's status says "ok" exactly when none of its failure counters is set. */
  predicate StatusConsistent(r: TestResult) {
    (r.status == Ok) <==> (r.httpErr == 0 && r.pingFail == 0 && r.fail == 0 && r.blocked == 0)
  }

  // ---------------------------------------------------------------------------
  // atoi: strconv.Atoi on a 64-bit int, with the error dropped
  // ---------------------------------------------------------------------------

  const MaxInt: int := 0x7FFF_FFFF_FFFF_FFFF
  const MinInt: int := -0x8000_0000_0000_0000

  predicate IsDigit(c: char) { '0' <= c <= '9' }

  predicate AllDigits(s: string) {
    forall k :: 0 <= k < |s| ==> IsDigit(s[k])
  }

  function DigitsValue(s: string): nat
    requires AllDigits(s)
  {
    if s == [] then 0 else 10 * DigitsValue(s[..|s| - 1]) + (s[|s| - 1] as int - '0' as int)
  }

  /** strconv.ParseInt reports the nearest representable value on overflow. */
  function Clamp(v: int): int {
    if v > MaxInt then MaxInt else if v < MinInt then MinInt else v
  }

  /** A non-empty run of decimal digits, the text a `(\d+)` group captures. */
  predicate Numeral(s: string) {
    |s| > 0 && AllDigits(s)
  }

  /** The syntax strconv.Atoi accepts: an optional sign, then at least one digit. */
  predicate IsDecimal(s: string) {
    Numeral(s) || (|s| > 1 && (s[0] == '+' || s[0] == '-') && Numeral(s[1..]))
  }

  /**
   * atoi: an optional sign followed by at least one decimal digit gives its
   * value, clamped to the int64 range; anything else gives 0.
   */
  function Atoi(s: string): (n: int)
    ensures MinInt <= n <= MaxInt
    ensures !IsDecimal(s) ==> n == 0
    ensures Numeral(s) ==> n == Clamp(DigitsValue(s)) && n >= 0
    ensures |s| > 1 && s[0] == '-' && Numeral(s[1..]) ==> n == Clamp(-(DigitsValue(s[1..]) as int)) && n <= 0
    ensures |s| > 1 && s[0] == '+' && Numeral(s[1..]) ==> n == Clamp(DigitsValue(s[1..])) && n >= 0
  {
    if |s| > 1 && (s[0] == '+' || s[0] == '-') && AllDigits(s[1..]) then
      Clamp(if s[0] == '-' then -(DigitsValue(s[1..]) as int) else DigitsValue(s[1..]))
    else if |s| > 0 && AllDigits(s) then Clamp(DigitsValue(s))
    else 0
  }

  // ---------------------------------------------------------------------------
  // The two line grammars, anchored at the start of the line only
  // ---------------------------------------------------------------------------

  /** `^(.*) : HTTP OK: (\d+), ERR: (\d+), UNSUP: (\d+), Ping OK: (\d+), Fail: (\d+)` */
  const StdForm: seq<string> := [" : HTTP OK: ", ", ERR: ", ", UNSUP: ", ", Ping OK: ", ", Fail: "]

  /** `^(.*) : OK: (\d+), FAIL: (\d+), UNSUP: (\d+), BLOCKED: (\d+)` */
  const DpiForm: seq<string> := [" : OK: ", ", FAIL: ", ", UNSUP: ", ", BLOCKED: "]

  const AnalyticsMarker: string := "=== ANALYTICS ==="
  const BestPrefix: string := "Best strategy:"

  /** The length of the longest run of digits at the start of t (`\d+` is greedy). */
  function DigitPrefix(t: string): (n: nat)
    ensures n <= |t| && AllDigits(t[..n])
    ensures n == |t| || !IsDigit(t[n])
  {
    if |t| > 0 && IsDigit(t[0]) then
      var n := 1 + DigitPrefix(t[1..]);
      assert t[..n] == [t[0]] + t[1..][..n - 1];
      n
    else 0
  }

  /**
   * Matches `lits[0] (\d+) lits[1] (\d+) ...` at the start of t and gives the
   * captured digit runs; whatever follows the last one is ignored.
   */
  function Captures(t: string, lits: seq<string>): (r: Option<seq<string>>)
    ensures r.Some? ==> |r.value| == |lits|
    ensures r.Some? ==> forall k :: 0 <= k < |r.value| ==> Numeral(r.value[k])
    decreases |lits|
  {
    if lits == [] then Some([])
    else if !HasPrefix(t, lits[0]) then None
    else
      var u := t[|lits[0]|..];
      var n := DigitPrefix(u);
      if n == 0 then None
      else
        var rest := Captures(u[n..], lits[1..]);
        if rest.None? then None else Some([u[..n]] + rest.value)
  }

  /** Where the captured name ends, and the digit runs captured after it. */
  datatype Match = Match(at: nat, groups: seq<string>)

  /**
   * `^(.*)` followed by the fields: the greedy `.*` takes the longest name,
   * so the match is the LAST position p <= hi at which the fields match.
   */
  function LastMatch(line: string, hi: nat, lits: seq<string>): (m: Option<Match>)
    requires hi <= |line|
    ensures m.Some? ==> m.value.at <= hi && Captures(line[m.value.at..], lits) == Some(m.value.groups)
    ensures m.Some? ==> forall q :: m.value.at < q <= hi ==> Captures(line[q..], lits).None?
    ensures m.None? ==> forall q :: 0 <= q <= hi ==> Captures(line[q..], lits).None?
    decreases hi
  {
    var f := Captures(line[hi..], lits);
    if f.Some? then Some(Match(hi, f.value))
    else if hi == 0 then None
    else
      var m := LastMatch(line, hi - 1, lits);
      NoMatchUpTo(line, if m.Some? then m.value.at else -1, hi, lits);
      m
  }

  /** A position without a match extends a stretch of positions without one. */
  lemma NoMatchUpTo(line: string, lo: int, hi: nat, lits: seq<string>)
    requires lo < hi <= |line| && Captures(line[hi..], lits).None?
    requires forall q :: 0 <= q && lo < q <= hi - 1 ==> Captures(line[q..], lits).None?
    ensures forall q :: 0 <= q && lo < q <= hi ==> Captures(line[q..], lits).None?
  {
  }

  /** A standard-form line: HTTP OK, ERR, UNSUP, Ping OK, Fail, each through atoi. */
  function StdRecord(name: string, g: seq<string>): TestResult
    requires |g| == 5
  {
    var v := [Atoi(g[0]), Atoi(g[1]), Atoi(g[2]), Atoi(g[3]), Atoi(g[4])];
    TestResult(name, v[0], v[1], v[2], v[3], v[4], 0, 0,
               if v[1] == 0 && v[4] == 0 then Ok else Fail)
  }

  /** A DPI-summary line: OK, FAIL, UNSUP, BLOCKED, each through atoi. */
  function DpiRecord(name: string, g: seq<string>): TestResult
    requires |g| == 4
  {
    var v := [Atoi(g[0]), Atoi(g[1]), Atoi(g[2]), Atoi(g[3])];
    TestResult(name, v[0], 0, v[2], 0, 0, v[1], v[3],
               if v[1] == 0 && v[3] == 0 then Ok else Fail)
  }

  /** What one raw line of the report does to the parse. */
  datatype LineEffect = Skip | SetBest(text: string) | Record(result: TestResult)

  function ClassifyLine(raw: string): LineEffect {
    ClassifyTrimmed(TrimSpace(raw))
  }

  function ClassifyTrimmed(line: string): LineEffect {
    if line == AnalyticsMarker then Skip
    else if HasPrefix(line, BestPrefix) then SetBest(TrimSpace(line[|BestPrefix|..]))
    else if line == "" then Skip
    else MatchRecord(line)
  }

  /** The standard form is tried first, then the DPI form; neither gives Skip. */
  function MatchRecord(line: string): LineEffect {
    var std := LastMatch(line, |line|, StdForm);
    if std.Some? then Record(StdRecord(TrimSpace(line[..std.value.at]), std.value.groups))
    else
      var dpi := LastMatch(line, |line|, DpiForm);
      if dpi.Some? then Record(DpiRecord(TrimSpace(line[..dpi.value.at]), dpi.value.groups))
      else Skip
  }

  predicate IsRecordFor(raw: string, name: string) {
    var e := ClassifyLine(raw); e.Record? && e.result.name == name
  }

  // ---------------------------------------------------------------------------
  // The parse as a function of the lines read so far
  // ---------------------------------------------------------------------------

  datatype Acc = Acc(results: map<string, TestResult>, best: string)

  function Step(acc: Acc, e: LineEffect): Acc {
    match e
    case Skip => acc
    case SetBest(t) => acc.(best := t)
    case Record(r) => acc.(results := acc.results[r.name := r])
  }

  /** The effects of the lines, in order. */
  function Effects(lines: seq<string>): (effs: seq<LineEffect>)
    ensures |effs| == |lines|
    ensures forall i :: 0 <= i < |lines| ==> effs[i] == ClassifyLine(lines[i])
  {
    seq(|lines|, i requires 0 <= i < |lines| => ClassifyLine(lines[i]))
  }

  /** The map and best label after applying the effects from first to last. */
  function Fold(effs: seq<LineEffect>): Acc {
    if effs == [] then Acc(map[], "")
    else Step(Fold(effs[..|effs| - 1]), effs[|effs| - 1])
  }

  function Lines(content: string): seq<string> {
    Split(content, '\n')
  }

  /** The outcome parseAnalytics promises for a whole report. */
  function ParseSpec(content: string): Result<Parsed> {
    var acc := Fold(Effects(Lines(content)));
    if |acc.results| == 0 then Failure(NoAnalyticsParsed)
    else Success(Parsed(acc.results, acc.best))
  }

  /** parseAnalytics: one pass over the lines, updating the result map and the best label. */
  method ParseAnalytics(content: string) returns (r: Result<Parsed>)
    ensures r == ParseSpec(content)
  {
    var lines := Split(content, '\n');
    var results: map<string, TestResult> := map[];
    var best := "";
    for i := 0 to |lines|
      invariant Acc(results, best) == Fold(Effects(lines[..i]))
    {
      assert Effects(lines[..i + 1])[..i] == Effects(lines[..i]);
      results, best := ReadLine(results, best, lines[i]);
    }
    assert lines[..|lines|] == lines;
    if |results| == 0 {
      return Failure(NoAnalyticsParsed);
    }
    return Success(Parsed(results, best));
  }

  /** The body of parseAnalytics' loop: what one line does to the map and the best label. */
  method ReadLine(results: map<string, TestResult>, best: string, raw: string)
    returns (results': map<string, TestResult>, best': string)
    ensures Acc(results', best') == Step(Acc(results, best), ClassifyLine(raw))
  {
    results', best' := results, best;
    var line := TrimSpace(raw);
    assert ClassifyLine(raw) == ClassifyTrimmed(line);
    if line == AnalyticsMarker {
      return;
    }
    if HasPrefix(line, BestPrefix) {
      best' := TrimSpace(line[|BestPrefix|..]);
      return;
    }
    if line == "" {
      return;
    }
    assert ClassifyTrimmed(line) == MatchRecord(line);
    var std := LastMatch(line, |line|, StdForm);
    if std.Some? {
      var name := TrimSpace(line[..std.value.at]);
      results' := results[name := StdRecord(name, std.value.groups)];
      return;
    }
    var dpi := LastMatch(line, |line|, DpiForm);
    if dpi.Some? {
      var name := TrimSpace(line[..dpi.value.at]);
      results' := results[name := DpiRecord(name, dpi.value.groups)];
    }
  }

  // ---------------------------------------------------------------------------
  // What the parse promises
  // ---------------------------------------------------------------------------

  /** Every recognised line yields a record whose status agrees with its counters. */
  lemma ClassifiedRecordConsistent(raw: string)
    requires ClassifyLine(raw).Record?
    ensures StatusConsistent(ClassifyLine(raw).result)
    ensures TrimSpace(ClassifyLine(raw).result.name) == ClassifyLine(raw).result.name
    ensures var r := ClassifyLine(raw).result;
      r.httpOk >= 0 && r.httpErr >= 0 && r.httpUnsup >= 0 && r.pingOk >= 0
      && r.pingFail >= 0 && r.fail >= 0 && r.blocked >= 0
  {
    var line := TrimSpace(raw);
    assert ClassifyTrimmed(line) == MatchRecord(line);
    var std := LastMatch(line, |line|, StdForm);
    if std.Some? {
      RecordConsistent(TrimSpace(line[..std.value.at]), std.value.groups);
      TrimSpaceIdempotent(line[..std.value.at]);
    } else {
      var dpi := LastMatch(line, |line|, DpiForm);
      RecordConsistent(TrimSpace(line[..dpi.value.at]), dpi.value.groups);
      TrimSpaceIdempotent(line[..dpi.value.at]);
    }
  }

  /** Both record builders agree with the status rule and give non-negative counters from numerals. */
  lemma RecordConsistent(name: string, g: seq<string>)
    requires |g| == 4 || |g| == 5
    requires forall k :: 0 <= k < |g| ==> Numeral(g[k])
    ensures var r := if |g| == 5 then StdRecord(name, g) else DpiRecord(name, g);
      && StatusConsistent(r)
      && r.httpOk >= 0 && r.httpErr >= 0 && r.httpUnsup >= 0 && r.pingOk >= 0
      && r.pingFail >= 0 && r.fail >= 0 && r.blocked >= 0
  {
    assert Numeral(g[0]) && Numeral(g[1]) && Numeral(g[2]) && Numeral(g[3]);
  }

  /** What every record read from a line satisfies: a consistent status and a trimmed name. */
  predicate WellFormedRecord(r: TestResult) {
    StatusConsistent(r) && TrimSpace(r.name) == r.name
  }

  /** Every stored result sits under its own name, and a property every record has holds of the stored ones. */
  lemma {:induction false} FoldConsistent(effs: seq<LineEffect>)
    requires forall i :: 0 <= i < |effs| && effs[i].Record? ==> WellFormedRecord(effs[i].result)
    ensures forall k :: k in Fold(effs).results ==>
      Fold(effs).results[k].name == k && WellFormedRecord(Fold(effs).results[k])
  {
    if effs != [] {
      FoldConsistent(effs[..|effs| - 1]);
    }
  }

  /** The result map is empty exactly when no line matched either grammar. */
  lemma {:induction false} FoldEmptyIff(effs: seq<LineEffect>)
    ensures Fold(effs).results == map[] <==> forall i :: 0 <= i < |effs| ==> !effs[i].Record?
  {
    if effs != [] {
      var init := effs[..|effs| - 1];
      FoldEmptyIff(init);
      var e := effs[|effs| - 1];
      if e.Record? {
        assert e.result.name in Fold(effs).results;
      } else if exists i :: 0 <= i < |init| && init[i].Record? {
        var i :| 0 <= i < |init| && init[i].Record?;
        assert effs[i] == init[i];
      }
    }
  }

  /** The best label is the one given by the last `Best strategy:` line, "" if there is none. */
  lemma {:induction false} FoldBestIsLast(effs: seq<LineEffect>)
    ensures (forall i :: 0 <= i < |effs| ==> !effs[i].SetBest?) ==> Fold(effs).best == ""
    ensures forall i :: (0 <= i < |effs| && effs[i].SetBest?
                         && (forall j :: i < j < |effs| ==> !effs[j].SetBest?))
                         ==> Fold(effs).best == effs[i].text
  {
    if effs != [] {
      var init := effs[..|effs| - 1];
      FoldBestIsLast(init);
      forall i | 0 <= i < |init| ensures init[i] == effs[i] { }
    }
  }

  predicate RecordsName(e: LineEffect, name: string) {
    e.Record? && e.result.name == name
  }

  /** A name no line recorded is absent from the map. */
  lemma {:induction false} FoldAbsent(effs: seq<LineEffect>, name: string)
    requires forall i :: 0 <= i < |effs| ==> !RecordsName(effs[i], name)
    ensures name !in Fold(effs).results
  {
    if effs != [] {
      var init := effs[..|effs| - 1];
      assert forall i :: 0 <= i < |init| ==> init[i] == effs[i];
      FoldAbsent(init, name);
    }
  }

  /** Last write wins: a recorded name holds the record of the last line that recorded it. */
  lemma {:induction false} FoldLastWins(effs: seq<LineEffect>, name: string, i: nat)
    requires i < |effs| && RecordsName(effs[i], name)
    requires forall j :: i < j < |effs| ==> !RecordsName(effs[j], name)
    ensures name in Fold(effs).results && Fold(effs).results[name] == effs[i].result
  {
    var n := |effs| - 1;
    var init := effs[..n];
    var acc := Fold(init);
    assert Fold(effs) == Step(acc, effs[n]);
    if i < n {
      assert init[i] == effs[i];
      assert forall j :: i < j < |init| ==> init[j] == effs[j];
      FoldLastWins(init, name, i);
      assert !RecordsName(effs[n], name);
    }
  }

  /** Parsing fails, and only with "no analytics parsed", exactly when no line matched a grammar. */
  lemma ParseFailsIffNothingMatched(content: string)
    ensures ParseSpec(content).Failure? ==> ParseSpec(content).error == NoAnalyticsParsed
    ensures ParseSpec(content).Failure? <==>
      forall i :: 0 <= i < |Lines(content)| ==> !ClassifyLine(Lines(content)[i]).Record?
  {
    FoldEmptyIff(Effects(Lines(content)));
  }

  /** A successful parse holds only consistent records, each under its own trimmed name. */
  lemma ParseConsistent(content: string)
    requires ParseSpec(content).Success?
    ensures |ParseSpec(content).value.results| > 0
    ensures forall k :: k in ParseSpec(content).value.results ==>
      && ParseSpec(content).value.results[k].name == k
      && TrimSpace(k) == k
      && StatusConsistent(ParseSpec(content).value.results[k])
  {
    var effs := Effects(Lines(content));
    forall i | 0 <= i < |effs| && effs[i].Record? ensures WellFormedRecord(effs[i].result) {
      ClassifiedRecordConsistent(Lines(content)[i]);
    }
    FoldConsistent(effs);
  }
}
