/**
 * The report format the test script writes, as a renderer, and the proof
 * that parseAnalytics reads every well-formed report back: one entry per
 * strategy line, keyed by name, with the counters and status of that line,
 * and the label of the `Best strategy:` line.
 */
module ReportFormat {
  import opened Common
  import opened Text
  import opened Analytics

  // ---------------------------------------------------------------------------
  // Decimal numbers
  // ---------------------------------------------------------------------------

  function DigitChar(d: nat): char
    requires d < 10
  {
    ('0' as int + d) as char
  }

  /** The decimal spelling of n, without leading zeros. */
  function Decimal(n: nat): (s: string)
    ensures Numeral(s)
  {
    if n < 10 then [DigitChar(n)] else Decimal(n / 10) + [DigitChar(n % 10)]
  }

  lemma {:induction false} DecimalValue(n: nat)
    ensures DigitsValue(Decimal(n)) == n
  {
    if n >= 10 {
      DecimalValue(n / 10);
      var s := Decimal(n);
      assert s[..|s| - 1] == Decimal(n / 10);
    }
  }

  /** atoi reads back every number the report can hold. */
  lemma AtoiDecimal(n: nat)
    requires n <= MaxInt
    ensures Atoi(Decimal(n)) == n
  {
    DecimalValue(n);
  }

  predicate AllNumerals(nums: seq<string>) {
    forall k :: 0 <= k < |nums| ==> Numeral(nums[k])
  }

  function Numerals(vals: seq<nat>): (nums: seq<string>)
    ensures |nums| == |vals| && AllNumerals(nums)
  {
    seq(|vals|, k requires 0 <= k < |vals| => Decimal(vals[k]))
  }

  // ---------------------------------------------------------------------------
  // Rendering report lines
  // ---------------------------------------------------------------------------

  datatype Report =
    | StdReport(name: string, httpOk: nat, httpErr: nat, httpUnsup: nat, pingOk: nat, pingFail: nat)
    | DpiReport(name: string, ok: nat, fail: nat, unsup: nat, blocked: nat)

  function Form(r: Report): seq<string> {
    if r.StdReport? then StdForm else DpiForm
  }

  function Values(r: Report): (v: seq<nat>)
    ensures |v| == |Form(r)|
  {
    match r
    case StdReport(_, a, b, c, d, e) => [a, b, c, d, e]
    case DpiReport(_, a, b, c, d) => [a, b, c, d]
  }

  /** The literals of a grammar, each followed by its numeral. */
  function RenderFields(lits: seq<string>, nums: seq<string>): string
    requires |lits| == |nums|
  {
    if lits == [] then "" else lits[0] + nums[0] + RenderFields(lits[1..], nums[1..])
  }

  function Tail(r: Report): string {
    RenderFields(Form(r), Numerals(Values(r)))
  }

  function RenderReport(r: Report): string {
    r.name + Tail(r)
  }

  /**
   * The record a report line stands for: its counters, and status ok exactly
   * when its error counters (ERR and ping Fail, or FAIL and BLOCKED) are zero.
   */
  function Expected(r: Report): TestResult {
    match r
    case StdReport(name, a, b, c, d, e) =>
      TestResult(name, a, b, c, d, e, 0, 0, if b == 0 && e == 0 then Ok else Fail)
    case DpiReport(name, a, b, c, d) =>
      TestResult(name, a, 0, c, 0, 0, b, d, if b == 0 && d == 0 then Ok else Fail)
  }

  /** A name the grammar can carry: trimmed, non-empty, on one line and without ':'. */
  predicate WellFormedName(name: string) {
    name != [] && !IsSpace(name[0]) && !IsSpace(name[|name| - 1]) && ':' !in name && '\n' !in name
  }

  predicate WellFormed(r: Report) {
    WellFormedName(r.name) && forall k :: 0 <= k < |Values(r)| ==> Values(r)[k] <= MaxInt
  }

  // ---------------------------------------------------------------------------
  // The fields read back where they were written
  // ---------------------------------------------------------------------------

  predicate GoodLiterals(lits: seq<string>) {
    forall k :: 0 <= k < |lits| ==> |lits[k]| > 0 && !IsDigit(lits[k][0])
  }

  /** `\d+` takes exactly the numeral when a non-digit (or the end) follows it. */
  lemma {:induction false} DigitPrefixOf(d: string, rest: string)
    requires Numeral(d) && (rest == [] || !IsDigit(rest[0]))
    ensures DigitPrefix(d + rest) == |d|
  {
    if |d| > 1 {
      assert (d + rest)[1..] == d[1..] + rest;
      DigitPrefixOf(d[1..], rest);
    }
  }

  /** The fields rendered from numerals are captured back as those numerals. */
  lemma {:induction false} CapturesRender(lits: seq<string>, nums: seq<string>)
    requires |lits| == |nums| && GoodLiterals(lits) && AllNumerals(nums)
    ensures Captures(RenderFields(lits, nums), lits) == Some(nums)
  {
    if lits != [] {
      var d := nums[0];
      var rest := RenderFields(lits[1..], nums[1..]);
      var t := RenderFields(lits, nums);
      assert rest == [] || !IsDigit(rest[0]) by {
        if lits[1..] != [] { assert rest[0] == lits[1][0]; }
      }
      assert HasPrefix(t, lits[0]);
      var u := t[|lits[0]|..];
      assert u == d + rest;
      DigitPrefixOf(d, rest);
      assert u[..|d|] == d && u[|d|..] == rest;
      CapturesRender(lits[1..], nums[1..]);
      assert [d] + nums[1..] == nums;
    }
  }

  // ---------------------------------------------------------------------------
  // Only one place where " :" occurs, so the greedy name ends at the name
  // ---------------------------------------------------------------------------

  /** No space is directly followed by a colon. */
  predicate NoSpaceColon(s: string) {
    forall i :: 0 <= i < |s| - 1 ==> s[i] != ' ' || s[i + 1] != ':'
  }

  lemma NoSpaceColonConcat(a: string, b: string)
    requires NoSpaceColon(a) && NoSpaceColon(b)
    requires a == [] || b == [] || a[|a| - 1] != ' ' || b[0] != ':'
    ensures NoSpaceColon(a + b)
  {
    var ab := a + b;
    forall i | 0 <= i < |ab| - 1 ensures ab[i] != ' ' || ab[i + 1] != ':' {
      if i >= |a| {
        assert ab[i] == b[i - |a|] && ab[i + 1] == b[i + 1 - |a|];
      }
    }
  }

  lemma {:induction false} RenderNoSpaceColon(lits: seq<string>, nums: seq<string>)
    requires |lits| == |nums| && AllNumerals(nums)
    requires forall k :: 0 <= k < |lits| ==> NoSpaceColon(lits[k])
    ensures NoSpaceColon(RenderFields(lits, nums))
  {
    if lits != [] {
      var d := nums[0];
      var rest := RenderFields(lits[1..], nums[1..]);
      RenderNoSpaceColon(lits[1..], nums[1..]);
      NoSpaceColonConcat(d, rest);
      NoSpaceColonConcat(lits[0], d + rest);
      assert lits[0] + d + rest == lits[0] + (d + rest);
    }
  }

  /** Past its leading space, no literal of either grammar holds " :". */
  lemma LiteralsNoSpaceColon()
    ensures NoSpaceColon(StdForm[0][1..]) && NoSpaceColon(DpiForm[0][1..])
    ensures forall k :: 1 <= k < |StdForm| ==> NoSpaceColon(StdForm[k])
    ensures forall k :: 1 <= k < |DpiForm| ==> NoSpaceColon(DpiForm[k])
  {
    assert StdForm[0][1..] == ": HTTP OK: " && DpiForm[0][1..] == ": OK: ";
    assert NoSpaceColon(", ERR: ") && NoSpaceColon(", UNSUP: ");
    assert NoSpaceColon(", Ping OK: ") && NoSpaceColon(", Fail: ");
    assert NoSpaceColon(", FAIL: ") && NoSpaceColon(", BLOCKED: ");
  }

  /** The tail of a report line after its name: " :" once, at its start. */
  lemma TailShape(r: Report)
    ensures var t := Tail(r); |t| >= 3 && t[0] == ' ' && t[1] == ':' && NoSpaceColon(t[1..])
  {
    var lits := Form(r);
    var nums := Numerals(Values(r));
    var d := nums[0];
    var rest := RenderFields(lits[1..], nums[1..]);
    LiteralsNoSpaceColon();
    RenderNoSpaceColon(lits[1..], nums[1..]);
    NoSpaceColonConcat(d, rest);
    NoSpaceColonConcat(lits[0][1..], d + rest);
    assert Tail(r)[1..] == lits[0][1..] + (d + rest);
  }

  /** The only " :" in a well-formed line is the one right after the name. */
  lemma AnchorUnique(name: string, tail: string)
    requires ':' !in name && |tail| >= 2 && tail[0] == ' ' && tail[1] == ':' && NoSpaceColon(tail[1..])
    ensures var line := name + tail;
      forall q :: 0 <= q < |line| - 1 && q != |name| ==> line[q] != ' ' || line[q + 1] != ':'
  {
    var line := name + tail;
    forall q | 0 <= q < |line| - 1 && q != |name| ensures line[q] != ' ' || line[q + 1] != ':' {
      if q > |name| {
        var i := q - |name| - 1;
        assert tail[1..][i] == line[q] && tail[1..][i + 1] == line[q + 1];
      } else if q + 1 < |name| {
        assert line[q + 1] == name[q + 1];
      }
    }
  }

  /** The fields of a grammar can only match where " :" occurs. */
  lemma NoAnchorNoCaptures(t: string, lits: seq<string>)
    requires |lits| > 0 && |lits[0]| >= 2 && lits[0][0] == ' ' && lits[0][1] == ':'
    requires |t| < 2 || t[0] != ' ' || t[1] != ':'
    ensures Captures(t, lits).None?
  {
  }

  /** Past the name, a report line has no position where the fields of a grammar can start. */
  lemma NoCapturesOffAnchor(r: Report, lits: seq<string>, q: nat)
    requires |lits| > 0 && |lits[0]| >= 2 && lits[0][0] == ' ' && lits[0][1] == ':'
    requires WellFormed(r) && q <= |RenderReport(r)| && q != |r.name|
    ensures Captures(RenderReport(r)[q..], lits).None?
  {
    var line := RenderReport(r);
    var tail := Tail(r);
    TailShape(r);
    AnchorUnique(r.name, tail);
    var t := line[q..];
    if |t| >= 2 {
      assert t[0] == line[q] && t[1] == line[q + 1];
    }
    NoAnchorNoCaptures(t, lits);
  }

  /** Right after the name, the fields of the line's own grammar are captured back. */
  lemma CapturesAfterName(r: Report)
    ensures Captures(RenderReport(r)[|r.name|..], Form(r)) == Some(Numerals(Values(r)))
  {
    var tail := Tail(r);
    assert RenderReport(r)[|r.name|..] == tail;
    CapturesRender(Form(r), Numerals(Values(r)));
  }

  /** The greedy name ends at the last position where the fields match. */
  lemma LastMatchAt(line: string, hi: nat, lits: seq<string>, p: nat, groups: seq<string>)
    requires p <= hi <= |line| && Captures(line[p..], lits) == Some(groups)
    requires forall q :: p < q <= hi ==> Captures(line[q..], lits).None?
    ensures LastMatch(line, hi, lits) == Some(Match(p, groups))
  {
  }

  /** The fields of a report line are read back at the end of its name, and nowhere after it. */
  lemma LastMatchRender(r: Report)
    requires WellFormed(r)
    ensures var line := RenderReport(r);
      LastMatch(line, |line|, Form(r)) == Some(Match(|r.name|, Numerals(Values(r))))
  {
    var line := RenderReport(r);
    CapturesAfterName(r);
    NoCapturesAfterName(r);
    LastMatchAt(line, |line|, Form(r), |r.name|, Numerals(Values(r)));
  }

  lemma NoCapturesAfterName(r: Report)
    requires WellFormed(r)
    ensures var line := RenderReport(r);
      forall q :: |r.name| < q <= |line| ==> Captures(line[q..], Form(r)).None?
  {
    var line := RenderReport(r);
    forall q | |r.name| < q <= |line| ensures Captures(line[q..], Form(r)).None? {
      NoCapturesOffAnchor(r, Form(r), q);
    }
  }

  /** A DPI-summary line never matches the standard grammar. */
  lemma DpiNotStd(r: Report)
    requires WellFormed(r) && r.DpiReport?
    ensures var line := RenderReport(r); LastMatch(line, |line|, StdForm).None?
  {
    var line := RenderReport(r);
    var tail := Tail(r);
    assert Captures(line[|r.name|..], StdForm).None? by {
      TailShape(r);
      assert line[|r.name|..] == tail;
      assert tail[3] == DpiForm[0][3] == 'O';
      assert !HasPrefix(tail, StdForm[0]) by {
        assert StdForm[0][3] == 'H';
      }
    }
    forall q | 0 <= q <= |line| ensures Captures(line[q..], StdForm).None? {
      if q != |r.name| {
        NoCapturesOffAnchor(r, StdForm, q);
      }
    }
  }

  lemma {:induction false} RenderEndsWithDigit(lits: seq<string>, nums: seq<string>)
    requires |lits| == |nums| && |lits| > 0 && AllNumerals(nums)
    ensures var t := RenderFields(lits, nums); |t| > 0 && IsDigit(t[|t| - 1])
    decreases |lits|
  {
    if |lits| > 1 {
      RenderEndsWithDigit(lits[1..], nums[1..]);
    }
  }

  /** A line with " :" right after a colon-free head is neither the marker nor the best-strategy line. */
  lemma NotMarkerNorBest(line: string, n: nat)
    requires n + 1 < |line| && line[n] == ' ' && line[n + 1] == ':' && ':' !in line[..n]
    ensures line != AnalyticsMarker && !HasPrefix(line, BestPrefix)
  {
    assert ':' in line;
    assert ':' !in AnalyticsMarker;
    if n + 1 < |BestPrefix| {
      assert NoSpaceColon(BestPrefix);
      assert BestPrefix[n] != line[n] || BestPrefix[n + 1] != line[n + 1];
    } else {
      assert line[13] != ':' by {
        if n > 13 { assert line[13] == line[..n][13]; }
      }
    }
  }

  /** The record built from the captured numerals through atoi is the one the report stands for. */
  lemma ExpectedRecord(r: Report)
    requires WellFormed(r)
    ensures r.StdReport? ==> StdRecord(r.name, Numerals(Values(r))) == Expected(r)
    ensures r.DpiReport? ==> DpiRecord(r.name, Numerals(Values(r))) == Expected(r)
  {
    var v := Values(r);
    var g := Numerals(v);
    forall k | 0 <= k < |v| ensures Atoi(g[k]) == v[k] {
      AtoiDecimal(v[k]);
    }
  }

  /** Each rendered report line is classified as the record it was rendered from. */
  lemma ClassifyRender(r: Report)
    requires WellFormed(r)
    ensures ClassifyLine(RenderReport(r)) == Record(Expected(r))
  {
    var line := RenderReport(r);
    var name := r.name;
    var tail := Tail(r);
    TailShape(r);
    RenderEndsWithDigit(Form(r), Numerals(Values(r)));
    assert line[|line| - 1] == tail[|tail| - 1];
    TrimSpaceOfTrimmed(line);
    assert line[..|name|] == name;
    NotMarkerNorBest(line, |name|);
    TrimSpaceOfTrimmed(name);
    assert ClassifyLine(line) == MatchRecord(line);
    LastMatchRender(r);
    ExpectedRecord(r);
    if r.DpiReport? {
      DpiNotStd(r);
    }
  }

  // ---------------------------------------------------------------------------
  // Whole reports
  // ---------------------------------------------------------------------------

  function RenderAll(rs: seq<Report>): (lines: seq<string>)
    ensures |lines| == |rs|
  {
    seq(|rs|, i requires 0 <= i < |rs| => RenderReport(rs[i]))
  }

  function BestLine(text: string): string {
    BestPrefix + " " + text
  }

  function ReportLines(rs: seq<Report>, best: Option<string>): seq<string> {
    RenderAll(rs) + (if best.Some? then [BestLine(best.value)] else [])
  }

  /** A report: one line per strategy, then optionally the best-strategy line, joined by newlines. */
  function ReportText(rs: seq<Report>, best: Option<string>): string {
    var lines := ReportLines(rs, best);
    if lines == [] then "" else Join(lines, '\n')
  }

  /** The map the reports describe: later reports of one name replace earlier ones. */
  function ToMap(rs: seq<Report>): map<string, TestResult> {
    if rs == [] then map[] else ToMap(rs[..|rs| - 1])[rs[|rs| - 1].name := Expected(rs[|rs| - 1])]
  }

  predicate DistinctNames(rs: seq<Report>) {
    forall i, j :: 0 <= i < j < |rs| ==> rs[i].name != rs[j].name
  }

  lemma DistinctInit(rs: seq<Report>)
    requires rs != [] && DistinctNames(rs)
    ensures DistinctNames(rs[..|rs| - 1])
  {
    var init := rs[..|rs| - 1];
    forall i, j | 0 <= i < j < |init| ensures init[i].name != init[j].name {
      assert init[i] == rs[i] && init[j] == rs[j];
    }
  }

  /** Under distinct names, the last report's name is not among the earlier ones. */
  lemma LastNameFresh(rs: seq<Report>)
    requires rs != [] && DistinctNames(rs)
    ensures rs[|rs| - 1].name !in ToMap(rs[..|rs| - 1])
  {
    var init := rs[..|rs| - 1];
    ToMapKeys(init);
    forall k | k in ToMap(init) ensures k != rs[|rs| - 1].name {
      var i :| 0 <= i < |init| && init[i].name == k;
      assert init[i] == rs[i];
    }
  }

  /** With distinct names, the map has one entry per report, each the record of its report. */
  lemma ToMapShape(rs: seq<Report>)
    requires DistinctNames(rs)
    ensures |ToMap(rs)| == |rs|
    ensures forall i :: 0 <= i < |rs| ==> rs[i].name in ToMap(rs) && ToMap(rs)[rs[i].name] == Expected(rs[i])
    ensures forall k :: k in ToMap(rs) ==> exists i :: 0 <= i < |rs| && rs[i].name == k
  {
    ToMapSize(rs);
    ToMapEntries(rs);
    ToMapKeys(rs);
  }

  /** Every key of the map is the name of some report. */
  lemma {:induction false} ToMapKeys(rs: seq<Report>)
    ensures forall k :: k in ToMap(rs) ==> exists i :: 0 <= i < |rs| && rs[i].name == k
  {
    if rs != [] {
      var n := |rs| - 1;
      var init := rs[..n];
      ToMapKeys(init);
      forall k | k in ToMap(rs) ensures exists i :: 0 <= i < |rs| && rs[i].name == k {
        if k != rs[n].name {
          assert k in ToMap(init);
          var i :| 0 <= i < |init| && init[i].name == k;
          assert rs[i].name == k;
        }
      }
    }
  }

  /** With distinct names, each report's record is found under its name. */
  lemma {:induction false} ToMapEntries(rs: seq<Report>)
    requires DistinctNames(rs)
    ensures forall i :: 0 <= i < |rs| ==> rs[i].name in ToMap(rs) && ToMap(rs)[rs[i].name] == Expected(rs[i])
  {
    if rs != [] {
      var n := |rs| - 1;
      var init := rs[..n];
      DistinctInit(rs);
      ToMapEntries(init);
      forall i | 0 <= i < |rs| ensures rs[i].name in ToMap(rs) && ToMap(rs)[rs[i].name] == Expected(rs[i]) {
        if i < n {
          assert init[i] == rs[i];
          assert rs[i].name != rs[n].name;
        }
      }
    }
  }

  /** With distinct names, the map has as many entries as there are reports. */
  lemma {:induction false} ToMapSize(rs: seq<Report>)
    requires DistinctNames(rs)
    ensures |ToMap(rs)| == |rs|
  {
    if rs != [] {
      var init := rs[..|rs| - 1];
      DistinctInit(rs);
      ToMapSize(init);
      LastNameFresh(rs);
    }
  }

  lemma {:induction false} FoldRenderAll(rs: seq<Report>)
    requires forall i :: 0 <= i < |rs| ==> WellFormed(rs[i])
    ensures Fold(Effects(RenderAll(rs))) == Acc(ToMap(rs), "")
  {
    if rs != [] {
      var n := |rs| - 1;
      assert Effects(RenderAll(rs))[..n] == Effects(RenderAll(rs[..n]));
      FoldRenderAll(rs[..n]);
      ClassifyRender(rs[n]);
    }
  }

  lemma {:induction false} NoNewlineInCaptures(lits: seq<string>, nums: seq<string>)
    requires |lits| == |nums| && AllNumerals(nums)
    requires forall k :: 0 <= k < |lits| ==> '\n' !in lits[k]
    ensures '\n' !in RenderFields(lits, nums)
  {
    if lits != [] {
      NoNewlineInCaptures(lits[1..], nums[1..]);
      var d := nums[0];
      assert forall k :: 0 <= k < |d| ==> d[k] != '\n';
    }
  }

  lemma NoNewlineInReport(r: Report)
    requires WellFormed(r)
    ensures '\n' !in RenderReport(r)
  {
    NoNewlineInCaptures(Form(r), Numerals(Values(r)));
  }

  lemma TrimSpacePadded(text: string)
    requires WellFormedName(text)
    ensures TrimSpace(" " + text) == text
  {
    assert (" " + text)[1..] == text;
    assert TrimLeftSpace(" " + text) == TrimLeftSpace(text);
    TrimSpaceOfTrimmed(text);
  }

  /** The best-strategy line is classified as its trimmed label. */
  lemma ClassifyBestLine(text: string)
    requires WellFormedName(text)
    ensures ClassifyLine(BestLine(text)) == SetBest(text)
  {
    var b := BestLine(text);
    assert b[0] == 'B' && b[|b| - 1] == text[|text| - 1];
    TrimSpaceOfTrimmed(b);
    assert b != AnalyticsMarker by {
      assert AnalyticsMarker[0] == '=';
    }
    assert HasPrefix(b, BestPrefix);
    assert b[|BestPrefix|..] == " " + text;
    TrimSpacePadded(text);
  }

  /** Splitting the report at newlines gives its lines back. */
  lemma ReportLinesBack(rs: seq<Report>, best: Option<string>)
    requires forall i :: 0 <= i < |rs| ==> WellFormed(rs[i])
    requires best.Some? ==> WellFormedName(best.value)
    ensures Lines(ReportText(rs, best)) == if ReportLines(rs, best) == [] then [""] else ReportLines(rs, best)
  {
    var lines := ReportLines(rs, best);
    if lines != [] {
      forall k | 0 <= k < |lines| ensures '\n' !in lines[k] {
        if k < |rs| {
          NoNewlineInReport(rs[k]);
        }
      }
      SplitJoin(lines, '\n');
    }
  }

  lemma FoldSnoc(effs: seq<LineEffect>, e: LineEffect)
    ensures Fold(effs + [e]) == Step(Fold(effs), e)
  {
    assert (effs + [e])[..|effs|] == effs;
  }

  lemma EffectsSnoc(lines: seq<string>, x: string)
    ensures Effects(lines + [x]) == Effects(lines) + [ClassifyLine(x)]
  {
    var l := lines + [x];
    assert forall k :: 0 <= k < |lines| ==> l[k] == lines[k];
  }

  lemma FoldEmptyText()
    ensures Fold(Effects([""])) == Acc(map[], "")
  {
    EffectsOfEmptyLine();
    FoldSnoc([], Skip);
  }

  lemma EffectsOfEmptyLine()
    ensures Effects([""]) == [] + [Skip]
  {
    assert ClassifyLine("") == Skip;
  }

  /** The fold over a whole report: the records of its strategy lines and its label. */
  lemma FoldReport(rs: seq<Report>, best: Option<string>)
    requires forall i :: 0 <= i < |rs| ==> WellFormed(rs[i])
    requires best.Some? ==> WellFormedName(best.value)
    ensures Fold(Effects(Lines(ReportText(rs, best)))) ==
      Acc(ToMap(rs), if best.Some? then best.value else "")
  {
    ReportLinesBack(rs, best);
    FoldRenderAll(rs);
    if ReportLines(rs, best) == [] {
      FoldEmptyText();
    } else if best.Some? {
      ClassifyBestLine(best.value);
      EffectsSnoc(RenderAll(rs), BestLine(best.value));
      FoldSnoc(Effects(RenderAll(rs)), SetBest(best.value));
    } else {
      assert ReportLines(rs, best) == RenderAll(rs);
    }
  }

  /**
   * Round trip: a report of well-formed strategy lines and an optional
   * trimmed best label parses to the records of those lines and that label
   * ("" without one); with no strategy line it is rejected.
   */
  lemma ParseReport(rs: seq<Report>, best: Option<string>)
    requires forall i :: 0 <= i < |rs| ==> WellFormed(rs[i])
    requires best.Some? ==> WellFormedName(best.value)
    ensures ParseSpec(ReportText(rs, best)) ==
      if rs == [] then Failure(NoAnalyticsParsed)
      else Success(Parsed(ToMap(rs), if best.Some? then best.value else ""))
  {
    FoldReport(rs, best);
    if rs != [] {
      assert rs[|rs| - 1].name in ToMap(rs);
    }
  }

  /** With distinct names, the parse has exactly one entry per strategy line. */
  lemma ParseReportCount(rs: seq<Report>, best: Option<string>)
    requires |rs| > 0 && DistinctNames(rs)
    requires forall i :: 0 <= i < |rs| ==> WellFormed(rs[i])
    requires best.Some? ==> WellFormedName(best.value)
    ensures ParseSpec(ReportText(rs, best)).Success?
    ensures |ParseSpec(ReportText(rs, best)).value.results| == |rs|
  {
    ParseReport(rs, best);
    ToMapShape(rs);
  }

}
