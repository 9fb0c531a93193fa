/** Generated scenarios (evals/scenarios/generator.py) over arbitrary draws, and the judge that
    scores diagnoses of them (evals/judge.py). */
module Scenarios {
  import opened Wrappers
  import opened Strings
  import opened Evidence
  import opened Sorting
  import TimingVerifier
  import T = Timestamps
  import TT = TimeText

  // --- clocks ----------------------------------------------------------------------------------

  /** How instants between `lo` and `hi` are written, and how a timestamp value is read. */
  datatype Clock = Clock(show: int -> string, read: TimingVerifier.Parser, lo: int, hi: int)
  {
    predicate Has(at: int) {
      lo <= at <= hi
    }

    /** What is written is read back, and texts are ordered as their instants are. */
    ghost predicate Faithful() {
      && (forall a :: Has(a) ==> read(Some(Str(show(a)))) == Some(a))
      && (forall a, b :: Has(a) && Has(b) ==> (LexLess(show(a), show(b)) <==> a < b))
    }
  }

  function Shown(second: int): string {
    if T.InRange(second) then TT.Format(T.FromEpoch(second)) else ""
  }

  function ReadShown(v: Option<Val>): Option<int> {
    if v.Some? && v.value.Str? && TT.Parse(v.value.s).Some? then Some(T.Epoch(TT.Parse(v.value.s).value)) else None
  }

  const CANONICAL := Clock(Shown, ReadShown, T.MIN_EPOCH, T.MAX_EPOCH)

  lemma CanonicalIsFaithful()
    ensures CANONICAL.Faithful()
  {
    forall a | CANONICAL.Has(a) ensures CANONICAL.read(Some(Str(CANONICAL.show(a)))) == Some(a) {
      TT.ParseFormat(T.FromEpoch(a));
    }
    forall a, b | CANONICAL.Has(a) && CANONICAL.Has(b)
      ensures LexLess(CANONICAL.show(a), CANONICAL.show(b)) <==> a < b
    {
      TT.StringOrderIsTimeOrder(T.FromEpoch(a), T.FromEpoch(b));
    }
  }

  // --- the draws ---------------------------------------------------------------------------------

  datatype Kind = BadDeploy | ConfigError | ResourceExhaustion

  /** Everything the generator draws or picks from its bank. */
  datatype Draws = Draws(
    index: nat, baseMinutes: int, route: string, noiseRoute: string, culprit: string, decoy: string,
    gap: int, errors: nat, baseline: nat, deployMinutes: int, decoyMinutes: int, nowMinutes: int,
    kind: Kind, metric: string, points: seq<Row>,
    culpritMsg: string, culpritFile: string, decoyMsg: string, errorMsg: string)
  {
    /** The ranges of the draws. */
    predicate Valid() {
      && 0 <= baseMinutes < 300 && route != noiseRoute && culprit != decoy
      && gap in {15, 20, 30, 45} && errors in {2, 3, 4} && baseline in {2, 3}
      && 1 <= deployMinutes < 5 && 0 <= decoyMinutes < 600 && 2 <= nowMinutes < 9
    }

    function Base(): int {
      ANCHOR + 86400 * index + 60 * baseMinutes
    }

    function Deploy(): int {
      Base() + 60 * deployMinutes
    }

    function DecoyAt(): int {
      Base() - 86400 - 60 * decoyMinutes
    }

    function FirstError(): int {
      Deploy() + gap
    }

    /** The calendar reaches an hour beyond the incident. */
    predicate Fits(clock: Clock) {
      clock.lo <= DecoyAt() && FirstError() + 3600 <= clock.hi
    }
  }

  /** 2026-05-01T08:00:00Z. */
  const ANCHOR := 1777622400

  lemma AnchorIsThatMorning()
    ensures T.Epoch(T.Civil(2026, 5, 1, 8, 0, 0)) == ANCHOR
  {
    assert T.DaysBeforeMonth(2026, 3) == 59;
    assert T.DaysBeforeMonth(2026, 5) == T.DaysBeforeMonth(2026, 3) + 61;
  }

  datatype Line = Line(at: int, error: bool, route: string, msg: string)

  function BaselineLines(d: Draws): seq<Line> {
    seq(d.baseline, k => Line(d.Deploy() - 120 * (d.baseline - k), false, d.route, d.route + " ok"))
  }

  function ErrorLines(d: Draws): seq<Line> {
    seq(d.errors, k => Line(d.FirstError() + k * d.gap, true, d.route, d.errorMsg))
  }

  function Lines(d: Draws): seq<Line> {
    BaselineLines(d) + ErrorLines(d) + [Line(d.FirstError() + 5, false, d.noiseRoute, d.noiseRoute + " ok")]
  }

  predicate EarlierLine(a: Line, b: Line) {
    a.at < b.at
  }

  function SortedLines(d: Draws): seq<Line> {
    Sort(Lines(d), EarlierLine)
  }

  function Level(error: bool): string {
    if error then "ERROR" else "INFO"
  }

  function LogRow(id: int, line: Line, clock: Clock): Row {
    map["id" := Int(id), "ts" := Str(clock.show(line.at)), "level" := Str(Level(line.error)),
        "route" := Str(line.route), "status" := Int(if line.error then 500 else 200), "msg" := Str(line.msg)]
  }

  function Numbered(lines: seq<Line>, clock: Clock): (rows: seq<Row>)
    ensures |rows| == |lines|
  {
    seq(|lines|, i requires 0 <= i < |lines| => LogRow(i, lines[i], clock))
  }

  function CommitRow(sha: string, at: int, msg: string, file: string, clock: Clock): Row {
    map["sha" := Str(sha), "ts" := Str(clock.show(at)), "msg" := Str(msg), "files" := Str(file)]
  }

  function MetricRow(name: string, points: seq<Row>): Row {
    map["metric" := Str(name), "unit" := Str("count"), "points" := List(points)]
  }

  /** The position of the first error, which is also its id. */
  function FirstErrorAt(lines: seq<Line>): nat {
    if lines == [] || lines[0].error then 0 else 1 + FirstErrorAt(lines[1..])
  }

  /** The signals, the gold handles and the time of asking. */
  datatype Scenario = Scenario(sig: Signals, gold: seq<Ref>, now: string)

  function Gold(d: Draws): seq<Ref> {
    [if d.kind.ResourceExhaustion? then MetricRef(d.metric, "") else LogRef(FirstErrorAt(SortedLines(d)), ""),
     CommitRef(d.culprit, "")]
  }

  function LastAt(lines: seq<Line>): int {
    if lines == [] then 0 else lines[|lines| - 1].at
  }

  function Generated(d: Draws, clock: Clock): Scenario {
    Scenario(
      Signals(
        Numbered(SortedLines(d), clock),
        [CommitRow(d.decoy, d.DecoyAt(), d.decoyMsg, "README.md", clock),
         CommitRow(d.culprit, d.Deploy(), d.culpritMsg, d.culpritFile, clock)],
        if d.kind.ResourceExhaustion? then [MetricRow(d.metric, d.points)] else []),
      Gold(d),
      clock.show(LastAt(SortedLines(d)) + 60 * d.nowMinutes))
  }

  method BuildLines(d: Draws) returns (rows: seq<Line>)
    ensures rows == Lines(d)
  {
    rows := [];
    for k := 0 to d.baseline
      invariant rows == BaselineLines(d)[..k]
    {
      rows := rows + [Line(d.Deploy() - 120 * (d.baseline - k), false, d.route, d.route + " ok")];
    }
    for k := 0 to d.errors
      invariant rows == BaselineLines(d) + ErrorLines(d)[..k]
    {
      rows := rows + [Line(d.FirstError() + k * d.gap, true, d.route, d.errorMsg)];
    }
    rows := rows + [Line(d.FirstError() + 5, false, d.noiseRoute, d.noiseRoute + " ok")];
  }

  method NumberLines(rows: seq<Line>, clock: Clock) returns (logs: seq<Row>)
    ensures logs == Numbered(rows, clock)
  {
    logs := [];
    for i := 0 to |rows|
      invariant logs == Numbered(rows, clock)[..i]
    {
      logs := logs + [LogRow(i, rows[i], clock)];
    }
  }

  method FindFirstError(rows: seq<Line>) returns (first: nat)
    ensures first == FirstErrorAt(rows)
  {
    first := 0;
    while first < |rows| && !rows[first].error
      invariant 0 <= first <= |rows|
      invariant FirstErrorAt(rows) == first + FirstErrorAt(rows[first..])
    {
      assert rows[first..][1..] == rows[first + 1..];
      first := first + 1;
    }
  }

  /** `_make_scenario`, given its draws. */
  method MakeScenario(d: Draws, clock: Clock) returns (s: Scenario)
    requires d.Valid()
    ensures s == Generated(d, clock)
  {
    var rows := BuildLines(d);
    rows := Sort(rows, EarlierLine);
    var logs := NumberLines(rows, clock);
    var first := FindFirstError(rows);
    var commits := [CommitRow(d.decoy, d.DecoyAt(), d.decoyMsg, "README.md", clock),
                    CommitRow(d.culprit, d.Deploy(), d.culpritMsg, d.culpritFile, clock)];
    var now := clock.show(LastAt(rows) + 60 * d.nowMinutes);
    if d.kind.ResourceExhaustion? {
      s := Scenario(Signals(logs, commits, [MetricRow(d.metric, d.points)]),
                    [MetricRef(d.metric, ""), CommitRef(d.culprit, "")], now);
    } else {
      s := Scenario(Signals(logs, commits, []), [LogRef(first, ""), CommitRef(d.culprit, "")], now);
    }
  }

  // --- the lines in order --------------------------------------------------------------------------

  lemma EarlierLineIsOrder()
    ensures StrictWeak(EarlierLine)
  {
  }

  /** The sorted lines: in time order, every error from the first-error time on, one exactly
      then, and all within the incident's hour. */
  lemma LinesInOrder(d: Draws)
    requires d.Valid()
    ensures var lines := SortedLines(d);
      && lines != []
      && (forall i, j :: 0 <= i < j < |lines| ==> lines[i].at <= lines[j].at)
      && (forall l <- lines :: d.Deploy() - 360 <= l.at <= d.FirstError() + 180)
      && (forall l <- lines :: l.error ==> d.FirstError() <= l.at)
      && (exists l <- lines :: l.error && l.at == d.FirstError())
  {
    EarlierLineIsOrder();
    SortSorts(Lines(d), EarlierLine);
    SortMembers(Lines(d), EarlierLine);
    var lines := SortedLines(d);
    forall i, j | 0 <= i < j < |lines| ensures lines[i].at <= lines[j].at {
      assert !EarlierLine(lines[j], lines[i]);
    }
    forall l <- lines ensures d.Deploy() - 360 <= l.at <= d.FirstError() + 180 && (l.error ==> d.FirstError() <= l.at) {
      assert l in Lines(d);
    }
    assert ErrorLines(d)[0] in ErrorLines(d);
    assert ErrorLines(d)[0] in Lines(d);
  }

  /** A line of the burst: on the route, some multiple of the gap after the first error. */
  ghost predicate OfBurst(d: Draws, l: Line) {
    && l.error && l.route == d.route && l.msg == d.errorMsg
    && exists k: nat :: k < d.errors && Hits(d, k, l)
  }

  /** The line is the burst's error number k. */
  ghost predicate Hits(d: Draws, k: nat, l: Line) {
    l.error && l.at == d.Deploy() + d.gap * (k + 1)
  }

  ghost predicate IsHit(d: Draws, k: nat, lines: seq<Line>) {
    exists l <- lines :: Hits(d, k, l)
  }

  /** A line of the baseline: fine, on the same route, an even number of minutes before the deploy. */
  ghost predicate OfBaseline(d: Draws, l: Line) {
    && !l.error && l.route == d.route && l.msg == d.route + " ok"
    && exists k: nat :: 1 <= k <= d.baseline && l.at == d.Deploy() - 120 * k
  }

  /** The noise: fine, on the other route, right after the first error. */
  ghost predicate IsNoise(d: Draws, l: Line) {
    !l.error && l.route == d.noiseRoute && l.msg == d.noiseRoute + " ok" && l.at == d.Deploy() + d.gap + 5
  }

  /** What the row of a line says: errors are those of status 500. */
  ghost predicate RowOf(row: Row, i: int, l: Line, clock: Clock) {
    && row.Keys == {"id", "ts", "level", "route", "status", "msg"}
    && row["id"] == Int(i) && row["ts"] == Str(clock.show(l.at))
    && row["route"] == Str(l.route) && row["msg"] == Str(l.msg)
    && (l.error <==> row["level"] == Str("ERROR")) && (l.error <==> row["status"] == Int(500))
    && (!l.error <==> row["level"] == Str("INFO")) && (!l.error <==> row["status"] == Int(200))
  }

  lemma LineIs(d: Draws, i: nat)
    requires i < |Lines(d)|
    ensures var l := Lines(d)[i]; OfBurst(d, l) || OfBaseline(d, l) || IsNoise(d, l)
  {
    var l := Lines(d)[i];
    if i < d.baseline {
      assert l == BaselineLines(d)[i] && l.at == d.Deploy() - 120 * (d.baseline - i);
    } else if i < d.baseline + d.errors {
      var k := i - d.baseline;
      assert l == ErrorLines(d)[k];
      BurstTime(d, k);
      assert Hits(d, k, l);
    }
  }

  lemma BurstTime(d: Draws, k: nat)
    ensures d.FirstError() + k * d.gap == d.Deploy() + d.gap * (k + 1)
  {
  }

  lemma BurstIsHit(d: Draws, k: nat)
    requires k < d.errors
    ensures IsHit(d, k, Lines(d))
  {
    var l := ErrorLines(d)[k];
    BurstTime(d, k);
    assert Lines(d)[d.baseline + k] == l && Hits(d, k, l);
  }

  lemma LineCount(d: Draws)
    ensures |SortedLines(d)| == d.baseline + d.errors + 1
  {
    EarlierLineIsOrder();
    SortSorts(Lines(d), EarlierLine);
    assert |multiset(SortedLines(d))| == |multiset(Lines(d))|;
  }

  lemma LinesAre(d: Draws)
    ensures |SortedLines(d)| == d.baseline + d.errors + 1
    ensures forall l <- SortedLines(d) :: OfBurst(d, l) || OfBaseline(d, l) || IsNoise(d, l)
    ensures forall k: nat :: k < d.errors ==> IsHit(d, k, SortedLines(d))
  {
    LineCount(d);
    SortMembers(Lines(d), EarlierLine);
    forall l <- SortedLines(d) ensures OfBurst(d, l) || OfBaseline(d, l) || IsNoise(d, l) {
      var i :| 0 <= i < |Lines(d)| && Lines(d)[i] == l;
      LineIs(d, i);
    }
    forall k: nat | k < d.errors ensures IsHit(d, k, SortedLines(d)) {
      BurstIsHit(d, k);
    }
  }

  /** The instants of a scenario: the deploy within six hours of its morning, the burst under a
      minute later, the decoy a day or more before, within another ten hours. */
  lemma DrawnTimes(d: Draws)
    requires d.Valid()
    ensures var morning := ANCHOR + 86400 * d.index;
      && morning < d.Deploy() <= morning + 18180 && (d.Deploy() - morning) % 60 == 0
      && d.Deploy() + 15 <= d.FirstError() <= d.Deploy() + 45
      && morning - 86400 - 35940 <= d.DecoyAt() <= d.Deploy() - 86460
      && (d.DecoyAt() - morning) % 60 == 0
  {
  }

  lemma RowIs(i: int, l: Line, clock: Clock)
    ensures RowOf(LogRow(i, l, clock), i, l, clock)
  {
    assert "ERROR"[0] != "INFO"[0];
  }

  /** A commit of this sha and time. */
  ghost predicate CommitOf(row: Row, sha: string, at: int, clock: Clock) {
    "sha" in row && row["sha"] == Str(sha) && "ts" in row && row["ts"] == Str(clock.show(at))
  }

  /** One row for each line, in their order, numbered from 0. */
  lemma RowTells(d: Draws, clock: Clock, i: nat)
    requires i < |SortedLines(d)|
    ensures |Generated(d, clock).sig.logs| == |SortedLines(d)| == d.baseline + d.errors + 1
    ensures RowOf(Generated(d, clock).sig.logs[i], i, SortedLines(d)[i], clock)
  {
    LineCount(d);
    RowIs(i, SortedLines(d)[i], clock);
  }

  /** The time of asking is two to eight minutes after the last row. */
  lemma AskedLater(d: Draws, clock: Clock) returns (minutes: int)
    requires d.Valid()
    ensures SortedLines(d) != [] && 2 <= minutes <= 8
    ensures Generated(d, clock).now == clock.show(SortedLines(d)[|SortedLines(d)| - 1].at + 60 * minutes)
  {
    LineCount(d);
    minutes := d.nowMinutes;
  }

  /** The two commits, the decoy first, and a metric only for an exhausted resource. */
  lemma CommitsTell(d: Draws, clock: Clock)
    ensures var sig := Generated(d, clock).sig;
      && |sig.commits| == 2 && CommitOf(sig.commits[0], d.decoy, d.DecoyAt(), clock)
      && CommitOf(sig.commits[1], d.culprit, d.Deploy(), clock)
      && (d.kind.ResourceExhaustion? <==> sig.metrics != [])
  {
    CommitIs(d.decoy, d.DecoyAt(), d.decoyMsg, "README.md", clock);
    CommitIs(d.culprit, d.Deploy(), d.culpritMsg, d.culpritFile, clock);
  }

  lemma CommitIs(sha: string, at: int, msg: string, file: string, clock: Clock)
    ensures CommitOf(CommitRow(sha, at, msg, file, clock), sha, at, clock)
  {
  }

  lemma {:induction false} FirstErrorIsFirst(lines: seq<Line>)
    requires exists l <- lines :: l.error
    ensures FirstErrorAt(lines) < |lines| && lines[FirstErrorAt(lines)].error
    ensures forall i :: 0 <= i < FirstErrorAt(lines) ==> !lines[i].error
  {
    if !lines[0].error {
      FirstErrorIsFirst(lines[1..]);
    }
  }

  // --- the judge -------------------------------------------------------------------------------------

  datatype Judgement = Judgement(passed: bool, correctCause: bool, evidenceMatches: bool)

  function Shas(refs: seq<Ref>): set<string> {
    set r <- refs | r.CommitRef? :: r.sha
  }

  function Keys(refs: seq<Ref>): set<Handle> {
    set r <- refs :: r.Key()
  }

  /** `judge`. */
  function Judge(d: Diagnosis, gold: seq<Ref>): (j: Judgement)
    requires d.Valid()
    ensures j.correctCause <==>
      !d.abstained && Shas(gold) != {} && Shas(gold) <= Shas(d.hypotheses[0].evidence)
    ensures j.evidenceMatches <==> !d.abstained && Keys(gold) <= Cited(d)
    ensures j.passed <==> j.correctCause && j.evidenceMatches
  {
    if d.abstained then Judgement(false, false, false)
    else
      var correct := Shas(gold) != {} && Shas(gold) <= Shas(d.hypotheses[0].evidence);
      var matches := Keys(gold) <= Cited(d);
      Judgement(correct && matches, correct, matches)
  }

  lemma ShasAreKeys(refs: seq<Ref>, sha: string)
    ensures sha in Shas(refs) <==> Handle(CommitKind, Str(sha)) in Keys(refs)
  {
    if Handle(CommitKind, Str(sha)) in Keys(refs) {
      var r :| r in refs && r.Key() == Handle(CommitKind, Str(sha));
      assert r.CommitRef? && r.sha == sha;
    }
    if sha in Shas(refs) {
      var r :| r in refs && r.CommitRef? && r.sha == sha;
      assert r.Key() in Keys(refs);
    }
  }

  /** A diagnosis whose top hypothesis cites all of the gold passes. */
  lemma CitingGoldPasses(d: Diagnosis, gold: seq<Ref>)
    requires d.Valid() && !d.abstained && Shas(gold) != {}
    requires Keys(gold) <= CitedBy(d.hypotheses[0])
    ensures Judge(d, gold).passed
  {
    var top := d.hypotheses[0];
    assert CitedBy(top) == Keys(top.evidence);
    forall sha <- Shas(gold) ensures sha in Shas(top.evidence) {
      ShasAreKeys(gold, sha);
      ShasAreKeys(top.evidence, sha);
    }
    assert top in d.hypotheses;
    assert CitedBy(top) <= Cited(d);
  }
}
