/** What holds of generated scenarios and of the variants derived from them, over every draw
    (evals/training/probes.py, evals/training/trajectories.py, evals/training/timing_probes.py). */
module Probes {
  import opened Wrappers
  import opened Strings
  import opened Evidence
  import opened Filters
  import opened Sorting
  import opened Scenarios
  import opened TimingVerifier

  // --- stories: what the rows say about ids, times and errors ------------------------------------

  datatype Entry = Entry(id: int, at: int, error: bool)

  datatype Deploy = Deploy(sha: string, at: int)

  datatype Story = Story(logs: set<Entry>, commits: seq<Deploy>, metrics: set<string>)

  predicate TellsLog(row: Row, e: Entry, clock: Clock) {
    && "id" in row && row["id"] == Int(e.id)
    && "ts" in row && row["ts"] == Str(clock.show(e.at)) && clock.Has(e.at)
    && "level" in row && row["level"] == Str(Level(e.error))
  }

  predicate TellsCommit(row: Row, c: Deploy, clock: Clock) {
    && "sha" in row && row["sha"] == Str(c.sha)
    && "ts" in row && row["ts"] == Str(clock.show(c.at)) && clock.Has(c.at)
  }

  ghost predicate RowsHaveEntries(rows: seq<Row>, logs: set<Entry>, clock: Clock) {
    forall r <- rows :: exists e <- logs :: TellsLog(r, e, clock)
  }

  ghost predicate EntriesHaveRows(rows: seq<Row>, logs: set<Entry>, clock: Clock) {
    forall e <- logs :: exists r <- rows :: TellsLog(r, e, clock)
  }

  ghost predicate TellsLogs(rows: seq<Row>, logs: set<Entry>, clock: Clock) {
    RowsHaveEntries(rows, logs, clock) && EntriesHaveRows(rows, logs, clock)
  }

  ghost predicate TellsCommits(rows: seq<Row>, commits: seq<Deploy>, clock: Clock) {
    && |rows| == |commits|
    && (forall i :: 0 <= i < |rows| ==> TellsCommit(rows[i], commits[i], clock))
    && (forall i, j :: 0 <= i < j < |commits| ==> commits[i].sha != commits[j].sha)
  }

  ghost predicate TellsMetrics(rows: seq<Row>, metrics: set<string>) {
    forall m <- metrics :: exists r <- rows :: "metric" in r && r["metric"] == Str(m)
  }

  ghost predicate Tells(sig: Signals, story: Story, clock: Clock) {
    && TellsLogs(sig.logs, story.logs, clock)
    && TellsCommits(sig.commits, story.commits, clock)
    && TellsMetrics(sig.metrics, story.metrics)
  }

  lemma LevelIsError(row: Row, e: Entry, clock: Clock)
    requires TellsLog(row, e, clock)
    ensures IsErrorRow(row) <==> e.error
    ensures row["level"] == Str("ERROR") <==> e.error
  {
    assert Upper("ERROR") == "ERROR" && Upper("INFO") == "INFO";
    assert "INFO"[0] != "ERROR"[0];
  }

  function ErrorInstants(logs: set<Entry>): set<int> {
    set e <- logs | e.error :: e.at
  }

  lemma RowTime(row: Row, e: Entry, clock: Clock)
    requires clock.Faithful() && TellsLog(row, e, clock)
    ensures IsErrorRow(row) <==> e.error
    ensures clock.read(Get(row, "ts")) == Some(e.at)
  {
    LevelIsError(row, e, clock);
  }

  lemma ErrorTimesAreTold(rows: seq<Row>, logs: set<Entry>, clock: Clock)
    requires clock.Faithful() && RowsHaveEntries(rows, logs, clock)
    ensures ErrorTimes(rows, clock.read) <= ErrorInstants(logs)
  {
    forall t <- ErrorTimes(rows, clock.read) ensures t in ErrorInstants(logs) {
      var r :| r in rows && IsErrorRow(r) && clock.read(Get(r, "ts")) == Some(t);
      var e :| e in logs && TellsLog(r, e, clock);
      RowTime(r, e, clock);
    }
  }

  lemma ToldErrorTimes(rows: seq<Row>, logs: set<Entry>, clock: Clock)
    requires clock.Faithful() && EntriesHaveRows(rows, logs, clock)
    ensures ErrorInstants(logs) <= ErrorTimes(rows, clock.read)
  {
    forall t <- ErrorInstants(logs) ensures t in ErrorTimes(rows, clock.read) {
      var e :| e in logs && e.error && e.at == t;
      var r :| r in rows && TellsLog(r, e, clock);
      RowTime(r, e, clock);
    }
  }

  lemma {:induction false} CommitTimesTold(rows: seq<Row>, commits: seq<Deploy>, clock: Clock)
    requires clock.Faithful() && TellsCommits(rows, commits, clock)
    ensures var times := CommitTimes(rows, clock.read);
      forall c <- commits :: Str(c.sha) in times && times[Str(c.sha)] == c.at
    ensures forall k <- CommitTimes(rows, clock.read) :: exists c <- commits :: k == Str(c.sha)
  {
    if rows != [] {
      var n := |rows| - 1;
      CommitTimesTold(rows[..n], commits[..n], clock);
      assert TellsCommit(rows[n], commits[n], clock);
      assert clock.read(Get(rows[n], "ts")) == Some(commits[n].at);
      assert commits == commits[..n] + [commits[n]];
    }
  }

  lemma CitedTimesTold(h: Hypothesis, rows: seq<Row>, commits: seq<Deploy>, clock: Clock)
    requires clock.Faithful() && TellsCommits(rows, commits, clock)
    ensures CitedTimes(h, CommitTimes(rows, clock.read)) == set c <- commits | c.sha in Shas(h.evidence) :: c.at
  {
    CommitTimesTold(rows, commits, clock);
    var times := CommitTimes(rows, clock.read);
    forall t <- CitedTimes(h, times) ensures exists c <- commits :: c.sha in Shas(h.evidence) && c.at == t {
      var r :| r in h.evidence && r.CommitRef? && Str(r.sha) in times && times[Str(r.sha)] == t;
      var c :| c in commits && Str(r.sha) == Str(c.sha);
      assert r.sha in Shas(h.evidence);
    }
    forall c <- commits | c.sha in Shas(h.evidence) ensures c.at in CitedTimes(h, times) {
      var r :| r in h.evidence && r.CommitRef? && r.sha == c.sha;
    }
  }

  /** Out of order, in terms of the instants of the errors and of the cited commits. */
  lemma ImpossibleSets(h: Hypothesis, logs: seq<Row>, commits: seq<Row>, read: Parser, errors: set<int>,
    cited: set<int>)
    requires ErrorTimes(logs, read) == errors && CitedTimes(h, CommitTimes(commits, read)) == cited
    ensures Impossible(h, FirstError(logs, read), CommitTimes(commits, read)) <==>
      cited != {} && exists e <- errors :: forall t <- cited :: e < t
  {
    FirstErrorIsEarliest(logs, read);
    var first := FirstError(logs, read);
    if Impossible(h, first, CommitTimes(commits, read)) {
      assert first.value in errors && forall t <- cited :: first.value < t;
    }
    if e :| e in errors && forall t <- cited :: e < t {
      assert first.value <= e;
    }
  }

  predicate Cites(h: Hypothesis, c: Deploy) {
    c.sha in Shas(h.evidence)
  }

  /** Out of order, in terms of the story: some commit is cited, and some error comes before every
      cited commit. */
  predicate TooLate(h: Hypothesis, story: Story) {
    && (exists c <- story.commits :: Cites(h, c))
    && exists e <- story.logs :: e.error && forall c <- story.commits :: Cites(h, c) ==> e.at < c.at
  }

  lemma ImpossibleTold(h: Hypothesis, sig: Signals, story: Story, clock: Clock)
    requires clock.Faithful() && Tells(sig, story, clock)
    ensures Impossible(h, FirstError(sig.logs, clock.read), CommitTimes(sig.commits, clock.read)) <==> TooLate(h, story)
  {
    var errors := ErrorInstants(story.logs);
    var cited := set c <- story.commits | c.sha in Shas(h.evidence) :: c.at;
    CitedTimesTold(h, sig.commits, story.commits, clock);
    ErrorTimesAreTold(sig.logs, story.logs, clock);
    ToldErrorTimes(sig.logs, story.logs, clock);
    ImpossibleSets(h, sig.logs, sig.commits, clock.read, errors, cited);
    LateInstants(h, story, errors, cited);
  }

  lemma LateInstants(h: Hypothesis, story: Story, times: set<int>, cited: set<int>)
    requires times == ErrorInstants(story.logs) && cited == set c <- story.commits | c.sha in Shas(h.evidence) :: c.at
    ensures TooLate(h, story) <==> cited != {} && exists e <- times :: forall t <- cited :: e < t
  {
    if TooLate(h, story) {
      var c :| c in story.commits && Cites(h, c);
      assert c.at in cited;
      var e :| e in story.logs && e.error && forall c <- story.commits :: Cites(h, c) ==> e.at < c.at;
      assert e.at in times;
    }
    if cited != {} {
      var t :| t in cited;
      var c :| c in story.commits && Cites(h, c) && c.at == t;
      if e :| e in times && forall t <- cited :: e < t {
        var entry :| entry in story.logs && entry.error && entry.at == e;
        assert forall c <- story.commits :: Cites(h, c) ==> c.at in cited;
      }
    }
  }

  // --- solvable scenarios ---------------------------------------------------------------------------

  predicate RefHolds(r: Ref, story: Story) {
    match r
    case LogRef(id, _) => exists e <- story.logs :: e.id == id
    case CommitRef(sha, _) => exists c <- story.commits :: c.sha == sha
    case MetricRef(metric, _) => metric in story.metrics
  }

  /** The gold names one culprit, a commit no later than any error, and only what is there. */
  predicate Solvable(gold: seq<Ref>, story: Story) {
    && (forall r <- gold :: RefHolds(r, story))
    && exists c <- story.commits :: Shas(gold) == {c.sha} && forall e <- story.logs :: e.error ==> c.at <= e.at
  }

  lemma LogIsReal(id: int, sig: Signals, logs: set<Entry>, clock: Clock)
    requires EntriesHaveRows(sig.logs, logs, clock) && exists e <- logs :: e.id == id
    ensures Handle(LogKind, Int(id)) in RealHandles(sig)
  {
    var e :| e in logs && e.id == id;
    var row :| row in sig.logs && TellsLog(row, e, clock);
    assert Handle(LogKind, row["id"]) in Keyed(sig.logs, LogKind, "id");
  }

  lemma CommitIsReal(sha: string, sig: Signals, commits: seq<Deploy>, clock: Clock)
    requires TellsCommits(sig.commits, commits, clock) && exists c <- commits :: c.sha == sha
    ensures Handle(CommitKind, Str(sha)) in RealHandles(sig)
  {
    var i :| 0 <= i < |commits| && commits[i].sha == sha;
    assert TellsCommit(sig.commits[i], commits[i], clock);
    assert Handle(CommitKind, sig.commits[i]["sha"]) in Keyed(sig.commits, CommitKind, "sha");
  }

  lemma MetricIsReal(metric: string, sig: Signals, metrics: set<string>)
    requires TellsMetrics(sig.metrics, metrics) && metric in metrics
    ensures Handle(MetricKind, Str(metric)) in RealHandles(sig)
  {
    var row :| row in sig.metrics && "metric" in row && row["metric"] == Str(metric);
    assert Handle(MetricKind, row["metric"]) in Keyed(sig.metrics, MetricKind, "metric");
  }

  lemma RefIsReal(r: Ref, sig: Signals, story: Story, clock: Clock)
    requires Tells(sig, story, clock) && RefHolds(r, story)
    ensures r.Key() in RealHandles(sig)
  {
    match r
    case LogRef(id, _) => LogIsReal(id, sig, story.logs, clock);
    case CommitRef(sha, _) => CommitIsReal(sha, sig, story.commits, clock);
    case MetricRef(metric, _) => MetricIsReal(metric, sig, story.metrics);
  }

  /** A diagnosis that cites the gold, and nothing else, in every hypothesis. */
  predicate CitesGold(d: Diagnosis, gold: seq<Ref>) {
    d.Valid() && !d.abstained && forall h <- d.hypotheses :: CitedBy(h) == Keys(gold)
  }

  /** On a solvable scenario such a diagnosis passes the judge, fabricates nothing, and loses no
      hypothesis to the timing check. */
  lemma GoldHolds(d: Diagnosis, s: Scenario, story: Story, clock: Clock)
    requires clock.Faithful() && Tells(s.sig, story, clock) && Solvable(s.gold, story) && CitesGold(d, s.gold)
    ensures Judge(d, s.gold).passed
    ensures Fabricated(d, s.sig) == {}
    ensures var timed := Timed(d, s.sig.logs, s.sig.commits, clock.read);
      !timed.abstained && timed.hypotheses == d.hypotheses
  {
    CitingGoldPasses(d, s.gold);
    forall k <- Cited(d) ensures k in RealHandles(s.sig) {
      var h :| h in d.hypotheses && k in CitedBy(h);
      var r :| r in s.gold && r.Key() == k;
      RefIsReal(r, s.sig, story, clock);
    }
    forall h <- d.hypotheses
      ensures Plausible(s.sig.logs, s.sig.commits, clock.read)(h)
    {
      GoldIsTimely(h, s, story, clock);
    }
    KeepAll(d.hypotheses, Plausible(s.sig.logs, s.sig.commits, clock.read));
  }

  lemma GoldIsTimely(h: Hypothesis, s: Scenario, story: Story, clock: Clock)
    requires clock.Faithful() && Tells(s.sig, story, clock) && Solvable(s.gold, story) && CitedBy(h) == Keys(s.gold)
    ensures !Impossible(h, FirstError(s.sig.logs, clock.read), CommitTimes(s.sig.commits, clock.read))
  {
    var c :| c in story.commits && Shas(s.gold) == {c.sha} && forall e <- story.logs :: e.error ==> c.at <= e.at;
    assert c.sha in Shas(s.gold);
    assert CitedBy(h) == Keys(h.evidence);
    ShasAreKeys(s.gold, c.sha);
    ShasAreKeys(h.evidence, c.sha);
    ImpossibleTold(h, s.sig, story, clock);
  }

  lemma {:induction false} KeepAll(hs: seq<Hypothesis>, keep: Hypothesis -> bool)
    requires forall h <- hs :: keep(h)
    ensures Keep(hs, keep) == hs
  {
    if hs != [] {
      KeepAll(hs[1..], keep);
    }
  }

  // --- generated scenarios are solvable -----------------------------------------------------------------

  function StoryOf(d: Draws): Story {
    var lines := SortedLines(d);
    Story(set i | 0 <= i < |lines| :: Entry(i, lines[i].at, lines[i].error),
          [Deploy(d.decoy, d.DecoyAt()), Deploy(d.culprit, d.Deploy())],
          if d.kind.ResourceExhaustion? then {d.metric} else {})
  }

  lemma LogRowTells(i: int, line: Line, clock: Clock)
    requires clock.Has(line.at)
    ensures TellsLog(LogRow(i, line, clock), Entry(i, line.at, line.error), clock)
  {
  }

  lemma LogsTell(lines: seq<Line>, clock: Clock)
    requires forall l <- lines :: clock.Has(l.at)
    ensures TellsLogs(Numbered(lines, clock), set i | 0 <= i < |lines| :: Entry(i, lines[i].at, lines[i].error), clock)
  {
    var rows := Numbered(lines, clock);
    var logs := set i | 0 <= i < |lines| :: Entry(i, lines[i].at, lines[i].error);
    forall i | 0 <= i < |lines| ensures TellsLog(rows[i], Entry(i, lines[i].at, lines[i].error), clock) {
      LogRowTells(i, lines[i], clock);
    }
    forall r <- rows ensures exists e <- logs :: TellsLog(r, e, clock) {
      var i :| 0 <= i < |rows| && rows[i] == r;
      assert Entry(i, lines[i].at, lines[i].error) in logs;
    }
  }

  lemma CommitRowTells(c: Deploy, msg: string, file: string, clock: Clock)
    requires clock.Has(c.at)
    ensures TellsCommit(CommitRow(c.sha, c.at, msg, file, clock), c, clock)
  {
  }

  lemma TwoCommitsTell(rows: seq<Row>, one: Deploy, other: Deploy, clock: Clock)
    requires |rows| == 2 && TellsCommit(rows[0], one, clock) && TellsCommit(rows[1], other, clock)
      && one.sha != other.sha
    ensures TellsCommits(rows, [one, other], clock)
  {
  }

  lemma GeneratedTells(d: Draws, clock: Clock)
    requires d.Valid() && d.Fits(clock)
    ensures Tells(Generated(d, clock).sig, StoryOf(d), clock)
  {
    var lines, sig := SortedLines(d), Generated(d, clock).sig;
    LinesInOrder(d);
    assert forall l <- lines :: clock.Has(l.at);
    LogsTell(lines, clock);
    var decoy, culprit := Deploy(d.decoy, d.DecoyAt()), Deploy(d.culprit, d.Deploy());
    CommitRowTells(decoy, d.decoyMsg, "README.md", clock);
    CommitRowTells(culprit, d.culpritMsg, d.culpritFile, clock);
    TwoCommitsTell(sig.commits, decoy, culprit, clock);
    MetricsTell(d, sig.metrics, clock);
  }

  lemma MetricsTell(d: Draws, rows: seq<Row>, clock: Clock)
    requires rows == Generated(d, clock).sig.metrics
    ensures TellsMetrics(rows, StoryOf(d).metrics)
  {
    if d.kind.ResourceExhaustion? {
      assert rows[0]["metric"] == Str(d.metric);
    }
  }

  lemma GoldShas(d: Draws)
    ensures Shas(Gold(d)) == {d.culprit}
  {
    assert Gold(d)[1] in Gold(d);
  }

  lemma GeneratedIsSolvable(d: Draws)
    requires d.Valid()
    ensures Solvable(Gold(d), StoryOf(d))
  {
    var lines, story, first := SortedLines(d), StoryOf(d), FirstErrorAt(SortedLines(d));
    LinesInOrder(d);
    FirstErrorIsFirst(lines);
    GoldShas(d);
    assert Entry(first, lines[first].at, lines[first].error) in story.logs;
    var c := story.commits[1];
    assert c in story.commits && c.sha == d.culprit;
    forall e <- story.logs | e.error ensures c.at <= e.at {
      var i :| 0 <= i < |lines| && e == Entry(i, lines[i].at, lines[i].error);
      assert lines[i] in lines;
    }
  }

  /** Log ids are exactly 0 to N-1, in time order. */
  lemma IdsInTimeOrder(d: Draws, clock: Clock)
    requires d.Valid() && d.Fits(clock) && clock.Faithful()
    ensures var logs := Generated(d, clock).sig.logs;
      && |logs| == d.baseline + d.errors + 1
      && (forall i :: 0 <= i < |logs| ==> "id" in logs[i] && logs[i]["id"] == Int(i))
      && (forall i, j :: 0 <= i < j < |logs| ==> !LexLess(Ts(logs[j]), Ts(logs[i])))
  {
    var lines, logs := SortedLines(d), Generated(d, clock).sig.logs;
    LinesInOrder(d);
    EarlierLineIsOrder();
    SortMembers(Lines(d), EarlierLine);
    forall i | 0 <= i < |logs| ensures TellsLog(logs[i], Entry(i, lines[i].at, lines[i].error), clock) {
      assert lines[i] in lines;
      LogRowTells(i, lines[i], clock);
    }
    forall i, j | 0 <= i < j < |logs| ensures !LexLess(Ts(logs[j]), Ts(logs[i])) {
      assert TellsLog(logs[i], Entry(i, lines[i].at, lines[i].error), clock);
      assert TellsLog(logs[j], Entry(j, lines[j].at, lines[j].error), clock);
    }
  }

  /** Every generated scenario: the gold diagnosis passes with no fabrication and survives timing. */
  lemma GeneratedGoldHolds(draws: Draws, d: Diagnosis, clock: Clock)
    requires draws.Valid() && draws.Fits(clock) && clock.Faithful() && CitesGold(d, Gold(draws))
    ensures var s := Generated(draws, clock);
      && Judge(d, s.gold).passed && Fabricated(d, s.sig) == {}
      && Timed(d, s.sig.logs, s.sig.commits, clock.read).hypotheses == d.hypotheses
  {
    GeneratedTells(draws, clock);
    GeneratedIsSolvable(draws);
    GoldHolds(d, Generated(draws, clock), StoryOf(draws), clock);
  }
}
