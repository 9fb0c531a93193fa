/** The variants derived from generated scenarios: the structure probes
    (evals/training/probes.py), the time shift (evals/training/trajectories.py) and the timing
    probes over it (evals/training/timing_probes.py). */
module Variants {
  import opened Wrappers
  import opened Strings
  import opened Evidence
  import opened Filters
  import opened Sorting
  import opened Scenarios
  import opened Probes
  import opened TimingVerifier

  // --- fields of a scenario --------------------------------------------------------------------

  function GoldSha(gold: seq<Ref>): Option<string> {
    if gold == [] then None else if gold[0].CommitRef? then Some(gold[0].sha) else GoldSha(gold[1..])
  }

  predicate HasSha(row: Row, sha: string) {
    "sha" in row && row["sha"] == Str(sha)
  }

  /** The first commit with the gold sha. */
  function Culprit(commits: seq<Row>, sha: string): Option<Row> {
    if commits == [] then None
    else if HasSha(commits[0], sha) then Some(commits[0])
    else Culprit(commits[1..], sha)
  }

  predicate MarkedError(row: Row) {
    "level" in row && row["level"] == Str("ERROR")
  }

  function ErrorRows(logs: seq<Row>): seq<Row> {
    if logs == [] then [] else (if MarkedError(logs[0]) then [logs[0]] else []) + ErrorRows(logs[1..])
  }

  /** `parse_ts(row["ts"])`. */
  function At(row: Row, clock: Clock): int {
    var t := clock.read(Get(row, "ts"));
    if t.Some? then t.value else 0
  }

  /** A scenario the recipes apply to: it names a culprit among its commits and has errors. */
  predicate Shaped(s: Scenario) {
    GoldSha(s.gold).Some? && Culprit(s.sig.commits, GoldSha(s.gold).value).Some? && ErrorRows(s.sig.logs) != []
  }

  // --- the recipes ---------------------------------------------------------------------------------

  function WithCommit(s: Scenario, row: Row): Scenario {
    s.(sig := s.sig.(commits := s.sig.commits + [row]))
  }

  function ThirdCommit(s: Scenario, sha: string, clock: Clock): Scenario
    requires Shaped(s)
  {
    var culprit := Culprit(s.sig.commits, GoldSha(s.gold).value).value;
    WithCommit(s, CommitRow(sha, At(culprit, clock) - 1800, "test: add coverage for utils", "tests/test_utils.py",
      clock))
  }

  function CulpritNotNewest(s: Scenario, sha: string, clock: Clock): Scenario
    requires Shaped(s)
  {
    WithCommit(s, CommitRow(sha, At(ErrorRows(s.sig.logs)[0], clock) + 60, "docs: update README", "README.md", clock))
  }

  function Restyled(commits: seq<Row>, sha: string): (rows: seq<Row>)
    ensures |rows| == |commits|
  {
    seq(|commits|, i requires 0 <= i < |commits| =>
      if HasSha(commits[i], sha) then commits[i]
      else commits[i]["msg" := Str("style: reformat imports")]["files" := Str("demo/app/utils.py")])
  }

  function DecoyCodeFiles(s: Scenario): Scenario
    requires Shaped(s)
  {
    s.(sig := s.sig.(commits := Restyled(s.sig.commits, GoldSha(s.gold).value)))
  }

  function IdOf(row: Row): Option<int> {
    if "id" in row && row["id"].Int? then Some(row["id"].i) else None
  }

  function MaxId(logs: seq<Row>): int {
    if logs == [] then -1
    else
      var rest, id := MaxId(logs[1..]), IdOf(logs[0]);
      if id.Some? && id.value > rest then id.value else rest
  }

  /** The burst on a second route: each error again, seven seconds later, with ids past all others. */
  function Spread(errors: seq<Row>, next: int, other: string, clock: Clock): (rows: seq<Row>)
    ensures |rows| == |errors|
  {
    seq(|errors|, i requires 0 <= i < |errors| =>
      map["id" := Int(next + i), "ts" := Str(clock.show(At(errors[i], clock) + 7)), "level" := Str("ERROR"),
          "route" := Str(other), "status" := Int(500), "msg" := if "msg" in errors[i] then errors[i]["msg"] else Null])
  }

  predicate EarlierRow(a: Row, b: Row) {
    LexLess(Ts(a), Ts(b))
  }

  function MultiRoute(s: Scenario, other: string, clock: Clock): Scenario
    requires Shaped(s)
  {
    s.(sig := Burst(s, other, MaxId(s.sig.logs) + 1, clock))
  }

  function Burst(s: Scenario, other: string, next: int, clock: Clock): Signals {
    s.sig.(logs := Sort(s.sig.logs + Spread(ErrorRows(s.sig.logs), next, other, clock), EarlierRow))
  }

  function Moved(commits: seq<Row>, sha: string, ts: string): (rows: seq<Row>)
    ensures |rows| == |commits|
  {
    seq(|commits|, i requires 0 <= i < |commits| => if HasSha(commits[i],
      sha) then commits[i]["ts" := Str(ts)] else commits[i])
  }

  function TimeShift(s: Scenario, clock: Clock): Scenario
    requires Shaped(s)
  {
    var errors := ErrorRows(s.sig.logs);
    var last := At(errors[|errors| - 1], clock);
    Scenario(s.sig.(commits := Moved(s.sig.commits, GoldSha(s.gold).value, clock.show(last + 600))), s.gold,
      clock.show(last + 900))
  }

  /** Restyling leaves the culprit as it is; every other commit now touches a code file, under a
      message about style, and keeps its sha, its time and all else. */
  lemma OnlyDecoysRestyled(s: Scenario, i: nat)
    requires Shaped(s) && i < |s.sig.commits|
    ensures |DecoyCodeFiles(s).sig.commits| == |s.sig.commits| && DecoyCodeFiles(s).gold == s.gold
    ensures var was, now, sha := s.sig.commits[i], DecoyCodeFiles(s).sig.commits[i], Str(GoldSha(s.gold).value);
      if "sha" in was && was["sha"] == sha then now == was
      else
        && "files" in now && now["files"] == Str("demo/app/utils.py")
        && "msg" in now && now["msg"] == Str("style: reformat imports")
        && forall key :: key != "files" && key != "msg" ==>
             (key in now <==> key in was) && (key in was ==> now[key] == was[key])
  {
  }

  /** Each error of the burst has its like on the other route: the same failure seven seconds later
      under an id of its own. */
  lemma SpreadIsAlike(errors: seq<Row>, next: int, other: string, clock: Clock, i: nat)
    requires i < |errors| && "msg" in errors[i]
    ensures var row := Spread(errors, next, other, clock)[i];
      && MarkedError(row) && IdOf(row) == Some(next + i)
      && row.Keys == {"id", "ts", "level", "route", "status", "msg"}
      && row["ts"] == Str(clock.show(At(errors[i], clock) + 7)) && row["msg"] == errors[i]["msg"]
      && row["route"] == Str(other) && row["status"] == Int(500)
  {
  }

  // --- generated scenarios have the shape ------------------------------------------------------------

  lemma {:induction false} ErrorRowsMembers(logs: seq<Row>)
    ensures forall r :: r in ErrorRows(logs) <==> r in logs && MarkedError(r)
  {
    if logs != [] {
      ErrorRowsMembers(logs[1..]);
      assert logs == [logs[0]] + logs[1..];
    }
  }

  lemma {:induction false} FirstErrorRow(rows: seq<Row>, lines: seq<Line>)
    requires |rows| == |lines| && (exists l <- lines :: l.error)
    requires forall i :: 0 <= i < |rows| ==> (MarkedError(rows[i]) <==> lines[i].error)
    ensures ErrorRows(rows) != [] && FirstErrorAt(lines) < |rows| && ErrorRows(rows)[0] == rows[FirstErrorAt(lines)]
  {
    if !lines[0].error {
      FirstErrorRow(rows[1..], lines[1..]);
      assert ErrorRows(rows) == ErrorRows(rows[1..]);
    }
  }

  lemma MarkTells(i: int, line: Line, clock: Clock)
    ensures MarkedError(LogRow(i, line, clock)) <==> line.error
  {
    assert "INFO"[0] != "ERROR"[0];
  }

  /** What the recipes find in a generated scenario. */
  lemma GeneratedIsShaped(d: Draws, clock: Clock)
    requires d.Valid() && d.Fits(clock) && clock.Faithful()
    ensures var s, first := Generated(d, clock), FirstErrorAt(SortedLines(d));
      && Shaped(s) && GoldSha(s.gold) == Some(d.culprit)
      && Culprit(s.sig.commits, d.culprit) == Some(s.sig.commits[1]) && At(s.sig.commits[1], clock) == d.Deploy()
      && first < |s.sig.logs| && ErrorRows(s.sig.logs)[0] == s.sig.logs[first]
      && TellsLog(s.sig.logs[first], Entry(first, d.FirstError(), true), clock)
      && At(s.sig.logs[first], clock) == d.FirstError()
  {
    var s, lines, first := Generated(d, clock), SortedLines(d), FirstErrorAt(SortedLines(d));
    LinesInOrder(d);
    FirstErrorIsFirst(lines);
    FirstErrorTime(d);
    forall i | 0 <= i < |lines| ensures MarkedError(s.sig.logs[i]) <==> lines[i].error {
      MarkTells(i, lines[i], clock);
    }
    FirstErrorRow(s.sig.logs, lines);
    LogRowTells(first, lines[first], clock);
    RowTime(s.sig.logs[first], Entry(first, d.FirstError(), true), clock);
    CulpritFound(d, clock);
  }

  lemma EarliestErrorFirst(lines: seq<Line>, t: int)
    requires forall i, j :: 0 <= i < j < |lines| ==> lines[i].at <= lines[j].at
    requires forall i :: 0 <= i < |lines| && lines[i].error ==> t <= lines[i].at
    requires exists l <- lines :: l.error && l.at == t
    ensures FirstErrorAt(lines) < |lines| && lines[FirstErrorAt(lines)].error && lines[FirstErrorAt(lines)].at == t
  {
    FirstErrorIsFirst(lines);
    var k :| 0 <= k < |lines| && lines[k].error && lines[k].at == t;
    assert FirstErrorAt(lines) <= k;
  }

  lemma FirstErrorTime(d: Draws)
    requires d.Valid()
    ensures var lines := SortedLines(d);
      FirstErrorAt(lines) < |lines| && lines[FirstErrorAt(lines)].error
        && lines[FirstErrorAt(lines)].at == d.FirstError()
  {
    LinesInOrder(d);
    EarliestErrorFirst(SortedLines(d), d.FirstError());
  }

  lemma CulpritFound(d: Draws, clock: Clock)
    requires d.Valid() && d.Fits(clock) && clock.Faithful()
    ensures var s := Generated(d, clock);
      && GoldSha(s.gold) == Some(d.culprit)
      && Culprit(s.sig.commits, d.culprit) == Some(s.sig.commits[1]) && At(s.sig.commits[1], clock) == d.Deploy()
  {
    var s := Generated(d, clock);
    assert s.gold[1..][0] == CommitRef(d.culprit, "");
    CommitRowTells(Deploy(d.decoy, d.DecoyAt()), d.decoyMsg, "README.md", clock);
    CommitRowTells(Deploy(d.culprit, d.Deploy()), d.culpritMsg, d.culpritFile, clock);
    var commits := s.sig.commits;
    assert !HasSha(commits[0], d.culprit) && HasSha(commits[1..][0], d.culprit);
  }

  // --- the structure probes stay solvable --------------------------------------------------------------

  lemma AddedCommitTells(s: Scenario, story: Story, row: Row, c: Deploy, clock: Clock)
    requires Tells(s.sig, story, clock) && Solvable(s.gold, story) && TellsCommit(row, c, clock)
    requires forall k <- story.commits :: k.sha != c.sha
    ensures Tells(WithCommit(s, row).sig, story.(commits := story.commits + [c]), clock)
    ensures Solvable(s.gold, story.(commits := story.commits + [c]))
  {
    var after := story.(commits := story.commits + [c]);
    assert forall k <- story.commits :: k in after.commits;
    forall r <- s.gold ensures RefHolds(r, after) {
      assert RefHolds(r, story);
    }
  }

  lemma RestyledTells(s: Scenario, story: Story, sha: string, clock: Clock)
    requires Tells(s.sig, story, clock)
    ensures TellsCommits(Restyled(s.sig.commits, sha), story.commits, clock)
  {
    forall i | 0 <= i < |story.commits| ensures TellsCommit(Restyled(s.sig.commits, sha)[i], story.commits[i], clock) {
      assert TellsCommit(s.sig.commits[i], story.commits[i], clock);
    }
  }

  function SpreadEntries(errors: seq<Row>, next: int, clock: Clock): set<Entry> {
    set i | 0 <= i < |errors| :: Entry(next + i, At(errors[i], clock) + 7, true)
  }

  lemma SpreadTells(errors: seq<Row>, next: int, other: string, clock: Clock)
    requires forall r <- errors :: clock.Has(At(r, clock) + 7)
    ensures TellsLogs(Spread(errors, next, other, clock), SpreadEntries(errors, next, clock), clock)
  {
    var rows := Spread(errors, next, other, clock);
    forall i | 0 <= i < |errors| ensures TellsLog(rows[i], Entry(next + i, At(errors[i], clock) + 7, true), clock) {
      assert errors[i] in errors;
    }
    forall r <- rows ensures exists e <- SpreadEntries(errors, next, clock) :: TellsLog(r, e, clock) {
      var i :| 0 <= i < |rows| && rows[i] == r;
      assert Entry(next + i, At(errors[i], clock) + 7, true) in SpreadEntries(errors, next, clock);
    }
  }

  lemma EarlierRowIsOrder()
    ensures StrictWeak(EarlierRow)
  {
    forall a, b ensures EarlierRow(a, b) ==> !EarlierRow(b, a) {
      LexIsOrder(Ts(a), Ts(b), "");
    }
    forall a, b, c | !EarlierRow(a, b) && !EarlierRow(b, c) ensures !EarlierRow(a, c) {
      LexIsOrder(Ts(a), Ts(b), Ts(c));
    }
  }

  lemma MergedRows(a: seq<Row>, b: seq<Row>)
    ensures forall r :: r in Sort(a + b, EarlierRow) <==> r in a || r in b
  {
    EarlierRowIsOrder();
    SortMembers(a + b, EarlierRow);
  }

  lemma MergedHaveEntries(a: seq<Row>, b: seq<Row>, one: set<Entry>, other: set<Entry>, clock: Clock)
    requires RowsHaveEntries(a, one, clock) && RowsHaveEntries(b, other, clock)
    ensures RowsHaveEntries(Sort(a + b, EarlierRow), one + other, clock)
  {
    MergedRows(a, b);
    forall r <- Sort(a + b, EarlierRow) ensures exists e <- one + other :: TellsLog(r, e, clock) {
      var e :| (e in one || e in other) && TellsLog(r, e, clock);
      assert e in one + other;
    }
  }

  lemma MergedHaveRows(a: seq<Row>, b: seq<Row>, one: set<Entry>, other: set<Entry>, clock: Clock)
    requires EntriesHaveRows(a, one, clock) && EntriesHaveRows(b, other, clock)
    ensures EntriesHaveRows(Sort(a + b, EarlierRow), one + other, clock)
  {
    MergedRows(a, b);
    forall e <- one + other ensures exists r <- Sort(a + b, EarlierRow) :: TellsLog(r, e, clock) {
      var r :| (r in a || r in b) && TellsLog(r, e, clock);
      assert r in Sort(a + b, EarlierRow);
    }
  }

  /** More errors after the culprit keep a story solvable. */
  lemma MoreErrorsSolvable(gold: seq<Ref>, story: Story, more: set<Entry>)
    requires Solvable(gold, story)
    requires forall e <- more :: exists f <- story.logs :: f.error && f.at <= e.at
    ensures Solvable(gold, story.(logs := story.logs + more))
  {
    var after := story.(logs := story.logs + more);
    forall r <- gold ensures RefHolds(r, after) {
      assert RefHolds(r, story);
      if r.LogRef? {
        var e :| e in story.logs && e.id == r.id;
        assert e in after.logs;
      }
    }
  }

  lemma {:induction false} MaxIdBounds(logs: seq<Row>)
    ensures forall r <- logs :: IdOf(r).Some? ==> IdOf(r).value <= MaxId(logs)
  {
    if logs != [] {
      MaxIdBounds(logs[1..]);
      assert logs == [logs[0]] + logs[1..];
    }
  }

  lemma ErrorRowTold(s: Scenario, story: Story, row: Row, clock: Clock) returns (e: Entry)
    requires clock.Faithful() && RowsHaveEntries(s.sig.logs, story.logs, clock) && row in ErrorRows(s.sig.logs)
    ensures e in story.logs && e.error && At(row, clock) == e.at
  {
    ErrorRowsMembers(s.sig.logs);
    e :| e in story.logs && TellsLog(row, e, clock);
    LevelIsError(row, e, clock);
    RowTime(row, e, clock);
  }

  /** Each row of the burst is told by an error of the story, seven seconds later. */
  /** Seven seconds after each row the clock can still write. */
  ghost predicate Roomy(logs: set<Entry>, clock: Clock) {
    forall e <- logs :: clock.Has(e.at + 7)
  }

  lemma SpreadFollows(s: Scenario, story: Story, next: int, clock: Clock)
    requires clock.Faithful() && RowsHaveEntries(s.sig.logs, story.logs, clock)
    requires Roomy(story.logs, clock)
    ensures forall r <- ErrorRows(s.sig.logs) :: clock.Has(At(r, clock) + 7)
    ensures forall e <- SpreadEntries(ErrorRows(s.sig.logs), next, clock) ::
      exists f <- story.logs :: f.error && f.at <= e.at
  {
    var errors := ErrorRows(s.sig.logs);
    forall r <- errors ensures clock.Has(At(r, clock) + 7) {
      var e := ErrorRowTold(s, story, r, clock);
    }
    forall e <- SpreadEntries(errors, next, clock) ensures exists f <- story.logs :: f.error && f.at <= e.at {
      var i :| 0 <= i < |errors| && e == Entry(next + i, At(errors[i], clock) + 7, true);
      var f := ErrorRowTold(s, story, errors[i], clock);
    }
  }

  /** The burst's ids are past all others, so the gold log handle still means the same row. */
  lemma SpreadIdsAreNew(s: Scenario, other: string, clock: Clock)
    ensures forall k <- s.sig.logs, r <- Spread(ErrorRows(s.sig.logs), MaxId(s.sig.logs) + 1, other, clock) ::
      IdOf(k).Some? ==> IdOf(r).Some? && IdOf(k).value < IdOf(r).value
  {
    MaxIdBounds(s.sig.logs);
  }

  lemma BurstTells(s: Scenario, story: Story, errors: seq<Row>, next: int, other: string, clock: Clock)
    requires clock.Faithful() && TellsLogs(s.sig.logs, story.logs, clock) && errors == ErrorRows(s.sig.logs)
    requires Roomy(story.logs, clock)
    ensures TellsLogs(Sort(s.sig.logs + Spread(errors, next, other, clock), EarlierRow),
                      story.logs + SpreadEntries(errors, next, clock), clock)
  {
    var spread, more := Spread(errors, next, other, clock), SpreadEntries(errors, next, clock);
    SpreadFollows(s, story, next, clock);
    SpreadTells(errors, next, other, clock);
    MergedHaveEntries(s.sig.logs, spread, story.logs, more, clock);
    MergedHaveRows(s.sig.logs, spread, story.logs, more, clock);
  }

  lemma BurstSolvable(s: Scenario, story: Story, next: int, clock: Clock)
    requires clock.Faithful() && RowsHaveEntries(s.sig.logs, story.logs, clock) && Solvable(s.gold, story)
    requires Roomy(story.logs, clock)
    ensures Solvable(s.gold, story.(logs := story.logs + SpreadEntries(ErrorRows(s.sig.logs), next, clock)))
  {
    SpreadFollows(s, story, next, clock);
    MoreErrorsSolvable(s.gold, story, SpreadEntries(ErrorRows(s.sig.logs), next, clock));
  }

  lemma TellsWithLogs(sig: Signals, rows: seq<Row>, story: Story, logs: set<Entry>, clock: Clock)
    requires Tells(sig, story, clock) && TellsLogs(rows, logs, clock)
    ensures Tells(sig.(logs := rows), story.(logs := logs), clock)
  {
  }

  /** With a burst from any id on, the scenario is told by a story that is still solvable. */
  lemma BurstIsTold(s: Scenario, story: Story, other: string, next: int, clock: Clock) returns (after: Story)
    requires clock.Faithful() && Tells(s.sig, story, clock) && Solvable(s.gold, story) && Roomy(story.logs, clock)
    ensures Tells(Burst(s, other, next, clock), after, clock) && Solvable(s.gold, after)
  {
    var logs := story.logs + SpreadEntries(ErrorRows(s.sig.logs), next, clock);
    after := story.(logs := logs);
    BurstTells(s, story, ErrorRows(s.sig.logs), next, other, clock);
    TellsWithLogs(s.sig, Burst(s, other, next, clock).logs, story, logs, clock);
    BurstSolvable(s, story, next, clock);
  }

  lemma MultiRouteIsBurst(s: Scenario, other: string, clock: Clock) returns (next: int)
    requires Shaped(s)
    ensures MultiRoute(s, other, clock).sig == Burst(s, other, next, clock)
  {
    next := MaxId(s.sig.logs) + 1;
  }

  lemma MultiRouteTells(s: Scenario, story: Story, other: string, sig: Signals, clock: Clock) returns (after: Story)
    requires clock.Faithful() && Shaped(s) && Tells(s.sig, story, clock) && Solvable(s.gold, story)
    requires Roomy(story.logs, clock) && sig == MultiRoute(s, other, clock).sig
    ensures Tells(sig, after, clock) && Solvable(s.gold, after)
  {
    var next := MultiRouteIsBurst(s, other, clock);
    after := BurstIsTold(s, story, other, next, clock);
  }

  /** The diagnosis passes the judge, fabricates nothing and survives the timing check. */
  predicate Right(d: Diagnosis, s: Scenario, clock: Clock) {
    && d.Valid() && Judge(d, s.gold).passed && Fabricated(d, s.sig) == {}
    && Timed(d, s.sig.logs, s.sig.commits, clock.read).hypotheses == d.hypotheses
  }

  lemma GoldIsRight(d: Diagnosis, s: Scenario, story: Story, clock: Clock)
    requires clock.Faithful() && Tells(s.sig, story, clock) && Solvable(s.gold, story) && CitesGold(d, s.gold)
    ensures Right(d, s, clock)
  {
    GoldHolds(d, s, story, clock);
  }

  lemma NewToStory(draws: Draws, c: Deploy)
    requires c.sha != draws.culprit && c.sha != draws.decoy
    ensures forall k <- StoryOf(draws).commits :: k.sha != c.sha
  {
  }

  lemma AddedCommitIsRight(s: Scenario, story: Story, row: Row, d: Diagnosis, c: Deploy, clock: Clock)
    requires clock.Faithful() && Tells(s.sig, story, clock) && Solvable(s.gold, story) && TellsCommit(row, c, clock)
    requires CitesGold(d, s.gold) && forall k <- story.commits :: k.sha != c.sha
    ensures Right(d, WithCommit(s, row), clock)
  {
    AddedCommitTells(s, story, row, c, clock);
    GoldIsRight(d, WithCommit(s, row), story.(commits := story.commits + [c]), clock);
  }

  lemma AddedCommitStaysRight(draws: Draws, d: Diagnosis, c: Deploy, msg: string, file: string, clock: Clock)
    requires draws.Valid() && draws.Fits(clock) && clock.Faithful() && CitesGold(d, Gold(draws))
    requires c.sha != draws.culprit && c.sha != draws.decoy && clock.Has(c.at)
    ensures Right(d, WithCommit(Generated(draws, clock), CommitRow(c.sha, c.at, msg, file, clock)), clock)
  {
    GeneratedTells(draws, clock);
    GeneratedIsSolvable(draws);
    CommitRowTells(c, msg, file, clock);
    NewToStory(draws, c);
    AddedCommitIsRight(Generated(draws, clock), StoryOf(draws), CommitRow(c.sha, c.at, msg, file, clock), d, c, clock);
  }

  lemma RestylingStaysRight(draws: Draws, d: Diagnosis, clock: Clock)
    requires draws.Valid() && draws.Fits(clock) && clock.Faithful() && CitesGold(d, Gold(draws))
    ensures Shaped(Generated(draws, clock)) && Right(d, DecoyCodeFiles(Generated(draws, clock)), clock)
  {
    var base := Generated(draws, clock);
    GeneratedIsShaped(draws, clock);
    GeneratedTells(draws, clock);
    GeneratedIsSolvable(draws);
    RestyledTells(base, StoryOf(draws), draws.culprit, clock);
    GoldIsRight(d, DecoyCodeFiles(base), StoryOf(draws), clock);
  }

  lemma EntriesFit(draws: Draws, clock: Clock)
    requires draws.Valid() && draws.Fits(clock)
    ensures forall e <- StoryOf(draws).logs ::
      draws.Deploy() - 360 <= e.at <= draws.FirstError() + 180 && clock.Has(e.at + 7)
  {
    var lines := SortedLines(draws);
    LinesInOrder(draws);
    forall e <- StoryOf(draws).logs
      ensures draws.Deploy() - 360 <= e.at <= draws.FirstError() + 180 && clock.Has(e.at + 7)
    {
      var i :| 0 <= i < |lines| && e == Entry(i, lines[i].at, lines[i].error);
      assert lines[i] in lines;
    }
  }

  lemma SpreadingStaysRight(draws: Draws, d: Diagnosis, other: string, clock: Clock)
    requires draws.Valid() && draws.Fits(clock) && clock.Faithful() && CitesGold(d, Gold(draws))
    ensures Shaped(Generated(draws, clock)) && Right(d, MultiRoute(Generated(draws, clock), other, clock), clock)
  {
    var base := Generated(draws, clock);
    GeneratedIsShaped(draws, clock);
    GeneratedTells(draws, clock);
    GeneratedIsSolvable(draws);
    EntriesFit(draws, clock);
    var after := MultiRouteTells(base, StoryOf(draws), other, MultiRoute(base, other, clock).sig, clock);
    GoldIsRight(d, MultiRoute(base, other, clock), after, clock);
  }

  /** The rows the two recipes add, in terms of the draws. */
  lemma AddedThird(draws: Draws, sha: string, clock: Clock)
    requires draws.Valid() && draws.Fits(clock) && clock.Faithful()
    ensures Shaped(Generated(draws, clock))
    ensures ThirdCommit(Generated(draws, clock), sha, clock) == WithCommit(Generated(draws, clock),
      CommitRow(sha, draws.Deploy() - 1800, "test: add coverage for utils", "tests/test_utils.py", clock))
  {
    GeneratedIsShaped(draws, clock);
  }

  lemma AddedDocs(draws: Draws, sha: string, clock: Clock)
    requires draws.Valid() && draws.Fits(clock) && clock.Faithful()
    ensures Shaped(Generated(draws, clock))
    ensures CulpritNotNewest(Generated(draws, clock), sha, clock) ==
      WithCommit(Generated(draws, clock), DocsRow(draws, sha, clock))
  {
    GeneratedIsShaped(draws, clock);
  }

  function DocsRow(draws: Draws, sha: string, clock: Clock): Row {
    CommitRow(sha, draws.FirstError() + 60, "docs: update README", "README.md", clock)
  }

  lemma ThirdCommitStaysRight(draws: Draws, d: Diagnosis, sha: string, s: Scenario, clock: Clock)
    requires draws.Valid() && draws.Fits(clock) && clock.Faithful() && CitesGold(d, Gold(draws))
    requires sha != draws.culprit && sha != draws.decoy
    requires s == WithCommit(Generated(draws, clock),
      CommitRow(sha, draws.Deploy() - 1800, "test: add coverage for utils", "tests/test_utils.py", clock))
    ensures Right(d, s, clock)
  {
    AddedCommitStaysRight(draws, d, Deploy(sha, draws.Deploy() - 1800), "test: add coverage for utils",
      "tests/test_utils.py", clock);
  }

  lemma NewerDocsStayRight(draws: Draws, d: Diagnosis, sha: string, s: Scenario, clock: Clock)
    requires draws.Valid() && draws.Fits(clock) && clock.Faithful() && CitesGold(d, Gold(draws))
    requires sha != draws.culprit && sha != draws.decoy
    requires s == WithCommit(Generated(draws, clock), DocsRow(draws, sha, clock))
    ensures Right(d, s, clock)
  {
    AddedCommitStaysRight(draws, d, Deploy(sha, draws.FirstError() + 60), "docs: update README", "README.md", clock);
  }

  /** On every generated scenario each structure probe leaves the gold diagnosis right. */
  lemma StructureProbesStaySolvable(draws: Draws, d: Diagnosis, sha: string, other: string, clock: Clock)
    requires draws.Valid() && draws.Fits(clock) && clock.Faithful() && CitesGold(d, Gold(draws))
    requires sha != draws.culprit && sha != draws.decoy
    ensures Shaped(Generated(draws, clock))
    ensures Right(d, ThirdCommit(Generated(draws, clock), sha, clock), clock)
    ensures Right(d, CulpritNotNewest(Generated(draws, clock), sha, clock), clock)
    ensures Right(d, DecoyCodeFiles(Generated(draws, clock)), clock)
    ensures Right(d, MultiRoute(Generated(draws, clock), other, clock), clock)
  {
    AddedThird(draws, sha, clock);
    AddedDocs(draws, sha, clock);
    ThirdCommitStaysRight(draws, d, sha, ThirdCommit(Generated(draws, clock), sha, clock), clock);
    NewerDocsStayRight(draws, d, sha, CulpritNotNewest(Generated(draws, clock), sha, clock), clock);
    RestylingStaysRight(draws, d, clock);
    SpreadingStaysRight(draws, d, other, clock);
  }

  // --- the time shift ------------------------------------------------------------------------------------

  /** The story with the culprit moved. */
  function MovedStory(story: Story, sha: string, at: int): Story {
    story.(commits := seq(|story.commits|, i requires 0 <= i < |story.commits| =>
      if story.commits[i].sha == sha then Deploy(sha, at) else story.commits[i]))
  }

  lemma MovedTells(rows: seq<Row>, story: Story, sha: string, at: int, clock: Clock)
    requires TellsCommits(rows, story.commits, clock) && clock.Has(at)
    ensures TellsCommits(Moved(rows, sha, clock.show(at)), MovedStory(story, sha, at).commits, clock)
  {
    var moved, commits := Moved(rows, sha, clock.show(at)), MovedStory(story, sha, at).commits;
    forall i | 0 <= i < |rows| ensures TellsCommit(moved[i], commits[i], clock)
      && commits[i].sha == story.commits[i].sha {
      assert TellsCommit(rows[i], story.commits[i], clock);
    }
  }

  /** The shifted scenario's story: the culprit ten minutes after an error that stands last. */
  lemma TimeShiftTells(s: Scenario, story: Story, clock: Clock) returns (last: Entry)
    requires clock.Faithful() && Shaped(s) && Tells(s.sig, story, clock)
    requires forall e <- story.logs :: clock.Has(e.at + 600)
    ensures last in story.logs && last.error
    ensures Tells(TimeShift(s, clock).sig, MovedStory(story, GoldSha(s.gold).value, last.at + 600), clock)
  {
    var errors := ErrorRows(s.sig.logs);
    var row := errors[|errors| - 1];
    last := ErrorRowTold(s, story, row, clock);
    MovedTells(s.sig.commits, story, GoldSha(s.gold).value, last.at + 600, clock);
  }

  /** What the timing check does to one hypothesis over a shifted generated scenario: it objects
      exactly to the culprit cited without the decoy. */
  lemma ShiftedIsTooLate(draws: Draws, h: Hypothesis, last: Entry)
    requires draws.Valid() && last in StoryOf(draws).logs && last.error
    ensures TooLate(h, MovedStory(StoryOf(draws), draws.culprit, last.at + 600)) <==>
      draws.culprit in Shas(h.evidence) && draws.decoy !in Shas(h.evidence)
  {
    var story := MovedStory(StoryOf(draws), draws.culprit, last.at + 600);
    var decoy, culprit := story.commits[0], story.commits[1];
    assert decoy == Deploy(draws.decoy, draws.DecoyAt()) && culprit == Deploy(draws.culprit, last.at + 600);
    assert decoy in story.commits && culprit in story.commits;
    assert forall c <- story.commits :: c == decoy || c == culprit;
    LinesInOrder(draws);
    forall e <- story.logs | e.error ensures decoy.at < e.at {
      var lines := SortedLines(draws);
      var i :| 0 <= i < |lines| && e == Entry(i, lines[i].at, lines[i].error);
      assert lines[i] in lines;
    }
  }

  lemma AbstainsIff(d: Diagnosis, logs: seq<Row>, commits: seq<Row>, read: Parser)
    requires d.Valid() && !d.abstained
    ensures Timed(d, logs, commits, read).abstained <==>
      forall h <- d.hypotheses :: Impossible(h, FirstError(logs, read), CommitTimes(commits, read))
  {
    var keep := Plausible(logs, commits, read);
    KeepMembers(d.hypotheses, keep);
    if Keep(d.hypotheses, keep) != [] {
      assert Keep(d.hypotheses, keep)[0] in Keep(d.hypotheses, keep);
    }
  }

  lemma EntriesFitLonger(draws: Draws, clock: Clock)
    requires draws.Valid() && draws.Fits(clock)
    ensures forall e <- StoryOf(draws).logs :: clock.Has(e.at + 600)
  {
    EntriesFit(draws, clock);
  }

  /** On every shifted scenario, the timing check forces a diagnosis to abstain exactly when each of
      its hypotheses blames the culprit and does not also cite the decoy; in particular it always
      catches the diagnosis that blames the newest deploy. */
  lemma TimeShiftIsCaught(draws: Draws, d: Diagnosis, clock: Clock)
    requires draws.Valid() && draws.Fits(clock) && clock.Faithful() && d.Valid() && !d.abstained
    ensures Shaped(Generated(draws, clock))
    ensures var s := TimeShift(Generated(draws, clock), clock);
      Timed(d, s.sig.logs, s.sig.commits, clock.read).abstained <==>
        forall h <- d.hypotheses :: draws.culprit in Shas(h.evidence) && draws.decoy !in Shas(h.evidence)
  {
    GeneratedIsShaped(draws, clock);
    GeneratedTells(draws, clock);
    EntriesFitLonger(draws, clock);
    var base, s := Generated(draws, clock), TimeShift(Generated(draws, clock), clock);
    var last := TimeShiftTells(base, StoryOf(draws), clock);
    var story := MovedStory(StoryOf(draws), draws.culprit, last.at + 600);
    AbstainsIff(d, s.sig.logs, s.sig.commits, clock.read);
    forall h <- d.hypotheses
      ensures Impossible(h, FirstError(s.sig.logs, clock.read), CommitTimes(s.sig.commits, clock.read)) <==>
        draws.culprit in Shas(h.evidence) && draws.decoy !in Shas(h.evidence)
    {
      ImpossibleTold(h, s.sig, story, clock);
      ShiftedIsTooLate(draws, h, last);
    }
  }

  /** `fooled_diagnosis`: it blames the culprit and cites it with one error. */
  function Fooled(culprit: string, firstError: int): Diagnosis {
    Diagnosis("the most recent deploy looks responsible", false, None,
              [Hypothesis("deploy " + culprit + " broke the failing route", 0.9,
                [CommitRef(culprit, ""), LogRef(firstError, "")])], [])
  }

  lemma FooledBlamesCulprit(culprit: string, firstError: int)
    ensures var d := Fooled(culprit, firstError);
      d.Valid() && !d.abstained && forall h <- d.hypotheses :: Shas(h.evidence) == {culprit}
  {
    var h := Fooled(culprit, firstError).hypotheses[0];
    assert h.evidence[0] in h.evidence;
  }

  /** Every timing probe is caught, whatever error it co-cites. */
  lemma FooledAbstains(draws: Draws, firstError: int, clock: Clock)
    requires draws.Valid() && draws.Fits(clock) && clock.Faithful()
    ensures Shaped(Generated(draws, clock))
    ensures var s := TimeShift(Generated(draws, clock), clock);
      Timed(Fooled(draws.culprit, firstError), s.sig.logs, s.sig.commits, clock.read).abstained
  {
    FooledBlamesCulprit(draws.culprit, firstError);
    TimeShiftIsCaught(draws, Fooled(draws.culprit, firstError), clock);
  }
}
