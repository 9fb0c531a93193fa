/** The positional script that the structure probes are there to expose
    (evals/training/probes.py): cite the newest commit, the first ERROR row and the sole metric,
    as the tools show them. It is right on every generated scenario, and wrong on every one whose
    culprit is not the newest commit. */
module PositionalScript {
  import opened Wrappers
  import opened Strings
  import opened Evidence
  import opened Filters
  import opened Scenarios
  import opened Probes
  import opened Variants

  /** The first row of the unfiltered commit query. */
  function Newest(commits: seq<Row>): Option<Row> {
    var recent := Recent(commits, None, Some(1));
    if recent.Some? && recent.value != [] then Some(recent.value[0]) else None
  }

  const ERRORS := LogQuery(None, Some("ERROR"), None)

  /** The first row of the log query for errors. */
  function FirstShown(logs: seq<Row>): Option<Row> {
    var rows := FilterLogs(logs, ERRORS);
    if rows.Some? && rows.value != [] then Some(rows.value[0]) else None
  }

  function ShaOf(row: Row): string {
    if "sha" in row && row["sha"].Str? then row["sha"].s else ""
  }

  function MetricOf(row: Row): string {
    if "metric" in row && row["metric"].Str? then row["metric"].s else ""
  }

  /** What the script cites; None when there is nothing to point at. */
  function Cited(sig: Signals): Option<seq<Ref>> {
    var commit, log := Newest(sig.commits), FirstShown(sig.logs);
    if commit.None? || log.None? || IdOf(log.value).None? then None
    else Some([CommitRef(ShaOf(commit.value), ""), LogRef(IdOf(log.value).value, "")]
              + if |sig.metrics| == 1 then [MetricRef(MetricOf(sig.metrics[0]), "")] else [])
  }

  /** A diagnosis with one hypothesis that cites just these. */
  predicate CitesExactly(d: Diagnosis, refs: seq<Ref>) {
    d.Valid() && !d.abstained && |d.hypotheses| == 1 && CitedBy(d.hypotheses[0]) == Keys(refs)
  }

  lemma NewestTold(rows: seq<Row>, commits: seq<Deploy>, k: nat, clock: Clock)
    requires clock.Faithful() && TellsCommits(rows, commits, clock) && k < |commits|
    requires forall i :: 0 <= i < |commits| && i != k ==> commits[i].at < commits[k].at
    ensures Newest(rows) == Some(rows[k])
  {
    forall i | 0 <= i < |rows| ensures TsOf(rows[i]) == Some(clock.show(commits[i].at)) && clock.Has(commits[i].at) {
      assert TellsCommit(rows[i], commits[i], clock);
    }
    assert Dated(rows);
    LimitKeepsMostRecent(rows, None, 1);
    RecentIsNewestFirst(rows, None);
    var all, one := Recent(rows, None, None).value, Recent(rows, None, Some(1)).value;
    assert rows[k] in all;
    var j :| 0 <= j < |all| && all[j] == rows[k];
    assert one[0] == all[0] && all[0] in rows;
    var i :| 0 <= i < |rows| && rows[i] == all[0];
    if i != k {
      assert false;
    }
  }

  lemma {:induction false} FirstShownIs(logs: seq<Row>)
    ensures LogsMatching(logs, ERRORS) == ErrorRows(logs)
  {
    assert Upper("ERROR") == "ERROR";
    if logs != [] {
      FirstShownIs(logs[1..]);
    }
  }

  /** What the script cites on a generated scenario, with or without a newer commit. */
  lemma ScriptCites(draws: Draws, sig: Signals, newest: string, clock: Clock)
    requires draws.Valid() && draws.Fits(clock) && clock.Faithful()
    requires sig.logs == Generated(draws, clock).sig.logs && sig.metrics == Generated(draws, clock).sig.metrics
    requires Newest(sig.commits).Some? && ShaOf(Newest(sig.commits).value) == newest
    ensures Cited(sig) == Some([CommitRef(newest, ""), LogRef(FirstErrorAt(SortedLines(draws)), "")]
                               + if draws.kind.ResourceExhaustion? then [MetricRef(draws.metric, "")] else [])
  {
    GeneratedIsShaped(draws, clock);
    FirstShownIs(sig.logs);
    assert FirstShown(sig.logs) == Some(sig.logs[FirstErrorAt(SortedLines(draws))]);
    ScriptMetric(draws, clock);
  }

  lemma ScriptMetric(draws: Draws, clock: Clock)
    ensures var metrics := Generated(draws, clock).sig.metrics;
      if draws.kind.ResourceExhaustion? then |metrics| == 1 && MetricOf(metrics[0]) == draws.metric else metrics == []
  {
  }

  lemma CommitsTell(draws: Draws, clock: Clock)
    requires draws.Valid() && draws.Fits(clock)
    ensures TellsCommits(Generated(draws, clock).sig.commits, StoryOf(draws).commits, clock)
  {
    GeneratedTells(draws, clock);
  }

  lemma CulpritIsNewest(draws: Draws, clock: Clock)
    requires draws.Valid() && draws.Fits(clock) && clock.Faithful()
    ensures Newest(Generated(draws, clock).sig.commits).Some?
    ensures ShaOf(Newest(Generated(draws, clock).sig.commits).value) == draws.culprit
  {
    var commits := Generated(draws, clock).sig.commits;
    CommitsTell(draws, clock);
    NewestTold(commits, StoryOf(draws).commits, 1, clock);
    assert TellsCommit(commits[1], StoryOf(draws).commits[1], clock);
  }

  lemma AddedIsNewest(s: Scenario, story: Story, row: Row, c: Deploy, clock: Clock)
    requires clock.Faithful() && TellsCommits(s.sig.commits, story.commits, clock) && TellsCommit(row, c, clock)
    requires forall k <- story.commits :: k.sha != c.sha && k.at < c.at
    ensures Newest(WithCommit(s, row).sig.commits) == Some(row) && ShaOf(row) == c.sha
  {
    var commits := story.commits + [c];
    assert forall i :: 0 <= i < |story.commits| ==> commits[i] in story.commits;
    assert TellsCommits(s.sig.commits + [row], commits, clock);
    NewestTold(s.sig.commits + [row], commits, |story.commits|, clock);
  }

  lemma StoryIsOlder(draws: Draws, sha: string)
    requires draws.Valid() && sha != draws.culprit && sha != draws.decoy
    ensures forall k <- StoryOf(draws).commits :: k.sha != sha && k.at < draws.FirstError() + 60
  {
  }

  lemma DocsAreNewest(draws: Draws, sha: string, clock: Clock)
    requires draws.Valid() && draws.Fits(clock) && clock.Faithful()
    requires sha != draws.culprit && sha != draws.decoy
    ensures var row := DocsRow(draws, sha, clock);
      Newest(WithCommit(Generated(draws, clock), row).sig.commits) == Some(row) && ShaOf(row) == sha
  {
    var s, story, row, docs := Generated(draws, clock), StoryOf(draws), DocsRow(draws, sha, clock),
      Deploy(sha, draws.FirstError() + 60);
    assert TellsCommits(s.sig.commits, story.commits, clock) by {
      CommitsTell(draws, clock);
    }
    assert TellsCommit(row, docs, clock) by {
      CommitRowTells(docs, "docs: update README", "README.md", clock);
    }
    StoryIsOlder(draws, sha);
    AddedIsNewest(s, story, row, docs, clock);
  }

  lemma ScriptCoversGold(draws: Draws, refs: seq<Ref>)
    requires refs == [CommitRef(draws.culprit, ""), LogRef(FirstErrorAt(SortedLines(draws)), "")]
                     + if draws.kind.ResourceExhaustion? then [MetricRef(draws.metric, "")] else []
    ensures Keys(Gold(draws)) <= Keys(refs)
  {
    assert refs[0] in refs && refs[1] in refs;
    if draws.kind.ResourceExhaustion? {
      assert refs[2] in refs;
    }
  }

  /** The script passes on every generated scenario. */
  lemma ScriptAlwaysPasses(draws: Draws, d: Diagnosis, clock: Clock)
    requires draws.Valid() && draws.Fits(clock) && clock.Faithful()
    requires Cited(Generated(draws, clock).sig).Some? ==> CitesExactly(d, Cited(Generated(draws, clock).sig).value)
    ensures Cited(Generated(draws, clock).sig).Some?
    ensures d.Valid() && Judge(d, Gold(draws)).passed
  {
    CulpritIsNewest(draws, clock);
    ScriptCites(draws, Generated(draws, clock).sig, draws.culprit, clock);
    ScriptCoversGold(draws, Cited(Generated(draws, clock).sig).value);
    GoldShas(draws);
    CitingGoldPasses(d, Gold(draws));
  }

  /** And fails on every one once an innocent commit is newer than the culprit. */
  lemma ScriptAlwaysFails(draws: Draws, d: Diagnosis, sha: string, clock: Clock)
    requires draws.Valid() && draws.Fits(clock) && clock.Faithful()
    requires sha != draws.culprit && sha != draws.decoy && Shaped(Generated(draws, clock))
    requires var probe := CulpritNotNewest(Generated(draws, clock), sha, clock);
      Cited(probe.sig).Some? ==> CitesExactly(d, Cited(probe.sig).value)
    ensures Cited(CulpritNotNewest(Generated(draws, clock), sha, clock).sig).Some?
    ensures d.Valid() && !Judge(d, Gold(draws)).passed
  {
    var probe := CulpritNotNewest(Generated(draws, clock), sha, clock);
    AddedDocs(draws, sha, clock);
    DocsAreNewest(draws, sha, clock);
    ScriptCites(draws, probe.sig, sha, clock);
    GoldShas(draws);
    var refs, top := Cited(probe.sig).value, d.hypotheses[0];
    assert CitedBy(top) == Keys(top.evidence);
    ShasAreKeys(refs, draws.culprit);
    ShasAreKeys(top.evidence, draws.culprit);
  }
}
