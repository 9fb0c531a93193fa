/** The incident-scoped tools (src/quellgeist/orchestrator/tools_factory.py) and the handles the
    loop records from their rows (src/quellgeist/agent/loop.py, `_record_seen`). */
module Tools {
  import opened Wrappers
  import opened Evidence
  import opened Filters

  /** A JSON object of keyword arguments. */
  type Args = map<string, Val>

  /** A tool call: its rows, or None when it raises. */
  type Tool = Args -> Option<seq<Row>>

  // --- decoding keyword arguments; None is an exception --------------------------------------

  function Arg(args: Args, key: string): Val {
    if key in args then args[key] else Null
  }

  function StringArg(v: Val): Option<Option<string>> {
    if v.Null? then Some(None) else if v.Str? then Some(Some(v.s)) else None
  }

  /** `level.upper() if level else None`: a falsy value of any type is no filter. */
  function LevelArg(v: Val): Option<Option<string>> {
    match v
    case Null => Some(None)
    case Int(i) => if i == 0 then Some(None) else None
    case Str(s) => Some(Some(s))
    case List(items) => if items == [] then Some(None) else None
  }

  function AnyArg(v: Val): Option<Val> {
    if v.Null? then None else Some(v)
  }

  function IntArg(v: Val): Option<Option<int>> {
    if v.Null? then Some(None) else if v.Int? then Some(Some(v.i)) else None
  }

  // --- the three tools -------------------------------------------------------------------------

  /** The most recent tail; 0 lifts the cap. */
  function Tail<T>(rows: seq<T>, cap: nat): seq<T> {
    if cap > 0 && |rows| > cap then rows[|rows| - cap..] else rows
  }

  function QueryLogs(sig: Signals, maxRows: nat, args: Args): Option<seq<Row>> {
    var since, level := StringArg(Arg(args, "since")), LevelArg(Arg(args, "level"));
    if !(args.Keys <= {"since", "level", "route"}) || since.None? || level.None? then None
    else
      var rows := FilterLogs(sig.logs, LogQuery(since.value, level.value, AnyArg(Arg(args, "route"))));
      if rows.None? then None else Some(Tail(rows.value, maxRows))
  }

  function GetRecentCommits(sig: Signals, args: Args): Option<seq<Row>> {
    var since, limit := StringArg(Arg(args, "since")), IntArg(Arg(args, "limit"));
    if !(args.Keys <= {"since", "limit"}) || since.None? || limit.None? then None
    else Recent(sig.commits, since.value, limit.value)
  }

  /** A value that has a length: a list of points, or, read the same way, a text. */
  predicate Sized(series: Row) {
    "points" in series ==> series["points"].List? || series["points"].Str?
  }

  /** The last points of a series; a text is cut like a list, anything else has no length. */
  function Capped(series: Row, maxPoints: nat): Option<Row> {
    if "points" !in series then Some(series)
    else
      match series["points"]
      case List(items) =>
        Some(if |items| > maxPoints then series["points" := List(Tail(items, maxPoints))] else series)
      case Str(s) =>
        Some(if |s| > maxPoints then series["points" := Str(Tail(s, maxPoints))] else series)
      case _ => None
  }

  function CapAll(series: seq<Row>, maxPoints: nat): Option<seq<Row>> {
    if series == [] then Some([])
    else
      var n := |series| - 1;
      var rest, last := CapAll(series[..n], maxPoints), Capped(series[n], maxPoints);
      if rest.None? || last.None? then None else Some(rest.value + [last.value])
  }

  function QueryMetrics(sig: Signals, maxPoints: nat, args: Args): Option<seq<Row>> {
    var since := StringArg(Arg(args, "since"));
    if !(args.Keys <= {"name", "since"}) || since.None? then None
    else
      var series := FilterMetrics(sig.metrics, AnyArg(Arg(args, "name")), since.value);
      if series.None? || maxPoints == 0 then series else CapAll(series.value, maxPoints)
  }

  // --- what the caps keep ------------------------------------------------------------------------

  /** The last `cap` items, or all of them when there are fewer, or when the cap is lifted. */
  ghost predicate MostRecent<T>(kept: seq<T>, all: seq<T>, cap: nat) {
    && |kept| == (if 0 < cap < |all| then cap else |all|)
    && forall i :: 0 <= i < |kept| ==> kept[i] == all[|all| - |kept| + i]
  }

  lemma TailIsMostRecent<T>(rows: seq<T>, cap: nat)
    ensures MostRecent(Tail(rows, cap), rows, cap)
  {
  }

  /** A series with its points cut to the most recent, a text like a list, and every other field
      as it was. */
  ghost predicate CutTo(kept: Row, series: Row, cap: nat) {
    && kept.Keys == series.Keys
    && (forall k <- series :: k != "points" ==> kept[k] == series[k])
    && ("points" in series ==>
          || (series["points"].List? && kept["points"].List?
              && MostRecent(kept["points"].items, series["points"].items, cap))
          || (series["points"].Str? && kept["points"].Str? && MostRecent(kept["points"].s, series["points"].s, cap)))
  }

  ghost predicate AllCut(kept: seq<Row>, series: seq<Row>, cap: nat) {
    |kept| == |series| && forall i :: 0 <= i < |series| ==> CutTo(kept[i], series[i], cap)
  }

  lemma CappedIsCut(series: Row, maxPoints: nat)
    ensures Capped(series, maxPoints).Some? <==> Sized(series)
    ensures Sized(series) ==> CutTo(Capped(series, maxPoints).value, series, maxPoints)
  {
    if Sized(series) && "points" in series {
      match series["points"] {
        case List(items) => TailIsMostRecent(items, maxPoints);
        case Str(s) => TailIsMostRecent(s, maxPoints);
        case _ =>
      }
    }
  }

  lemma {:induction false} AllAreCut(series: seq<Row>, maxPoints: nat)
    ensures CapAll(series, maxPoints).Some? <==> forall s <- series :: Sized(s)
    ensures CapAll(series, maxPoints).Some? ==> AllCut(CapAll(series, maxPoints).value, series, maxPoints)
  {
    if series != [] {
      var n := |series| - 1;
      AllAreCut(series[..n], maxPoints);
      CappedIsCut(series[n], maxPoints);
      assert series == series[..n] + [series[n]];
    }
  }

  /** `query_metrics`' capping loop: every series, in order, with its most recent points; it raises
      exactly for a series whose points have no length. */
  method CapSeries(series: seq<Row>, maxPoints: nat) returns (res: Option<seq<Row>>)
    ensures res == CapAll(series, maxPoints)
    ensures res.Some? <==> forall s <- series :: Sized(s)
    ensures res.Some? ==> AllCut(res.value, series, maxPoints)
  {
    AllAreCut(series, maxPoints);
    var out: seq<Row> := [];
    for i := 0 to |series|
      invariant CapAll(series[..i], maxPoints) == Some(out)
    {
      assert series[..i + 1][..i] == series[..i];
      var s := Capped(series[i], maxPoints);
      if s.None? {
        CapRaises(series, i + 1, maxPoints);
        return None;
      }
      out := out + [s.value];
    }
    assert series[..|series|] == series;
    return Some(out);
  }

  lemma {:induction false} CapRaises(series: seq<Row>, i: nat, maxPoints: nat)
    requires i <= |series| && CapAll(series[..i], maxPoints).None?
    ensures CapAll(series, maxPoints).None?
    decreases |series| - i
  {
    if i == |series| {
      assert series[..i] == series;
    } else {
      assert series[..i + 1][..i] == series[..i];
      CapRaises(series, i + 1, maxPoints);
    }
  }

  function IncidentTools(sig: Signals, maxRows: nat, maxPoints: nat): map<string, Tool> {
    map["query_logs" := (args: Args) => QueryLogs(sig, maxRows, args),
        "get_recent_commits" := (args: Args) => GetRecentCommits(sig, args),
        "query_metrics" := (args: Args) => QueryMetrics(sig, maxPoints, args)]
  }

  // --- the tools, told by the arguments they are called with --------------------------------------

  /** The argument is passed as this value, or not passed (or passed as null) for None. */
  ghost predicate Passes(args: Args, key: string, v: Option<Val>) {
    if v.Some? then key in args && args[key] == v.value else key in args ==> args[key] == Null
  }

  function Texts(s: Option<string>): Option<Val> {
    if s.Some? then Some(Str(s.value)) else None
  }

  /** `query_logs(since, level, route)`: the filtered rows, capped to the most recent tail; all of
      them when the cap is zero. It raises where the filter does, and for any other argument. */
  lemma QueryLogsMeans(sig: Signals, maxRows: nat, args: Args, since: Option<string>, level: Option<string>,
                       route: Option<Val>)
    requires Passes(args, "since", Texts(since)) && Passes(args, "level", Texts(level)) && Passes(args, "route", route)
    requires route != Some(Null)
    ensures var all := FilterLogs(sig.logs, LogQuery(since, level, route));
      var res := QueryLogs(sig, maxRows, args);
      && (res.Some? <==> all.Some? && forall k <- args :: k == "since" || k == "level" || k == "route")
      && (res.Some? ==> MostRecent(res.value, all.value, maxRows))
  {
    LogArgs(sig, maxRows, args, since, level, route);
    var all := FilterLogs(sig.logs, LogQuery(since, level, route));
    if all.Some? {
      TailIsMostRecent(all.value, maxRows);
    }
  }

  lemma LogArgs(sig: Signals, maxRows: nat, args: Args, since: Option<string>, level: Option<string>,
                route: Option<Val>)
    requires Passes(args, "since", Texts(since)) && Passes(args, "level", Texts(level)) && Passes(args, "route", route)
    requires route != Some(Null)
    ensures var all := FilterLogs(sig.logs, LogQuery(since, level, route));
      QueryLogs(sig, maxRows, args) ==
        if all.None? || exists k <- args :: k != "since" && k != "level" && k != "route" then None
        else Some(Tail(all.value, maxRows))
  {
    assert StringArg(Arg(args, "since")) == Some(since) && LevelArg(Arg(args, "level")) == Some(level);
    assert AnyArg(Arg(args, "route")) == route;
  }

  /** `get_recent_commits(since, limit)`. */
  lemma GetRecentCommitsMeans(sig: Signals, args: Args, since: Option<string>, limit: Option<int>)
    requires Passes(args, "since", Texts(since))
    requires Passes(args, "limit", if limit.Some? then Some(Int(limit.value)) else None)
    ensures GetRecentCommits(sig, args) ==
      if forall k <- args :: k == "since" || k == "limit" then Recent(sig.commits, since, limit) else None
  {
  }

  /** `query_metrics(name, since)`: the matching series, each with its most recent points. */
  lemma QueryMetricsMeans(sig: Signals, maxPoints: nat, args: Args, name: Option<Val>, since: Option<string>)
    requires Passes(args, "since", Texts(since)) && Passes(args, "name", name) && name != Some(Null)
    ensures var all := FilterMetrics(sig.metrics, name, since);
      var res := QueryMetrics(sig, maxPoints, args);
      && (res.Some? <==>
            && all.Some? && (forall k <- args :: k == "name" || k == "since")
            && (maxPoints > 0 ==> forall s <- all.value :: Sized(s)))
      && (res.Some? && maxPoints == 0 ==> res == all)
      && (res.Some? && maxPoints > 0 ==> AllCut(res.value, all.value, maxPoints))
  {
    MetricArgs(sig, maxPoints, args, name, since);
    var all := FilterMetrics(sig.metrics, name, since);
    if all.Some? {
      AllAreCut(all.value, maxPoints);
    }
  }

  lemma MetricArgs(sig: Signals, maxPoints: nat, args: Args, name: Option<Val>, since: Option<string>)
    requires Passes(args, "since", Texts(since)) && Passes(args, "name", name) && name != Some(Null)
    ensures var all := FilterMetrics(sig.metrics, name, since);
      QueryMetrics(sig, maxPoints, args) ==
        if exists k <- args :: k != "name" && k != "since" then None
        else if all.None? || maxPoints == 0 then all
        else CapAll(all.value, maxPoints)
  {
  }

  /** Arguments of the wrong type raise; of a level, only those that Python counts as true. */
  lemma WrongTypesRaise(sig: Signals, maxRows: nat, maxPoints: nat, args: Args)
    ensures "since" in args && !args["since"].Null? && !args["since"].Str? ==>
      QueryLogs(sig, maxRows, args) == GetRecentCommits(sig, args) == QueryMetrics(sig, maxPoints, args) == None
    ensures "limit" in args && !args["limit"].Null? && !args["limit"].Int? ==> GetRecentCommits(sig, args) == None
    ensures "level" in args && args["level"].Int? && args["level"].i != 0 ==> QueryLogs(sig, maxRows, args) == None
    ensures "level" in args && args["level"].List? && args["level"].items != [] ==>
      QueryLogs(sig, maxRows, args) == None
    ensures "level" in args && (args["level"] == Int(0) || args["level"] == List([])) ==>
      QueryLogs(sig, maxRows, args) == QueryLogs(sig, maxRows, args["level" := Null])
  {
  }

  /** The three tools under their names. */
  lemma ToolsAreNamed(sig: Signals, maxRows: nat, maxPoints: nat, args: Args)
    ensures var tools := IncidentTools(sig, maxRows, maxPoints);
      && tools.Keys == {"query_logs", "get_recent_commits", "query_metrics"}
      && tools["query_logs"](args) == QueryLogs(sig, maxRows, args)
      && tools["get_recent_commits"](args) == GetRecentCommits(sig, args)
      && tools["query_metrics"](args) == QueryMetrics(sig, maxPoints, args)
  {
  }

  // --- what the loop records as seen ------------------------------------------------------------

  function SeenIn(row: Row): set<Handle> {
    (if "metric" in row then {Handle(MetricKind, row["metric"])}
     else if "id" in row then {Handle(LogKind, row["id"])} else {})
    + (if "sha" in row then {Handle(CommitKind, row["sha"])} else {})
  }

  function Seen(rows: seq<Row>): set<Handle> {
    set r <- rows, h <- SeenIn(r) :: h
  }

  /** The row shows this handle: a metric by its name, a log row that is no metric by its id, a commit
      by its sha. */
  ghost predicate ShowsHandle(row: Row, h: Handle) {
    match h.kind
    case MetricKind => "metric" in row && row["metric"] == h.key
    case LogKind => "metric" !in row && "id" in row && row["id"] == h.key
    case CommitKind => "sha" in row && row["sha"] == h.key
  }

  lemma SeenMeans(rows: seq<Row>, h: Handle)
    ensures h in Seen(rows) <==> exists row <- rows :: ShowsHandle(row, h)
  {
    forall row <- rows ensures h in SeenIn(row) <==> ShowsHandle(row, h) {
    }
  }

  /** A row as the log readers produce it. */
  predicate CanonicalLog(row: Row) {
    "id" in row && "metric" !in row && "sha" !in row && TsOf(row).Some?
  }

  predicate Readable(sig: Signals) {
    && (forall r <- sig.logs :: CanonicalLog(r))
    && Dated(sig.commits)
    && (forall m <- sig.metrics :: Sized(m))
  }

  /** Every row of the two strictly read sources shows only handles that are real. */
  predicate NoStray(sig: Signals) {
    Seen(sig.commits) + Seen(sig.metrics) <= RealHandles(sig)
  }

  /** A handle that some evidence reference has: only whole numbers and texts can be cited. */
  predicate Citable(h: Handle) {
    if h.kind.LogKind? then h.key.Int? else h.key.Str?
  }

  /** Whatever stray handle a row of them shows, it cannot be cited. */
  predicate NoCitableStray(sig: Signals) {
    forall h <- Seen(sig.commits) + Seen(sig.metrics) :: Citable(h) ==> h in RealHandles(sig)
  }

  lemma SeenSnoc(rows: seq<Row>, row: Row)
    ensures Seen(rows + [row]) == Seen(rows) + SeenIn(row)
  {
    assert row in rows + [row];
    assert forall r :: r in rows + [row] <==> r in rows || r == row;
  }

  lemma TailMembers<T>(rows: seq<T>, cap: nat)
    ensures forall r <- Tail(rows, cap) :: r in rows
  {
  }

  lemma {:induction false} CapSeen(series: seq<Row>, maxPoints: nat)
    requires CapAll(series, maxPoints).Some?
    ensures Seen(CapAll(series, maxPoints).value) == Seen(series)
  {
    if series != [] {
      var n := |series| - 1;
      CapSeen(series[..n], maxPoints);
      assert series == series[..n] + [series[n]];
      SeenSnoc(series[..n], series[n]);
      SeenSnoc(CapAll(series[..n], maxPoints).value, Capped(series[n], maxPoints).value);
    }
  }

  lemma {:induction false} MatchingSeen(metrics: seq<Row>, name: Option<Val>, since: Option<string>)
    requires MetricsMatching(metrics, name, since).Some?
    ensures Seen(MetricsMatching(metrics, name, since).value) <= Seen(metrics)
    ensures name.None? ==> Seen(MetricsMatching(metrics, name, since).value) == Seen(metrics)
  {
    if metrics != [] {
      var n := |metrics| - 1;
      MatchingSeen(metrics[..n], name, since);
      assert metrics == metrics[..n] + [metrics[n]];
      SeenSnoc(metrics[..n], metrics[n]);
      if NameMatches(metrics[n], name) {
        assert SeenIn(Trimmed(metrics[n], since).value) == SeenIn(metrics[n]);
        SeenSnoc(MetricsMatching(metrics[..n], name, since).value, Trimmed(metrics[n], since).value);
      }
    }
  }

  lemma LogsSeenReal(sig: Signals, maxRows: nat, args: Args)
    requires Readable(sig) && QueryLogs(sig, maxRows, args).Some?
    ensures Seen(QueryLogs(sig, maxRows, args).value) <= RealHandles(sig)
  {
    var q := LogQuery(StringArg(Arg(args, "since")).value, LevelArg(Arg(args, "level")).value,
      AnyArg(Arg(args, "route")));
    LogsAreVerbatim(sig.logs, q);
    TailMembers(FilterLogs(sig.logs, q).value, maxRows);
    forall r <- QueryLogs(sig, maxRows, args).value, h <- SeenIn(r) ensures h in RealHandles(sig) {
      assert r in sig.logs && CanonicalLog(r);
      assert h in Keyed(sig.logs, LogKind, "id");
    }
  }

  lemma CommitsSeen(sig: Signals, args: Args)
    requires GetRecentCommits(sig, args).Some?
    ensures Seen(GetRecentCommits(sig, args).value) <= Seen(sig.commits)
  {
    var since, limit := StringArg(Arg(args, "since")).value, IntArg(Arg(args, "limit")).value;
    RecentIsNewestFirst(sig.commits, since);
    forall r <- GetRecentCommits(sig, args).value, h <- SeenIn(r) ensures h in Seen(sig.commits) {
      assert r in Recent(sig.commits, since, None).value;
      assert r in sig.commits;
    }
  }

  lemma MetricsSeen(sig: Signals, maxPoints: nat, args: Args)
    requires QueryMetrics(sig, maxPoints, args).Some?
    ensures Seen(QueryMetrics(sig, maxPoints, args).value) <= Seen(sig.metrics)
    ensures "name" !in args ==> Seen(QueryMetrics(sig, maxPoints, args).value) == Seen(sig.metrics)
  {
    var since, name := StringArg(Arg(args, "since")).value, AnyArg(Arg(args, "name"));
    MatchingSeen(sig.metrics, name, since);
    if maxPoints > 0 {
      CapSeen(FilterMetrics(sig.metrics, name, since).value, maxPoints);
    }
  }

  /** Whatever a tool returns, for whatever arguments, shows only real handles. */
  ghost predicate Confined(tools: map<string, Tool>, sig: Signals) {
    forall name <- tools, args: Args :: tools[name](args).Some? ==> Seen(tools[name](args).value) <= RealHandles(sig)
  }

  /** Filtering, sorting and both caps never show a handle that is not real, provided no commit
      or metric row carries a stray one; and that condition is exact: with a stray handle, the
      unfiltered query shows it. */
  lemma ToolsConfinedIff(sig: Signals, maxRows: nat, maxPoints: nat)
    requires Readable(sig)
    ensures Confined(IncidentTools(sig, maxRows, maxPoints), sig) <==> NoStray(sig)
  {
    var tools := IncidentTools(sig, maxRows, maxPoints);
    if NoStray(sig) {
      forall name <- tools, args: Args | tools[name](args).Some?
        ensures Seen(tools[name](args).value) <= RealHandles(sig)
      {
        match name
        case "query_logs" => LogsSeenReal(sig, maxRows, args);
        case "get_recent_commits" => CommitsSeen(sig, args);
        case _ => MetricsSeen(sig, maxPoints, args);
      }
    }
    if Confined(tools, sig) {
      UnfilteredShowsAll(sig, maxPoints);
      assert tools["get_recent_commits"](map[]) == GetRecentCommits(sig, map[]);
      assert tools["query_metrics"](map[]) == QueryMetrics(sig, maxPoints, map[]);
    }
  }

  /** Strays there are: a commit row that also has an id shows a log row that is not there. */
  lemma StrayIsShown(sig: Signals, maxRows: nat, maxPoints: nat)
    requires sig == Signals([], [map["sha" := Str("a"), "id" := Int(7), "ts" := Str("")]], [])
    ensures Readable(sig) && !NoStray(sig) && !NoCitableStray(sig)
    ensures !Confined(IncidentTools(sig, maxRows, maxPoints), sig)
  {
    var row, stray := sig.commits[0], Handle(LogKind, Int(7));
    assert row in sig.commits && stray in SeenIn(row);
    assert stray in Seen(sig.commits) && stray !in RealHandles(sig);
    ToolsConfinedIff(sig, maxRows, maxPoints);
  }

  /** The tools show real handles and those of the commit and metric rows, nothing else. */
  lemma ToolsShow(sig: Signals, maxRows: nat, maxPoints: nat, name: string, args: Args)
    requires Readable(sig) && name in IncidentTools(sig, maxRows, maxPoints)
    requires IncidentTools(sig, maxRows, maxPoints)[name](args).Some?
    ensures Seen(IncidentTools(sig, maxRows, maxPoints)[name](args).value) <=
      RealHandles(sig) + Seen(sig.commits) + Seen(sig.metrics)
  {
    match name
    case "query_logs" => LogsSeenReal(sig, maxRows, args);
    case "get_recent_commits" => CommitsSeen(sig, args);
    case _ => MetricsSeen(sig, maxPoints, args);
  }

  lemma UnfilteredShowsAll(sig: Signals, maxPoints: nat)
    requires Readable(sig)
    ensures GetRecentCommits(sig, map[]).Some? && Seen(GetRecentCommits(sig, map[]).value) == Seen(sig.commits)
    ensures QueryMetrics(sig, maxPoints, map[]).Some? && Seen(QueryMetrics(sig, maxPoints, map[]).value) ==
      Seen(sig.metrics)
  {
    RecentIsNewestFirst(sig.commits, None);
    CommitsSeen(sig, map[]);
    forall c <- sig.commits, h <- SeenIn(c) ensures h in Seen(GetRecentCommits(sig, map[]).value) {
      assert c in Recent(sig.commits, None, None).value;
    }
    UnfilteredMetrics(sig.metrics);
    CapSucceeds(sig.metrics, maxPoints);
    MetricsSeen(sig, maxPoints, map[]);
  }

  lemma UnfilteredStep(metrics: seq<Row>, rest: seq<Row>, last: Row)
    requires metrics != [] && rest == metrics[..|metrics| - 1] && last == metrics[|metrics| - 1]
    requires MetricsMatching(rest, None, None) == Some(rest)
    ensures MetricsMatching(metrics, None, None) == Some(metrics)
  {
    assert metrics == rest + [last];
    assert NameMatches(last, None) && Trimmed(last, None) == Some(last);
  }

  lemma {:induction false} UnfilteredMetrics(metrics: seq<Row>)
    ensures MetricsMatching(metrics, None, None) == Some(metrics)
  {
    if metrics != [] {
      var n := |metrics| - 1;
      UnfilteredMetrics(metrics[..n]);
      UnfilteredStep(metrics, metrics[..n], metrics[n]);
    }
  }

  lemma {:induction false} CapSucceeds(series: seq<Row>, maxPoints: nat)
    requires forall m <- series :: Sized(m)
    ensures CapAll(series, maxPoints).Some?
  {
    if series != [] {
      CapSucceeds(series[..|series| - 1], maxPoints);
      assert series[|series| - 1] in series;
    }
  }
}
