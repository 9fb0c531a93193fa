/** The read-only signal filters (src/quellgeist/servers/filters.py). Rows pass through verbatim.
    None stands for an exception: a `since` that is not canonical, a negative limit, or a
    timestamp that is not a string where one is compared. */
module Filters {
  import opened Wrappers
  import opened Strings
  import opened Evidence
  import opened Timestamps
  import opened TimeText
  import opened Sorting

  /** `row.get("ts", "")`; None when it is not a string. */
  function TsOf(row: Row): Option<string> {
    if "ts" !in row then Some("") else if row["ts"].Str? then Some(row["ts"].s) else None
  }

  function Ts(row: Row): string {
    if TsOf(row).Some? then TsOf(row).value else ""
  }

  predicate Dated(rows: seq<Row>) {
    forall r <- rows :: TsOf(r).Some?
  }

  predicate SinceOk(since: Option<string>) {
    since.Some? ==> Parse(since.value).Some?
  }

  predicate NotBefore(row: Row, since: Option<string>) {
    since.Some? ==> !LexLess(Ts(row), since.value)
  }

  function Selected(rows: seq<Row>, since: Option<string>): seq<Row> {
    if rows == [] then []
    else (if NotBefore(rows[0], since) then [rows[0]] else []) + Selected(rows[1..], since)
  }

  lemma {:induction false} SelectedSnoc(rows: seq<Row>, row: Row, since: Option<string>)
    ensures Selected(rows + [row], since) == Selected(rows, since) + if NotBefore(row, since) then [row] else []
  {
    if rows != [] {
      assert (rows + [row])[1..] == rows[1..] + [row];
      SelectedSnoc(rows[1..], row, since);
    }
  }

  lemma {:induction false} SelectedMembers(rows: seq<Row>, since: Option<string>)
    ensures forall r :: r in Selected(rows, since) <==> r in rows && NotBefore(r, since)
  {
    if rows != [] {
      SelectedMembers(rows[1..], since);
      assert rows == [rows[0]] + rows[1..];
    }
  }

  // --- logs -----------------------------------------------------------------------------

  datatype LogQuery = LogQuery(since: Option<string>, level: Option<string>, route: Option<Val>)

  predicate LogMatches(row: Row, q: LogQuery) {
    && NotBefore(row, q.since)
    && (q.level.Some? && q.level.value != "" ==> "level" in row && row["level"] == Str(Upper(q.level.value)))
    && (q.route.Some? ==> "route" in row && row["route"] == q.route.value)
  }

  function LogsMatching(rows: seq<Row>, q: LogQuery): seq<Row> {
    if rows == [] then [] else (if LogMatches(rows[0], q) then [rows[0]] else []) + LogsMatching(rows[1..], q)
  }

  function FilterLogs(rows: seq<Row>, q: LogQuery): Option<seq<Row>> {
    if !SinceOk(q.since) || (q.since.Some? && !Dated(rows)) then None else Some(LogsMatching(rows, q))
  }

  lemma {:induction false} LogsSnoc(rows: seq<Row>, row: Row, q: LogQuery)
    ensures LogsMatching(rows + [row], q) == LogsMatching(rows, q) + if LogMatches(row, q) then [row] else []
  {
    if rows != [] {
      assert (rows + [row])[1..] == rows[1..] + [row];
      LogsSnoc(rows[1..], row, q);
    }
  }

  lemma {:induction false} LogsAreVerbatim(rows: seq<Row>, q: LogQuery)
    ensures Subsequence(LogsMatching(rows, q), rows)
    ensures forall r :: r in LogsMatching(rows, q) <==> r in rows && LogMatches(r, q)
  {
    if rows == [] {
      assert Spells(LogsMatching(rows, q), rows, []);
    } else {
      LogsAreVerbatim(rows[1..], q);
      var rest := LogsMatching(rows[1..], q);
      SubsequenceCons(rows[0], rest, rows[1..]);
      assert rows == [rows[0]] + rows[1..];
      assert LogsMatching(rows, q) == if LogMatches(rows[0], q) then [rows[0]] + rest else rest;
    }
  }

  /** The `since` filter is a filter by time: of rows with canonical timestamps it keeps exactly
      those at or after the given instant (that also match the level and the route), unchanged
      and in source order. */
  lemma SinceIsByTime(rows: seq<Row>, q: LogQuery)
    requires q.since.Some? && Parse(q.since.value).Some?
    requires forall r <- rows :: TsOf(r).Some? && Parse(Ts(r)).Some?
    ensures FilterLogs(rows, q).Some? && Subsequence(FilterLogs(rows, q).value, rows)
    ensures forall r :: r in FilterLogs(rows, q).value <==>
      && r in rows
      && Epoch(Parse(Ts(r)).value) >= Epoch(Parse(q.since.value).value)
      && LogMatches(r, q.(since := None))
  {
    LogsAreVerbatim(rows, q);
    forall r <- rows ensures NotBefore(r, q.since) <==> Epoch(Parse(Ts(r)).value) >= Epoch(Parse(q.since.value).value) {
      CanonicalOrder(Ts(r), q.since.value);
    }
  }

  /** A row at or after `since`; one without a timestamp is before everything. */
  ghost predicate Late(row: Row, since: string) {
    "ts" in row && row["ts"].Str? && !LexLess(row["ts"].s, since)
  }

  /** A timestamp that raises when it is compared. */
  ghost predicate BadTime(row: Row) {
    "ts" in row && !row["ts"].Str?
  }

  /** What a row must be to be kept: late enough, of the level in upper case, of the route. */
  ghost predicate Wanted(row: Row, since: Option<string>, level: Option<string>, route: Option<Val>) {
    && (since.Some? ==> Late(row, since.value))
    && (level.Some? && level != Some("") ==> "level" in row && row["level"] == Str(Upper(level.value)))
    && (route.Some? ==> "route" in row && row["route"] == route.value)
  }

  /** These are the rows of `all` that are kept, as often and in the order they have there. */
  ghost predicate KeptOf(kept: seq<Row>, all: seq<Row>, keep: Row -> bool) {
    Subsequence(kept, all) && forall r :: multiset(kept)[r] == if keep(r) then multiset(all)[r] else 0
  }

  lemma LateMeans(row: Row, since: string)
    requires Parse(since).Some? && !BadTime(row)
    ensures NotBefore(row, Some(since)) <==> Late(row, since)
  {
    assert since != "";
  }

  ghost function IsLate(since: string): Row -> bool {
    (r: Row) => Late(r, since)
  }

  ghost function IsWanted(q: LogQuery): Row -> bool {
    (r: Row) => Wanted(r, q.since, q.level, q.route)
  }

  lemma KeptCons(row: Row, kept: seq<Row>, all: seq<Row>, keep: Row -> bool)
    requires all != [] && row == all[0] && KeptOf(kept, all[1..], keep)
    ensures KeptOf((if keep(row) then [row] else []) + kept, all, keep)
  {
    SubsequenceCons(row, kept, all[1..]);
    assert all == [row] + all[1..];
    assert [] + kept == kept;
  }

  lemma {:induction false} SelectedMeans(rows: seq<Row>, since: string)
    requires Parse(since).Some? && forall r <- rows :: !BadTime(r)
    ensures KeptOf(Selected(rows, Some(since)), rows, IsLate(since))
  {
    if rows == [] {
      assert Spells(Selected(rows, Some(since)), rows, []);
    } else {
      SelectedMeans(rows[1..], since);
      LateMeans(rows[0], since);
      KeptCons(rows[0], Selected(rows[1..], Some(since)), rows, IsLate(since));
    }
  }

  /** What `filter_log_rows` returns, for any rows: exactly the wanted ones; it raises exactly when
      `since` is not canonical or, under `since`, some timestamp is no string. */
  lemma LogsMean(rows: seq<Row>, q: LogQuery)
    ensures var res := FilterLogs(rows, q);
      && (res.None? <==> q.since.Some? && (Parse(q.since.value).None? || exists r <- rows :: BadTime(r)))
      && (res.Some? ==> KeptOf(res.value, rows, IsWanted(q)))
  {
    if FilterLogs(rows, q).Some? {
      MatchingMeans(rows, q);
    }
  }

  lemma {:induction false} MatchingMeans(rows: seq<Row>, q: LogQuery)
    requires q.since.Some? ==> Parse(q.since.value).Some? && forall r <- rows :: !BadTime(r)
    ensures KeptOf(LogsMatching(rows, q), rows, IsWanted(q))
  {
    if rows == [] {
      assert Spells(LogsMatching(rows, q), rows, []);
    } else {
      MatchingMeans(rows[1..], q);
      WantedMeans(rows[0], q);
      KeptCons(rows[0], LogsMatching(rows[1..], q), rows, IsWanted(q));
    }
  }

  lemma WantedMeans(row: Row, q: LogQuery)
    requires q.since.Some? ==> Parse(q.since.value).Some? && !BadTime(row)
    ensures LogMatches(row, q) <==> IsWanted(q)(row)
  {
    if q.since.Some? {
      LateMeans(row, q.since.value);
    }
  }

  /** `filter_log_rows`. */
  method FilterLogRows(rows: seq<Row>, q: LogQuery) returns (res: Option<seq<Row>>)
    ensures res == FilterLogs(rows, q)
  {
    if !SinceOk(q.since) { return None; }
    var level := if q.level.Some? && q.level.value != "" then Some(Upper(q.level.value)) else None;
    var out: seq<Row> := [];
    for i := 0 to |rows|
      invariant out == LogsMatching(rows[..i], q)
      invariant q.since.Some? ==> Dated(rows[..i])
    {
      var row := rows[i];
      assert rows[..i + 1] == rows[..i] + [row];
      LogsSnoc(rows[..i], row, q);
      if q.since.Some? {
        if TsOf(row).None? { return None; }
        if LexLess(Ts(row), q.since.value) { continue; }
      }
      if level.Some? && !("level" in row && row["level"] == Str(level.value)) { continue; }
      if q.route.Some? && !("route" in row && row["route"] == q.route.value) { continue; }
      out := out + [row];
    }
    assert rows[..|rows|] == rows;
    return Some(out);
  }

  // --- commits ----------------------------------------------------------------------------

  predicate Newer(a: Row, b: Row) {
    LexLess(Ts(b), Ts(a))
  }

  lemma NewerIsOrder()
    ensures StrictWeak(Newer)
  {
    forall a, b ensures Newer(a, b) ==> !Newer(b, a) {
      LexIsOrder(Ts(b), Ts(a), "");
    }
    forall a, b, c | !Newer(a, b) && !Newer(b, c) ensures !Newer(a, c) {
      LexIsOrder(Ts(c), Ts(b), Ts(a));
    }
  }

  function Recent(commits: seq<Row>, since: Option<string>, limit: Option<int>): Option<seq<Row>> {
    if !SinceOk(since) || (limit.Some? && limit.value < 0) || !Dated(commits) then None
    else
      var sorted := Sort(Selected(commits, since), Newer);
      Some(if limit.Some? && limit.value < |sorted| then sorted[..limit.value] else sorted)
  }

  ghost predicate NewestFirst(rows: seq<Row>) {
    forall i, j :: 0 <= i < j < |rows| ==> !LexLess(Ts(rows[i]), Ts(rows[j]))
  }

  /** Newest first; without a limit, a permutation of the commits at or after `since`, every row
      verbatim, in which equal times keep their order. */
  lemma RecentIsNewestFirst(commits: seq<Row>, since: Option<string>)
    requires Recent(commits, since, None).Some?
    ensures NewestFirst(Recent(commits, since, None).value)
    ensures var all := Recent(commits, since, None).value;
      && multiset(all) == multiset(Selected(commits, since))
      && (forall a :: Tied(all, Newer, a) == Tied(Selected(commits, since), Newer, a))
      && (forall c :: c in all <==> c in commits && NotBefore(c, since))
  {
    NewerIsOrder();
    var chosen := Selected(commits, since);
    SortSorts(chosen, Newer);
    SortMembers(chosen, Newer);
    SelectedMembers(commits, since);
    forall a ensures Tied(Sort(chosen, Newer), Newer, a) == Tied(chosen, Newer, a) {
      SortStable(chosen, Newer, a);
    }
    OrderedIsNewestFirst(Sort(chosen, Newer));
  }

  lemma OrderedIsNewestFirst(rows: seq<Row>)
    requires Ordered(rows, Newer)
    ensures NewestFirst(rows)
  {
    forall i, j | 0 <= i < j < |rows| ensures !LexLess(Ts(rows[i]), Ts(rows[j])) {
      assert !Newer(rows[j], rows[i]);
    }
  }

  /** The limit keeps the most recent: no omitted commit is newer than a returned one. */
  lemma LimitKeepsMostRecent(commits: seq<Row>, since: Option<string>, limit: int)
    requires limit >= 0 && Dated(commits) && SinceOk(since)
    ensures var res, all := Recent(commits, since, Some(limit)), Recent(commits, since, None);
      && res.Some? && all.Some? && res.value <= all.value
      && |res.value| == (if limit < |all.value| then limit else |all.value|)
      && forall i, j :: 0 <= i < |res.value| <= j < |all.value| ==> !LexLess(Ts(res.value[i]), Ts(all.value[j]))
  {
    SortedIsNewestFirst(Selected(commits, since));
  }

  lemma SortedIsNewestFirst(rows: seq<Row>)
    ensures NewestFirst(Sort(rows, Newer))
  {
    NewerIsOrder();
    SortSorts(rows, Newer);
    OrderedIsNewestFirst(Sort(rows, Newer));
  }

  /** `recent_commits`: a filtering pass, then the library sort in place, then the slice. */
  method RecentCommits(commits: seq<Row>, since: Option<string>, limit: Option<int>) returns (res: Option<seq<Row>>)
    ensures res == Recent(commits, since, limit)
  {
    if !SinceOk(since) { return None; }
    if limit.Some? && limit.value < 0 { return None; }
    var selected: seq<Row> := [];
    for i := 0 to |commits|
      invariant selected == Selected(commits[..i], since)
      invariant Dated(commits[..i])
    {
      var c := commits[i];
      assert commits[..i + 1] == commits[..i] + [c];
      SelectedSnoc(commits[..i], c, since);
      if TsOf(c).None? {
        assert c in commits && !Dated(commits);
        return None;
      }
      if NotBefore(c, since) {
        selected := selected + [c];
      }
    }
    assert commits[..|commits|] == commits && Dated(commits);
    selected := Sort(selected, Newer);
    if limit.Some? && limit.value < |selected| {
      selected := selected[..limit.value];
    }
    return Some(selected);
  }

  // --- metrics ----------------------------------------------------------------------------

  /** The points that iterating `series.get("points", [])` yields; None when it raises, or yields
      what has no timestamp to get, such as the characters of a text. */
  function PointsOf(series: Row): Option<seq<Row>> {
    if "points" !in series then Some([])
    else
      match series["points"]
      case List(items) => Some(items)
      case Str(s) => if s == "" then Some([]) else None
      case _ => None
  }

  predicate NameMatches(series: Row, name: Option<Val>) {
    name.Some? ==> "metric" in series && series["metric"] == name.value
  }

  /** One series, its points trimmed; its name passes through. */
  function Trimmed(series: Row, since: Option<string>): Option<Row> {
    if since.None? then Some(series)
    else if PointsOf(series).None? || !Dated(PointsOf(series).value) then None
    else Some(series["points" := List(Selected(PointsOf(series).value, since))])
  }

  function MetricsMatching(metrics: seq<Row>, name: Option<Val>, since: Option<string>): Option<seq<Row>> {
    if metrics == [] then Some([])
    else
      var n := |metrics| - 1;
      var rest := MetricsMatching(metrics[..n], name, since);
      if rest.None? then None
      else if !NameMatches(metrics[n], name) then rest
      else
        var s := Trimmed(metrics[n], since);
        if s.None? then None else Some(rest.value + [s.value])
  }

  function FilterMetrics(metrics: seq<Row>, name: Option<Val>, since: Option<string>): Option<seq<Row>> {
    if !SinceOk(since) then None else MetricsMatching(metrics, name, since)
  }

  /** Every returned series is a source series up to its points, and under `since` its points
      are exactly the source's points at or after it. */
  lemma {:induction false} MetricsKeepIdentity(metrics: seq<Row>, name: Option<Val>, since: Option<string>)
    requires MetricsMatching(metrics, name, since).Some?
    ensures forall s <- MetricsMatching(metrics, name, since).value ::
      exists m <- metrics :: NameMatches(m, name) && Trimmed(m, since) == Some(s)
    ensures name.None? ==> |MetricsMatching(metrics, name, since).value| == |metrics|
  {
    if metrics != [] {
      var n := |metrics| - 1;
      MetricsKeepIdentity(metrics[..n], name, since);
      assert metrics == metrics[..n] + [metrics[n]];
    }
  }

  ghost predicate Named(series: Row, name: Option<Val>) {
    name.None? || ("metric" in series && series["metric"] == name.value)
  }

  /** Points that cannot be gone through by their timestamps. */
  ghost predicate BadPoints(series: Row) {
    && "points" in series && series["points"] != Str("")
    && (series["points"].List? ==> exists p <- series["points"].items :: BadTime(p))
  }

  /** The same series with the late ones of its points, and no other field changed. */
  ghost predicate CutFrom(series: Row, since: string, cut: Row) {
    && "points" in cut && cut["points"].List?
    && KeptOf(cut["points"].items, if "points" in series && series["points"].List? then series["points"].items else [],
         IsLate(since))
    && forall key :: key != "points" ==> (key in cut <==> key in series) && (key in series ==> cut[key] == series[key])
  }

  lemma TrimmedMeans(series: Row, since: string)
    requires Parse(since).Some?
    ensures Trimmed(series, Some(since)).None? <==> BadPoints(series)
    ensures Trimmed(series, Some(since)).Some? ==> CutFrom(series, since, Trimmed(series, Some(since)).value)
  {
    if Trimmed(series, Some(since)).Some? {
      SelectedMeans(PointsOf(series).value, since);
    }
  }

  /** The series of this name are those at these positions, in order. */
  ghost predicate NamedAt(metrics: seq<Row>, name: Option<Val>, at: seq<nat>) {
    && (forall i :: 0 <= i < |at| ==> at[i] < |metrics| && Named(metrics[at[i]], name))
    && (forall i, j :: 0 <= i < j < |at| ==> at[i] < at[j])
    && forall k: nat :: k < |metrics| && Named(metrics[k], name) ==> k in at
  }

  ghost predicate Narrowed(series: Row, since: Option<string>, res: Row) {
    if since.None? then res == series else CutFrom(series, since.value, res)
  }

  /** These are the named series, in order, each as it is or cut. */
  ghost predicate SeriesAt(metrics: seq<Row>, name: Option<Val>, since: Option<string>, res: seq<Row>, at: seq<nat>) {
    && NamedAt(metrics, name, at) && |res| == |at|
    && forall i :: 0 <= i < |at| ==> Narrowed(metrics[at[i]], since, res[i])
  }

  /** What `filter_metric_rows` returns: every series of the name, in order, as it is or cut to the
      points at or after `since`; it raises exactly when `since` is not canonical or, under `since`,
      the points of such a series cannot be gone through. */
  lemma MetricsMean(metrics: seq<Row>, name: Option<Val>, since: Option<string>) returns (at: seq<nat>)
    ensures var res := FilterMetrics(metrics, name, since);
      && (res.None? <==>
            since.Some? && (Parse(since.value).None? || exists m <- metrics :: Named(m, name) && BadPoints(m)))
      && (res.Some? ==> SeriesAt(metrics, name, since, res.value, at))
  {
    at := [];
    if SinceOk(since) {
      SeriesRaise(metrics, name, since);
      if MetricsMatching(metrics, name, since).Some? {
        at := SeriesMean(metrics, name, since);
      }
    }
  }

  lemma {:induction false} SeriesRaise(metrics: seq<Row>, name: Option<Val>, since: Option<string>)
    requires SinceOk(since)
    ensures MetricsMatching(metrics, name, since).None? <==>
      since.Some? && exists m <- metrics :: Named(m, name) && BadPoints(m)
  {
    if metrics != [] {
      var n := |metrics| - 1;
      SeriesRaise(metrics[..n], name, since);
      assert metrics == metrics[..n] + [metrics[n]];
      if since.Some? {
        TrimmedMeans(metrics[n], since.value);
      }
    }
  }

  lemma {:induction false} SeriesMean(metrics: seq<Row>, name: Option<Val>, since: Option<string>)
    returns (at: seq<nat>)
    requires SinceOk(since) && MetricsMatching(metrics, name, since).Some?
    ensures SeriesAt(metrics, name, since, MetricsMatching(metrics, name, since).value, at)
  {
    at := [];
    if metrics != [] {
      var n := |metrics| - 1;
      var rest := SeriesMean(metrics[..n], name, since);
      var was := MetricsMatching(metrics[..n], name, since).value;
      at := OneMoreNamed(metrics, name, rest);
      if Named(metrics[n], name) {
        var last := Trimmed(metrics[n], since).value;
        LastNarrowed(metrics[n], since, last);
        OneMoreSeries(metrics, name, since, was, rest, at, last);
      } else {
        assert rest + [] == rest;
      }
    }
  }

  lemma LastNarrowed(series: Row, since: Option<string>, last: Row)
    requires SinceOk(since) && Trimmed(series, since) == Some(last)
    ensures Narrowed(series, since, last)
  {
    if since.Some? {
      TrimmedMeans(series, since.value);
    }
  }

  lemma OneMoreSeries(metrics: seq<Row>, name: Option<Val>, since: Option<string>, was: seq<Row>, rest: seq<nat>,
    at: seq<nat>, last: Row)
    requires metrics != [] && SeriesAt(metrics[..|metrics| - 1], name, since, was, rest)
    requires NamedAt(metrics, name, at) && at == rest + [|metrics| - 1]
    requires Narrowed(metrics[|metrics| - 1], since, last)
    ensures SeriesAt(metrics, name, since, was + [last], at)
  {
  }

  lemma OneMoreNamed(metrics: seq<Row>, name: Option<Val>, at: seq<nat>) returns (more: seq<nat>)
    requires metrics != [] && NamedAt(metrics[..|metrics| - 1], name, at)
    ensures NamedAt(metrics, name, more)
    ensures more == at + if Named(metrics[|metrics| - 1], name) then [|metrics| - 1] else []
  {
    var n := |metrics| - 1;
    more := at + if Named(metrics[n], name) then [n] else [];
    forall k: nat | k < |metrics| && Named(metrics[k], name) ensures k in more {
      if k < n {
        assert metrics[..n][k] == metrics[k];
      } else {
        assert more[|more| - 1] == n;
      }
    }
  }

  /** `filter_metric_rows`. */
  method FilterMetricRows(metrics: seq<Row>, name: Option<Val>, since: Option<string>) returns (res: Option<seq<Row>>)
    ensures res == FilterMetrics(metrics, name, since)
  {
    if !SinceOk(since) { return None; }
    var out: seq<Row> := [];
    for i := 0 to |metrics|
      invariant MetricsMatching(metrics[..i], name, since) == Some(out)
    {
      var series := metrics[i];
      assert metrics[..i + 1][..i] == metrics[..i];
      if !NameMatches(series, name) { continue; }
      var trimmed := Trimmed(series, since);
      if trimmed.None? {
        MetricsRaise(metrics, i + 1, name, since);
        return None;
      }
      out := out + [trimmed.value];
    }
    assert metrics[..|metrics|] == metrics;
    return Some(out);
  }

  lemma {:induction false} MetricsRaise(metrics: seq<Row>, i: nat, name: Option<Val>, since: Option<string>)
    requires i <= |metrics| && MetricsMatching(metrics[..i], name, since).None?
    ensures MetricsMatching(metrics, name, since).None?
    decreases |metrics| - i
  {
    if i == |metrics| {
      assert metrics[..i] == metrics;
    } else {
      assert metrics[..i + 1][..i] == metrics[..i];
      MetricsRaise(metrics, i + 1, name, since);
    }
  }
}
