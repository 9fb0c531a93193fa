/** The resolution check after a fix (src/quellgeist/orchestrator/resolution.py): which of the
    routes that failed before the fix boundary are confirmed healthy after it. */
module Resolution {
  import opened Wrappers
  import opened Strings
  import opened Evidence
  import opened Timestamps
  import opened TimeText

  datatype Verdict = Recovered | NotRecovered | Inconclusive

  datatype Report = Report(
    verdict: Verdict,
    error: set<string>,
    residual: set<string>,
    recovered: set<string>,
    unconfirmed: set<string>)

  const NO_ROUTE := "<unrouted>"

  // --- one row -------------------------------------------------------------------------------

  predicate AllDigits(s: string) {
    s != "" && forall c <- s :: IsDigit(c)
  }

  function Number(s: string): (n: int)
    requires AllDigits(s)
    ensures n >= 0
  {
    var n := |s| - 1;
    assert IsDigit(s[n]);
    assert forall c <- s[..n] :: c in s;
    (if n == 0 then 0 else 10 * Number(s[..n])) + Value(s[n])
  }

  predicate IsError(row: Row) {
    || ("level" in row && row["level"].Str? && Upper(row["level"].s) in ["ERROR", "ERR", "CRITICAL", "FATAL"])
    || ("status" in row && row["status"].Int? && row["status"].i >= 500)
    || ("status" in row && row["status"].Str? && AllDigits(row["status"].s) && Number(row["status"].s) >= 500)
  }

  function RouteOf(row: Row): string {
    if "route" in row && row["route"].Str? && row["route"].s != "" then row["route"].s else NO_ROUTE
  }

  /** `str(row.get("ts", ""))`; of a list, as far as comparing goes. */
  function ShownTs(row: Row): string {
    if "ts" !in row then ""
    else match row["ts"]
      case Null => "None"
      case Int(i) => Decimal(i)
      case Str(s) => s
      case List(_) => "["
  }

  // --- the boundary ----------------------------------------------------------------------------

  function DeployTs(c: Row): string {
    if "ts" in c && c["ts"].Str? then c["ts"].s else ""
  }

  predicate LaterDeploy(c: Row, started: string) {
    "ts" in c && c["ts"].Str? && LexLess(started, DeployTs(c))
  }

  /** The instant of a canonical timestamp. */
  function Instant(ts: string): int {
    if Parse(ts).Some? then Epoch(Parse(ts).value) else 0
  }

  /** The largest timestamp of a commit strictly after the start, if there is one. */
  function LatestDeploy(commits: seq<Row>, started: string): Option<string> {
    if commits == [] then None
    else
      var rest := LatestDeploy(commits[1..], started);
      if !LaterDeploy(commits[0], started) then rest
      else if rest.None? || LexLess(rest.value, DeployTs(commits[0])) then Some(DeployTs(commits[0]))
      else rest
  }

  /** `_fix_boundary`. */
  function FixBoundary(commits: seq<Row>, started: string, ended: Option<string>): string {
    if LatestDeploy(commits, started).Some? then LatestDeploy(commits, started).value
    else if ended.Some? && ended.value != "" then ended.value
    else started
  }

  lemma {:induction false} LatestDeployIsLatest(commits: seq<Row>, started: string)
    ensures LatestDeploy(commits, started).Some? <==> exists c <- commits :: LaterDeploy(c, started)
    ensures LatestDeploy(commits, started).Some? ==>
      && (exists c <- commits :: LaterDeploy(c, started) && DeployTs(c) == LatestDeploy(commits, started).value)
      && forall c <- commits :: LaterDeploy(c, started) ==> !LexLess(LatestDeploy(commits, started).value, DeployTs(c))
  {
    if commits != [] {
      LatestDeployIsLatest(commits[1..], started);
      assert commits == [commits[0]] + commits[1..];
      var rest := LatestDeploy(commits[1..], started);
      if LaterDeploy(commits[0], started) {
        LexIsOrder(DeployTs(commits[0]), DeployTs(commits[0]), "");
        if rest.Some? {
          LexIsOrder(rest.value, DeployTs(commits[0]), "");
          forall c <- commits[1..] | LaterDeploy(c, started) && LexLess(rest.value, DeployTs(commits[0]))
            ensures !LexLess(DeployTs(commits[0]), DeployTs(c))
          {
            LexIsOrder(DeployTs(commits[0]), rest.value, DeployTs(c));
          }
        }
      }
    }
  }

  /** The instants of the deploys after the start. */
  function DeploysAfter(commits: seq<Row>, started: string, at: string -> int): set<int> {
    set c <- commits | at(DeployTs(c)) > at(started) :: at(DeployTs(c))
  }

  lemma LatestInTime(commits: seq<Row>, started: string, at: string -> int)
    requires forall c <- commits :: LaterDeploy(c, started) <==> at(DeployTs(c)) > at(started)
    requires forall c, d :: c in commits && d in commits ==>
      (LexLess(DeployTs(c), DeployTs(d)) <==> at(DeployTs(c)) < at(DeployTs(d)))
    ensures var latest, times := LatestDeploy(commits, started), DeploysAfter(commits, started, at);
      if latest.None? then times == {} else at(latest.value) in times && forall t <- times :: t <= at(latest.value)
  {
    LatestDeployIsLatest(commits, started);
    var latest := LatestDeploy(commits, started);
    if latest.Some? {
      var d :| d in commits && LaterDeploy(d, started) && DeployTs(d) == latest.value;
      assert at(DeployTs(d)) in DeploysAfter(commits, started, at);
    }
  }

  /** With canonical timestamps the boundary is a matter of time: the latest deploy after the run
      started, or, when there is none, the end of the run. */
  lemma BoundaryIsLatestDeploy(commits: seq<Row>, started: string, ended: string)
    requires Parse(started).Some? && Parse(ended).Some?
    requires forall c <- commits :: Parse(DeployTs(c)).Some?
    ensures var boundary, times := FixBoundary(commits, started, Some(ended)), DeploysAfter(commits, started, Instant);
      if times == {} then boundary == ended
      else Instant(boundary) in times && forall t <- times :: t <= Instant(boundary)
  {
    forall c <- commits ensures LaterDeploy(c, started) <==> Instant(DeployTs(c)) > Instant(started) {
      LaterInTime(c, started);
    }
    forall c, d | c in commits && d in commits
      ensures LexLess(DeployTs(c), DeployTs(d)) <==> Instant(DeployTs(c)) < Instant(DeployTs(d))
    {
      CanonicalOrder(DeployTs(c), DeployTs(d));
    }
    LatestInTime(commits, started, Instant);
    assert ended != "";
  }

  /** Whatever the texts: the boundary is the largest timestamp of a commit after the start; without
      such a commit the end of the run, if it has one, or its start. */
  lemma BoundaryMeans(commits: seq<Row>, started: string, ended: Option<string>)
    ensures var boundary := FixBoundary(commits, started, ended);
      var after := set c <- commits | DeploysAfterStart(c, started);
      if after == {} then boundary == if ended == None || ended == Some("") then started else ended.value
      else
        && (exists c <- after :: c["ts"] == Str(boundary))
        && forall c: Row <- after :: !LexLess(boundary, c["ts"].s)
  {
    LatestDeployIsLatest(commits, started);
    forall c <- commits ensures DeploysAfterStart(c, started) <==> LaterDeploy(c, started) {
    }
    var after := set c <- commits | DeploysAfterStart(c, started);
    if c :| c in commits && LaterDeploy(c, started) && DeployTs(c) == FixBoundary(commits, started, ended) {
      assert c in after;
    }
    assert forall c: Row :: c in after <==> c in commits && DeploysAfterStart(c, started);
  }

  predicate DeploysAfterStart(c: Row, started: string) {
    "ts" in c && c["ts"].Str? && LexLess(started, c["ts"].s)
  }

  lemma LaterInTime(c: Row, started: string)
    requires Parse(started).Some? && Parse(DeployTs(c)).Some?
    ensures LaterDeploy(c, started) <==> Instant(DeployTs(c)) > Instant(started)
  {
    CanonicalOrder(started, DeployTs(c));
  }

  // --- the verdict -------------------------------------------------------------------------------

  predicate BeforeFix(row: Row, boundary: string) {
    LexLess(ShownTs(row), boundary)
  }

  function Signature(logs: seq<Row>, boundary: string): set<string> {
    set r <- logs | BeforeFix(r, boundary) && IsError(r) :: RouteOf(r)
  }

  function PostErrors(logs: seq<Row>, boundary: string): set<string> {
    set r <- logs | !BeforeFix(r, boundary) && IsError(r) :: RouteOf(r)
  }

  function PostRoutes(logs: seq<Row>, boundary: string): set<string> {
    set r <- logs | !BeforeFix(r, boundary) :: RouteOf(r)
  }

  /** The partition of the error routes and the verdict of `verify_resolution`. */
  function Judge(logs: seq<Row>, boundary: string): Report {
    var error, postError, post := Signature(logs, boundary), PostErrors(logs, boundary), PostRoutes(logs, boundary);
    var residual := error * postError;
    var recovered := set r <- error | r != NO_ROUTE && r in post && r !in postError;
    var unconfirmed := error - residual - recovered;
    var verdict :=
      if error == {} then Inconclusive
      else if residual != {} then NotRecovered
      else if unconfirmed != {} then Inconclusive
      else Recovered;
    Report(verdict, error, residual, recovered, unconfirmed)
  }

  lemma RoutesPartition(logs: seq<Row>, boundary: string)
    ensures var j := Judge(logs, boundary);
      && j.residual !! j.recovered && j.residual !! j.unconfirmed && j.recovered !! j.unconfirmed
      && j.residual + j.recovered + j.unconfirmed == j.error
  {
    var j := Judge(logs, boundary);
    assert forall r <- j.error :: r in j.residual || r in j.recovered || r in j.unconfirmed;
  }

  /** The route failed before the boundary. */
  ghost predicate Failed(logs: seq<Row>, boundary: string, route: string) {
    exists r <- logs :: BeforeFix(r, boundary) && IsError(r) && RouteOf(r) == route
  }

  ghost predicate StillFails(logs: seq<Row>, boundary: string, route: string) {
    exists r <- logs :: !BeforeFix(r, boundary) && IsError(r) && RouteOf(r) == route
  }

  /** Attributable, seen since the fix, and without an error since. */
  ghost predicate ConfirmedHealthy(logs: seq<Row>, boundary: string, route: string) {
    && route != NO_ROUTE
    && (exists r <- logs :: !BeforeFix(r, boundary) && RouteOf(r) == route)
    && !StillFails(logs, boundary, route)
  }

  /** 'recovered' is never over-claimed and 'not_recovered' never missed: the verdict in terms of
      the rows alone. */
  lemma VerdictMeans(logs: seq<Row>, boundary: string)
    ensures Judge(logs, boundary).verdict == Recovered <==>
      && (exists route :: Failed(logs, boundary, route))
      && forall route :: Failed(logs, boundary, route) ==> ConfirmedHealthy(logs, boundary, route)
    ensures Judge(logs, boundary).verdict == NotRecovered <==>
      exists route :: Failed(logs, boundary, route) && StillFails(logs, boundary, route)
  {
    var j := Judge(logs, boundary);
    RoutesPartition(logs, boundary);
    forall route ensures route in j.error <==> Failed(logs, boundary, route) {
    }
    forall route ensures route in j.residual <==> Failed(logs, boundary, route) && StillFails(logs, boundary, route) {
    }
    forall route
      ensures route in j.recovered <==> Failed(logs, boundary, route) && ConfirmedHealthy(logs, boundary, route)
    {
    }
    if j.error != {} {
      var route :| route in j.error;
      assert Failed(logs, boundary, route);
    }
    if j.residual != {} {
      var route :| route in j.residual;
      assert Failed(logs, boundary, route) && StillFails(logs, boundary, route);
    }
    if j.unconfirmed != {} {
      var route :| route in j.unconfirmed;
      assert Failed(logs, boundary, route) && !ConfirmedHealthy(logs, boundary, route);
    }
  }

  /** For a fixed boundary, only which rows there are matters, not their order or number. */
  lemma OrderIsIrrelevant(one: seq<Row>, other: seq<Row>, boundary: string)
    requires forall r :: r in one <==> r in other
    ensures Judge(one, boundary) == Judge(other, boundary)
  {
    assert Signature(one, boundary) == Signature(other, boundary);
    assert PostErrors(one, boundary) == PostErrors(other, boundary);
    assert PostRoutes(one, boundary) == PostRoutes(other, boundary);
  }

  /** No further rows, of any time, turn 'not_recovered' into anything else. */
  lemma NotRecoveredSurvives(logs: seq<Row>, more: seq<Row>, boundary: string)
    requires Judge(logs, boundary).verdict == NotRecovered
    ensures Judge(logs + more, boundary).verdict == NotRecovered
  {
    VerdictMeans(logs, boundary);
    VerdictMeans(logs + more, boundary);
    var route :| Failed(logs, boundary, route) && StillFails(logs, boundary, route);
    var pre :| pre in logs && BeforeFix(pre, boundary) && IsError(pre) && RouteOf(pre) == route;
    var post :| post in logs && !BeforeFix(post, boundary) && IsError(post) && RouteOf(post) == route;
    assert pre in logs + more && post in logs + more;
    assert Failed(logs + more, boundary, route) && StillFails(logs + more, boundary, route);
  }

  /** Rows from after the boundary take 'recovered' away exactly when one of them is an error on a
      route of the signature, and then the verdict is 'not_recovered'. */
  lemma RecoveredIsLostTo(logs: seq<Row>, later: seq<Row>, boundary: string)
    requires Judge(logs, boundary).verdict == Recovered
    requires forall r <- later :: !BeforeFix(r, boundary)
    ensures Judge(logs + later, boundary).verdict ==
      if exists r <- later :: IsError(r) && RouteOf(r) in Signature(logs, boundary) then NotRecovered else Recovered
  {
    var all := logs + later;
    assert forall r :: r in all <==> r in logs || r in later;
    assert Signature(all, boundary) == Signature(logs, boundary);
    assert PostErrors(all, boundary) == PostErrors(logs, boundary) + PostErrors(later, boundary);
    assert PostRoutes(all, boundary) == PostRoutes(logs, boundary) + PostRoutes(later, boundary);
    RoutesPartition(logs, boundary);
    var before, after := Judge(logs, boundary), Judge(all, boundary);
    assert before.recovered == before.error;
    if r :| r in later && IsError(r) && RouteOf(r) in before.error {
      assert RouteOf(r) in after.residual;
    } else {
      assert after.residual == {};
      assert after.recovered == after.error;
    }
  }

  // --- the verdict, told by the rows' own fields -----------------------------------------------------

  /** A row of the canonical shape: its time, and how its level, status and route are to be read. */
  ghost predicate At(row: Row, t: int) {
    "ts" in row && exists c: Civil :: c.Valid() && row["ts"] == Str(Format(c)) && Epoch(c) == t
  }

  /** An error by its level, in any case, or by a status of 500 or more, as a number or in digits,
      leading zeros included. */
  ghost predicate Erroneous(row: Row) {
    || (exists level :: Has(row, "level", Str(level))
                        && (Upper(level) == "ERROR" || Upper(level) == "ERR" || Upper(level) == "CRITICAL"
                            || Upper(level) == "FATAL"))
    || (exists n :: Has(row, "status", Int(n)) && n >= 500)
    || (exists zeros, n :: Has(row, "status", Str(Zeros(zeros) + Decimal(n))) && n >= 500)
  }

  ghost predicate Has(row: Row, key: string, v: Val) {
    key in row && row[key] == v
  }

  function Zeros(n: nat): (s: string)
    ensures |s| == n && forall c <- s :: c == '0'
  {
    seq(n, _ => '0')
  }

  /** The row belongs to the route; rows without one share a bucket of their own. */
  ghost predicate On(row: Row, route: string) {
    if exists r :: r != "" && Has(row, "route", Str(r)) then Has(row, "route", Str(route)) && route != ""
    else route == "<unrouted>"
  }

  lemma OnIsRouteOf(row: Row, route: string)
    ensures On(row, route) <==> RouteOf(row) == route
  {
    if "route" in row && row["route"].Str? && row["route"].s != "" {
      assert Has(row, "route", Str(row["route"].s));
    }
  }

  lemma {:induction false} NumberOfZeros(zeros: nat, s: string)
    requires AllDigits(s)
    ensures AllDigits(Zeros(zeros) + s) && Number(Zeros(zeros) + s) == Number(s)
    decreases |s|, zeros
  {
    var all, n := Zeros(zeros) + s, |s| - 1;
    assert forall c <- all :: IsDigit(c);
    assert all[..|all| - 1] == Zeros(zeros) + s[..n];
    if n > 0 {
      assert AllDigits(s[..n]) by {
        forall c <- s[..n] ensures IsDigit(c) { assert c in s; }
      }
      NumberOfZeros(zeros, s[..n]);
    } else if zeros > 0 {
      assert Zeros(zeros) == Zeros(zeros - 1) + "0";
      NumberOfZeros(zeros - 1, "0");
      assert s[..n] == "";
      assert Number("0") == 0;
    } else {
      assert all == s;
    }
  }

  lemma {:induction false} NumberOfDecimal(n: nat)
    ensures AllDigits(Decimal(n)) && Number(Decimal(n)) == n
    decreases n
  {
    var s := Decimal(n);
    if n >= 10 {
      NumberOfDecimal(n / 10);
      var last := ['0' + (n % 10) as char];
      assert s == Decimal(n / 10) + last && s[..|s| - 1] == Decimal(n / 10);
      assert forall c <- s :: c in Decimal(n / 10) || c in last;
    }
  }

  lemma DigitAppends(m: nat, c: char)
    requires IsDigit(c)
    ensures Decimal(10 * m + Value(c)) == if m == 0 then [c] else Decimal(m) + [c]
  {
    var v := Value(c);
    assert (10 * m + v) / 10 == m && (10 * m + v) % 10 == v;
    assert '0' + v as char == c;
  }

  lemma DigitsSplit(s: string)
    requires AllDigits(s) && |s| > 1
    ensures var n := |s| - 1;
      AllDigits(s[..n]) && IsDigit(s[n]) && Number(s) == 10 * Number(s[..n]) + Value(s[n]) && s == s[..n] + [s[n]]
  {
    var n := |s| - 1;
    assert s[n] in s;
    forall c <- s[..n] ensures IsDigit(c) { assert c in s; }
  }

  /** Every run of digits is the number it is read as, behind zeros. */
  lemma {:induction false} DigitsAreNumber(s: string) returns (zeros: nat)
    requires AllDigits(s)
    ensures s == Zeros(zeros) + Decimal(Number(s))
    decreases |s|
  {
    var n := |s| - 1;
    if n == 0 {
      OneDigit(s);
      zeros := 0;
    } else {
      DigitsSplit(s);
      zeros := DigitsAreNumber(s[..n]);
      zeros := DigitsGrow(s, s[..n], s[n], zeros, Number(s[..n]), Number(s));
    }
  }

  lemma OneDigit(s: string)
    requires AllDigits(s) && |s| == 1
    ensures s == Zeros(0) + Decimal(Number(s))
  {
    assert s[0] in s;
    DigitAppends(0, s[0]);
  }

  lemma DigitsGrow(s: string, rest: string, c: char, zeros: nat, m: nat, n: int) returns (more: nat)
    requires IsDigit(c) && s == rest + [c] && rest == Zeros(zeros) + Decimal(m) && n == 10 * m + Value(c)
    ensures n >= 0 && s == Zeros(more) + Decimal(n)
  {
    DigitAppends(m, c);
    more := zeros;
    if m == 0 {
      assert Zeros(zeros + 1) == Zeros(zeros) + "0";
      more := zeros + 1;
    }
  }

  lemma ErroneousIsError(row: Row)
    ensures Erroneous(row) <==> IsError(row)
  {
    if zeros, n :| Has(row, "status", Str(Zeros(zeros) + Decimal(n))) && n >= 500 {
      NumberOfDecimal(n);
      NumberOfZeros(zeros, Decimal(n));
    }
    if "status" in row && row["status"].Str? && AllDigits(row["status"].s) {
      var s := row["status"].s;
      var zeros := DigitsAreNumber(s);
      assert Has(row, "status", Str(Zeros(zeros) + Decimal(Number(s))));
    }
    if "status" in row && row["status"].Int? {
      assert Has(row, "status", Int(row["status"].i));
    }
    if "level" in row && row["level"].Str? {
      assert Has(row, "level", Str(row["level"].s));
    }
  }

  /** A row of this time stands before the boundary exactly when its time does. */
  lemma BeforeInTime(row: Row, t: int, b: Civil)
    requires b.Valid() && At(row, t)
    ensures BeforeFix(row, Format(b)) <==> t < Epoch(b)
  {
    var c: Civil :| c.Valid() && row["ts"] == Str(Format(c)) && Epoch(c) == t;
    StringOrderIsTimeOrder(c, b);
  }

  /** A row without a timestamp, or with an empty one, stands before every boundary; one whose
      timestamp is null or a list stands after, since their texts begin with no digit. */
  lemma OddTimesFall(row: Row, b: Civil)
    requires b.Valid()
    ensures "ts" !in row || row["ts"] == Str("") ==> BeforeFix(row, Format(b))
    ensures "ts" in row && (row["ts"].Null? || row["ts"].List?) ==> !BeforeFix(row, Format(b))
  {
    FormatAt(b);
    assert Two(b.y / 100)[0] == Format(b)[0];
  }

  /** An error on the route strictly before the instant. */
  ghost predicate FailedBefore(logs: seq<Row>, t: int, route: string) {
    exists r, u :: r in logs && At(r, u) && u < t && Erroneous(r) && On(r, route)
  }

  /** A row, or an error, on the route at or after the instant. */
  ghost predicate SeenFrom(logs: seq<Row>, t: int, route: string) {
    exists r, u :: r in logs && At(r, u) && u >= t && On(r, route)
  }

  ghost predicate FailsFrom(logs: seq<Row>, t: int, route: string) {
    exists r, u :: r in logs && At(r, u) && u >= t && Erroneous(r) && On(r, route)
  }

  lemma RoutesInTime(logs: seq<Row>, b: Civil, route: string)
    requires b.Valid() && forall r <- logs :: exists t :: At(r, t)
    ensures Failed(logs, Format(b), route) <==> FailedBefore(logs, Epoch(b), route)
    ensures StillFails(logs, Format(b), route) <==> FailsFrom(logs, Epoch(b), route)
    ensures ConfirmedHealthy(logs, Format(b), route) <==>
      route != "<unrouted>" && SeenFrom(logs, Epoch(b), route) && !FailsFrom(logs, Epoch(b), route)
  {
    forall r, t | r in logs && At(r, t)
      ensures (BeforeFix(r, Format(b)) <==> t < Epoch(b)) && (Erroneous(r) <==> IsError(r))
        && (On(r, route) <==> RouteOf(r) == route)
    {
      BeforeInTime(r, t, b);
      ErroneousIsError(r);
      OnIsRouteOf(r, route);
    }
  }

  /** For rows with canonical timestamps, the whole report told by times, levels, statuses and
      routes: recovered if some route failed before the boundary and each that did is attributable,
      has been seen since, and has not failed since; not recovered if some route still fails. */
  lemma VerdictInTime(logs: seq<Row>, b: Civil)
    requires b.Valid() && forall r <- logs :: exists t :: At(r, t)
    ensures var t, verdict := Epoch(b), Judge(logs, Format(b)).verdict;
      && (verdict == NotRecovered <==> exists route :: FailedBefore(logs, t, route) && FailsFrom(logs, t, route))
      && (verdict == Recovered <==>
            && (exists route :: FailedBefore(logs, t, route))
            && forall route :: FailedBefore(logs, t, route) ==>
                 route != "<unrouted>" && SeenFrom(logs, t, route) && !FailsFrom(logs, t, route))
  {
    VerdictMeans(logs, Format(b));
    forall route
      ensures Failed(logs, Format(b), route) <==> FailedBefore(logs, Epoch(b), route)
      ensures StillFails(logs, Format(b), route) <==> FailsFrom(logs, Epoch(b), route)
      ensures ConfirmedHealthy(logs, Format(b), route) <==>
        route != "<unrouted>" && SeenFrom(logs, Epoch(b), route) && !FailsFrom(logs, Epoch(b), route)
    {
      RoutesInTime(logs, b, route);
    }
  }

  /** And the three lists of routes: still failing, recovered, and what cannot be confirmed. */
  lemma RoutesMean(logs: seq<Row>, b: Civil, route: string)
    requires b.Valid() && forall r <- logs :: exists t :: At(r, t)
    ensures var t, j := Epoch(b), Judge(logs, Format(b));
      && (route in j.error <==> FailedBefore(logs, t, route))
      && (route in j.residual <==> FailedBefore(logs, t, route) && FailsFrom(logs, t, route))
      && (route in j.recovered <==> FailedBefore(logs, t, route) && !FailsFrom(logs, t, route)
                                    && SeenFrom(logs, t, route) && route != "<unrouted>")
      && (route in j.unconfirmed <==> FailedBefore(logs, t, route) && !FailsFrom(logs, t, route)
                                      && (route == "<unrouted>" || !SeenFrom(logs, t, route)))
  {
    RoutesInTime(logs, b, route);
  }
}
