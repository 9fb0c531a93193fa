/** The deterministic timing check (src/quellgeist/agent/timing_verifier.py): a cause cannot
    post-date its effect. Timestamps are read by an arbitrary best-effort parser. */
module TimingVerifier {
  import opened Wrappers
  import opened Strings
  import opened Evidence
  import Verifier

  /** A best-effort timestamp reader: None when the value is absent or unparseable. */
  type Parser = Option<Val> -> Option<int>

  const POSTDATED_ALL := "timing verifier dropped all hypotheses: every cited commit post-dates the first error"

  function Get(r: Row, key: string): Option<Val> {
    if key in r then Some(r[key]) else None
  }

  predicate IsErrorRow(r: Row) {
    "level" in r && r["level"].Str? && Upper(r["level"].s) == "ERROR"
  }

  /** The dated error rows' instants. */
  function ErrorTimes(logs: seq<Row>, parse: Parser): set<int> {
    set r <- logs | IsErrorRow(r) && parse(Get(r, "ts")).Some? :: parse(Get(r, "ts")).value
  }

  function FirstError(logs: seq<Row>, parse: Parser): (first: Option<int>) {
    if logs == [] then None
    else
      var rest := FirstError(logs[1..], parse);
      var t := if IsErrorRow(logs[0]) then parse(Get(logs[0], "ts")) else None;
      if t.None? then rest
      else if rest.None? || t.value <= rest.value then t
      else rest
  }

  /** Sha to instant, over the dated commits; a later row replaces an earlier one. */
  function CommitTimes(commits: seq<Row>, parse: Parser): map<Val, int> {
    if commits == [] then map[]
    else
      var last := commits[|commits| - 1];
      var rest := CommitTimes(commits[..|commits| - 1], parse);
      if "sha" in last && parse(Get(last, "ts")).Some? then rest[last["sha"] := parse(Get(last, "ts")).value] else rest
  }

  /** The dated instants of the commits a hypothesis cites. */
  function CitedTimes(h: Hypothesis, times: map<Val, int>): set<int> {
    set r <- h.evidence | r.CommitRef? && Str(r.sha) in times :: times[Str(r.sha)]
  }

  /** Provably out of order: some cited commit is dated, and every dated one follows the
      first error. */
  predicate Impossible(h: Hypothesis, first: Option<int>, times: map<Val, int>) {
    && first.Some?
    && CitedTimes(h, times) != {}
    && forall t <- CitedTimes(h, times) :: t > first.value
  }

  function Plausible(logs: seq<Row>, commits: seq<Row>, parse: Parser): Hypothesis -> bool {
    var first, times := FirstError(logs, parse), CommitTimes(commits, parse);
    h => !Impossible(h, first, times)
  }

  function Timed(d: Diagnosis, logs: seq<Row>, commits: seq<Row>, parse: Parser): Diagnosis {
    Reduce(d, Plausible(logs, commits, parse), POSTDATED_ALL)
  }

  lemma {:induction false} FirstErrorIsEarliest(logs: seq<Row>, parse: Parser)
    ensures FirstError(logs, parse).None? <==> ErrorTimes(logs, parse) == {}
    ensures FirstError(logs, parse).Some? ==>
      && FirstError(logs, parse).value in ErrorTimes(logs, parse)
      && forall t <- ErrorTimes(logs, parse) :: FirstError(logs, parse).value <= t
  {
    if logs != [] {
      FirstErrorIsEarliest(logs[1..], parse);
      assert logs == [logs[0]] + logs[1..];
      assert ErrorTimes(logs, parse) == ErrorTimes(logs[1..], parse)
        + if IsErrorRow(logs[0]) && parse(Get(logs[0], "ts")).Some? then {parse(Get(logs[0], "ts")).value} else {};
    }
  }

  /** `verify_timing`. */
  method VerifyTiming(d: Diagnosis, logs: seq<Row>, commits: seq<Row>, parse: Parser)
    returns (res: Verifier.VerifierResult)
    ensures res.diagnosis == Timed(d, logs, commits, parse)
    ensures d.abstained ==> res.verdicts == []
    ensures !d.abstained ==>
      && |res.verdicts| == |d.hypotheses|
      && forall i :: 0 <= i < |d.hypotheses| ==>
           && res.verdicts[i].cause == d.hypotheses[i].cause
           && (res.verdicts[i].supported <==>
                 !Impossible(d.hypotheses[i], FirstError(logs, parse), CommitTimes(commits, parse)))
  {
    if d.abstained {
      return Verifier.VerifierResult(d, []);
    }
    var first := FirstError(logs, parse);
    var times := CommitTimes(commits, parse);
    ghost var keep := Plausible(logs, commits, parse);
    var verdicts: seq<Verifier.Verdict> := [];
    var survivors: seq<Hypothesis> := [];
    for i := 0 to |d.hypotheses|
      invariant |verdicts| == i
      invariant forall j :: 0 <= j < i ==>
        && verdicts[j].cause == d.hypotheses[j].cause
        && (verdicts[j].supported <==> !Impossible(d.hypotheses[j], first, times))
      invariant survivors == Keep(d.hypotheses[..i], keep)
    {
      var hyp := d.hypotheses[i];
      KeepSnoc(d.hypotheses[..i], hyp, keep);
      assert d.hypotheses[..i + 1] == d.hypotheses[..i] + [hyp];
      if Impossible(hyp, first, times) {
        verdicts := verdicts + [Verifier.Verdict(hyp.cause, false, "a cause cannot follow its effect")];
      } else {
        verdicts := verdicts + [Verifier.Verdict(hyp.cause, true, "no timing objection")];
        survivors := survivors + [hyp];
      }
    }
    assert d.hypotheses[..|d.hypotheses|] == d.hypotheses;
    if survivors != [] {
      res := Verifier.VerifierResult(Diagnosis(d.summary, false, None, survivors, d.actions), verdicts);
    } else {
      res := Verifier.VerifierResult(Abstain(POSTDATED_ALL), verdicts);
    }
  }

  /** Exactly the hypotheses that are out of order are dropped: those that cite a dated commit
      while some dated error precedes every cited dated commit. */
  lemma TimedMeaning(d: Diagnosis, logs: seq<Row>, commits: seq<Row>, parse: Parser)
    requires d.Valid() && !d.abstained
    ensures var out := Timed(d, logs, commits, parse);
      && out.Valid()
      && Subsequence(out.hypotheses, d.hypotheses)
      && Cited(out) <= Cited(d)
      && forall h <- d.hypotheses :: h !in out.hypotheses <==>
           var cited := CitedTimes(h, CommitTimes(commits, parse));
           cited != {} && exists e <- ErrorTimes(logs, parse) :: forall t <- cited :: e < t
  {
    ReduceOnlyRemoves(d, Plausible(logs, commits, parse), POSTDATED_ALL);
    FirstErrorIsEarliest(logs, parse);
  }

  lemma TimedIdempotent(d: Diagnosis, logs: seq<Row>, commits: seq<Row>, parse: Parser)
    requires d.Valid()
    ensures Timed(Timed(d, logs, commits, parse), logs, commits, parse) == Timed(d, logs, commits, parse)
  {
    ReductionIdempotent(d, Plausible(logs, commits, parse), POSTDATED_ALL);
  }

  /** With an available examiner the two passes may run in either order: the results differ at
      most in the wording of an abstention reason. */
  lemma TimingAndSupportCommute(d: Diagnosis, sig: Signals, examiner: Verifier.Examiner, parse: Parser)
    requires d.Valid()
    requires forall h <- d.hypotheses :: Verifier.Answers(h, sig, examiner)
    ensures var timed := Timed(d, sig.logs, sig.commits, parse);
      var verified := Verifier.Verified(d, sig, examiner);
      && verified.Some?
      && Verifier.Verified(timed, sig, examiner).Some?
      && Verifier.Verified(timed, sig, examiner).value.Gist()
         == Timed(verified.value, sig.logs, sig.commits, parse).Gist()
  {
    var timed := Timed(d, sig.logs, sig.commits, parse);
    var plausible := Plausible(sig.logs, sig.commits, parse);
    if !d.abstained {
      KeepMembers(d.hypotheses, plausible);
    }
    ReductionsCommute(d, plausible, POSTDATED_ALL, h => Verifier.Supported(h, sig, examiner), Verifier.DROPPED_ALL);
  }

  /** Running timing first spares exactly the examining calls for out-of-order hypotheses: the
      combined pass is available iff every hypothesis timing leaves is answered. */
  lemma TimingSparesCalls(d: Diagnosis, sig: Signals, examiner: Verifier.Examiner, parse: Parser)
    requires d.Valid() && !d.abstained
    ensures Verifier.Verified(Timed(d, sig.logs, sig.commits, parse), sig, examiner).Some? <==>
      forall h <- d.hypotheses ::
        Impossible(h, FirstError(sig.logs, parse), CommitTimes(sig.commits, parse)) || Verifier.Answers(h, sig,
          examiner)
  {
    KeepMembers(d.hypotheses, Plausible(sig.logs, sig.commits, parse));
  }
}
