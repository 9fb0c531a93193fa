/** The support verifier (src/quellgeist/agent/verifier.py). The reviewing model is an
    arbitrary function of the hypothesis and its resolved evidence; it may be unavailable. */
module Verifier {
  import opened Wrappers
  import opened Evidence

  /** One cited handle together with the signal row it resolves to, if any. */
  datatype Resolved = Resolved(handle: Handle, row: Option<Row>)

  datatype Reply = Unavailable | Unparseable | NotBoolean | Says(supported: bool, reason: string)

  type Examiner = (Hypothesis, seq<Resolved>) -> Reply

  datatype Verdict = Verdict(cause: string, supported: bool, reason: string)

  datatype VerifierResult = VerifierResult(diagnosis: Diagnosis, verdicts: seq<Verdict>)

  const DROPPED_ALL := "verifier dropped all hypotheses: no cited evidence supported a cause"

  /** A lookup table keyed by `key`: a later row replaces an earlier one. */
  function Index(rows: seq<Row>, key: string): (table: map<Val, Row>) {
    if rows == [] then map[]
    else
      var last := rows[|rows| - 1];
      var rest := Index(rows[..|rows| - 1], key);
      if key in last then rest[last[key] := last] else rest
  }

  function Lookup(sig: Signals, h: Handle): Option<Row> {
    var table := match h.kind
      case LogKind => Index(sig.logs, "id")
      case CommitKind => Index(sig.commits, "sha")
      case MetricKind => Index(sig.metrics, "metric");
    if h.key in table then Some(table[h.key]) else None
  }

  function Resolve(h: Hypothesis, sig: Signals): (rows: seq<Resolved>) {
    seq(|h.evidence|, i requires 0 <= i < |h.evidence| =>
      Resolved(h.evidence[i].Key(), Lookup(sig, h.evidence[i].Key())))
  }

  predicate Grounded(h: Hypothesis, sig: Signals) {
    exists r <- Resolve(h, sig) :: r.row.Some?
  }

  /** The hypothesis survives: some cited handle is real and the examiner says `true`. */
  predicate Supported(h: Hypothesis, sig: Signals, examiner: Examiner) {
    Grounded(h, sig) && var reply := examiner(h, Resolve(h, sig)); reply.Says? && reply.supported
  }

  predicate Answers(h: Hypothesis, sig: Signals, examiner: Examiner) {
    Grounded(h, sig) ==> !examiner(h, Resolve(h, sig)).Unavailable?
  }

  /** The verified diagnosis, or None when an examining call the pass needs is unavailable. */
  function Verified(d: Diagnosis, sig: Signals, examiner: Examiner): Option<Diagnosis> {
    if !d.abstained && exists h <- d.hypotheses :: !Answers(h, sig, examiner) then None
    else Some(Reduce(d, h => Supported(h, sig, examiner), DROPPED_ALL))
  }

  lemma {:induction false} IndexKeys(rows: seq<Row>, key: string)
    ensures forall v :: v in Index(rows, key) <==> exists r <- rows :: key in r && r[key] == v
    ensures forall v <- Index(rows, key) :: key in Index(rows, key)[v] && Index(rows, key)[v][key] == v
    ensures forall v <- Index(rows, key) :: Index(rows, key)[v] in rows
  {
    if rows != [] {
      IndexKeys(rows[..|rows| - 1], key);
      assert rows == rows[..|rows| - 1] + [rows[|rows| - 1]];
    }
  }

  /** The last row that carries the key with this value. */
  ghost predicate LastWith(rows: seq<Row>, key: string, v: Val, row: Row) {
    exists i :: 0 <= i < |rows| && rows[i] == row && key in row && row[key] == v
      && forall j :: i < j < |rows| ==> !(key in rows[j] && rows[j][key] == v)
  }

  lemma {:induction false} IndexIsLast(rows: seq<Row>, key: string, v: Val)
    ensures v in Index(rows, key) ==> LastWith(rows, key, v, Index(rows, key)[v])
    ensures v !in Index(rows, key) ==> forall i :: 0 <= i < |rows| ==> !(key in rows[i] && rows[i][key] == v)
  {
    if rows != [] {
      var n := |rows| - 1;
      IndexIsLast(rows[..n], key, v);
      if key in rows[n] && rows[n][key] == v {
        assert rows[n] == Index(rows, key)[v];
      } else if v in Index(rows[..n], key) {
        var row := Index(rows[..n], key)[v];
        var i :| 0 <= i < n && rows[..n][i] == row && key in row && row[key] == v
          && forall j :: i < j < n ==> !(key in rows[..n][j] && rows[..n][j][key] == v);
        assert rows[i] == row;
        assert forall j :: i < j < |rows| ==> !(key in rows[j] && rows[j][key] == v) by {
          forall j | i < j < |rows| ensures !(key in rows[j] && rows[j][key] == v) {
            if j < n { assert rows[..n][j] == rows[j]; }
          }
        }
      } else {
        forall i | 0 <= i < |rows| ensures !(key in rows[i] && rows[i][key] == v) {
          if i < n { assert rows[..n][i] == rows[i]; }
        }
      }
    }
  }

  lemma LastIsOne(rows: seq<Row>, key: string, v: Val, one: Row, other: Row)
    requires LastWith(rows, key, v, one) && LastWith(rows, key, v, other)
    ensures one == other
  {
  }

  /** The row that a cited handle stands for. */
  ghost predicate StandsFor(sig: Signals, h: Handle, row: Row) {
    match h.kind
    case LogKind => LastWith(sig.logs, "id", h.key, row)
    case CommitKind => LastWith(sig.commits, "sha", h.key, row)
    case MetricKind => LastWith(sig.metrics, "metric", h.key, row)
  }

  /** A handle resolves to the last row of its source that carries it, and to nothing if none does. */
  lemma LookupIsLast(sig: Signals, h: Handle, row: Row)
    ensures Lookup(sig, h) == Some(row) <==> StandsFor(sig, h, row)
  {
    var (rows, key) := match h.kind
      case LogKind => (sig.logs, "id")
      case CommitKind => (sig.commits, "sha")
      case MetricKind => (sig.metrics, "metric");
    IndexIsLast(rows, key, h.key);
    if StandsFor(sig, h, row) {
      assert LastWith(rows, key, h.key, row);
      LastIsOne(rows, key, h.key, Index(rows, key)[h.key], row);
    }
  }

  /** What the examiner is to be shown for a hypothesis: one entry for each of its references, in
      order, with the handle and the row it stands for, or none where it stands for none. */
  ghost predicate Shows(h: Hypothesis, sig: Signals, entries: seq<Resolved>) {
    && |entries| == |h.evidence|
    && forall i :: 0 <= i < |entries| ==> ShowsRef(h.evidence[i], sig, entries[i])
  }

  ghost predicate ShowsRef(ref: Ref, sig: Signals, entry: Resolved) {
    var handle := match ref
      case LogRef(id, _) => Handle(LogKind, Int(id))
      case CommitRef(sha, _) => Handle(CommitKind, Str(sha))
      case MetricRef(metric, _) => Handle(MetricKind, Str(metric));
    && entry.handle == handle
    && if entry.row.Some? then StandsFor(sig, handle, entry.row.value)
       else forall row :: !StandsFor(sig, handle, row)
  }

  lemma ShowsRefIsLookup(ref: Ref, sig: Signals, entry: Resolved)
    ensures ShowsRef(ref, sig, entry) <==> entry == Resolved(ref.Key(), Lookup(sig, ref.Key()))
  {
    var found := Lookup(sig, ref.Key());
    if found.Some? {
      LookupIsLast(sig, ref.Key(), found.value);
    }
    if entry.row.Some? {
      LookupIsLast(sig, ref.Key(), entry.row.value);
    } else {
      forall row ensures found == Some(row) <==> StandsFor(sig, ref.Key(), row) {
        LookupIsLast(sig, ref.Key(), row);
      }
    }
  }

  /** And that is what it is shown, nothing else. */
  lemma ResolveShows(h: Hypothesis, sig: Signals, entries: seq<Resolved>)
    ensures Shows(h, sig, entries) <==> entries == Resolve(h, sig)
  {
    forall i | 0 <= i < |h.evidence| && i < |entries|
      ensures ShowsRef(h.evidence[i], sig, entries[i]) <==> entries[i] == Resolve(h, sig)[i]
    {
      ShowsRefIsLookup(h.evidence[i], sig, entries[i]);
    }
    if Shows(h, sig, entries) {
      assert forall i :: 0 <= i < |entries| ==> entries[i] == Resolve(h, sig)[i];
    }
  }

  ghost predicate SomeFound(entries: seq<Resolved>) {
    exists i :: 0 <= i < |entries| && entries[i].row.Some?
  }

  ghost predicate CannotTell(h: Hypothesis, entries: seq<Resolved>, examiner: Examiner) {
    SomeFound(entries) && examiner(h, entries) == Unavailable
  }

  ghost predicate SaysTrue(h: Hypothesis, entries: seq<Resolved>, examiner: Examiner) {
    SomeFound(entries) && exists reason :: examiner(h, entries) == Says(true, reason)
  }

  /** What becomes of a hypothesis whose references stand for these entries: unavailable if some
      entry has a row and the examiner cannot be reached; supported if some entry has a row and the
      examiner, shown exactly the hypothesis and the entries, says `true`. */
  lemma SupportMeans(h: Hypothesis, sig: Signals, examiner: Examiner, entries: seq<Resolved>)
    requires Shows(h, sig, entries)
    ensures !Answers(h, sig, examiner) <==> CannotTell(h, entries, examiner)
    ensures Supported(h, sig, examiner) <==> SaysTrue(h, entries, examiner)
  {
    ResolveShows(h, sig, entries);
  }

  /** A handle resolves exactly when the citation check calls it real, and to a row that carries it,
      the last of its source that does. */
  lemma LookupIsReal(sig: Signals, h: Handle)
    ensures Lookup(sig, h).Some? <==> h in RealHandles(sig)
    ensures Lookup(sig, h).Some? ==> StandsFor(sig, h, Lookup(sig, h).value)
  {
    IndexKeys(sig.logs, "id");
    IndexKeys(sig.commits, "sha");
    IndexKeys(sig.metrics, "metric");
    if Lookup(sig, h).Some? {
      LookupIsLast(sig, h, Lookup(sig, h).value);
    }
  }

  lemma GroundedIsReal(h: Hypothesis, sig: Signals)
    ensures Grounded(h, sig) <==> CitedBy(h) * RealHandles(sig) != {}
  {
    forall r <- h.evidence { LookupIsReal(sig, r.Key()); }
    if Grounded(h, sig) {
      var i :| 0 <= i < |Resolve(h, sig)| && Resolve(h, sig)[i].row.Some?;
      assert h.evidence[i].Key() in CitedBy(h) * RealHandles(sig);
    }
    if k :| k in CitedBy(h) * RealHandles(sig) {
      var i :| 0 <= i < |h.evidence| && h.evidence[i].Key() == k;
      assert Resolve(h, sig)[i].row.Some?;
    }
  }

  /** What verification promises: a well-formed diagnosis whose hypotheses are exactly the
      supported ones, in the original order, citing nothing new; every survivor cites at
      least one real signal. */
  lemma VerifiedOnlyRemoves(d: Diagnosis, sig: Signals, examiner: Examiner)
    requires d.Valid() && Verified(d, sig, examiner).Some?
    ensures Verified(d, sig, examiner).value.Valid()
    ensures Cited(Verified(d, sig, examiner).value) <= Cited(d)
    ensures Subsequence(Verified(d, sig, examiner).value.hypotheses, d.hypotheses)
    ensures !d.abstained ==> forall h :: h in Verified(d, sig, examiner).value.hypotheses <==>
              h in d.hypotheses && Supported(h, sig, examiner)
    ensures forall h <- Verified(d, sig, examiner).value.hypotheses :: CitedBy(h) * RealHandles(sig) != {}
  {
    ReduceOnlyRemoves(d, h => Supported(h, sig, examiner), DROPPED_ALL);
    forall h <- Verified(d, sig, examiner).value.hypotheses
      ensures CitedBy(h) * RealHandles(sig) != {}
    {
      GroundedIsReal(h, sig);
    }
  }

  /** The verdict on one hypothesis; an ungrounded one costs no examining call. */
  method VerdictFor(hyp: Hypothesis, sig: Signals, examiner: Examiner) returns (verdict: Option<Verdict>)
    ensures verdict.None? <==> !Answers(hyp, sig, examiner)
    ensures verdict.Some? ==>
      verdict.value.cause == hyp.cause && verdict.value.supported == Supported(hyp, sig, examiner)
    ensures forall entries :: Shows(hyp, sig, entries) ==> (verdict.None? <==> CannotTell(hyp, entries, examiner))
    ensures forall entries :: Shows(hyp, sig, entries) && verdict.Some? ==>
      (verdict.value.supported <==> SaysTrue(hyp, entries, examiner))
  {
    forall entries | Shows(hyp, sig, entries)
      ensures !Answers(hyp, sig, examiner) <==> CannotTell(hyp, entries, examiner)
      ensures Supported(hyp, sig, examiner) <==> SaysTrue(hyp, entries, examiner)
    {
      SupportMeans(hyp, sig, examiner, entries);
    }
    var rows := Resolve(hyp, sig);
    if !exists r <- rows :: r.row.Some? {
      return Some(Verdict(hyp.cause, false, "no cited evidence resolved to a real signal"));
    }
    match examiner(hyp, rows) {
      case Unavailable => return None;
      case Unparseable => return Some(Verdict(hyp.cause, false, "unparseable verifier reply"));
      case NotBoolean => return Some(Verdict(hyp.cause, false, "verifier did not return a boolean 'supported'"));
      case Says(supported, reason) => return Some(Verdict(hyp.cause, supported, reason));
    }
  }

  /** `verify`: one pass over the hypotheses, consulting the examiner only for grounded ones. */
  method Verify(d: Diagnosis, sig: Signals, examiner: Examiner) returns (res: Option<VerifierResult>)
    ensures res.None? <==> Verified(d, sig, examiner).None?
    ensures res.Some? ==> res.value.diagnosis == Verified(d, sig, examiner).value
    ensures res.Some? && d.abstained ==> res.value.verdicts == []
    ensures res.Some? && !d.abstained ==>
      && |res.value.verdicts| == |d.hypotheses|
      && forall i :: 0 <= i < |d.hypotheses| ==>
           && res.value.verdicts[i].cause == d.hypotheses[i].cause
           && res.value.verdicts[i].supported == Supported(d.hypotheses[i], sig, examiner)
    ensures res.Some? && !d.abstained ==>
      forall i, entries :: 0 <= i < |d.hypotheses| && Shows(d.hypotheses[i], sig, entries) ==>
        (res.value.verdicts[i].supported <==> SaysTrue(d.hypotheses[i], entries, examiner))
  {
    forall h, entries | Shows(h, sig, entries) ensures Supported(h, sig, examiner) <==> SaysTrue(h, entries, examiner) {
      SupportMeans(h, sig, examiner, entries);
    }
    if d.abstained {
      return Some(VerifierResult(d, []));
    }
    var verdicts: seq<Verdict> := [];
    var survivors: seq<Hypothesis> := [];
    ghost var keep := h => Supported(h, sig, examiner);
    for i := 0 to |d.hypotheses|
      invariant |verdicts| == i
      invariant forall j :: 0 <= j < i ==>
        && Answers(d.hypotheses[j], sig, examiner)
        && verdicts[j].cause == d.hypotheses[j].cause
        && verdicts[j].supported == Supported(d.hypotheses[j], sig, examiner)
      invariant survivors == Keep(d.hypotheses[..i], keep)
    {
      var hyp := d.hypotheses[i];
      KeepSnoc(d.hypotheses[..i], hyp, keep);
      assert d.hypotheses[..i + 1] == d.hypotheses[..i] + [hyp];
      var judged := VerdictFor(hyp, sig, examiner);
      if judged.None? {
        assert !Answers(hyp, sig, examiner);
        return None;
      }
      var verdict := judged.value;
      verdicts := verdicts + [verdict];
      if verdict.supported {
        survivors := survivors + [hyp];
      }
    }
    assert d.hypotheses[..|d.hypotheses|] == d.hypotheses;
    if survivors != [] {
      res := Some(VerifierResult(Diagnosis(d.summary, false, None, survivors, d.actions), verdicts));
    } else {
      res := Some(VerifierResult(Abstain(DROPPED_ALL), verdicts));
    }
  }
}
