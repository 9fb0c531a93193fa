/** The diagnosis contract and the deterministic citation check
    (src/quellgeist/agent/schema.py, src/quellgeist/agent/citations.py). */
module Evidence {
  import opened Wrappers

  /** A JSON value as it occurs in a signal row. */
  datatype Val = Null | Int(i: int) | Str(s: string) | List(items: seq<Row>)

  /** A signal row: a log row, a commit, a metric series or one of its points. */
  type Row = map<string, Val>

  datatype Kind = LogKind | CommitKind | MetricKind

  /** A membership handle such as `("log", 3)` or `("commit", "a1b2c3d")`. */
  datatype Handle = Handle(kind: Kind, key: Val)

  /** What one incident's signal directory holds, uncapped. */
  datatype Signals = Signals(logs: seq<Row>, commits: seq<Row>, metrics: seq<Row>)

  const NO_SIGNALS := Signals([], [], [])

  datatype Ref =
    | LogRef(id: int, note: string)
    | CommitRef(sha: string, note: string)
    | MetricRef(metric: string, note: string)
  {
    function Key(): Handle {
      match this
      case LogRef(id, _) => Handle(LogKind, Int(id))
      case CommitRef(sha, _) => Handle(CommitKind, Str(sha))
      case MetricRef(metric, _) => Handle(MetricKind, Str(metric))
    }
  }

  datatype Hypothesis = Hypothesis(cause: string, confidence: real, evidence: seq<Ref>)
  {
    predicate Valid() {
      0.0 <= confidence <= 1.0 && evidence != []
    }
  }

  datatype Diagnosis = Diagnosis(
    summary: string,
    abstained: bool,
    reason: Option<string>,
    hypotheses: seq<Hypothesis>,
    actions: seq<string>)
  {
    /** The schema's field constraints and its abstention invariant. */
    predicate Valid() {
      && (forall h <- hypotheses :: h.Valid())
      && if abstained then reason.Some? && reason.value != "" && hypotheses == [] else hypotheses != []
    }

    /** Every field but the wording of the abstention reason. */
    function Gist(): Diagnosis {
      this.(reason := None)
    }
  }

  function Abstain(reason: string): Diagnosis {
    Diagnosis("", true, Some(reason), [], [])
  }

  function CitedBy(h: Hypothesis): set<Handle> {
    set r <- h.evidence :: r.Key()
  }

  function Cited(d: Diagnosis): set<Handle> {
    set h <- d.hypotheses, k <- CitedBy(h) :: k
  }

  /** The handles `(kind, row[key])` of the rows that carry `key`. */
  function Keyed(rows: seq<Row>, kind: Kind, key: string): set<Handle> {
    set r <- rows | key in r :: Handle(kind, r[key])
  }

  function RealHandles(sig: Signals): set<Handle> {
    Keyed(sig.logs, LogKind, "id") + Keyed(sig.commits, CommitKind, "sha") + Keyed(sig.metrics, MetricKind, "metric")
  }

  function Fabricated(d: Diagnosis, sig: Signals): set<Handle> {
    Cited(d) - RealHandles(sig)
  }

  /** `real_signal_handles`: one pass over each of the three sources. */
  method RealSignalHandles(logs: seq<Row>, commits: seq<Row>, metrics: seq<Row>) returns (handles: set<Handle>)
    ensures handles == RealHandles(Signals(logs, commits, metrics))
  {
    handles := {};
    for i := 0 to |logs|
      invariant handles == Keyed(logs[..i], LogKind, "id")
    {
      if "id" in logs[i] {
        handles := handles + {Handle(LogKind, logs[i]["id"])};
      }
    }
    assert logs[..|logs|] == logs;
    for i := 0 to |commits|
      invariant handles == Keyed(logs, LogKind, "id") + Keyed(commits[..i], CommitKind, "sha")
    {
      if "sha" in commits[i] {
        handles := handles + {Handle(CommitKind, commits[i]["sha"])};
      }
    }
    assert commits[..|commits|] == commits;
    for i := 0 to |metrics|
      invariant handles == Keyed(logs, LogKind, "id") + Keyed(commits, CommitKind, "sha")
                           + Keyed(metrics[..i], MetricKind, "metric")
    {
      if "metric" in metrics[i] {
        handles := handles + {Handle(MetricKind, metrics[i]["metric"])};
      }
    }
    assert metrics[..|metrics|] == metrics;
  }

  /** `check_fabrication` over the full signal set, fail-closed. */
  method CheckFabrication(d: Diagnosis, sig: Signals) returns (fabricated: set<Handle>)
    ensures fabricated == {} <==> Cited(d) <= RealHandles(sig)
    ensures fabricated <= Cited(d) && fabricated !! RealHandles(sig)
    ensures fabricated == Fabricated(d, sig)
  {
    var known := RealSignalHandles(sig.logs, sig.commits, sig.metrics);
    fabricated := Cited(d) - known;
    assert forall h <- Cited(d) :: h in fabricated || h in known;
  }

  // --- reductions: what every verification pass does to a diagnosis -----------------

  /** The sub-list of the hypotheses that satisfy `keep`, in order. */
  function Keep(hs: seq<Hypothesis>, keep: Hypothesis -> bool): (r: seq<Hypothesis>) {
    if hs == [] then [] else (if keep(hs[0]) then [hs[0]] else []) + Keep(hs[1..], keep)
  }

  /** Drop the hypotheses that fail `keep`; abstain with `reason` when none survives. */
  function Reduce(d: Diagnosis, keep: Hypothesis -> bool, reason: string): Diagnosis {
    if d.abstained then d
    else
      var survivors := Keep(d.hypotheses, keep);
      if survivors != [] then Diagnosis(d.summary, false, None, survivors, d.actions) else Abstain(reason)
  }

  /** `a` is obtained from `b` by deleting elements: strictly increasing positions of `b` spell `a`. */
  ghost predicate Subsequence<T>(a: seq<T>, b: seq<T>) {
    exists at: seq<nat> :: Spells(a, b, at)
  }

  ghost predicate Spells<T>(a: seq<T>, b: seq<T>, at: seq<nat>) {
    && |at| == |a|
    && (forall i :: 0 <= i < |at| ==> at[i] < |b| && a[i] == b[at[i]])
    && (forall i, j :: 0 <= i < j < |at| ==> at[i] < at[j])
  }

  lemma {:induction false} KeepMembers(hs: seq<Hypothesis>, keep: Hypothesis -> bool)
    ensures forall h :: h in Keep(hs, keep) <==> h in hs && keep(h)
  {
    if hs != [] {
      KeepMembers(hs[1..], keep);
      assert hs == [hs[0]] + hs[1..];
    }
  }

  lemma SubsequenceCons<T>(x: T, a: seq<T>, b: seq<T>)
    requires Subsequence(a, b)
    ensures Subsequence(a, [x] + b) && Subsequence([x] + a, [x] + b)
  {
    var at :| Spells(a, b, at);
    var up := seq(|at|, i requires 0 <= i < |at| => at[i] + 1);
    assert Spells(a, [x] + b, up);
    assert Spells([x] + a, [x] + b, [0] + up);
  }

  lemma {:induction false} KeepIsSubsequence(hs: seq<Hypothesis>, keep: Hypothesis -> bool)
    ensures Subsequence(Keep(hs, keep), hs)
  {
    if hs == [] {
      assert Spells(Keep(hs, keep), hs, []);
    } else {
      KeepIsSubsequence(hs[1..], keep);
      var rest := Keep(hs[1..], keep);
      SubsequenceCons(hs[0], rest, hs[1..]);
      assert hs == [hs[0]] + hs[1..];
      assert Keep(hs, keep) == if keep(hs[0]) then [hs[0]] + rest else rest;
    }
  }

  lemma {:induction false} KeepSnoc(hs: seq<Hypothesis>, h: Hypothesis, keep: Hypothesis -> bool)
    ensures Keep(hs + [h], keep) == Keep(hs, keep) + (if keep(h) then [h] else [])
  {
    if hs != [] {
      assert (hs + [h])[1..] == hs[1..] + [h];
      KeepSnoc(hs[1..], h, keep);
    }
  }

  lemma {:induction false} KeepTwice(hs: seq<Hypothesis>, k1: Hypothesis -> bool, k2: Hypothesis -> bool)
    ensures Keep(Keep(hs, k1), k2) == Keep(hs, h => k1(h) && k2(h))
  {
    if hs != [] {
      KeepTwice(hs[1..], k1, k2);
      if k1(hs[0]) {
        assert Keep(hs, k1)[1..] == Keep(hs[1..], k1);
      } else {
        assert Keep(hs, k1) == Keep(hs[1..], k1);
      }
    }
  }

  lemma {:induction false} KeepSame(hs: seq<Hypothesis>, k1: Hypothesis -> bool, k2: Hypothesis -> bool)
    requires forall h <- hs :: k1(h) == k2(h)
    ensures Keep(hs, k1) == Keep(hs, k2)
  {
    if hs != [] {
      KeepSame(hs[1..], k1, k2);
    }
  }

  /** A reduction only removes: well-formedness is kept, and nothing new is cited. */
  lemma ReduceOnlyRemoves(d: Diagnosis, keep: Hypothesis -> bool, reason: string)
    requires d.Valid() && reason != ""
    ensures Reduce(d, keep, reason).Valid()
    ensures Subsequence(Reduce(d, keep, reason).hypotheses, d.hypotheses)
    ensures Cited(Reduce(d, keep, reason)) <= Cited(d)
    ensures !d.abstained ==> forall h :: h in Reduce(d, keep, reason).hypotheses <==> h in d.hypotheses && keep(h)
  {
    KeepMembers(d.hypotheses, keep);
    KeepIsSubsequence(d.hypotheses, keep);
    if d.abstained || Keep(d.hypotheses, keep) == [] {
      assert Spells(Reduce(d, keep, reason).hypotheses, d.hypotheses, []);
    }
  }

  /** Two reductions commute, up to the wording of the abstention reason. */
  lemma ReductionsCommute(d: Diagnosis, k1: Hypothesis -> bool, r1: string, k2: Hypothesis -> bool, r2: string)
    ensures Reduce(Reduce(d, k1, r1), k2, r2).Gist() == Reduce(Reduce(d, k2, r2), k1, r1).Gist()
  {
    KeepTwice(d.hypotheses, k1, k2);
    KeepTwice(d.hypotheses, k2, k1);
    KeepSame(d.hypotheses, h => k1(h) && k2(h), h => k2(h) && k1(h));
  }

  lemma ReductionIdempotent(d: Diagnosis, keep: Hypothesis -> bool, reason: string)
    requires d.abstained || d.hypotheses != []
    ensures Reduce(Reduce(d, keep, reason), keep, reason) == Reduce(d, keep, reason)
  {
    KeepTwice(d.hypotheses, keep, keep);
    KeepSame(d.hypotheses, h => keep(h) && keep(h), keep);
  }
}
