/** One investigation around the agent loop (src/quellgeist/orchestrator/investigate.py):
    the order of its writes, each of which may raise, and the terminal-state guard. */
module Investigation {
  import opened Wrappers
  import opened Evidence
  import opened Store
  import Verifier

  /** The points of the service's code at which a call into the store (or a provider factory)
      may raise. Each is passed at most once by a task. */
  datatype Stage =
    | SetRunningCall | RecordRunCall | RecordDiagnosisCall | RecordEvidenceCall | AppendOutcomeCall | SetPendingCall
    | FailRunCall | FailEventCall | FailStatusCall
    | LoadCall | ProviderCall | ReadCall | RunsCall | DiagnosisCall | ReviewCall | EventCall | PublishCall | StatusCall
    | RereadCall | DiscardCall
    | ClaimCall | SnapshotCall | UnclaimCall | ReceivedCall | RollbackCall

  /** What one investigation meets: a run id and start time, what the loop concludes (None when
      it raises), whether the full signals can be read, the pinned examiner if any, and the
      stages that raise. */
  datatype Env = Env(
    run: RunId,
    started: int,
    concludes: Option<Diagnosis>,
    readable: bool,
    examiner: Option<Verifier.Examiner>,
    faults: set<Stage>)
  {
    /** The loop only ever returns schema-valid diagnoses. */
    ghost predicate Valid() {
      concludes.Some? ==> concludes.value.Valid()
    }
  }

  /** What the guarded body holds once the diagnosis has been checked. */
  datatype Finding = Finding(diagnosis: Diagnosis, fabricated: set<Handle>, verified: Option<Diagnosis>)
  {
    function Outcome(): Outcome {
      if diagnosis.abstained then Abstained else Diagnosed
    }
  }

  datatype Pc =
    | SetRunning
    | Investigate
    | RecordRun(f: Finding)
    | RecordDiagnosis(f: Finding)
    | RecordEvidence(f: Finding)
    | AppendOutcome(f: Finding)
    | SetPending(f: Finding)
    | FailRun(diagnosis: Option<Diagnosis>)
    | FailEvent(diagnosis: Option<Diagnosis>)
    | FailStatus
    | Finished(ok: bool)
  {
    function Rank(): nat {
      match this
      case SetRunning => 10 case Investigate => 9 case RecordRun(_) => 8 case RecordDiagnosis(_) => 7
      case RecordEvidence(_) => 6 case AppendOutcome(_) => 5 case SetPending(_) => 4
      case FailRun(_) => 3 case FailEvent(_) => 2 case FailStatus => 1 case Finished(_) => 0
    }
  }

  /** `_run_verifier`: no pinned examiner and an unavailable one both leave the run unverified. */
  function RunVerifier(d: Diagnosis, sig: Signals, examiner: Option<Verifier.Examiner>): Option<Diagnosis> {
    if examiner.None? then None else Verifier.Verified(d, sig, examiner.value)
  }

  /** Continue at `next` with the write in place, or fall into the failure path. */
  function Guarded(written: Option<Db>, db: Db, next: Pc, fallback: Pc): (Pc, Db) {
    if written.Some? then (next, written.value) else (fallback, db)
  }

  function Step(env: Env, id: IncidentId, pc: Pc, db: Db): (r: (Pc, Db))
    requires !pc.Finished?
    ensures r.0.Rank() < pc.Rank()
  {
    match pc
    case SetRunning =>
      Guarded(Try(SetRunningCall in env.faults, SetIncidentStatus(db, id, Running)), db, Investigate, FailRun(None))
    case Investigate =>
      if env.concludes.None? then (FailRun(None), db)
      else if !env.readable then (FailRun(env.concludes), db)
      else
        var d, sig := env.concludes.value, db.Reads(id);
        (RecordRun(Finding(d, Fabricated(d, sig), RunVerifier(d, sig, env.examiner))), db)
    case RecordRun(f) =>
      Guarded(Try(RecordRunCall in env.faults,
                  Store.RecordRun(db, env.run, Run(id, env.started, f.Outcome(), Checked(f.fabricated)))),
              db, RecordDiagnosis(f), FailRun(Some(f.diagnosis)))
    case RecordDiagnosis(f) =>
      Guarded(Try(RecordDiagnosisCall in env.faults,
                  Store.RecordDiagnosis(db, env.run, DiagnosisRow(f.diagnosis, f.verified, None))),
              db, RecordEvidence(f), FailRun(Some(f.diagnosis)))
    case RecordEvidence(f) =>
      Guarded(Try(RecordEvidenceCall in env.faults, Store.RecordEvidence(db, env.run, f.diagnosis)),
              db, AppendOutcome(f), FailRun(Some(f.diagnosis)))
    case AppendOutcome(f) =>
      Guarded(Try(AppendOutcomeCall in env.faults, AppendEvent(db, Event(id, Some(env.run), Concluded(f.Outcome())))),
              db, SetPending(f), FailRun(Some(f.diagnosis)))
    case SetPending(f) =>
      Guarded(Try(SetPendingCall in env.faults, SetIncidentStatus(db, id, PendingReview)),
              db, Finished(true), FailRun(Some(f.diagnosis)))
    case FailRun(d) =>
      (FailEvent(d), OrElse(Try(FailRunCall in env.faults,
                                Store.RecordRun(db, env.run, Run(id, env.started, RunFailed, Unchecked))), db))
    case FailEvent(d) =>
      (FailStatus, OrElse(Try(FailEventCall in env.faults, AppendEvent(db, Event(id, Some(env.run), FailedWith(d)))),
        db))
    case FailStatus =>
      (Finished(false), OrElse(Try(FailStatusCall in env.faults, SetIncidentStatus(db, id, Failed)), db))
  }

  /** The investigation run to its end without interference. */
  function Finish(env: Env, id: IncidentId, pc: Pc, db: Db): (r: (bool, Db))
    decreases pc.Rank()
  {
    if pc.Finished? then (pc.ok, db)
    else var next := Step(env, id, pc, db); Finish(env, id, next.0, next.1)
  }

  // --- the code -----------------------------------------------------------------------

  /** `_persist_failed`: three writes, each guarded on its own so that one failing still lets
      the others run. */
  method PersistFailed(disk: Disk, id: IncidentId, env: Env, diagnosis: Option<Diagnosis>)
    modifies disk
    ensures (false, disk.Value()) == Finish(env, id, FailRun(diagnosis), old(disk.Value()))
  {
    for op := 0 to 3
      invariant Finish(env, id, FailRun(diagnosis), old(disk.Value())) ==
        Finish(env, id, if op == 0 then FailRun(diagnosis) else if op == 1 then FailEvent(diagnosis)
                        else if op == 2 then FailStatus else Finished(false), disk.Value())
    {
      Unfold(env, id, if op == 0 then FailRun(diagnosis) else if op == 1 then FailEvent(diagnosis) else FailStatus,
        disk.Value());
      var ok;
      match op {
        case 0 => ok := disk.InsertRun(env.run, Run(id, env.started, RunFailed, Unchecked), FailRunCall in env.faults);
        case 1 => ok := disk.Append(Event(id, Some(env.run), FailedWith(diagnosis)), FailEventCall in env.faults);
        case _ => ok := disk.SetStatus(id, Failed, FailStatusCall in env.faults);
      }
    }
  }

  /** The writes that record a finding, up to the first that raises. */
  method RecordFinding(disk: Disk, id: IncidentId, env: Env, f: Finding) returns (ok: bool)
    modifies disk
    ensures Finish(env, id, RecordRun(f), old(disk.Value())) ==
            Finish(env, id, if ok then SetPending(f) else FailRun(Some(f.diagnosis)), disk.Value())
  {
    ok := disk.InsertRun(env.run, Run(id, env.started, f.Outcome(), Checked(f.fabricated)),
      RecordRunCall in env.faults);
    if !ok { return; }
    ok := disk.InsertDiagnosis(env.run, DiagnosisRow(f.diagnosis, f.verified, None), RecordDiagnosisCall in env.faults);
    if !ok { return; }
    assert Finish(env, id, RecordRun(f), old(disk.Value())) == Finish(env, id, RecordEvidence(f), disk.Value());
    ok := disk.InsertEvidence(env.run, f.diagnosis, RecordEvidenceCall in env.faults);
    if !ok { return; }
    assert Finish(env, id, RecordRun(f), old(disk.Value())) == Finish(env, id, AppendOutcome(f), disk.Value());
    ok := disk.Append(Event(id, Some(env.run), Concluded(f.Outcome())), AppendOutcomeCall in env.faults);
  }

  /** The guarded body of `investigate`: returns false at the first raise, together with the
      diagnosis if the loop had produced one. */
  method Body(disk: Disk, id: IncidentId, env: Env) returns (ok: bool, diagnosis: Option<Diagnosis>)
    modifies disk
    ensures Finish(env, id, SetRunning, old(disk.Value())) ==
            Finish(env, id, if ok then Finished(true) else FailRun(diagnosis), disk.Value())
  {
    diagnosis := None;
    ok := disk.SetStatus(id, Running, SetRunningCall in env.faults);
    if !ok { return; }
    if env.concludes.None? { return false, None; }
    diagnosis := env.concludes;
    if !env.readable { return false, diagnosis; }
    var d := diagnosis.value;
    var sig := if id in disk.dirs then disk.dirs[id].signals else NO_SIGNALS;
    var fabricated := CheckFabrication(d, sig);
    var f := Finding(d, fabricated, RunVerifier(d, sig, env.examiner));
    assert Finish(env, id, SetRunning, old(disk.Value())) == Finish(env, id, RecordRun(f), disk.Value());
    ok := RecordFinding(disk, id, env, f);
    if !ok { return; }
    ok := disk.SetStatus(id, PendingReview, SetPendingCall in env.faults);
  }

  /** `investigate`: whatever raises in the body degrades to the failure path. */
  method RunInvestigation(disk: Disk, id: IncidentId, env: Env) returns (ok: bool)
    modifies disk
    ensures (ok, disk.Value()) == Finish(env, id, SetRunning, old(disk.Value()))
  {
    var diagnosis;
    ok, diagnosis := Body(disk, id, env);
    if !ok {
      PersistFailed(disk, id, env, diagnosis);
    }
  }

  lemma Unfold(env: Env, id: IncidentId, pc: Pc, db: Db)
    requires !pc.Finished?
    ensures Finish(env, id, pc, db) == Finish(env, id, Step(env, id, pc, db).0, Step(env, id, pc, db).1)
  {
  }

  // --- the terminal-state guarantee -----------------------------------------------------

  /** A completed investigation left a run with the citation check of what it concluded. */
  ghost predicate Recorded(env: Env, id: IncidentId, db: Db, sig: Signals) {
    && env.concludes.Some?
    && var d := env.concludes.value;
    && env.run in db.runs && db.runs[env.run].incident == id
    && db.runs[env.run].outcome == (if d.abstained then Abstained else Diagnosed)
    && db.runs[env.run].fabricated == Checked(Fabricated(d, sig))
    && env.run in db.diagnoses && db.diagnoses[env.run].diagnosis == d
    && db.diagnoses[env.run].verified == RunVerifier(d, sig, env.examiner)
    && EvidenceRows(env.run, d) <= db.evidence
  }

  lemma {:induction false} FailureEnds(env: Env, id: IncidentId, diagnosis: Option<Diagnosis>, db: Db)
    requires id in db.incidents
    ensures var (ok, db') := Finish(env, id, FailRun(diagnosis), db);
      && !ok
      && (FailStatusCall !in env.faults ==> db'.StatusIs(id, Failed))
      && (FailEventCall !in env.faults ==> Event(id, Some(env.run), FailedWith(diagnosis)) in db'.events)
      && id in db'.incidents
  {
    var afterRun := Step(env, id, FailRun(diagnosis), db).1;
    var afterEvent := Step(env, id, FailEvent(diagnosis), afterRun).1;
    assert Finish(env, id, FailRun(diagnosis), db) == Finish(env, id, FailStatus, afterEvent);
    assert Finish(env, id, FailStatus, afterEvent) == (false, Step(env, id, FailStatus, afterEvent).1);
  }

  /** How the recording of a finding ends. */
  ghost predicate RecordedOr(env: Env, id: IncidentId, sig: Signals, ok: bool, end: Db) {
    if ok then end.StatusIs(id, PendingReview) && Recorded(env, id, end, sig)
    else
      && (FailStatusCall !in env.faults ==> end.StatusIs(id, Failed))
      && (FailEventCall !in env.faults ==> Event(id, Some(env.run), FailedWith(env.concludes)) in end.events)
  }

  lemma ConcludingEnds(env: Env, id: IncidentId, f: Finding, db: Db, sig: Signals)
    requires id in db.incidents && env.concludes == Some(f.diagnosis) && Recorded(env, id, db, sig)
    ensures var (ok, db') := Finish(env, id, AppendOutcome(f), db); RecordedOr(env, id, sig, ok, db')
  {
    var (pc1, db1) := Step(env, id, AppendOutcome(f), db);
    Unfold(env, id, AppendOutcome(f), db);
    if pc1.FailRun? { FailureEnds(env, id, Some(f.diagnosis), db1); return; }
    var (pc2, db2) := Step(env, id, SetPending(f), db1);
    Unfold(env, id, SetPending(f), db1);
    if pc2.FailRun? { FailureEnds(env, id, Some(f.diagnosis), db2); return; }
  }

  lemma RecordingEnds(env: Env, id: IncidentId, f: Finding, db: Db, sig: Signals)
    requires id in db.incidents && env.concludes == Some(f.diagnosis)
    requires f == Finding(f.diagnosis, Fabricated(f.diagnosis, sig), RunVerifier(f.diagnosis, sig, env.examiner))
    ensures var (ok, db') := Finish(env, id, RecordRun(f), db); RecordedOr(env, id, sig, ok, db')
  {
    var (pc1, db1) := Step(env, id, RecordRun(f), db);
    Unfold(env, id, RecordRun(f), db);
    if pc1.FailRun? {
      FailureEnds(env, id, Some(f.diagnosis), db1);
    } else {
      DiagnosisEnds(env, id, f, db1, sig);
    }
  }

  lemma DiagnosisEnds(env: Env, id: IncidentId, f: Finding, db: Db, sig: Signals)
    requires id in db.incidents && env.concludes == Some(f.diagnosis)
    requires f == Finding(f.diagnosis, Fabricated(f.diagnosis, sig), RunVerifier(f.diagnosis, sig, env.examiner))
    requires env.run in db.runs && db.runs[env.run] == Run(id, env.started, f.Outcome(), Checked(f.fabricated))
    ensures var (ok, db') := Finish(env, id, RecordDiagnosis(f), db); RecordedOr(env, id, sig, ok, db')
  {
    var (pc1, db1) := Step(env, id, RecordDiagnosis(f), db);
    Unfold(env, id, RecordDiagnosis(f), db);
    if pc1.FailRun? { FailureEnds(env, id, Some(f.diagnosis), db1); return; }
    var (pc2, db2) := Step(env, id, RecordEvidence(f), db1);
    Unfold(env, id, RecordEvidence(f), db1);
    if pc2.FailRun? { FailureEnds(env, id, Some(f.diagnosis), db2); return; }
    ConcludingEnds(env, id, f, db2, sig);
  }

  /** However the investigation goes, the incident leaves 'running': for 'pending_review' with
      everything recorded, or, unless that one write is itself swallowed, for 'failed', the
      diagnosis, if there was one, kept in the event log. */
  lemma TerminalGuarantee(env: Env, id: IncidentId, db: Db)
    requires id in db.incidents
    ensures var (ok, db') := Finish(env, id, SetRunning, db);
      if ok then db'.StatusIs(id, PendingReview) && Recorded(env, id, db', db.Reads(id))
      else
        && (FailStatusCall !in env.faults ==> db'.StatusIs(id, Failed))
        && (FailEventCall !in env.faults && env.concludes.Some? && SetRunningCall !in env.faults ==>
              Event(id, Some(env.run), FailedWith(env.concludes)) in db'.events)
  {
    var (pc1, db1) := Step(env, id, SetRunning, db);
    if pc1.FailRun? { FailureEnds(env, id, None, db1); return; }
    var (pc2, db2) := Step(env, id, Investigate, db1);
    assert Finish(env, id, SetRunning, db) == Finish(env, id, pc2, db2);
    if pc2.FailRun? { FailureEnds(env, id, pc2.diagnosis, db2); return; }
    RecordingEnds(env, id, pc2.f, db2, db.Reads(id));
  }

  // --- exactly what an investigation leaves ------------------------------------------------

  /** The loop concluded and the first status write held, so there is something to record. */
  predicate Reaches(env: Env) {
    env.concludes.Some? && env.readable && SetRunningCall !in env.faults
  }

  predicate RecordsRun(env: Env) {
    Reaches(env) && RecordRunCall !in env.faults
  }

  /** The four writes that follow the run row. */
  predicate Completes(env: Env) {
    env.faults !! {RecordDiagnosisCall, RecordEvidenceCall, AppendOutcomeCall, SetPendingCall}
  }

  function Concluding(env: Env, id: IncidentId, sig: Signals): Run
    requires env.concludes.Some?
  {
    var d := env.concludes.value;
    Run(id, env.started, if d.abstained then Abstained else Diagnosed, Checked(Fabricated(d, sig)))
  }

  /** The run rows afterwards: the conclusion's own row where it was written, even when a later
      write raised; otherwise the failed row, unless that write raised as well. */
  function RunsAfter(env: Env, id: IncidentId, db: Db): map<RunId, Run> {
    if RecordsRun(env) then db.runs[env.run := Concluding(env, id, db.Reads(id))]
    else if FailRunCall in env.faults then db.runs
    else db.runs[env.run := Run(id, env.started, RunFailed, Unchecked)]
  }

  function StatusAfter(env: Env, before: Status): Status {
    if RecordsRun(env) && Completes(env) then PendingReview
    else if FailStatusCall !in env.faults then Failed
    else if SetRunningCall in env.faults then before
    else Running
  }

  /** The run rows as they were; the status of a tail that completes, or that of a failure. */
  ghost predicate TailDone(env: Env, id: IncidentId, db: Db, end: Db, completes: bool)
    requires id in db.incidents
  {
    && end.runs == db.runs
    && end.StatusIs(id, if completes then PendingReview
                        else if FailStatusCall in env.faults then db.incidents[id].status else Failed)
  }

  lemma FailStatusLeaves(env: Env, id: IncidentId, db: Db, end: Db)
    requires id in db.incidents && end == Finish(env, id, FailStatus, db).1
    ensures TailDone(env, id, db, end, false)
  {
    Unfold(env, id, FailStatus, db);
  }

  lemma EventStep(env: Env, id: IncidentId, pc: Pc, db: Db)
    requires pc.FailEvent? || pc.AppendOutcome?
    ensures var (after, next) := Step(env, id, pc, db);
      && next.incidents == db.incidents && next.runs == db.runs
      && (pc.FailEvent? ==> after == FailStatus)
      && (pc.AppendOutcome? && AppendOutcomeCall in env.faults ==> after == FailRun(Some(pc.f.diagnosis)))
      && (pc.AppendOutcome? && AppendOutcomeCall !in env.faults ==> after == SetPending(pc.f))
  {
  }

  lemma EvidenceStep(env: Env, id: IncidentId, f: Finding, db: Db)
    requires env.run in db.runs
    ensures var (after, next) := Step(env, id, RecordEvidence(f), db);
      && next.incidents == db.incidents && next.runs == db.runs
      && after == (if RecordEvidenceCall in env.faults then FailRun(Some(f.diagnosis)) else AppendOutcome(f))
  {
  }

  lemma FailRunStep(env: Env, id: IncidentId, diagnosis: Option<Diagnosis>, db: Db)
    requires id in db.incidents
    ensures var (after, next) := Step(env, id, FailRun(diagnosis), db);
      && after == FailEvent(diagnosis) && next.incidents == db.incidents
      && next.runs == (if FailRunCall in env.faults || env.run in db.runs then db.runs
                       else db.runs[env.run := Run(id, env.started, RunFailed, Unchecked)])
  {
  }

  lemma FailEventLeaves(env: Env, id: IncidentId, diagnosis: Option<Diagnosis>, db: Db, end: Db)
    requires id in db.incidents && end == Finish(env, id, FailEvent(diagnosis), db).1
    ensures TailDone(env, id, db, end, false)
  {
    EventStep(env, id, FailEvent(diagnosis), db);
    Unfold(env, id, FailEvent(diagnosis), db);
    FailStatusLeaves(env, id, Step(env, id, FailEvent(diagnosis), db).1, end);
  }

  lemma FailureLeaves(env: Env, id: IncidentId, diagnosis: Option<Diagnosis>, db: Db, end: Db)
    requires id in db.incidents && end == Finish(env, id, FailRun(diagnosis), db).1
    ensures end.StatusIs(id, if FailStatusCall in env.faults then db.incidents[id].status else Failed)
    ensures end.runs == (if FailRunCall in env.faults || env.run in db.runs then db.runs
                         else db.runs[env.run := Run(id, env.started, RunFailed, Unchecked)])
    ensures env.run in db.runs ==> TailDone(env, id, db, end, false)
  {
    FailRunStep(env, id, diagnosis, db);
    Unfold(env, id, FailRun(diagnosis), db);
    FailEventLeaves(env, id, diagnosis, Step(env, id, FailRun(diagnosis), db).1, end);
  }

  lemma PendingLeaves(env: Env, id: IncidentId, f: Finding, db: Db, end: Db)
    requires id in db.incidents && env.run in db.runs && end == Finish(env, id, SetPending(f), db).1
    ensures TailDone(env, id, db, end, SetPendingCall !in env.faults)
  {
    var (pc, next) := Step(env, id, SetPending(f), db);
    Unfold(env, id, SetPending(f), db);
    if pc.FailRun? { FailureLeaves(env, id, Some(f.diagnosis), next, end); }
  }

  lemma OutcomeLeaves(env: Env, id: IncidentId, f: Finding, db: Db, end: Db)
    requires id in db.incidents && env.run in db.runs && end == Finish(env, id, AppendOutcome(f), db).1
    ensures TailDone(env, id, db, end, AppendOutcomeCall !in env.faults && SetPendingCall !in env.faults)
  {
    var next := Step(env, id, AppendOutcome(f), db).1;
    EventStep(env, id, AppendOutcome(f), db);
    Unfold(env, id, AppendOutcome(f), db);
    if AppendOutcomeCall in env.faults {
      FailureLeaves(env, id, Some(f.diagnosis), next, end);
    } else {
      PendingLeaves(env, id, f, next, end);
    }
  }

  lemma EvidenceLeaves(env: Env, id: IncidentId, f: Finding, db: Db, end: Db)
    requires id in db.incidents && env.run in db.runs && end == Finish(env, id, RecordEvidence(f), db).1
    ensures TailDone(env, id, db, end,
              RecordEvidenceCall !in env.faults && AppendOutcomeCall !in env.faults && SetPendingCall !in env.faults)
  {
    var next := Step(env, id, RecordEvidence(f), db).1;
    EvidenceStep(env, id, f, db);
    Unfold(env, id, RecordEvidence(f), db);
    if RecordEvidenceCall in env.faults {
      FailureLeaves(env, id, Some(f.diagnosis), next, end);
    } else {
      OutcomeLeaves(env, id, f, next, end);
    }
  }

  /** The tail of the guarded body, once the run row is written. */
  lemma TailLeaves(env: Env, id: IncidentId, f: Finding, db: Db, end: Db)
    requires id in db.incidents && env.run in db.runs && env.run !in db.diagnoses
    requires end == Finish(env, id, RecordDiagnosis(f), db).1
    ensures TailDone(env, id, db, end, Completes(env))
  {
    var (pc, next) := Step(env, id, RecordDiagnosis(f), db);
    Unfold(env, id, RecordDiagnosis(f), db);
    if pc.FailRun? {
      FailureLeaves(env, id, Some(f.diagnosis), next, end);
    } else {
      EvidenceLeaves(env, id, f, next, end);
    }
  }

  lemma RunLeaves(env: Env, id: IncidentId, f: Finding, db: Db, end: Db)
    requires id in db.incidents && env.run !in db.runs && env.run !in db.diagnoses
    requires end == Finish(env, id, RecordRun(f), db).1
    ensures end.StatusIs(id, if RecordRunCall !in env.faults && Completes(env) then PendingReview
                             else if FailStatusCall in env.faults then db.incidents[id].status else Failed)
    ensures end.runs ==
      if RecordRunCall !in env.faults
      then db.runs[env.run := Run(id, env.started, f.Outcome(), Checked(f.fabricated))]
      else if FailRunCall in env.faults then db.runs
      else db.runs[env.run := Run(id, env.started, RunFailed, Unchecked)]
  {
    var (pc, next) := Step(env, id, RecordRun(f), db);
    Unfold(env, id, RecordRun(f), db);
    if pc.FailRun? {
      FailureLeaves(env, id, Some(f.diagnosis), next, end);
    } else {
      TailLeaves(env, id, f, next, end);
    }
  }

  /** For every choice of calls that raise: the run rows and the status an investigation with
      a new run id leaves behind. */
  lemma InvestigationLeaves(env: Env, id: IncidentId, db: Db, end: Db)
    requires id in db.incidents && env.run !in db.runs && env.run !in db.diagnoses
    requires end == Finish(env, id, SetRunning, db).1
    ensures end.runs == RunsAfter(env, id, db)
    ensures end.StatusIs(id, StatusAfter(env, db.incidents[id].status))
  {
    var (pc1, db1) := Step(env, id, SetRunning, db);
    Unfold(env, id, SetRunning, db);
    if pc1.FailRun? { FailureLeaves(env, id, None, db1, end); return; }
    var (pc2, db2) := Step(env, id, Investigate, db1);
    Unfold(env, id, Investigate, db1);
    if pc2.FailRun? { FailureLeaves(env, id, pc2.diagnosis, db2, end); return; }
    RunLeaves(env, id, pc2.f, db2, end);
  }

  /** The incident reads 'failed' while its run kept the outcome it was recorded with. */
  predicate RecordsDisagree(env: Env, id: IncidentId, db: Db) {
    db.StatusIs(id, Failed) && env.run in db.runs && db.runs[env.run].outcome != RunFailed
  }

  /** The two records disagree exactly when the run row was written, one of the four writes
      after it raised, and the 'failed' status could still be written. */
  lemma DisagreeExactly(env: Env, id: IncidentId, db: Db, end: Db)
    requires id in db.incidents && !db.StatusIs(id, Failed)
    requires env.run !in db.runs && env.run !in db.diagnoses
    requires end == Finish(env, id, SetRunning, db).1
    ensures RecordsDisagree(env, id, end) <==>
      && env.concludes.Some? && env.readable
      && env.faults !! {SetRunningCall, RecordRunCall, FailStatusCall}
      && !(env.faults !! {RecordDiagnosisCall, RecordEvidenceCall, AppendOutcomeCall, SetPendingCall})
  {
    InvestigationLeaves(env, id, db, end);
  }

  /** An incident stays stuck at 'running' exactly when something raised after that was written
      and the last write of the failure path raised as well. */
  lemma StuckExactly(env: Env, id: IncidentId, db: Db, end: Db)
    requires id in db.incidents && !db.StatusIs(id, Running)
    requires env.run !in db.runs && env.run !in db.diagnoses
    requires end == Finish(env, id, SetRunning, db).1
    ensures end.StatusIs(id, Running) <==>
      && SetRunningCall !in env.faults && FailStatusCall in env.faults
      && (env.concludes.None? || !env.readable || RecordRunCall in env.faults || !Completes(env))
  {
    InvestigationLeaves(env, id, db, end);
  }

  /** The promised degradation, a failed incident with a failed run, is met exactly when nothing
      was concluded or recorded and neither of the two failure writes is swallowed. */
  lemma DegradesExactly(env: Env, id: IncidentId, db: Db, end: Db)
    requires id in db.incidents && !db.StatusIs(id, Failed)
    requires env.run !in db.runs && env.run !in db.diagnoses
    requires end == Finish(env, id, SetRunning, db).1
    ensures end.StatusIs(id, Failed) && env.run in end.runs && end.runs[env.run].outcome == RunFailed <==>
      && env.faults !! {FailRunCall, FailStatusCall}
      && (env.concludes.None? || !env.readable || SetRunningCall in env.faults || RecordRunCall in env.faults)
  {
    InvestigationLeaves(env, id, db, end);
  }

  /** The records do come apart: when only the last write raises, the run of a failed incident
      says 'diagnosed' and carries its citation check. */
  lemma FailedYetDiagnosed(env: Env, id: IncidentId, db: Db, end: Db)
    requires id in db.incidents && env.run !in db.runs && env.run !in db.diagnoses
    requires env.faults == {SetPendingCall} && env.concludes.Some? && !env.concludes.value.abstained && env.readable
    requires end == Finish(env, id, SetRunning, db).1
    ensures end.StatusIs(id, Failed)
    ensures env.run in end.runs && end.runs[env.run].outcome == Diagnosed
      && end.runs[env.run].fabricated == Checked(Fabricated(env.concludes.value, db.Reads(id)))
  {
    InvestigationLeaves(env, id, db, end);
    assert SetPendingCall in env.faults;
  }

  // --- exactly what it logs -------------------------------------------------------------------------

  /** The failure event, unless that write raises as well. */
  function FailureEvents(env: Env, id: IncidentId, diagnosis: Option<Diagnosis>): seq<Event> {
    if FailEventCall in env.faults then [] else [Event(id, Some(env.run), FailedWith(diagnosis))]
  }

  /** The diagnoses and the evidence as they are, and these events more. */
  ghost predicate Logged(db: Db, end: Db, more: seq<Event>) {
    end.diagnoses == db.diagnoses && end.evidence == db.evidence && end.events == db.events + more
  }

  lemma FailureLogs(env: Env, id: IncidentId, diagnosis: Option<Diagnosis>, db: Db, end: Db)
    requires end == Finish(env, id, FailRun(diagnosis), db).1
    ensures Logged(db, end, FailureEvents(env, id, diagnosis))
  {
    var db1 := Step(env, id, FailRun(diagnosis), db).1;
    Unfold(env, id, FailRun(diagnosis), db);
    FailEventLogs(env, id, diagnosis, db1, end);
  }

  lemma FailEventLogs(env: Env, id: IncidentId, diagnosis: Option<Diagnosis>, db: Db, end: Db)
    requires end == Finish(env, id, FailEvent(diagnosis), db).1
    ensures Logged(db, end, FailureEvents(env, id, diagnosis))
  {
    Unfold(env, id, FailEvent(diagnosis), db);
    FailStatusLogs(env, id, Step(env, id, FailEvent(diagnosis), db).1, end);
  }

  lemma FailStatusLogs(env: Env, id: IncidentId, db: Db, end: Db)
    requires end == Finish(env, id, FailStatus, db).1
    ensures Logged(db, end, [])
  {
    Unfold(env, id, FailStatus, db);
  }

  lemma PendingLogs(env: Env, id: IncidentId, f: Finding, db: Db, end: Db)
    requires end == Finish(env, id, SetPending(f), db).1
    ensures Logged(db, end, if SetPendingCall in env.faults then FailureEvents(env, id, Some(f.diagnosis)) else [])
  {
    var (pc, next) := Step(env, id, SetPending(f), db);
    Unfold(env, id, SetPending(f), db);
    if pc.FailRun? {
      FailureLogs(env, id, Some(f.diagnosis), next, end);
    }
  }

  lemma OutcomeLogs(env: Env, id: IncidentId, f: Finding, db: Db, end: Db)
    requires end == Finish(env, id, AppendOutcome(f), db).1
    ensures Logged(db, end,
              (if AppendOutcomeCall in env.faults then [] else [Event(id, Some(env.run), Concluded(f.Outcome()))])
              + if env.faults !! {AppendOutcomeCall, SetPendingCall} then []
                else FailureEvents(env, id, Some(f.diagnosis)))
  {
    var next := Step(env, id, AppendOutcome(f), db).1;
    Unfold(env, id, AppendOutcome(f), db);
    if AppendOutcomeCall in env.faults {
      FailureLogs(env, id, Some(f.diagnosis), next, end);
      assert [] + FailureEvents(env, id, Some(f.diagnosis)) == FailureEvents(env, id, Some(f.diagnosis));
    } else {
      PendingLogs(env, id, f, next, end);
    }
  }

  /** The run row, and then the writes after it, up to the first that raises. */
  predicate Writes(env: Env, calls: set<Stage>) {
    RecordsRun(env) && env.faults !! calls
  }

  function DiagnosesAfter(env: Env, id: IncidentId, db: Db): map<RunId, DiagnosisRow> {
    if !Writes(env, {RecordDiagnosisCall}) then db.diagnoses
    else
      var d := env.concludes.value;
      db.diagnoses[env.run := DiagnosisRow(d, RunVerifier(d, db.Reads(id), env.examiner), None)]
  }

  function EvidenceAfter(env: Env, db: Db): set<(RunId, nat, Handle)> {
    if !Writes(env, {RecordDiagnosisCall, RecordEvidenceCall}) then db.evidence
    else db.evidence + EvidenceRows(env.run, env.concludes.value)
  }

  /** The conclusion's event, where it was written; and the failure's, with the diagnosis if the
      loop was reached and concluded, where anything raised. */
  function EventsAfter(env: Env, id: IncidentId, db: Db): seq<Event> {
    db.events
    + (if Writes(env, {RecordDiagnosisCall, RecordEvidenceCall, AppendOutcomeCall})
       then [Event(id, Some(env.run), Concluded(if env.concludes.value.abstained then Abstained else Diagnosed))]
       else [])
    + if RecordsRun(env) && Completes(env) then []
      else FailureEvents(env, id, if SetRunningCall in env.faults then None else env.concludes)
  }

  lemma EvidenceLogs(env: Env, id: IncidentId, f: Finding, db: Db, end: Db)
    requires env.run in db.runs && end == Finish(env, id, RecordEvidence(f), db).1
    ensures end.diagnoses == db.diagnoses
    ensures end.evidence ==
      if RecordEvidenceCall in env.faults then db.evidence else db.evidence + EvidenceRows(env.run, f.diagnosis)
    ensures end.events == db.events
      + (if RecordEvidenceCall in env.faults || AppendOutcomeCall in env.faults then []
         else [Event(id, Some(env.run), Concluded(f.Outcome()))])
      + if env.faults !! {RecordEvidenceCall, AppendOutcomeCall, SetPendingCall} then []
        else FailureEvents(env, id, Some(f.diagnosis))
  {
    var next := Step(env, id, RecordEvidence(f), db).1;
    EvidenceStep(env, id, f, db);
    EvidenceStepLogs(env, id, f, db);
    Unfold(env, id, RecordEvidence(f), db);
    if RecordEvidenceCall in env.faults {
      FailureLogs(env, id, Some(f.diagnosis), next, end);
    } else {
      OutcomeLogs(env, id, f, next, end);
    }
  }

  lemma EvidenceStepLogs(env: Env, id: IncidentId, f: Finding, db: Db)
    requires env.run in db.runs
    ensures var next := Step(env, id, RecordEvidence(f), db).1;
      && next.diagnoses == db.diagnoses && next.events == db.events
      && next.evidence == if RecordEvidenceCall in env.faults then db.evidence
                          else db.evidence + EvidenceRows(env.run, f.diagnosis)
  {
  }

  lemma DiagnosisLogs(env: Env, id: IncidentId, f: Finding, db: Db, end: Db)
    requires env.run in db.runs && env.run !in db.diagnoses && end == Finish(env, id, RecordDiagnosis(f), db).1
    ensures end.diagnoses ==
      if RecordDiagnosisCall in env.faults then db.diagnoses
      else db.diagnoses[env.run := DiagnosisRow(f.diagnosis, f.verified, None)]
    ensures end.evidence ==
      if !(env.faults !! {RecordDiagnosisCall, RecordEvidenceCall}) then db.evidence
      else db.evidence + EvidenceRows(env.run, f.diagnosis)
    ensures end.events == db.events
      + (if env.faults !! {RecordDiagnosisCall, RecordEvidenceCall, AppendOutcomeCall}
         then [Event(id, Some(env.run), Concluded(f.Outcome()))] else [])
      + if Completes(env) then [] else FailureEvents(env, id, Some(f.diagnosis))
  {
    var next := Step(env, id, RecordDiagnosis(f), db).1;
    DiagnosisStep(env, id, f, db);
    Unfold(env, id, RecordDiagnosis(f), db);
    if RecordDiagnosisCall in env.faults {
      FailureLogs(env, id, Some(f.diagnosis), next, end);
    } else {
      EvidenceLogs(env, id, f, next, end);
    }
  }

  lemma DiagnosisStep(env: Env, id: IncidentId, f: Finding, db: Db)
    requires env.run in db.runs && env.run !in db.diagnoses
    ensures Step(env, id, RecordDiagnosis(f), db) ==
      if RecordDiagnosisCall in env.faults then (FailRun(Some(f.diagnosis)), db)
      else (RecordEvidence(f),
            db.(diagnoses := db.diagnoses[env.run := DiagnosisRow(f.diagnosis, f.verified, None)]))
  {
  }

  lemma RunStep(env: Env, id: IncidentId, f: Finding, db: Db)
    requires id in db.incidents && env.run !in db.runs
    ensures Step(env, id, RecordRun(f), db) ==
      if RecordRunCall in env.faults then (FailRun(Some(f.diagnosis)), db)
      else (RecordDiagnosis(f),
            db.(runs := db.runs[env.run := Run(id, env.started, f.Outcome(), Checked(f.fabricated))]))
  {
  }

  /** What the writes from the run row on leave in the three tables. */
  ghost predicate FindingLogged(env: Env, id: IncidentId, f: Finding, db: Db, end: Db) {
    && end.diagnoses == (if env.faults !! {RecordRunCall, RecordDiagnosisCall}
                         then db.diagnoses[env.run := DiagnosisRow(f.diagnosis, f.verified, None)] else db.diagnoses)
    && end.evidence == (if env.faults !! {RecordRunCall, RecordDiagnosisCall, RecordEvidenceCall}
                        then db.evidence + EvidenceRows(env.run, f.diagnosis) else db.evidence)
    && end.events == db.events
         + (if env.faults !! {RecordRunCall, RecordDiagnosisCall, RecordEvidenceCall, AppendOutcomeCall}
            then [Event(id, Some(env.run), Concluded(f.Outcome()))] else [])
         + if RecordRunCall !in env.faults && Completes(env) then []
           else FailureEvents(env, id, Some(f.diagnosis))
  }

  lemma RunLogs(env: Env, id: IncidentId, f: Finding, db: Db, end: Db)
    requires id in db.incidents && env.run !in db.runs && env.run !in db.diagnoses
    requires end == Finish(env, id, RecordRun(f), db).1
    ensures FindingLogged(env, id, f, db, end)
  {
    var next := Step(env, id, RecordRun(f), db).1;
    RunStep(env, id, f, db);
    Unfold(env, id, RecordRun(f), db);
    if RecordRunCall in env.faults {
      FailureLogs(env, id, Some(f.diagnosis), next, end);
      assert db.events + FailureEvents(env, id, Some(f.diagnosis))
          == db.events + [] + FailureEvents(env, id, Some(f.diagnosis));
    } else {
      DiagnosisLogs(env, id, f, next, end);
    }
  }

  lemma ReachStep(env: Env, id: IncidentId, db: Db, f: Finding)
    requires Reaches(env)
    requires f == Finding(env.concludes.value, Fabricated(env.concludes.value, db.Reads(id)),
                          RunVerifier(env.concludes.value, db.Reads(id), env.examiner))
    ensures Step(env, id, Investigate, db) == (RecordRun(f), db)
  {
  }

  lemma EarlyLogs(env: Env, id: IncidentId, db: Db, end: Db)
    requires !Reaches(env) && end == Finish(env, id, SetRunning, db).1
    ensures Logged(db, end, FailureEvents(env, id, if SetRunningCall in env.faults then None else env.concludes))
  {
    var (pc1, db1) := Step(env, id, SetRunning, db);
    Unfold(env, id, SetRunning, db);
    if SetRunningCall in env.faults {
      FailureLogs(env, id, None, db1, end);
    } else {
      Unfold(env, id, Investigate, db1);
      FailureLogs(env, id, env.concludes, db1, end);
    }
  }

  /** The diagnosis row, the evidence rows and the events that an investigation with a new run id
      leaves behind, for every choice of calls that raise. */
  lemma InvestigationLogs(env: Env, id: IncidentId, db: Db, end: Db)
    requires id in db.incidents && env.run !in db.runs && env.run !in db.diagnoses
    requires end == Finish(env, id, SetRunning, db).1
    ensures end.diagnoses == DiagnosesAfter(env, id, db) && end.evidence == EvidenceAfter(env, db)
    ensures end.events == EventsAfter(env, id, db)
  {
    if Reaches(env) {
      var d, db1 := env.concludes.value, Step(env, id, SetRunning, db).1;
      var f := Finding(d, Fabricated(d, db.Reads(id)), RunVerifier(d, db.Reads(id), env.examiner));
      Unfold(env, id, SetRunning, db);
      ReachStep(env, id, db1, f);
      Unfold(env, id, Investigate, db1);
      RunLogs(env, id, f, db1, end);
    } else {
      EarlyLogs(env, id, db, end);
      assert db.events + [] == db.events;
    }
  }
}
