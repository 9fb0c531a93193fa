/** Every step of every task keeps the world in order and its own assertion true, and touches
    nothing of other incidents. */
module StepSafety {
  import opened Wrappers
  import opened Evidence
  import opened Store
  import opened Ingress
  import opened Protocol
  import opened WorldSafety
  import Inv = Investigation
  import Review
  import Verifier

  ghost predicate Kept(w: World, w': World, id: IncidentId) {
    WorldOk(w') && Frame(w, w', id) && Respects(w, w')
  }

  /** The history variables change for `id` at most, and acceptance not at all. */
  ghost predicate Near(w: World, w': World, id: IncidentId) {
    && w'.accepted == w.accepted
    && w.lost <= w'.lost <= w.lost + {id}
    && w.disturbed <= w'.disturbed <= w.disturbed + {id}
  }

  /** The parts of the world's order that a step on `x` can affect. */
  ghost predicate OkAt(w: World, w': World, x: IncidentId) {
    && RowOk(w', x) && RespectsAt(w, w', x)
    && (NoRuns(w.db, x) || w'.db.Base(x) == w.db.Base(x))
    && (x in w'.db.incidents || NoRuns(w'.db, x))
  }

  lemma SoundStays(db: Db, db': Db, r: RunId, x: IncidentId)
    requires r in db.diagnoses && Sound(db, r) && Grows(db, db', x)
    requires db'.Base(db.runs[r].incident) == db.Base(db.runs[r].incident)
    ensures Sound(db', r)
  {
  }

  /** A step on `x` that is in order at `x` is in order everywhere. */
  lemma Assembled(w: World, w': World, x: IncidentId)
    requires WorldOk(w) && Frame(w, w', x) && OkAt(w, w', x)
    requires forall r <- w'.db.diagnoses :: r in w.db.diagnoses || Sound(w'.db, r)
    requires w'.db.published == w.db.published
             || var p := w'.db.published[|w.db.published|]; Publishable(w'.db, p.incident, p.run, p.diagnosis)
    ensures Kept(w, w', x)
  {
    forall id ensures RowOk(w', id) && RespectsAt(w, w', id) {
      assert id != x ==> SameAt(w, w', id) && RowOk(w, id);
    }
    forall r <- w'.db.runs ensures w'.db.runs[r].incident in w'.db.incidents {
      assert w'.db.runs[r].incident != x ==> SameAt(w, w', w'.db.runs[r].incident);
    }
    forall r <- w'.db.diagnoses ensures Sound(w'.db, r) {
      if r in w.db.diagnoses {
        assert Sound(w.db, r);
        assert w.db.runs[r].incident != x ==> SameAt(w, w', w.db.runs[r].incident);
        SoundStays(w.db, w'.db, r, x);
      }
    }
    forall p <- w'.db.published ensures Publishable(w'.db, p.incident, p.run, p.diagnosis) {
      if p in w.db.published {
        assert Publishable(w.db, p.incident, p.run, p.diagnosis);
      }
    }
  }

  // --- one lemma per kind of write ------------------------------------------------------------

  lemma NoWrite(w: World, w': World, id: IncidentId)
    requires WorldOk(w) && Near(w, w', id) && w'.db == w.db
    ensures Kept(w, w', id)
  {
    assert RowOk(w, id);
    Assembled(w, w', id);
  }

  /** Only bookkeeping columns and tables change. */
  lemma LogWrite(w: World, w': World, id: IncidentId)
    requires WorldOk(w) && Near(w, w', id)
    requires w'.db == w.db.(events := w'.db.events, evidence := w'.db.evidence)
    ensures Kept(w, w', id)
  {
    assert RowOk(w, id);
    Assembled(w, w', id);
  }

  lemma StatusWrite(w: World, w': World, id: IncidentId, status: Status)
    requires WorldOk(w) && Near(w, w', id)
    requires id in w.db.incidents && !w.db.incidents[id].status.Terminal()
    requires w'.db == w.db || w'.db == SetIncidentStatus(w.db, id, status).value
    ensures Kept(w, w', id)
  {
    assert RowOk(w, id);
    if w'.db == w.db {
      NoWrite(w, w', id);
    } else {
      Assembled(w, w', id);
    }
  }

  lemma RunWrite(w: World, w': World, id: IncidentId, r: RunId, row: Run)
    requires WorldOk(w) && Near(w, w', id)
    requires row.incident == id
    requires w'.db == w.db || (RecordRun(w.db, r, row).Some? && w'.db == RecordRun(w.db, r, row).value)
    ensures Kept(w, w', id)
  {
    assert RowOk(w, id);
    if w'.db == w.db {
      NoWrite(w, w', id);
    } else {
      Assembled(w, w', id);
    }
  }

  lemma DiagnosisWrite(w: World, w': World, id: IncidentId, r: RunId, f: Inv.Finding)
    requires WorldOk(w) && Near(w, w', id)
    requires r in w.db.runs && w.db.runs[r].incident == id && w.db.runs[r].fabricated == Checked(f.fabricated)
    requires FindingOk(w.db, id, f)
    requires var written := RecordDiagnosis(w.db, r, DiagnosisRow(f.diagnosis, f.verified, None));
      w'.db == w.db || (written.Some? && w'.db == written.value)
    ensures Kept(w, w', id)
  {
    assert RowOk(w, id);
    if w'.db == w.db {
      NoWrite(w, w', id);
    } else {
      Assembled(w, w', id);
    }
  }

  /** A review decision touches neither what was diagnosed nor what was verified. */
  lemma ReviewGrows(db: Db, db': Db, id: IncidentId, r: RunId, decision: Decision)
    requires db' == SetReview(db, r, decision).value
    ensures Grows(db, db', id) && db'.diagnoses.Keys == db.diagnoses.Keys && db' == db.(diagnoses := db'.diagnoses)
  {
  }

  lemma ReviewWrite(w: World, w': World, id: IncidentId, r: RunId, decision: Decision)
    requires WorldOk(w) && Near(w, w', id)
    requires w'.db == w.db || w'.db == SetReview(w.db, r, decision).value
    ensures Kept(w, w', id)
  {
    assert RowOk(w, id);
    if w'.db == w.db {
      NoWrite(w, w', id);
    } else {
      ReviewGrows(w.db, w'.db, id, r, decision);
      Assembled(w, w', id);
    }
  }

  lemma Published(w: World, w': World, id: IncidentId, r: RunId, d: Diagnosis)
    requires WorldOk(w) && Near(w, w', id)
    requires Publishable(w.db, id, r, d) && (w'.db == w.db || w'.db == Emit(w.db, Publication(id, r, d)))
    ensures Kept(w, w', id)
  {
    assert RowOk(w, id);
    if w'.db == w.db {
      NoWrite(w, w', id);
    } else {
      Assembled(w, w', id);
    }
  }

  lemma DirDiscarded(w: World, w': World, id: IncidentId)
    requires WorldOk(w) && Near(w, w', id)
    requires id in w.db.incidents ==> w.db.incidents[id].status.Terminal()
    requires w'.db == w.db || w'.db == DiscardSnapshot(w.db, id)
    ensures Kept(w, w', id)
  {
    assert RowOk(w, id);
    if w'.db == w.db {
      NoWrite(w, w', id);
    } else {
      Assembled(w, w', id);
    }
  }

  lemma RowClaimed(w: World, w': World, id: IncidentId, row: Incident)
    requires WorldOk(w) && Near(w, w', id)
    requires CreateIncident(w.db, id, row).Some? && w'.db == CreateIncident(w.db, id, row).value
    ensures Kept(w, w', id)
  {
    assert RowOk(w, id);
    Assembled(w, w', id);
  }

  lemma DirTaken(w: World, w': World, id: IncidentId, source: Dir)
    requires WorldOk(w) && Near(w, w', id)
    requires NoRuns(w.db, id) && id !in w.accepted
    requires SnapshotSignals(w.db, id, source).Some? && w'.db == SnapshotSignals(w.db, id, source).value
    ensures Kept(w, w', id)
  {
    assert RowOk(w, id);
    Assembled(w, w', id);
  }

  lemma RowDeleted(w: World, w': World, id: IncidentId)
    requires WorldOk(w) && Near(w, w', id)
    requires id in w.db.incidents && !w.db.incidents[id].status.Terminal() && id !in w.accepted
    requires DeleteIncident(w.db, id).Some? && w'.db == DeleteIncident(w.db, id).value
    ensures Kept(w, w', id)
  {
    assert RowOk(w, id);
    Assembled(w, w', id);
  }

  lemma NowAccepted(w: World, w': World, id: IncidentId)
    requires WorldOk(w) && w' == w.(accepted := w.accepted + {id})
    requires id in w.db.incidents && id in w.db.dirs
    ensures Kept(w, w', id)
  {
    assert RowOk(w, id);
    Assembled(w, w', id);
  }

  // --- one lemma per kind of task ---------------------------------------------------------------

  lemma InvestigatedStep(w: World, w': World, id: IncidentId, env: Inv.Env, steered: bool)
    requires WorldOk(w) && Near(w, w', id)
    requires env.Valid() && InvOk(w.db, id, env, Inv.Investigate, steered)
    requires w'.db == Inv.Step(env, id, Inv.Investigate, w.db).1
    ensures Kept(w, w', id) && InvOk(w'.db, id, env, Inv.Step(env, id, Inv.Investigate, w.db).0, steered)
  {
    NoWrite(w, w', id);
    assert RowOk(w, id);
    if env.concludes.Some? && env.readable && env.examiner.Some? {
      var d, sig := env.concludes.value, w.db.Reads(id);
      if Verifier.Verified(d, sig, env.examiner.value).Some? {
        Verifier.VerifiedOnlyRemoves(d, sig, env.examiner.value);
      }
    }
  }

  lemma RecordingStep(w: World, w': World, id: IncidentId, env: Inv.Env, pc: Inv.Pc, steered: bool)
    requires WorldOk(w) && Near(w, w', id)
    requires InvOk(w.db, id, env, pc, steered)
    requires pc.RecordRun? || pc.RecordDiagnosis? || pc.RecordEvidence? || pc.AppendOutcome? || pc.SetPending?
    requires w'.db == Inv.Step(env, id, pc, w.db).1
    ensures Kept(w, w', id) && InvOk(w'.db, id, env, Inv.Step(env, id, pc, w.db).0, steered)
  {
    match pc
    case RecordRun(f) => RunWrite(w, w', id, env.run, Run(id, env.started, f.Outcome(), Checked(f.fabricated)));
    case RecordDiagnosis(f) => DiagnosisWrite(w, w', id, env.run, f);
    case RecordEvidence(f) => LogWrite(w, w', id);
    case AppendOutcome(f) => LogWrite(w, w', id);
    case SetPending(f) => StatusWrite(w, w', id, PendingReview);
  }

  lemma FailingStep(w: World, w': World, id: IncidentId, env: Inv.Env, pc: Inv.Pc, steered: bool)
    requires WorldOk(w) && Near(w, w', id)
    requires InvOk(w.db, id, env, pc, steered) && (pc.FailRun? || pc.FailEvent? || pc.FailStatus?)
    requires w'.db == Inv.Step(env, id, pc, w.db).1
    ensures Kept(w, w', id) && InvOk(w'.db, id, env, Inv.Step(env, id, pc, w.db).0, steered)
  {
    match pc
    case FailRun(d) => RunWrite(w, w', id, env.run, Run(id, env.started, RunFailed, Unchecked));
    case FailEvent(d) => LogWrite(w, w', id);
    case FailStatus => StatusWrite(w, w', id, Failed);
  }

  lemma InvestigationStep(w: World, w': World, id: IncidentId, env: Inv.Env, pc: Inv.Pc, steered: bool)
    requires WorldOk(w) && Near(w, w', id)
    requires env.Valid() && !pc.Finished? && InvOk(w.db, id, env, pc, steered)
    requires w'.db == Inv.Step(env, id, pc, w.db).1
    ensures Kept(w, w', id) && InvOk(w'.db, id, env, Inv.Step(env, id, pc, w.db).0, steered)
  {
    match pc
    case SetRunning => StatusWrite(w, w', id, Running);
    case Investigate => InvestigatedStep(w, w', id, env, steered);
    case FailRun(_) | FailEvent(_) | FailStatus => FailingStep(w, w', id, env, pc, steered);
    case _ => RecordingStep(w, w', id, env, pc, steered);
  }

  lemma DeliveryStep(w: World, w': World, id: IncidentId, env: DeliverEnv, pc: DeliverPc,
                     queue: seq<IncidentId>, maxsize: nat)
    requires WorldOk(w) && !pc.Answered? && DeliveryOk(w, id, pc)
    requires RoleStep(Delivery(env, pc), id, w, queue, maxsize).1 == w'
    ensures Kept(w, w', id)
    ensures DeliveryOk(w', id, DeliverStep(env, id, pc, Front(w.db, queue), maxsize).0)
  {
    var (pc', front) := DeliverStep(env, id, pc, Front(w.db, queue), maxsize);
    if w'.db == w.db && pc' != Answered(Accepted) {
      NoWrite(w, w', id);
    }
    match pc
    case Find =>
    case Claim =>
      if pc'.Snapshot? {
        RowClaimed(w, w', id, Incident(env.received, Queued, env.hint));
        assert RowOk(w, id);
      }
    case Snapshot =>
      if pc'.Receive? { DirTaken(w, w', id, env.source); }
    case Unclaim =>
      if pc' == Answered(SnapshotFailed) { RowDeleted(w, w', id); }
    case Receive => LogWrite(w, w', id);
    case Enqueue =>
      if pc' == Answered(Accepted) { NowAccepted(w, w', id); }
    case RollbackRow =>
      if pc'.RollbackDir? { RowDeleted(w, w', id); }
    case RollbackDir => DirDiscarded(w, w', id);
  }

  lemma ReadStep(w: World, w': World, id: IncidentId, env: Review.Env, pc: Review.Pc)
    requires WorldOk(w) && !pc.Replied? && pc.Settled() && env.rerun.Valid() && ReviewOk(w.db, id, env, pc)
    requires Near(w, w', id) && w'.db == Review.Step(env, id, pc, w.db).1
    requires pc.ListRuns? ==> IsLatest(w.db, id, env.latest)
    requires pc.Lookup? || pc.ListRuns? || pc.ReadDiagnosis? || pc.SteerProvider? || pc.SteerReread?
    ensures Kept(w, w', id)
    ensures ReviewOk(w'.db, id, env, Review.Step(env, id, pc, w.db).0)
  {
    NoWrite(w, w', id);
  }

  lemma RejectStep(w: World, w': World, id: IncidentId, env: Review.Env, pc: Review.Pc)
    requires WorldOk(w) && !pc.Replied? && pc.Settled() && env.rerun.Valid() && ReviewOk(w.db, id, env, pc)
    requires Near(w, w', id) && w'.db == Review.Step(env, id, pc, w.db).1
    requires pc.RejectReview? || pc.RejectEvent? || pc.RejectStatus? || pc.RejectDiscard?
    ensures Kept(w, w', id)
    ensures ReviewOk(w'.db, id, env, Review.Step(env, id, pc, w.db).0)
  {
    match pc
    case RejectReview(r) => ReviewWrite(w, w', id, r, Reject);
    case RejectEvent(_) => LogWrite(w, w', id);
    case RejectStatus => StatusWrite(w, w', id, Rejected);
    case RejectDiscard => DirDiscarded(w, w', id);
  }

  lemma SteerStep(w: World, w': World, id: IncidentId, env: Review.Env, pc: Review.Pc)
    requires WorldOk(w) && !pc.Replied? && pc.Settled() && env.rerun.Valid() && ReviewOk(w.db, id, env, pc)
    requires Near(w, w', id) && w'.db == Review.Step(env, id, pc, w.db).1
    requires pc.SteerReview? || pc.SteerEvent? || pc.Steering? || pc.SteerDiscard?
    ensures Kept(w, w', id)
    ensures ReviewOk(w'.db, id, env, Review.Step(env, id, pc, w.db).0)
  {
    match pc
    case Steering(pc) => InvestigationStep(w, w', id, env.rerun, pc, true);
    case SteerReview(r, text) => ReviewWrite(w, w', id, r, Steer(text));
    case SteerEvent(_) => LogWrite(w, w', id);
    case SteerDiscard => DirDiscarded(w, w', id);
  }

  lemma PublishStep(w: World, w': World, id: IncidentId, env: Review.Env, pc: Review.Pc)
    requires WorldOk(w) && ReviewOk(w.db, id, env, pc) && (pc.ApproveReview? || pc.Publish?)
    requires Near(w, w', id) && w'.db == Review.Step(env, id, pc, w.db).1
    ensures Kept(w, w', id)
    ensures ReviewOk(w'.db, id, env, Review.Step(env, id, pc, w.db).0)
  {
    match pc
    case ApproveReview(r, _) => ReviewWrite(w, w', id, r, Approve);
    case Publish(r, d) => Published(w, w', id, r, d);
  }

  lemma PostStep(w: World, w': World, id: IncidentId, env: Review.Env, pc: Review.Pc)
    requires WorldOk(w) && ReviewOk(w.db, id, env, pc) && (pc.PostEvent? || pc.PostStatus? || pc.PostDiscard?)
    requires Near(w, w', id) && w'.db == Review.Step(env, id, pc, w.db).1
    ensures Kept(w, w', id)
    ensures ReviewOk(w'.db, id, env, Review.Step(env, id, pc, w.db).0)
  {
    match pc
    case PostEvent(_) => LogWrite(w, w', id);
    case PostStatus => StatusWrite(w, w', id, Posted);
    case PostDiscard => DirDiscarded(w, w', id);
  }

  lemma ApproveStep(w: World, w': World, id: IncidentId, env: Review.Env, pc: Review.Pc)
    requires WorldOk(w) && !pc.Replied? && pc.Settled() && env.rerun.Valid() && ReviewOk(w.db, id, env, pc)
    requires Near(w, w', id) && w'.db == Review.Step(env, id, pc, w.db).1
    requires pc.ApproveReview? || pc.Publish? || pc.PostEvent? || pc.PostStatus? || pc.PostDiscard?
    ensures Kept(w, w', id)
    ensures ReviewOk(w'.db, id, env, Review.Step(env, id, pc, w.db).0)
  {
    if pc.ApproveReview? || pc.Publish? {
      PublishStep(w, w', id, env, pc);
    } else {
      PostStep(w, w', id, env, pc);
    }
  }

  lemma ReviewStep(w: World, w': World, id: IncidentId, env: Review.Env, pc: Review.Pc)
    requires WorldOk(w) && !pc.Replied? && pc.Settled() && env.rerun.Valid() && ReviewOk(w.db, id, env, pc)
    requires Near(w, w', id) && w'.db == Review.Step(env, id, pc, w.db).1
    requires pc.ListRuns? ==> IsLatest(w.db, id, env.latest)
    ensures Kept(w, w', id)
    ensures ReviewOk(w'.db, id, env, Review.Step(env, id, pc, w.db).0)
  {
    match pc
    case Lookup | ListRuns | ReadDiagnosis(_) | SteerProvider | SteerReread => ReadStep(w, w', id, env, pc);
    case RejectReview(_) | RejectEvent(_) | RejectStatus | RejectDiscard => RejectStep(w, w', id, env, pc);
    case SteerReview(_, _) | SteerEvent(_) | Steering(_) | SteerDiscard => SteerStep(w, w', id, env, pc);
    case _ => ApproveStep(w, w', id, env, pc);
  }

  lemma WorkerStep(w: World, w': World, id: IncidentId, env: WorkEnv, pc: WorkPc)
    requires WorldOk(w) && !pc.Released? && pc.Settled() && env.inv.Valid() && WorkerOk(w.db, id, env, pc)
    requires Near(w, w', id) && w'.db == WorkStep(env, id, pc, w.db).1
    ensures Kept(w, w', id)
    ensures WorkerOk(w'.db, id, env, WorkStep(env, id, pc, w.db).0)
  {
    match pc
    case Load => NoWrite(w, w', id);
    case Working(pc) => InvestigationStep(w, w', id, env.inv, pc, false);
    case Reread => NoWrite(w, w', id);
    case Reap => DirDiscarded(w, w', id);
  }

  /** Every step of every task, in one statement. */
  lemma StepKeeps(w: World, id: IncidentId, role: Role, queue: seq<IncidentId>, maxsize: nat)
    requires WorldOk(w) && RoleOk(w, id, role) && !role.Done()
    requires role.Reviewing? && role.rpc.ListRuns? ==> IsLatest(w.db, id, role.renv.latest)
    ensures var (role', w', _) := RoleStep(role, id, w, queue, maxsize);
      Kept(w, w', id) && RoleOk(w', id, role')
  {
    var (role', w', _) := RoleStep(role, id, w, queue, maxsize);
    match role
    case Delivery(env, pc) => DeliveryStep(w, w', id, env, pc, queue, maxsize);
    case Reviewing(env, pc) => ReviewStep(w, w', id, env, pc);
    case Worker(env, pc) => WorkerStep(w, w', id, env, pc);
  }
}
