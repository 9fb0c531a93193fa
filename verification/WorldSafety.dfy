/** What every single step of a task keeps true of the persisted world, and what it leaves
    alone: the per-incident half of the protocol's invariant. */
module WorldSafety {
  import opened Wrappers
  import opened Evidence
  import opened Store
  import opened Ingress
  import opened Protocol
  import Inv = Investigation
  import Review
  import Verifier

  // --- the world --------------------------------------------------------------------------

  /** The incident's directory is what it was claimed with or what was snapshotted for it. */
  ghost predicate SameDir(db: Db, id: IncidentId) {
    (id in db.dirs <==> id in db.frozen) && (id in db.dirs ==> db.dirs[id] == db.frozen[id])
  }

  ghost predicate RowOk(w: World, id: IncidentId) {
    && (id in w.db.incidents && !w.db.incidents[id].status.Terminal() ==> SameDir(w.db, id))
    && (id in w.accepted ==> id in w.db.incidents && (!w.db.incidents[id].status.Terminal() ==> id in w.db.dirs))
  }

  ghost predicate RowsOk(w: World) {
    forall id :: RowOk(w, id)
  }

  ghost predicate RunsOk(db: Db) {
    forall r <- db.runs :: db.runs[r].incident in db.incidents
  }

  /** A recorded diagnosis was checked against the signals of its incident, and what the
      verifier left of it cites nothing new. */
  ghost predicate Sound(db: Db, r: RunId)
    requires r in db.diagnoses
  {
    && r in db.runs
    && var row := db.diagnoses[r];
    && row.diagnosis.Valid()
    && db.runs[r].fabricated == Checked(Fabricated(row.diagnosis, db.Base(db.runs[r].incident)))
    && (row.verified.Some? ==> row.verified.value.Valid() && Cited(row.verified.value) <= Cited(row.diagnosis))
  }

  ghost predicate DiagnosesOk(db: Db) {
    forall r <- db.diagnoses :: Sound(db, r)
  }

  /** The run's check is clean and this is its verified diagnosis. */
  ghost predicate Publishable(db: Db, id: IncidentId, r: RunId, d: Diagnosis) {
    && db.RunOf(r, id) && !db.runs[r].fabricated.Truthy()
    && r in db.diagnoses && db.diagnoses[r].verified == Some(d)
  }

  ghost predicate PublishedOk(db: Db) {
    forall p <- db.published :: Publishable(db, p.incident, p.run, p.diagnosis)
  }

  ghost predicate WorldOk(w: World) {
    RowsOk(w) && RunsOk(w.db) && DiagnosesOk(w.db) && PublishedOk(w.db)
  }

  // --- a task's program point --------------------------------------------------------------

  ghost predicate NoRuns(db: Db, id: IncidentId) {
    forall r <- db.runs :: db.runs[r].incident != id
  }

  /** The status an investigation starts from: a worker's incident waits, a steered one is in review. */
  ghost predicate Before(db: Db, id: IncidentId, steered: bool) {
    id in db.incidents && if steered then db.incidents[id].status ==
      PendingReview else db.incidents[id].status.Waiting()
  }

  ghost predicate FindingOk(db: Db, id: IncidentId, f: Inv.Finding) {
    && f.diagnosis.Valid()
    && f.fabricated == Fabricated(f.diagnosis, db.Base(id))
    && (f.verified.Some? ==> f.verified.value.Valid() && Cited(f.verified.value) <= Cited(f.diagnosis))
  }

  ghost predicate InvOk(db: Db, id: IncidentId, env: Inv.Env, pc: Inv.Pc, steered: bool) {
    match pc
    case SetRunning => Before(db, id, steered)
    case Investigate => db.StatusIs(id, Running)
    case RecordRun(f) => db.StatusIs(id, Running) && FindingOk(db, id, f)
    case RecordDiagnosis(f) =>
      && db.StatusIs(id, Running) && FindingOk(db, id, f)
      && env.run in db.runs && db.runs[env.run] == Run(id, env.started, f.Outcome(), Checked(f.fabricated))
    case RecordEvidence(_) => db.StatusIs(id, Running)
    case AppendOutcome(_) => db.StatusIs(id, Running)
    case SetPending(_) => db.StatusIs(id, Running)
    case FailRun(_) => Before(db, id, steered) || db.StatusIs(id, Running)
    case FailEvent(_) => Before(db, id, steered) || db.StatusIs(id, Running)
    case FailStatus => Before(db, id, steered) || db.StatusIs(id, Running)
    case Finished(ok) =>
      if ok then db.StatusIs(id, PendingReview)
      else if Inv.FailStatusCall in env.faults then Before(db, id, steered) || db.StatusIs(id, Running)
      else db.StatusIs(id, Failed)
  }

  ghost predicate Claimed(w: World, id: IncidentId) {
    w.db.StatusIs(id, Queued) && NoRuns(w.db, id) && id !in w.accepted
  }

  ghost predicate DeliveryOk(w: World, id: IncidentId, pc: DeliverPc) {
    match pc
    case Find => true
    case Claim => true
    case Snapshot => Claimed(w, id)
    case Unclaim => Claimed(w, id)
    case Receive => Claimed(w, id) && id in w.db.dirs
    case Enqueue => Claimed(w, id) && id in w.db.dirs
    case RollbackRow => Claimed(w, id)
    case RollbackDir => id !in w.db.incidents
    case Answered(_) => true
  }

  ghost predicate ReviewOk(db: Db, id: IncidentId, env: Review.Env, pc: Review.Pc) {
    match pc
    case Lookup => true
    case ListRuns => db.StatusIs(id, PendingReview)
    case ReadDiagnosis(r) => db.StatusIs(id, PendingReview) && db.RunOf(r, id)
    case RejectReview(_) => db.StatusIs(id, PendingReview)
    case RejectEvent(_) => db.StatusIs(id, PendingReview)
    case RejectStatus => db.StatusIs(id, PendingReview)
    case RejectDiscard => db.StatusIs(id, Rejected)
    case SteerReview(_, _) => db.StatusIs(id, PendingReview)
    case SteerEvent(_) => db.StatusIs(id, PendingReview)
    case SteerProvider => db.StatusIs(id, PendingReview)
    case Steering(pc) => InvOk(db, id, env.rerun, pc, true)
    case SteerReread => id in db.incidents && (db.incidents[id].status.Waiting() ==>
      Inv.FailStatusCall in env.rerun.faults)
    case SteerDiscard => db.StatusIs(id, Failed)
    case ApproveReview(r, d) => db.StatusIs(id, PendingReview) && Publishable(db, id, r, d)
    case Publish(r, d) => db.StatusIs(id, PendingReview) && Publishable(db, id, r, d)
    case PostEvent(_) => db.StatusIs(id, PendingReview)
    case PostStatus => db.StatusIs(id, PendingReview)
    case PostDiscard => db.StatusIs(id, Posted)
    case Replied(_) => true
  }

  ghost predicate WorkerOk(db: Db, id: IncidentId, env: WorkEnv, pc: WorkPc) {
    match pc
    case Load => Before(db, id, false)
    case Working(pc) => InvOk(db, id, env.inv, pc, false)
    case Reread =>
      if Inv.FailStatusCall in env.inv.faults then Before(db, id, false) else db.StatusIs(id, Failed)
    case Reap => db.StatusIs(id, Failed)
    case Released => true
  }

  ghost predicate RoleOk(w: World, id: IncidentId, role: Role) {
    role.Valid() && role.Settled() &&
    match role
    case Delivery(_, pc) => DeliveryOk(w, id, pc)
    case Reviewing(env, pc) => ReviewOk(w.db, id, env, pc)
    case Worker(env, pc) => WorkerOk(w.db, id, env, pc)
  }

  // --- what a step leaves alone --------------------------------------------------------------

  ghost predicate SameAt(w: World, w': World, id: IncidentId) {
    && (id in w.db.incidents <==> id in w'.db.incidents)
    && (id in w.db.incidents ==> w.db.incidents[id] == w'.db.incidents[id])
    && (id in w.db.dirs <==> id in w'.db.dirs)
    && (id in w.db.dirs ==> w.db.dirs[id] == w'.db.dirs[id])
    && (id in w.db.frozen <==> id in w'.db.frozen)
    && (id in w.db.frozen ==> w.db.frozen[id] == w'.db.frozen[id])
    && (id in w.accepted <==> id in w'.accepted)
    && (id in w.lost <==> id in w'.lost)
    && (id in w.disturbed <==> id in w'.disturbed)
  }

  /** Runs and recorded diagnoses are never changed or removed (only review decisions are
      filled in), the publications only grow, and what is new belongs to `x`. */
  ghost predicate Grows(db: Db, db': Db, x: IncidentId) {
    && (forall r <- db.runs :: r in db'.runs && db'.runs[r] == db.runs[r])
    && (forall r <- db'.runs :: r in db.runs || db'.runs[r].incident == x)
    && (forall r <- db.diagnoses :: r in db'.diagnoses && db'.diagnoses[r].diagnosis == db.diagnoses[r].diagnosis
                                    && db'.diagnoses[r].verified == db.diagnoses[r].verified)
    && (db'.published == db.published
        || (|db'.published| == |db.published| + 1 && db'.published[..|db.published|] == db.published
            && db'.published[|db.published|].incident == x))
  }

  /** A step of a task on `x` leaves everything about every other incident alone. */
  ghost predicate Frame(w: World, w': World, x: IncidentId) {
    && Grows(w.db, w'.db, x)
    && forall id :: id != x ==> SameAt(w, w', id)
  }

  /** What a step never does to an incident, whoever takes it: leave a terminal status, drop the
      directory of a live incident, forget an acceptance, or change what an accepted or
      investigated incident is judged against. */
  ghost predicate RespectsAt(w: World, w': World, id: IncidentId) {
    && (id in w.db.incidents && w.db.incidents[id].status.Terminal() ==>
          id in w'.db.incidents && w'.db.incidents[id].status == w.db.incidents[id].status)
    && (id in w.db.dirs && id !in w'.db.dirs ==> id !in w.db.incidents || w.db.incidents[id].status.Terminal())
    && (id in w.accepted ==> id in w'.accepted)
    && (id in w.accepted || !NoRuns(w.db, id) ==> w'.db.Base(id) == w.db.Base(id))
    && (id in w.disturbed ==> id in w'.disturbed)
  }

  ghost predicate Respects(w: World, w': World) {
    forall id :: RespectsAt(w, w', id)
  }

  /** Other tasks' assertions survive a step on `x`. */
  lemma RoleStable(w: World, w': World, x: IncidentId, id: IncidentId, role: Role)
    requires Frame(w, w', x) && id != x && RoleOk(w, id, role)
    ensures RoleOk(w', id, role)
  {
    assert SameAt(w, w', id);
  }

  /** What has been published cites real signals of its incident only. */
  lemma PublishableIsReal(db: Db, id: IncidentId, r: RunId, d: Diagnosis)
    requires DiagnosesOk(db) && Publishable(db, id, r, d)
    ensures d.Valid() && Cited(d) <= RealHandles(db.Base(id))
  {
    assert Sound(db, r);
    var row := db.diagnoses[r];
    assert Fabricated(row.diagnosis, db.Base(id)) == {};
    forall h <- Cited(d) ensures h in RealHandles(db.Base(id)) {
      assert h in Cited(row.diagnosis) && h !in Fabricated(row.diagnosis, db.Base(id));
    }
  }
}
