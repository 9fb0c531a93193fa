/** The human-in-the-loop gate (src/quellgeist/orchestrator/review.py): approve, reject or
    steer, in the order the code reads, writes, publishes and reaps. */
module Review {
  import opened Wrappers
  import opened Evidence
  import opened Store
  import Inv = Investigation

  /** What one review meets: the requested decision (None when it is not one of the three), the
      run that `list_runs` happens to put last, the environment of a steered re-run, whether a
      publish that raises had already emitted, and the stages that raise. */
  datatype Env = Env(
    decision: Option<Decision>,
    latest: Option<RunId>,
    rerun: Inv.Env,
    emits: bool,
    faults: set<Inv.Stage>)

  datatype Answer = Refused(code: nat) | Raised | Done(status: Status)

  datatype Pc =
    | Lookup
    | ListRuns
    | ReadDiagnosis(run: RunId)
    | RejectReview(run: RunId) | RejectEvent(run: RunId) | RejectStatus | RejectDiscard
    | SteerReview(run: RunId, text: string) | SteerEvent(run: RunId) | SteerProvider | Steering(pc: Inv.Pc)
    | SteerReread | SteerDiscard
    | ApproveReview(run: RunId, verified: Diagnosis) | Publish(run: RunId, verified: Diagnosis)
    | PostEvent(run: RunId) | PostStatus | PostDiscard
    | Replied(answer: Answer)
  {
    function Rank(): nat {
      match this
      case Lookup => 30 case ListRuns => 29 case ReadDiagnosis(_) => 28
      case RejectReview(_) => 5 case RejectEvent(_) => 4 case RejectStatus => 3 case RejectDiscard => 2
      case SteerReview(_, _) => 27 case SteerEvent(_) => 26 case SteerProvider => 25 case Steering(pc) => 10 + pc.Rank()
      case SteerReread => 3 case SteerDiscard => 2
      case ApproveReview(_, _) => 6 case Publish(_, _) => 5 case PostEvent(_) => 4 case PostStatus => 3
      case PostDiscard => 2
      case Replied(_) => 0
    }

    /** A steered re-run is handed on as soon as it has finished. */
    predicate Settled() {
      Steering? ==> !pc.Finished?
    }
  }

  predicate WellFormed(decision: Option<Decision>) {
    decision.Some? && (decision.value.Steer? ==> decision.value.text != "")
  }

  /** The call returns and moves on, or raises out of the review. */
  function Guarded(written: Option<Db>, db: Db, next: Pc): (Pc, Db) {
    if written.Some? then (next, written.value) else (Replied(Raised), db)
  }

  function Step(env: Env, id: IncidentId, pc: Pc, db: Db): (r: (Pc, Db))
    requires !pc.Replied? && pc.Settled()
    ensures r.0.Rank() < pc.Rank() && r.0.Settled()
  {
    match pc
    case Lookup =>
      if !WellFormed(env.decision) then (Replied(Refused(400)), db)
      else if Inv.ReadCall in env.faults then (Replied(Raised), db)
      else if id !in db.incidents then (Replied(Refused(404)), db)
      else if db.incidents[id].status != PendingReview then (Replied(Refused(409)), db)
      else (ListRuns, db)
    case ListRuns =>
      if Inv.RunsCall in env.faults then (Replied(Raised), db)
      else if env.latest.None? || env.latest.value !in db.runs then (Replied(Refused(409)), db)
      else (ReadDiagnosis(env.latest.value), db)
    case ReadDiagnosis(run) =>
      if Inv.DiagnosisCall in env.faults || env.decision.None? then (Replied(Raised), db)
      else (match env.decision.value
            case Reject => (RejectReview(run), db)
            case Steer(text) => (SteerReview(run, text), db)
            case Approve =>
              if run in db.runs && db.runs[run].fabricated.Truthy() then (Replied(Refused(409)), db)
              else if run !in db.diagnoses || db.diagnoses[run].verified.None? then (Replied(Refused(409)), db)
              else (ApproveReview(run, db.diagnoses[run].verified.value), db))
    case RejectReview(run) =>
      Guarded(Try(Inv.ReviewCall in env.faults, SetReview(db, run, Reject)), db, RejectEvent(run))
    case RejectEvent(run) =>
      Guarded(Try(Inv.EventCall in env.faults, AppendEvent(db, Event(id, Some(run), RejectedEvent))), db, RejectStatus)
    case RejectStatus =>
      Guarded(Try(Inv.StatusCall in env.faults, SetIncidentStatus(db, id, Rejected)), db, RejectDiscard)
    case RejectDiscard =>
      (Replied(Done(Rejected)), if Inv.DiscardCall in env.faults then db else DiscardSnapshot(db, id))
    case SteerReview(run, text) =>
      Guarded(Try(Inv.ReviewCall in env.faults, SetReview(db, run, Steer(text))), db, SteerEvent(run))
    case SteerEvent(run) =>
      Guarded(Try(Inv.EventCall in env.faults, AppendEvent(db, Event(id, Some(run), SteeredEvent))), db, SteerProvider)
    case SteerProvider =>
      if Inv.ProviderCall in env.faults then (Replied(Raised), db) else (Steering(Inv.SetRunning), db)
    case Steering(pc) =>
      var (pc', db') := Inv.Step(env.rerun, id, pc, db);
      (if pc'.Finished? then SteerReread else Steering(pc'), db')
    case SteerReread =>
      if Inv.RereadCall in env.faults then (Replied(Raised), db)
      else if db.StatusIs(id, Failed) then (SteerDiscard, db)
      else (Replied(Done(if id in db.incidents then db.incidents[id].status else PendingReview)), db)
    case SteerDiscard =>
      (Replied(Done(Failed)), if Inv.DiscardCall in env.faults then db else DiscardSnapshot(db, id))
    case ApproveReview(run, verified) =>
      Guarded(Try(Inv.ReviewCall in env.faults, SetReview(db, run, Approve)), db, Publish(run, verified))
    case Publish(run, verified) =>
      var emitted := Emit(db, Publication(id, run, verified));
      if Inv.PublishCall in env.faults then (Replied(Raised), if env.emits then emitted else db)
      else (PostEvent(run), emitted)
    case PostEvent(run) =>
      Guarded(Try(Inv.EventCall in env.faults, AppendEvent(db, Event(id, Some(run), PostedEvent))), db, PostStatus)
    case PostStatus =>
      Guarded(Try(Inv.StatusCall in env.faults, SetIncidentStatus(db, id, Posted)), db, PostDiscard)
    case PostDiscard =>
      (Replied(Done(Posted)), if Inv.DiscardCall in env.faults then db else DiscardSnapshot(db, id))
  }

  /** The review run to its answer without interference. */
  function Finish(env: Env, id: IncidentId, pc: Pc, db: Db): (r: (Answer, Db))
    requires pc.Settled()
    decreases pc.Rank()
  {
    if pc.Replied? then (pc.answer, db)
    else var next := Step(env, id, pc, db); Finish(env, id, next.0, next.1)
  }

  lemma Unfold(env: Env, id: IncidentId, pc: Pc, db: Db)
    requires !pc.Replied? && pc.Settled()
    ensures var next := Step(env, id, pc, db);
      Finish(env, id, pc, db) == if next.0.Replied? then (next.0.answer, next.1) else Finish(env, id, next.0, next.1)
  {
  }

  // --- the code -----------------------------------------------------------------------

  method RejectIt(disk: Disk, id: IncidentId, env: Env, run: RunId) returns (answer: Answer)
    modifies disk
    ensures (answer, disk.Value()) == Finish(env, id, RejectReview(run), old(disk.Value()))
  {
    Unfold(env, id, RejectReview(run), disk.Value());
    var ok := disk.Review(run, Reject, Inv.ReviewCall in env.faults);
    if !ok { return Raised; }
    Unfold(env, id, RejectEvent(run), disk.Value());
    ok := disk.Append(Event(id, Some(run), RejectedEvent), Inv.EventCall in env.faults);
    if !ok { return Raised; }
    answer := MarkRejected(disk, id, env);
  }

  method MarkRejected(disk: Disk, id: IncidentId, env: Env) returns (answer: Answer)
    modifies disk
    ensures (answer, disk.Value()) == Finish(env, id, RejectStatus, old(disk.Value()))
  {
    Unfold(env, id, RejectStatus, disk.Value());
    var ok := disk.SetStatus(id, Rejected, Inv.StatusCall in env.faults);
    if !ok { return Raised; }
    disk.Discard(id, Inv.DiscardCall in env.faults);
    return Done(Rejected);
  }

  method ApproveIt(disk: Disk, id: IncidentId, env: Env, run: RunId, verified: Diagnosis) returns (answer: Answer)
    modifies disk
    ensures (answer, disk.Value()) == Finish(env, id, ApproveReview(run, verified), old(disk.Value()))
  {
    Unfold(env, id, ApproveReview(run, verified), disk.Value());
    var ok := disk.Review(run, Approve, Inv.ReviewCall in env.faults);
    if !ok { return Raised; }
    Unfold(env, id, Publish(run, verified), disk.Value());
    if Inv.PublishCall !in env.faults || env.emits {
      disk.Publish(Publication(id, run, verified));
    }
    if Inv.PublishCall in env.faults { return Raised; }
    answer := ClosePosted(disk, id, env, run);
  }

  lemma PostEventStep(env: Env, id: IncidentId, run: RunId, db: Db)
    ensures Finish(env, id, PostEvent(run), db) ==
      var written := Try(Inv.EventCall in env.faults, AppendEvent(db, Event(id, Some(run), PostedEvent)));
      if written.None? then (Raised, db) else Finish(env, id, PostStatus, written.value)
  {
    Unfold(env, id, PostEvent(run), db);
  }

  method ClosePosted(disk: Disk, id: IncidentId, env: Env, run: RunId) returns (answer: Answer)
    modifies disk
    ensures (answer, disk.Value()) == Finish(env, id, PostEvent(run), old(disk.Value()))
  {
    PostEventStep(env, id, run, disk.Value());
    var ok := disk.Append(Event(id, Some(run), PostedEvent), Inv.EventCall in env.faults);
    if !ok { return Raised; }
    answer := MarkPosted(disk, id, env);
  }

  method MarkPosted(disk: Disk, id: IncidentId, env: Env) returns (answer: Answer)
    modifies disk
    ensures (answer, disk.Value()) == Finish(env, id, PostStatus, old(disk.Value()))
  {
    Unfold(env, id, PostStatus, disk.Value());
    var ok := disk.SetStatus(id, Posted, Inv.StatusCall in env.faults);
    if !ok { return Raised; }
    disk.Discard(id, Inv.DiscardCall in env.faults);
    return Done(Posted);
  }

  method SteerIt(disk: Disk, id: IncidentId, env: Env, run: RunId, text: string) returns (answer: Answer)
    modifies disk
    ensures (answer, disk.Value()) == Finish(env, id, SteerReview(run, text), old(disk.Value()))
  {
    Unfold(env, id, SteerReview(run, text), disk.Value());
    var ok := disk.Review(run, Steer(text), Inv.ReviewCall in env.faults);
    if !ok { return Raised; }
    answer := RecordSteer(disk, id, env, run);
  }

  lemma SteerEventStep(env: Env, id: IncidentId, run: RunId, db: Db)
    ensures Step(env, id, SteerEvent(run), db) ==
      if Inv.EventCall in env.faults then (Replied(Raised), db)
      else (SteerProvider, db.(events := db.events + [Event(id, Some(run), SteeredEvent)]))
  {
  }

  method RecordSteer(disk: Disk, id: IncidentId, env: Env, run: RunId) returns (answer: Answer)
    modifies disk
    ensures (answer, disk.Value()) == Finish(env, id, SteerEvent(run), old(disk.Value()))
  {
    SteerEventStep(env, id, run, disk.Value());
    Unfold(env, id, SteerEvent(run), disk.Value());
    var ok := disk.Append(Event(id, Some(run), SteeredEvent), Inv.EventCall in env.faults);
    if !ok { return Raised; }
    answer := RerunSteered(disk, id, env);
  }

  method RerunSteered(disk: Disk, id: IncidentId, env: Env) returns (answer: Answer)
    modifies disk
    ensures (answer, disk.Value()) == Finish(env, id, SteerProvider, old(disk.Value()))
  {
    Unfold(env, id, SteerProvider, disk.Value());
    if Inv.ProviderCall in env.faults { return Raised; }
    SteeringFinishes(env, id, Inv.SetRunning, disk.Value());
    var ok := Inv.RunInvestigation(disk, id, env.rerun);
    answer := ReportSteered(disk, id, env);
  }

  /** The re-run reports the status that was actually persisted, and reaps the directory only
      when that status is 'failed'. */
  method ReportSteered(disk: Disk, id: IncidentId, env: Env) returns (answer: Answer)
    modifies disk
    ensures (answer, disk.Value()) == Finish(env, id, SteerReread, old(disk.Value()))
  {
    Unfold(env, id, SteerReread, disk.Value());
    if Inv.RereadCall in env.faults { return Raised; }
    if id in disk.incidents && disk.incidents[id].status == Failed {
      disk.Discard(id, Inv.DiscardCall in env.faults);
      return Done(Failed);
    }
    return Done(if id in disk.incidents then disk.incidents[id].status else PendingReview);
  }

  /** `apply_review`. The last row of `list_runs` is whatever the store returns. */
  method ApplyReview(disk: Disk, id: IncidentId, env: Env) returns (answer: Answer, ghost latest: Option<RunId>)
    modifies disk
    ensures WellFormed(env.decision) && old(disk.Value().StatusIs(id, PendingReview)) ==>
              Inv.ReadCall !in env.faults && Inv.RunsCall !in env.faults ==> IsLatest(old(disk.Value()), id, latest)
    ensures (answer, disk.Value()) == Finish(env.(latest := latest), id, Lookup, old(disk.Value()))
  {
    latest := None;
    if !WellFormed(env.decision) { return Refused(400), None; }
    if Inv.ReadCall in env.faults { return Raised, None; }
    if id !in disk.incidents { return Refused(404), None; }
    if disk.incidents[id].status != PendingReview { return Refused(409), None; }
    if Inv.RunsCall in env.faults { return Raised, None; }
    var last := disk.LatestRun(id);
    latest := last;
    if last.None? { return Refused(409), latest; }
    var run := last.value;
    ghost var env' := env.(latest := latest);
    assert Finish(env', id, Lookup, disk.Value()) == Finish(env', id, ReadDiagnosis(run), disk.Value());
    if Inv.DiagnosisCall in env.faults { return Raised, latest; }
    match env.decision.value {
      case Reject =>
        answer := RejectIt(disk, id, env.(latest := last), run);
      case Steer(text) =>
        answer := SteerIt(disk, id, env.(latest := last), run, text);
      case Approve =>
        if disk.runs[run].fabricated.Truthy() { return Refused(409), latest; }
        if run !in disk.diagnoses || disk.diagnoses[run].verified.None? { return Refused(409), latest; }
        answer := ApproveIt(disk, id, env.(latest := last), run, disk.diagnoses[run].verified.value);
    }
  }

  /** The steered part of a review is the investigation itself. */
  lemma {:induction false} SteeringFinishes(env: Env, id: IncidentId, pc: Inv.Pc, db: Db)
    requires !pc.Finished?
    ensures Finish(env, id, Steering(pc), db) ==
            Finish(env, id, SteerReread, Inv.Finish(env.rerun, id, pc, db).1)
    decreases pc.Rank()
  {
    var next := Inv.Step(env.rerun, id, pc, db);
    SteeringStep(env, id, pc, db);
    Unfold(env, id, Steering(pc), db);
    if !next.0.Finished? {
      SteeringFinishes(env, id, next.0, next.1);
    }
  }

  lemma SteeringStep(env: Env, id: IncidentId, pc: Inv.Pc, db: Db)
    requires !pc.Finished?
    ensures var next := Inv.Step(env.rerun, id, pc, db);
      Step(env, id, Steering(pc), db) == (if next.0.Finished? then SteerReread else Steering(next.0), next.1)
  {
  }

  // --- what a review does, taken alone --------------------------------------------------

  /** The one situation in which an approval goes through: the incident is in review and its
      last run is clean and has a verified diagnosis. */
  ghost predicate Postable(env: Env, id: IncidentId, db: Db) {
    && db.StatusIs(id, PendingReview)
    && env.latest.Some? && env.latest.value in db.runs && !db.runs[env.latest.value].fabricated.Truthy()
    && env.latest.value in db.diagnoses && db.diagnoses[env.latest.value].verified.Some?
  }

  /** An approval that meets no raising call publishes exactly when the diagnosis is postable:
      then it emits that verified diagnosis once, marks the row posted, records the decision and
      reaps the directory; otherwise it is refused and changes nothing. */
  lemma ApproveIsFailClosed(env: Env, id: IncidentId, db: Db)
    requires env.decision == Some(Approve) && env.faults == {}
    ensures var (answer, db') := Finish(env, id, Lookup, db);
      if Postable(env, id, db) then
        var run := env.latest.value;
        && answer == Done(Posted)
        && db' == db.(
                    published := db.published + [Publication(id, run, db.diagnoses[run].verified.value)],
                    incidents := db.incidents[id := db.incidents[id].(status := Posted)],
                    diagnoses := db.diagnoses[run := db.diagnoses[run].(review := Some(Approve))],
                    events := db.events + [Event(id, Some(run), PostedEvent)],
                    dirs := db.dirs - {id})
      else
        && answer == Refused(if id in db.incidents then 409 else 404)
        && db' == db
  {
    Unfold(env, id, Lookup, db);
    if db.StatusIs(id, PendingReview) {
      Unfold(env, id, ListRuns, db);
      if env.latest.Some? && env.latest.value in db.runs {
        Unfold(env, id, ReadDiagnosis(env.latest.value), db);
        if Postable(env, id, db) {
          ApprovePosts(env, id, env.latest.value, db.diagnoses[env.latest.value].verified.value, db);
        }
      }
    }
  }

  lemma ApprovePosts(env: Env, id: IncidentId, run: RunId, verified: Diagnosis, db: Db)
    requires env.faults == {} && id in db.incidents && run in db.diagnoses
    ensures var (answer, db') := Finish(env, id, ApproveReview(run, verified), db);
      && answer == Done(Posted)
      && db' == db.(
                  published := db.published + [Publication(id, run, verified)],
                  incidents := db.incidents[id := db.incidents[id].(status := Posted)],
                  diagnoses := db.diagnoses[run := db.diagnoses[run].(review := Some(Approve))],
                  events := db.events + [Event(id, Some(run), PostedEvent)],
                  dirs := db.dirs - {id})
  {
    Unfold(env, id, ApproveReview(run, verified), db);
    var db1 := Step(env, id, ApproveReview(run, verified), db).1;
    Unfold(env, id, Publish(run, verified), db1);
    CloseCloses(env, id, run, Step(env, id, Publish(run, verified), db1).1);
  }

  lemma CloseCloses(env: Env, id: IncidentId, run: RunId, db: Db)
    requires env.faults == {} && id in db.incidents
    ensures Finish(env, id, PostEvent(run), db) ==
      (Done(Posted), db.(incidents := db.incidents[id := db.incidents[id].(status := Posted)],
                         events := db.events + [Event(id, Some(run), PostedEvent)], dirs := db.dirs - {id}))
  {
    NotePosted(env, id, run, db);
    Unfold(env, id, PostEvent(run), db);
    MarkCloses(env, id, db.(events := db.events + [Event(id, Some(run), PostedEvent)]));
  }

  lemma NotePosted(env: Env, id: IncidentId, run: RunId, db: Db)
    requires env.faults == {} && id in db.incidents
    ensures Step(env, id, PostEvent(run), db) ==
      (PostStatus, db.(events := db.events + [Event(id, Some(run), PostedEvent)]))
  {
  }

  lemma MarkCloses(env: Env, id: IncidentId, db: Db)
    requires env.faults == {} && id in db.incidents
    ensures Finish(env, id, PostStatus, db) ==
      (Done(Posted),
       db.(incidents := db.incidents[id := db.incidents[id].(status := Posted)], dirs := db.dirs - {id}))
  {
    var marked := db.(incidents := db.incidents[id := db.incidents[id].(status := Posted)]);
    NotedIsMarked(env, id, db, marked);
    Unfold(env, id, PostStatus, db);
    ReapPosted(env, id, marked);
  }

  lemma NotedIsMarked(env: Env, id: IncidentId, db: Db, marked: Db)
    requires env.faults == {} && id in db.incidents
    requires marked == db.(incidents := db.incidents[id := db.incidents[id].(status := Posted)])
    ensures Step(env, id, PostStatus, db) == (PostDiscard, marked)
  {
  }

  lemma ReapPosted(env: Env, id: IncidentId, marked: Db)
    requires env.faults == {}
    ensures Finish(env, id, PostDiscard, marked) == (Done(Posted), marked.(dirs := marked.dirs - {id}))
  {
    Unfold(env, id, PostDiscard, marked);
    assert DiscardSnapshot(marked, id).dirs == marked.dirs - {id};
  }

  /** When a clean and a fabricated run of an incident start together, the order they happen to be
      listed in decides: one approval publishes, the other is refused. */
  lemma TieDecides(env: Env, id: IncidentId, db: Db, clean: RunId, dirty: RunId)
    requires env.decision == Some(Approve) && env.faults == {} && db.StatusIs(id, PendingReview)
    requires MayBeLatest(db, id, clean) && db.RunOf(dirty, id) && db.runs[dirty].started == db.runs[clean].started
    requires !db.runs[clean].fabricated.Truthy() && db.runs[dirty].fabricated.Truthy()
    requires clean in db.diagnoses && db.diagnoses[clean].verified.Some?
    ensures MayBeLatest(db, id, dirty)
    ensures Finish(env.(latest := Some(clean)), id, Lookup, db).0 == Done(Posted)
    ensures Finish(env.(latest := Some(dirty)), id, Lookup, db) == (Refused(409), db)
  {
    LatestAreTied(db, id, clean, dirty);
    ApproveIsFailClosed(env.(latest := Some(clean)), id, db);
    ApproveIsFailClosed(env.(latest := Some(dirty)), id, db);
  }

  /** The incident is in review and some run of it is listed last. */
  ghost predicate Reviewable(env: Env, id: IncidentId, db: Db) {
    db.StatusIs(id, PendingReview) && env.latest.Some? && env.latest.value in db.runs
  }

  /** Whatever is asked, a review of anything else is refused and changes nothing. */
  lemma RefusalChangesNothing(env: Env, id: IncidentId, db: Db)
    requires env.faults == {} && !(WellFormed(env.decision) && Reviewable(env, id, db))
    ensures Finish(env, id, Lookup, db) ==
      (Refused(if !WellFormed(env.decision) then 400 else if id in db.incidents then 409 else 404), db)
  {
    Unfold(env, id, Lookup, db);
    if WellFormed(env.decision) && db.StatusIs(id, PendingReview) {
      Unfold(env, id, ListRuns, db);
    }
  }

  lemma Admitted(env: Env, id: IncidentId, db: Db)
    requires env.faults == {} && WellFormed(env.decision) && Reviewable(env, id, db)
    ensures Finish(env, id, Lookup, db) == Finish(env, id, ReadDiagnosis(env.latest.value), db)
  {
    Unfold(env, id, Lookup, db);
    Unfold(env, id, ListRuns, db);
  }

  /** The decision is noted on the run's diagnosis row, if it has one. */
  function Noted(db: Db, run: RunId, decision: Decision): (r: Db)
    ensures r == db.(diagnoses := r.diagnoses) && r.diagnoses.Keys == db.diagnoses.Keys
  {
    SetReview(db, run, decision).value
  }

  /** A rejection that meets no raising call closes the row, notes the decision and reaps the
      directory; nothing is published and no run touched. */
  lemma RejectCloses(env: Env, id: IncidentId, db: Db, answer: Answer, end: Db)
    requires env.decision == Some(Reject) && env.faults == {} && Reviewable(env, id, db)
    requires (answer, end) == Finish(env, id, Lookup, db)
    ensures answer == Done(Rejected)
    ensures var run := env.latest.value;
      end == db.(
               incidents := db.incidents[id := db.incidents[id].(status := Rejected)],
               diagnoses := if run in db.diagnoses
                            then db.diagnoses[run := db.diagnoses[run].(review := Some(Reject))] else db.diagnoses,
               events := db.events + [Event(id, Some(run), RejectedEvent)],
               dirs := db.dirs - {id})
  {
    var run := env.latest.value;
    Admitted(env, id, db);
    Unfold(env, id, ReadDiagnosis(run), db);
    Unfold(env, id, RejectReview(run), db);
    RejectEnds(env, id, run, Noted(db, run, Reject), answer, end);
  }

  lemma RejectEnds(env: Env, id: IncidentId, run: RunId, db: Db, answer: Answer, end: Db)
    requires env.faults == {} && id in db.incidents && (answer, end) == Finish(env, id, RejectEvent(run), db)
    ensures answer == Done(Rejected)
    ensures end == db.(incidents := db.incidents[id := db.incidents[id].(status := Rejected)],
                       events := db.events + [Event(id, Some(run), RejectedEvent)], dirs := db.dirs - {id})
  {
    Unfold(env, id, RejectEvent(run), db);
    RejectMarks(env, id, db.(events := db.events + [Event(id, Some(run), RejectedEvent)]));
  }

  lemma RejectMarks(env: Env, id: IncidentId, db: Db)
    requires env.faults == {} && id in db.incidents
    ensures Finish(env, id, RejectStatus, db) ==
      (Done(Rejected),
       db.(incidents := db.incidents[id := db.incidents[id].(status := Rejected)], dirs := db.dirs - {id}))
  {
    var marked := db.(incidents := db.incidents[id := db.incidents[id].(status := Rejected)]);
    Unfold(env, id, RejectStatus, db);
    Unfold(env, id, RejectDiscard, marked);
    assert DiscardSnapshot(marked, id).dirs == db.dirs - {id};
  }

  /** An investigation touches no directory and no other row, and publishes nothing. */
  lemma {:induction false} InvestigationIsQuiet(env: Inv.Env, id: IncidentId, pc: Inv.Pc, db: Db)
    ensures var end := Inv.Finish(env, id, pc, db).1;
      end.dirs == db.dirs && end.published == db.published && end.incidents.Keys == db.incidents.Keys
    decreases pc.Rank()
  {
    if !pc.Finished? {
      var next := Inv.Step(env, id, pc, db);
      InvestigationIsQuiet(env, id, next.0, next.1);
    }
  }

  /** A steer runs the investigation again: the answer is the status that leaves, the run rows are
      those it leaves (so a new one where it completes), and the directory is reaped exactly when
      the incident failed. Nothing is published. */
  lemma SteerReruns(env: Env, id: IncidentId, text: string, db: Db, answer: Answer, end: Db)
    requires env.decision == Some(Steer(text)) && text != "" && env.faults == {} && Reviewable(env, id, db)
    requires env.rerun.run !in db.runs && env.rerun.run !in db.diagnoses
    requires (answer, end) == Finish(env, id, Lookup, db)
    ensures var status := Inv.StatusAfter(env.rerun, PendingReview);
      && answer == Done(status) && end.StatusIs(id, status)
      && end.dirs == (if status == Failed then db.dirs - {id} else db.dirs)
    ensures end.runs == Inv.RunsAfter(env.rerun, id, db) && end.published == db.published
    ensures SteerLogged(env, id, Steered(db, id, env.latest.value, text), end)
  {
    var run := env.latest.value;
    var noted := Noted(db, run, Steer(text));
    Admitted(env, id, db);
    SteerDecided(env, id, run, text, db, noted);
    SteerStarts(env, id, run, noted, answer, end);
  }

  /** The store in which the re-run starts: the decision noted, the steering logged. */
  function Steered(db: Db, id: IncidentId, run: RunId, text: string): Db {
    db.(diagnoses := if run in db.diagnoses
                     then db.diagnoses[run := db.diagnoses[run].(review := Some(Steer(text)))] else db.diagnoses,
        events := db.events + [Event(id, Some(run), SteeredEvent)])
  }

  /** What the re-run left in the other tables. */
  ghost predicate SteerLogged(env: Env, id: IncidentId, before: Db, end: Db) {
    && end.diagnoses == Inv.DiagnosesAfter(env.rerun, id, before)
    && end.evidence == Inv.EvidenceAfter(env.rerun, before)
    && end.events == Inv.EventsAfter(env.rerun, id, before)
  }

  lemma SteerDecided(env: Env, id: IncidentId, run: RunId, text: string, db: Db, noted: Db)
    requires env.decision == Some(Steer(text)) && env.faults == {} && noted == Noted(db, run, Steer(text))
    ensures Finish(env, id, ReadDiagnosis(run), db) == Finish(env, id, SteerEvent(run), noted)
  {
    Unfold(env, id, ReadDiagnosis(run), db);
    SteerReviewed(env, id, run, text, db, noted);
    Unfold(env, id, SteerReview(run, text), db);
  }

  lemma SteerReviewed(env: Env, id: IncidentId, run: RunId, text: string, db: Db, noted: Db)
    requires env.faults == {} && noted == Noted(db, run, Steer(text))
    ensures Step(env, id, SteerReview(run, text), db) == (SteerEvent(run), noted)
  {
  }

  ghost predicate Rerun(env: Env, id: IncidentId, db: Db, status: Status, answer: Answer, end: Db) {
    && answer == Done(status) && end.StatusIs(id, status)
    && end.dirs == (if status == Failed then db.dirs - {id} else db.dirs)
    && end.runs == Inv.RunsAfter(env.rerun, id, db) && end.published == db.published
  }

  lemma SteerStarts(env: Env, id: IncidentId, run: RunId, db: Db, answer: Answer, end: Db)
    requires env.faults == {} && db.StatusIs(id, PendingReview)
    requires env.rerun.run !in db.runs && env.rerun.run !in db.diagnoses
    requires (answer, end) == Finish(env, id, SteerEvent(run), db)
    ensures Rerun(env, id, db, Inv.StatusAfter(env.rerun, PendingReview), answer, end)
    ensures SteerLogged(env, id, db.(events := db.events + [Event(id, Some(run), SteeredEvent)]), end)
  {
    var next := db.(events := db.events + [Event(id, Some(run), SteeredEvent)]);
    SteerNotes(env, id, run, db, next);
    SteerHandsOver(env, id, next);
    RerunEnds(env, id, next, answer, end);
  }

  lemma SteerNotes(env: Env, id: IncidentId, run: RunId, db: Db, next: Db)
    requires env.faults == {} && next == db.(events := db.events + [Event(id, Some(run), SteeredEvent)])
    ensures Finish(env, id, SteerEvent(run), db) == Finish(env, id, SteerProvider, next)
  {
    SteerEventStep(env, id, run, db);
    Unfold(env, id, SteerEvent(run), db);
  }

  lemma SteerHandsOver(env: Env, id: IncidentId, db: Db)
    requires env.faults == {}
    ensures Finish(env, id, SteerProvider, db) == Finish(env, id, Steering(Inv.SetRunning), db)
  {
    assert Step(env, id, SteerProvider, db) == (Steering(Inv.SetRunning), db);
    Unfold(env, id, SteerProvider, db);
  }

  lemma RerunEnds(env: Env, id: IncidentId, db: Db, answer: Answer, end: Db)
    requires env.faults == {} && db.StatusIs(id, PendingReview)
    requires env.rerun.run !in db.runs && env.rerun.run !in db.diagnoses
    requires (answer, end) == Finish(env, id, Steering(Inv.SetRunning), db)
    ensures Rerun(env, id, db, Inv.StatusAfter(env.rerun, PendingReview), answer, end)
    ensures SteerLogged(env, id, db, end)
  {
    var settled := Inv.Finish(env.rerun, id, Inv.SetRunning, db).1;
    SteeringFinishes(env, id, Inv.SetRunning, db);
    Inv.InvestigationLeaves(env.rerun, id, db, settled);
    Inv.InvestigationLogs(env.rerun, id, db, settled);
    InvestigationIsQuiet(env.rerun, id, Inv.SetRunning, db);
    SteerEnds(env, id, settled, answer, end);
  }

  lemma SteerEnds(env: Env, id: IncidentId, db: Db, answer: Answer, end: Db)
    requires env.faults == {} && id in db.incidents && (answer, end) == Finish(env, id, SteerReread, db)
    ensures answer == Done(db.incidents[id].status) && end.incidents == db.incidents
    ensures end.dirs == (if db.StatusIs(id, Failed) then db.dirs - {id} else db.dirs)
    ensures end.runs == db.runs && end.published == db.published
    ensures end.diagnoses == db.diagnoses && end.evidence == db.evidence && end.events == db.events
  {
    Unfold(env, id, SteerReread, db);
    if db.StatusIs(id, Failed) {
      SteerReaps(env, id, db);
      assert DiscardSnapshot(db, id).dirs == db.dirs - {id};
    }
  }

  lemma SteerReaps(env: Env, id: IncidentId, db: Db)
    requires env.faults == {}
    ensures Finish(env, id, SteerDiscard, db) == (Done(Failed), DiscardSnapshot(db, id))
  {
    Unfold(env, id, SteerDiscard, db);
  }
}
