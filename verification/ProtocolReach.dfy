/** The promises are not empty: any clean, verifiable diagnosis of any incident can go all the way
    from its delivery to its publication. */
module ProtocolReach {
  import opened Wrappers
  import opened Evidence
  import opened Store
  import opened Ingress
  import opened Locks
  import opened Protocol
  import opened ProtocolProgress
  import opened ProtocolTheorems
  import opened ProtocolSafety
  import opened ProtocolRuns
  import Inv = Investigation
  import Review
  import Verifier

  lemma Extend(run: seq<State>, s: State)
    requires IsRun(run) && Next(run[|run| - 1], s)
    ensures IsRun(run + [s])
  {
    forall i | 0 < i < |run + [s]| ensures Link(run + [s], i) {
      if i < |run| {
        assert Link(run, i);
      }
    }
  }

  lemma ExtendSolo(run: seq<State>, part: seq<State>, a: Task)
    requires IsRun(run) && Solo(part, a) && part[0] == run[|run| - 1]
    ensures IsRun(run + part[1..])
  {
    var all := run + part[1..];
    forall i | 0 < i < |all| ensures Link(all, i) {
      if i < |run| {
        assert Link(run, i);
      } else {
        assert Act(part[i - |run|], part[i - |run| + 1], a);
      }
    }
  }

  // --- one request, alone ------------------------------------------------------------------------

  /** The process is up and idle. */
  ghost predicate Idle(s: State) {
    s.phase.Up? && s.agents == map[] && s.locks == Empty()
  }

  /** A request that arrives at an idle process enters and takes its lock. */
  lemma Admit(run: seq<State>, a: Task, id: IncidentId, role: Role) returns (longer: seq<State>)
    requires IsRun(run) && Idle(run[|run| - 1]) && role.Fresh() && role.Valid()
    ensures run <= longer && IsRun(longer) && MayAct(longer[|longer| - 1], a)
    ensures var s, s' := run[|run| - 1], longer[|longer| - 1];
      s' == s.(agents := map[a := Agent(id, role)], locks := Acquire(Enter(Empty(), a, id, 0), a))
  {
    var s := run[|run| - 1];
    var s1 := s.(agents := s.agents[a := Agent(id, role)], locks := Enter(s.locks, a, id, 0));
    assert Arrive(s, s1, a, id, role, 0);
    Extend(run, s1);
    var s2 := s1.(locks := Acquire(s1.locks, a));
    assert Grab(s1, s2, a);
    Extend(run + [s1], s2);
    longer := run + [s1] + [s2];
  }

  /** And leaves it idle again when it is done. */
  lemma Dismiss(run: seq<State>, a: Task, id: IncidentId) returns (longer: seq<State>)
    requires IsRun(run)
    requires var s := run[|run| - 1];
      && s.phase.Up? && s.locks == Acquire(Enter(Empty(), a, id, 0), a)
      && s.agents.Keys == {a} && s.agents[a].id == id && s.agents[a].role.Request() && s.agents[a].role.Done()
    ensures run <= longer && IsRun(longer) && Idle(longer[|longer| - 1])
    ensures longer[|longer| - 1].w == run[|run| - 1].w && longer[|longer| - 1].queue == run[|run| - 1].queue
    ensures longer[|longer| - 1].workers == run[|run| - 1].workers
      && longer[|longer| - 1].maxsize == run[|run| - 1].maxsize
  {
    var s := run[|run| - 1];
    var s' := s.(agents := s.agents - {a}, locks := Exit(s.locks, a));
    assert Leave(s, s', a);
    assert s'.agents == map[];
    assert s'.locks == Empty();
    Extend(run, s');
    longer := run + [s'];
  }

  // --- an undisturbed investigation ----------------------------------------------------------------

  /** Nothing raises, the loop concludes, and an examiner is pinned and available. */
  ghost predicate Smooth(env: Inv.Env, d: Diagnosis, sig: Signals, verified: Diagnosis) {
    && env.Valid() && env.faults == {} && env.readable && env.concludes == Some(d)
    && Inv.RunVerifier(d, sig, env.examiner) == Some(verified)
  }

  lemma SmoothInvestigation(env: Inv.Env, id: IncidentId, db: Db, d: Diagnosis, verified: Diagnosis)
    requires id in db.incidents && Smooth(env, d, db.Reads(id), verified)
    requires env.run !in db.runs && env.run !in db.diagnoses
    ensures var (ok, db') := Inv.Finish(env, id, Inv.SetRunning, db);
      && ok && db'.StatusIs(id, PendingReview) && db'.published == db.published
      && db'.runs == db.runs[env.run := Run(id, env.started, if d.abstained then Abstained else Diagnosed,
                                            Checked(Fabricated(d, db.Reads(id))))]
      && env.run in db'.diagnoses && db'.diagnoses[env.run].verified == Some(verified)
  {
    var f := Inv.Finding(d, Fabricated(d, db.Reads(id)), Some(verified));
    var db1 := SetIncidentStatus(db, id, Running).value;
    Inv.Unfold(env, id, Inv.SetRunning, db);
    Inv.Unfold(env, id, Inv.Investigate, db1);
    assert db1.Reads(id) == db.Reads(id);
    assert Inv.Finish(env, id, Inv.SetRunning, db) == Inv.Finish(env, id, Inv.RecordRun(f), db1);
    SmoothRecording(env, id, db1, f);
  }

  lemma SmoothRecording(env: Inv.Env, id: IncidentId, db: Db, f: Inv.Finding)
    requires id in db.incidents && env.faults == {} && env.run !in db.runs && env.run !in db.diagnoses
    ensures var (ok, db') := Inv.Finish(env, id, Inv.RecordRun(f), db);
      && ok && db'.StatusIs(id, PendingReview) && db'.published == db.published
      && db'.runs == db.runs[env.run := Run(id, env.started, f.Outcome(), Checked(f.fabricated))]
      && env.run in db'.diagnoses && db'.diagnoses[env.run].verified == f.verified
  {
    var db1 := Inv.Step(env, id, Inv.RecordRun(f), db).1;
    Inv.Unfold(env, id, Inv.RecordRun(f), db);
    var db2 := Inv.Step(env, id, Inv.RecordDiagnosis(f), db1).1;
    Inv.Unfold(env, id, Inv.RecordDiagnosis(f), db1);
    SmoothEnding(env, id, db2, f);
  }

  lemma SmoothEnding(env: Inv.Env, id: IncidentId, db: Db, f: Inv.Finding)
    requires id in db.incidents && env.faults == {} && env.run in db.runs
    ensures var (ok, db') := Inv.Finish(env, id, Inv.RecordEvidence(f), db);
      ok && db'.StatusIs(id, PendingReview) && db'.published == db.published && db'.runs == db.runs
        && db'.diagnoses == db.diagnoses
  {
    Inv.Unfold(env, id, Inv.RecordEvidence(f), db);
    SmoothOutcome(env, id, Inv.Step(env, id, Inv.RecordEvidence(f), db).1, f);
  }

  lemma SmoothOutcome(env: Inv.Env, id: IncidentId, db: Db, f: Inv.Finding)
    requires id in db.incidents && env.faults == {}
    ensures var (ok, db') := Inv.Finish(env, id, Inv.AppendOutcome(f), db);
      ok && db'.StatusIs(id, PendingReview) && db'.published == db.published && db'.runs == db.runs
        && db'.diagnoses == db.diagnoses
  {
    Inv.Unfold(env, id, Inv.AppendOutcome(f), db);
    Inv.Unfold(env, id, Inv.SetPending(f), Inv.Step(env, id, Inv.AppendOutcome(f), db).1);
  }

  lemma SmoothWork(env: WorkEnv, id: IncidentId, db: Db)
    requires id in db.incidents && env.faults == {}
    requires Inv.Finish(env.inv, id, Inv.SetRunning, db).0
    ensures WorkFinish(env, id, Load, db) == Inv.Finish(env.inv, id, Inv.SetRunning, db).1
  {
    WorkingFinishes(env, id, Inv.SetRunning, db);
    assert WorkStep(env, id, Load, db) == (Working(Inv.SetRunning), db);
  }

  // --- the whole way -------------------------------------------------------------------------------

  const START := Db(map[], map[], map[], {}, [], map[], [], map[])

  function Begin(maxsize: nat, workers: nat): State {
    State(World(START, {}, {}, {}), [], map[], Empty(), Up, maxsize, workers)
  }

  /** From an empty store: the incident is delivered and accepted. */
  lemma Deliver(id: IncidentId, env: DeliverEnv, maxsize: nat, workers: nat) returns (run: seq<State>)
    requires env.faults == {} && maxsize > 0
    ensures IsRun(run) && Idle(run[|run| - 1])
    ensures var s := run[|run| - 1];
      && s.queue == [id] && s.workers == workers
      && s.w.db.incidents == map[id := Incident(env.received, Queued, env.hint)]
      && s.w.db.dirs == map[id := env.source] && s.w.db.runs == map[] && s.w.db.diagnoses == map[]
        && s.w.db.published == []
  {
    run := [Begin(maxsize, workers)];
    run := Admit(run, 0, id, Delivery(env, Find));
    var s := run[|run| - 1];
    var part := DeliveryRuns(s, 0);
    DeliveryAllOrNothing(env, id, Front(START, []), maxsize);
    DeliveryKeeps(env, id, Find, Front(START, []), maxsize);
    ExtendSolo(run, part, 0);
    run := run + part[1..];
    assert run[|run| - 1] == part[|part| - 1];
    run := Dismiss(run, 0, id);
    assert START.incidents[id := Incident(env.received, Queued, env.hint)] ==
      map[id := Incident(env.received, Queued, env.hint)];
    assert START.dirs[id := env.source] == map[id := env.source];
  }

  /** A delivery never touches runs, diagnoses or publications. */
  lemma {:induction false} DeliveryKeeps(env: DeliverEnv, id: IncidentId, pc: DeliverPc, s: Front, maxsize: nat)
    ensures var front := DeliverFinish(env, id, pc, s, maxsize).1;
      front.db.runs == s.db.runs && front.db.diagnoses == s.db.diagnoses && front.db.published == s.db.published
    decreases pc.Rank()
  {
    if !pc.Answered? {
      var next := DeliverStep(env, id, pc, s, maxsize);
      DeliveryKeeps(env, id, next.0, next.1, maxsize);
    }
  }

  /** Then it is investigated. */
  lemma Investigate(before: seq<State>, id: IncidentId, env: Inv.Env, d: Diagnosis,
    verified: Diagnosis) returns (run: seq<State>)
    requires IsRun(before) && Idle(before[|before| - 1])
    requires var s := before[|before| - 1];
      && s.queue == [id] && s.workers > 0 && s.w.db.incidents.Keys == {id} && Smooth(env, d, s.w.db.Reads(id), verified)
      && s.w.db.runs == map[] && s.w.db.diagnoses == map[] && s.w.db.published == []
    ensures IsRun(run) && Idle(run[|run| - 1])
    ensures var (db, db') := (before[|before| - 1].w.db, run[|run| - 1].w.db);
      && db'.StatusIs(id, PendingReview) && db'.published == [] && db'.incidents.Keys == {id}
      && db'.runs == map[env.run := Run(id, env.started, if d.abstained then Abstained else Diagnosed,
                                        Checked(Fabricated(d, db.Reads(id))))]
      && env.run in db'.diagnoses && db'.diagnoses[env.run].verified == Some(verified)
  {
    var s, wenv := before[|before| - 1], WorkEnv(env, {});
    run := PickUp(before, id, wenv);
    var s1 := run[|run| - 1];
    var part := WorkerRuns(s1, 1);
    SmoothInvestigation(env, id, s.w.db, d, verified);
    Review.InvestigationIsQuiet(env, id, Inv.SetRunning, s.w.db);
    SmoothWork(wenv, id, s.w.db);
    ExtendSolo(run, part, 1);
    run := run + part[1..];
    assert run[|run| - 1] == part[|part| - 1];
    run := PutDown(run);
    assert map[][env.run := Run(id, env.started, if d.abstained then Abstained else Diagnosed,
                                Checked(Fabricated(d, s.w.db.Reads(id))))] == run[|run| - 1].w.db.runs;
  }

  /** An idle worker takes the only queued incident. */
  lemma PickUp(before: seq<State>, id: IncidentId, env: WorkEnv) returns (run: seq<State>)
    requires IsRun(before) && Idle(before[|before| - 1]) && env.inv.Valid()
    requires before[|before| - 1].queue == [id] && before[|before| - 1].workers > 0
    ensures IsRun(run) && MayAct(run[|run| - 1], 1)
    ensures run[|run| - 1] == before[|before| - 1].(queue := [], agents := map[1 := Agent(id, Worker(env, Load))])
  {
    var s := before[|before| - 1];
    var s1 := s.(queue := [], agents := map[1 := Agent(id, Worker(env, Load))]);
    assert s.queue[1..] == [] && s.agents[1 := Agent(id, Worker(env, Load))] == s1.agents;
    assert Take(s, s1, 1, env);
    Extend(before, s1);
    run := before + [s1];
  }

  /** A worker that is done goes back to the queue. */
  lemma PutDown(before: seq<State>) returns (run: seq<State>)
    requires IsRun(before)
    requires var s := before[|before| - 1];
      s.phase.Up? && s.locks == Empty() && s.agents.Keys == {1} && s.agents[1].role.Worker? && s.agents[1].role.Done()
    ensures IsRun(run) && Idle(run[|run| - 1]) && run[|run| - 1].w == before[|before| - 1].w
  {
    var s := before[|before| - 1];
    var s' := s.(agents := s.agents - {1});
    assert Free(s, s', 1);
    assert s'.agents == map[];
    Extend(before, s');
    run := before + [s'];
  }

  /** Then approved. */
  lemma Approved(before: seq<State>, id: IncidentId, r: RunId, verified: Diagnosis,
    rerun: Inv.Env) returns (run: seq<State>)
    requires IsRun(before) && Idle(before[|before| - 1]) && rerun.Valid()
    requires InReview(before[|before| - 1].w.db, id, r, verified)
    ensures before <= run && IsRun(run) && Idle(run[|run| - 1]) && run[|run| - 1].w.db.StatusIs(id, Posted)
    ensures run[|run| - 1].w.db.published == before[|before| - 1].w.db.published + [Publication(id, r, verified)]
  {
    var env := Approval(r, rerun);
    run := Admit(before, 2, id, Reviewing(env, Review.Lookup));
    var s := run[|run| - 1];
    assert IsLatest(s.w.db, id, Some(r));
    var part := ReviewRuns(s, 2);
    Review.ApproveIsFailClosed(env, id, s.w.db);
    ExtendSolo(run, part, 2);
    run := run + part[1..];
    assert run[|run| - 1] == part[|part| - 1];
    run := Dismiss(run, 2, id);
  }

  /** The incident waits for approval, and a run that may be listed last is clean and verified. */
  ghost predicate InReview(db: Db, id: IncidentId, r: RunId, verified: Diagnosis) {
    && db.StatusIs(id, PendingReview)
    && MayBeLatest(db, id, r) && !db.runs[r].fabricated.Truthy()
    && r in db.diagnoses && db.diagnoses[r].verified == Some(verified)
  }

  function Approval(r: RunId, rerun: Inv.Env): Review.Env {
    Review.Env(Some(Approve), Some(r), rerun, false, {})
  }

  /** Whatever the incident, its signals and the diagnosis: if the diagnosis fabricates nothing and
      an examiner is available, some run of the service delivers, investigates, approves and
      publishes it. */
  lemma CleanDiagnosisCanBePublished(id: IncidentId, source: Dir, env: Inv.Env, d: Diagnosis, verified: Diagnosis,
    maxsize: nat, workers: nat)
    returns (run: seq<State>)
    requires maxsize > 0 && workers > 0
    requires Smooth(env, d, source.signals, verified) && Fabricated(d, source.signals) == {}
    ensures IsRun(run) && Idle(run[|run| - 1])
    ensures run[|run| - 1].w.db.published == [Publication(id, env.run, verified)]
      && run[|run| - 1].w.db.StatusIs(id, Posted)
  {
    run := Deliver(id, DeliverEnv(None, 0, source, {}), maxsize, workers);
    run := Investigate(run, id, env, d, verified);
    run := Approved(run, id, env.run, verified, env);
  }

  // --- why publication is only at most once without a crash ----------------------------------------

  /** The next step of a review that may go on. */
  lemma Advance(run: seq<State>, a: Task, id: IncidentId, env: Review.Env, pc: Review.Pc) returns (longer: seq<State>)
    requires IsRun(run) && MayAct(run[|run| - 1], a) && !pc.Replied? && pc.Settled()
    requires var s := run[|run| - 1];
      s.agents[a] == Agent(id, Reviewing(env, pc)) && (pc.ListRuns? ==> IsLatest(s.w.db, id, env.latest))
    ensures IsRun(longer) && MayAct(longer[|longer| - 1], a)
    ensures var (s, s') := (run[|run| - 1], longer[|longer| - 1]);
      var (pc', db') := Review.Step(env, id, pc, s.w.db);
      s'.agents[a] == Agent(id, Reviewing(env, pc')) && s'.w.db == db'
  {
    var s := run[|run| - 1];
    CanAct(s, a);
    Extend(run, After(s, a));
    longer := run + [After(s, a)];
  }

  lemma JudgingSteps(db: Db, id: IncidentId, r: RunId, verified: Diagnosis, env: Review.Env)
    requires env == Approval(r, env.rerun) && InReview(db, id, r, verified)
    ensures IsLatest(db, id, env.latest)
    ensures Review.Step(env, id, Review.Lookup, db) == (Review.ListRuns, db)
    ensures Review.Step(env, id, Review.ListRuns, db) == (Review.ReadDiagnosis(r), db)
    ensures Review.Step(env, id, Review.ReadDiagnosis(r), db) == (Review.ApproveReview(r, verified), db)
  {
  }

  /** An approval up to its first write. */
  lemma Judged(before: seq<State>, id: IncidentId, r: RunId, verified: Diagnosis, env: Review.Env)
    returns (run: seq<State>)
    requires IsRun(before) && Idle(before[|before| - 1]) && env.rerun.Valid() && env == Approval(r, env.rerun)
    requires InReview(before[|before| - 1].w.db, id, r, verified)
    ensures IsRun(run) && MayAct(run[|run| - 1], 2) && run[|run| - 1].w.db == before[|before| - 1].w.db
    ensures run[|run| - 1].agents[2] == Agent(id, Reviewing(env, Review.ApproveReview(r, verified)))
  {
    JudgingSteps(before[|before| - 1].w.db, id, r, verified, env);
    run := Admit(before, 2, id, Reviewing(env, Review.Lookup));
    run := Advance(run, 2, id, env, Review.Lookup);
    run := Advance(run, 2, id, env, Review.ListRuns);
    run := Advance(run, 2, id, env, Review.ReadDiagnosis(r));
  }

  /** And up to the publication: sent, but nothing written after it. */
  lemma Sent(before: seq<State>, id: IncidentId, r: RunId, verified: Diagnosis, rerun: Inv.Env)
    returns (run: seq<State>)
    requires IsRun(before) && Idle(before[|before| - 1]) && rerun.Valid()
    requires InReview(before[|before| - 1].w.db, id, r, verified)
    ensures IsRun(run)
    ensures var (db, db') := (before[|before| - 1].w.db, run[|run| - 1].w.db);
      && InReview(db', id, r, verified) && db'.incidents == db.incidents
      && db'.published == db.published + [Publication(id, r, verified)]
  {
    var env := Approval(r, rerun);
    SendingSteps(before[|before| - 1].w.db, id, r, verified, env);
    run := Judged(before, id, r, verified, env);
    run := Advance(run, 2, id, env, Review.ApproveReview(r, verified));
    run := Advance(run, 2, id, env, Review.Publish(r, verified));
  }

  lemma SendingSteps(db: Db, id: IncidentId, r: RunId, verified: Diagnosis, env: Review.Env)
    requires env == Approval(r, env.rerun) && InReview(db, id, r, verified)
    ensures var approved := Review.Step(env, id, Review.ApproveReview(r, verified), db);
      var sent := Review.Step(env, id, Review.Publish(r, verified), approved.1);
      && approved.0 == Review.Publish(r, verified)
      && InReview(sent.1, id, r, verified) && sent.1.incidents == db.incidents
      && sent.1.published == db.published + [Publication(id, r, verified)]
  {
  }

  // --- a restart from anywhere ------------------------------------------------------------------

  /** The waiting incidents can be listed oldest first. */
  lemma {:induction false} Listing(rows: map<IncidentId, Incident>, todo: set<IncidentId>)
    returns (ids: seq<IncidentId>)
    requires todo <= rows.Keys
    ensures forall id :: id in ids <==> id in todo
    ensures forall i, j :: 0 <= i < j < |ids| ==> ids[i] != ids[j]
    ensures forall i, j :: 0 <= i < j < |ids| ==> rows[ids[i]].received <= rows[ids[j]].received
  {
    if todo == {} {
      ids := [];
    } else {
      EarliestExists(rows, todo);
      var first :| first in todo && forall k <- todo :: rows[first].received <= rows[k].received;
      var rest := Listing(rows, todo - {first});
      ids := [first] + rest;
    }
  }

  /** What a restart leaves alone: publications, runs, diagnoses, and rows that do not wait. */
  ghost predicate Survives(db: Db, db': Db) {
    && db'.published == db.published && db'.runs == db.runs && db'.diagnoses == db.diagnoses
    && forall id :: id in db.incidents && !db.incidents[id].status.Waiting() ==>
        id in db'.incidents && db'.incidents[id] == db.incidents[id]
  }

  ghost predicate Recovers(s: State) {
    s.phase.Recovering? && s.agents == map[] && s.locks == Empty() && s.queue == []
  }

  lemma CrashAndBoot(before: seq<State>) returns (run: seq<State>)
    requires IsRun(before)
    ensures before <= run && IsRun(run) && Recovers(run[|run| - 1])
    ensures run[|run| - 1].w.db == before[|before| - 1].w.db
  {
    var s := before[|before| - 1];
    var waiting := set id | id in s.w.db.incidents && s.w.db.incidents[id].status.Waiting();
    var posting := set a | a in s.agents && s.agents[a].role.Posting() :: s.agents[a].id;
    var down := s.(w := s.w.(lost := s.w.lost + waiting, disturbed := s.w.disturbed + posting),
                   queue := [], agents := map[], locks := Empty(), phase := Down);
    assert Crash(s, down);
    Extend(before, down);
    var listing := Listing(s.w.db.incidents, waiting);
    var booting := down.(phase := Recovering(listing, []));
    assert Boot(down, booting, listing);
    Extend(before + [down], booting);
    run := before + [down] + [booting];
  }

  lemma Reconciles(s: State) returns (s': State)
    requires Recovers(s) && s.phase.todo != [] && Waits(s.w, s.phase.todo[0])
    ensures Reconcile(s, s') && Recovers(s') && s'.phase.todo == s.phase.todo[1..] && Survives(s.w.db, s'.w.db)
  {
    var id, rest := s.phase.todo[0], s.phase.todo[1..];
    s' := if Completed(s.w.db, id)
          then s.(w := s.w.(db := SetIncidentStatus(s.w.db, id, PendingReview).value),
            phase := Recovering(rest, s.phase.keep))
          else s.(phase := Recovering(rest, s.phase.keep + [id]));
  }

  /** The reconcile loop runs to its end. */
  lemma {:induction false} ReconcileAll(before: seq<State>) returns (run: seq<State>)
    requires IsRun(before) && Recovers(before[|before| - 1])
    ensures before <= run && IsRun(run) && Recovers(run[|run| - 1]) && run[|run| - 1].phase.todo == []
    ensures Survives(before[|before| - 1].w.db, run[|run| - 1].w.db)
    decreases |before[|before| - 1].phase.todo|
  {
    var s := before[|before| - 1];
    if s.phase.todo == [] {
      run := before;
    } else {
      RunSafe(before, |before| - 1);
      assert (s.phase.keep + s.phase.todo)[|s.phase.keep|] == s.phase.todo[0];
      var s' := Reconciles(s);
      Extend(before, s');
      run := ReconcileAll(before + [s']);
      SurvivesOn(s.w.db, s'.w.db, run[|run| - 1].w.db);
    }
  }

  lemma SurvivesOn(db: Db, db': Db, db'': Db)
    requires Survives(db, db') && Survives(db', db'')
    ensures Survives(db, db'')
  {
  }

  /** From any state of any run the process may stop and come up again, idle. */
  lemma Restart(before: seq<State>) returns (run: seq<State>)
    requires IsRun(before)
    ensures before <= run && IsRun(run) && Idle(run[|run| - 1])
    ensures Survives(before[|before| - 1].w.db, run[|run| - 1].w.db)
  {
    var booted := CrashAndBoot(before);
    var reconciled := ReconcileAll(booted);
    var s := reconciled[|reconciled| - 1];
    var keep := s.phase.keep;
    var n := if |keep| <= s.maxsize then |keep| else s.maxsize;
    var up := s.(queue := keep[..n], phase := Up, w := s.w.(lost := set id | id in keep[n..]));
    assert Resume(s, up);
    Extend(reconciled, up);
    run := reconciled + [up];
  }

  /** From any state of any run in which an incident is in review with a clean and verified last
      run, published before or not, whoever is at work: a restart and an approval publish it. */
  lemma ReviewedCanBePublished(before: seq<State>, id: IncidentId, r: RunId, verified: Diagnosis, rerun: Inv.Env)
    returns (run: seq<State>)
    requires IsRun(before) && rerun.Valid() && InReview(before[|before| - 1].w.db, id, r, verified)
    ensures before <= run && IsRun(run) && run[|run| - 1].w.db.StatusIs(id, Posted)
    ensures run[|run| - 1].w.db.published == before[|before| - 1].w.db.published + [Publication(id, r, verified)]
  {
    var restarted := Restart(before);
    run := Approved(restarted, id, r, verified, rerun);
  }

  /** So an incident that has been published and is still in review so can be published again: at
      most once is a promise about the undisturbed only. */
  lemma PublishedAgain(before: seq<State>, id: IncidentId, r: RunId, verified: Diagnosis, rerun: Inv.Env)
    returns (run: seq<State>)
    requires IsRun(before) && rerun.Valid() && InReview(before[|before| - 1].w.db, id, r, verified)
    requires PubCount(before[|before| - 1].w.db.published, id) >= 1
    ensures before <= run && IsRun(run) && id in run[|run| - 1].w.disturbed
    ensures PubCount(run[|run| - 1].w.db.published, id) == PubCount(before[|before| - 1].w.db.published, id) + 1
  {
    run := ReviewedCanBePublished(before, id, r, verified, rerun);
    var ps, p := before[|before| - 1].w.db.published, Publication(id, r, verified);
    assert (ps + [p])[..|ps|] == ps;
    if id !in run[|run| - 1].w.disturbed {
      PublishedAtMostOnce(run, |run| - 1, id);
    }
  }

  /** And such states there are: if the process stops after the publication was sent and before the
      row is marked, the incident is back in review when it comes up, and is published twice. */
  lemma CrashCanPublishTwice(id: IncidentId, source: Dir, env: Inv.Env, d: Diagnosis, verified: Diagnosis,
    maxsize: nat, workers: nat)
    returns (run: seq<State>)
    requires maxsize > 0 && workers > 0
    requires Smooth(env, d, source.signals, verified) && Fabricated(d, source.signals) == {}
    ensures IsRun(run) && id in run[|run| - 1].w.disturbed
    ensures var p := Publication(id, env.run, verified); run[|run| - 1].w.db.published == [p] + [p]
  {
    var p := Publication(id, env.run, verified);
    run := Deliver(id, DeliverEnv(None, 0, source, {}), maxsize, workers);
    run := Investigate(run, id, env, d, verified);
    run := Sent(run, id, env.run, verified, env);
    assert [] + [p] == [p];
    run := ReviewedCanBePublished(run, id, env.run, verified, env);
    TwiceIsDisturbed(run, id, p);
  }

  lemma TwiceIsDisturbed(run: seq<State>, id: IncidentId, p: Publication)
    requires IsRun(run) && p.incident == id && run[|run| - 1].w.db.published == [p] + [p]
    ensures id in run[|run| - 1].w.disturbed
  {
    assert ([p] + [p])[..1] == [p] && [p][..0] == [];
    assert PubCount([p], id) == 1;
    assert PubCount([p] + [p], id) == 2;
    if id !in run[|run| - 1].w.disturbed {
      PublishedAtMostOnce(run, |run| - 1, id);
    }
  }
}
