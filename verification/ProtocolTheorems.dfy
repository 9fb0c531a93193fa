/** What the service promises, stated over every run of the protocol: fail-closed publishing,
    single flight and work conservation, snapshots kept while needed, no double posts, and
    exact recovery. */
module ProtocolTheorems {
  import opened Wrappers
  import opened Evidence
  import opened Store
  import opened Ingress
  import opened Locks
  import Inv = Investigation
  import opened Protocol
  import opened WorldSafety
  import opened ProtocolSafety
  import opened ProtocolRuns

  /** What lasts from one state to a later one: publications, runs, acceptances, final statuses
      and, for an accepted or investigated incident, the signals it is judged against. */
  ghost predicate Lasts(w: World, w': World, id: IncidentId) {
    && (forall p <- w.db.published :: p in w'.db.published)
    && (forall r <- w.db.runs :: r in w'.db.runs && w'.db.runs[r] == w.db.runs[r])
    && (id in w.accepted ==> id in w'.accepted)
    && (id in w.accepted || !NoRuns(w.db, id) ==> w'.db.Base(id) == w.db.Base(id))
    && (id in w.db.incidents && w.db.incidents[id].status.Terminal() ==>
          id in w'.db.incidents && w'.db.incidents[id].status == w.db.incidents[id].status)
  }

  ghost predicate Forward(w: World, w': World) {
    forall id :: Lasts(w, w', id) && RespectsAt(w, w', id)
  }

  /** Only a task's step and the recovery's reconciliation write to the store. */
  lemma OtherStepsQuiet(s: State, s': State)
    requires Next(s, s') && !(exists a :: Act(s, s', a)) && !Reconcile(s, s')
    ensures s'.w.db == s.w.db && s'.w.accepted == s.w.accepted && s.w.disturbed <= s'.w.disturbed
  {
  }

  lemma QuietForward(w: World, w': World)
    requires w'.db == w.db && w'.accepted == w.accepted && w.disturbed <= w'.disturbed
    ensures Forward(w, w')
  {
  }

  lemma GrowsForward(w: World, w': World, x: IncidentId)
    requires Grows(w.db, w'.db, x) && Respects(w, w')
    ensures Forward(w, w')
  {
    var n := |w.db.published|;
    assert w'.db.published[..n] == w.db.published;
    assert forall p <- w.db.published :: p in w'.db.published[..n];
    assert forall id :: RespectsAt(w, w', id) ==> Lasts(w, w', id);
  }

  lemma NextForward(s: State, s': State)
    requires SafeState(s) && Next(s, s')
    ensures Forward(s.w, s'.w)
  {
    if a :| Act(s, s', a) {
      ActSteps(s, s', a);
      GrowsForward(s.w, s'.w, s.agents[a].id);
    } else if Reconcile(s, s') {
      ReconcileKeeps(s, s');
      GrowsForward(s.w, s'.w, s.phase.todo[0]);
    } else {
      OtherStepsQuiet(s, s');
      QuietForward(s.w, s'.w);
    }
  }

  lemma LastsOn(w: World, w': World, w'': World, id: IncidentId)
    requires Lasts(w, w', id) && Forward(w', w'')
    ensures Lasts(w, w'', id)
  {
    assert Lasts(w', w'', id);
    if !NoRuns(w.db, id) {
      var r :| r in w.db.runs && w.db.runs[r].incident == id;
      assert w'.db.runs[r].incident == id;
    }
  }

  lemma {:induction false} RunForward(run: seq<State>, i: nat, j: nat, id: IncidentId)
    requires IsRun(run) && i <= j < |run|
    ensures Lasts(run[i].w, run[j].w, id)
    decreases j - i
  {
    if i < j {
      RunForward(run, i, j - 1, id);
      RunSafe(run, j - 1);
      assert Link(run, j);
      NextForward(run[j - 1], run[j]);
      LastsOn(run[i].w, run[j - 1].w, run[j].w, id);
    }
  }

  /** Fail-closed publishing. Whatever has been published was the verified diagnosis of a
      recorded run whose citation check was clean, and it cites only signals of the incident's
      frozen directory, now and in every later state. */
  lemma PublishedCitesRealSignals(run: seq<State>, i: nat, j: nat, p: Publication)
    requires IsRun(run) && i <= j < |run| && p in run[i].w.db.published
    ensures p in run[j].w.db.published
    ensures p.diagnosis.Valid() && Cited(p.diagnosis) <= RealHandles(run[j].w.db.Base(p.incident))
    ensures run[j].w.db.Base(p.incident) == run[i].w.db.Base(p.incident)
    ensures run[j].w.db.RunOf(p.run, p.incident) && !run[j].w.db.runs[p.run].fabricated.Truthy()
    ensures p.run in run[j].w.db.diagnoses && run[j].w.db.diagnoses[p.run].verified == Some(p.diagnosis)
  {
    RunSafe(run, i);
    RunSafe(run, j);
    RunForward(run, i, j, p.incident);
    assert Publishable(run[i].w.db, p.incident, p.run, p.diagnosis);
    PublishableIsReal(run[j].w.db, p.incident, p.run, p.diagnosis);
  }

  /** Single flight: no two tasks ever investigate the same incident, and one that is being
      investigated is not in the queue; nor does the queue hold an incident twice. */
  lemma SingleFlight(run: seq<State>, i: nat)
    requires IsRun(run) && i < |run|
    ensures forall a <- run[i].agents, b <- run[i].agents ::
      run[i].agents[a].role.Investigates() && run[i].agents[b].role.Investigates()
        && run[i].agents[a].id == run[i].agents[b].id
      ==> a == b
    ensures forall a <- run[i].agents :: run[i].agents[a].role.Investigates() ==> run[i].agents[a].id !in run[i].queue
    ensures forall k, l :: 0 <= k < l < |run[i].queue| ==> run[i].queue[k] != run[i].queue[l]
  {
    RunSafe(run, i);
    assert forall a <- run[i].agents :: run[i].agents[a].role.Investigates() ==> run[i].agents[a].role.Owns();
  }

  /** Work conservation: an incident in 'queued' or 'running' that has not been lost to a crash
      or a raising call is in exactly one place: the queue, or the hands of one task. */
  lemma WorkConserved(run: seq<State>, i: nat, id: IncidentId)
    requires IsRun(run) && i < |run|
    requires Waits(run[i].w, id) && id !in run[i].w.lost
    ensures id in run[i].queue <==> !Owned(run[i], id)
    ensures forall a <- run[i].agents, b <- run[i].agents ::
      run[i].agents[a].id == id == run[i].agents[b].id && run[i].agents[a].role.Owns() && run[i].agents[b].role.Owns()
      ==> a == b
  {
    RunSafe(run, i);
  }

  /** None of the calls of this task raises whose raising would give the incident up, or would leave a
      publication unrecorded. */
  predicate Smooth(role: Role) {
    match role
    case Delivery(env, _) => env.faults !! {Inv.UnclaimCall, Inv.ReceivedCall, Inv.RollbackCall}
    case Reviewing(env, _) =>
      env.faults !! {Inv.PublishCall, Inv.EventCall, Inv.StatusCall} && Inv.FailStatusCall !in env.rerun.faults
    case Worker(env, _) =>
      env.faults !! {Inv.LoadCall, Inv.ProviderCall} && Inv.FailStatusCall !in env.inv.faults
  }

  /** A run without a crash in which no task meets such a call. */
  ghost predicate SmoothRun(run: seq<State>) {
    forall i :: 0 <= i < |run| ==>
      run[i].phase.Up? && forall a <- run[i].agents :: Smooth(run[i].agents[a].role)
  }

  /** Then nothing is lost or disturbed, so that what is said of the others holds of every incident:
      the work is conserved, and nothing is published twice. */
  lemma {:induction false} NothingLost(run: seq<State>, i: nat)
    requires IsRun(run) && i < |run| && SmoothRun(run)
    ensures run[i].w.lost == {} && run[i].w.disturbed == {}
  {
    if i > 0 {
      NothingLost(run, i - 1);
      assert Link(run, i);
      SmoothStep(run[i - 1], run[i]);
    }
  }

  lemma SmoothStep(s: State, s': State)
    requires Next(s, s') && s.phase.Up? && s'.phase.Up?
    requires forall a <- s.agents :: Smooth(s.agents[a].role)
    ensures s'.w.lost <= s.w.lost && s'.w.disturbed <= s.w.disturbed
  {
    if a :| Act(s, s', a) {
      var role := s.agents[a].role;
      assert Smooth(role);
      SmoothKeeps(role);
    }
  }

  lemma SmoothKeeps(role: Role)
    requires Smooth(role)
    ensures !Loses(role) && !Disturbs(role)
  {
  }

  /** First in, first out: while the service is up, a step leaves the queue as it is, adds one
      incident behind all others, or takes the foremost one for a worker. */
  lemma QueueIsFifo(s: State, s': State)
    requires Next(s, s') && s.phase.Up? && s'.phase.Up?
    ensures s'.queue == s.queue || (exists id :: s'.queue == s.queue + [id])
      || (s.queue != [] && s'.queue == s.queue[1..]
          && exists a :: a !in s.agents && a in s'.agents && s'.agents[a].role.Worker? && s'.agents[a].id == s.queue[0])
  {
    if a :| Act(s, s', a) {
      var Agent(id, role) := s.agents[a];
      if role.Delivery? {
        var (_, front) := DeliverStep(role.denv, id, role.dpc, Front(s.w.db, s.queue), s.maxsize);
        assert front.queue == s.queue || front.queue == s.queue + [id];
      }
    }
  }

  /** The two ways to investigate: a worker past taking the incident and before its end, and a
      steered review. */
  lemma OneInvestigation(run: seq<State>, i: nat, a: Task, b: Task)
    requires IsRun(run) && i < |run| && a in run[i].agents && b in run[i].agents
    requires run[i].agents[a].id == run[i].agents[b].id
    requires forall c <- {a, b} ::
      var role := run[i].agents[c].role;
      (role.Worker? && (role.wpc.Load? || role.wpc.Working?)) || (role.Reviewing? && role.rpc.Steering?)
    ensures a == b && run[i].agents[a].id !in run[i].queue
  {
    assert a in {a, b} && b in {a, b};
    SingleFlight(run, i);
  }

  /** Snapshot lifetime: an accepted incident is never deleted, and while it is queued, running or
      in review its directory is in place, unchanged since it was accepted. */
  lemma SnapshotKept(run: seq<State>, i: nat, j: nat, id: IncidentId)
    requires IsRun(run) && i <= j < |run| && id in run[i].w.accepted
    ensures id in run[j].w.db.incidents
    ensures !run[j].w.db.incidents[id].status.Terminal() ==>
      id in run[j].w.db.dirs && run[j].w.db.dirs[id].signals == run[i].w.db.Base(id)
  {
    RunSafe(run, j);
    RunForward(run, i, j, id);
    assert RowOk(run[j].w, id);
  }

  /** A directory disappears only when the row is already posted, rejected or failed, or gone. */
  lemma DiscardedOnlyWhenClosed(run: seq<State>, i: nat, id: IncidentId)
    requires IsRun(run) && i + 1 < |run|
    requires id in run[i].w.db.dirs && id !in run[i + 1].w.db.dirs
    ensures id !in run[i].w.db.incidents || run[i].w.db.incidents[id].status.Terminal()
  {
    RunSafe(run, i);
    assert Link(run, i + 1);
    NextForward(run[i], run[i + 1]);
    assert RespectsAt(run[i].w, run[i + 1].w, id);
  }

  lemma InvestigatedIsOpen(w: World, id: IncidentId, role: Role)
    requires RoleOk(w, id, role) && role.Investigates()
    ensures id in w.db.incidents && !w.db.incidents[id].status.Terminal()
  {
  }

  /** Posted, rejected and failed are final, and their incidents are never investigated again. */
  lemma TerminalIsFinal(run: seq<State>, i: nat, j: nat, id: IncidentId)
    requires IsRun(run) && i <= j < |run|
    requires id in run[i].w.db.incidents && run[i].w.db.incidents[id].status.Terminal()
    ensures id in run[j].w.db.incidents && run[j].w.db.incidents[id].status == run[i].w.db.incidents[id].status
    ensures forall a <- run[j].agents :: run[j].agents[a].id == id ==> !run[j].agents[a].role.Investigates()
    ensures id !in run[j].queue
  {
    RunForward(run, i, j, id);
    RunSafe(run, j);
    forall a | a in run[j].agents && run[j].agents[a].id == id ensures !run[j].agents[a].role.Investigates() {
      assert AgentOk(run[j], a);
      if run[j].agents[a].role.Investigates() {
        InvestigatedIsOpen(run[j].w, id, run[j].agents[a].role);
      }
    }
  }

  /** No double post: unless a publication was not followed through (a raise after it was sent,
      a failed write, or a crash before the status was persisted), an incident has been
      published at most once, and a published one that no task is posting reads 'posted'. */
  lemma PublishedAtMostOnce(run: seq<State>, i: nat, id: IncidentId)
    requires IsRun(run) && i < |run| && id !in run[i].w.disturbed
    ensures PubCount(run[i].w.db.published, id) <= 1
    ensures PubCount(run[i].w.db.published, id) == 1 && !BeingPosted(run[i], id) ==> run[i].w.db.StatusIs(id, Posted)
  {
    RunSafe(run, i);
    assert OnceAt(run[i], id);
  }

  // --- recovery -----------------------------------------------------------------------------

  lemma {:induction false} UnfinishedSnoc(db: Db, ids: seq<IncidentId>, id: IncidentId)
    ensures Unfinished(db, ids + [id]) == Unfinished(db, ids) + (if Completed(db, id) then [] else [id])
  {
    assert (ids + [id])[..|ids|] == ids;
  }

  /** A stretch of a run from a boot, over the reconcile loop, before the queue is filled. */
  ghost predicate IsRecovery(part: seq<State>, listing: seq<IncidentId>) {
    && |part| >= 2 && Boot(part[0], part[1], listing)
    && forall i :: 2 <= i < |part| ==> Reconcile(part[i - 1], part[i])
  }

  /** After `i` turns of the loop: the first `i` listed incidents have been reconciled or
      collected, by their state when the process came up. */
  lemma {:induction false} RecoveryProgress(part: seq<State>, listing: seq<IncidentId>, i: nat)
    requires IsRecovery(part, listing) && 1 <= i < |part|
    ensures i - 1 <= |listing|
    ensures part[i].phase == Recovering(listing[i - 1..], Unfinished(part[0].w.db, listing[..i - 1]))
    ensures part[i].w.db == Reconciled(part[0].w.db, listing[..i - 1])
    ensures part[i].maxsize == part[0].maxsize
  {
    var db := part[0].w.db;
    if i == 1 {
      assert Reconciled(db, []).incidents == db.incidents;
    } else {
      RecoveryProgress(part, listing, i - 1);
      ReconcileProgress(db, part[i - 1], part[i], listing, i - 2);
    }
  }

  /** One turn: the store has the runs of the boot, so what is completed is what was. */
  lemma ReconcileProgress(db: Db, s: State, s': State, listing: seq<IncidentId>, n: nat)
    requires Reconcile(s, s') && n <= |listing| && (forall id :: id in listing ==> id in db.incidents)
    requires s.phase == Recovering(listing[n..], Unfinished(db, listing[..n]))
    requires s.w.db == Reconciled(db, listing[..n])
    ensures n < |listing| && s'.phase == Recovering(listing[n + 1..], Unfinished(db, listing[..n + 1]))
    ensures s'.w.db == Reconciled(db, listing[..n + 1]) && s'.maxsize == s.maxsize
  {
    assert listing[..n + 1] == listing[..n] + [listing[n]] && listing[n..][1..] == listing[n + 1..];
    assert listing[n] in listing;
    UnfinishedSnoc(db, listing[..n], listing[n]);
    ReconciledSnoc(db, listing[..n], listing[n]);
    assert Completed(s.w.db, listing[n]) == Completed(db, listing[n]);
  }

  /** Recovery is exact. From the state the process came up in: every waiting incident with a
      concluded run moves to review without being run again, nothing else in the store changes,
      the others are queued oldest first, and exactly those beyond the queue's bound stay lost. */
  lemma RecoveryIsExact(part: seq<State>, listing: seq<IncidentId>, s': State)
    requires IsRecovery(part, listing) && Resume(part[|part| - 1], s')
    ensures IsListing(part[0].w.db, listing)
    ensures s'.w.db == Reconciled(part[0].w.db, listing) && ReviewsConcluded(part[0].w.db, s'.w.db)
    ensures OldestFirst(part[0].w.db, Unfinished(part[0].w.db, listing))
    ensures var todo := Unfinished(part[0].w.db, listing);
      var n := if |todo| <= part[0].maxsize then |todo| else part[0].maxsize;
      s'.queue == todo[..n] && s'.w.lost == (set id | id in todo[n..]) && s'.phase.Up?
  {
    RecoveryProgress(part, listing, |part| - 1);
    assert listing[..|part| - 2] == listing;
    ReconciledMeans(part[0].w.db, listing);
    UnfinishedMeans(part[0].w.db, listing);
  }

  /** The same over the rows alone: a restart sends to review exactly the waiting incidents with a
      diagnosed or abstained run, re-runs none of them, and queues the others, oldest first, up to
      the bound; whatever does not fit is younger than what does, keeps its status, and is lost to a
      later start. */
  lemma RecoveryOutcome(part: seq<State>, listing: seq<IncidentId>, s': State) returns (waiting: seq<IncidentId>)
    requires IsRecovery(part, listing) && Resume(part[|part| - 1], s')
    ensures ReviewsConcluded(part[0].w.db, s'.w.db) && OldestFirst(part[0].w.db, waiting)
    ensures |s'.queue| == (if |waiting| <= part[0].maxsize then |waiting| else part[0].maxsize)
    ensures forall i :: 0 <= i < |s'.queue| ==> s'.queue[i] == waiting[i]
    ensures forall id :: id in s'.w.lost <==> id in waiting && id !in s'.queue
  {
    var db := part[0].w.db;
    waiting := Unfinished(db, listing);
    RecoveryIsExact(part, listing, s');
    BeyondBound(db, waiting, |s'.queue|);
  }

  lemma BeyondBound(db: Db, waiting: seq<IncidentId>, n: nat)
    requires OldestFirst(db, waiting) && n <= |waiting|
    ensures forall id :: id in waiting[n..] <==> id in waiting && id !in waiting[..n]
  {
    forall id | id in waiting ensures id in waiting[n..] <==> id !in waiting[..n] {
      var k :| 0 <= k < |waiting| && waiting[k] == id;
      if k >= n { assert waiting[n..][k - n] == id; } else { assert waiting[..n][k] == id; }
    }
  }
}
