/** The protocol's promises over whole runs. */
module ProtocolRuns {
  import opened Wrappers
  import opened Evidence
  import opened Store
  import opened Ingress
  import opened Locks
  import opened Protocol
  import opened WorldSafety
  import opened ProtocolSafety
  import StepSafety
  import Inv = Investigation
  import Review

  // --- the remaining kinds of step ------------------------------------------------------------

  lemma InitSafe(s: State)
    requires Init(s)
    ensures SafeState(s)
  {
    assert forall id :: PubCount(s.w.db.published, id) == 0;
  }

  /** A task whose own lock bookkeeping is unchanged keeps its assertion. */
  lemma AgentStays(s: State, s': State, b: Task)
    requires b in s.agents && b in s'.agents && s'.agents[b] == s.agents[b] && s'.w == s.w && AgentOk(s, b)
    requires b in s.locks.inside <==> b in s'.locks.inside
    requires b in s.locks.inside ==> s'.locks.inside[b] == s.locks.inside[b]
    requires s.locks.Holds(b, s.agents[b].id) ==> s'.locks.Holds(b, s.agents[b].id)
    ensures AgentOk(s', b)
  {
  }

  lemma FreshOk(w: World, id: IncidentId, role: Role)
    requires role.Fresh() && role.Valid()
    ensures RoleOk(w, id, role) && Reported(w, id, role) && !role.Owns() && role.Request()
  {
  }

  lemma ArriveAgents(s: State, s': State, a: Task, id: IncidentId, role: Role, created: nat)
    requires s.locks.Inv() && AgentsOk(s) && Arrive(s, s', a, id, role, created)
    ensures s'.locks.Inv() && AgentsOk(s')
  {
    EnterKeeps(s.locks, a, id, created);
    FreshOk(s.w, id, role);
    assert AgentOk(s', a);
    forall b | b in s.agents ensures AgentOk(s', b) {
      AgentStays(s, s', b);
    }
  }

  lemma ArriveKeeps(s: State, s': State, a: Task, id: IncidentId, role: Role, created: nat)
    requires SafeState(s) && Arrive(s, s', a, id, role, created)
    ensures SafeState(s')
  {
    ArriveAgents(s, s', a, id, role, created);
    OthersStay(s, s', a);
  }

  lemma GrabKeeps(s: State, s': State, a: Task)
    requires SafeState(s) && Grab(s, s', a)
    ensures SafeState(s')
  {
    AcquireKeeps(s.locks, a);
    forall b <- s'.agents ensures AgentOk(s', b) {
      assert AgentOk(s, b);
    }
    OthersStay(s, s', a);
  }

  lemma LeaveAgents(s: State, s': State, a: Task)
    requires s.locks.Inv() && AgentsOk(s) && Leave(s, s', a)
    ensures s'.locks.Inv() && AgentsOk(s') && !s.agents[a].role.Owns()
  {
    ExitKeeps(s.locks, a);
    assert AgentOk(s, a);
    forall b <- s'.agents ensures AgentOk(s', b) {
      AgentStays(s, s', b);
    }
  }

  lemma LeaveKeeps(s: State, s': State, a: Task)
    requires SafeState(s) && Leave(s, s', a)
    ensures SafeState(s')
  {
    LeaveAgents(s, s', a);
    OthersStay(s, s', a);
  }

  lemma FreeKeeps(s: State, s': State, a: Task)
    requires SafeState(s) && Free(s, s', a)
    ensures SafeState(s')
  {
    assert AgentOk(s, a);
    forall b <- s'.agents ensures AgentOk(s', b) {
      assert AgentOk(s, b);
    }
    OthersStay(s, s', a);
  }

  /** Adding or removing one task that owns nothing disturbs neither conservation nor posting. */
  lemma OthersStay(s: State, s': State, a: Task)
    requires Conserved(s) && OnceEach(s) && Exclusive(s)
    requires s'.w == s.w && s'.queue == s.queue && s'.maxsize == s.maxsize
    requires forall b <- s.agents :: (b != a || s.agents[b].role.Owns()) ==>
      b in s'.agents && s'.agents[b] == s.agents[b]
    requires forall b <- s'.agents :: s'.agents[b].role.Owns() ==> b in s.agents && s'.agents[b] == s.agents[b]
    ensures Conserved(s') && OnceEach(s') && Exclusive(s')
  {
    forall id | Waits(s'.w, id) ensures id in s'.w.lost || id in s'.queue || Owned(s', id) {
      if Owned(s, id) {
        var b :| b in s.agents && s.agents[b].id == id && s.agents[b].role.Owns();
        assert s'.agents[b] == s.agents[b];
      }
    }
    forall id ensures OnceAt(s', id) {
      assert OnceAt(s, id);
      if BeingPosted(s, id) {
        var b :| b in s.agents && s.agents[b].id == id && s.agents[b].role.Posting();
        assert s'.agents[b] == s.agents[b];
      }
    }
  }

  lemma TakeExclusive(s: State, s': State, a: Task, env: WorkEnv)
    requires Exclusive(s) && Take(s, s', a, env)
    ensures Exclusive(s')
  {
    assert s.queue[0] in s.queue;
    assert forall id <- s'.queue :: id in s.queue;
  }

  lemma TakeConserved(s: State, s': State, a: Task, env: WorkEnv, k: IncidentId)
    requires Conserved(s) && OnceAt(s, k) && Take(s, s', a, env)
    ensures Waits(s'.w, k) ==> k in s'.w.lost || k in s'.queue || Owned(s', k)
    ensures OnceAt(s', k)
  {
    if k == s.queue[0] {
      assert s'.agents[a].id == k && s'.agents[a].role.Owns();
    } else if k in s.queue {
      assert k in s.queue[1..];
    } else if Owned(s, k) {
      var b :| b in s.agents && s.agents[b].id == k && s.agents[b].role.Owns();
      assert s'.agents[b] == s.agents[b];
    }
    if BeingPosted(s, k) {
      var b :| b in s.agents && s.agents[b].id == k && s.agents[b].role.Posting();
      assert s'.agents[b] == s.agents[b];
    }
  }

  lemma TakeKeeps(s: State, s': State, a: Task, env: WorkEnv)
    requires SafeState(s) && Take(s, s', a, env)
    ensures SafeState(s')
  {
    assert s.queue[0] in s.queue && Waits(s.w, s.queue[0]);
    forall b | b in s.agents ensures AgentOk(s', b) {
      AgentStays(s, s', b);
    }
    TakeExclusive(s, s', a, env);
    forall k ensures OnceAt(s', k) && (Waits(s'.w, k) ==> k in s'.w.lost || k in s'.queue || Owned(s', k)) {
      assert OnceAt(s, k);
      TakeConserved(s, s', a, env, k);
    }
  }

  lemma CrashKeeps(s: State, s': State)
    requires SafeState(s) && Crash(s, s')
    ensures SafeState(s')
  {
    forall id ensures RowOk(s'.w, id) && OnceAt(s', id) {
      assert RowOk(s.w, id) && OnceAt(s, id);
    }
    assert Empty<nat>().Inv();
  }

  lemma BootKeeps(s: State, s': State, listing: seq<IncidentId>)
    requires SafeState(s) && Boot(s, s', listing)
    ensures SafeState(s')
  {
    assert [] + listing == listing;
    forall id ensures OnceAt(s', id) {
      assert OnceAt(s, id);
    }
  }

  lemma WithoutOne(keep: seq<IncidentId>, id: IncidentId, rest: seq<IncidentId>)
    requires var ids := keep + [id] + rest; forall i, j :: 0 <= i < j < |ids| ==> ids[i] != ids[j]
    ensures var ids := keep + rest; forall i, j :: 0 <= i < j < |ids| ==> ids[i] != ids[j]
    ensures forall k :: k in keep + rest <==> k in keep + [id] + rest && k != id
  {
    var ids, less := keep + [id] + rest, keep + rest;
    assert forall i :: 0 <= i < |less| ==> less[i] == ids[if i < |keep| then i else i + 1];
    assert ids[|keep|] == id;
    forall k | k in ids && k != id ensures k in less {
      var i :| 0 <= i < |ids| && ids[i] == k;
      assert less[if i < |keep| then i else i - 1] == k;
    }
  }

  lemma HistoryIsFree(w: World, lost: set<IncidentId>)
    requires WorldOk(w)
    ensures WorldOk(w.(lost := lost))
  {
    assert forall id :: RowOk(w, id) ==> RowOk(w.(lost := lost), id);
  }

  lemma ReconcilePhase(s: State, s': State)
    requires SafeState(s) && Reconcile(s, s')
    ensures PhaseOk(s')
  {
    var id, keep, rest := s.phase.todo[0], s.phase.keep, s.phase.todo[1..];
    var ids := keep + s.phase.todo;
    assert ids == keep + [id] + rest;
    if Completed(s.w.db, id) {
      WithoutOne(keep, id, rest);
    }
  }

  lemma ReconcileOnce(s: State, s': State)
    requires OnceEach(s) && Conserved(s) && PhaseOk(s) && Exclusive(s) && Reconcile(s, s')
    ensures OnceEach(s') && Conserved(s')
  {
    assert (s.phase.keep + s.phase.todo)[|s.phase.keep|] == s.phase.todo[0] && Waits(s.w, s.phase.todo[0]);
    forall k ensures OnceAt(s', k) {
      assert OnceAt(s, k);
    }
    forall k | Waits(s'.w, k) ensures k in s'.w.lost {
      assert Waits(s.w, k);
    }
  }

  lemma ReconcileKeeps(s: State, s': State)
    requires SafeState(s) && Reconcile(s, s')
    ensures SafeState(s') && Respects(s.w, s'.w) && Grows(s.w.db, s'.w.db, s.phase.todo[0])
  {
    ReconcilePhase(s, s');
    var id := s.phase.todo[0];
    assert (s.phase.keep + s.phase.todo)[|s.phase.keep|] == id && Waits(s.w, id);
    if Completed(s.w.db, id) {
      StepSafety.StatusWrite(s.w, s'.w, id, PendingReview);
    } else {
      StepSafety.NoWrite(s.w, s'.w, id);
    }
    ReconcileOnce(s, s');
  }

  lemma ResumeKeeps(s: State, s': State)
    requires SafeState(s) && Resume(s, s')
    ensures SafeState(s')
  {
    var keep := s.phase.keep;
    var n := if |keep| <= s.maxsize then |keep| else s.maxsize;
    assert keep + [] == keep && keep == keep[..n] + keep[n..];
    HistoryIsFree(s.w, s'.w.lost);
    forall id <- s'.queue ensures Waits(s'.w, id) {
      assert id in keep;
    }
    forall id ensures OnceAt(s', id) {
      assert OnceAt(s, id);
    }
    assert forall k :: Waits(s'.w, k) ==> k in keep;
  }

  lemma NextKeeps(s: State, s': State)
    requires SafeState(s) && Next(s, s')
    ensures SafeState(s')
  {
    if a, id, role, created :| Arrive(s, s', a, id, role, created) {
      ArriveKeeps(s, s', a, id, role, created);
    } else if a :| Grab(s, s', a) {
      GrabKeeps(s, s', a);
    } else if a :| Act(s, s', a) {
      ActKeeps(s, s', a);
    } else if a :| Leave(s, s', a) {
      LeaveKeeps(s, s', a);
    } else if a, env :| Take(s, s', a, env) {
      TakeKeeps(s, s', a, env);
    } else if a :| Free(s, s', a) {
      FreeKeeps(s, s', a);
    } else if Crash(s, s') {
      CrashKeeps(s, s');
    } else if listing :| Boot(s, s', listing) {
      BootKeeps(s, s', listing);
    } else if Reconcile(s, s') {
      ReconcileKeeps(s, s');
    } else {
      ResumeKeeps(s, s');
    }
  }

  lemma {:induction false} RunSafe(run: seq<State>, i: nat)
    requires IsRun(run) && i < |run|
    ensures SafeState(run[i])
  {
    if i == 0 {
      InitSafe(run[0]);
    } else {
      RunSafe(run, i - 1);
      assert Link(run, i);
      NextKeeps(run[i - 1], run[i]);
    }
  }
}
