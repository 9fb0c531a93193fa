/** The inductive invariant of the protocol, over every interleaving of deliveries, workers,
    reviews, crashes and restarts. */
module ProtocolSafety {
  import opened Wrappers
  import opened Evidence
  import opened Store
  import opened Ingress
  import opened Locks
  import opened Protocol
  import opened WorldSafety
  import StepSafety
  import Inv = Investigation
  import Review

  function PubCount(ps: seq<Publication>, id: IncidentId): nat {
    if ps == [] then 0
    else PubCount(ps[..|ps| - 1], id) + if ps[|ps| - 1].incident == id then 1 else 0
  }

  ghost predicate Waits(w: World, id: IncidentId) {
    id in w.db.incidents && w.db.incidents[id].status.Waiting()
  }

  /** A failed investigation whose terminal write was swallowed has been recorded as lost. */
  ghost predicate Reported(w: World, id: IncidentId, role: Role) {
    (role.Reviewing? && role.rpc.SteerReread?) || (role.Worker? && role.wpc.Reread?) ==> Waits(w, id) ==> id in w.lost
  }

  ghost predicate AgentOk(s: State, a: Task)
    requires a in s.agents
  {
    var Agent(id, role) := s.agents[a];
    && RoleOk(s.w, id, role) && Reported(s.w, id, role)
    && (role.Request() <==> a in s.locks.inside)
    && (role.Request() ==> s.locks.inside[a].id == id)
    && (role.Request() && !role.Fresh() ==> s.locks.Holds(a, id))
  }

  ghost predicate AgentsOk(s: State) {
    && (forall a <- s.agents :: AgentOk(s, a))
    && (forall a <- s.locks.inside :: a in s.agents)
  }

  /** Single flight: at most one task owns an incident, and a queued one is owned by none. */
  ghost predicate Exclusive(s: State) {
    && (forall a <- s.agents, b <- s.agents :: a != b && s.agents[a].role.Owns() && s.agents[b].role.Owns() ==>
          s.agents[a].id != s.agents[b].id)
    && (forall a <- s.agents :: s.agents[a].role.Owns() ==> s.agents[a].id !in s.queue)
    && (forall i, j :: 0 <= i < j < |s.queue| ==> s.queue[i] != s.queue[j])
    && (forall id <- s.queue :: Waits(s.w, id))
    && |s.queue| <= s.maxsize
  }

  ghost predicate Owned(s: State, id: IncidentId) {
    exists a :: a in s.agents && s.agents[a].id == id && s.agents[a].role.Owns()
  }

  /** Work conservation: an incident waiting to be worked on is queued, or owned, or known lost. */
  ghost predicate Conserved(s: State) {
    forall id :: Waits(s.w, id) ==> id in s.w.lost || id in s.queue || Owned(s, id)
  }

  ghost predicate BeingPosted(s: State, id: IncidentId) {
    exists a :: a in s.agents && s.agents[a].id == id && s.agents[a].role.Posting()
  }

  ghost predicate OnceAt(s: State, id: IncidentId) {
    id !in s.w.disturbed ==>
      && PubCount(s.w.db.published, id) <= 1
      && (PubCount(s.w.db.published, id) == 1 ==> s.w.db.StatusIs(id, Posted) || BeingPosted(s, id))
  }

  ghost predicate OnceEach(s: State) {
    forall id :: OnceAt(s, id)
  }

  ghost predicate PhaseOk(s: State) {
    && (!s.phase.Up? ==> s.agents == map[] && s.queue == [] && s.locks == Empty())
    && (s.phase.Recovering? ==>
          var ids := s.phase.keep + s.phase.todo;
          && (forall i, j :: 0 <= i < j < |ids| ==> ids[i] != ids[j])
          && (forall id :: id in ids <==> Waits(s.w, id))
          && (forall id <- s.phase.keep :: !Completed(s.w.db, id)))
  }

  ghost predicate SafeState(s: State) {
    && WorldOk(s.w) && s.locks.Inv() && AgentsOk(s) && Exclusive(s) && Conserved(s) && OnceEach(s) && PhaseOk(s)
  }

  // --- a task's step ----------------------------------------------------------------------------

  /** Whoever owns, or comes to own, an incident has no rival: the per-incident lock excludes the
      other requests, the status excludes the workers and the queue. */
  ghost predicate Unrivalled(s: State, a: Task)
    requires a in s.agents
  {
    && (forall b <- s.agents :: b != a && s.agents[b].role.Owns() ==> s.agents[b].id != s.agents[a].id)
    && s.agents[a].id !in s.queue
  }

  /** A task about to make its step may come to own its incident only with the lock held, and
      only if the row is absent (a claim) or in review (a review). */
  ghost predicate Entitled(s: State, a: Task)
    requires a in s.agents
  {
    var Agent(id, role) := s.agents[a];
    role.Owns() || (role.Request() && s.locks.Holds(a, id) && (id !in s.w.db.incidents || s.w.db.StatusIs(id,
      PendingReview)))
  }

  lemma OwnersRow(w: World, id: IncidentId, role: Role)
    requires RoleOk(w, id, role) && role.Worker? && role.Owns()
    ensures id in w.db.incidents && w.db.incidents[id].status != PendingReview
  {
  }

  lemma NoRival(s: State, a: Task)
    requires a in s.agents && Entitled(s, a) && s.locks.Inv() && AgentsOk(s) && Exclusive(s)
    ensures Unrivalled(s, a)
  {
    var Agent(id, role) := s.agents[a];
    if !role.Owns() {
      forall b | b in s.agents && b != a && s.agents[b].role.Owns() ensures s.agents[b].id != id {
        assert AgentOk(s, b);
        if s.agents[b].id == id {
          if s.agents[b].role.Request() {
            MutualExclusion(s.locks, a, b, id);
          } else {
            OwnersRow(s.w, id, s.agents[b].role);
          }
        }
      }
    }
  }

  /** What one task's step does for ownership, the queue and the losses: an owner that lets go
      leaves an incident that no longer waits, or is queued, or is recorded as lost; a task that
      neither owns nor comes to own changes nothing. */
  ghost predicate Passes(w: World, id: IncidentId, role: Role, queue: seq<IncidentId>, maxsize: nat,
                         role': Role, w': World, queue': seq<IncidentId>) {
    && Reported(w', id, role')
    && (role.Worker? <==> role'.Worker?) && !role'.Fresh()
    && (!role.Owns() && !role'.Owns() ==> w' == w && queue' == queue)
    && (!role.Owns() && role'.Owns() ==>
          role.Request() && queue' == queue && (id !in w.db.incidents || w.db.StatusIs(id, PendingReview)))
    && (role.Owns() && !role'.Owns() && Waits(w', id) ==> id in w'.lost || id in queue')
    && (queue' == queue || (queue' == queue + [id] && role.Owns() && !role'.Owns() && |queue| < maxsize
      && Waits(w', id)))
  }

  lemma SteeringOutcome(w: World, id: IncidentId, env: Inv.Env, pc: Inv.Pc, steered: bool)
    requires !pc.Finished? && InvOk(w.db, id, env, pc, steered)
    ensures var (pc', db') := Inv.Step(env, id, pc, w.db);
      pc'.Finished? ==> if pc'.ok then db'.StatusIs(id, PendingReview)
                        else db'.StatusIs(id, Failed) || (pc.FailStatus? && Inv.FailStatusCall in env.faults)
  {
  }

  lemma DeliveryPasses(w: World, id: IncidentId, role: Role, queue: seq<IncidentId>, maxsize: nat)
    requires role.Delivery? && RoleOk(w, id, role) && !role.Done()
    ensures var (role', w', queue') := RoleStep(role, id, w, queue, maxsize);
      Passes(w, id, role, queue, maxsize, role', w', queue')
  {
    assert (queue + [id])[|queue|] == id;
  }

  lemma ReviewPasses(w: World, id: IncidentId, role: Role, queue: seq<IncidentId>, maxsize: nat)
    requires role.Reviewing? && RoleOk(w, id, role) && Reported(w, id, role) && !role.Done()
    ensures var (role', w', queue') := RoleStep(role, id, w, queue, maxsize);
      Passes(w, id, role, queue, maxsize, role', w', queue')
  {
    if role.rpc.Steering? {
      SteeringOutcome(w, id, role.renv.rerun, role.rpc.pc, true);
    }
  }

  lemma WorkerPasses(w: World, id: IncidentId, role: Role, queue: seq<IncidentId>, maxsize: nat)
    requires role.Worker? && RoleOk(w, id, role) && Reported(w, id, role) && !role.Done()
    ensures var (role', w', queue') := RoleStep(role, id, w, queue, maxsize);
      Passes(w, id, role, queue, maxsize, role', w', queue')
  {
    if role.wpc.Working? {
      SteeringOutcome(w, id, role.wenv.inv, role.wpc.pc, false);
    }
  }

  lemma StepPasses(w: World, id: IncidentId, role: Role, queue: seq<IncidentId>, maxsize: nat)
    requires RoleOk(w, id, role) && Reported(w, id, role) && !role.Done()
    ensures var (role', w', queue') := RoleStep(role, id, w, queue, maxsize);
      Passes(w, id, role, queue, maxsize, role', w', queue')
  {
    match role
    case Delivery(_, _) => DeliveryPasses(w, id, role, queue, maxsize);
    case Reviewing(_, _) => ReviewPasses(w, id, role, queue, maxsize);
    case Worker(_, _) => WorkerPasses(w, id, role, queue, maxsize);
  }

  /** A publication is made from an incident in review, by a task that then is posting it unless
      the call raised; a posting task goes on until the row says posted, unless a call raised. */
  ghost predicate PostsInOrder(w: World, id: IncidentId, role: Role, role': Role, w': World) {
    && (w'.db.published != w.db.published ==>
          w.db.StatusIs(id, PendingReview) && role.Owns() && !role.Posting() && (id in w'.disturbed || role'.Posting()))
    && (role.Posting() ==> id in w'.disturbed || w'.db.StatusIs(id, Posted) || role'.Posting())
  }

  lemma InvestigationSilent(env: Inv.Env, id: IncidentId, pc: Inv.Pc, db: Db)
    requires !pc.Finished?
    ensures Inv.Step(env, id, pc, db).1.published == db.published
  {
  }

  lemma ReviewPosts(w: World, id: IncidentId, env: Review.Env, pc: Review.Pc, w': World)
    requires !pc.Replied? && pc.Settled() && ReviewOk(w.db, id, env, pc)
    requires w'.db == Review.Step(env, id, pc, w.db).1 && (Disturbs(Reviewing(env, pc)) ==> id in w'.disturbed)
    ensures PostsInOrder(w, id, Reviewing(env, pc), Reviewing(env, Review.Step(env, id, pc, w.db).0), w')
  {
    if pc.Steering? {
      InvestigationSilent(env.rerun, id, pc.pc, w.db);
    }
  }

  lemma StepPosts(w: World, id: IncidentId, role: Role, queue: seq<IncidentId>, maxsize: nat)
    requires RoleOk(w, id, role) && !role.Done()
    ensures var (role', w', _) := RoleStep(role, id, w, queue, maxsize);
      PostsInOrder(w, id, role, role', w')
  {
    var (role', w', _) := RoleStep(role, id, w, queue, maxsize);
    match role
    case Delivery(env, pc) =>
    case Reviewing(env, pc) => ReviewPosts(w, id, env, pc, w');
    case Worker(env, pc) =>
      if pc.Working? { InvestigationSilent(env.inv, id, pc.pc, w.db); }
  }

  /** All that the invariant's proof needs to know about a task's step. */
  ghost predicate Stepped(s: State, s': State, a: Task) {
    && a in s.agents && s'.agents.Keys == s.agents.Keys && s'.agents[a].id == s.agents[a].id
    && (forall b <- s.agents :: b != a ==> s'.agents[b] == s.agents[b])
    && s'.locks == s.locks && s'.phase == s.phase && s'.maxsize == s.maxsize
    && var Agent(id, role) := s.agents[a];
    && (role.Request() ==> s.locks.Holds(a, id))
    && Frame(s.w, s'.w, id) && Respects(s.w, s'.w)
    && RoleOk(s'.w, id, s'.agents[a].role)
    && Passes(s.w, id, role, s.queue, s.maxsize, s'.agents[a].role, s'.w, s'.queue)
    && PostsInOrder(s.w, id, role, s'.agents[a].role, s'.w)
  }

  lemma ActSteps(s: State, s': State, a: Task)
    requires SafeState(s) && Act(s, s', a)
    ensures Stepped(s, s', a) && WorldOk(s'.w)
    ensures s.agents[a].role.Owns() || s'.agents[a].role.Owns() ==> Unrivalled(s, a)
  {
    var Agent(id, role) := s.agents[a];
    assert AgentOk(s, a);
    StepSafety.StepKeeps(s.w, id, role, s.queue, s.maxsize);
    StepPasses(s.w, id, role, s.queue, s.maxsize);
    StepPosts(s.w, id, role, s.queue, s.maxsize);
    if Entitled(s, a) {
      NoRival(s, a);
    }
  }

  /** The step left the incident to its owner: the stepping task has no rival if it owns it. */
  ghost predicate Alone(s: State, s': State, a: Task)
    requires a in s.agents && a in s'.agents
  {
    s.agents[a].role.Owns() || s'.agents[a].role.Owns() ==> Unrivalled(s, a)
  }

  lemma BystanderStable(w: World, w': World, id: IncidentId, role: Role)
    requires RoleOk(w, id, role) && !role.Owns()
    ensures RoleOk(w', id, role) && Reported(w', id, role)
  {
  }

  lemma StepOther(s: State, s': State, a: Task, b: Task)
    requires Stepped(s, s', a) && Alone(s, s', a) && b in s.agents && b != a && AgentOk(s, b)
    ensures AgentOk(s', b)
  {
    var x := s.agents[a].id;
    var Agent(id, role) := s.agents[b];
    if id != x {
      RoleStable(s.w, s'.w, x, id, role);
      assert SameAt(s.w, s'.w, id);
    } else if !role.Owns() {
      BystanderStable(s.w, s'.w, id, role);
    }
  }

  lemma StepExclusive(s: State, s': State, a: Task)
    requires Exclusive(s) && Stepped(s, s', a) && Alone(s, s', a)
    ensures Exclusive(s')
  {
    var x := s.agents[a].id;
    forall id <- s'.queue ensures Waits(s'.w, id) {
      if id in s.queue {
        assert Waits(s.w, id);
        if id != x {
          assert SameAt(s.w, s'.w, id);
        }
      }
    }
  }

  lemma StepConserved(s: State, s': State, a: Task, id: IncidentId)
    requires Conserved(s) && Stepped(s, s', a) && Waits(s'.w, id)
    ensures id in s'.w.lost || id in s'.queue || Owned(s', id)
  {
    var x := s.agents[a].id;
    if id == x && s'.agents[a].role.Owns() {
      assert s'.agents[a].id == id;
    } else if id != x || !s.agents[a].role.Owns() {
      assert id != x ==> SameAt(s.w, s'.w, id);
      if Owned(s, id) {
        var b :| b in s.agents && s.agents[b].id == id && s.agents[b].role.Owns();
        assert s'.agents[b] == s.agents[b];
      }
    }
  }

  lemma PubCountGrows(db: Db, db': Db, x: IncidentId, id: IncidentId)
    requires Grows(db, db', x)
    ensures PubCount(db'.published, id) == PubCount(db.published, id)
            || (id == x && db'.published != db.published && PubCount(db'.published, id) ==
              PubCount(db.published, id) + 1)
  {
  }

  lemma StepOnce(s: State, s': State, a: Task, id: IncidentId)
    requires OnceAt(s, id) && Stepped(s, s', a) && Alone(s, s', a)
    ensures OnceAt(s', id)
  {
    var x := s.agents[a].id;
    assert (id != x ==> SameAt(s.w, s'.w, id)) && RespectsAt(s.w, s'.w, id);
    PubCountGrows(s.w.db, s'.w.db, x, id);
    if id !in s'.w.disturbed && PubCount(s'.w.db.published, id) > 0 {
      if PubCount(s'.w.db.published, id) > PubCount(s.w.db.published, id) {
        assert s'.agents[a].role.Posting();
        assert !BeingPosted(s, id);
      } else if !s.w.db.StatusIs(id, Posted) {
        assert BeingPosted(s, id);
        var b :| b in s.agents && s.agents[b].id == id && s.agents[b].role.Posting();
        assert b in s'.agents && s'.agents[b].id == id;
      }
    }
  }

  lemma ActKeeps(s: State, s': State, a: Task)
    requires SafeState(s) && Act(s, s', a)
    ensures SafeState(s')
  {
    ActSteps(s, s', a);
    assert AgentOk(s, a);
    forall b | b in s.agents && b != a ensures AgentOk(s', b) { StepOther(s, s', a, b); }
    StepExclusive(s, s', a);
    forall id | Waits(s'.w, id) ensures id in s'.w.lost || id in s'.queue || Owned(s', id) {
      StepConserved(s, s', a, id);
    }
    forall id ensures OnceAt(s', id) { StepOnce(s, s', a, id); }
  }
}
