/** The service as a concurrent, crash-prone protocol: requests and workers interleave at every
    call into the store, any call may raise, and the process may stop at any point and start
    again (src/quellgeist/service/app.py, service/queue.py, orchestrator/review.py,
    orchestrator/investigate.py). The steps of each agent are those the code is proved to run. */
module Protocol {
  import opened Wrappers
  import opened Evidence
  import opened Store
  import opened Ingress
  import opened Locks
  import Inv = Investigation
  import Review

  /** Someone at work on one incident: a delivery or a review request, or a busy worker. */
  datatype Role =
    | Delivery(denv: DeliverEnv, dpc: DeliverPc)
    | Reviewing(renv: Review.Env, rpc: Review.Pc)
    | Worker(wenv: WorkEnv, wpc: WorkPc)
  {
    predicate Request() {
      !Worker?
    }

    /** A request that has not left its first program point: it may still wait for the lock. */
    predicate Fresh() {
      (Delivery? && dpc.Find?) || (Reviewing? && rpc.Lookup?)
    }

    predicate Done() {
      match this
      case Delivery(_, pc) => pc.Answered?
      case Reviewing(_, pc) => pc.Replied?
      case Worker(_, pc) => pc.Released?
    }

    predicate Settled() {
      match this
      case Delivery(_, _) => true
      case Reviewing(_, pc) => pc.Settled()
      case Worker(_, pc) => pc.Settled()
    }

    /** The incident's lifecycle is in this task's hands. */
    predicate Owns() {
      match this
      case Delivery(_, pc) => !pc.Find? && !pc.Claim? && !pc.Answered?
      case Reviewing(_, pc) => !pc.Lookup? && !pc.Replied?
      case Worker(_, pc) => !pc.Released?
    }

    /** An investigation of the incident is under way. */
    predicate Investigates() {
      (Worker? && (wpc.Load? || wpc.Working?)) || (Reviewing? && rpc.Steering?)
    }

    /** Published, but not yet persisted as posted. */
    predicate Posting() {
      Reviewing? && (rpc.PostEvent? || rpc.PostStatus?)
    }

    ghost predicate Valid() {
      match this
      case Delivery(_, _) => true
      case Reviewing(env, _) => env.rerun.Valid()
      case Worker(env, _) => env.inv.Valid()
    }
  }

  datatype Agent = Agent(id: IncidentId, role: Role)

  /** The persisted state and three history variables: the ids whose delivery was accepted
      (answered 202), those whose claim to being worked on was lost to a crash or a call that
      raised, and those whose publication was not followed through. */
  datatype World = World(db: Db, accepted: set<IncidentId>, lost: set<IncidentId>, disturbed: set<IncidentId>)

  datatype Phase = Up | Down | Recovering(todo: seq<IncidentId>, keep: seq<IncidentId>)

  datatype State = State(
    w: World,
    queue: seq<IncidentId>,
    agents: map<Task, Agent>,
    locks: LockState<nat>,
    phase: Phase,
    maxsize: nat,
    workers: nat)

  /** The next step gives the incident up without a persisted outcome: an ingress call that
      raises after the claim, a worker exception, or a swallowed terminal status write. */
  predicate Loses(role: Role) {
    match role
    case Delivery(env, pc) =>
      || (pc.Unclaim? && Inv.UnclaimCall in env.faults)
      || (pc.Receive? && Inv.ReceivedCall in env.faults)
      || (pc.RollbackRow? && Inv.RollbackCall in env.faults)
    case Reviewing(env, pc) =>
      pc.Steering? && pc.pc.FailStatus? && Inv.FailStatusCall in env.rerun.faults
    case Worker(env, pc) =>
      || (pc.Load? && (Inv.LoadCall in env.faults || Inv.ProviderCall in env.faults))
      || (pc.Working? && pc.pc.FailStatus? && Inv.FailStatusCall in env.inv.faults)
  }

  /** The next step publishes, or has published, and then raises. */
  predicate Disturbs(role: Role) {
    role.Reviewing? &&
    (|| (role.rpc.Publish? && Inv.PublishCall in role.renv.faults && role.renv.emits)
     || (role.rpc.PostEvent? && Inv.EventCall in role.renv.faults)
     || (role.rpc.PostStatus? && Inv.StatusCall in role.renv.faults))
  }

  /** One step of one task: its new program point, the world and the queue. */
  function RoleStep(role: Role, id: IncidentId, w: World, queue: seq<IncidentId>, maxsize: nat)
    : (r: (Role, World, seq<IncidentId>))
    requires !role.Done() && role.Settled()
  {
    var w' := w.(lost := if Loses(role) then w.lost + {id} else w.lost,
                 disturbed := if Disturbs(role) then w.disturbed + {id} else w.disturbed);
    match role
    case Delivery(env, pc) =>
      var (pc', front) := DeliverStep(env, id, pc, Front(w.db, queue), maxsize);
      (Delivery(env, pc'),
       w'.(db := front.db, accepted := if pc' == Answered(Accepted) then w.accepted + {id} else w.accepted),
       front.queue)
    case Reviewing(env, pc) =>
      var (pc', db') := Review.Step(env, id, pc, w.db);
      (Reviewing(env, pc'), w'.(db := db'), queue)
    case Worker(env, pc) =>
      var (pc', db') := WorkStep(env, id, pc, w.db);
      (Worker(env, pc'), w'.(db := db'), queue)
  }

  // --- the step relation ----------------------------------------------------------------

  ghost predicate Init(s: State) {
    && s.w == World(Db(map[], map[], map[], {}, [], map[], [], map[]), {}, {}, {})
    && s.queue == [] && s.agents == map[] && s.locks == Empty() && s.phase == Up
  }

  /** A request reaches the per-incident lock. */
  ghost predicate Arrive(s: State, s': State, a: Task, id: IncidentId, role: Role, created: nat) {
    && s.phase.Up? && a !in s.agents
    && role.Fresh() && role.Valid()
    && (id in s.locks.table || created !in s.locks.table.Values)
    && s' == s.(agents := s.agents[a := Agent(id, role)], locks := Enter(s.locks, a, id, created))
  }

  ghost predicate Grab(s: State, s': State, a: Task) {
    && a in s.agents && a in s.locks.inside && s.locks.inside[a].lock !in s.locks.holder
    && s' == s.(locks := Acquire(s.locks, a))
  }

  /** A task inside its critical section, or a worker, takes its next step. The row a review
      sees last in `list_runs` is one with the largest start time. */
  ghost predicate Act(s: State, s': State, a: Task) {
    && a in s.agents
    && var Agent(id, role) := s.agents[a];
    && !role.Done() && role.Settled()
    && (role.Request() ==> s.locks.Holds(a, id))
    && (role.Reviewing? && role.rpc.ListRuns? ==> IsLatest(s.w.db, id, role.renv.latest))
    && var (role', w', queue') := RoleStep(role, id, s.w, s.queue, s.maxsize);
    && s' == s.(w := w', queue := queue', agents := s.agents[a := Agent(id, role')])
  }

  /** A request leaves the context manager: answered, or cancelled while it waits. */
  ghost predicate Leave(s: State, s': State, a: Task) {
    && a in s.agents && s.agents[a].role.Request()
    && a in s.locks.inside && s.locks.inside[a].id in s.locks.refs
    && (s.agents[a].role.Done() || !s.locks.Holds(a, s.agents[a].id))
    && s' == s.(agents := s.agents - {a}, locks := Exit(s.locks, a))
  }

  ghost predicate Take(s: State, s': State, a: Task, env: WorkEnv) {
    && s.phase.Up? && s.queue != [] && a !in s.agents && env.inv.Valid()
    && |set b | b in s.agents && s.agents[b].role.Worker?| < s.workers
    && s' == s.(queue := s.queue[1..], agents := s.agents[a := Agent(s.queue[0], Worker(env, Load))])
  }

  ghost predicate Free(s: State, s': State, a: Task) {
    && a in s.agents && s.agents[a].role.Worker? && s.agents[a].role.Done()
    && s' == s.(agents := s.agents - {a})
  }

  /** The process ends, at any point: queue, workers, requests and locks vanish. */
  ghost predicate Crash(s: State, s': State) {
    var waiting := set id | id in s.w.db.incidents && s.w.db.incidents[id].status.Waiting();
    var posting := set a | a in s.agents && s.agents[a].role.Posting() :: s.agents[a].id;
    s' == s.(w := s.w.(lost := s.w.lost + waiting, disturbed := s.w.disturbed + posting),
             queue := [], agents := map[], locks := Empty(), phase := Down)
  }

  ghost predicate Boot(s: State, s': State, listing: seq<IncidentId>) {
    s.phase.Down? && IsListing(s.w.db, listing) && s' == s.(phase := Recovering(listing, []))
  }

  /** One turn of the recovery's reconcile-or-collect loop. */
  ghost predicate Reconcile(s: State, s': State) {
    && s.phase.Recovering? && s.phase.todo != []
    && var id, rest := s.phase.todo[0], s.phase.todo[1..];
    && s' == if Completed(s.w.db, id)
             then s.(w := s.w.(db := SetIncidentStatus(s.w.db, id, PendingReview).value),
               phase := Recovering(rest, s.phase.keep))
             else s.(phase := Recovering(rest, s.phase.keep + [id]))
  }

  /** The recovery's enqueue loop, which has no suspension point: it fills the queue, and what
      does not fit stays stranded. */
  ghost predicate Resume(s: State, s': State) {
    && s.phase.Recovering? && s.phase.todo == []
    && var keep := s.phase.keep;
    && var n := if |keep| <= s.maxsize then |keep| else s.maxsize;
    && s' == s.(queue := keep[..n], phase := Up, w := s.w.(lost := set id | id in keep[n..]))
  }

  ghost predicate Next(s: State, s': State) {
    || (exists a, id, role, created :: Arrive(s, s', a, id, role, created))
    || (exists a :: Grab(s, s', a))
    || (exists a :: Act(s, s', a))
    || (exists a :: Leave(s, s', a))
    || (exists a, env :: Take(s, s', a, env))
    || (exists a :: Free(s, s', a))
    || Crash(s, s')
    || (exists listing :: Boot(s, s', listing))
    || Reconcile(s, s')
    || Resume(s, s')
  }

  ghost predicate Link(run: seq<State>, i: nat)
    requires 0 < i < |run|
  {
    Next(run[i - 1], run[i])
  }

  ghost predicate IsRun(run: seq<State>) {
    run != [] && Init(run[0]) && forall i :: 0 < i < |run| ==> Link(run, i)
  }
}
