/** The protocol really takes the steps of the code: a task that runs without interference is never
    stuck, and ends in exactly the store, queue and answer that the code was proved to leave. */
module ProtocolProgress {
  import opened Wrappers
  import opened Store
  import opened Ingress
  import opened Locks
  import opened Protocol
  import Inv = Investigation
  import Review

  /** A stretch of a run in which only one task acts. */
  ghost predicate Solo(part: seq<State>, a: Task) {
    part != [] && forall i :: 0 < i < |part| ==> Act(part[i - 1], part[i], a)
  }

  /** The agent may go on: a worker, or a request that holds its incident's lock. */
  ghost predicate MayAct(s: State, a: Task) {
    && a in s.agents
    && (s.agents[a].role.Request() ==> s.locks.Holds(a, s.agents[a].id))
  }

  /** Nothing but its own program point, the world and the queue has changed. */
  ghost predicate OnlyOwn(s: State, s': State, a: Task) {
    a in s.agents && a in s'.agents && s' == s.(w := s'.w, queue := s'.queue,
      agents := s.agents[a := Agent(s.agents[a].id, s'.agents[a].role)])
  }

  /** The next state, if the agent acts. */
  function After(s: State, a: Task): State
    requires a in s.agents && !s.agents[a].role.Done() && s.agents[a].role.Settled()
  {
    var Agent(id, role) := s.agents[a];
    var (role', w', queue') := RoleStep(role, id, s.w, s.queue, s.maxsize);
    s.(w := w', queue := queue', agents := s.agents[a := Agent(id, role')])
  }

  lemma CanAct(s: State, a: Task)
    requires MayAct(s, a) && !s.agents[a].role.Done() && s.agents[a].role.Settled()
    requires s.agents[a].role.Reviewing? && s.agents[a].role.rpc.ListRuns? ==>
      IsLatest(s.w.db, s.agents[a].id, s.agents[a].role.renv.latest)
    ensures Act(s, After(s, a), a) && OnlyOwn(s, After(s, a), a) && MayAct(After(s, a), a)
  {
  }

  lemma SoloCons(s: State, rest: seq<State>, a: Task)
    requires Solo(rest, a) && Act(s, rest[0], a)
    ensures Solo([s] + rest, a)
  {
    forall i | 0 < i < |[s] + rest| ensures Act(([s] + rest)[i - 1], ([s] + rest)[i], a) {
      if i > 1 {
        assert Act(rest[i - 2], rest[i - 1], a);
      }
    }
  }

  lemma OnlyOwnTwice(s: State, t: State, u: State, a: Task)
    requires a in s.agents && OnlyOwn(s, t, a) && OnlyOwn(t, u, a)
    ensures OnlyOwn(s, u, a)
  {
  }

  /** A delivery that holds the lock runs to its answer, which is that of the locked section. */
  lemma {:induction false} DeliveryRuns(s: State, a: Task) returns (part: seq<State>)
    requires MayAct(s, a) && s.agents[a].role.Delivery?
    ensures Solo(part, a) && part[0] == s
    ensures var Agent(id, role) := s.agents[a];
      var (end, (response, front)) := (part[|part| - 1], DeliverFinish(role.denv, id, role.dpc,
        Front(s.w.db, s.queue), s.maxsize));
      && OnlyOwn(s, end, a) && end.agents[a].role == Delivery(role.denv, Answered(response))
      && end.w.db == front.db && end.queue == front.queue
    decreases s.agents[a].role.dpc.Rank()
  {
    if s.agents[a].role.Done() {
      part := [s];
    } else {
      CanAct(s, a);
      var next := After(s, a);
      var rest := DeliveryRuns(next, a);
      SoloCons(s, rest, a);
      OnlyOwnTwice(s, next, rest[|rest| - 1], a);
      part := [s] + rest;
    }
  }

  /** A busy worker runs to its end, and leaves the store as `_process_sync` does. */
  lemma {:induction false} WorkerRuns(s: State, a: Task) returns (part: seq<State>)
    requires MayAct(s, a) && s.agents[a].role.Worker? && s.agents[a].role.Settled()
    ensures Solo(part, a) && part[0] == s
    ensures var Agent(id, role) := s.agents[a];
      var end := part[|part| - 1];
      && OnlyOwn(s, end, a) && end.agents[a].role == Worker(role.wenv, Released) && end.queue == s.queue
      && end.w.db == WorkFinish(role.wenv, id, role.wpc, s.w.db)
    decreases s.agents[a].role.wpc.Rank()
  {
    if s.agents[a].role.Done() {
      part := [s];
    } else {
      CanAct(s, a);
      var next := After(s, a);
      var rest := WorkerRuns(next, a);
      SoloCons(s, rest, a);
      OnlyOwnTwice(s, next, rest[|rest| - 1], a);
      part := [s] + rest;
    }
  }

  /** A review that holds the lock, and sees the run the store lists last, runs to its answer,
      which is that of `apply_review`. */
  lemma {:induction false} ReviewRuns(s: State, a: Task) returns (part: seq<State>)
    requires MayAct(s, a) && s.agents[a].role.Reviewing? && s.agents[a].role.Settled()
    requires s.agents[a].role.rpc.Lookup? || s.agents[a].role.rpc.ListRuns? ==>
      IsLatest(s.w.db, s.agents[a].id, s.agents[a].role.renv.latest)
    ensures Solo(part, a) && part[0] == s
    ensures var Agent(id, role) := s.agents[a];
      var (end, (answer, db)) := (part[|part| - 1], Review.Finish(role.renv, id, role.rpc, s.w.db));
      && OnlyOwn(s, end, a) && end.agents[a].role == Reviewing(role.renv, Review.Replied(answer))
      && end.w.db == db && end.queue == s.queue
    decreases s.agents[a].role.rpc.Rank()
  {
    if s.agents[a].role.Done() {
      part := [s];
    } else {
      CanAct(s, a);
      var next := After(s, a);
      ReviewAdvances(s, a);
      var rest := ReviewRuns(next, a);
      SoloCons(s, rest, a);
      OnlyOwnTwice(s, next, rest[|rest| - 1], a);
      Review.Unfold(s.agents[a].role.renv, s.agents[a].id, s.agents[a].role.rpc, s.w.db);
      part := [s] + rest;
    }
  }

  lemma ReviewAdvances(s: State, a: Task)
    requires a in s.agents && s.agents[a].role.Reviewing? && !s.agents[a].role.Done() && s.agents[a].role.Settled()
    ensures var (role, next) := (s.agents[a].role, After(s, a));
      && next.agents[a].role.Reviewing? && next.agents[a].role.Settled()
      && next.agents[a].role.rpc.Rank() < role.rpc.Rank()
      && (next.agents[a].role.rpc.Lookup? || next.agents[a].role.rpc.ListRuns? ==>
            role.rpc.Lookup? && next.w.db == s.w.db)
  {
  }
}
