/** What can be said of publications beyond "at most once": a disturbed incident has been published,
    and a closed one is never published again. */
module ProtocolPosts {
  import opened Wrappers
  import opened Evidence
  import opened Store
  import opened Ingress
  import opened Locks
  import opened Protocol
  import opened WorldSafety
  import opened ProtocolSafety
  import opened ProtocolRuns
  import opened ProtocolTheorems
  import Inv = Investigation
  import Review

  ghost predicate Sent(w: World, id: IncidentId) {
    PubCount(w.db.published, id) >= 1
  }

  /** Whatever is being posted, or was not followed through, has been published. */
  ghost predicate SentFirst(s: State) {
    && (forall id <- s.w.disturbed :: Sent(s.w, id))
    && (forall a <- s.agents :: s.agents[a].role.Posting() ==> Sent(s.w, s.agents[a].id))
  }

  lemma SentOnce(db: Db, db': Db, x: IncidentId)
    requires Grows(db, db', x) && db'.published != db.published
    ensures PubCount(db'.published, x) == PubCount(db.published, x) + 1
  {
  }

  /** A task comes to post, or disturbs, only by publishing or when it was posting already. */
  ghost predicate Sends(w: World, id: IncidentId, role: Role, role': Role, w': World) {
    && w'.disturbed <= w.disturbed + {id}
    && (role'.Posting() || w'.disturbed != w.disturbed ==> role.Posting() || w'.db.published != w.db.published)
  }

  lemma ReviewSends(w: World, id: IncidentId, role: Role, queue: seq<IncidentId>, maxsize: nat)
    requires role.Reviewing? && !role.Done() && role.Settled()
    ensures var (role', w', _) := RoleStep(role, id, w, queue, maxsize); Sends(w, id, role, role', w')
  {
    if role.rpc.Publish? {
      var p := Publication(id, role.rpc.run, role.rpc.verified);
      assert |w.db.published + [p]| == |w.db.published| + 1;
    }
  }

  lemma StepSends(w: World, id: IncidentId, role: Role, queue: seq<IncidentId>, maxsize: nat)
    requires !role.Done() && role.Settled()
    ensures var (role', w', _) := RoleStep(role, id, w, queue, maxsize); Sends(w, id, role, role', w')
  {
    if role.Reviewing? {
      ReviewSends(w, id, role, queue, maxsize);
    }
  }

  lemma ActSends(s: State, s': State, a: Task)
    requires SafeState(s) && SentFirst(s) && Act(s, s', a)
    ensures SentFirst(s')
  {
    var Agent(x, role) := s.agents[a];
    ActSteps(s, s', a);
    StepSends(s.w, x, role, s.queue, s.maxsize);
    SentGoesOn(s, s', a);
  }

  lemma SentGoesOn(s: State, s': State, a: Task)
    requires SentFirst(s) && Stepped(s, s', a)
    requires Sends(s.w, s.agents[a].id, s.agents[a].role, s'.agents[a].role, s'.w)
    ensures SentFirst(s')
  {
    var x := s.agents[a].id;
    forall id ensures Sent(s.w, id) ==> Sent(s'.w, id) {
      PubCountGrows(s.w.db, s'.w.db, x, id);
    }
    if s'.w.db.published != s.w.db.published {
      SentOnce(s.w.db, s'.w.db, x);
    }
  }

  lemma CrashSends(s: State, s': State)
    requires SentFirst(s) && Crash(s, s')
    ensures SentFirst(s')
  {
  }

  /** Nothing was sent, and who is posting now was posting before. */
  ghost predicate Idles(s: State, s': State) {
    && s'.w.disturbed == s.w.disturbed && s'.w.db.published == s.w.db.published
    && forall b <- s'.agents :: s'.agents[b].role.Posting() ==> b in s.agents && s'.agents[b] == s.agents[b]
  }

  lemma RequestsIdle(s: State, s': State, a: Task)
    requires Grab(s, s', a) || Leave(s, s', a) || Free(s, s', a)
    ensures Idles(s, s')
  {
  }

  lemma RecoveryIdles(s: State, s': State)
    requires Reconcile(s, s') || Resume(s, s') || exists listing :: Boot(s, s', listing)
    ensures Idles(s, s')
  {
  }

  lemma OthersIdle(s: State, s': State)
    requires Next(s, s') && !(exists a :: Act(s, s', a)) && !Crash(s, s')
    ensures Idles(s, s')
  {
    if a, id, role, created :| Arrive(s, s', a, id, role, created) {
    } else if a, env :| Take(s, s', a, env) {
    } else if a :| Grab(s, s', a) || Leave(s, s', a) || Free(s, s', a) {
      RequestsIdle(s, s', a);
    } else {
      RecoveryIdles(s, s');
    }
  }

  lemma OthersSend(s: State, s': State)
    requires SentFirst(s) && Next(s, s') && !(exists a :: Act(s, s', a)) && !Crash(s, s')
    ensures SentFirst(s')
  {
    OthersIdle(s, s');
    assert forall id :: Sent(s.w, id) ==> Sent(s'.w, id);
  }

  lemma NextSends(s: State, s': State)
    requires SafeState(s) && SentFirst(s) && Next(s, s')
    ensures SentFirst(s')
  {
    if a :| Act(s, s', a) {
      ActSends(s, s', a);
    } else if Crash(s, s') {
      CrashSends(s, s');
    } else {
      OthersSend(s, s');
    }
  }

  lemma {:induction false} RunSends(run: seq<State>, i: nat)
    requires IsRun(run) && i < |run|
    ensures SentFirst(run[i])
  {
    if i > 0 {
      RunSends(run, i - 1);
      RunSafe(run, i - 1);
      assert Link(run, i);
      NextSends(run[i - 1], run[i]);
    }
  }

  /** The other half of "at most once": an incident whose publication was not followed through has
      been published; so one that was never published is never disturbed. */
  lemma DisturbedWasPublished(run: seq<State>, i: nat, id: IncidentId)
    requires IsRun(run) && i < |run| && id in run[i].w.disturbed
    ensures PubCount(run[i].w.db.published, id) >= 1
  {
    RunSends(run, i);
    assert Sent(run[i].w, id);
  }

  ghost predicate Closed(w: World, id: IncidentId) {
    id in w.db.incidents && w.db.incidents[id].status.Terminal()
  }

  lemma ClosedStepsSilent(s: State, s': State, id: IncidentId)
    requires SafeState(s) && Next(s, s') && Closed(s.w, id)
    ensures PubCount(s'.w.db.published, id) == PubCount(s.w.db.published, id)
  {
    if a :| Act(s, s', a) {
      ActSteps(s, s', a);
      PubCountGrows(s.w.db, s'.w.db, s.agents[a].id, id);
    } else if Reconcile(s, s') {
      assert s'.w.db.published == s.w.db.published;
    } else {
      OtherStepsQuiet(s, s');
    }
  }

  /** Once posted, rejected or failed, an incident is never published again, disturbed or not. */
  lemma {:induction false} ClosedIsNeverPublished(run: seq<State>, i: nat, j: nat, id: IncidentId)
    requires IsRun(run) && i <= j < |run| && Closed(run[i].w, id)
    ensures PubCount(run[j].w.db.published, id) == PubCount(run[i].w.db.published, id)
    decreases j - i
  {
    if i < j {
      ClosedIsNeverPublished(run, i, j - 1, id);
      RunForward(run, i, j - 1, id);
      RunSafe(run, j - 1);
      assert Link(run, j);
      ClosedStepsSilent(run[j - 1], run[j], id);
    }
  }
}
