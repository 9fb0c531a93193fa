/** The webhook's critical section (src/quellgeist/service/app.py) and the worker pool
    (src/quellgeist/service/queue.py): claim, snapshot, enqueue or roll back; take, investigate,
    reap; and the recovery of stranded incidents at start-up. */
module Ingress {
  import opened Wrappers
  import opened Evidence
  import opened Store
  import Inv = Investigation

  /** The bounded in-memory queue. */
  class WorkerPool {
    const maxsize: nat
    var queue: seq<IncidentId>

    constructor (maxsize: nat)
      ensures this.maxsize == maxsize && queue == []
    {
      this.maxsize := maxsize;
      queue := [];
    }

    /** `enqueue`: false is `asyncio.QueueFull`. */
    method Enqueue(id: IncidentId) returns (ok: bool)
      modifies this
      ensures ok == (old(|queue|) < maxsize)
      ensures queue == if ok then old(queue) + [id] else old(queue)
    {
      ok := |queue| < maxsize;
      if ok {
        queue := queue + [id];
      }
    }

    method Take() returns (id: IncidentId)
      requires queue != []
      modifies this
      ensures old(queue) == [id] + queue
    {
      id := queue[0];
      queue := queue[1..];
    }
  }

  // --- delivery -------------------------------------------------------------------------

  /** What one delivery meets: its payload, the clock, the live signal files, and the stages
      that raise (for the snapshot: an OSError). */
  datatype DeliverEnv = DeliverEnv(hint: Option<string>, received: int, source: Dir, faults: set<Inv.Stage>)

  /** The answers 200, 202, 503 (twice) and 500. */
  datatype Response = Duplicate | Accepted | SnapshotFailed | Busy | ServerError

  datatype DeliverPc =
    | Find | Claim | Snapshot | Unclaim | Receive | Enqueue | RollbackRow | RollbackDir | Answered(response: Response)
  {
    function Rank(): nat {
      match this case Find => 8 case Claim => 7 case Snapshot => 6 case Unclaim => 1 case Receive => 5 case Enqueue => 4
                 case RollbackRow => 3 case RollbackDir => 2 case Answered(_) => 0
    }
  }

  datatype Front = Front(db: Db, queue: seq<IncidentId>)

  function DeliverStep(env: DeliverEnv, id: IncidentId, pc: DeliverPc, s: Front, maxsize: nat): (r: (DeliverPc, Front))
    requires !pc.Answered?
    ensures r.0.Rank() < pc.Rank()
  {
    match pc
    case Find =>
      if Inv.ReadCall in env.faults then (Answered(ServerError), s)
      else if id in s.db.incidents then (Answered(Duplicate), s)
      else (Claim, s)
    case Claim =>
      if Inv.ClaimCall in env.faults then (Answered(ServerError), s)
      else (var claimed := CreateIncident(s.db, id, Incident(env.received, Queued, env.hint));
            if claimed.None? then (Answered(Duplicate), s) else (Snapshot, s.(db := claimed.value)))
    case Snapshot =>
      var taken := Try(Inv.SnapshotCall in env.faults, SnapshotSignals(s.db, id, env.source));
      if taken.None? then (Unclaim, s) else (Receive, s.(db := taken.value))
    case Unclaim =>
      var freed := Try(Inv.UnclaimCall in env.faults, DeleteIncident(s.db, id));
      if freed.None? then (Answered(ServerError), s) else (Answered(SnapshotFailed), s.(db := freed.value))
    case Receive =>
      var logged := Try(Inv.ReceivedCall in env.faults, AppendEvent(s.db, Event(id, None, Received)));
      if logged.None? then (Answered(ServerError), s) else (Enqueue, s.(db := logged.value))
    case Enqueue =>
      if |s.queue| < maxsize then (Answered(Accepted), s.(queue := s.queue + [id])) else (RollbackRow, s)
    case RollbackRow =>
      var freed := Try(Inv.RollbackCall in env.faults, DeleteIncident(s.db, id));
      if freed.None? then (Answered(ServerError), s) else (RollbackDir, s.(db := freed.value))
    case RollbackDir =>
      (Answered(Busy), if Inv.DiscardCall in env.faults then s else s.(db := DiscardSnapshot(s.db, id)))
  }

  /** A claim that comes second, whatever happened since the id was looked up, is a duplicate: it
      changes nothing. One that comes first adds the row as it was sent. */
  lemma SecondClaimIsDuplicate(env: DeliverEnv, id: IncidentId, s: Front, maxsize: nat)
    requires Inv.ClaimCall !in env.faults
    ensures var (next, s') := DeliverStep(env, id, Claim, s, maxsize);
      if id in s.db.incidents then next == Answered(Duplicate) && s' == s
      else
        && next == Snapshot && s'.queue == s.queue
        && s'.db == s.db.(incidents := s.db.incidents[id := Incident(env.received, Queued, env.hint)],
                          frozen := s'.db.frozen)
  {
  }

  function DeliverFinish(env: DeliverEnv, id: IncidentId, pc: DeliverPc, s: Front, maxsize: nat): (r: (Response, Front))
    decreases pc.Rank()
  {
    if pc.Answered? then (pc.response, s)
    else var next := DeliverStep(env, id, pc, s, maxsize); DeliverFinish(env, id, next.0, next.1, maxsize)
  }

  /** `_ingest_incident`: dedupe, claim the id, snapshot. None means "go on to enqueue". */
  method IngestIncident(disk: Disk, id: IncidentId, env: DeliverEnv,
    ghost pool: WorkerPool) returns (answer: Option<Response>)
    modifies disk
    ensures DeliverFinish(env, id, Find, Front(old(disk.Value()), pool.queue), pool.maxsize) ==
            DeliverFinish(env, id, if answer.None? then Enqueue else Answered(answer.value),
                          Front(disk.Value(), pool.queue), pool.maxsize)
  {
    if Inv.ReadCall in env.faults { return Some(ServerError); }
    if id in disk.incidents { return Some(Duplicate); }
    if Inv.ClaimCall in env.faults { return Some(ServerError); }
    var ok := disk.Create(id, Incident(env.received, Queued, env.hint), false);
    if !ok { return Some(Duplicate); }
    assert DeliverFinish(env, id, Find, Front(old(disk.Value()), pool.queue), pool.maxsize)
        == DeliverFinish(env, id, Snapshot, Front(disk.Value(), pool.queue), pool.maxsize);
    ok := disk.Snapshot(id, env.source, Inv.SnapshotCall in env.faults);
    if !ok {
      assert DeliverFinish(env, id, Find, Front(old(disk.Value()), pool.queue), pool.maxsize)
          == DeliverFinish(env, id, Unclaim, Front(disk.Value(), pool.queue), pool.maxsize);
      ok := disk.Delete(id, Inv.UnclaimCall in env.faults);
      return Some(if ok then SnapshotFailed else ServerError);
    }
    ok := disk.Append(Event(id, None, Received), Inv.ReceivedCall in env.faults);
    return if ok then None else Some(ServerError);
  }

  /** The locked section of `create_incident_ep`, with `_rollback_ingest` on a full queue. */
  method CreateIncidentLocked(disk: Disk, pool: WorkerPool, id: IncidentId,
    env: DeliverEnv) returns (response: Response)
    modifies disk, pool
    ensures (response, Front(disk.Value(), pool.queue)) ==
            DeliverFinish(env, id, Find, Front(old(disk.Value()), old(pool.queue)), pool.maxsize)
  {
    var answer := IngestIncident(disk, id, env, pool);
    if answer.Some? { return answer.value; }
    var queued := pool.Enqueue(id);
    if queued { return Accepted; }
    assert DeliverFinish(env, id, Find, Front(old(disk.Value()), old(pool.queue)), pool.maxsize)
        == DeliverFinish(env, id, RollbackRow, Front(disk.Value(), pool.queue), pool.maxsize);
    var ok := disk.Delete(id, Inv.RollbackCall in env.faults);
    if !ok { return ServerError; }
    disk.Discard(id, Inv.DiscardCall in env.faults);
    return Busy;
  }

  lemma DeliverUnfold(env: DeliverEnv, id: IncidentId, pc: DeliverPc, s: Front, maxsize: nat)
    requires !pc.Answered?
    ensures var next := DeliverStep(env, id, pc, s, maxsize);
      DeliverFinish(env, id, pc, s, maxsize) == DeliverFinish(env, id, next.0, next.1, maxsize)
  {
  }

  /** The directory an unanswered attempt may have left behind blocks the snapshot. */
  predicate SnapshotPossible(env: DeliverEnv, id: IncidentId, db: Db) {
    Inv.SnapshotCall !in env.faults && !(id in db.dirs && db.dirs[id].files > 0)
  }

  lemma ClaimThenUnclaim(db: Db, id: IncidentId, row: Incident)
    requires id !in db.incidents && forall r <- db.runs :: db.runs[r].incident != id
    ensures var claimed := CreateIncident(db, id, row).value;
      DeleteIncident(claimed, id).Some? && DeleteIncident(claimed, id).value.incidents == db.incidents
  {
    var claimed := CreateIncident(db, id, row).value;
    assert DeleteIncident(claimed, id).value.incidents == db.incidents;
  }

  /** A delivery whose store calls work is all or nothing. A known id changes nothing. A new one
      is accepted exactly when its snapshot can be taken and the queue has room: then its row is
      queued, its directory holds the source, and it is last in the queue. Otherwise it is
      answered 503 and the tables, but for the id's own events, are what they were, so that the
      id can be delivered again; a leftover non-empty directory is the one thing that keeps
      blocking it. */
  lemma DeliveryAllOrNothing(env: DeliverEnv, id: IncidentId, s: Front, maxsize: nat)
    requires env.faults <= {Inv.SnapshotCall}
    requires forall r <- s.db.runs :: s.db.runs[r].incident in s.db.incidents
    ensures var (response, s') := DeliverFinish(env, id, Find, s, maxsize);
      && (response == Duplicate <==> id in s.db.incidents)
      && (response == Accepted <==> id !in s.db.incidents && SnapshotPossible(env, id, s.db) && |s.queue| < maxsize)
      && (response == SnapshotFailed <==> id !in s.db.incidents && !SnapshotPossible(env, id, s.db))
      && (response == Duplicate ==> s' == s)
      && (response == Accepted ==>
            && s'.db.incidents == s.db.incidents[id := Incident(env.received, Queued, env.hint)]
            && s'.db.dirs == s.db.dirs[id := env.source] && s'.queue == s.queue + [id])
      && (response != Accepted ==>
            && s'.db.incidents == s.db.incidents && s'.db.runs == s.db.runs && s'.db.diagnoses == s.db.diagnoses
            && s'.queue == s.queue
            && s'.db.dirs == if response == Busy then s.db.dirs - {id} else s.db.dirs)
  {
    DeliverUnfold(env, id, Find, s, maxsize);
    if id !in s.db.incidents {
      DeliverUnfold(env, id, Claim, s, maxsize);
      var row := Incident(env.received, Queued, env.hint);
      ClaimThenUnclaim(s.db, id, row);
      var s1 := s.(db := CreateIncident(s.db, id, row).value);
      DeliverUnfold(env, id, Snapshot, s1, maxsize);
      if SnapshotPossible(env, id, s.db) {
        DeliveryFromSnapshot(env, id, s.db, s1, maxsize);
      } else {
        DeliverUnfold(env, id, Unclaim, s1, maxsize);
      }
    }
  }

  lemma SnapshotSteps(env: DeliverEnv, id: IncidentId, db: Db, s1: Front, s3: Front, maxsize: nat)
    requires Inv.ReceivedCall !in env.faults && SnapshotPossible(env, id, db)
    requires id !in db.incidents
    requires s1.db == CreateIncident(db, id, Incident(env.received, Queued, env.hint)).value
    requires s3 == s1.(db := AppendEvent(SnapshotSignals(s1.db, id, env.source).value, Event(id, None, Received)).value)
    ensures DeliverFinish(env, id, Snapshot, s1, maxsize) == DeliverFinish(env, id, Enqueue, s3, maxsize)
  {
    DeliverUnfold(env, id, Snapshot, s1, maxsize);
    DeliverUnfold(env, id, Receive, DeliverStep(env, id, Snapshot, s1, maxsize).1, maxsize);
  }

  lemma SnapshotLeaves(id: IncidentId, db: Db, row: Incident, source: Dir, after: Db)
    requires id !in db.incidents && !(id in db.dirs && db.dirs[id].files > 0)
    requires after == AppendEvent(SnapshotSignals(CreateIncident(db, id, row).value, id, source).value,
                                  Event(id, None, Received)).value
    ensures after.incidents - {id} == db.incidents && after.dirs - {id} == db.dirs - {id}
    ensures after.dirs == db.dirs[id := source] && after.runs == db.runs && after.diagnoses == db.diagnoses
  {
  }

  lemma EnqueueEnds(env: DeliverEnv, id: IncidentId, s: Front, maxsize: nat)
    ensures DeliverFinish(env, id, Enqueue, s, maxsize) ==
      if |s.queue| < maxsize then (Accepted, s.(queue := s.queue + [id]))
      else DeliverFinish(env, id, RollbackRow, s, maxsize)
  {
    DeliverUnfold(env, id, Enqueue, s, maxsize);
  }

  lemma DeliveryFromSnapshot(env: DeliverEnv, id: IncidentId, db: Db, s1: Front, maxsize: nat)
    requires env.faults <= {Inv.SnapshotCall} && SnapshotPossible(env, id, db)
    requires id !in db.incidents && forall r <- db.runs :: db.runs[r].incident != id
    requires s1.db == CreateIncident(db, id, Incident(env.received, Queued, env.hint)).value
    ensures var (response, s') := DeliverFinish(env, id, Snapshot, s1, maxsize);
      && response == (if |s1.queue| < maxsize then Accepted else Busy)
      && s'.db.incidents == (if response == Accepted then s1.db.incidents else db.incidents)
      && s'.db.dirs == (if response == Accepted then db.dirs[id := env.source] else db.dirs - {id})
      && s'.queue == (if response == Accepted then s1.queue + [id] else s1.queue)
      && s'.db.runs == db.runs && s'.db.diagnoses == db.diagnoses
  {
    var s3 := s1.(db := AppendEvent(SnapshotSignals(s1.db, id, env.source).value, Event(id, None, Received)).value);
    SnapshotSteps(env, id, db, s1, s3, maxsize);
    SnapshotLeaves(id, db, Incident(env.received, Queued, env.hint), env.source, s3.db);
    EnqueueEnds(env, id, s3, maxsize);
    if |s1.queue| >= maxsize {
      RollbackUndoes(env, id, db, s3, maxsize);
    }
  }

  lemma RollbackUndoes(env: DeliverEnv, id: IncidentId, db: Db, s: Front, maxsize: nat)
    requires env.faults <= {Inv.SnapshotCall} && s.db.runs == db.runs
    requires id !in db.incidents && forall r <- db.runs :: db.runs[r].incident != id
    requires s.db.incidents - {id} == db.incidents && s.db.dirs - {id} == db.dirs - {id}
    ensures var (response, s') := DeliverFinish(env, id, RollbackRow, s, maxsize);
      && response == Busy && s'.db.incidents == db.incidents && s'.db.dirs == db.dirs - {id}
      && s'.queue == s.queue && s'.db.runs == s.db.runs && s'.db.diagnoses == s.db.diagnoses
  {
    DeliverUnfold(env, id, RollbackRow, s, maxsize);
    var s4 := DeliverStep(env, id, RollbackRow, s, maxsize).1;
    DeliverUnfold(env, id, RollbackDir, s4, maxsize);
    assert s4.db.incidents == s.db.incidents - {id};
    assert DeliverStep(env, id, RollbackDir, s4, maxsize).1.db.dirs == s4.db.dirs - {id};
  }

  /** The events afterwards: one more for an accepted delivery; after a rollback, those of the other
      incidents, all of them and in order; after a duplicate, what they were. */
  lemma DeliveryEvents(env: DeliverEnv, id: IncidentId, s: Front, maxsize: nat, response: Response, end: Front)
    requires env.faults <= {Inv.SnapshotCall} && RunsHaveRows(s.db)
    requires (response, end) == DeliverFinish(env, id, Find, s, maxsize)
    ensures response == Duplicate ==> end.db.events == s.db.events
    ensures response == Accepted ==> end.db.events == s.db.events + [Event(id, None, Received)]
    ensures response == SnapshotFailed || response == Busy ==>
      && Subsequence(end.db.events, s.db.events)
      && forall e :: multiset(end.db.events)[e] == if e.incident == id then 0 else multiset(s.db.events)[e]
  {
    OthersKeepTheirEvents(s.db.events, id);
    if id in s.db.incidents {
      DeliverUnfold(env, id, Find, s, maxsize);
    } else {
      ClaimSteps(env, id, s, maxsize);
      var claimed := CreateIncident(s.db, id, Incident(env.received, Queued, env.hint)).value;
      if SnapshotPossible(env, id, s.db) {
        TakenEvents(env, id, s.db, s.(db := claimed), maxsize);
      } else {
        UnclaimEvents(env, id, s.(db := claimed), maxsize);
      }
    }
  }

  lemma TakenEvents(env: DeliverEnv, id: IncidentId, db: Db, s1: Front, maxsize: nat)
    requires env.faults <= {Inv.SnapshotCall} && SnapshotPossible(env, id, db)
    requires id !in db.incidents && forall r <- db.runs :: db.runs[r].incident != id
    requires s1.db == CreateIncident(db, id, Incident(env.received, Queued, env.hint)).value
    ensures var (response, end) := DeliverFinish(env, id, Snapshot, s1, maxsize);
      && (response == Accepted || response == Busy)
      && end.db.events == if response == Accepted then db.events + [Event(id, None, Received)]
                          else EventsOfOthers(db.events, id)
  {
    var s3 := s1.(db := AppendEvent(SnapshotSignals(s1.db, id, env.source).value, Event(id, None, Received)).value);
    SnapshotSteps(env, id, db, s1, s3, maxsize);
    EnqueueEnds(env, id, s3, maxsize);
    if |s3.queue| >= maxsize {
      RollbackEvents(env, id, s3, maxsize);
      OwnEventsGo(db.events, Event(id, None, Received));
    }
  }

  lemma RollbackEvents(env: DeliverEnv, id: IncidentId, s: Front, maxsize: nat)
    requires env.faults <= {Inv.SnapshotCall} && forall r <- s.db.runs :: s.db.runs[r].incident != id
    ensures DeliverFinish(env, id, RollbackRow, s, maxsize).0 == Busy
    ensures DeliverFinish(env, id, RollbackRow, s, maxsize).1.db.events == EventsOfOthers(s.db.events, id)
  {
    DeliverUnfold(env, id, RollbackRow, s, maxsize);
    DeliverUnfold(env, id, RollbackDir, s.(db := DeleteIncident(s.db, id).value), maxsize);
  }

  lemma UnclaimEvents(env: DeliverEnv, id: IncidentId, s: Front, maxsize: nat)
    requires env.faults <= {Inv.SnapshotCall} && forall r <- s.db.runs :: s.db.runs[r].incident != id
    requires Inv.SnapshotCall in env.faults || (id in s.db.dirs && s.db.dirs[id].files > 0)
    ensures DeliverFinish(env, id, Snapshot, s, maxsize).0 == SnapshotFailed
    ensures DeliverFinish(env, id, Snapshot, s, maxsize).1.db.events == EventsOfOthers(s.db.events, id)
  {
    DeliverUnfold(env, id, Snapshot, s, maxsize);
    DeliverUnfold(env, id, Unclaim, s, maxsize);
  }

  // --- a directory that is left behind ----------------------------------------------------

  /** No row, but a directory that is not empty. */
  predicate Blocked(db: Db, id: IncidentId) {
    id !in db.incidents && id in db.dirs && db.dirs[id].files > 0
  }

  ghost predicate RunsHaveRows(db: Db) {
    forall r <- db.runs :: db.runs[r].incident in db.incidents
  }

  lemma ClaimSteps(env: DeliverEnv, id: IncidentId, s: Front, maxsize: nat)
    requires env.faults !! {Inv.ReadCall, Inv.ClaimCall} && id !in s.db.incidents
    ensures var claimed := CreateIncident(s.db, id, Incident(env.received, Queued, env.hint)).value;
      DeliverFinish(env, id, Find, s, maxsize) == DeliverFinish(env, id, Snapshot, s.(db := claimed), maxsize)
  {
    DeliverUnfold(env, id, Find, s, maxsize);
    DeliverUnfold(env, id, Claim, s, maxsize);
  }

  lemma SwallowedRollback(env: DeliverEnv, id: IncidentId, s: Front, maxsize: nat)
    requires env.faults == {Inv.DiscardCall} && forall r <- s.db.runs :: s.db.runs[r].incident != id
    ensures DeliverFinish(env, id, RollbackRow, s, maxsize) == (Busy, s.(db := DeleteIncident(s.db, id).value))
  {
    DeliverUnfold(env, id, RollbackRow, s, maxsize);
    DeliverUnfold(env, id, RollbackDir, s.(db := DeleteIncident(s.db, id).value), maxsize);
  }

  /** How it comes about: a new incident meets a full queue, and the clean-up of its directory is
      swallowed. */
  lemma ShedLeavesDirectory(env: DeliverEnv, id: IncidentId, s: Front, maxsize: nat, response: Response, end: Front)
    requires env.faults == {Inv.DiscardCall} && env.source.files > 0 && |s.queue| >= maxsize
    requires RunsHaveRows(s.db) && id !in s.db.incidents && id !in s.db.dirs
    requires (response, end) == DeliverFinish(env, id, Find, s, maxsize)
    ensures response == Busy && Blocked(end.db, id)
    ensures end.db.incidents == s.db.incidents && end.db.runs == s.db.runs
  {
    var row := Incident(env.received, Queued, env.hint);
    var s1 := s.(db := CreateIncident(s.db, id, row).value);
    var s3 := s1.(db := AppendEvent(SnapshotSignals(s1.db, id, env.source).value, Event(id, None, Received)).value);
    ClaimSteps(env, id, s, maxsize);
    SnapshotSteps(env, id, s.db, s1, s3, maxsize);
    SnapshotLeaves(id, s.db, row, env.source, s3.db);
    EnqueueEnds(env, id, s3, maxsize);
    SwallowedRollback(env, id, s3, maxsize);
    assert end.db.incidents == s3.db.incidents - {id};
  }

  /** A later delivery, and the queue it meets. */
  datatype Attempt = Attempt(env: DeliverEnv, queue: seq<IncidentId>, maxsize: nat)
  {
    function Outcome(id: IncidentId, db: Db): (Response, Front) {
      DeliverFinish(env, id, Find, Front(db, queue), maxsize)
    }
  }

  /** The store after these deliveries of the incident. */
  function Redelivered(attempts: seq<Attempt>, id: IncidentId, db: Db): Db {
    if attempts == [] then db
    else
      var before := Redelivered(attempts[..|attempts| - 1], id, db);
      attempts[|attempts| - 1].Outcome(id, before).1.db
  }

  ghost predicate TablesKept(db: Db, end: Db) {
    end.incidents == db.incidents && end.runs == db.runs && end.dirs == db.dirs
  }

  lemma BlockedIsRefused(attempt: Attempt, id: IncidentId, db: Db)
    requires Blocked(db, id) && RunsHaveRows(db) && attempt.env.faults <= {Inv.SnapshotCall}
    ensures attempt.Outcome(id, db).0 == SnapshotFailed && TablesKept(db, attempt.Outcome(id, db).1.db)
  {
    DeliveryAllOrNothing(attempt.env, id, Front(db, attempt.queue), attempt.maxsize);
  }

  /** What it leads to: every later delivery is answered 503, room or not, however many there are,
      and none of them changes the tables or the directory, so that the next one fares the same. */
  lemma {:induction false} BlockedStaysBlocked(attempts: seq<Attempt>, id: IncidentId, db: Db, i: nat)
    requires Blocked(db, id) && RunsHaveRows(db) && i < |attempts|
    requires forall a <- attempts :: a.env.faults <= {Inv.SnapshotCall}
    ensures TablesKept(db, Redelivered(attempts[..i], id, db))
    ensures attempts[i].Outcome(id, Redelivered(attempts[..i], id, db)).0 == SnapshotFailed
    decreases i
  {
    if i > 0 {
      var before := Redelivered(attempts[..i - 1], id, db);
      BlockedStaysBlocked(attempts, id, db, i - 1);
      assert attempts[..i][..i - 1] == attempts[..i - 1];
      BlockedIsRefused(attempts[i - 1], id, before);
    }
    BlockedIsRefused(attempts[i], id, Redelivered(attempts[..i], id, db));
  }

  // --- worker ---------------------------------------------------------------------------

  datatype WorkEnv = WorkEnv(inv: Inv.Env, faults: set<Inv.Stage>)

  datatype WorkPc = Load | Working(pc: Inv.Pc) | Reread | Reap | Released
  {
    function Rank(): nat {
      match this case Load => 20 case Working(pc) => 5 + pc.Rank() case Reread => 2 case Reap => 1 case Released => 0
    }

    predicate Settled() {
      Working? ==> !pc.Finished?
    }
  }

  /** `_process_sync` step by step; an exception ends in `_worker`'s handler. */
  function WorkStep(env: WorkEnv, id: IncidentId, pc: WorkPc, db: Db): (r: (WorkPc, Db))
    requires !pc.Released? && pc.Settled()
    ensures r.0.Rank() < pc.Rank() && r.0.Settled()
  {
    match pc
    case Load =>
      if Inv.LoadCall in env.faults || id !in db.incidents || Inv.ProviderCall in env.faults then (Released, db)
      else (Working(Inv.SetRunning), db)
    case Working(pc) =>
      var (pc', db') := Inv.Step(env.inv, id, pc, db);
      (if !pc'.Finished? then Working(pc') else if pc'.ok then Released else Reread, db')
    case Reread =>
      (if Inv.RereadCall !in env.faults && db.StatusIs(id, Failed) then Reap else Released, db)
    case Reap =>
      (Released, if Inv.DiscardCall in env.faults then db else DiscardSnapshot(db, id))
  }

  function WorkFinish(env: WorkEnv, id: IncidentId, pc: WorkPc, db: Db): Db
    requires pc.Settled()
    decreases pc.Rank()
  {
    if pc.Released? then db else var next := WorkStep(env, id, pc, db); WorkFinish(env, id, next.0, next.1)
  }

  method ProcessSync(disk: Disk, id: IncidentId, env: WorkEnv)
    modifies disk
    ensures disk.Value() == WorkFinish(env, id, Load, old(disk.Value()))
  {
    if Inv.LoadCall in env.faults || id !in disk.incidents || Inv.ProviderCall in env.faults { return; }
    ghost var before := disk.Value();
    var ok := Inv.RunInvestigation(disk, id, env.inv);
    WorkingFinishes(env, id, Inv.SetRunning, before);
    assert WorkFinish(env, id, Load, before) == WorkFinish(env, id, if ok then Released else Reread, disk.Value());
    if !ok {
      if Inv.RereadCall in env.faults { return; }
      if id in disk.incidents && disk.incidents[id].status == Failed {
        disk.Discard(id, Inv.DiscardCall in env.faults);
      }
    }
  }

  lemma {:induction false} WorkingFinishes(env: WorkEnv, id: IncidentId, pc: Inv.Pc, db: Db)
    requires !pc.Finished?
    ensures var (ok, db') := Inv.Finish(env.inv, id, pc, db);
      WorkFinish(env, id, Working(pc), db) == WorkFinish(env, id, if ok then Released else Reread, db')
    decreases pc.Rank()
  {
    var next := Inv.Step(env.inv, id, pc, db);
    if !next.0.Finished? {
      WorkingFinishes(env, id, next.0, next.1);
    }
  }

  /** What a worker leaves: nothing changed if the incident cannot be loaded; else what the
      investigation leaves, without the directory exactly if the result is a failure, the row is
      persisted as failed, and neither reading that nor discarding raises. */
  lemma WorkLeaves(env: WorkEnv, id: IncidentId, db: Db, end: Db)
    requires end == WorkFinish(env, id, Load, db)
    ensures env.faults * {Inv.LoadCall, Inv.ProviderCall} != {} || id !in db.incidents ==> end == db
    ensures env.faults * {Inv.LoadCall, Inv.ProviderCall} == {} && id in db.incidents ==>
      var (concluded, after) := Inv.Finish(env.inv, id, Inv.SetRunning, db);
      var reaped := !concluded && after.StatusIs(id, Failed) && env.faults * {Inv.RereadCall, Inv.DiscardCall} == {};
      end == after.(dirs := if reaped then after.dirs - {id} else after.dirs)
  {
    assert forall call :: call in env.faults * {Inv.LoadCall, Inv.ProviderCall} <==>
      call in env.faults && (call == Inv.LoadCall || call == Inv.ProviderCall);
    if Inv.LoadCall !in env.faults && Inv.ProviderCall !in env.faults && id in db.incidents {
      var (concluded, after) := Inv.Finish(env.inv, id, Inv.SetRunning, db);
      LoadStarts(env, id, db);
      WorkingFinishes(env, id, Inv.SetRunning, db);
      ReapLeaves(env, id, concluded, after);
    }
  }

  lemma LoadStarts(env: WorkEnv, id: IncidentId, db: Db)
    requires Inv.LoadCall !in env.faults && Inv.ProviderCall !in env.faults && id in db.incidents
    ensures WorkFinish(env, id, Load, db) == WorkFinish(env, id, Working(Inv.SetRunning), db)
  {
  }

  lemma ReapLeaves(env: WorkEnv, id: IncidentId, concluded: bool, after: Db)
    ensures var reaped := !concluded && after.StatusIs(id, Failed)
                          && env.faults * {Inv.RereadCall, Inv.DiscardCall} == {};
      WorkFinish(env, id, if concluded then Released else Reread, after) ==
      after.(dirs := if reaped then after.dirs - {id} else after.dirs)
  {
    assert forall call :: call in env.faults * {Inv.RereadCall, Inv.DiscardCall} <==>
      call in env.faults && (call == Inv.RereadCall || call == Inv.DiscardCall);
  }

  // --- recovery -------------------------------------------------------------------------

  /** Some run of the incident concluded, so it must not be run again. */
  predicate Completed(db: Db, id: IncidentId) {
    exists r <- db.runs :: db.runs[r].incident == id && db.runs[r].outcome != RunFailed
  }

  /** A result of `incidents_by_status(("queued", "running"))`: every such incident once, oldest
      first, ties in any order. */
  ghost predicate IsListing(db: Db, ids: seq<IncidentId>) {
    && (forall id :: id in ids <==> id in db.incidents && db.incidents[id].status.Waiting())
    && (forall i, j :: 0 <= i < j < |ids| ==> ids[i] != ids[j])
    && (forall i, j :: 0 <= i < j < |ids| ==> db.incidents[ids[i]].received <= db.incidents[ids[j]].received)
  }

  /** The listed incidents that have to be investigated (again), in order. */
  function Unfinished(db: Db, ids: seq<IncidentId>): seq<IncidentId> {
    if ids == [] then []
    else Unfinished(db, ids[..|ids| - 1]) + (if Completed(db, ids[|ids| - 1]) then [] else [ids[|ids| - 1]])
  }

  /** The completed ones among the listed incidents move to review. */
  function Reconciled(db: Db, ids: seq<IncidentId>): Db {
    db.(incidents := map id | id in db.incidents ::
          if id in ids && Completed(db, id) then db.incidents[id].(status := PendingReview) else db.incidents[id])
  }

  // --- what recovery does, told by the rows ------------------------------------------------------

  /** Some run of the incident ended with a diagnosis or an abstention. */
  ghost predicate Concluded(db: Db, id: IncidentId) {
    exists r :: r in db.runs && db.runs[r].incident == id
      && (db.runs[r].outcome == Diagnosed || db.runs[r].outcome == Abstained)
  }

  ghost predicate WaitsIn(db: Db, id: IncidentId) {
    id in db.incidents && (db.incidents[id].status == Queued || db.incidents[id].status == Running)
  }

  /** The store after reconciling: a waiting incident with a concluded run reads 'pending_review',
      every other row and everything else is as it was. */
  ghost predicate ReviewsConcluded(db: Db, db': Db) {
    && db' == db.(incidents := db'.incidents) && db'.incidents.Keys == db.incidents.Keys
    && forall id <- db.incidents ::
         db'.incidents[id] == if WaitsIn(db, id) && Concluded(db, id)
                              then Incident(db.incidents[id].received, PendingReview, db.incidents[id].hint)
                              else db.incidents[id]
  }

  /** The waiting incidents without a concluded run, each once, oldest first. */
  ghost predicate OldestFirst(db: Db, ids: seq<IncidentId>) {
    (forall id :: id in ids <==> WaitsIn(db, id) && !Concluded(db, id)) && Aged(db, ids)
  }

  /** Known incidents, each once, oldest first. */
  ghost predicate Aged(db: Db, ids: seq<IncidentId>) {
    && (forall id <- ids :: id in db.incidents)
    && (forall i, j :: 0 <= i < j < |ids| ==> ids[i] != ids[j])
    && (forall i, j :: 0 <= i < j < |ids| ==> db.incidents[ids[i]].received <= db.incidents[ids[j]].received)
  }

  lemma CompletedIsConcluded(db: Db, id: IncidentId)
    ensures Completed(db, id) <==> Concluded(db, id)
  {
    if r :| r in db.runs && db.runs[r].incident == id && db.runs[r].outcome != RunFailed {
      assert db.runs[r].outcome == Diagnosed || db.runs[r].outcome == Abstained;
    }
  }

  lemma ReconciledMeans(db: Db, listing: seq<IncidentId>)
    requires IsListing(db, listing)
    ensures ReviewsConcluded(db, Reconciled(db, listing))
  {
    forall id <- db.incidents ensures (id in listing && Completed(db, id)) <==> (WaitsIn(db, id) && Concluded(db, id)) {
      CompletedIsConcluded(db, id);
    }
  }

  lemma AgedSnoc(db: Db, ids: seq<IncidentId>, id: IncidentId)
    requires Aged(db, ids) && id in db.incidents
    requires forall k <- ids :: k != id && db.incidents[k].received <= db.incidents[id].received
    ensures Aged(db, ids + [id])
  {
    forall i | 0 <= i < |ids| ensures ids[i] != id && db.incidents[ids[i]].received <= db.incidents[id].received {
      assert ids[i] in ids;
    }
  }

  lemma AgedPrefix(db: Db, ids: seq<IncidentId>)
    requires Aged(db, ids) && ids != []
    ensures Aged(db, ids[..|ids| - 1]) && ids[|ids| - 1] in db.incidents
    ensures forall k <- ids[..|ids| - 1] ::
      k != ids[|ids| - 1] && db.incidents[k].received <= db.incidents[ids[|ids| - 1]].received
  {
    var n := |ids| - 1;
    forall k <- ids[..n] ensures k != ids[n] && db.incidents[k].received <= db.incidents[ids[n]].received {
      var i :| 0 <= i < n && ids[i] == k;
    }
  }

  /** Unfinished ones among the listed, in their order. */
  ghost predicate Rest(db: Db, ids: seq<IncidentId>, rest: seq<IncidentId>) {
    Aged(db, rest) && forall id :: id in rest <==> id in ids && !Completed(db, id)
  }

  lemma RestSnoc(db: Db, ids: seq<IncidentId>, id: IncidentId, rest: seq<IncidentId>)
    requires Rest(db, ids, rest) && id in db.incidents && (forall k <- ids :: k in db.incidents)
    requires forall k <- ids :: k != id && db.incidents[k].received <= db.incidents[id].received
    ensures Rest(db, ids + [id], rest + if Completed(db, id) then [] else [id])
  {
    if !Completed(db, id) {
      AgedSnoc(db, rest, id);
    } else {
      assert rest + [] == rest;
    }
  }

  lemma {:induction false} UnfinishedKeepsOrder(db: Db, ids: seq<IncidentId>)
    requires Aged(db, ids)
    ensures Rest(db, ids, Unfinished(db, ids))
  {
    if ids != [] {
      var n := |ids| - 1;
      AgedPrefix(db, ids);
      UnfinishedKeepsOrder(db, ids[..n]);
      RestSnoc(db, ids[..n], ids[n], Unfinished(db, ids[..n]));
      assert ids == ids[..n] + [ids[n]];
    }
  }

  lemma UnfinishedMeans(db: Db, listing: seq<IncidentId>)
    requires IsListing(db, listing)
    ensures OldestFirst(db, Unfinished(db, listing))
  {
    UnfinishedKeepsOrder(db, listing);
    forall id ensures id in Unfinished(db, listing) <==> WaitsIn(db, id) && !Concluded(db, id) {
      CompletedIsConcluded(db, id);
    }
  }

  lemma EarliestExists(rows: map<IncidentId, Incident>, todo: set<IncidentId>)
    requires todo != {} && todo <= rows.Keys
    ensures exists id <- todo :: forall k <- todo :: rows[id].received <= rows[k].received
  {
    var id :| id in todo;
    var others := todo - {id};
    if others == {} {
      assert todo == {id};
    } else {
      EarliestExists(rows, others);
      var e :| e in others && forall k <- others :: rows[e].received <= rows[k].received;
      var first := if rows[id].received <= rows[e].received then id else e;
      forall k <- todo ensures rows[first].received <= rows[k].received {
        assert k == id || k in others;
      }
    }
  }

  method IncidentsByStatus(disk: Disk) returns (ids: seq<IncidentId>)
    ensures IsListing(disk.Value(), ids)
  {
    ids := [];
    var todo := set id | id in disk.incidents && disk.incidents[id].status.Waiting();
    ghost var all := todo;
    while todo != {}
      invariant todo <= all && (forall id :: id in ids <==> id in all - todo)
      invariant forall i :: 0 <= i < |ids| ==> ids[i] in all
      invariant forall i, j :: 0 <= i < j < |ids| ==> ids[i] != ids[j]
      invariant forall i, j :: 0 <= i < j < |ids| ==> disk.incidents[ids[i]].received <= disk.incidents[ids[j]].received
      invariant forall id <- ids, k <- todo :: disk.incidents[id].received <= disk.incidents[k].received
    {
      EarliestExists(disk.incidents, todo);
      var id :| id in todo && forall k <- todo :: disk.incidents[id].received <= disk.incidents[k].received;
      ids := ids + [id];
      todo := todo - {id};
    }
  }

  lemma ReconciledSnoc(db: Db, ids: seq<IncidentId>, id: IncidentId)
    requires id in db.incidents
    ensures Reconciled(db, ids + [id]) ==
      if Completed(db, id) then SetIncidentStatus(Reconciled(db, ids), id, PendingReview).value else Reconciled(db, ids)
  {
    if Completed(db, id) {
      assert Reconciled(db, ids + [id]).incidents
          == SetIncidentStatus(Reconciled(db, ids), id, PendingReview).value.incidents;
    } else {
      assert Reconciled(db, ids + [id]).incidents == Reconciled(db, ids).incidents;
    }
  }

  /** `_fetch`: reconcile the completed incidents, collect the others. */
  method Fetch(disk: Disk, ids: seq<IncidentId>) returns (toEnqueue: seq<IncidentId>)
    requires IsListing(disk.Value(), ids)
    modifies disk
    ensures disk.Value() == Reconciled(old(disk.Value()), ids)
    ensures toEnqueue == Unfinished(old(disk.Value()), ids)
    ensures ReviewsConcluded(old(disk.Value()), disk.Value()) && OldestFirst(old(disk.Value()), toEnqueue)
  {
    toEnqueue := [];
    ghost var db := disk.Value();
    for i := 0 to |ids|
      invariant disk.Value() == Reconciled(db, ids[..i])
      invariant toEnqueue == Unfinished(db, ids[..i])
    {
      assert ids[..i + 1] == ids[..i] + [ids[i]] && ids[..i + 1][..i] == ids[..i];
      ReconciledSnoc(db, ids[..i], ids[i]);
      if exists r <- disk.runs :: disk.runs[r].incident == ids[i] && disk.runs[r].outcome != RunFailed {
        var ok := disk.SetStatus(ids[i], PendingReview, false);
      } else {
        toEnqueue := toEnqueue + [ids[i]];
      }
    }
    assert ids[..|ids|] == ids;
    ReconciledMeans(db, ids);
    UnfinishedMeans(db, ids);
  }

  /** The enqueue loop: in order, until the queue is full. */
  method FillQueue(pool: WorkerPool, todo: seq<IncidentId>) returns (recovered: nat)
    requires |pool.queue| <= pool.maxsize
    modifies pool
    ensures recovered <= |todo| && pool.queue == old(pool.queue) + todo[..recovered]
    ensures recovered < |todo| ==> |pool.queue| == pool.maxsize
  {
    recovered := 0;
    while recovered < |todo|
      invariant recovered <= |todo|
      invariant pool.queue == old(pool.queue) + todo[..recovered]
      invariant |pool.queue| <= pool.maxsize
    {
      var ok := pool.Enqueue(todo[recovered]);
      if !ok { break; }
      recovered := recovered + 1;
    }
  }

  /** `_recover_pending`: re-enqueue the stranded incidents, oldest first, until the queue is
      full; the remainder stays for a later start-up. */
  method RecoverPending(disk: Disk, pool: WorkerPool) returns (recovered: nat, ghost listing: seq<IncidentId>)
    requires |pool.queue| <= pool.maxsize
    modifies disk, pool
    ensures IsListing(old(disk.Value()), listing)
    ensures disk.Value() == Reconciled(old(disk.Value()), listing)
    ensures var todo := Unfinished(old(disk.Value()), listing);
      && OldestFirst(old(disk.Value()), todo) && recovered <= |todo|
      && pool.queue == old(pool.queue) + todo[..recovered]
      && (recovered < |todo| ==> |pool.queue| == pool.maxsize)
    ensures ReviewsConcluded(old(disk.Value()), disk.Value())
  {
    var ids := IncidentsByStatus(disk);
    listing := ids;
    var todo := Fetch(disk, ids);
    recovered := FillQueue(pool, todo);
  }
}
