/** The persisted tables, the per-incident signal directories and what has been published
    (src/quellgeist/store/dao.py, src/quellgeist/service/snapshots.py). Each writer is one
    atomic commit: it either raises and changes nothing, or takes effect. */
module Store {
  import opened Wrappers
  import opened Evidence

  type IncidentId = string
  type RunId = string

  datatype Status = Queued | Running | PendingReview | Posted | Rejected | Failed
  {
    predicate Terminal() {
      Posted? || Rejected? || Failed?
    }

    predicate Waiting() {
      Queued? || Running?
    }
  }

  datatype Incident = Incident(received: int, status: Status, hint: Option<string>)

  datatype Outcome = Diagnosed | Abstained | RunFailed

  /** The `fabricated` column: NULL when unchecked, '' or a JSON list otherwise. */
  datatype Checked = Unchecked | Checked(handles: set<Handle>)
  {
    /** Python's `bool(latest.fabricated)`: NULL and '' are both falsy. */
    predicate Truthy() {
      Checked? && handles != {}
    }
  }

  datatype Run = Run(incident: IncidentId, started: int, outcome: Outcome, fabricated: Checked)

  datatype Decision = Approve | Reject | Steer(text: string)

  datatype DiagnosisRow = DiagnosisRow(diagnosis: Diagnosis, verified: Option<Diagnosis>, review: Option<Decision>)

  datatype EventKind =
    | Received
    | Concluded(outcome: Outcome)
    | FailedWith(diagnosis: Option<Diagnosis>)
    | RejectedEvent | SteeredEvent | PostedEvent

  datatype Event = Event(incident: IncidentId, run: Option<RunId>, kind: EventKind)

  /** A signal directory: how many of the three source files it holds, and what they say. */
  datatype Dir = Dir(files: nat, signals: Signals)

  /** A diagnosis that left the system. */
  datatype Publication = Publication(incident: IncidentId, run: RunId, diagnosis: Diagnosis)

  /** Everything that survives a crash. `frozen` is a history variable: the directory an
      incident's row was claimed with, or the snapshot taken for it since. */
  datatype Db = Db(
    incidents: map<IncidentId, Incident>,
    runs: map<RunId, Run>,
    diagnoses: map<RunId, DiagnosisRow>,
    evidence: set<(RunId, nat, Handle)>,
    events: seq<Event>,
    dirs: map<IncidentId, Dir>,
    published: seq<Publication>,
    frozen: map<IncidentId, Dir>)
  {
    predicate StatusIs(id: IncidentId, status: Status) {
      id in incidents && incidents[id].status == status
    }

    /** What a reader of the incident's directory sees; an absent directory reads as empty. */
    function Reads(id: IncidentId): Signals {
      if id in dirs then dirs[id].signals else NO_SIGNALS
    }

    function Base(id: IncidentId): Signals {
      if id in frozen then frozen[id].signals else NO_SIGNALS
    }

    predicate RunOf(r: RunId, id: IncidentId) {
      r in runs && runs[r].incident == id
    }

    ghost predicate HasRuns(id: IncidentId) {
      exists r :: RunOf(r, id)
    }
  }

  // --- the writers, on values: None when the statement raises -------------------------

  function CreateIncident(db: Db, id: IncidentId, row: Incident): Option<Db> {
    if id in db.incidents then None
    else
      var kept := map k | k in db.frozen && k != id :: db.frozen[k];
      Some(db.(incidents := db.incidents[id := row],
               frozen := if id in db.dirs then kept[id := db.dirs[id]] else kept))
  }

  function SetIncidentStatus(db: Db, id: IncidentId, status: Status): Option<Db> {
    if id in db.incidents then
      Some(db.(incidents := db.incidents[id := db.incidents[id].(status := status)]))
    else Some(db)
  }

  function EventsOfOthers(events: seq<Event>, id: IncidentId): seq<Event> {
    if events == [] then []
    else (if events[0].incident == id then [] else [events[0]]) + EventsOfOthers(events[1..], id)
  }

  /** What is left are the events of the other incidents: all of them, as often as before, in
      their order. */
  lemma {:induction false} OthersKeepTheirEvents(events: seq<Event>, id: IncidentId)
    ensures var rest := EventsOfOthers(events, id);
      && Subsequence(rest, events)
      && forall e :: multiset(rest)[e] == if e.incident == id then 0 else multiset(events)[e]
  {
    if events == [] {
      assert Spells(EventsOfOthers(events, id), events, []);
    } else {
      OthersKeepTheirEvents(events[1..], id);
      SubsequenceCons(events[0], EventsOfOthers(events[1..], id), events[1..]);
      assert events == [events[0]] + events[1..];
      assert [] + EventsOfOthers(events[1..], id) == EventsOfOthers(events[1..], id);
    }
  }

  lemma {:induction false} OwnEventsGo(events: seq<Event>, event: Event)
    ensures EventsOfOthers(events + [event], event.incident) == EventsOfOthers(events, event.incident)
  {
    if events != [] {
      OwnEventsGo(events[1..], event);
      assert (events + [event])[1..] == events[1..] + [event];
    }
  }

  /** Deletes the row and its events; a row that runs refer to is protected by the foreign key. */
  function DeleteIncident(db: Db, id: IncidentId): Option<Db> {
    if exists r <- db.runs :: db.runs[r].incident == id then None
    else Some(db.(incidents := map k | k in db.incidents && k != id :: db.incidents[k],
                  events := EventsOfOthers(db.events, id)))
  }

  function RecordRun(db: Db, r: RunId, row: Run): Option<Db> {
    if r in db.runs || row.incident !in db.incidents then None
    else Some(db.(runs := db.runs[r := row]))
  }

  function RecordDiagnosis(db: Db, r: RunId, row: DiagnosisRow): Option<Db> {
    if r in db.diagnoses || r !in db.runs then None
    else Some(db.(diagnoses := db.diagnoses[r := row]))
  }

  /** The evidence rows of a diagnosis: one per hypothesis index and cited handle. */
  function EvidenceRows(r: RunId, d: Diagnosis): set<(RunId, nat, Handle)> {
    set i: nat, k | i < |d.hypotheses| && k in CitedBy(d.hypotheses[i]) :: (r, i, k)
  }

  function RecordEvidence(db: Db, r: RunId, d: Diagnosis): Option<Db> {
    if EvidenceRows(r, d) == {} then Some(db)
    else if r !in db.runs then None
    else Some(db.(evidence := db.evidence + EvidenceRows(r, d)))
  }

  function SetReview(db: Db, r: RunId, decision: Decision): Option<Db> {
    if r in db.diagnoses then
      Some(db.(diagnoses := db.diagnoses[r := db.diagnoses[r].(review := Some(decision))]))
    else Some(db)
  }

  function AppendEvent(db: Db, event: Event): Option<Db> {
    Some(db.(events := db.events + [event]))
  }

  /** `snapshot_signals`: the final rename refuses to replace a non-empty directory. */
  function SnapshotSignals(db: Db, id: IncidentId, source: Dir): Option<Db> {
    if id in db.dirs && db.dirs[id].files > 0 then None
    else Some(db.(dirs := db.dirs[id := source], frozen := db.frozen[id := source]))
  }

  /** `discard_snapshot`: best-effort, so it never raises. */
  function DiscardSnapshot(db: Db, id: IncidentId): Db {
    db.(dirs := map k | k in db.dirs && k != id :: db.dirs[k])
  }

  function Emit(db: Db, p: Publication): Db {
    db.(published := db.published + [p])
  }

  /** A write that additionally raises when the store is unavailable. */
  function Try(fault: bool, written: Option<Db>): Option<Db> {
    if fault then None else written
  }

  function OrElse(written: Option<Db>, db: Db): Db {
    if written.Some? then written.value else db
  }

  /** `r` may be the last row of `list_runs`: rows are ordered by `started_ts` alone, so among
      the latest any may come last. */
  ghost predicate MayBeLatest(db: Db, id: IncidentId, r: RunId) {
    db.RunOf(r, id) && forall q :: db.RunOf(q, id) ==> db.runs[q].started <= db.runs[r].started
  }

  /** Exactly the runs that start together with a last one may be listed last as well. */
  lemma LatestAreTied(db: Db, id: IncidentId, r: RunId, q: RunId)
    requires MayBeLatest(db, id, r)
    ensures MayBeLatest(db, id, q) <==> db.RunOf(q, id) && db.runs[q].started == db.runs[r].started
  {
    if db.RunOf(q, id) {
      assert db.runs[q].started <= db.runs[r].started;
    }
  }

  ghost predicate IsLatest(db: Db, id: IncidentId, latest: Option<RunId>) {
    if latest.Some? then MayBeLatest(db, id, latest.value) else !db.HasRuns(id)
  }

  /** The store and the file system as the code sees them: named tables, updated in place. */
  class Disk {
    var incidents: map<IncidentId, Incident>
    var runs: map<RunId, Run>
    var diagnoses: map<RunId, DiagnosisRow>
    var evidence: set<(RunId, nat, Handle)>
    var events: seq<Event>
    var dirs: map<IncidentId, Dir>
    var published: seq<Publication>
    ghost var frozen: map<IncidentId, Dir>

    ghost function Value(): Db
      reads this
    {
      Db(incidents, runs, diagnoses, evidence, events, dirs, published, frozen)
    }

    constructor ()
      ensures Value() == Db(map[], map[], map[], {}, [], map[], [], map[])
    {
      incidents, runs, diagnoses, evidence, events, dirs, published := map[], map[], map[], {}, [], map[], [];
      frozen := map[];
    }

    method Create(id: IncidentId, row: Incident, fault: bool) returns (ok: bool)
      modifies this
      ensures ok == Try(fault, CreateIncident(old(Value()), id, row)).Some?
      ensures Value() == OrElse(Try(fault, CreateIncident(old(Value()), id, row)), old(Value()))
    {
      ok := !fault && id !in incidents;
      if ok {
        incidents := incidents[id := row];
        frozen := map k | k in frozen && k != id :: frozen[k];
        if id in dirs {
          frozen := frozen[id := dirs[id]];
        }
      }
    }

    method SetStatus(id: IncidentId, status: Status, fault: bool) returns (ok: bool)
      modifies this
      ensures ok == !fault
      ensures Value() == OrElse(Try(fault, SetIncidentStatus(old(Value()), id, status)), old(Value()))
    {
      ok := !fault;
      if ok && id in incidents {
        incidents := incidents[id := incidents[id].(status := status)];
      }
    }

    method Delete(id: IncidentId, fault: bool) returns (ok: bool)
      modifies this
      ensures ok == Try(fault, DeleteIncident(old(Value()), id)).Some?
      ensures Value() == OrElse(Try(fault, DeleteIncident(old(Value()), id)), old(Value()))
    {
      ok := !fault && !exists r <- runs :: runs[r].incident == id;
      if ok {
        events := EventsOfOthers(events, id);
        incidents := map k | k in incidents && k != id :: incidents[k];
      }
    }

    method InsertRun(r: RunId, row: Run, fault: bool) returns (ok: bool)
      modifies this
      ensures ok == Try(fault, RecordRun(old(Value()), r, row)).Some?
      ensures Value() == OrElse(Try(fault, RecordRun(old(Value()), r, row)), old(Value()))
    {
      ok := !fault && r !in runs && row.incident in incidents;
      if ok {
        runs := runs[r := row];
      }
    }

    method InsertDiagnosis(r: RunId, row: DiagnosisRow, fault: bool) returns (ok: bool)
      modifies this
      ensures ok == Try(fault, RecordDiagnosis(old(Value()), r, row)).Some?
      ensures Value() == OrElse(Try(fault, RecordDiagnosis(old(Value()), r, row)), old(Value()))
    {
      ok := !fault && r !in diagnoses && r in runs;
      if ok {
        diagnoses := diagnoses[r := row];
      }
    }

    method InsertEvidence(r: RunId, d: Diagnosis, fault: bool) returns (ok: bool)
      modifies this
      ensures ok == Try(fault, RecordEvidence(old(Value()), r, d)).Some?
      ensures Value() == OrElse(Try(fault, RecordEvidence(old(Value()), r, d)), old(Value()))
    {
      var rows := EvidenceRows(r, d);
      ok := !fault && (rows == {} || r in runs);
      if ok {
        evidence := evidence + rows;
      }
    }

    method Review(r: RunId, decision: Decision, fault: bool) returns (ok: bool)
      modifies this
      ensures ok == !fault
      ensures Value() == OrElse(Try(fault, SetReview(old(Value()), r, decision)), old(Value()))
    {
      ok := !fault;
      if ok && r in diagnoses {
        diagnoses := diagnoses[r := diagnoses[r].(review := Some(decision))];
      }
    }

    method Append(event: Event, fault: bool) returns (ok: bool)
      modifies this
      ensures ok == !fault
      ensures Value() == OrElse(Try(fault, AppendEvent(old(Value()), event)), old(Value()))
    {
      ok := !fault;
      if ok {
        events := events + [event];
      }
    }

    method Snapshot(id: IncidentId, source: Dir, fault: bool) returns (ok: bool)
      modifies this
      ensures ok == Try(fault, SnapshotSignals(old(Value()), id, source)).Some?
      ensures Value() == OrElse(Try(fault, SnapshotSignals(old(Value()), id, source)), old(Value()))
    {
      ok := !fault && !(id in dirs && dirs[id].files > 0);
      if ok {
        dirs := dirs[id := source];
        frozen := frozen[id := source];
      }
    }

    /** Best-effort removal: it may silently leave the directory behind. */
    method Discard(id: IncidentId, fault: bool)
      modifies this
      ensures Value() == if fault then old(Value()) else DiscardSnapshot(old(Value()), id)
    {
      if !fault {
        dirs := map k | k in dirs && k != id :: dirs[k];
      }
    }

    method Publish(p: Publication)
      modifies this
      ensures Value() == Emit(old(Value()), p)
    {
      published := published + [p];
    }

    /** `runs[-1]` of `list_runs`: one pass that keeps a row with the largest start time. */
    method LatestRun(id: IncidentId) returns (latest: Option<RunId>)
      ensures IsLatest(Value(), id, latest)
    {
      latest := None;
      var todo := set r | r in runs && runs[r].incident == id;
      ghost var all := todo;
      while todo != {}
        invariant todo <= all
        invariant latest.None? ==> todo == all
        invariant latest.Some? ==> latest.value in all && forall q <- all - todo ::
          runs[q].started <= runs[latest.value].started
      {
        var r :| r in todo;
        if latest.None? || runs[r].started >= runs[latest.value].started {
          latest := Some(r);
        }
        todo := todo - {r};
      }
      assert forall q :: Value().RunOf(q, id) <==> q in all;
    }
  }
}
