/** The reference-counted per-incident locks of `create_app._incident_lock`
    (src/quellgeist/service/app.py): mutual exclusion per id, and no entry left behind. */
module Locks {
  import opened Store

  type Task = nat

  /** What a task inside the context manager holds on to: its id and its lock object. */
  datatype Ctx<+L> = Ctx(id: IncidentId, lock: L)

  /** The two dictionaries, the requests between entry and exit, and who has acquired what. */
  datatype LockState<L(==)> = LockState(
    table: map<IncidentId, L>,
    refs: map<IncidentId, int>,
    inside: map<Task, Ctx<L>>,
    holder: map<L, Task>)
  {
    ghost function TasksOf(id: IncidentId): set<Task> {
      set t | t in inside && inside[t].id == id
    }

    predicate Holds(t: Task, id: IncidentId) {
      t in inside && inside[t].id == id && inside[t].lock in holder && holder[inside[t].lock] == t
    }

    /** The two dictionaries have the same keys, and each count is the number of tasks inside. */
    ghost predicate Counted() {
      && table.Keys == refs.Keys
      && (forall id <- refs :: refs[id] == |TasksOf(id)| && refs[id] > 0)
      && (forall t <- inside :: inside[t].id in refs)
    }

    /** Tasks inside use the lock the table holds for their id; ids do not share locks. */
    ghost predicate Shared() {
      && (forall t <- inside :: inside[t].id in table && table[inside[t].id] == inside[t].lock)
      && (forall i <- table, j <- table :: table[i] == table[j] ==> i == j)
    }

    ghost predicate Held() {
      forall l <- holder :: holder[l] in inside && inside[holder[l]].lock == l
    }

    ghost predicate Inv() {
      Counted() && Shared() && Held()
    }
  }

  function Empty<L(==)>(): LockState<L> {
    LockState(map[], map[], map[], map[])
  }

  // --- the three atomic sections of the context manager -------------------------------

  /** Look up or create the lock, and count one more task; no suspension point in between. */
  function Enter<L(==)>(s: LockState<L>, t: Task, id: IncidentId, created: L): LockState<L> {
    var lock := if id in s.table then s.table[id] else created;
    s.(table := s.table[id := lock],
       refs := s.refs[id := (if id in s.refs then s.refs[id] else 0) + 1],
       inside := s.inside[t := Ctx(id, lock)])
  }

  function Acquire<L(==)>(s: LockState<L>, t: Task): LockState<L>
    requires t in s.inside
  {
    s.(holder := s.holder[s.inside[t].lock := t])
  }

  /** Release the lock if held, count one task less, and drop both entries at zero. */
  function Exit<L(==)>(s: LockState<L>, t: Task): LockState<L>
    requires t in s.inside && s.inside[t].id in s.refs
  {
    var id, lock := s.inside[t].id, s.inside[t].lock;
    var n := s.refs[id] - 1;
    LockState(
      if n == 0 then s.table - {id} else s.table,
      if n == 0 then s.refs - {id} else s.refs[id := n],
      s.inside - {t},
      if lock in s.holder && s.holder[lock] == t then s.holder - {lock} else s.holder)
  }

  lemma EnterCount<L>(s: LockState<L>, t: Task, id: IncidentId, created: L, k: IncidentId)
    requires t !in s.inside
    ensures Enter(s, t, id, created).TasksOf(k) == s.TasksOf(k) + if k == id then {t} else {}
    ensures |Enter(s, t, id, created).TasksOf(k)| == |s.TasksOf(k)| + if k == id then 1 else 0
  {
  }

  lemma EnterCounted<L>(s: LockState<L>, t: Task, id: IncidentId, created: L)
    requires s.Counted() && t !in s.inside
    ensures Enter(s, t, id, created).Counted()
  {
    var s' := Enter(s, t, id, created);
    forall k <- s'.refs ensures s'.refs[k] == |s'.TasksOf(k)| && s'.refs[k] > 0 {
      EnterCount(s, t, id, created, k);
      if k == id && id !in s.refs {
        assert s.TasksOf(id) == {};
      }
    }
  }

  lemma EnterShared<L>(s: LockState<L>, t: Task, id: IncidentId, created: L)
    requires s.Shared() && t !in s.inside && (id in s.table || created !in s.table.Values)
    ensures Enter(s, t, id, created).Shared()
  {
    assert forall k <- s.table :: s.table[k] in s.table.Values;
  }

  lemma EnterKeeps<L>(s: LockState<L>, t: Task, id: IncidentId, created: L)
    requires s.Inv() && t !in s.inside && (id in s.table || created !in s.table.Values)
    ensures Enter(s, t, id, created).Inv()
    ensures forall u, k :: s.Holds(u, k) ==> Enter(s, t, id, created).Holds(u, k)
  {
    EnterCounted(s, t, id, created);
    EnterShared(s, t, id, created);
  }

  lemma AcquireKeeps<L>(s: LockState<L>, t: Task)
    requires s.Inv() && t in s.inside && s.inside[t].lock !in s.holder
    ensures Acquire(s, t).Inv()
    ensures Acquire(s, t).Holds(t, s.inside[t].id)
    ensures forall u, k :: s.Holds(u, k) ==> Acquire(s, t).Holds(u, k)
  {
    var s' := Acquire(s, t);
    assert forall k <- s'.refs :: s'.TasksOf(k) == s.TasksOf(k);
  }

  lemma ExitCount<L>(s: LockState<L>, t: Task, k: IncidentId)
    requires t in s.inside && s.inside[t].id in s.refs
    ensures Exit(s, t).TasksOf(k) == s.TasksOf(k) - if k == s.inside[t].id then {t} else {}
    ensures |Exit(s, t).TasksOf(k)| == |s.TasksOf(k)| - if k == s.inside[t].id then 1 else 0
  {
    if k == s.inside[t].id {
      assert t in s.TasksOf(k);
    } else {
      assert Exit(s, t).TasksOf(k) == s.TasksOf(k);
    }
  }

  lemma ExitCounted<L>(s: LockState<L>, t: Task)
    requires s.Counted() && t in s.inside
    ensures Exit(s, t).Counted()
  {
    var s', id := Exit(s, t), s.inside[t].id;
    ExitCount(s, t, id);
    forall k <- s'.refs ensures s'.refs[k] == |s'.TasksOf(k)| && s'.refs[k] > 0 {
      ExitCount(s, t, k);
    }
    forall u <- s'.inside ensures s'.inside[u].id in s'.refs {
      if s'.inside[u].id == id {
        assert u in s'.TasksOf(id);
        assert s'.TasksOf(id) != {};
      }
    }
  }

  lemma ExitKeeps<L>(s: LockState<L>, t: Task)
    requires s.Inv() && t in s.inside
    ensures Exit(s, t).Inv()
    ensures forall u, k :: u != t && s.Holds(u, k) ==> Exit(s, t).Holds(u, k)
  {
    ExitCounted(s, t);
  }

  lemma MutualExclusion<L>(s: LockState<L>, t: Task, u: Task, id: IncidentId)
    requires s.Inv() && s.Holds(t, id) && s.Holds(u, id)
    ensures t == u
  {
  }

  // --- whole runs -----------------------------------------------------------------------

  ghost predicate TableStep<L(!new)>(s: LockState<L>, s': LockState<L>) {
    || (exists t, id, created ::
          t !in s.inside && (id in s.table || created !in s.table.Values) && s' == Enter(s, t, id, created))
    || (exists t :: t in s.inside && s.inside[t].lock !in s.holder && s' == Acquire(s, t))
    || (exists t :: t in s.inside && s.inside[t].id in s.refs && s' == Exit(s, t))
  }

  ghost predicate IsTableRun<L(!new)>(run: seq<LockState<L>>) {
    run != [] && run[0] == Empty() && forall i :: 0 < i < |run| ==> TableStep(run[i - 1], run[i])
  }

  lemma TableStepKeeps<L(!new)>(s: LockState<L>, s': LockState<L>)
    requires s.Inv() && TableStep(s, s')
    ensures s'.Inv()
  {
    if t, id, created :|
      t !in s.inside && (id in s.table || created !in s.table.Values) && s' == Enter(s, t, id, created)
    {
      EnterKeeps(s, t, id, created);
    } else if t :| t in s.inside && s.inside[t].lock !in s.holder && s' == Acquire(s, t) {
      AcquireKeeps(s, t);
    } else {
      var t :| t in s.inside && s.inside[t].id in s.refs && s' == Exit(s, t);
      ExitKeeps(s, t);
    }
  }

  lemma NoTaskNoEntry<L>(s: LockState<L>)
    requires s.Inv() && s.inside == map[]
    ensures s == Empty()
  {
    assert forall id :: s.TasksOf(id) == {};
  }

  lemma {:induction false} TableRunKeeps<L(!new)>(run: seq<LockState<L>>, i: nat)
    requires IsTableRun(run) && i < |run|
    ensures run[i].Inv()
  {
    if i > 0 {
      TableRunKeeps(run, i - 1);
      TableStepKeeps(run[i - 1], run[i]);
    }
  }

  /** In every state of every run: the count of an id is the number of tasks holding or waiting
      for it, all of them share the one lock in the table, at most one of them holds it, and
      when no task is inside nothing is left in either dictionary. */
  lemma LockTableSafe<L(!new)>(run: seq<LockState<L>>, i: nat)
    requires IsTableRun(run) && i < |run|
    ensures forall id <- run[i].refs :: run[i].refs[id] == |run[i].TasksOf(id)|
    ensures forall t <- run[i].inside :: run[i].inside[t].id in run[i].table
                                         && run[i].table[run[i].inside[t].id] == run[i].inside[t].lock
    ensures forall t, u, id :: run[i].Holds(t, id) && run[i].Holds(u, id) ==> t == u
    ensures run[i].inside == map[] ==> run[i] == Empty()
  {
    TableRunKeeps(run, i);
    if run[i].inside == map[] {
      NoTaskNoEntry(run[i]);
    }
  }

  // --- the code -----------------------------------------------------------------------

  class AsyncLock {
    var locked: bool

    constructor ()
      ensures !locked
    {
      locked := false;
    }
  }

  /** `id_locks` and `id_lock_refs`. Who is inside is tracked for the specification only;
      the context manager keeps its lock in a local variable. */
  class LockTable {
    var idLocks: map<IncidentId, AsyncLock>
    var idLockRefs: map<IncidentId, int>
    ghost var inside: map<Task, Ctx<AsyncLock>>
    ghost var holder: map<AsyncLock, Task>

    ghost function Value(): LockState<AsyncLock>
      reads this
    {
      LockState(idLocks, idLockRefs, inside, holder)
    }

    constructor ()
      ensures Value() == Empty()
    {
      idLocks, idLockRefs := map[], map[];
      inside, holder := map[], map[];
    }

    method EnterTask(ghost t: Task, id: IncidentId) returns (lock: AsyncLock)
      modifies this
      ensures Value() == Enter(old(Value()), t, id, lock)
      ensures if id in old(idLocks) then lock == old(idLocks)[id] else fresh(lock) && !lock.locked
      ensures inside[t] == Ctx(id, lock)
    {
      if id in idLocks {
        lock := idLocks[id];
      } else {
        lock := new AsyncLock();
        idLocks := idLocks[id := lock];
      }
      idLockRefs := idLockRefs[id := (if id in idLockRefs then idLockRefs[id] else 0) + 1];
      inside := inside[t := Ctx(id, lock)];
      assert idLocks == old(idLocks)[id := lock];
    }

    /** The section of `async with lock` that runs when the lock is free. */
    method AcquireLock(ghost t: Task, lock: AsyncLock)
      requires t in inside && inside[t].lock == lock && !lock.locked
      modifies this, lock
      ensures lock.locked && Value() == Acquire(old(Value()), t)
    {
      lock.locked := true;
      holder := holder[lock := t];
    }

    /** Leaving the context manager, after releasing (`held`) or when the wait was cancelled. */
    method ExitTask(ghost t: Task, id: IncidentId, lock: AsyncLock, held: bool)
      requires t in inside && inside[t] == Ctx(id, lock) && id in idLockRefs
      requires held <==> lock in holder && holder[lock] == t
      modifies this, lock
      ensures Value() == Exit(old(Value()), t)
      ensures lock.locked == (if held then false else old(lock.locked))
    {
      if held {
        lock.locked := false;
        holder := holder - {lock};
      }
      inside := inside - {t};
      idLockRefs := idLockRefs[id := idLockRefs[id] - 1];
      if idLockRefs[id] == 0 {
        idLocks := idLocks - {id};
        idLockRefs := idLockRefs - {id};
        assert idLockRefs == old(idLockRefs) - {id};
      }
    }
  }
}
