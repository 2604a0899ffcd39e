/**
 * The server's in-memory task store (`task_results` in src/backend/app.py):
 * a map from task id to the task's dict. Every write and every lookup
 * happens under `task_lock`; `get_status` serialises the record after
 * releasing it, and each operation here is one atomic step. The store is a
 * `defaultdict(dict)`, so updating an id it does not hold starts from an
 * empty dict.
 */
module TaskStore {
  import opened Values

  /** `TaskStatus`; `Name` is the enum member's string value. */
  datatype Status = Pending | Processing | Completed | Failed {
    function Name(): string {
      match this
      case Pending => "pending"
      case Processing => "processing"
      case Completed => "completed"
      case Failed => "failed"
    }

    predicate IsTerminal() {
      this == Completed || this == Failed
    }
  }

  /**
   * A task's dict. Only the keys `status`, `data` and `error` are ever
   * written; an absent key is `None` here.
   */
  datatype TaskRecord = TaskRecord(status: Option<Status>, data: Option<Value>, error: Option<string>)

  /** The `{}` a `defaultdict(dict)` supplies for a missing id. */
  const EmptyRecord := TaskRecord(None, None, None)

  /** `{'status': 'pending'}`, written when a request is accepted. */
  const PendingRecord := TaskRecord(Some(Pending), None, None)

  type TaskId = string

  type Store = map<TaskId, TaskRecord>

  /**
   * The arguments of one `update_task_status(task_id, status, data, error)`
   * call; `data == Null` and `error == None` stand for the `None` defaults.
   */
  datatype Update = Update(status: Status, data: Value, error: Option<string>)

  /** `update_task_status` with status only. */
  function StatusOnly(s: Status): Update {
    Update(s, Null, None)
  }

  /** The dict of `id` as the `defaultdict` would produce it. */
  function RecordOf(store: Store, id: TaskId): TaskRecord {
    if id in store then store[id] else EmptyRecord
  }

  /** The three branches of `update_task_status` applied to one dict. */
  function ApplyToRecord(rec: TaskRecord, u: Update): TaskRecord {
    if u.data != Null then rec.(status := Some(u.status), data := Some(u.data))
    else if u.error.Some? then rec.(status := Some(u.status), error := u.error)
    else rec.(status := Some(u.status))
  }

  /** `update_task_status(task_id, status, data, error)` */
  function UpdateTaskStatus(store: Store, id: TaskId, u: Update): (r: Store)
    ensures r.Keys == store.Keys + {id}
    ensures forall k :: k in store && k != id ==> r[k] == store[k]
    ensures r[id].status == Some(u.status)
    ensures u.data != Null ==>
      r[id].data == Some(u.data) && r[id].error == RecordOf(store, id).error
    ensures u.data == Null && u.error.Some? ==>
      r[id].error == u.error && r[id].data == RecordOf(store, id).data
    ensures u.data == Null && u.error.None? ==>
      r[id].data == RecordOf(store, id).data && r[id].error == RecordOf(store, id).error
  {
    store[id := ApplyToRecord(RecordOf(store, id), u)]
  }

  /** A sequence of updates to one task, each an atomic step. */
  function ApplyUpdates(store: Store, id: TaskId, us: seq<Update>): (r: Store)
    ensures |us| > 0 ==> r.Keys == store.Keys + {id}
    ensures forall k :: k in store && k != id ==> k in r && r[k] == store[k]
    decreases |us|
  {
    if |us| == 0 then store
    else ApplyUpdates(UpdateTaskStatus(store, id, us[0]), id, us[1..])
  }

  /** The reply of `GET /task_status/<task_id>`. */
  datatype StatusReply = Found(record: TaskRecord) | NotFound(error: string) {
    function Code(): int {
      if Found? then 200 else 404
    }
  }

  const TaskNotFound := "Task not found"

  /**
   * `get_status(task_id)`: `task_results.get` does not insert, and
   * `if not result` treats both a missing id and an empty dict as unknown.
   */
  function GetStatus(store: Store, id: TaskId): (r: StatusReply)
    ensures r.NotFound? <==> id !in store || store[id] == EmptyRecord
    ensures r.NotFound? ==> r.error == TaskNotFound && r.Code() == 404
    ensures r.Found? ==> r.record == store[id] && r.Code() == 200
  {
    if id !in store || store[id] == EmptyRecord then NotFound(TaskNotFound)
    else Found(store[id])
  }

  /** Every update leaves a status behind, so a touched id is never reported unknown. */
  lemma UpdatedTaskIsFound(store: Store, id: TaskId, u: Update)
    ensures GetStatus(UpdateTaskStatus(store, id, u), id) ==
      Found(ApplyToRecord(RecordOf(store, id), u))
  {
  }

  /**
   * Updates of two different tasks commute: interleaving the workers of
   * distinct tasks in either order leaves the same store.
   */
  lemma UpdatesOfDistinctTasksCommute(store: Store, a: TaskId, ua: Update, b: TaskId, ub: Update)
    requires a != b
    ensures UpdateTaskStatus(UpdateTaskStatus(store, a, ua), b, ub) ==
            UpdateTaskStatus(UpdateTaskStatus(store, b, ub), a, ua)
  {
  }

  /** A record whose terminal fields obey the lifecycle's invariant. */
  predicate WellFormed(rec: TaskRecord) {
    && rec.status.Some?
    && !(rec.data.Some? && rec.error.Some?)
    && (rec.status == Some(Completed) ==> rec.error.None?)
    && (rec.status == Some(Failed) ==> rec.data.None? && rec.error.Some?)
  }
}
