/** The leased retry queue of pkg/framework/queue.go: its rows, its four statements and its worker loop. */
module Queue {
  import opened Clock

  datatype Option<+T> = None | Some(value: T)

  const VISIBILITY_TIMEOUT: int := 30 * MINUTE
  const MAX_RECEIVES: nat := 5
  const BACKOFF_INTERVAL: int := 10 * SECOND

  /** A task's JSON data: a string, or any other JSON value. */
  datatype Payload = Text(text: string) | OtherJson

  /** One row of queue_tasks. A row's primary key is its position in the table: rows are
      only ever soft deleted, so positions are never reused. */
  datatype Task = Task(
    id: nat,
    queue: string,
    createdAt: int,
    visibleAfter: int,
    receiveCount: nat,
    data: Payload,
    deleted: bool)

  /** The WHERE clause of a pop. Soft-deleted rows are invisible to queries. */
  predicate Eligible(t: Task, queue: string, now: int) {
    && !t.deleted
    && t.queue == queue
    && t.visibleAfter < now
    && t.receiveCount <= MAX_RECEIVES
  }

  /** The ORDER BY clause of a pop, with the primary key that First adds to it. */
  predicate Before(rows: seq<Task>, i: nat, j: nat)
    requires i < |rows| && j < |rows|
  {
    rows[i].createdAt < rows[j].createdAt || (rows[i].createdAt == rows[j].createdAt && i < j)
  }

  ghost predicate IsFirst(rows: seq<Task>, queue: string, now: int, i: nat) {
    && i < |rows|
    && Eligible(rows[i], queue, now)
    && forall j :: 0 <= j < |rows| && j != i && Eligible(rows[j], queue, now) ==> Before(rows, i, j)
  }

  /** The row a pop's SELECT answers. */
  function FirstEligible(rows: seq<Task>, queue: string, now: int): (r: Option<nat>)
    ensures r.Some? ==> IsFirst(rows, queue, now, r.value)
    ensures r.None? ==> forall i :: 0 <= i < |rows| ==> !Eligible(rows[i], queue, now)
    ensures r.Some? ==> forall j :: r.value < j < |rows| && Eligible(rows[j], queue, now) ==>
                          rows[r.value].createdAt <= rows[j].createdAt
    ensures r.Some? ==> forall j :: 0 <= j < r.value && Eligible(rows[j], queue, now) ==>
                          rows[r.value].createdAt < rows[j].createdAt
  {
    if |rows| == 0 then None else
    var n := |rows| - 1;
    var earlier := FirstEligible(rows[..n], queue, now);
    if Eligible(rows[n], queue, now) && (earlier.None? || rows[n].createdAt < rows[earlier.value].createdAt)
    then Some(n)
    else earlier
  }

  /** A pushed row: never received, visible from the moment of the push. */
  function NewTask(id: nat, queue: string, data: Payload, visibleAt: int, createdAt: int): Task {
    Task(id, queue, createdAt, visibleAt, 0, data, false)
  }

  /** A popped row: leased for the visibility timeout and counted. */
  function Leased(t: Task, now: int): Task {
    t.(visibleAfter := now + VISIBILITY_TIMEOUT, receiveCount := t.receiveCount + 1)
  }

  /** time.Duration(math.Pow(2, n)). A power that does not fit converts to the smallest int64. */
  function DurationOfPower(n: nat): int {
    if n < 63 then Pow2(n) else MIN_INT64
  }

  /** How long a task that has been received so many times is hidden when it is returned. */
  function BackoffDelay(receives: nat): int {
    WrapInt64(BACKOFF_INTERVAL * DurationOfPower(receives))
  }

  function BackedOff(t: Task, now: int): Task {
    t.(visibleAfter := now + BackoffDelay(t.receiveCount))
  }

  /** Saving a copy of a row writes every column, deleted_at included. */
  function SaveRow(rows: seq<Task>, t: Task): seq<Task>
    requires t.id < |rows|
  {
    rows[t.id := t]
  }

  function DeleteRow(rows: seq<Task>, id: nat): seq<Task>
    requires id < |rows|
  {
    rows[id := rows[id].(deleted := true)]
  }

  /** The queue_tasks table. `commits` is the database's answer to the statement or
      transaction: a refused one has no effect. Each instant parameter is one time.Now(). */
  class QueueTable {
    var rows: seq<Task>

    ghost predicate Valid()
      reads this
    {
      forall i :: 0 <= i < |rows| ==> rows[i].id == i
    }

    constructor ()
      ensures Valid() && rows == []
    {
      rows := [];
    }

    /** Validation asks for a queue name. */
    method PushQueueTask(queue: string, data: Payload, visibleAt: int, createdAt: int, commits: bool)
      returns (ok: bool)
      requires Valid()
      modifies this
      ensures Valid()
      ensures ok <==> commits && queue != ""
      ensures !ok ==> rows == old(rows)
      ensures ok ==> rows == old(rows) + [NewTask(|old(rows)|, queue, data, visibleAt, createdAt)]
      ensures ok ==> var t := rows[|old(rows)|];
                     && t.queue == queue && t.data == data && t.visibleAfter == visibleAt && t.createdAt == createdAt
                     && t.receiveCount == 0 && !t.deleted
    {
      if !commits || queue == "" {
        return false;
      }
      rows := rows + [NewTask(|rows|, queue, data, visibleAt, createdAt)];
      return true;
    }

    method PopQueueTask(queue: string, askedAt: int, leasedAt: int, commits: bool)
      returns (r: Option<Task>)
      requires Valid()
      modifies this
      ensures Valid()
      ensures r.Some? <==>
                && commits && queue != ""
                && exists i :: 0 <= i < |old(rows)| && Eligible(old(rows)[i], queue, askedAt)
      ensures r.None? ==> rows == old(rows)
      ensures r.Some? ==>
                && IsFirst(old(rows), queue, askedAt, r.value.id)
                && r.value == Leased(old(rows)[r.value.id], leasedAt)
                && rows == SaveRow(old(rows), r.value)
      ensures r.Some? ==>
                var before := old(rows)[r.value.id];
                && !before.deleted && before.queue == queue && before.visibleAfter < askedAt && before.receiveCount <= 5
                && r.value == before.(visibleAfter := leasedAt + 1800 * SECOND, receiveCount := before.receiveCount + 1)
    {
      var first := FirstEligible(rows, queue, askedAt);
      if first.None? || !commits || queue == "" {
        return None;
      }
      var task := rows[first.value];
      task := task.(visibleAfter := leasedAt + VISIBILITY_TIMEOUT);
      task := task.(receiveCount := task.receiveCount + 1);
      rows := rows[task.id := task];
      return Some(task);
    }

    method CompleteQueueTask(task: Task, commits: bool) returns (ok: bool)
      requires Valid() && task.id < |rows|
      modifies this
      ensures Valid()
      ensures ok <==> commits
      ensures rows == if ok then DeleteRow(old(rows), task.id) else old(rows)
      ensures ok ==> rows[task.id] == old(rows)[task.id].(deleted := true)
    {
      if !commits {
        return false;
      }
      rows := rows[task.id := rows[task.id].(deleted := true)];
      return true;
    }

    method ReturnQueueTask(task: Task, now: int, commits: bool) returns (ok: bool)
      requires Valid() && task.id < |rows|
      modifies this
      ensures Valid()
      ensures ok <==> commits && task.queue != ""
      ensures rows == if ok then SaveRow(old(rows), BackedOff(task, now)) else old(rows)
      ensures ok ==> rows[task.id] == task.(visibleAfter := now + BackoffDelay(task.receiveCount))
    {
      var backoffFactor := DurationOfPower(task.receiveCount);
      var timeUntilNextTry := WrapInt64(BACKOFF_INTERVAL * backoffFactor);
      if !commits || task.queue == "" {
        return false;
      }
      rows := rows[task.id := task.(visibleAfter := now + timeUntilNextTry)];
      return true;
    }
  }
}
