/** The worker loop of pkg/framework/queue.go, proved to take only steps of a one-worker run. */
module QueueWorkers {
  import opened Clock
  import opened Queue
  import opened QueueRuns

  /** A push by some other part of the program, which has passed validation. */
  datatype Arrival = Arrival(queue: string, data: Payload, visibleAt: int, createdAt: int)

  /** What one turn of the loop meets: the tasks that are pushed before its pop, the readings and the
      answers of the pop, the tasks that are pushed while the handler works or the worker sleeps, the
      handler's result, and the reading and the answer of the write-back. */
  datatype Turn = Turn(
    before: seq<Arrival>,
    askedAt: int,
    leasedAt: int,
    popCommits: bool,
    during: seq<Arrival>,
    handled: bool,
    writtenAt: int,
    writeCommits: bool)

  /** The clock never goes back. */
  ghost predicate InOrder(clock: int, arrivals: seq<Arrival>)
    decreases |arrivals|
  {
    arrivals != [] ==>
      && arrivals[0].queue != ""
      && clock <= arrivals[0].visibleAt <= arrivals[0].createdAt
      && InOrder(arrivals[0].createdAt, arrivals[1..])
  }

  ghost function After(clock: int, arrivals: seq<Arrival>): int {
    if arrivals == [] then clock else arrivals[|arrivals| - 1].createdAt
  }

  ghost predicate TurnInOrder(clock: int, t: Turn) {
    && InOrder(clock, t.before)
    && After(clock, t.before) <= t.askedAt <= t.leasedAt
    && InOrder(t.leasedAt, t.during)
    && After(t.leasedAt, t.during) <= t.writtenAt
  }

  ghost predicate Ordered(clock: int, turns: seq<Turn>)
    decreases |turns|
  {
    turns != [] ==> TurnInOrder(clock, turns[0]) && Ordered(turns[0].writtenAt, turns[1..])
  }

  ghost function Pushes(arrivals: seq<Arrival>): seq<Event> {
    seq(|arrivals|, i requires 0 <= i < |arrivals| =>
      Push(arrivals[i].queue, arrivals[i].data, arrivals[i].visibleAt, arrivals[i].createdAt))
  }

  /** The queue events of a turn from its pop on. A popped task is completed if its handler succeeded
      and returned if it failed, unless that write is refused, which abandons it to its lease. */
  ghost function TurnEvents(rows: seq<Task>, self: nat, queue: string, t: Turn): seq<Event> {
    if !t.popCommits || FirstEligible(rows, queue, t.askedAt).None? then Pushes(t.during) else
    [Pop(self, queue, t.askedAt, t.leasedAt)] + Pushes(t.during) + [WriteBack(self, t)]
  }

  ghost function WriteBack(self: nat, t: Turn): Event {
    if !t.writeCommits then Drop(self) else if t.handled then Complete(self) else Return(self, t.writtenAt)
  }

  ghost predicate Idle(s: State, self: nat, queue: string) {
    && self !in s.holds
    && (forall w :: w in s.holds ==> s.holds[w].queue != queue)
  }

  ghost predicate CanTake(s: State, es: seq<Event>) {
    CanRun(s, es) && Along(s, es, OneWorker)
  }

  /** The turn takes one state to the other, by exactly its events, under the one-worker rule. */
  ghost predicate Takes(s: State, s': State, self: nat, queue: string, t: Turn) {
    && CanTake(s, Pushes(t.before))
    && var es := Pushes(t.before) + TurnEvents(Run(s, Pushes(t.before)).rows, self, queue, t);
       CanTake(s, es) && s' == Run(s, es)
  }

  /** What has become of the task that the turn popped from these rows: gone if its handler succeeded,
      hidden for its backoff if it failed, still leased if the write was refused. */
  ghost predicate Settled(rows: seq<Task>, rows': seq<Task>, queue: string, t: Turn) {
    var popped := FirstEligible(rows, queue, t.askedAt);
    t.popCommits && popped.Some? ==>
      var i, row := popped.value, Leased(rows[popped.value], t.leasedAt);
      && i < |rows'|
      && rows'[i] ==
           if !t.writeCommits then row
           else if t.handled then row.(deleted := true)
           else row.(visibleAfter := t.writtenAt + BackoffDelay(row.receiveCount))
  }

  ghost predicate SettlesIn(s: State, s': State, queue: string, t: Turn) {
    CanRun(s, Pushes(t.before)) && Settled(Run(s, Pushes(t.before)).rows, s'.rows, queue, t)
  }

  /** When a task that a turn popped is delivered again: never if its handler succeeded and that was
      written; if it failed and that was written, once ten seconds times two to the number of its
      receives have passed; if the write was refused, once the half hour of the lease has passed; and
      the sixth receive is the last in any case. */
  lemma {:induction false} TurnDecides(rows: seq<Task>, rows': seq<Task>, queue: string, t: Turn, i: nat, at: int)
    requires Settled(rows, rows', queue, t) && t.popCommits && FirstEligible(rows, queue, t.askedAt) == Some(i)
    ensures i < |rows'|
    ensures t.handled && t.writeCommits ==> rows'[i].deleted && !Eligible(rows'[i], queue, at)
    ensures !t.handled && t.writeCommits ==>
              (Eligible(rows'[i], queue, at) <==>
                 rows[i].receiveCount <= 4 && at > t.writtenAt + 10 * SECOND * Pow2(rows[i].receiveCount + 1))
    ensures !t.writeCommits ==>
              (Eligible(rows'[i], queue, at) <==> rows[i].receiveCount <= 4 && at > t.leasedAt + 1800 * SECOND)
  {
    BackoffBound(rows[i].receiveCount + 1);
  }

  /** A turn whose handler succeeded and whose write committed ends its task: no later turn pops it. */
  lemma {:induction false} SucceededIsOver(states: seq<State>, self: nat, queue: string, turns: seq<Turn>,
                                           k: nat, j: nat, i: nat)
    requires |states| == |turns| + 1 && Inv(states[0]) && k < j <= |turns|
    requires forall m :: 0 <= m < |turns| ==> Takes(states[m], states[m + 1], self, queue, turns[m])
    requires SettlesIn(states[k], states[k + 1], queue, turns[k])
    requires turns[k].popCommits && turns[k].handled && turns[k].writeCommits
    requires FirstEligible(Run(states[k], Pushes(turns[k].before)).rows, queue, turns[k].askedAt) == Some(i)
    ensures i < |states[j].rows| && states[j].rows[i].deleted
    ensures ReceivesOf(states[j].log, i) == ReceivesOf(states[k + 1].log, i)
  {
    var rows := Run(states[k], Pushes(turns[k].before)).rows;
    TurnDecides(rows, states[k + 1].rows, queue, turns[k], i, 0);
    LoopKeepsDeleted(states, self, queue, turns, k + 1, j, i);
  }

  /** A task that is deleted stays so, and is not delivered. */
  ghost predicate KeepsDeleted(s: State, s': State, i: nat) {
    i < |s.rows| && s.rows[i].deleted ==>
      i < |s'.rows| && s'.rows[i].deleted && ReceivesOf(s'.log, i) == ReceivesOf(s.log, i)
  }

  lemma TurnKeepsDeleted(s: State, s': State, self: nat, queue: string, t: Turn, i: nat)
    requires Inv(s) && Takes(s, s', self, queue, t)
    ensures KeepsDeleted(s, s', i)
  {
    if i < |s.rows| && s.rows[i].deleted {
      DeletedStays(s, Pushes(t.before) + TurnEvents(Run(s, Pushes(t.before)).rows, self, queue, t), i);
    }
  }

  lemma {:induction false} StepsKeepDeleted(states: seq<State>, k: nat, j: nat, i: nat)
    requires k <= j < |states|
    requires forall m :: k <= m < j ==> KeepsDeleted(states[m], states[m + 1], i)
    ensures KeepsDeleted(states[k], states[j], i)
    decreases j
  {
    if k < j {
      StepsKeepDeleted(states, k, j - 1, i);
      assert KeepsDeleted(states[j - 1], states[j - 1 + 1], i);
    }
  }

  lemma LoopKeepsDeleted(states: seq<State>, self: nat, queue: string, turns: seq<Turn>, k: nat, j: nat, i: nat)
    requires |states| == |turns| + 1 && Inv(states[0]) && k <= j <= |turns|
    requires forall m :: 0 <= m < |turns| ==> Takes(states[m], states[m + 1], self, queue, turns[m])
    ensures KeepsDeleted(states[k], states[j], i)
  {
    forall m | k <= m < j
      ensures KeepsDeleted(states[m], states[m + 1], i)
    {
      LoopKeepsInv(states, self, queue, turns, m);
      TurnKeepsDeleted(states[m], states[m + 1], self, queue, turns[m], i);
    }
    StepsKeepDeleted(states, k, j, i);
  }

  /** The states that the loop goes through keep the queue's invariant: the counts, the spacing, and
      the agreement of every copy with its row. */
  lemma {:induction false} LoopKeepsInv(states: seq<State>, self: nat, queue: string, turns: seq<Turn>, k: nat)
    requires |states| == |turns| + 1 && Inv(states[0]) && k <= |turns|
    requires forall j :: 0 <= j < |turns| ==> Takes(states[j], states[j + 1], self, queue, turns[j])
    ensures Inv(states[k])
  {
    if k > 0 {
      LoopKeepsInv(states, self, queue, turns, k - 1);
      var s, t := states[k - 1], turns[k - 1];
      assert Takes(s, states[k], self, queue, t);
      RunKeepsInv(s, Pushes(t.before) + TurnEvents(Run(s, Pushes(t.before)).rows, self, queue, t));
    }
  }

  /** The row that a pop answers is the one that the pop event takes. */
  lemma {:induction false} PopIsFirst(s: State, self: nat, queue: string, askedAt: int, leasedAt: int, task: Task)
    requires IsFirst(s.rows, queue, askedAt, task.id) && task == Leased(s.rows[task.id], leasedAt)
    requires self !in s.holds && s.clock <= askedAt <= leasedAt
    ensures FirstEligible(s.rows, queue, askedAt) == Some(task.id)
    ensures var pop := Pop(self, queue, askedAt, leasedAt);
            && Enabled(s, pop)
            && Apply(s, pop).rows == SaveRow(s.rows, task)
            && Apply(s, pop).holds == s.holds[self := task]
  {
  }

  class QueueWorker {
    const table: QueueTable
    const queueName: string

    constructor (table: QueueTable, queueName: string)
      ensures this.table == table && this.queueName == queueName
    {
      this.table := table;
      this.queueName := queueName;
    }

    /** The table has gone from the rows of `s` through these events. */
    ghost predicate OnTrack(s: State, es: seq<Event>)
      reads table
    {
      table.Valid() && CanTake(s, es) && Run(s, es).rows == table.rows
    }

    /** Other parts of the program push their tasks. */
    method Arrive(arrivals: seq<Arrival>, ghost s: State, ghost es: seq<Event>)
      requires OnTrack(s, es) && InOrder(Run(s, es).clock, arrivals)
      modifies table
      ensures OnTrack(s, es + Pushes(arrivals))
      ensures Run(s, es + Pushes(arrivals)).holds == Run(s, es).holds
      ensures Run(s, es + Pushes(arrivals)).clock == After(Run(s, es).clock, arrivals)
      ensures |table.rows| >= |old(table.rows)| && table.rows[..|old(table.rows)|] == old(table.rows)
    {
      assert es + Pushes([]) == es;
      for k := 0 to |arrivals|
        invariant OnTrack(s, es + Pushes(arrivals[..k]))
        invariant Run(s, es + Pushes(arrivals[..k])).holds == Run(s, es).holds
        invariant Run(s, es + Pushes(arrivals[..k])).clock == After(Run(s, es).clock, arrivals[..k])
        invariant InOrder(After(Run(s, es).clock, arrivals[..k]), arrivals[k..])
        invariant |table.rows| >= |old(table.rows)| && table.rows[..|old(table.rows)|] == old(table.rows)
      {
        var a := arrivals[k];
        var _ := table.PushQueueTask(a.queue, a.data, a.visibleAt, a.createdAt, true);
        ghost var push := Push(a.queue, a.data, a.visibleAt, a.createdAt);
        RunSnoc(s, es + Pushes(arrivals[..k]), push, OneWorker);
        assert (es + Pushes(arrivals[..k])) + [push] == es + Pushes(arrivals[..k + 1]);
        assert arrivals[k..][1..] == arrivals[k + 1..];
      }
      assert arrivals[..|arrivals|] == arrivals;
    }

    /** What the loop does with a popped task, while others push theirs. */
    method Handle(task: Task, t: Turn, self: nat, ghost s: State, ghost es: seq<Event>)
      requires OnTrack(s, es) && self !in s.holds && Run(s, es).holds == s.holds[self := task]
      requires task.id < |table.rows| && task.queue != ""
      requires InOrder(Run(s, es).clock, t.during) && After(Run(s, es).clock, t.during) <= t.writtenAt
      modifies table
      ensures var done := es + Pushes(t.during) + [WriteBack(self, t)];
              && OnTrack(s, done)
              && Run(s, done).holds == s.holds
              && Run(s, done).clock <= t.writtenAt
      ensures task.id < |table.rows|
      ensures table.rows[task.id] ==
                if !t.writeCommits then old(table.rows)[task.id]
                else if t.handled then old(table.rows)[task.id].(deleted := true)
                else task.(visibleAfter := t.writtenAt + BackoffDelay(task.receiveCount))
    {
      Arrive(t.during, s, es);
      ghost var handled := es + Pushes(t.during);
      ghost var before := Run(s, handled);
      RunSnoc(s, handled, WriteBack(self, t), OneWorker);
      assert before.holds - {self} == s.holds;
      if !t.handled {
        var _ := table.ReturnQueueTask(task, t.writtenAt, t.writeCommits);
        return;
      }
      var _ := table.CompleteQueueTask(task, t.writeCommits);
    }

    /** The pop of a turn, at the end of these events. */
    method Poll(t: Turn, self: nat, ghost s: State, ghost es: seq<Event>) returns (qt: Option<Task>)
      requires OnTrack(s, es) && queueName != "" && Idle(Run(s, es), self, queueName)
      requires Run(s, es).clock <= t.askedAt <= t.leasedAt
      modifies table
      ensures qt.None? <==> !t.popCommits || FirstEligible(Run(s, es).rows, queueName, t.askedAt).None?
      ensures qt.None? ==> OnTrack(s, es)
      ensures qt.Some? ==>
                var popped := es + [Pop(self, queueName, t.askedAt, t.leasedAt)];
                && OnTrack(s, popped)
                && Run(s, popped).holds == Run(s, es).holds[self := qt.value]
                && Run(s, popped).clock == t.leasedAt
                && qt.value.id < |table.rows| && qt.value.queue != "" && table.rows[qt.value.id] == qt.value
                && FirstEligible(Run(s, es).rows, queueName, t.askedAt) == Some(qt.value.id)
                && qt.value == Leased(Run(s, es).rows[qt.value.id], t.leasedAt)
    {
      ghost var asked := Run(s, es);
      qt := table.PopQueueTask(queueName, t.askedAt, t.leasedAt, t.popCommits);
      if qt.Some? {
        PopIsFirst(asked, self, queueName, t.askedAt, t.leasedAt, qt.value);
        RunSnoc(s, es, Pop(self, queueName, t.askedAt, t.leasedAt), OneWorker);
      }
    }

    /** A turn from its pop on, at the end of these events. */
    method Work(t: Turn, self: nat, ghost s: State, ghost es: seq<Event>)
      requires OnTrack(s, es) && queueName != "" && Run(s, es).holds == s.holds && Idle(s, self, queueName)
      requires Run(s, es).clock <= t.askedAt <= t.leasedAt
      requires InOrder(t.leasedAt, t.during) && After(t.leasedAt, t.during) <= t.writtenAt
      modifies table
      ensures var done := es + TurnEvents(Run(s, es).rows, self, queueName, t);
              && OnTrack(s, done)
              && Run(s, done).holds == s.holds
              && Run(s, done).clock <= t.writtenAt
      ensures Settled(Run(s, es).rows, table.rows, queueName, t)
    {
      var qt := Poll(t, self, s, es);
      if qt.None? {
        InOrderLater(Run(s, es).clock, t.leasedAt, t.during);
        Arrive(t.during, s, es);
      } else {
        ghost var pop := Pop(self, queueName, t.askedAt, t.leasedAt);
        Handle(qt.value, t, self, s, es + [pop]);
        assert es + [pop] + Pushes(t.during) + [WriteBack(self, t)]
            == es + TurnEvents(Run(s, es).rows, self, queueName, t);
      }
    }

    /** One turn of the loop. */
    method Iterate(t: Turn, self: nat, ghost s: State) returns (ghost s': State)
      requires table.Valid() && table.rows == s.rows
      requires queueName != "" && Idle(s, self, queueName) && TurnInOrder(s.clock, t)
      modifies table
      ensures table.Valid() && s'.rows == table.rows && s'.holds == s.holds
      ensures Takes(s, s', self, queueName, t) && s'.clock <= t.writtenAt
      ensures SettlesIn(s, s', queueName, t)
    {
      assert CanTake(s, []) && [] + Pushes(t.before) == Pushes(t.before);
      Arrive(t.before, s, []);
      ghost var es := Pushes(t.before);
      Work(t, self, s, es);
      s' := Run(s, es + TurnEvents(Run(s, es).rows, self, queueName, t));
    }

    /** The loop until it is cancelled, which is when the turns end. The table goes through the states
        of a run in which each turn contributes exactly its events, under the one-worker rule, and
        leaves the worker idle and the task it popped as its handler and its write-back ended. */
    method Start(turns: seq<Turn>, self: nat, ghost s: State) returns (ghost states: seq<State>)
      requires table.Valid() && table.rows == s.rows
      requires queueName != "" && Idle(s, self, queueName) && Ordered(s.clock, turns)
      modifies table
      ensures table.Valid()
      ensures |states| == |turns| + 1 && states[0] == s && states[|turns|].rows == table.rows
      ensures forall k :: 0 <= k < |turns| ==> Takes(states[k], states[k + 1], self, queueName, turns[k])
      ensures forall k :: 0 <= k <= |turns| ==> Idle(states[k], self, queueName)
      ensures forall k :: 0 <= k < |turns| ==> SettlesIn(states[k], states[k + 1], queueName, turns[k])
    {
      states := [s];
      for next := 0 to |turns|
        invariant |states| == next + 1 && states[0] == s
        invariant table.Valid() && states[next].rows == table.rows
        invariant Ordered(states[next].clock, turns[next..])
        invariant forall k :: 0 <= k < next ==> Takes(states[k], states[k + 1], self, queueName, turns[k])
        invariant forall k :: 0 <= k <= next ==> Idle(states[k], self, queueName)
        invariant forall k :: 0 <= k < next ==> SettlesIn(states[k], states[k + 1], queueName, turns[k])
      {
        ghost var s' := Iterate(turns[next], self, states[next]);
        assert turns[next..][1..] == turns[next + 1..];
        OrderedLater(s'.clock, turns[next].writtenAt, turns[next + 1..]);
        states := states + [s'];
      }
    }
  }

  lemma {:induction false} InOrderLater(clock: int, later: int, arrivals: seq<Arrival>)
    requires clock <= later && InOrder(later, arrivals)
    ensures InOrder(clock, arrivals)
  {
  }

  lemma {:induction false} OrderedLater(clock: int, later: int, turns: seq<Turn>)
    requires clock <= later && Ordered(later, turns)
    ensures Ordered(clock, turns)
  {
    if turns != [] {
      InOrderLater(clock, later, turns[0].before);
    }
  }
}
