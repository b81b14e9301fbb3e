/** Whole runs of the queue: any number of workers, any interleaving of their statements with
    pushes, failed write-backs and stopped workers. What every such run keeps. */
module QueueRuns {
  import opened Clock
  import opened Queue

  /** One delivery of a task: the two clock readings of the pop that made it. */
  datatype Receive = Receive(id: nat, askedAt: int, leasedAt: int)

  /** The table, the copy each busy worker holds in memory, the clock, and every receive so far. */
  datatype State = State(rows: seq<Task>, holds: map<nat, Task>, clock: int, log: seq<Receive>)

  datatype Event =
    | Push(queue: string, data: Payload, visibleAt: int, createdAt: int)
    | Pop(worker: nat, poppedQueue: string, askedAt: int, leasedAt: int)
    | Complete(worker: nat)
    | Return(worker: nat, now: int)
    | Drop(worker: nat)  // the write-back failed, or the worker stopped while it held the task
    | Wait(now: int)

  ghost function EmptyAt(clock: int): State {
    State([], map[], clock, [])
  }

  ghost predicate Enabled(s: State, e: Event) {
    match e
    case Push(queue, _, visibleAt, createdAt) => queue != "" && s.clock <= visibleAt <= createdAt
    case Pop(w, queue, askedAt, leasedAt) =>
      w !in s.holds && s.clock <= askedAt <= leasedAt && FirstEligible(s.rows, queue, askedAt).Some?
    case Complete(w) => w in s.holds && s.holds[w].id < |s.rows|
    case Return(w, now) => w in s.holds && s.holds[w].id < |s.rows| && s.clock <= now
    case Drop(w) => w in s.holds
    case Wait(now) => s.clock <= now
  }

  ghost function Apply(s: State, e: Event): State
    requires Enabled(s, e)
  {
    match e
    case Push(queue, data, visibleAt, createdAt) =>
      s.(rows := s.rows + [NewTask(|s.rows|, queue, data, visibleAt, createdAt)], clock := createdAt)
    case Pop(w, queue, askedAt, leasedAt) =>
      var i := FirstEligible(s.rows, queue, askedAt).value;
      var task := Leased(s.rows[i], leasedAt);
      State(s.rows[i := task], s.holds[w := task], leasedAt, s.log + [Receive(i, askedAt, leasedAt)])
    case Complete(w) =>
      s.(rows := DeleteRow(s.rows, s.holds[w].id), holds := s.holds - {w})
    case Return(w, now) =>
      s.(rows := SaveRow(s.rows, BackedOff(s.holds[w], now)), holds := s.holds - {w}, clock := now)
    case Drop(w) => s.(holds := s.holds - {w})
    case Wait(now) => s.(clock := now)
  }

  ghost predicate CanRun(s: State, es: seq<Event>)
    decreases |es|
  {
    es == [] || (Enabled(s, es[0]) && CanRun(Apply(s, es[0]), es[1..]))
  }

  ghost function Run(s: State, es: seq<Event>): State
    requires CanRun(s, es)
    decreases |es|
  {
    if es == [] then s else Run(Apply(s, es[0]), es[1..])
  }

  /** Every step of the run meets the rule at the state it is taken from. */
  ghost predicate Along(s: State, es: seq<Event>, rule: (State, Event) -> bool)
    requires CanRun(s, es)
    decreases |es|
  {
    es == [] || (rule(s, es[0]) && Along(Apply(s, es[0]), es[1..], rule))
  }

  lemma {:induction false} RunCons(s: State, e: Event, es: seq<Event>)
    requires Enabled(s, e) && CanRun(Apply(s, e), es)
    ensures CanRun(s, [e] + es) && Run(s, [e] + es) == Run(Apply(s, e), es)
  {
    assert ([e] + es)[1..] == es;
  }

  lemma {:induction false} AlongCons(s: State, e: Event, es: seq<Event>, rule: (State, Event) -> bool)
    requires Enabled(s, e) && CanRun(Apply(s, e), es) && CanRun(s, [e] + es)
    ensures Along(s, [e] + es, rule) <==> rule(s, e) && Along(Apply(s, e), es, rule)
  {
    assert ([e] + es)[1..] == es;
  }

  /** A run goes on with a step that its last state allows. */
  lemma {:induction false} RunSnoc(s: State, es: seq<Event>, e: Event, rule: (State, Event) -> bool)
    requires CanRun(s, es) && Enabled(Run(s, es), e) && Along(s, es, rule) && rule(Run(s, es), e)
    ensures CanRun(s, es + [e]) && Run(s, es + [e]) == Apply(Run(s, es), e) && Along(s, es + [e], rule)
    decreases |es|
  {
    if es == [] {
      assert CanRun(Apply(s, e), []) && Along(Apply(s, e), [], rule);
      RunCons(s, e, []);
      AlongCons(s, e, [], rule);
      assert [e] + [] == [e] && [] + [e] == [e];
    } else {
      RunSnoc(Apply(s, es[0]), es[1..], e, rule);
      RunCons(s, es[0], es[1..] + [e]);
      AlongCons(s, es[0], es[1..] + [e], rule);
      assert [es[0]] + (es[1..] + [e]) == es + [e];
    }
  }

  /** One sequential worker per queue: nothing of a queue is popped while a task of it is held. */
  ghost predicate OneWorker(s: State, e: Event) {
    e.Pop? ==> forall w :: w in s.holds ==> s.holds[w].queue != e.poppedQueue
  }

  /** No hold outlasts its lease: after the step, every held copy's lease is still running. */
  ghost predicate KeepsLeases(s: State, e: Event) {
    Enabled(s, e) && var s' := Apply(s, e); forall w :: w in s'.holds ==> s'.clock <= s'.holds[w].visibleAfter
  }

  /** The task popped is in nobody's hands. */
  ghost predicate PopsUnheld(s: State, e: Event) {
    e.Pop? && Enabled(s, e) ==>
      forall w :: w in s.holds ==> s.holds[w].id != FirstEligible(s.rows, e.poppedQueue, e.askedAt).value
  }

  // ---- receives of one task ----

  ghost function ReceivesOf(log: seq<Receive>, id: nat): seq<Receive> {
    if log == [] then [] else
    var n := |log| - 1;
    if log[n].id == id then ReceivesOf(log[..n], id) + [log[n]] else ReceivesOf(log[..n], id)
  }

  lemma {:induction false} ReceivesOfAppend(log: seq<Receive>, r: Receive, id: nat)
    ensures ReceivesOf(log + [r], id) == if r.id == id then ReceivesOf(log, id) + [r] else ReceivesOf(log, id)
  {
  }

  /** Sum of the stored receive counts. */
  ghost function TotalReceives(rows: seq<Task>): nat {
    if rows == [] then 0 else TotalReceives(rows[..|rows| - 1]) + rows[|rows| - 1].receiveCount
  }

  lemma TotalAfterUpdate(rows: seq<Task>, i: nat, t: Task)
    requires i < |rows|
    ensures TotalReceives(rows[i := t]) == TotalReceives(rows) - rows[i].receiveCount + t.receiveCount
  {
    var n := |rows| - 1;
    if i == n {
      assert rows[i := t][..n] == rows[..n];
    } else {
      assert rows[i := t][..n] == rows[..n][i := t];
      TotalAfterUpdate(rows[..n], i, t);
    }
  }

  lemma {:induction false} TotalAtMost(rows: seq<Task>, cap: nat)
    requires forall i :: 0 <= i < |rows| ==> rows[i].receiveCount <= cap
    ensures TotalReceives(rows) <= cap * |rows|
  {
    if rows != [] {
      TotalAtMost(rows[..|rows| - 1], cap);
    }
  }

  // ---- the invariant ----

  ghost predicate Numbered(s: State) {
    && (forall i :: 0 <= i < |s.rows| ==> s.rows[i].id == i && s.rows[i].createdAt <= s.clock)
    && (forall i, j :: 0 <= i < j < |s.rows| ==> s.rows[i].createdAt <= s.rows[j].createdAt)
  }

  /** Lease safety: no task is in two hands, and every copy in a worker's hands is the stored row. */
  ghost predicate HoldsAgree(s: State) {
    && (forall w :: w in s.holds ==> s.holds[w].id < |s.rows| && s.rows[s.holds[w].id] == s.holds[w])
    && (forall w :: w in s.holds ==> !s.holds[w].deleted)
    && (forall v, w :: v in s.holds && w in s.holds && s.holds[v].id == s.holds[w].id ==> v == w)
  }

  /** The stored receive count is the number of deliveries, and at most six. */
  ghost predicate Accounted(s: State) {
    && (forall i :: 0 <= i < |s.rows| ==>
          s.rows[i].receiveCount == |ReceivesOf(s.log, i)| && s.rows[i].receiveCount <= MAX_RECEIVES + 1)
    && (forall i :: i >= |s.rows| ==> ReceivesOf(s.log, i) == [])
    && |s.log| == TotalReceives(s.rows)
  }

  /** Consecutive receives of a task are apart by more than the backoff of the earlier one. */
  ghost predicate SpacedOut(rs: seq<Receive>) {
    forall k :: 1 <= k < |rs| ==> rs[k].askedAt > rs[k - 1].leasedAt + BACKOFF_INTERVAL * Pow2(k)
  }

  /** A received task stays hidden for its backoff at least, counted from its last lease. */
  ghost predicate TaskSpaced(t: Task, rs: seq<Receive>, clock: int) {
    && SpacedOut(rs)
    && (forall k :: 0 <= k < |rs| ==> rs[k].askedAt <= rs[k].leasedAt <= clock)
    && (rs != [] ==> t.visibleAfter >= rs[|rs| - 1].leasedAt + BACKOFF_INTERVAL * Pow2(|rs|))
  }

  ghost predicate Spaced(s: State) {
    forall i :: 0 <= i < |s.rows| ==> TaskSpaced(s.rows[i], ReceivesOf(s.log, i), s.clock)
  }

  ghost predicate Inv(s: State) {
    Numbered(s) && HoldsAgree(s) && Accounted(s) && Spaced(s)
  }

  lemma {:induction false} Pow2Grows(m: nat, n: nat)
    requires m <= n
    ensures Pow2(m) <= Pow2(n)
  {
    if m < n {
      Pow2Grows(m, n - 1);
    }
  }

  /** Under the receive cap a backoff is the power of two it is meant to be, at most 640 seconds. */
  lemma {:induction false} BackoffBound(receives: nat)
    requires receives <= MAX_RECEIVES + 1
    ensures BackoffDelay(receives) == BACKOFF_INTERVAL * Pow2(receives)
    ensures BackoffDelay(receives) <= 640 * SECOND < VISIBILITY_TIMEOUT
  {
    assert Pow2(3) == 8;
    assert Pow2(6) == 64;
    Pow2Grows(receives, 6);
  }

  lemma StepKeepsNumbered(s: State, e: Event)
    requires Numbered(s) && HoldsAgree(s) && Enabled(s, e)
    ensures Numbered(Apply(s, e))
  {
    var s' := Apply(s, e);
    forall i: nat | i < |s'.rows|
      ensures if i < |s.rows| then s'.rows[i].id == s.rows[i].id && s'.rows[i].createdAt == s.rows[i].createdAt
              else i == |s.rows| && s'.rows[i].id == i && s.clock <= s'.rows[i].createdAt == s'.clock
    {
    }
  }

  lemma StepKeepsHolds(s: State, e: Event)
    requires Numbered(s) && HoldsAgree(s) && Enabled(s, e) && PopsUnheld(s, e)
    ensures HoldsAgree(Apply(s, e))
  {
  }

  lemma StepKeepsTotal(s: State, e: Event)
    requires Numbered(s) && HoldsAgree(s) && |s.log| == TotalReceives(s.rows)
    requires Enabled(s, e) && PopsUnheld(s, e)
    ensures |Apply(s, e).log| == TotalReceives(Apply(s, e).rows)
  {
    var s' := Apply(s, e);
    match e
    case Push(_, _, _, _) =>
      assert s'.rows[..|s.rows|] == s.rows;
    case Pop(_, queue, askedAt, _) =>
      var i := FirstEligible(s.rows, queue, askedAt).value;
      TotalAfterUpdate(s.rows, i, s'.rows[i]);
    case Complete(w) =>
      TotalAfterUpdate(s.rows, s.holds[w].id, s'.rows[s.holds[w].id]);
    case Return(w, _) =>
      TotalAfterUpdate(s.rows, s.holds[w].id, s'.rows[s.holds[w].id]);
    case _ =>
  }

  lemma StepKeepsAccounts(s: State, e: Event)
    requires Numbered(s) && HoldsAgree(s) && Accounted(s) && Enabled(s, e) && PopsUnheld(s, e)
    ensures Accounted(Apply(s, e))
  {
    StepKeepsTotal(s, e);
    if e.Pop? {
      var r := Receive(FirstEligible(s.rows, e.poppedQueue, e.askedAt).value, e.askedAt, e.leasedAt);
      forall j: nat
        ensures ReceivesOf(s.log + [r], j) == if j == r.id then ReceivesOf(s.log, j) + [r] else ReceivesOf(s.log, j)
      {
        ReceivesOfAppend(s.log, r, j);
      }
    }
  }

  lemma PopKeepsSpacing(t: Task, rs: seq<Receive>, clock: int, r: Receive)
    requires TaskSpaced(t, rs, clock) && t.receiveCount == |rs| <= MAX_RECEIVES
    requires t.visibleAfter < r.askedAt <= r.leasedAt && clock <= r.askedAt
    ensures TaskSpaced(Leased(t, r.leasedAt), rs + [r], r.leasedAt)
  {
    BackoffBound(|rs| + 1);
  }

  lemma ReturnKeepsSpacing(t: Task, rs: seq<Receive>, clock: int, now: int)
    requires TaskSpaced(t, rs, clock) && t.receiveCount == |rs| <= MAX_RECEIVES + 1 && clock <= now
    ensures TaskSpaced(BackedOff(t, now), rs, now)
  {
    BackoffBound(|rs|);
  }

  lemma TimeKeepsSpacing(t: Task, t': Task, rs: seq<Receive>, clock: int, later: int)
    requires TaskSpaced(t, rs, clock) && t'.visibleAfter == t.visibleAfter && clock <= later
    ensures TaskSpaced(t', rs, later)
  {
  }

  lemma {:induction false} StepKeepsSpacing(s: State, e: Event, i: nat)
    requires HoldsAgree(s) && Enabled(s, e) && i < |Apply(s, e).rows|
    requires var rs := ReceivesOf(s.log, i);
             if i < |s.rows| then TaskSpaced(s.rows[i], rs, s.clock) && s.rows[i].receiveCount == |rs| <= 6 else rs == []
    ensures var s' := Apply(s, e); TaskSpaced(s'.rows[i], ReceivesOf(s'.log, i), s'.clock)
  {
    var s', rs := Apply(s, e), ReceivesOf(s.log, i);
    if i < |s.rows| {
      if e.Pop? {
        var r := Receive(FirstEligible(s.rows, e.poppedQueue, e.askedAt).value, e.askedAt, e.leasedAt);
        ReceivesOfAppend(s.log, r, i);
        if i == r.id {
          PopKeepsSpacing(s.rows[i], rs, s.clock, r);
        } else {
          TimeKeepsSpacing(s.rows[i], s'.rows[i], rs, s.clock, s'.clock);
        }
      } else if e.Return? && i == s.holds[e.worker].id {
        ReturnKeepsSpacing(s.rows[i], rs, s.clock, e.now);
      } else {
        TimeKeepsSpacing(s.rows[i], s'.rows[i], rs, s.clock, s'.clock);
      }
    }
  }

  lemma StepKeepsInv(s: State, e: Event)
    requires Inv(s) && Enabled(s, e) && PopsUnheld(s, e)
    ensures Inv(Apply(s, e))
  {
    StepKeepsNumbered(s, e);
    StepKeepsHolds(s, e);
    StepKeepsAccounts(s, e);
    forall i: nat | i < |Apply(s, e).rows|
      ensures TaskSpaced(Apply(s, e).rows[i], ReceivesOf(Apply(s, e).log, i), Apply(s, e).clock)
    {
      StepKeepsSpacing(s, e, i);
    }
  }

  /** With one worker per queue a popped task is unheld. */
  lemma OneWorkerPopsUnheld(s: State, e: Event)
    requires HoldsAgree(s) && Enabled(s, e) && OneWorker(s, e)
    ensures PopsUnheld(s, e)
  {
  }

  /** So it is when no hold outlasts its lease: a leased row is not eligible before the lease ends. */
  lemma LeaseKeepingPopsUnheld(s: State, e: Event)
    requires HoldsAgree(s) && Enabled(s, e) && KeepsLeases(s, e)
    ensures PopsUnheld(s, e)
  {
    if e.Pop? {
      var i := FirstEligible(s.rows, e.poppedQueue, e.askedAt).value;
      forall w | w in s.holds
        ensures s.holds[w].id != i
      {
        assert w in Apply(s, e).holds && Apply(s, e).holds[w] == s.holds[w];
      }
    }
  }

  /** The two regimes: one worker per queue, or any number of workers that keep their leases. */
  ghost predicate Orderly(s: State, es: seq<Event>)
    requires CanRun(s, es)
  {
    Along(s, es, OneWorker) || Along(s, es, KeepsLeases)
  }

  /** Workers that act within half an hour of their pops keep their leases: a step keeps them if it
      comes no later than the end of every lease held, and a pop's own lease is a new one. */
  lemma InTimeKeepsLeases(s: State, e: Event)
    requires Enabled(s, e)
    requires forall w :: w in s.holds ==> s.holds[w].visibleAfter >= Apply(s, e).clock
    ensures KeepsLeases(s, e)
    ensures e.Pop? ==> Apply(s, e).holds[e.worker].visibleAfter == e.leasedAt + 1800 * SECOND
  {
  }

  /** In both of them the first step keeps the invariant, and the rest is orderly again. */
  lemma {:induction false} OrderlyStep(s: State, es: seq<Event>)
    requires Inv(s) && CanRun(s, es) && es != [] && Orderly(s, es)
    ensures PopsUnheld(s, es[0]) && Inv(Apply(s, es[0])) && Orderly(Apply(s, es[0]), es[1..])
  {
    if Along(s, es, OneWorker) {
      OneWorkerPopsUnheld(s, es[0]);
    } else {
      LeaseKeepingPopsUnheld(s, es[0]);
    }
    StepKeepsInv(s, es[0]);
  }

  lemma {:induction false} RunKeepsInv(s: State, es: seq<Event>)
    requires Inv(s) && CanRun(s, es) && Orderly(s, es)
    ensures Inv(Run(s, es))
    decreases |es|
  {
    if es != [] {
      OrderlyStep(s, es);
      RunKeepsInv(Apply(s, es[0]), es[1..]);
    }
  }

  // ---- lease safety ----

  /** For any number of workers: while no hold outlasts its lease, no task is in two hands and
      every copy agrees with its row. */
  lemma {:induction false} LeaseSafety(clock: int, es: seq<Event>)
    requires CanRun(EmptyAt(clock), es) && Along(EmptyAt(clock), es, KeepsLeases)
    ensures HoldsAgree(Run(EmptyAt(clock), es))
  {
    RunKeepsInv(EmptyAt(clock), es);
  }

  /** So the whole-row save of a return changes visible_after alone: no count is lost and nothing
      is undeleted. */
  lemma ReturnLosesNothing(s: State, w: nat, now: int)
    requires HoldsAgree(s) && Enabled(s, Return(w, now))
    ensures var i := s.holds[w].id;
            Apply(s, Return(w, now)).rows ==
              s.rows[i := s.rows[i].(visibleAfter := now + BackoffDelay(s.rows[i].receiveCount))]
  {
  }

  /** A pop puts a task in two hands exactly when it picks a held one, which only a hold whose
      lease has run out allows. */
  lemma DoubleHoldExactly(s: State, e: Event)
    requires Numbered(s) && HoldsAgree(s) && Enabled(s, e) && e.Pop?
    ensures HoldsAgree(Apply(s, e)) <==> PopsUnheld(s, e)
    ensures !PopsUnheld(s, e) ==> exists w :: w in s.holds && s.holds[w].visibleAfter < e.askedAt
  {
    if PopsUnheld(s, e) {
      StepKeepsHolds(s, e);
    } else {
      var w :| w in s.holds && s.holds[w].id == FirstEligible(s.rows, e.poppedQueue, e.askedAt).value;
      assert w in Apply(s, e).holds && e.worker in Apply(s, e).holds;
    }
  }

  /** The row and the copies after a worker has popped the one task at 1, and another at `late`. */
  ghost function HeldTask(receives: nat, at: int): Task {
    Task(0, "q", 0, at + VISIBILITY_TIMEOUT, receives, OtherJson, false)
  }

  ghost function OneHold(): State {
    State([HeldTask(1, 1)], map[1 := HeldTask(1, 1)], 1, [Receive(0, 1, 1)])
  }

  ghost function TwoHolds(late: int): State {
    State([HeldTask(2, late)], map[1 := HeldTask(1, 1), 2 := HeldTask(2, late)], late,
          [Receive(0, 1, 1), Receive(0, late, late)])
  }

  lemma FirstHold()
    ensures var s := Apply(EmptyAt(0), Push("q", OtherJson, 0, 0));
            Enabled(s, Pop(1, "q", 1, 1)) && Apply(s, Pop(1, "q", 1, 1)) == OneHold()
  {
    var s := Apply(EmptyAt(0), Push("q", OtherJson, 0, 0));
    assert s.rows == [NewTask(0, "q", OtherJson, 0, 0)];
    assert Eligible(s.rows[0], "q", 1);
  }

  lemma SecondHold(late: int)
    requires late > 1 + VISIBILITY_TIMEOUT
    ensures Enabled(OneHold(), Pop(2, "q", late, late)) && Apply(OneHold(), Pop(2, "q", late, late)) == TwoHolds(late)
  {
    assert Eligible(OneHold().rows[0], "q", late);
  }

  /** Why the hypothesis is needed: two workers, one hold longer than the lease. The task is in two
      hands, and the late return writes the older receive count over the newer one. */
  lemma LateReturnLosesAReceive() returns (es: seq<Event>, last: Event)
    ensures CanRun(EmptyAt(0), es)
    ensures var s := Run(EmptyAt(0), es);
            && !HoldsAgree(s)
            && last.Return? && Enabled(s, last)
            && s.rows[0].receiveCount == 2
            && Apply(s, last).rows[0].receiveCount == 1
  {
    var late := 2 + VISIBILITY_TIMEOUT;
    var push, first, second := Push("q", OtherJson, 0, 0), Pop(1, "q", 1, 1), Pop(2, "q", late, late);
    FirstHold();
    SecondHold(late);
    var s := TwoHolds(late);
    assert CanRun(s, []) && Run(s, []) == s;
    RunCons(OneHold(), second, []);
    RunCons(Apply(EmptyAt(0), push), first, [second] + []);
    RunCons(EmptyAt(0), push, [first] + ([second] + []));
    assert 1 in s.holds && 2 in s.holds;
    es, last := [push] + ([first] + ([second] + [])), Return(1, late);
  }

  // ---- accounting and termination ----

  ghost function CountPops(es: seq<Event>, queue: string): nat {
    if es == [] then 0 else
    (if es[0].Pop? && es[0].poppedQueue == queue then 1 else 0) + CountPops(es[1..], queue)
  }

  ghost predicate IsPush(e: Event) { e.Push? }

  ghost predicate IsPop(e: Event) { e.Pop? }

  ghost predicate IsComplete(e: Event) { e.Complete? }

  ghost function CountEvents(es: seq<Event>, kind: Event -> bool): nat {
    if es == [] then 0 else (if kind(es[0]) then 1 else 0) + CountEvents(es[1..], kind)
  }

  /** What has become of a pushed task. */
  datatype Disposition = Live | Exhausted | Completed

  ghost function DispositionOf(t: Task): Disposition {
    if t.deleted then Completed else if t.receiveCount <= MAX_RECEIVES then Live else Exhausted
  }

  ghost function CountOf(rows: seq<Task>, d: Disposition): nat {
    if rows == [] then 0 else
    CountOf(rows[..|rows| - 1], d) + (if DispositionOf(rows[|rows| - 1]) == d then 1 else 0)
  }

  lemma CountAfterUpdate(rows: seq<Task>, i: nat, t: Task, d: Disposition)
    requires i < |rows|
    ensures CountOf(rows[i := t], d) ==
            CountOf(rows, d) - (if DispositionOf(rows[i]) == d then 1 else 0) + (if DispositionOf(t) == d then 1 else 0)
  {
    var n := |rows| - 1;
    if i == n {
      assert rows[i := t][..n] == rows[..n];
    } else {
      assert rows[i := t][..n] == rows[..n][i := t];
      CountAfterUpdate(rows[..n], i, t, d);
    }
  }

  lemma {:induction false} DispositionsPartition(rows: seq<Task>)
    ensures CountOf(rows, Live) + CountOf(rows, Exhausted) + CountOf(rows, Completed) == |rows|
  {
    if rows != [] {
      DispositionsPartition(rows[..|rows| - 1]);
    }
  }

  lemma StepCounts(s: State, e: Event)
    requires Numbered(s) && HoldsAgree(s) && Enabled(s, e) && PopsUnheld(s, e)
    ensures var s' := Apply(s, e);
            && |s'.rows| == |s.rows| + (if IsPush(e) then 1 else 0)
            && |s'.log| == |s.log| + (if IsPop(e) then 1 else 0)
            && CountOf(s'.rows, Completed) == CountOf(s.rows, Completed) + (if IsComplete(e) then 1 else 0)
  {
    var s' := Apply(s, e);
    match e
    case Push(_, _, _, _) =>
      assert s'.rows[..|s.rows|] == s.rows;
    case Pop(_, queue, askedAt, _) =>
      var i := FirstEligible(s.rows, queue, askedAt).value;
      CountAfterUpdate(s.rows, i, s'.rows[i], Completed);
    case Complete(w) =>
      CountAfterUpdate(s.rows, s.holds[w].id, s'.rows[s.holds[w].id], Completed);
    case Return(w, _) =>
      CountAfterUpdate(s.rows, s.holds[w].id, s'.rows[s.holds[w].id], Completed);
    case _ =>
  }

  lemma {:induction false} RunCounts(s: State, es: seq<Event>)
    requires Inv(s) && CanRun(s, es) && Orderly(s, es)
    ensures var s' := Run(s, es);
            && |s'.rows| == |s.rows| + CountEvents(es, IsPush)
            && |s'.log| == |s.log| + CountEvents(es, IsPop)
            && CountOf(s'.rows, Completed) == CountOf(s.rows, Completed) + CountEvents(es, IsComplete)
    decreases |es|
  {
    if es != [] {
      OrderlyStep(s, es);
      StepCounts(s, es[0]);
      RunCounts(Apply(s, es[0]), es[1..]);
    }
  }

  /** With one worker per queue, or any number of workers that keep their leases: a stored receive
      count is the number of times the task was popped, one try and five retries at most; every push
      is still accounted for as live, exhausted or completed; and the pops of a run are at most six
      times its pushes. */
  lemma {:induction false} ReceiveAccounting(clock: int, es: seq<Event>)
    requires CanRun(EmptyAt(clock), es) && Orderly(EmptyAt(clock), es)
    ensures var s := Run(EmptyAt(clock), es);
            && (forall i :: 0 <= i < |s.rows| ==> s.rows[i].receiveCount == |ReceivesOf(s.log, i)| <= 6)
            && CountEvents(es, IsPush) == CountOf(s.rows, Live) + CountOf(s.rows, Exhausted) + CountOf(s.rows, Completed)
            && CountEvents(es, IsComplete) == CountOf(s.rows, Completed)
            && CountEvents(es, IsPop) == |s.log|
            && CountEvents(es, IsPop) <= 6 * CountEvents(es, IsPush)
  {
    var s := Run(EmptyAt(clock), es);
    assert Inv(s) by {
      RunKeepsInv(EmptyAt(clock), es);
    }
    assert |s.rows| == CountEvents(es, IsPush) && |s.log| == CountEvents(es, IsPop)
           && CountOf(s.rows, Completed) == CountEvents(es, IsComplete) by {
      RunCounts(EmptyAt(clock), es);
    }
    assert CountOf(s.rows, Live) + CountOf(s.rows, Exhausted) + CountOf(s.rows, Completed) == |s.rows| by {
      DispositionsPartition(s.rows);
    }
    assert TotalReceives(s.rows) <= 6 * |s.rows| by {
      TotalAtMost(s.rows, 6);
    }
  }

  // ---- redelivery ----

  /** A pushed task is eligible from the moment after its push. */
  lemma PushedIsEligible(s: State, queue: string, data: Payload, visibleAt: int, createdAt: int, at: int)
    requires Enabled(s, Push(queue, data, visibleAt, createdAt))
    ensures var s' := Apply(s, Push(queue, data, visibleAt, createdAt));
            Eligible(s'.rows[|s.rows|], queue, at) <==> visibleAt < at
  {
  }

  /** A popped task is hidden for the thirty minutes of its lease, and for good at its sixth receive;
      the copy that the worker gets is the row. */
  lemma PoppedIsHidden(s: State, e: Event, at: int)
    requires Enabled(s, e) && e.Pop?
    ensures var s', i := Apply(s, e), FirstEligible(s.rows, e.poppedQueue, e.askedAt).value;
            && (Eligible(s'.rows[i], e.poppedQueue, at) <==>
                  s.rows[i].receiveCount <= 4 && at > e.leasedAt + 1800 * SECOND)
            && e.worker in s'.holds && s'.holds[e.worker] == s'.rows[i]
  {
  }

  /** The task a worker gives up is delivered again, unless this was its sixth receive: after a return,
      from the moment its backoff is over; after it was abandoned, from the moment its lease is over;
      after completion, never. */
  lemma RedeliveredExactly(s: State, w: nat, now: int, at: int)
    requires HoldsAgree(s) && Accounted(s) && w in s.holds && s.clock <= now
    ensures var h := s.holds[w];
            && Enabled(s, Return(w, now)) && Enabled(s, Drop(w)) && Enabled(s, Complete(w))
            && (Eligible(Apply(s, Return(w, now)).rows[h.id], h.queue, at) <==>
                  h.receiveCount <= 5 && at > now + BACKOFF_INTERVAL * Pow2(h.receiveCount))
            && (Eligible(Apply(s, Drop(w)).rows[h.id], h.queue, at) <==> h.receiveCount <= 5 && at > h.visibleAfter)
            && !Eligible(Apply(s, Complete(w)).rows[h.id], h.queue, at)
  {
    BackoffBound(s.holds[w].receiveCount);
  }

  /** A deleted task stays deleted and is delivered no more. */
  lemma {:induction false} DeletedStays(s: State, es: seq<Event>, i: nat)
    requires Inv(s) && CanRun(s, es) && Orderly(s, es) && i < |s.rows| && s.rows[i].deleted
    ensures i < |Run(s, es).rows| && Run(s, es).rows[i].deleted
    ensures ReceivesOf(Run(s, es).log, i) == ReceivesOf(s.log, i)
    decreases |es|
  {
    if es != [] {
      var s' := Apply(s, es[0]);
      OrderlyStep(s, es);
      if es[0].Pop? {
        ReceivesOfAppend(s.log, s'.log[|s.log|], i);
      }
      DeletedStays(s', es[1..], i);
    }
  }

  // ---- backoff spacing ----

  /** The n-th receive comes more than 10 * (2^n - 2) seconds after the first. */
  lemma {:induction false} SpacingAdds(rs: seq<Receive>, n: nat)
    requires SpacedOut(rs) && forall k :: 0 <= k < |rs| ==> rs[k].askedAt <= rs[k].leasedAt
    requires 2 <= n <= |rs|
    ensures rs[n - 1].askedAt > rs[0].leasedAt + BACKOFF_INTERVAL * (Pow2(n) - 2)
  {
    if n == 2 {
      assert Pow2(1) == 2 && Pow2(2) == 4;
    } else {
      SpacingAdds(rs, n - 1);
    }
  }

  /** Whether a task was returned or abandoned, its receives are spaced by its backoff, for one
      worker per queue and for any number of workers that keep their leases. */
  lemma BackoffSpacing(clock: int, es: seq<Event>, id: nat, k: nat)
    requires CanRun(EmptyAt(clock), es) && Orderly(EmptyAt(clock), es)
    ensures var rs := ReceivesOf(Run(EmptyAt(clock), es).log, id);
            && |rs| <= 6
            && (1 <= k < |rs| ==> rs[k].askedAt > rs[k - 1].leasedAt + BACKOFF_INTERVAL * Pow2(k))
            && (2 <= k <= |rs| ==> rs[k - 1].askedAt > rs[0].leasedAt + BACKOFF_INTERVAL * (Pow2(k) - 2))
  {
    RunKeepsInv(EmptyAt(clock), es);
    var s := Run(EmptyAt(clock), es);
    var rs := ReceivesOf(s.log, id);
    if id < |s.rows| {
      assert TaskSpaced(s.rows[id], rs, s.clock);
      if 2 <= k <= |rs| {
        SpacingAdds(rs, k);
      }
    }
  }

  lemma Pow2Of29()
    ensures Pow2(29) == 0x2000_0000 && Pow2(30) == 0x4000_0000
  {
    assert Pow2(8) == 256;
    assert Pow2(16) == 65536;
    assert Pow2(24) == 0x100_0000;
  }

  lemma ScaledWrap(p: nat)
    ensures WrapInt64(BACKOFF_INTERVAL * p) == BACKOFF_INTERVAL * p <==> p <= 922_337_203
  {
  }

  /** The backoff arithmetic is exact up to 29 receives and wrong beyond; the cap stops it at six. */
  lemma {:induction false} BackoffExactUpTo29(receives: nat)
    ensures BackoffDelay(receives) == 10 * SECOND * Pow2(receives) <==> receives <= 29
  {
    Pow2Of29();
    if receives <= 29 {
      Pow2Grows(receives, 29);
    } else {
      Pow2Grows(30, receives);
    }
    if receives < 63 {
      ScaledWrap(Pow2(receives));
    } else {
      var r := WrapInt64(BACKOFF_INTERVAL * MIN_INT64);
      assert r <= MAX_INT64;
    }
  }

  // ---- bounded bypass ----

  /** Between its receives and eligible: neither hidden nor in a worker's hands. */
  ghost predicate Waiting(s: State, t: nat) {
    && t < |s.rows|
    && Eligible(s.rows[t], s.rows[t].queue, s.clock)
    && forall w :: w in s.holds ==> s.holds[w].id != t
  }

  /** How often row i can still be popped ahead of row t. */
  ghost function CanOvertake(rows: seq<Task>, t: nat, i: nat): nat
    requires t < |rows| && i < |rows|
  {
    if !rows[i].deleted && rows[i].queue == rows[t].queue && Before(rows, i, t) && rows[i].receiveCount <= 6
    then 6 - rows[i].receiveCount
    else 0
  }

  /** The sum of (6 - receive count) over the older live tasks of t's queue, among the first n rows. */
  ghost function AheadAmong(rows: seq<Task>, t: nat, n: nat): nat
    requires t < |rows| && n <= |rows|
  {
    if n == 0 then 0 else AheadAmong(rows, t, n - 1) + CanOvertake(rows, t, n - 1)
  }

  ghost function Ahead(rows: seq<Task>, t: nat): nat
    requires t < |rows|
  {
    AheadAmong(rows, t, |rows|)
  }

  lemma {:induction false} AheadShrinks(rows: seq<Task>, rows': seq<Task>, t: nat, n: nat, popped: int)
    requires t < |rows| <= |rows'| && n <= |rows|
    requires forall i: nat :: i < n ==>
               CanOvertake(rows', t, i) + (if i == popped then 1 else 0) <= CanOvertake(rows, t, i)
    ensures AheadAmong(rows', t, n) + (if 0 <= popped < n then 1 else 0) <= AheadAmong(rows, t, n)
  {
    if n > 0 {
      AheadShrinks(rows, rows', t, n - 1, popped);
    }
  }

  lemma StepOvertake(s: State, e: Event, t: nat, i: nat)
    requires Numbered(s) && HoldsAgree(s) && Enabled(s, e) && Waiting(s, t) && i < |s.rows|
    requires e.Pop? ==> FirstEligible(s.rows, e.poppedQueue, e.askedAt).value != t
    ensures var s' := Apply(s, e);
            && |s.rows| <= |s'.rows|
            && s'.rows[t] == s.rows[t]
            && CanOvertake(s'.rows, t, i) <= CanOvertake(s.rows, t, i)
            && (e.Pop? && e.poppedQueue == s.rows[t].queue && FirstEligible(s.rows, e.poppedQueue, e.askedAt).value == i
                ==> CanOvertake(s'.rows, t, i) + 1 <= CanOvertake(s.rows, t, i))
  {
  }

  lemma StepKeepsWaiting(s: State, e: Event, t: nat)
    requires Numbered(s) && HoldsAgree(s) && Enabled(s, e) && Waiting(s, t)
    requires e.Pop? ==> FirstEligible(s.rows, e.poppedQueue, e.askedAt).value != t
    ensures Waiting(Apply(s, e), t)
  {
  }

  /** A step that does not pop t pays one unit for each pop of its queue. */
  lemma StepBypass(s: State, e: Event, t: nat)
    requires Numbered(s) && HoldsAgree(s) && Enabled(s, e) && Waiting(s, t)
    requires e.Pop? ==> FirstEligible(s.rows, e.poppedQueue, e.askedAt).value != t
    ensures var s' := Apply(s, e);
            && |s.rows| <= |s'.rows|
            && s'.rows[t] == s.rows[t]
            && Ahead(s'.rows, t) + (if e.Pop? && e.poppedQueue == s.rows[t].queue then 1 else 0) <= Ahead(s.rows, t)
  {
    var s' := Apply(s, e);
    var popped := if e.Pop? && e.poppedQueue == s.rows[t].queue
                  then FirstEligible(s.rows, e.poppedQueue, e.askedAt).value
                  else -1;
    forall i: nat | i < |s.rows|
      ensures CanOvertake(s'.rows, t, i) + (if i == popped then 1 else 0) <= CanOvertake(s.rows, t, i)
    {
      StepOvertake(s, e, t, i);
    }
    StepOvertake(s, e, t, t);
    AheadShrinks(s.rows, s'.rows, t, |s.rows|, popped);
    if e.Push? {
      assert CanOvertake(s'.rows, t, |s.rows|) == 0;
    }
  }

  lemma {:induction false} ReceivesArePrefix(s: State, es: seq<Event>, t: nat)
    requires CanRun(s, es)
    ensures ReceivesOf(s.log, t) <= ReceivesOf(Run(s, es).log, t)
    decreases |es|
  {
    if es != [] {
      if es[0].Pop? {
        ReceivesOfAppend(s.log, Apply(s, es[0]).log[|s.log|], t);
      }
      ReceivesArePrefix(Apply(s, es[0]), es[1..], t);
    }
  }

  lemma {:induction false} BypassBudget(s: State, es: seq<Event>, t: nat)
    requires Inv(s) && CanRun(s, es) && Along(s, es, OneWorker) && Waiting(s, t)
    requires ReceivesOf(Run(s, es).log, t) == ReceivesOf(s.log, t)
    ensures CountPops(es, s.rows[t].queue) <= Ahead(s.rows, t)
    decreases |es|
  {
    if es != [] {
      var e, s' := es[0], Apply(s, es[0]);
      NotPoppedYet(s, es, t);
      StepBypass(s, e, t);
      StepKeepsWaiting(s, e, t);
      OneWorkerPopsUnheld(s, e);
      StepKeepsInv(s, e);
      BypassBudget(s', es[1..], t);
    }
  }

  /** A run that adds no receive of t does not begin with a pop of t. */
  lemma {:induction false} NotPoppedYet(s: State, es: seq<Event>, t: nat)
    requires CanRun(s, es) && es != [] && ReceivesOf(Run(s, es).log, t) == ReceivesOf(s.log, t)
    ensures es[0].Pop? ==> FirstEligible(s.rows, es[0].poppedQueue, es[0].askedAt).value != t
    ensures ReceivesOf(Apply(s, es[0]).log, t) == ReceivesOf(s.log, t)
  {
    if es[0].Pop? {
      var s' := Apply(s, es[0]);
      ReceivesOfAppend(s.log, s'.log[|s.log|], t);
      ReceivesArePrefix(s', es[1..], t);
    }
  }

  /** With one worker per queue: once a task waits eligible, it is popped before its queue has been
      popped more often than the sum of (6 - receive count) over the older live tasks of that queue,
      whatever is pushed meanwhile and however handlers end. */
  lemma {:induction false} BoundedBypass(clock: int, before: seq<Event>, es: seq<Event>, t: nat)
    requires CanRun(EmptyAt(clock), before) && Along(EmptyAt(clock), before, OneWorker)
    requires var s := Run(EmptyAt(clock), before);
             CanRun(s, es) && Along(s, es, OneWorker) && Waiting(s, t)
    ensures var s := Run(EmptyAt(clock), before);
            CountPops(es, s.rows[t].queue) > Ahead(s.rows, t) ==>
              |ReceivesOf(Run(s, es).log, t)| > |ReceivesOf(s.log, t)|
  {
    var s := Run(EmptyAt(clock), before);
    RunKeepsInv(EmptyAt(clock), before);
    ReceivesArePrefix(s, es, t);
    if |ReceivesOf(Run(s, es).log, t)| == |ReceivesOf(s.log, t)| {
      BypassBudget(s, es, t);
    }
  }
}
