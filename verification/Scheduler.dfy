/** The interval scheduler of pkg/framework/scheduler.go, over restarts and failed transactions. */
module Scheduler {
  import opened Clock
  import opened Queue

  /** A time.Duration. */
  type Duration = d: int | MIN_INT64 <= d <= MAX_INT64

  datatype Definition = Definition(taskName: string, interval: Duration)

  /** The four clock readings of processing a task: the age test, the two of the push, the update. */
  datatype Tick = Tick(agedAt: int, visibleAt: int, createdAt: int, ranAt: int)

  /** Enough time has passed since the task last ran. */
  predicate Due(lastRun: int, interval: Duration, now: int) {
    Since(now, lastRun) >= interval
  }

  /** Validation of a state row. */
  predicate ValidName(name: string) {
    1 <= |name| <= 100
  }

  class TaskScheduler {
    const queue: QueueTable
    const tasks: seq<Definition>
    var lastRuns: map<string, int>  // the scheduled_task_states table, which outlives the process

    constructor (queue: QueueTable, tasks: seq<Definition>, lastRuns: map<string, int>)
      ensures this.queue == queue && this.tasks == tasks && this.lastRuns == lastRuns
    {
      this.queue := queue;
      this.tasks := tasks;
      this.lastRuns := lastRuns;
    }

    /** Where setup stops: the lookup of the row fails, or there is none and it cannot be added. */
    ghost predicate FailsAt(finds: seq<bool>, commits: seq<bool>, k: nat)
      requires k < |finds| == |commits| == |tasks|
      reads this`lastRuns
    {
      !finds[k] || (tasks[k].taskName !in lastRuns && !(commits[k] && 1 <= |tasks[k].taskName| <= 100))
    }

    /** Adds the missing rows, as never run, until a lookup fails or a row cannot be added. Existing
        rows are not reset. */
    method SetupState(finds: seq<bool>, commits: seq<bool>) returns (ok: bool)
      requires |finds| == |commits| == |tasks|
      modifies this`lastRuns
      ensures forall n :: n in old(lastRuns) ==> n in lastRuns && lastRuns[n] == old(lastRuns)[n]
      ensures forall n :: n in lastRuns && n !in old(lastRuns) ==> lastRuns[n] == ZERO_TIME
      ensures forall n :: n in lastRuns && n !in old(lastRuns) ==> exists k :: 0 <= k < |tasks| && tasks[k].taskName == n
      ensures ok ==> forall k :: 0 <= k < |tasks| ==> finds[k] && tasks[k].taskName in lastRuns
      ensures !ok ==> exists k :: 0 <= k < |tasks| && FailsAt(finds, commits, k)
                                  && forall j :: 0 <= j < k ==> finds[j] && tasks[j].taskName in lastRuns
    {
      for k := 0 to |tasks|
        invariant forall n :: n in old(lastRuns) ==> n in lastRuns && lastRuns[n] == old(lastRuns)[n]
        invariant forall n :: n in lastRuns && n !in old(lastRuns) ==> lastRuns[n] == ZERO_TIME
        invariant forall n :: n in lastRuns && n !in old(lastRuns) ==> exists j :: 0 <= j < k && tasks[j].taskName == n
        invariant forall j :: 0 <= j < k ==> finds[j] && tasks[j].taskName in lastRuns
      {
        var name := tasks[k].taskName;
        if !finds[k] {
          assert FailsAt(finds, commits, k);
          return false;
        }
        if name in lastRuns {
          continue;
        }
        if !commits[k] || !ValidName(name) {
          assert FailsAt(finds, commits, k);
          return false;
        }
        lastRuns := lastRuns[name := ZERO_TIME];
      }
      return true;
    }

    /** One transaction: a due task is pushed and its last run updated, or neither. */
    method ProcessTask(td: Definition, t: Tick, commits: bool, ghost s: State) returns (pushed: bool)
      requires queue.Valid()
      requires s.lastRuns == lastRuns && s.clock <= t.agedAt <= t.visibleAt <= t.createdAt <= t.ranAt
      modifies this`lastRuns, queue
      ensures queue.Valid()
      ensures pushed <==>
                && td.taskName in old(lastRuns)
                && (t.agedAt - old(lastRuns)[td.taskName] >= td.interval || td.interval == MIN_INT64)
                && commits && 1 <= |td.taskName| <= 100
      ensures var e := Process(td, t, commits);
              && Enabled(s, e) && lastRuns == Apply(s, e).lastRuns
              && (pushed <==> Apply(s, e).log == s.log + [Pushed(td.taskName, t)])
      ensures !pushed ==> lastRuns == old(lastRuns) && queue.rows == old(queue.rows)
      ensures pushed ==>
                && lastRuns == old(lastRuns)[td.taskName := t.ranAt]
                && queue.rows == old(queue.rows)
                     + [NewTask(|old(queue.rows)|, td.taskName, Text(""), t.visibleAt, t.createdAt)]
    {
      if td.taskName !in lastRuns {
        return false;
      }
      if Since(t.agedAt, lastRuns[td.taskName]) < td.interval {
        return false;
      }
      if !commits || !ValidName(td.taskName) {
        return false;
      }
      pushed := queue.PushQueueTask(td.taskName, Text(""), t.visibleAt, t.createdAt, true);
      lastRuns := lastRuns[td.taskName := t.ranAt];
    }
  }

  // ---- runs, over any number of starts ----

  /** A push by the scheduler. */
  datatype Pushed = Pushed(taskName: string, tick: Tick)

  datatype State = State(lastRuns: map<string, int>, clock: int, log: seq<Pushed>)

  /** What happens to the state rows: setup adds one at some start, or a tick processes a task, which
      pushes it if it is due. Everything else a scheduler does changes nothing. */
  datatype Event =
    | AddRow(taskName: string)
    | Process(td: Definition, tick: Tick, commits: bool)
    | Wait(now: int)

  ghost predicate Enabled(s: State, e: Event) {
    match e
    case AddRow(name) => name !in s.lastRuns && ValidName(name)
    case Process(_, t, _) => s.clock <= t.agedAt <= t.visibleAt <= t.createdAt <= t.ranAt
    case Wait(now) => s.clock <= now
  }

  ghost predicate Pushes(s: State, td: Definition, t: Tick, commits: bool) {
    && td.taskName in s.lastRuns && Due(s.lastRuns[td.taskName], td.interval, t.agedAt)
    && commits && ValidName(td.taskName)
  }

  ghost function Apply(s: State, e: Event): State
    requires Enabled(s, e)
  {
    match e
    case AddRow(name) => s.(lastRuns := s.lastRuns[name := ZERO_TIME])
    case Process(td, t, commits) =>
      if Pushes(s, td, t, commits)
      then State(s.lastRuns[td.taskName := t.ranAt], t.ranAt, s.log + [Pushed(td.taskName, t)])
      else s.(clock := t.agedAt)
    case Wait(now) => s.(clock := now)
  }

  ghost predicate CanRun(s: State, es: seq<Event>)
    decreases |es|
  {
    es == [] || (Enabled(s, es[0]) && CanRun(Apply(s, es[0]), es[1..]))
  }

  ghost function Run(s: State, es: seq<Event>): State
    requires CanRun(s, es)
    decreases |es|
  {
    if es == [] then s else Run(Apply(s, es[0]), es[1..])
  }

  /** The ticks of a task's pushes, in order. */
  ghost function TicksOf(log: seq<Pushed>, name: string): seq<Tick> {
    if log == [] then [] else
    var n := |log| - 1;
    if log[n].taskName == name then TicksOf(log[..n], name) + [log[n].tick] else TicksOf(log[..n], name)
  }

  /** A processed task is pushed no earlier than one interval after the update of the last push. */
  ghost predicate Apart(ts: seq<Tick>, interval: int) {
    && (forall k :: 0 <= k < |ts| ==> ts[k].visibleAt <= ts[k].createdAt <= ts[k].ranAt)
    && (forall k :: 1 <= k < |ts| ==> ts[k].visibleAt >= ts[k - 1].ranAt + interval)
  }

  /** The state row remembers the last push. */
  ghost predicate Remembers(s: State, name: string) {
    var ts := TicksOf(s.log, name);
    ts != [] ==> name in s.lastRuns && s.lastRuns[name] == ts[|ts| - 1].ranAt && ts[|ts| - 1].ranAt <= s.clock
  }

  /** Every definition of the task in the run, of whatever restart, has at least this interval. */
  ghost predicate Uses(es: seq<Event>, name: string, interval: int) {
    forall k :: 0 <= k < |es| && es[k].Process? && es[k].td.taskName == name ==> es[k].td.interval >= interval
  }

  lemma {:induction false} StepSpacing(s: State, e: Event, name: string, interval: int)
    requires Enabled(s, e) && Remembers(s, name) && Apart(TicksOf(s.log, name), interval)
    requires 0 < interval && (e.Process? && e.td.taskName == name ==> interval <= e.td.interval)
    ensures Remembers(Apply(s, e), name) && Apart(TicksOf(Apply(s, e).log, name), interval)
  {
  }

  lemma {:induction false} RunSpacing(s: State, es: seq<Event>, name: string, interval: int)
    requires CanRun(s, es) && Remembers(s, name) && Apart(TicksOf(s.log, name), interval)
    requires 0 < interval && Uses(es, name, interval)
    ensures Remembers(Run(s, es), name) && Apart(TicksOf(Run(s, es).log, name), interval)
    decreases |es|
  {
    if es != [] {
      StepSpacing(s, es[0], name, interval);
      RunSpacing(Apply(s, es[0]), es[1..], name, interval);
    }
  }

  /** How many pushes became visible within [lo, hi]. */
  ghost function CountWithin(ts: seq<Tick>, lo: int, hi: int): nat {
    if ts == [] then 0 else
    var n := |ts| - 1;
    CountWithin(ts[..n], lo, hi) + (if lo <= ts[n].visibleAt <= hi then 1 else 0)
  }

  lemma LaterAreLarger(ts: seq<Tick>, interval: int, i: nat, j: nat)
    requires Apart(ts, interval) && 0 < interval && i < j < |ts|
    ensures ts[i].visibleAt + interval <= ts[j].visibleAt
  {
    if i + 1 < j {
      LaterAreLarger(ts, interval, i, j - 1);
    }
  }

  lemma {:induction false} CountUpTo(ts: seq<Tick>, lo: int, hi: int, hi': int)
    requires forall k :: 0 <= k < |ts| && ts[k].visibleAt <= hi ==> ts[k].visibleAt <= hi'
    ensures CountWithin(ts, lo, hi) <= CountWithin(ts, lo, hi')
  {
    if ts != [] {
      CountUpTo(ts[..|ts| - 1], lo, hi, hi');
    }
  }

  lemma {:induction false} WindowBound(ts: seq<Tick>, interval: int, lo: int, hi: int)
    requires Apart(ts, interval) && 0 < interval
    ensures lo <= hi ==> CountWithin(ts, lo, hi) * interval <= hi - lo + interval
    ensures lo > hi ==> CountWithin(ts, lo, hi) == 0
    decreases |ts|
  {
    if ts != [] {
      var n := |ts| - 1;
      var last := ts[n].visibleAt;
      var count := CountWithin(ts[..n], lo, hi);
      WindowBound(ts[..n], interval, lo, hi);
      if lo <= last <= hi {
        forall k | 0 <= k < n
          ensures ts[k].visibleAt <= last - interval
        {
          LaterAreLarger(ts, interval, k, n);
        }
        CountUpTo(ts[..n], lo, hi, last - interval);
        WindowBound(ts[..n], interval, lo, last - interval);
        Distribute(count, CountWithin(ts[..n], lo, last - interval), interval);
      }
    }
  }

  lemma Distribute(a: nat, b: nat, interval: int)
    requires a <= b && 0 < interval
    ensures (a + 1) * interval == a * interval + interval
    ensures a * interval <= b * interval
  {
  }

  lemma AtMostQuotient(count: nat, width: nat, interval: int)
    requires 0 < interval && count * interval <= width + interval
    ensures count <= width / interval + 1
  {
    var q := width / interval;
    assert width < (q + 1) * interval;
    if count >= q + 2 {
      Distribute(q + 2, count, interval);
      Distribute(q + 1, q + 1, interval);
    }
  }

  /** Over whole runs and restarts, from any state rows: consecutive pushes of a task are at least its
      interval apart, so a window of length W has at most W / interval + 1 of them. */
  lemma {:induction false} SchedulerSpacing(lastRuns: map<string, int>, clock: int, es: seq<Event>, name: string,
                                           interval: int, lo: int, hi: int)
    requires CanRun(State(lastRuns, clock, []), es) && Uses(es, name, interval) && 0 < interval && lo <= hi
    ensures var ts := TicksOf(Run(State(lastRuns, clock, []), es).log, name);
            && (forall k :: 1 <= k < |ts| ==> ts[k].visibleAt - ts[k - 1].createdAt >= interval)
            && CountWithin(ts, lo, hi) <= (hi - lo) / interval + 1
  {
    RunSpacing(State(lastRuns, clock, []), es, name, interval);
    var ts := TicksOf(Run(State(lastRuns, clock, []), es).log, name);
    WindowBound(ts, interval, lo, hi);
    AtMostQuotient(CountWithin(ts, lo, hi), hi - lo, interval);
  }

  /** A task that has never run is due at any time after 1970: its age saturates instead of wrapping. */
  lemma NeverRunIsDue(interval: Duration, now: int)
    requires now >= 0
    ensures Due(ZERO_TIME, interval, now) && now - ZERO_TIME > MAX_INT64
    ensures ZERO_TIME == -719_162 * 24 * HOUR
  {
  }

  /** Due is when the interval has passed, and not later; saturation makes no difference to that, but
      for the smallest of all intervals, which is always due. */
  lemma DueExactly(lastRun: int, interval: Duration, now: int)
    ensures Due(lastRun, interval, now) <==> now - lastRun >= interval || interval == MIN_INT64
  {
  }

  // ---- pushes are not late, either ----

  /** The task is processed at least this often, always with this interval, and its transactions
      commit; `last` is when its age was tested before the run. */
  ghost predicate Regular(es: seq<Event>, name: string, interval: int, every: int, last: int)
    decreases |es|
  {
    es != [] ==>
      if es[0].Process? && es[0].td.taskName == name then
        && es[0].td.interval == interval && es[0].commits && es[0].tick.agedAt - last <= every
        && Regular(es[1..], name, interval, every, es[0].tick.agedAt)
      else Regular(es[1..], name, interval, every, last)
  }

  /** When the age was tested last. */
  ghost function LastTest(es: seq<Event>, name: string, last: int): int {
    if es == [] then last else
    LastTest(es[1..], name, if es[0].Process? && es[0].td.taskName == name then es[0].tick.agedAt else last)
  }

  /** The age that leads to a push is tested within this time of the push before. */
  ghost predicate Prompt(ts: seq<Tick>, within: int) {
    forall k :: 1 <= k < |ts| ==> ts[k].agedAt - ts[k - 1].ranAt < within
  }

  /** The test that has not led to a push yet came before the interval was over. */
  ghost predicate UpToDate(s: State, name: string, interval: int, last: int) {
    TicksOf(s.log, name) != [] ==> name in s.lastRuns && last < s.lastRuns[name] + interval
  }

  lemma {:induction false} StepIsPrompt(s: State, e: Event, name: string, interval: int, every: int, last: int)
    requires Enabled(s, e) && Remembers(s, name) && ValidName(name) && 0 < interval && 0 <= every
    requires UpToDate(s, name, interval, last) && Prompt(TicksOf(s.log, name), interval + every)
    requires e.Process? && e.td.taskName == name ==>
               e.td.interval == interval && e.commits && e.tick.agedAt - last <= every
    ensures var s', last' := Apply(s, e), if e.Process? && e.td.taskName == name then e.tick.agedAt else last;
            && Remembers(s', name) && UpToDate(s', name, interval, last')
            && Prompt(TicksOf(s'.log, name), interval + every)
  {
    if e.Process? && Pushes(s, e.td, e.tick, e.commits) {
      assert Apply(s, e).log[..|s.log|] == s.log;
    }
  }

  lemma {:induction false} RunIsPrompt(s: State, es: seq<Event>, name: string, interval: int, every: int, last: int)
    requires CanRun(s, es) && Remembers(s, name) && ValidName(name) && 0 < interval && 0 <= every
    requires UpToDate(s, name, interval, last) && Prompt(TicksOf(s.log, name), interval + every)
    requires Regular(es, name, interval, every, last)
    ensures Remembers(Run(s, es), name) && UpToDate(Run(s, es), name, interval, LastTest(es, name, last))
    ensures Prompt(TicksOf(Run(s, es).log, name), interval + every)
    decreases |es|
  {
    if es != [] {
      StepIsPrompt(s, es[0], name, interval, every, last);
      var last' := if es[0].Process? && es[0].td.taskName == name then es[0].tick.agedAt else last;
      RunIsPrompt(Apply(s, es[0]), es[1..], name, interval, every, last');
    }
  }

  /** Over whole runs and restarts, while the task's ticks come at least every so often and commit: each
      push comes before its interval and that time have passed since the one before, and at any time the
      last tick was less than an interval after the last push. */
  lemma {:induction false} SchedulerIsPrompt(lastRuns: map<string, int>, clock: int, es: seq<Event>, name: string,
                                             interval: int, every: int)
    requires CanRun(State(lastRuns, clock, []), es) && ValidName(name) && 0 < interval && 0 <= every
    requires Regular(es, name, interval, every, clock)
    ensures var s := Run(State(lastRuns, clock, []), es);
            var ts := TicksOf(s.log, name);
            && (forall k :: 1 <= k < |ts| ==> ts[k].agedAt - ts[k - 1].ranAt < interval + every)
            && (ts != [] ==> LastTest(es, name, clock) - ts[|ts| - 1].ranAt < interval)
  {
    RunIsPrompt(State(lastRuns, clock, []), es, name, interval, every, clock);
  }

  /** And the first tick that commits after the interval has passed since the last run pushes, whatever
      the run has been. */
  lemma OverdueIsPushed(s: State, td: Definition, t: Tick)
    requires Enabled(s, Process(td, t, true)) && td.taskName in s.lastRuns && ValidName(td.taskName)
    requires t.agedAt - s.lastRuns[td.taskName] >= td.interval
    ensures var s' := Apply(s, Process(td, t, true));
            s'.log == s.log + [Pushed(td.taskName, t)] && s'.lastRuns[td.taskName] == t.ranAt
  {
  }

  /** A state row that is there stays, and only a push changes it. */
  lemma {:induction false} RowsStay(s: State, es: seq<Event>, name: string)
    requires CanRun(s, es) && name in s.lastRuns
    ensures name in Run(s, es).lastRuns
    ensures |TicksOf(Run(s, es).log, name)| >= |TicksOf(s.log, name)|
    ensures |TicksOf(Run(s, es).log, name)| == |TicksOf(s.log, name)| ==> Run(s, es).lastRuns[name] == s.lastRuns[name]
    decreases |es|
  {
    if es != [] {
      if es[0].Process? && Pushes(s, es[0].td, es[0].tick, es[0].commits) {
        assert Apply(s, es[0]).log[..|s.log|] == s.log;
      }
      RowsStay(Apply(s, es[0]), es[1..], name);
    }
  }
}
