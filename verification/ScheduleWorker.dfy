/**
 The schedule worker.  First any number of workers on one table: a row is
 claimed with SKIP LOCKED, its task is enqueued by a transaction of its own, and
 only then is the row advanced or rolled back.  Then the drain loop of a single
 worker.
 */
module ScheduleWorker {
  import opened Options
  import opened Runs

  type Time = int
  type ScheduleId = nat
  type WorkerId = nat

  /** An empty cron expression is a one-time schedule; `next` is None when it will not run again. */
  datatype Schedule = Schedule(cron: string, next: Option<Time>)

  type Table = map<ScheduleId, Schedule>

  predicate Due(s: Schedule, now: Time) {
    s.next.Some? && s.next.value <= now
  }

  // ---- Any number of workers.

  datatype Phase = Claimed | Enqueued | Updated(next: Option<Time>)

  datatype Claim = Claim(id: ScheduleId, phase: Phase)

  /** `tasks` counts the committed enqueues of a schedule, whatever became of the attempt. */
  datatype State = State(
    rows: Table, used: set<ScheduleId>, now: Time, claims: map<WorkerId, Claim>,
    tasks: multiset<ScheduleId>, advances: multiset<ScheduleId>, rolledBack: multiset<ScheduleId>)

  datatype Step =
    | Tick(elapsed: nat)
    | Create(id: ScheduleId, cron: string)
    | Delete(id: ScheduleId)
    | Upsert(id: ScheduleId, cron: string)
    | Take(w: WorkerId, id: ScheduleId)
    | Enqueue(w: WorkerId)
    | EnqueueFails(w: WorkerId, applied: bool)
    | Advance(w: WorkerId, next: Option<Time>)
    | Commit(w: WorkerId)
    | Rollback(w: WorkerId)

  ghost predicate Locked(s: State, id: ScheduleId) {
    exists w :: w in s.claims && s.claims[w].id == id
  }

  predicate PastEnqueue(p: Phase) {
    !p.Claimed?
  }

  ghost predicate Init(s: State) {
    s.rows == map[] && s.used == {} && s.claims == map[] && s.tasks == s.advances == s.rolledBack == multiset{}
  }

  ghost predicate Next(s: State, s': State, step: Step) {
    match step
    case Tick(elapsed) => s' == s.(now := s.now + elapsed)
    case Create(id, cron) =>
      id !in s.used && s' == s.(rows := s.rows[id := Schedule(cron, Some(s.now))], used := s.used + {id})
    case Delete(id) => !Locked(s, id) && s' == s.(rows := s.rows - {id})
    case Upsert(id, cron) =>
      // the retention upsert rewrites an existing row and always has a cron expression
      && id in s.rows && !Locked(s, id) && cron != ""
      && s' == s.(rows := s.rows[id := Schedule(cron, Some(s.now))])
    case Take(w, id) =>
      && w !in s.claims && id in s.rows && Due(s.rows[id], s.now) && !Locked(s, id)
      && (forall x :: x in s.rows && Due(s.rows[x], s.now) && !Locked(s, x) ==>
          s.rows[id].next.value <= s.rows[x].next.value)
      && s' == s.(claims := s.claims[w := Claim(id, Claimed)])
    case Enqueue(w) =>
      && w in s.claims && s.claims[w].phase == Claimed
      && s' == s.(claims := s.claims[w := s.claims[w].(phase := Enqueued)], tasks := s.tasks + multiset{s.claims[w].id})
    case EnqueueFails(w, applied) =>
      && w in s.claims && s.claims[w].phase == Claimed
      && var lost := if applied then multiset{s.claims[w].id} else multiset{};
         s' == s.(claims := s.claims - {w}, tasks := s.tasks + lost, rolledBack := s.rolledBack + lost)
    case Advance(w, next) =>
      && w in s.claims && s.claims[w].phase == Enqueued && s.claims[w].id in s.rows
      && (next.None? <==> s.rows[s.claims[w].id].cron == "")
      && s' == s.(claims := s.claims[w := s.claims[w].(phase := Updated(next))])
    case Commit(w) =>
      && w in s.claims && s.claims[w].phase.Updated? && s.claims[w].id in s.rows
      && var id := s.claims[w].id;
         s' == s.(
           rows := s.rows[id := s.rows[id].(next := s.claims[w].phase.next)],
           claims := s.claims - {w}, advances := s.advances + multiset{id})
    case Rollback(w) =>
      && w in s.claims
      && var lost := if PastEnqueue(s.claims[w].phase) then multiset{s.claims[w].id} else multiset{};
         s' == s.(claims := s.claims - {w}, rolledBack := s.rolledBack + lost)
  }

  ghost predicate Run(ss: seq<State>, steps: seq<Step>) {
    && |ss| == |steps| + 1
    && Init(ss[0])
    && forall i {:trigger steps[i]} :: 0 <= i < |steps| ==> Next(ss[i], ss[i + 1], steps[i])
  }

  ghost predicate ClaimedOnce(s: State) {
    forall v, w :: v in s.claims && w in s.claims && s.claims[v].id == s.claims[w].id ==> v == w
  }

  /** An attempt on `id` is between its enqueue and its commit. */
  ghost predicate Open(s: State, id: ScheduleId) {
    exists w :: w in s.claims && s.claims[w] == Claim(id, s.claims[w].phase) && PastEnqueue(s.claims[w].phase)
  }

  ghost predicate Balanced(s: State, id: ScheduleId) {
    s.tasks[id] == s.advances[id] + s.rolledBack[id] + if Open(s, id) then 1 else 0
  }

  /** A claimed row is still there and due, and a one-time schedule is advanced to no next time. */
  ghost predicate ClaimHolds(s: State, c: Claim) {
    && c.id in s.rows && s.rows[c.id].next.Some?
    && (c.phase.Updated? ==> (c.phase.next.None? <==> s.rows[c.id].cron == ""))
  }

  ghost predicate OneTime(s: State, id: ScheduleId) {
    id in s.rows && s.rows[id].cron == "" ==> s.advances[id] <= 1 && (s.rows[id].next.Some? ==> s.advances[id] == 0)
  }

  ghost predicate Inv(s: State) {
    && ClaimedOnce(s)
    && (forall w :: w in s.claims ==> ClaimHolds(s, s.claims[w]))
    && s.rows.Keys <= s.used
    && (forall id :: id !in s.used ==> s.advances[id] == 0)
    && (forall id :: Balanced(s, id))
    && (forall id :: OneTime(s, id))
  }

  lemma BalancedStep(s: State, s': State, step: Step, id: ScheduleId)
    requires Inv(s) && Next(s, s', step)
    ensures Balanced(s', id)
  {
    assert Balanced(s, id);
    if step.Take? || step.Enqueue? || step.EnqueueFails? || step.Advance? || step.Commit? || step.Rollback? {
      var w := step.w;
      forall v | v != w
        ensures v in s'.claims <==> v in s.claims
        ensures v in s.claims ==> s'.claims[v] == s.claims[v]
      {
      }
      if w in s.claims && s.claims[w].id == id {
        assert Open(s, id) <==> PastEnqueue(s.claims[w].phase);
        assert Open(s', id) <==> w in s'.claims && PastEnqueue(s'.claims[w].phase);
      } else {
        assert Open(s, id) <==> Open(s', id);
      }
    } else {
      assert Open(s, id) <==> Open(s', id);
    }
  }

  lemma ClaimsStep(s: State, s': State, step: Step)
    requires Inv(s) && Next(s, s', step)
    ensures ClaimedOnce(s') && forall w :: w in s'.claims ==> ClaimHolds(s', s'.claims[w])
  {
    forall w | w in s'.claims
      ensures ClaimHolds(s', s'.claims[w])
    {
      if w in s.claims {
        assert ClaimHolds(s, s.claims[w]) && Locked(s, s.claims[w].id);
      }
    }
    if step.Take? {
      assert forall v :: v in s.claims ==> s.claims[v].id != step.id;
    }
  }

  lemma OneTimeStep(s: State, s': State, step: Step, id: ScheduleId)
    requires Inv(s) && Next(s, s', step)
    ensures OneTime(s', id)
  {
    assert OneTime(s, id);
    if step.Commit? {
      assert ClaimHolds(s, s.claims[step.w]);
    }
  }

  lemma InvStep(s: State, s': State, step: Step)
    requires Inv(s) && Next(s, s', step)
    ensures Inv(s')
  {
    ClaimsStep(s, s', step);
    forall id
      ensures Balanced(s', id) && OneTime(s', id)
    {
      BalancedStep(s, s', step, id);
      OneTimeStep(s, s', step, id);
    }
    if step.Commit? {
      assert ClaimHolds(s, s.claims[step.w]);
    }
  }

  lemma {:induction false} InvRun(ss: seq<State>, steps: seq<Step>, n: nat)
    requires Run(ss, steps) && n < |ss|
    ensures Inv(ss[n])
  {
    if n > 0 {
      InvRun(ss, steps, n - 1);
      InvStep(ss[n - 1], ss[n], steps[n - 1]);
    }
  }

  /** No enqueued task is unaccounted for, a row has one claim at most, and a one-time schedule advances once. */
  lemma ScheduleConservation(ss: seq<State>, steps: seq<Step>, n: nat, id: ScheduleId)
    requires Run(ss, steps) && n < |ss|
    ensures forall v, w :: v in ss[n].claims && w in ss[n].claims && ss[n].claims[v].id == ss[n].claims[w].id ==> v == w
    ensures ss[n].tasks[id] == ss[n].advances[id] + ss[n].rolledBack[id] + if Open(ss[n], id) then 1 else 0
    ensures id in ss[n].rows && ss[n].rows[id].cron == "" ==> ss[n].advances[id] <= 1
  {
    InvRun(ss, steps, n);
    assert Balanced(ss[n], id) && OneTime(ss[n], id);
  }

  // ---- The counters count steps of the run.

  /** 1 if the i-th step puts a task of schedule `id` into the queue. */
  function Enqueues(ss: seq<State>, steps: seq<Step>, id: ScheduleId): nat -> nat {
    (i: nat) =>
      if i < |steps| && i < |ss| && (steps[i].Enqueue? || (steps[i].EnqueueFails? && steps[i].applied)) &&
         steps[i].w in ss[i].claims && ss[i].claims[steps[i].w].id == id then 1 else 0
  }

  /** 1 if the i-th step commits an advance of schedule `id`. */
  function Commits(ss: seq<State>, steps: seq<Step>, id: ScheduleId): nat -> nat {
    (i: nat) =>
      if i < |steps| && i < |ss| && steps[i].Commit? &&
         steps[i].w in ss[i].claims && ss[i].claims[steps[i].w].id == id then 1 else 0
  }

  /** 1 if the i-th step rolls back an attempt on schedule `id` whose task is in the queue. */
  function Rollbacks(ss: seq<State>, steps: seq<Step>, id: ScheduleId): nat -> nat {
    (i: nat) =>
      if i < |steps| && i < |ss| &&
         (steps[i].Rollback? || (steps[i].EnqueueFails? && steps[i].applied)) &&
         steps[i].w in ss[i].claims && ss[i].claims[steps[i].w].id == id &&
         (steps[i].Rollback? ==> ss[i].claims[steps[i].w].phase != Claimed) then 1 else 0
  }

  lemma {:induction false} CountersCountSteps(ss: seq<State>, steps: seq<Step>, n: nat, id: ScheduleId)
    requires Run(ss, steps) && n < |ss|
    ensures ss[n].tasks[id] == Sum(Enqueues(ss, steps, id), n)
    ensures ss[n].advances[id] == Sum(Commits(ss, steps, id), n)
    ensures ss[n].rolledBack[id] == Sum(Rollbacks(ss, steps, id), n)
  {
    if n > 0 {
      CountersCountSteps(ss, steps, n - 1, id);
      CountersStep(ss, steps, n - 1, id);
    }
  }

  lemma CountersStep(ss: seq<State>, steps: seq<Step>, n: nat, id: ScheduleId)
    requires Run(ss, steps) && n < |steps|
    ensures ss[n + 1].tasks[id] == ss[n].tasks[id] + Enqueues(ss, steps, id)(n)
    ensures ss[n + 1].advances[id] == ss[n].advances[id] + Commits(ss, steps, id)(n)
    ensures ss[n + 1].rolledBack[id] == ss[n].rolledBack[id] + Rollbacks(ss, steps, id)(n)
  {
    assert Next(ss[n], ss[n + 1], steps[n]);
  }

  /** A schedule created once: at most one advance, and none while it still has a next time. */
  ghost predicate Once(s: State, id: ScheduleId) {
    && id in s.used && s.advances[id] <= 1
    && (id in s.rows ==> s.rows[id].cron == "" && (s.rows[id].next.Some? ==> s.advances[id] == 0))
  }

  lemma OnceStep(s: State, s': State, step: Step, id: ScheduleId)
    requires Inv(s) && Next(s, s', step) && Once(s, id) && !(step.Upsert? && step.id == id)
    ensures Once(s', id)
  {
    if step.Commit? {
      assert ClaimHolds(s, s.claims[step.w]);
    }
  }

  /** A schedule created without a cron expression, and not given one later, advances once, also if it is deleted. */
  lemma {:induction false} OneTimeAdvancesOnce(ss: seq<State>, steps: seq<Step>, i: nat, n: nat, id: ScheduleId)
    requires Run(ss, steps) && i < n < |ss| && steps[i] == Create(id, "")
    requires forall k :: i < k < n ==> !(steps[k].Upsert? && steps[k].id == id)
    ensures Once(ss[n], id)
    decreases n
  {
    InvRun(ss, steps, n - 1);
    if i < n - 1 {
      OneTimeAdvancesOnce(ss, steps, i, n - 1, id);
      OnceStep(ss[n - 1], ss[n], steps[n - 1], id);
    }
  }

  // ---- The drain loop of one worker.

  type CronNext = (string, Time) -> Option<Time>

  datatype Outcome = Scheduled(id: ScheduleId) | QueueIsEmpty | CronError(id: ScheduleId)

  datatype Ending = Drained | Interrupted | Failed

  ghost predicate Earliest(rows: Table, now: Time, id: ScheduleId) {
    && id in rows && Due(rows[id], now)
    && forall x :: x in rows && Due(rows[x], now) ==> rows[id].next.value <= rows[x].next.value
  }

  function NextTime(s: Schedule, now: Time, cronNext: CronNext): Option<Time> {
    if s.cron == "" then None else cronNext(s.cron, now)
  }

  /** Seen from the start of an iteration, nothing comes due while it runs. */
  ghost predicate Quiet(rows: Table, clock: nat -> Time, cronNext: CronNext, horizon: Time) {
    && (forall k: nat :: clock(0) <= clock(k) <= horizon)
    && (forall id :: id in rows && rows[id].next.Some? ==>
        rows[id].next.value <= clock(0) || horizon < rows[id].next.value)
    && (forall id, k: nat :: id in rows && rows[id].cron != "" ==>
        cronNext(rows[id].cron, clock(k)).Some? && horizon < cronNext(rows[id].cron, clock(k)).value)
  }

  ghost function DueAt(rows: Table, now: Time): set<ScheduleId> {
    set id | id in rows && Due(rows[id], now)
  }

  ghost predicate NoneDue(rows: Table, clock: nat -> Time) {
    forall k: nat, id :: id in rows ==> !Due(rows[id], clock(k))
  }

  /** `order` lists the ids in `due` once each, by their execution times in `rows`. */
  ghost predicate InOrder(rows: Table, due: set<ScheduleId>, order: seq<ScheduleId>) {
    && (forall id :: id in order <==> id in due)
    && (forall i, j :: 0 <= i < j < |order| ==> order[i] != order[j])
    && (forall i :: 0 <= i < |order| ==> order[i] in rows && rows[order[i]].next.Some?)
    && (forall i, j :: 0 <= i < j < |order| ==> rows[order[i]].next.value <= rows[order[j]].next.value)
  }

  class Worker {
    var rows: Table
    var enqueued: seq<ScheduleId>

    method FindDue(now: Time) returns (got: Option<ScheduleId>)
      ensures got.None? <==> DueAt(rows, now) == {}
      ensures got.None? <==> forall id :: id in rows && rows[id].next.Some? ==> now < rows[id].next.value
      ensures got.Some? ==> Earliest(rows, now, got.value)
    {
      got := None;
      var todo := rows.Keys;
      while todo != {}
        invariant todo <= rows.Keys
        invariant got.Some? ==> got.value in rows && Due(rows[got.value], now)
        invariant forall id :: id in rows && id !in todo && Due(rows[id], now) ==>
          got.Some? && rows[got.value].next.value <= rows[id].next.value
        decreases |todo|
      {
        var id :| id in todo;
        todo := todo - {id};
        if Due(rows[id], now) && (got.None? || rows[id].next.value < rows[got.value].next.value) {
          got := Some(id);
        }
      }
      if got.Some? {
        assert got.value in DueAt(rows, now);
      } else {
        assert forall id :: id in rows ==> !Due(rows[id], now);
      }
    }

    /** The task is enqueued before the cron expression is parsed: an error rolls back the row only. */
    method ScheduleTask(now: Time, later: Time, cronNext: CronNext) returns (r: Outcome)
      modifies this
      ensures r == QueueIsEmpty <==> DueAt(old(rows), now) == {}
      ensures r == QueueIsEmpty ==> rows == old(rows) && enqueued == old(enqueued)
      ensures r != QueueIsEmpty ==> Earliest(old(rows), now, r.id) && enqueued == old(enqueued) + [r.id]
      ensures r.CronError? ==>
        rows == old(rows) && old(rows)[r.id].cron != "" && cronNext(old(rows)[r.id].cron, later).None?
      ensures r.Scheduled? ==>
        rows == old(rows)[r.id := old(rows)[r.id].(next := NextTime(old(rows)[r.id], later, cronNext))]
      ensures r == QueueIsEmpty <==>
        forall id :: id in old(rows) && old(rows)[id].next.Some? ==> now < old(rows)[id].next.value
      ensures r != QueueIsEmpty ==>
        && r.id in old(rows) && old(rows)[r.id].next.Some? && old(rows)[r.id].next.value <= now
        && forall id :: id in old(rows) && old(rows)[id].next.Some? ==>
             old(rows)[r.id].next.value <= old(rows)[id].next.value
      ensures r.Scheduled? ==>
        && rows.Keys == old(rows).Keys && (forall id :: id in rows && id != r.id ==> rows[id] == old(rows)[id])
        && rows[r.id].cron == old(rows)[r.id].cron && (rows[r.id].next.None? <==> rows[r.id].cron == "")
        && (rows[r.id].cron != "" ==> rows[r.id].next == cronNext(rows[r.id].cron, later))
    {
      var got := FindDue(now);
      if got.None? {
        return QueueIsEmpty;
      }
      var id := got.value;
      enqueued := enqueued + [id];
      var nextExecution: Option<Time> := None;
      if rows[id].cron != "" {
        nextExecution := cronNext(rows[id].cron, later);
        if nextExecution.None? {
          return CronError(id);
        }
      }
      rows := rows[id := rows[id].(next := nextExecution)];
      return Scheduled(id);
    }

    /**
     The same as steps of the many-worker machine, for a worker that is alone:
     a claim, an enqueue, and then the advance with its commit or a rollback.
     */
    method ScheduleTaskBySteps(now: Time, later: Time, cronNext: CronNext, ghost s: State, ghost w: WorkerId)
      returns (r: Outcome, ghost ss: seq<State>)
      requires s.rows == rows && s.now == now <= later && s.claims == map[]
      modifies this
      ensures |ss| > 0 && ss[0] == s
      ensures var s' := ss[|ss| - 1];
        && s'.rows == rows && s'.claims == map[]
        && enqueued == old(enqueued) + (if r == QueueIsEmpty then [] else [r.id])
        && s'.tasks == s.tasks + (if r == QueueIsEmpty then multiset{} else multiset{r.id})
        && s'.advances == s.advances + (if r.Scheduled? then multiset{r.id} else multiset{})
        && s'.rolledBack == s.rolledBack + (if r.CronError? then multiset{r.id} else multiset{})
      ensures match r
        case QueueIsEmpty => |ss| == 1 && NoTake(s, w)
        case CronError(id) => Path(ss, [Take(w, id), Enqueue(w), Tick(later - now), Rollback(w)])
        case Scheduled(id) =>
          && id in rows
          && Path(ss, [Take(w, id), Enqueue(w), Tick(later - now), Advance(w, rows[id].next), Commit(w)])
    {
      r := ScheduleTask(now, later, cronNext);
      match r
      case QueueIsEmpty => ss := [s];
      case CronError(id) => ss := RolledBackSteps(s, w, id, later);
      case Scheduled(id) =>
        ss := CommittedSteps(s, w, id, later, rows[id].next);
        assert rows == s.rows[id := s.rows[id].(next := rows[id].next)];
    }

    /** One round of a quiet iteration: the next schedule that was due at the start, or the end of the drain. */
    method Round(
      clock: nat -> Time, k: nat, cronNext: CronNext, ghost horizon: Time, ghost rows0: Table,
      ghost order: seq<ScheduleId>)
      returns (r: Outcome)
      modifies this
      ensures enqueued == old(enqueued) + if r == QueueIsEmpty then [] else [r.id]
      ensures Quiet(rows0, clock, cronNext, horizon) && Draining(rows0, old(rows), clock(0), horizon, order) ==>
        match r
        case QueueIsEmpty =>
          rows == old(rows) && InOrder(rows0, DueAt(rows0, clock(0)), order) && NoneDue(rows, clock)
        case CronError(_) => false
        case Scheduled(id) =>
          Draining(rows0, rows, clock(0), horizon, order + [id]) && |order| < |DueAt(rows0, clock(0))|
    {
      ghost var before := rows;
      r := ScheduleTask(clock(k), clock(k + 1), cronNext);
      if Quiet(rows0, clock, cronNext, horizon) && Draining(rows0, before, clock(0), horizon, order) {
        if r == QueueIsEmpty {
          NothingLeft(rows0, before, clock, cronNext, horizon, order, k);
        } else {
          DrainRound(rows0, before, clock, cronNext, horizon, order, k, r.id);
        }
      }
    }

    /**
     Schedules tasks until none is due, the context is cancelled (`polls` is the
     number of times it is asked before it reports that) or an error occurs.
     The i-th round reads the clock twice.
     */
    method Iteration(clock: nat -> Time, polls: nat, cronNext: CronNext, ghost horizon: Time)
      returns (ending: Ending, ghost order: seq<ScheduleId>)
      modifies this
      ensures enqueued == old(enqueued) + order
      ensures Quiet(old(rows), clock, cronNext, horizon) && polls > |DueAt(old(rows), clock(0))| ==>
        && ending == Drained
        && InOrder(old(rows), DueAt(old(rows), clock(0)), order)
        && NoneDue(rows, clock)
      ensures ending == Drained && Quiet(old(rows), clock, cronNext, horizon) ==>
        && rows.Keys == old(rows).Keys && (forall id :: id in rows ==> rows[id].cron == old(rows)[id].cron)
        && (forall id :: id in order <==>
            id in old(rows) && old(rows)[id].next.Some? && old(rows)[id].next.value <= clock(0))
        && (forall id :: id in rows && id !in order ==> rows[id] == old(rows)[id])
        && (forall id :: id in order && rows[id].cron == "" ==> rows[id].next == None)
        && (forall id :: id in order && rows[id].cron != "" ==> rows[id].next.Some? && horizon < rows[id].next.value)
      ensures Quiet(old(rows), clock, cronNext, horizon) ==> ending != Failed
    {
      order := [];
      ghost var rows0 := rows;
      ghost var quiet := Quiet(rows0, clock, cronNext, horizon);
      var i := 0;
      while i < polls
        invariant i <= polls
        invariant enqueued == old(enqueued) + order
        invariant quiet ==> |order| == i <= |DueAt(rows0, clock(0))|
        invariant quiet ==> Draining(rows0, rows, clock(0), horizon, order)
      {
        var r := Round(clock, 2 * i, cronNext, horizon, rows0, order);
        if r == QueueIsEmpty {
          return Drained, order;
        }
        order := order + [r.id];
        if r.CronError? {
          return Failed, order;
        }
        i := i + 1;
      }
      return Interrupted, order;
    }
  }

  // ---- One attempt as steps.

  ghost predicate Path(ss: seq<State>, steps: seq<Step>) {
    && |ss| == |steps| + 1
    && forall i {:trigger steps[i]} :: 0 <= i < |steps| ==> Next(ss[i], ss[i + 1], steps[i])
  }

  /** The worker can claim nothing. */
  ghost predicate NoTake(s: State, w: WorkerId) {
    forall id, s' :: !Next(s, s', Take(w, id))
  }

  lemma Then(ss: seq<State>, steps: seq<Step>, s': State, step: Step)
    requires Path(ss, steps) && Next(ss[|ss| - 1], s', step)
    ensures Path(ss + [s'], steps + [step])
  {
    LinkedExtends((s, t, a) => Next(s, t, a), ss, steps, s', step);
  }

  lemma EnqueueSteps(s: State, w: WorkerId, id: ScheduleId, later: Time) returns (ss: seq<State>)
    requires s.claims == map[] && Earliest(s.rows, s.now, id) && s.now <= later
    ensures Path(ss, [Take(w, id), Enqueue(w), Tick(later - s.now)]) && ss[0] == s
    ensures ss[3] == s.(now := later, claims := map[w := Claim(id, Enqueued)], tasks := s.tasks + multiset{id})
  {
    assert forall x :: !Locked(s, x);
    var s1 := s.(claims := map[w := Claim(id, Claimed)]);
    assert s.claims[w := Claim(id, Claimed)] == s1.claims;
    assert Path([s], []);
    Then([s], [], s1, Take(w, id));
    var s2 := s1.(claims := map[w := Claim(id, Enqueued)], tasks := s.tasks + multiset{id});
    assert s1.claims[w := Claim(id, Enqueued)] == s2.claims;
    Then([s] + [s1], [] + [Take(w, id)], s2, Enqueue(w));
    var steps := [Take(w, id)] + [Enqueue(w)];
    assert [] + [Take(w, id)] == [Take(w, id)];
    var s3 := s2.(now := later);
    Then([s] + [s1] + [s2], steps, s3, Tick(later - s.now));
    ss := [s] + [s1] + [s2] + [s3];
    assert steps + [Tick(later - s.now)] == [Take(w, id), Enqueue(w), Tick(later - s.now)];
  }

  lemma RolledBackSteps(s: State, w: WorkerId, id: ScheduleId, later: Time) returns (ss: seq<State>)
    requires s.claims == map[] && Earliest(s.rows, s.now, id) && s.now <= later
    ensures Path(ss, [Take(w, id), Enqueue(w), Tick(later - s.now), Rollback(w)]) && ss[0] == s
    ensures ss[4] == s.(now := later, tasks := s.tasks + multiset{id}, rolledBack := s.rolledBack + multiset{id})
  {
    ss := EnqueueSteps(s, w, id, later);
    var steps := [Take(w, id), Enqueue(w), Tick(later - s.now)];
    assert ss[3].claims - {w} == map[];
    var s4 := ss[3].(claims := map[], rolledBack := s.rolledBack + multiset{id});
    Then(ss, steps, s4, Rollback(w));
    ss := ss + [s4];
    assert steps + [Rollback(w)] == [Take(w, id), Enqueue(w), Tick(later - s.now), Rollback(w)];
  }

  lemma CommittedSteps(s: State, w: WorkerId, id: ScheduleId, later: Time, next: Option<Time>)
    returns (ss: seq<State>)
    requires s.claims == map[] && Earliest(s.rows, s.now, id) && s.now <= later
    requires next.None? <==> s.rows[id].cron == ""
    ensures Path(ss, [Take(w, id), Enqueue(w), Tick(later - s.now), Advance(w, next), Commit(w)]) && ss[0] == s
    ensures ss[5] == s.(
      rows := s.rows[id := s.rows[id].(next := next)], now := later,
      tasks := s.tasks + multiset{id}, advances := s.advances + multiset{id})
  {
    ss := EnqueueSteps(s, w, id, later);
    var steps := [Take(w, id), Enqueue(w), Tick(later - s.now)];
    var s4 := ss[3].(claims := map[w := Claim(id, Updated(next))]);
    assert ss[3].claims[w := Claim(id, Updated(next))] == s4.claims && s4.claims - {w} == map[];
    Then(ss, steps, s4, Advance(w, next));
    var s5 := s4.(
      rows := s.rows[id := s.rows[id].(next := next)], claims := map[], advances := s.advances + multiset{id});
    Then(ss + [s4], steps + [Advance(w, next)], s5, Commit(w));
    ss := ss + [s4] + [s5];
    assert steps + [Advance(w, next)] + [Commit(w)] ==
      [Take(w, id), Enqueue(w), Tick(later - s.now), Advance(w, next), Commit(w)];
  }

  // ---- Why the loop drains: each round takes one of the schedules that were due at the start.

  ghost predicate Draining(rows0: Table, rows: Table, start: Time, horizon: Time, order: seq<ScheduleId>) {
    && rows.Keys == rows0.Keys
    && (forall id :: id in rows && id !in order ==> rows[id] == rows0[id])
    && (forall id :: id in order ==> id in rows0 && Due(rows0[id], start))
    && (forall id :: id in order ==> rows[id].next.Some? ==> horizon < rows[id].next.value)
    && (forall id :: id in order ==> rows[id].cron == rows0[id].cron && (rows[id].next.None? <==> rows[id].cron == ""))
    && (forall i, j :: 0 <= i < j < |order| ==>
        order[i] != order[j] && rows0[order[i]].next.value <= rows0[order[j]].next.value)
    && (forall i, id :: 0 <= i < |order| && id in rows0 && Due(rows0[id], start) && id !in order ==>
        rows0[order[i]].next.value <= rows0[id].next.value)
  }

  lemma NextIsDue(
    rows0: Table, rows: Table, clock: nat -> Time, cronNext: CronNext, horizon: Time, order: seq<ScheduleId>, k: nat,
    id: ScheduleId)
    requires Quiet(rows0, clock, cronNext, horizon) && Draining(rows0, rows, clock(0), horizon, order)
    requires Earliest(rows, clock(k), id)
    ensures id !in order && rows[id] == rows0[id] && Due(rows0[id], clock(0))
    ensures forall x :: x in rows0 && Due(rows0[x], clock(0)) && x !in order ==>
      rows0[id].next.value <= rows0[x].next.value
    ensures rows0[id].cron != "" ==>
      forall m: nat :: cronNext(rows0[id].cron, clock(m)).Some? && horizon < cronNext(rows0[id].cron, clock(m)).value
  {
    assert clock(k) <= horizon && clock(0) <= clock(k);
    forall x | x in rows0 && Due(rows0[x], clock(0)) && x !in order
      ensures rows0[id].next.value <= rows0[x].next.value
    {
      assert Due(rows[x], clock(k));
    }
  }

  lemma DrainStep(
    rows0: Table, rows: Table, rows': Table, start: Time, horizon: Time, order: seq<ScheduleId>, id: ScheduleId)
    requires Draining(rows0, rows, start, horizon, order)
    requires id in rows0 && id in rows && id !in order && Due(rows0[id], start)
    requires forall x :: x in rows0 && Due(rows0[x], start) && x !in order ==>
      rows0[id].next.value <= rows0[x].next.value
    requires id in rows' && rows' == rows[id := rows'[id]] && (rows'[id].next.Some? ==> horizon < rows'[id].next.value)
    requires rows'[id].cron == rows0[id].cron && (rows'[id].next.None? <==> rows'[id].cron == "")
    ensures Draining(rows0, rows', start, horizon, order + [id])
  {
    var order' := order + [id];
    forall x | x in order'
      ensures x in rows0 && Due(rows0[x], start) && (rows'[x].next.Some? ==> horizon < rows'[x].next.value)
      ensures rows'[x].cron == rows0[x].cron && (rows'[x].next.None? <==> rows'[x].cron == "")
    {
      assert x == id || x in order;
    }
    forall x | x !in order'
      ensures x !in order && x != id
    {
      assert order'[|order|] == id;
    }
  }

  /** A round succeeds and takes the next of the schedules that were due. */
  lemma DrainRound(
    rows0: Table, rows: Table, clock: nat -> Time, cronNext: CronNext, horizon: Time, order: seq<ScheduleId>, k: nat,
    id: ScheduleId)
    requires Quiet(rows0, clock, cronNext, horizon) && Draining(rows0, rows, clock(0), horizon, order)
    requires Earliest(rows, clock(k), id)
    ensures rows[id].cron != "" ==> cronNext(rows[id].cron, clock(k + 1)).Some?
    ensures var rows' := rows[id := rows[id].(next := NextTime(rows[id], clock(k + 1), cronNext))];
      Draining(rows0, rows', clock(0), horizon, order + [id]) && |order| < |DueAt(rows0, clock(0))|
  {
    NextIsDue(rows0, rows, clock, cronNext, horizon, order, k, id);
    var rows' := rows[id := rows[id].(next := NextTime(rows[id], clock(k + 1), cronNext))];
    DrainStep(rows0, rows, rows', clock(0), horizon, order, id);
    OrderIsBounded(order + [id], DueAt(rows0, clock(0)));
  }

  lemma OrderIsBounded(order: seq<ScheduleId>, due: set<ScheduleId>)
    requires forall id :: id in order ==> id in due
    requires forall i, j :: 0 <= i < j < |order| ==> order[i] != order[j]
    ensures |order| <= |due|
    decreases |order|
  {
    if order != [] {
      var k := |order| - 1;
      assert order[k] in due;
      forall id | id in order[..k]
        ensures id in due - {order[k]}
      {
        assert id in order;
      }
      OrderIsBounded(order[..k], due - {order[k]});
    }
  }

  lemma NothingLeft(
    rows0: Table, rows: Table, clock: nat -> Time, cronNext: CronNext, horizon: Time, order: seq<ScheduleId>, k: nat)
    requires Quiet(rows0, clock, cronNext, horizon) && Draining(rows0, rows, clock(0), horizon, order)
    requires DueAt(rows, clock(k)) == {}
    ensures InOrder(rows0, DueAt(rows0, clock(0)), order)
    ensures NoneDue(rows, clock)
  {
    assert clock(0) <= clock(k);
    forall id | id in rows0 && Due(rows0[id], clock(0))
      ensures id in order
    {
      assert id !in DueAt(rows, clock(k));
    }
    forall m: nat, id | id in rows
      ensures !Due(rows[id], clock(m))
    {
      assert clock(m) <= horizon;
      if id !in order {
        assert rows[id] == rows0[id];
      }
    }
  }
}
