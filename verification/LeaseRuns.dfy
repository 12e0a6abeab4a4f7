/**
 Workers on top of the queue: who is inside handleTask, and until when.  Calls
 take no time, a ttl timer that fires is served before time goes on, and a
 handler closes its heartbeats when it returns.
 */
module LeaseRuns {
  import opened Options
  import opened Runs
  import opened Tasks
  import Q = QueueRuns

  type WorkerId = nat

  /** Waiting for the next heartbeat until the ttl timer fires, or (after a rejected one) only for the handler. */
  datatype Phase = Beating(deadline: Time) | Draining

  datatype Lease = Lease(task: TaskId, phase: Phase)

  datatype State = State(q: Q.State, leases: map<WorkerId, Lease>)

  /** `lost` marks a call whose result is an I/O error; its transaction may or may not have been committed. */
  datatype Step =
    | Outside(step: Q.Step)
    | Deliver(w: WorkerId, draw: Draw, id: TaskId)
    | Beat(w: WorkerId, progress: string)
    | LostBeat(w: WorkerId, progress: string, applied: bool)
    | Done(w: WorkerId, progress: string, call: Q.Call, applied: bool)
    | Timeout(w: WorkerId, progress: string, applied: bool)
    | Cancel(w: WorkerId)

  ghost predicate Init(s: State) {
    Q.Init(s.q) && s.leases == map[]
  }

  ghost predicate MayWait(s: State, until: Time) {
    forall w :: w in s.leases && s.leases[w].phase.Beating? ==> until <= s.leases[w].phase.deadline
  }

  /** The task's row after a call that was committed, or the same table. */
  ghost predicate Calls(ttl: nat, q: Q.State, q': Q.State, id: TaskId, progress: string, call: Q.Call, applied: bool) {
    if applied then Q.Next(ttl, q, q', Q.Update(id, progress, call)) else q' == q
  }

  ghost predicate Next(ttl: nat, period: nat, s: State, s': State, step: Step) {
    match step
    case Outside(qs) =>
      && (qs.Tick? || qs.Enqueue? || qs.Retain?)
      && (qs.Tick? ==> MayWait(s, s.q.now + qs.elapsed))
      && Q.Next(ttl, s.q, s'.q, qs) && s'.leases == s.leases
    case Deliver(w, draw, id) =>
      && w !in s.leases
      && Q.Next(ttl, s.q, s'.q, Q.Dequeue([], draw, Some(id)))
      && s'.leases == s.leases[w := Lease(id, Beating(s.q.now + period))]
    case Beat(w, progress) =>
      && w in s.leases && s.leases[w].phase.Beating?
      && var id := s.leases[w].task;
         && Q.Next(ttl, s.q, s'.q, Q.Update(id, progress, Q.Heartbeat))
         && var phase := if Gate(s.q.rows, id) == Ok then Beating(s.q.now + period) else Draining;
            s'.leases == s.leases[w := Lease(id, phase)]
    case LostBeat(w, progress, applied) =>
      && w in s.leases && s.leases[w].phase.Beating?
      && Calls(ttl, s.q, s'.q, s.leases[w].task, progress, Q.Heartbeat, applied)
      && s'.leases == s.leases - {w}
    case Done(w, progress, call, applied) =>
      && w in s.leases && call != Q.Heartbeat
      && Calls(ttl, s.q, s'.q, s.leases[w].task, progress, call, applied)
      && s'.leases == s.leases - {w}
    case Timeout(w, progress, applied) =>
      && w in s.leases && s.leases[w].phase == Beating(s.q.now)
      && Calls(ttl, s.q, s'.q, s.leases[w].task, progress, Q.Fail, applied)
      && s'.leases == s.leases - {w}
    case Cancel(w) =>
      && w in s.leases && s.leases[w].phase.Beating?
      && s'.q == s.q && s'.leases == s.leases - {w}
  }

  ghost predicate Run(ttl: nat, period: nat, ss: seq<State>, steps: seq<Step>) {
    && |ss| == |steps| + 1
    && Init(ss[0])
    && forall i {:trigger steps[i]} :: 0 <= i < |steps| ==> Next(ttl, period, ss[i], ss[i + 1], steps[i])
  }

  // ---- What must not happen.

  ghost predicate TaskExclusive(s: State) {
    forall v, w :: v in s.leases && w in s.leases && s.leases[v].task == s.leases[w].task ==> v == w
  }

  ghost predicate QueueExclusive(s: State) {
    forall v, w ::
      v in s.leases && w in s.leases && s.leases[v].task in s.q.rows && s.leases[w].task in s.q.rows &&
      SameName(s.q.rows[s.leases[v].task].queue, s.q.rows[s.leases[w].task].queue) ==>
      v == w
  }

  // ---- The lease invariant.

  /** The row still belongs to the lease: running, last touched when the timer was set, and not overdue. */
  ghost predicate Held(period: nat, q: Q.State, l: Lease) {
    && l.phase.Beating? && q.now <= l.phase.deadline
    && l.task in q.rows
    && var r := q.rows[l.task];
       r.status == Running && r.finishedAt.None? && r.lastHeartbeatAt == Some(l.phase.deadline - period)
  }

  ghost predicate Inv(period: nat, s: State) {
    && Q.Inv(s.q)
    && TaskExclusive(s)
    && forall w :: w in s.leases ==> Held(period, s.q, s.leases[w])
  }

  /** Every step of the workers is a step of the queue, or leaves it alone. */
  lemma RefinesQueue(ttl: nat, period: nat, s: State, s': State, step: Step) returns (qs: Q.Step)
    requires Next(ttl, period, s, s', step)
    ensures Q.Next(ttl, s.q, s'.q, qs)
    ensures step.Outside? ==> qs == step.step
    ensures step.Deliver? ==> qs == Q.Dequeue([], step.draw, Some(step.id))
    ensures qs.Dequeue? ==> step.Deliver?
    ensures qs.Enqueue? ==> step.Outside?
    ensures qs.Tick? ==> MayWait(s, s.q.now + qs.elapsed) || qs.elapsed == 0
    ensures qs.Update? ==> !step.Outside? && !step.Deliver? && step.w in s.leases && qs.id == s.leases[step.w].task
    ensures qs.Update? && qs.call == Q.Heartbeat ==>
      (step.Beat? || step.LostBeat?) && s.leases[step.w].phase.Beating? && qs.id == s.leases[step.w].task
    ensures step.Beat? ==> qs == Q.Update(s.leases[step.w].task, step.progress, Q.Heartbeat)
    ensures step.LostBeat? && step.applied ==> qs == Q.Update(s.leases[step.w].task, step.progress, Q.Heartbeat)
    ensures step.Done? && step.applied ==> qs == Q.Update(s.leases[step.w].task, step.progress, step.call)
    ensures step.Timeout? && step.applied ==> qs == Q.Update(s.leases[step.w].task, step.progress, Q.Fail)
    ensures step.Cancel? || ((step.LostBeat? || step.Done? || step.Timeout?) && !step.applied) ==> s'.q == s.q
  {
    match step
    case Outside(q) => qs := q;
    case Deliver(w, draw, id) => qs := Q.Dequeue([], draw, Some(id));
    case Beat(w, progress) => qs := Q.Update(s.leases[w].task, progress, Q.Heartbeat);
    case LostBeat(w, progress, applied) =>
      qs := if applied then Q.Update(s.leases[w].task, progress, Q.Heartbeat) else Q.Tick(0);
    case Done(w, progress, call, applied) =>
      qs := if applied then Q.Update(s.leases[w].task, progress, call) else Q.Tick(0);
    case Timeout(w, progress, applied) =>
      qs := if applied then Q.Update(s.leases[w].task, progress, Q.Fail) else Q.Tick(0);
    case Cancel(w) => qs := Q.Tick(0);
  }

  lemma HeldIsNotDelivered(ttl: nat, period: nat, q: Q.State, q': Q.State, qs: Q.Step, l: Lease)
    requires period <= 2 * ttl && Q.Inv(q) && Q.Next(ttl, q, q', qs) && Held(period, q, l)
    ensures qs.Dequeue? ==> qs.got != Some(l.task)
  {
  }

  lemma HeldRowKept(ttl: nat, period: nat, q: Q.State, q': Q.State, qs: Q.Step, l: Lease)
    requires period <= 2 * ttl && Q.Inv(q) && Q.Next(ttl, q, q', qs) && Held(period, q, l)
    requires qs.Update? ==> qs.id != l.task
    requires qs.Tick? ==> q.now + qs.elapsed <= l.phase.deadline
    ensures Held(period, q', l)
  {
    HeldIsNotDelivered(ttl, period, q, q', qs, l);
  }

  /** The steps of other workers, and of the world outside, leave a lease alone. */
  lemma LeaseStaysHeld(ttl: nat, period: nat, s: State, s': State, step: Step, w: WorkerId)
    requires period <= 2 * ttl && Inv(period, s) && Next(ttl, period, s, s', step)
    requires w in s'.leases && !((step.Deliver? || step.Beat?) && step.w == w)
    ensures w in s.leases && s'.leases[w] == s.leases[w] && Held(period, s'.q, s.leases[w])
  {
    var qs := RefinesQueue(ttl, period, s, s', step);
    assert Held(period, s.q, s.leases[w]);
    HeldRowKept(ttl, period, s.q, s'.q, qs, s.leases[w]);
  }

  /** A lease just taken is held from its own step on. */
  lemma TakenLeaseIsHeld(ttl: nat, period: nat, s: State, s': State, step: Step)
    requires Q.Inv(s.q) && Next(ttl, period, s, s', step) && step.Deliver?
    ensures Held(period, s'.q, s'.leases[step.w])
  {
    Q.DeliveredRow(ttl, s.q, s'.q, [], step.draw, step.id);
    assert s'.leases[step.w] == Lease(step.id, Beating(s.q.now + period));
  }

  /** And so is one just renewed. */
  lemma RenewedLeaseIsHeld(ttl: nat, period: nat, s: State, s': State, step: Step)
    requires Next(ttl, period, s, s', step) && step.Beat? && Held(period, s.q, s.leases[step.w])
    ensures Held(period, s'.q, s'.leases[step.w])
  {
    var id := s.leases[step.w].task;
    assert Gate(s.q.rows, id) == Ok;
    assert s'.q.rows[id] == Progressed(s.q.rows[id], step.progress, false, false, s.q.now);
  }

  lemma ExclusionStep(ttl: nat, period: nat, s: State, s': State, step: Step)
    requires period <= 2 * ttl && Inv(period, s) && Next(ttl, period, s, s', step)
    ensures TaskExclusive(s')
  {
    if step.Deliver? {
      forall w | w in s.leases
        ensures s.leases[w].task != step.id
      {
        HeldIsNotDelivered(ttl, period, s.q, s'.q, Q.Dequeue([], step.draw, Some(step.id)), s.leases[w]);
      }
    }
  }

  lemma InvStep(ttl: nat, period: nat, s: State, s': State, step: Step)
    requires period <= 2 * ttl && Inv(period, s) && Next(ttl, period, s, s', step)
    ensures Inv(period, s')
  {
    var qs := RefinesQueue(ttl, period, s, s', step);
    Q.InvStep(ttl, s.q, s'.q, qs);
    ExclusionStep(ttl, period, s, s', step);
    forall w | w in s'.leases
      ensures Held(period, s'.q, s'.leases[w])
    {
      if step.Deliver? && step.w == w {
        TakenLeaseIsHeld(ttl, period, s, s', step);
      } else if step.Beat? && step.w == w {
        assert Held(period, s.q, s.leases[w]);
        RenewedLeaseIsHeld(ttl, period, s, s', step);
      } else {
        LeaseStaysHeld(ttl, period, s, s', step, w);
      }
    }
  }

  lemma {:induction false} InvRun(ttl: nat, period: nat, ss: seq<State>, steps: seq<Step>, n: nat)
    requires period <= 2 * ttl && Run(ttl, period, ss, steps) && n < |ss|
    ensures Inv(period, ss[n])
  {
    if n > 0 {
      InvRun(ttl, period, ss, steps, n - 1);
      InvStep(ttl, period, ss[n - 1], ss[n], steps[n - 1]);
    }
  }

  /** No call of a worker that is inside handleTask is turned away by the status gate. */
  lemma CallsAreAccepted(ttl: nat, period: nat, ss: seq<State>, steps: seq<Step>, n: nat, w: WorkerId)
    requires period <= 2 * ttl && Run(ttl, period, ss, steps) && n < |ss| && w in ss[n].leases
    ensures Gate(ss[n].q.rows, ss[n].leases[w].task) == Ok
    ensures ss[n].leases[w].phase.Beating?
  {
    InvRun(ttl, period, ss, steps, n);
  }

  // ---- One worker per queue.

  /** Enqueued names of one queue are spelled alike throughout the run. */
  ghost predicate ConsistentSpelling(steps: seq<Step>) {
    forall i, j ::
      0 <= i < |steps| && 0 <= j < |steps| && Enqueues(steps[i]) && Enqueues(steps[j]) &&
      SameName(steps[i].step.queue, steps[j].step.queue) ==>
      steps[i].step.queue == steps[j].step.queue
  }

  predicate Enqueues(step: Step) {
    step.Outside? && step.step.Enqueue?
  }

  lemma {:induction false} RowOrigin(ttl: nat, period: nat, ss: seq<State>, steps: seq<Step>, n: nat, id: TaskId)
    returns (i: nat)
    requires Run(ttl, period, ss, steps) && n < |ss| && id in ss[n].q.rows
    ensures i < |steps| && Enqueues(steps[i]) && steps[i].step.queue == ss[n].q.rows[id].queue
    decreases n
  {
    assert n > 0;
    OriginStep(ttl, period, ss[n - 1], ss[n], steps[n - 1], id);
    if Enqueues(steps[n - 1]) && steps[n - 1].step.id == id {
      i := n - 1;
    } else {
      i := RowOrigin(ttl, period, ss, steps, n - 1, id);
    }
  }

  lemma OriginStep(ttl: nat, period: nat, s: State, s': State, step: Step, id: TaskId)
    requires Next(ttl, period, s, s', step) && id in s'.q.rows
    ensures if Enqueues(step) && step.step.id == id then s'.q.rows[id].queue == step.step.queue
      else id in s.q.rows && s'.q.rows[id].queue == s.q.rows[id].queue
  {
    var qs := RefinesQueue(ttl, period, s, s', step);
    Q.QueueKept(ttl, s.q, s'.q, qs, id);
  }

  lemma NoClash(ttl: nat, period: nat, ss: seq<State>, steps: seq<Step>, n: nat)
    requires Run(ttl, period, ss, steps) && n < |ss| && ConsistentSpelling(steps)
    ensures !Q.Clash(ttl, ss[n].q, [])
  {
    var s := ss[n].q;
    forall id, name | id in s.rows && Q.MayName(s.rows, [], name) && SameName(name, s.rows[id].queue)
      ensures name == s.rows[id].queue
    {
      var other :| other in s.rows && Unfinished(s.rows[other]) && s.rows[other].queue == name;
      var i := RowOrigin(ttl, period, ss, steps, n, id);
      var j := RowOrigin(ttl, period, ss, steps, n, other);
    }
  }

  lemma {:induction false} SingleFlightRun(ttl: nat, period: nat, ss: seq<State>, steps: seq<Step>, n: nat)
    requires period < 2 * ttl && Run(ttl, period, ss, steps) && n < |ss| && ConsistentSpelling(steps)
    ensures Q.SingleFlight(ttl, ss[n].q)
  {
    if n > 0 {
      SingleFlightRun(ttl, period, ss, steps, n - 1);
      var qs := DisciplinedAt(ttl, period, ss, steps, n - 1);
      Q.SingleFlightStep(ttl, ss[n - 1].q, ss[n].q, qs);
    }
  }

  /** Every heartbeat comes in time, because the timer is shorter than the lease. */
  lemma HeldIsTimely(ttl: nat, period: nat, q: Q.State, l: Lease)
    requires period < 2 * ttl && Held(period, q, l)
    ensures InFlight(q.rows[l.task], q.now, ttl) && Q.Timely(ttl, q, l.task)
  {
  }

  lemma DisciplinedAt(ttl: nat, period: nat, ss: seq<State>, steps: seq<Step>, n: nat) returns (qs: Q.Step)
    requires period < 2 * ttl && Run(ttl, period, ss, steps) && n < |steps| && ConsistentSpelling(steps)
    ensures Q.Next(ttl, ss[n].q, ss[n + 1].q, qs) && Q.Disciplined(ttl, ss[n].q, qs) && Q.Inv(ss[n].q)
  {
    InvRun(ttl, period, ss, steps, n);
    NoClash(ttl, period, ss, steps, n);
    qs := RefinesQueue(ttl, period, ss[n], ss[n + 1], steps[n]);
    if qs.Update? && qs.call == Q.Heartbeat {
      HeldIsTimely(ttl, period, ss[n].q, ss[n].leases[steps[n].w]);
    }
  }

  lemma QueueExclusion(ttl: nat, period: nat, ss: seq<State>, steps: seq<Step>, n: nat)
    requires period < 2 * ttl && Run(ttl, period, ss, steps) && n < |ss| && ConsistentSpelling(steps)
    ensures QueueExclusive(ss[n])
  {
    InvRun(ttl, period, ss, steps, n);
    SingleFlightRun(ttl, period, ss, steps, n);
    forall w | w in ss[n].leases
      ensures InFlight(ss[n].q.rows[ss[n].leases[w].task], ss[n].q.now, ttl)
    {
      HeldIsTimely(ttl, period, ss[n].q, ss[n].leases[w]);
    }
  }

  // ---- Both bounds on the heartbeat period are exact.

  lemma ExtendRun(ttl: nat, period: nat, ss: seq<State>, steps: seq<Step>, s': State, step: Step)
    requires Run(ttl, period, ss, steps) && Next(ttl, period, ss[|ss| - 1], s', step)
    ensures Run(ttl, period, ss + [s'], steps + [step])
  {
    LinkedExtends((s, t, a) => Next(ttl, period, s, t, a), ss, steps, s', step);
  }

  /** Worker 0 took task 0 at time 0 and then `wait` passed without a heartbeat. */
  function Silent(period: nat, wait: nat): State {
    State(Q.State(map[0 := Stamped(NewRow("q", "t", None, 0), 0)], {0}, wait), map[0 := Lease(0, Beating(period))])
  }

  lemma SilentRun(ttl: nat, period: nat, wait: nat) returns (ss: seq<State>, steps: seq<Step>)
    requires wait <= period
    ensures Run(ttl, period, ss, steps) && ss[|ss| - 1] == Silent(period, wait)
    ensures forall i :: 0 <= i < |steps| && Enqueues(steps[i]) ==> steps[i].step.queue == "q"
  {
    var s0 := State(Q.State(map[], {}, 0), map[]);
    var s1 := State(Q.State(map[0 := NewRow("q", "t", None, 0)], {0}, 0), map[]);
    var enqueue := Outside(Q.Enqueue(0, "q", "t", None));
    assert Run(ttl, period, [s0], []);
    ExtendRun(ttl, period, [s0], [], s1, enqueue);
    ss, steps := [s0] + [s1], [] + [enqueue];
    assert Newest(s1.q.rows, "q", 0, ttl, 0);
    Q.TakeFromOnlyQueue(ttl, s1.q, "q", 0);
    var take := Deliver(0, Draw(["q"], [], 0), 0);
    ExtendRun(ttl, period, ss, steps, Silent(period, 0), take);
    ss, steps := ss + [Silent(period, 0)], steps + [take];
    ExtendRun(ttl, period, ss, steps, Silent(period, wait), Outside(Q.Tick(wait)));
    ss, steps := ss + [Silent(period, wait)], steps + [Outside(Q.Tick(wait))];
  }

  /** A period above twice the ttl lets a second worker take the task of a slow one. */
  lemma SlowWorkerLosesTask(ttl: nat, period: nat) returns (ss: seq<State>, steps: seq<Step>)
    requires period > 2 * ttl
    ensures Run(ttl, period, ss, steps) && !TaskExclusive(ss[|ss| - 1])
  {
    var wait := 2 * ttl + 1;
    ss, steps := SilentRun(ttl, period, wait);
    var s := Silent(period, wait);
    assert Newest(s.q.rows, "q", wait, ttl, 0);
    Q.TakeFromOnlyQueue(ttl, s.q, "q", 0);
    var take := Deliver(1, Draw(["q"], [], 0), 0);
    var s' := State(
      s.q.(rows := s.q.rows[0 := Stamped(s.q.rows[0], wait)]), s.leases[1 := Lease(0, Beating(wait + period))]);
    ExtendRun(ttl, period, ss, steps, s', take);
    ss, steps := ss + [s'], steps + [take];
    assert s'.leases[0].task == s'.leases[1].task;
  }

  /** At twice the ttl already, a slow worker no longer keeps its queue to itself. */
  lemma SlowWorkerLosesQueue(ttl: nat, period: nat) returns (ss: seq<State>, steps: seq<Step>)
    requires period >= 2 * ttl
    ensures Run(ttl, period, ss, steps) && ConsistentSpelling(steps) && !QueueExclusive(ss[|ss| - 1])
  {
    var wait := 2 * ttl;
    ss, steps := SilentRun(ttl, period, wait);
    var s := Silent(period, wait);
    var s' := s.(q := Q.State(s.q.rows[1 := NewRow("q", "t", None, wait)], {0, 1}, wait));
    var enqueue := Outside(Q.Enqueue(1, "q", "t", None));
    ExtendRun(ttl, period, ss, steps, s', enqueue);
    ss, steps := ss + [s'], steps + [enqueue];
    var take := Deliver(1, Draw(["q"], [], 0), 1);
    var s'' := SecondTask(ttl, period, s', wait, take);
    ExtendRun(ttl, period, ss, steps, s'', take);
    ss, steps := ss + [s''], steps + [take];
  }

  lemma SecondTask(ttl: nat, period: nat, s: State, wait: nat, take: Step) returns (s': State)
    requires wait == 2 * ttl && take == Deliver(1, Draw(["q"], [], 0), 1)
    requires s.leases == Silent(period, wait).leases
    requires s.q == Q.State(Silent(period, wait).q.rows[1 := NewRow("q", "t", None, wait)], {0, 1}, wait)
    ensures Next(ttl, period, s, s', take) && !QueueExclusive(s')
  {
    assert Newest(s.q.rows, "q", wait, ttl, 1);
    Q.TakeFromOnlyQueue(ttl, s.q, "q", 1);
    s' := State(
      s.q.(rows := s.q.rows[1 := Stamped(s.q.rows[1], wait)]), s.leases[1 := Lease(1, Beating(wait + period))]);
    assert s'.leases[0].task == 0 && s'.leases[1].task == 1;
  }

  lemma TaskExclusionIff(ttl: nat, period: nat)
    ensures (forall ss, steps, n :: Run(ttl, period, ss, steps) && 0 <= n < |ss| ==> TaskExclusive(ss[n]))
      <==> period <= 2 * ttl
  {
    if period <= 2 * ttl {
      forall ss, steps, n | Run(ttl, period, ss, steps) && 0 <= n < |ss|
        ensures TaskExclusive(ss[n])
      {
        InvRun(ttl, period, ss, steps, n);
      }
    } else {
      var ss, steps := SlowWorkerLosesTask(ttl, period);
      assert !TaskExclusive(ss[|ss| - 1]);
    }
  }

  lemma QueueExclusionIff(ttl: nat, period: nat)
    ensures (forall ss, steps, n :: Run(ttl, period, ss, steps) && ConsistentSpelling(steps) && 0 <= n < |ss| ==>
        QueueExclusive(ss[n]))
      <==> period < 2 * ttl
  {
    if period < 2 * ttl {
      forall ss, steps, n | Run(ttl, period, ss, steps) && ConsistentSpelling(steps) && 0 <= n < |ss|
        ensures QueueExclusive(ss[n])
      {
        QueueExclusion(ttl, period, ss, steps, n);
      }
    } else {
      var ss, steps := SlowWorkerLosesQueue(ttl, period);
      assert !QueueExclusive(ss[|ss| - 1]);
    }
  }
}
