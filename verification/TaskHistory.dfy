/**
 The table as a function of what was done to it: in every run each column of a
 row is given by the last step of the run that sets it.  The columns are stated
 one by one, not through the functions that write them.
 */
module TaskHistory {
  import opened Options
  import opened Tasks
  import opened QueueRuns

  // ---- One step, column by column.

  /** The update is let through: the row is there, and its status is running or failed. */
  predicate Accepts(s: State, id: TaskId) {
    id in s.rows && (s.rows[id].status == Running || s.rows[id].status == Failed)
  }

  /** What an attempt does to the row it hands out. */
  lemma DeliveredColumns(ttl: nat, s: State, s': State, requested: seq<string>, draw: Draw, id: TaskId)
    requires Inv(s) && Next(ttl, s, s', Dequeue(requested, draw, Some(id)))
    ensures id in s.rows && id in s'.rows && s'.rows.Keys == s.rows.Keys
    ensures var r, r' := s.rows[id], s'.rows[id];
      && r'.queue == r.queue && r'.typ == r.typ && r'.spec == r.spec && r'.createdAt == r.createdAt
      && r'.progress == r.progress && r'.finishedAt == r.finishedAt == None
      && r'.startedAt == Some(s.now) && r'.lastHeartbeatAt == Some(s.now) && r'.status == Running
    ensures forall x :: x in s.rows && x != id ==> s'.rows[x] == s.rows[x]
  {
    assert Good(s.rows[id], s.now);
  }

  /**
   Which row it is: of a requested queue, or of one with unfinished work, whose
   name is not on the in-flight list; not started yet or silent for more than
   twice the ttl; and created last of all such rows of its queue.
   */
  lemma DeliveredChoice(ttl: nat, s: State, s': State, requested: seq<string>, draw: Draw, id: TaskId)
    returns (name: string)
    requires Inv(s) && Next(ttl, s, s', Dequeue(requested, draw, Some(id)))
    ensures id in s.rows && SameName(s.rows[id].queue, name) && name !in draw.inflight
    ensures if requested == [] then name in draw.unfinished else name in requested
    ensures s.rows[id].startedAt == None ||
      (s.rows[id].lastHeartbeatAt.Some? && s.rows[id].lastHeartbeatAt.value + 2 * ttl < s.now)
    ensures forall x :: x in s.rows && SameName(s.rows[x].queue, name) && s.rows[x].startedAt == None ==>
      s.rows[x].createdAt <= s.rows[id].createdAt
    ensures forall x ::
      x in s.rows && SameName(s.rows[x].queue, name) && s.rows[x].finishedAt == None &&
      s.rows[x].lastHeartbeatAt.Some? && s.rows[x].lastHeartbeatAt.value + 2 * ttl < s.now ==>
      s.rows[x].createdAt <= s.rows[id].createdAt
  {
    var names := Candidates(requested, draw);
    name := names[draw.pick];
    ProcessableMembers(draw.inflight, Potential(requested, draw));
    assert name in names;
    forall x | x in s.rows && SameName(s.rows[x].queue, name)
      ensures Eligible(s.rows[x], name, s.now, ttl) ==> s.rows[x].createdAt <= s.rows[id].createdAt
    {
    }
  }

  /** What an update does to its row if it is let through; otherwise the table stays as it is. */
  lemma UpdatedColumns(ttl: nat, s: State, s': State, id: TaskId, progress: string, call: Call)
    requires Next(ttl, s, s', Update(id, progress, call))
    ensures s'.rows.Keys == s.rows.Keys && forall x :: x in s.rows && x != id ==> s'.rows[x] == s.rows[x]
    ensures !Accepts(s, id) && Inv(s) ==> s'.rows == s.rows
    ensures Accepts(s, id) ==>
      var r, r' := s.rows[id], s'.rows[id];
      && r'.queue == r.queue && r'.typ == r.typ && r'.spec == r.spec && r'.createdAt == r.createdAt
      && r'.startedAt == r.startedAt && r'.lastHeartbeatAt == Some(s.now)
      && r'.progress == (if progress == "" then "{}" else progress)
      && r'.finishedAt == (if call == Heartbeat then r.finishedAt else Some(s.now))
      && r'.status == (match call case Heartbeat => Running case Finish => Finished case Fail => Failed)
  {
  }

  /** A row is removed exactly by a retention job for its status, queue and type that it is old enough for. */
  lemma RemovedIff(ttl: nat, s: State, s': State, step: Step, id: TaskId)
    requires Next(ttl, s, s', step) && id in s.rows
    ensures id !in s'.rows <==>
      && step.Retain? && s.rows[id].status == step.status
      && s.rows[id].finishedAt.Some? && s.rows[id].finishedAt.value + step.age <= s.now
      && (step.queue == "" || SameName(s.rows[id].queue, step.queue))
      && (step.typ == "" || SameName(s.rows[id].typ, step.typ))
    ensures step.Retain? && id in s'.rows ==> s'.rows[id] == s.rows[id]
  {
    if step.Dequeue? && step.got.Some? {
      assert s'.rows == s.rows[step.got.value := Stamped(s.rows[step.got.value], s.now)];
    }
  }

  // ---- Whole runs.

  /** The last index below `n` with property `p`. */
  function Last(p: nat -> bool, n: nat): (k: Option<nat>)
    ensures k.Some? ==> k.value < n && p(k.value) && forall i :: k.value < i < n ==> !p(i)
    ensures k.None? ==> forall i :: 0 <= i < n ==> !p(i)
  {
    if n == 0 then None else if p(n - 1) then Some(n - 1) else Last(p, n - 1)
  }

  /** The i-th step hands out `id`. */
  function Deliveries(steps: seq<Step>, id: TaskId): nat -> bool {
    (i: nat) => i < |steps| && steps[i].Dequeue? && steps[i].got == Some(id)
  }

  /** The i-th step is an update of `id` that is let through. */
  function Updates(ss: seq<State>, steps: seq<Step>, id: TaskId): nat -> bool {
    (i: nat) => i < |steps| && i < |ss| && steps[i].Update? && steps[i].id == id && Accepts(ss[i], id)
  }

  /** And it is a Finish or Fail. */
  function Endings(ss: seq<State>, steps: seq<Step>, id: TaskId): nat -> bool {
    (i: nat) => Updates(ss, steps, id)(i) && steps[i].call != Heartbeat
  }

  function Touches(ss: seq<State>, steps: seq<Step>, id: TaskId): nat -> bool {
    (i: nat) => Deliveries(steps, id)(i) || Updates(ss, steps, id)(i)
  }

  function ClockAt(ss: seq<State>, k: Option<nat>): Option<Time> {
    if k.Some? && k.value < |ss| then Some(ss[k.value].now) else None
  }

  /** The columns of `id` after `n` steps, by the last step that set each of them. */
  ghost predicate Recorded(ss: seq<State>, steps: seq<Step>, n: nat, id: TaskId)
    requires n < |ss| && |ss| == |steps| + 1 && id in ss[n].rows
  {
    var r := ss[n].rows[id];
    var update := Last(Updates(ss, steps, id), n);
    var touch := Last(Touches(ss, steps, id), n);
    && r.startedAt == ClockAt(ss, Last(Deliveries(steps, id), n))
    && r.lastHeartbeatAt == ClockAt(ss, touch)
    && r.finishedAt == ClockAt(ss, Last(Endings(ss, steps, id), n))
    && r.progress == (if update.None? || steps[update.value].progress == "" then "{}" else steps[update.value].progress)
    && r.status ==
       if touch.None? then Waiting
       else if steps[touch.value].Dequeue? || steps[touch.value].call == Heartbeat then Running
       else if steps[touch.value].call == Finish then Finished
       else Failed
  }

  lemma {:induction false} UnusedIsUntouched(
    ttl: nat, ss: seq<State>, steps: seq<Step>, n: nat, i: nat, id: TaskId)
    requires Run(ttl, ss, steps) && i <= n < |ss| && id !in ss[n].used
    ensures id !in ss[i].used && id !in ss[i].rows
    ensures i < n ==> !Touches(ss, steps, id)(i)
    decreases n - i
  {
    if i < n {
      UnusedIsUntouched(ttl, ss, steps, n, i + 1, id);
      assert Next(ttl, ss[i], ss[i + 1], steps[i]);
    }
    InvRun(ttl, ss, steps, i);
    if i < n {
      AbsentIsUntouched(ttl, ss, steps, i, id);
    }
  }

  lemma AbsentIsUntouched(ttl: nat, ss: seq<State>, steps: seq<Step>, i: nat, id: TaskId)
    requires Run(ttl, ss, steps) && i < |steps| && id !in ss[i].rows
    ensures !Touches(ss, steps, id)(i)
  {
    assert Next(ttl, ss[i], ss[i + 1], steps[i]);
    assert !Deliveries(steps, id)(i);
    assert !Updates(ss, steps, id)(i);
  }

  /** A new row is waiting. */
  lemma EnqueuedIsRecorded(ttl: nat, ss: seq<State>, steps: seq<Step>, n: nat, id: TaskId)
    requires Run(ttl, ss, steps) && 0 < n < |ss| && steps[n - 1].Enqueue? && steps[n - 1].id == id
    ensures id in ss[n].rows && Recorded(ss, steps, n, id)
  {
    assert Next(ttl, ss[n - 1], ss[n], steps[n - 1]);
    forall i: nat | i < n
      ensures !Touches(ss, steps, id)(i)
    {
      UnusedIsUntouched(ttl, ss, steps, n - 1, i, id);
      AbsentIsUntouched(ttl, ss, steps, i, id);
    }
    NeverTouched(ss, steps, n, id);
  }

  lemma NeverTouched(ss: seq<State>, steps: seq<Step>, n: nat, id: TaskId)
    requires forall i: nat :: i < n ==> !Touches(ss, steps, id)(i)
    ensures Last(Touches(ss, steps, id), n).None? && Last(Deliveries(steps, id), n).None?
    ensures Last(Updates(ss, steps, id), n).None? && Last(Endings(ss, steps, id), n).None?
  {
    var deliveries, updates := Deliveries(steps, id), Updates(ss, steps, id);
    assert forall i: nat :: i < n ==> !Touches(ss, steps, id)(i) ==> !deliveries(i) && !updates(i);
    assert forall i: nat :: Endings(ss, steps, id)(i) ==> updates(i);
  }

  /** Delivered in step n. */
  lemma DeliveredIsRecorded(ttl: nat, ss: seq<State>, steps: seq<Step>, n: nat, id: TaskId)
    requires Run(ttl, ss, steps) && n < |steps| && Inv(ss[n]) && Deliveries(steps, id)(n)
    requires id in ss[n].rows && Recorded(ss, steps, n, id)
    ensures id in ss[n + 1].rows && Recorded(ss, steps, n + 1, id)
  {
    assert Next(ttl, ss[n], ss[n + 1], steps[n]);
    DeliveredColumns(ttl, ss[n], ss[n + 1], steps[n].requested, steps[n].draw, id);
  }

  lemma UpdatedIsRecorded(ttl: nat, ss: seq<State>, steps: seq<Step>, n: nat, id: TaskId)
    requires Run(ttl, ss, steps) && n < |steps| && Updates(ss, steps, id)(n)
    requires id in ss[n].rows && Recorded(ss, steps, n, id)
    ensures id in ss[n + 1].rows && Recorded(ss, steps, n + 1, id)
  {
    assert Next(ttl, ss[n], ss[n + 1], steps[n]);
    UpdatedColumns(ttl, ss[n], ss[n + 1], id, steps[n].progress, steps[n].call);
  }

  /** All other steps leave the row alone. */
  lemma OthersLeaveAlone(ttl: nat, s: State, s': State, step: Step, id: TaskId)
    requires Inv(s) && Next(ttl, s, s', step) && id in s.rows && id in s'.rows
    requires step.Dequeue? ==> step.got != Some(id)
    requires step.Update? ==> step.id != id || !Accepts(s, id)
    ensures s'.rows[id] == s.rows[id]
  {
    match step
    case Dequeue(requested, draw, got) =>
      if got.Some? {
        DeliveredColumns(ttl, s, s', requested, draw, got.value);
      }
    case Update(x, progress, call) => UpdatedColumns(ttl, s, s', x, progress, call);
    case Retain(_, _, _, _) => RemovedIff(ttl, s, s', step, id);
    case Enqueue(_, _, _, _) =>
    case Tick(_) =>
  }

  predicate SameOrigin(r: Row, r': Row) {
    r'.queue == r.queue && r'.typ == r.typ && r'.spec == r.spec && r'.createdAt == r.createdAt
  }

  lemma RecordedStep(ttl: nat, ss: seq<State>, steps: seq<Step>, n: nat, id: TaskId)
    requires Run(ttl, ss, steps) && n < |steps| && Inv(ss[n])
    requires id in ss[n].rows && Recorded(ss, steps, n, id) && id in ss[n + 1].rows
    ensures Recorded(ss, steps, n + 1, id)
  {
    if Deliveries(steps, id)(n) {
      DeliveredIsRecorded(ttl, ss, steps, n, id);
    } else if Updates(ss, steps, id)(n) {
      UpdatedIsRecorded(ttl, ss, steps, n, id);
    } else {
      assert Next(ttl, ss[n], ss[n + 1], steps[n]);
      OthersLeaveAlone(ttl, ss[n], ss[n + 1], steps[n], id);
    }
  }

  lemma RowWasThere(ttl: nat, ss: seq<State>, steps: seq<Step>, n: nat, id: TaskId)
    requires Run(ttl, ss, steps) && n < |steps| && id in ss[n + 1].rows
    ensures id in ss[n].rows || (steps[n].Enqueue? && steps[n].id == id)
  {
    QueueKept(ttl, ss[n], ss[n + 1], steps[n], id);
  }

  lemma OriginStep(ttl: nat, ss: seq<State>, steps: seq<Step>, n: nat, id: TaskId)
    requires Run(ttl, ss, steps) && n < |steps| && id in ss[n + 1].rows
    ensures id in ss[n].rows || (steps[n].Enqueue? && steps[n].id == id)
    ensures id in ss[n].rows ==> SameOrigin(ss[n].rows[id], ss[n + 1].rows[id])
    ensures id !in ss[n].rows ==>
      var r, e := ss[n + 1].rows[id], steps[n];
      && r.queue == e.queue && r.typ == e.typ && r.createdAt == ss[n].now
      && r.spec == if e.spec.None? then "{}" else e.spec.value
  {
    InvRun(ttl, ss, steps, n);
    RowWasThere(ttl, ss, steps, n, id);
    var s, s', step := ss[n], ss[n + 1], steps[n];
    assert Next(ttl, s, s', step);
    if id in s.rows {
      if step.Dequeue? && step.got == Some(id) {
        DeliveredColumns(ttl, s, s', step.requested, step.draw, id);
      } else if step.Update? && step.id == id && Accepts(s, id) {
        UpdatedColumns(ttl, s, s', id, step.progress, step.call);
      } else {
        OthersLeaveAlone(ttl, s, s', step, id);
      }
    }
  }

  lemma {:induction false} OriginRun(ttl: nat, ss: seq<State>, steps: seq<Step>, n: nat, id: TaskId) returns (e: nat)
    requires Run(ttl, ss, steps) && n < |ss| && id in ss[n].rows
    ensures e < n && steps[e].Enqueue? && steps[e].id == id
    ensures var r := ss[n].rows[id];
      && r.queue == steps[e].queue && r.typ == steps[e].typ && r.createdAt == ss[e].now
      && r.spec == (if steps[e].spec.None? then "{}" else steps[e].spec.value)
  {
    assert n > 0;
    OriginStep(ttl, ss, steps, n - 1, id);
    if id in ss[n - 1].rows {
      e := OriginRun(ttl, ss, steps, n - 1, id);
    } else {
      e := n - 1;
    }
  }

  lemma {:induction false} RecordedRun(ttl: nat, ss: seq<State>, steps: seq<Step>, n: nat, id: TaskId)
    requires Run(ttl, ss, steps) && n < |ss| && id in ss[n].rows
    ensures Recorded(ss, steps, n, id)
  {
    assert n > 0;
    RowWasThere(ttl, ss, steps, n - 1, id);
    if id in ss[n - 1].rows {
      RecordedRun(ttl, ss, steps, n - 1, id);
      InvRun(ttl, ss, steps, n - 1);
      RecordedStep(ttl, ss, steps, n - 1, id);
    } else {
      EnqueuedIsRecorded(ttl, ss, steps, n, id);
    }
  }

  /**
   In every run a row has the queue, type, spec and creation time of the step
   that enqueued it; its other columns are those of the last delivery, the last
   accepted update, the last of both and the last Finish or Fail.
   */
  lemma RowIsItsHistory(ttl: nat, ss: seq<State>, steps: seq<Step>, n: nat, id: TaskId) returns (e: nat)
    requires Run(ttl, ss, steps) && n < |ss| && id in ss[n].rows
    ensures e < n && steps[e].Enqueue? && steps[e].id == id
    ensures var r := ss[n].rows[id];
      && r.queue == steps[e].queue && r.typ == steps[e].typ && r.createdAt == ss[e].now
      && r.spec == (if steps[e].spec.None? then "{}" else steps[e].spec.value)
    ensures Recorded(ss, steps, n, id)
  {
    e := OriginRun(ttl, ss, steps, n, id);
    RecordedRun(ttl, ss, steps, n, id);
  }
}
