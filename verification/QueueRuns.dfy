/**
 Whole runs of the queue.  A step is one committed transaction (or the passing
 of time); invariants are proved of every state of every run.
 */
module QueueRuns {
  import opened Options
  import opened Runs
  import opened Tasks

  /** `used` holds every id ever drawn: random UUIDs are taken never to repeat. */
  datatype State = State(rows: Table, used: set<TaskId>, now: Time)

  datatype Call = Heartbeat | Finish | Fail

  datatype Step =
    | Tick(elapsed: nat)
    | Enqueue(id: TaskId, queue: string, typ: string, spec: Option<string>)
    | Dequeue(requested: seq<string>, draw: Draw, got: Option<TaskId>)
    | Update(id: TaskId, progress: string, call: Call)
    | Retain(status: Status, queue: string, typ: string, age: int)

  ghost predicate Init(s: State) {
    s.rows == map[] && s.used == {}
  }

  ghost predicate Next(ttl: nat, s: State, s': State, step: Step) {
    match step
    case Tick(elapsed) => s' == s.(now := s.now + elapsed)
    case Enqueue(id, queue, typ, spec) =>
      && queue != "" && typ != "" && id !in s.used
      && s' == s.(rows := s.rows[id := NewRow(queue, typ, spec, s.now)], used := s.used + {id})
    case Dequeue(requested, draw, got) =>
      && Dequeued(s.rows, s.now, ttl, requested, draw, got, s'.rows)
      && s' == s.(rows := s'.rows)
    case Update(id, progress, call) =>
      s' == s.(rows := Updated(s.rows, id, progress, call != Heartbeat, call == Fail, s.now))
    case Retain(status, queue, typ, age) =>
      s' == s.(rows := Retained(s.rows, status, queue, typ, s.now - age))
  }

  ghost predicate Run(ttl: nat, ss: seq<State>, steps: seq<Step>) {
    && |ss| == |steps| + 1
    && Init(ss[0])
    && forall i {:trigger steps[i]} :: 0 <= i < |steps| ==> Next(ttl, ss[i], ss[i + 1], steps[i])
  }

  // ---- The row invariant.

  predicate Good(r: Row, now: Time) {
    && (r.startedAt.None? <==> r.lastHeartbeatAt.None?)
    && (r.startedAt.None? <==> r.status == Waiting)
    && r.status != Cancelled
    && (r.status == Finished || r.status == Failed ==> r.finishedAt.Some?)
    && (r.finishedAt.Some? ==> r.startedAt.Some?)
    && (r.lastHeartbeatAt.Some? ==> r.lastHeartbeatAt.value <= now)
  }

  ghost predicate Inv(s: State) {
    s.rows.Keys <= s.used && forall id :: id in s.rows ==> Good(s.rows[id], s.now)
  }

  lemma InvStep(ttl: nat, s: State, s': State, step: Step)
    requires Inv(s) && Next(ttl, s, s', step)
    ensures Inv(s')
  {
  }

  lemma {:induction false} InvRun(ttl: nat, ss: seq<State>, steps: seq<Step>, n: nat)
    requires Run(ttl, ss, steps) && n < |ss|
    ensures Inv(ss[n])
  {
    if n > 0 {
      InvRun(ttl, ss, steps, n - 1);
      InvStep(ttl, ss[n - 1], ss[n], steps[n - 1]);
    }
  }

  /** A task handed out is an unfinished row of the table, stamped as running and otherwise unchanged. */
  lemma DeliveredRow(ttl: nat, s: State, s': State, requested: seq<string>, draw: Draw, id: TaskId)
    requires Inv(s) && Next(ttl, s, s', Dequeue(requested, draw, Some(id)))
    ensures id in s.rows && Unfinished(s.rows[id])
    ensures s' == s.(rows := s.rows[id := Stamped(s.rows[id], s.now)])
  {
    assert Good(s.rows[id], s.now);
  }

  /** A row keeps its queue name from its Enqueue on. */
  lemma QueueKept(ttl: nat, s: State, s': State, step: Step, id: TaskId)
    requires Next(ttl, s, s', step) && id in s'.rows
    ensures if step.Enqueue? && step.id == id then s'.rows[id].queue == step.queue
      else id in s.rows && s'.rows[id].queue == s.rows[id].queue
  {
    match step
    case Dequeue(_, _, got) =>
      assert s'.rows == if got.None? then s.rows else s.rows[got.value := Stamped(s.rows[got.value], s.now)];
    case _ =>
  }

  // ---- What a finished task keeps.

  /** From then on: the id stays used, and `finished_at` is set on its row as long as there is one. */
  ghost predicate Over(s: State, id: TaskId) {
    id in s.used && (id in s.rows ==> s.rows[id].finishedAt.Some?)
  }

  lemma OverStep(ttl: nat, s: State, s': State, step: Step, id: TaskId)
    requires Inv(s) && Next(ttl, s, s', step) && Over(s, id)
    ensures Over(s', id)
    ensures step.Dequeue? ==> step.got != Some(id)
    ensures id in s'.rows ==> id in s.rows
    ensures id in s'.rows && s.rows[id].status == Finished ==> s'.rows[id] == s.rows[id]
  {
    assert id in s.rows ==> Good(s.rows[id], s.now);
    if step.Dequeue? && step.got.Some? {
      assert s'.rows == s.rows[step.got.value := Stamped(s.rows[step.got.value], s.now)];
      assert Good(s.rows[step.got.value], s.now);
    }
  }

  /** A task that was finished once is never handed out again, and a row with status finished never changes. */
  lemma {:induction false} FinishedTaskIsOver(ttl: nat, ss: seq<State>, steps: seq<Step>, i: nat, j: nat, id: TaskId)
    requires Run(ttl, ss, steps) && i <= j < |ss|
    requires id in ss[i].rows && ss[i].rows[id].finishedAt.Some?
    ensures Over(ss[j], id)
    ensures j < |steps| && steps[j].Dequeue? ==> steps[j].got != Some(id)
    ensures id in ss[j].rows && ss[i].rows[id].status == Finished ==> ss[j].rows[id] == ss[i].rows[id]
    decreases j
  {
    InvRun(ttl, ss, steps, j);
    if i < j {
      FinishedTaskIsOver(ttl, ss, steps, i, j - 1, id);
      InvRun(ttl, ss, steps, j - 1);
      OverStep(ttl, ss[j - 1], ss[j], steps[j - 1], id);
    } else {
      InvRun(ttl, ss, steps, i);
    }
    if j < |steps| {
      OverStep(ttl, ss[j], ss[j + 1], steps[j], id);
    }
  }

  /** A row leaves the table only after `finished_at` was set on it, whatever the retention jobs ask for. */
  lemma {:induction false} NoTaskIsLost(ttl: nat, ss: seq<State>, steps: seq<Step>, i: nat, j: nat, id: TaskId)
    requires Run(ttl, ss, steps) && i <= j < |ss|
    requires id in ss[i].rows
    ensures id in ss[j].rows || exists k :: i <= k < j && id in ss[k].rows && ss[k].rows[id].finishedAt.Some?
    decreases j
  {
    if i < j {
      NoTaskIsLost(ttl, ss, steps, i, j - 1, id);
      assert Next(ttl, ss[j - 1], ss[j], steps[j - 1]);
    }
  }

  /** Every accepted enqueue is covered by NoTaskIsLost from its own step on. */
  lemma EnqueuedTaskIsKept(ttl: nat, ss: seq<State>, steps: seq<Step>, i: nat, j: nat)
    requires Run(ttl, ss, steps) && i < j < |ss| && steps[i].Enqueue?
    ensures var id := steps[i].id;
      id in ss[j].rows || exists k :: i < k < j && id in ss[k].rows && ss[k].rows[id].finishedAt.Some?
  {
    assert Next(ttl, ss[i], ss[i + 1], steps[i]);
    NoTaskIsLost(ttl, ss, steps, i + 1, j, steps[i].id);
  }

  // ---- Queue-level single flight.

  ghost predicate SingleFlight(ttl: nat, s: State) {
    forall a, b ::
      a in s.rows && b in s.rows && InFlight(s.rows[a], s.now, ttl) && InFlight(s.rows[b], s.now, ttl) &&
      SameName(s.rows[a].queue, s.rows[b].queue) ==>
      a == b
  }

  ghost predicate MayName(t: Table, requested: seq<string>, name: string) {
    if requested == [] then Occurs(t, Unfinished, name) else name in requested
  }

  /**
   The attempt can name a queue by a spelling other than the one of its
   in-flight task, and there is a task to take: SQL ignores case, but the
   in-flight names are removed from the list by exact comparison.
   */
  ghost predicate Clash(ttl: nat, s: State, requested: seq<string>) {
    exists id, name ::
      && id in s.rows && InFlight(s.rows[id], s.now, ttl)
      && MayName(s.rows, requested, name)
      && SameName(name, s.rows[id].queue) && name != s.rows[id].queue
      && !NoneEligible(s.rows, name, s.now, ttl)
  }

  /** A heartbeat that cannot revive an expired lease. */
  ghost predicate Timely(ttl: nat, s: State, id: TaskId) {
    id in s.rows ==> s.rows[id].finishedAt.Some? || InFlight(s.rows[id], s.now, ttl)
  }

  ghost predicate Disciplined(ttl: nat, s: State, step: Step) {
    && (step.Dequeue? ==> !Clash(ttl, s, step.requested))
    && (step.Update? && step.call == Heartbeat ==> Timely(ttl, s, step.id))
  }

  /** The in-flight list spells a queue as its only in-flight task does. */
  lemma ShownSpelling(ttl: nat, s: State, inflight: seq<string>, busy: TaskId, shown: string)
    requires SingleFlight(ttl, s) && DistinctQueues(s.rows, Flying(s.now, ttl), inflight)
    requires busy in s.rows && InFlight(s.rows[busy], s.now, ttl)
    requires shown in inflight && SameName(shown, s.rows[busy].queue)
    ensures shown == s.rows[busy].queue
  {
    var twin := ListedNameOccurs(s.rows, Flying(s.now, ttl), inflight, shown);
    assert twin == busy;
  }

  /** The chosen name has no in-flight task, because the list shows the only one of that queue. */
  lemma ChosenQueueIsFree(ttl: nat, s: State, requested: seq<string>, draw: Draw, id: TaskId, busy: TaskId)
    requires SingleFlight(ttl, s) && !Clash(ttl, s, requested)
    requires ValidDraw(s.rows, s.now, ttl, requested, draw) && Candidates(requested, draw) != []
    requires var name := Candidates(requested, draw)[draw.pick]; id in s.rows && Eligible(s.rows[id], name, s.now, ttl)
    requires busy in s.rows && InFlight(s.rows[busy], s.now, ttl)
    ensures !SameName(s.rows[busy].queue, s.rows[id].queue)
  {
    var name := Candidates(requested, draw)[draw.pick];
    ProcessableMembers(draw.inflight, Potential(requested, draw));
    assert name in Candidates(requested, draw);
    if SameName(s.rows[busy].queue, name) {
      var shown := RowIsListed(s.rows, Flying(s.now, ttl), draw.inflight, busy);
      ShownSpelling(ttl, s, draw.inflight, busy, shown);
      assert MayName(s.rows, requested, name);
      assert Clash(ttl, s, requested);
    }
  }

  lemma SingleFlightStep(ttl: nat, s: State, s': State, step: Step)
    requires Inv(s) && SingleFlight(ttl, s) && Next(ttl, s, s', step) && Disciplined(ttl, s, step)
    ensures SingleFlight(ttl, s')
  {
    if step.Dequeue? && step.got.Some? {
      var id := step.got.value;
      forall busy | busy in s.rows && InFlight(s.rows[busy], s.now, ttl)
        ensures !SameName(s.rows[busy].queue, s.rows[id].queue)
      {
        ChosenQueueIsFree(ttl, s, step.requested, step.draw, id, busy);
      }
    }
  }

  /** With serial attempts, no clash of spellings and timely heartbeats, no queue ever has two tasks in flight. */
  lemma {:induction false} SingleFlightRun(ttl: nat, ss: seq<State>, steps: seq<Step>, n: nat)
    requires Run(ttl, ss, steps) && n < |ss|
    requires forall i :: 0 <= i < n ==> Disciplined(ttl, ss[i], steps[i])
    ensures SingleFlight(ttl, ss[n])
  {
    if n > 0 {
      SingleFlightRun(ttl, ss, steps, n - 1);
      InvRun(ttl, ss, steps, n - 1);
      SingleFlightStep(ttl, ss[n - 1], ss[n], steps[n - 1]);
    }
  }

  // ---- Exactly when one step keeps single flight.

  /** A heartbeat keeps it unless it revives an expired task while another one of the queue is in flight. */
  lemma HeartbeatKeepsSingleFlightIff(ttl: nat, s: State, s': State, id: TaskId, progress: string)
    requires Inv(s) && SingleFlight(ttl, s) && Next(ttl, s, s', Update(id, progress, Heartbeat)) && ttl > 0
    ensures SingleFlight(ttl, s') <==>
      Timely(ttl, s, id) || Gate(s.rows, id) != Ok ||
      forall other :: other in s.rows && InFlight(s.rows[other], s.now, ttl) ==>
        !SameName(s.rows[other].queue, s.rows[id].queue)
  {
    if !Timely(ttl, s, id) && Gate(s.rows, id) == Ok {
      assert InFlight(s'.rows[id], s'.now, ttl);
      forall other | other in s.rows && InFlight(s.rows[other], s.now, ttl)
        ensures other in s'.rows && other != id && InFlight(s'.rows[other], s'.now, ttl)
      {
      }
    }
  }

  /** Completes `seed` to an answer of SELECT DISTINCT queue. */
  lemma CompleteList(t: Table, where: Row -> bool, seed: seq<string>, todo: set<TaskId>) returns (names: seq<string>)
    requires todo <= t.Keys
    requires forall i :: 0 <= i < |seed| ==> Occurs(t, where, seed[i])
    requires forall i, j :: 0 <= i < j < |seed| ==> !SameName(seed[i], seed[j])
    requires forall id :: id in t && id !in todo && where(t[id]) ==> Listed(seed, t[id].queue)
    ensures DistinctQueues(t, where, names) && seed <= names
    decreases todo
  {
    if todo == {} {
      names := seed;
    } else {
      var id :| id in todo;
      if where(t[id]) && !Listed(seed, t[id].queue) {
        var longer := seed + [t[id].queue];
        assert longer[|seed|] == t[id].queue;
        forall other | other in t && other !in todo - {id} && where(t[other])
          ensures Listed(longer, t[other].queue)
        {
          if other != id {
            var i :| 0 <= i < |seed| && SameName(seed[i], t[other].queue);
            assert longer[i] == seed[i];
          }
        }
        names := CompleteList(t, where, longer, todo - {id});
      } else {
        names := CompleteList(t, where, seed, todo - {id});
      }
    }
  }

  lemma NewestExists(t: Table, name: string, now: Time, ttl: nat, todo: set<TaskId>, best: TaskId) returns (id: TaskId)
    requires todo <= t.Keys
    requires best in t && Eligible(t[best], name, now, ttl)
    requires forall other :: other in t && other !in todo && Eligible(t[other], name, now, ttl) ==>
      t[other].createdAt <= t[best].createdAt
    ensures Newest(t, name, now, ttl, id)
    decreases todo
  {
    if todo == {} {
      id := best;
    } else {
      var x :| x in todo;
      var better := if Eligible(t[x], name, now, ttl) && t[best].createdAt < t[x].createdAt then x else best;
      id := NewestExists(t, name, now, ttl, todo - {x}, better);
    }
  }

  lemma PickOf(inflight: seq<string>, potential: seq<string>, name: string) returns (pick: nat)
    requires name in potential && name !in inflight
    ensures pick < |Processable(inflight, potential)| && Processable(inflight, potential)[pick] == name
  {
    ProcessableMembers(inflight, potential);
    var names := Processable(inflight, potential);
    assert name in names;
    pick :| pick < |names| && names[pick] == name;
  }

  lemma PotentialWith(t: Table, requested: seq<string>, name: string) returns (unfinished: seq<string>)
    requires MayName(t, requested, name)
    ensures requested == [] ==> DistinctQueues(t, Unfinished, unfinished)
    ensures name in if requested == [] then unfinished else requested
  {
    unfinished := [];
    if requested == [] {
      unfinished := CompleteList(t, Unfinished, [name], t.Keys);
      assert unfinished[0] == name;
    }
  }

  /** A draw that picks `name`, because the list shows the queue under the other spelling of an in-flight task. */
  lemma DrawOf(ttl: nat, s: State, requested: seq<string>, busy: TaskId, name: string) returns (draw: Draw)
    requires MayName(s.rows, requested, name)
    requires busy in s.rows && InFlight(s.rows[busy], s.now, ttl)
    requires SameName(name, s.rows[busy].queue) && name != s.rows[busy].queue
    ensures ValidDraw(s.rows, s.now, ttl, requested, draw)
    ensures Candidates(requested, draw) != [] && Candidates(requested, draw)[draw.pick] == name
  {
    var other := s.rows[busy].queue;
    assert Occurs(s.rows, Flying(s.now, ttl), [other][0]);
    var inflight := CompleteList(s.rows, Flying(s.now, ttl), [other], s.rows.Keys);
    assert inflight[0] == other;
    var unfinished := PotentialWith(s.rows, requested, name);
    var pick := PickOf(inflight, if requested == [] then unfinished else requested, name);
    draw := Draw(unfinished, inflight, pick);
  }

  /** In a clash some answer of the list queries makes the attempt put a second task of the queue in flight. */
  lemma ClashBreaksSingleFlight(ttl: nat, s: State, requested: seq<string>) returns (draw: Draw, got: TaskId, s': State)
    requires Inv(s) && SingleFlight(ttl, s) && Clash(ttl, s, requested) && ttl > 0
    ensures Next(ttl, s, s', Dequeue(requested, draw, Some(got))) && !SingleFlight(ttl, s')
    ensures got in s.rows && !InFlight(s.rows[got], s.now, ttl)
    ensures s' == s.(rows := s.rows[got := Stamped(s.rows[got], s.now)])
  {
    var busy, name :| busy in s.rows && InFlight(s.rows[busy], s.now, ttl) && MayName(s.rows, requested, name)
      && SameName(name, s.rows[busy].queue) && name != s.rows[busy].queue && !NoneEligible(s.rows, name, s.now, ttl);
    draw := DrawOf(ttl, s, requested, busy, name);
    var some :| some in s.rows && Eligible(s.rows[some], name, s.now, ttl);
    got := NewestExists(s.rows, name, s.now, ttl, s.rows.Keys, some);
    s' := s.(rows := s.rows[got := Stamped(s.rows[got], s.now)]);
    SecondFlight(ttl, s, busy, got);
  }

  lemma SecondFlight(ttl: nat, s: State, busy: TaskId, got: TaskId)
    requires ttl > 0 && Inv(s) && busy in s.rows && InFlight(s.rows[busy], s.now, ttl)
    requires got in s.rows && Eligible(s.rows[got], s.rows[busy].queue, s.now, ttl)
    ensures !SingleFlight(ttl, s.(rows := s.rows[got := Stamped(s.rows[got], s.now)]))
    ensures !InFlight(s.rows[got], s.now, ttl)
  {
    var s' := s.(rows := s.rows[got := Stamped(s.rows[got], s.now)]);
    assert Good(s.rows[got], s.now) && Good(s.rows[busy], s.now) && got != busy;
    assert InFlight(s'.rows[got], s'.now, ttl) && InFlight(s'.rows[busy], s'.now, ttl);
  }

  lemma DequeueKeepsSingleFlightIff(ttl: nat, s: State, requested: seq<string>)
    requires Inv(s) && SingleFlight(ttl, s) && ttl > 0
    ensures (forall draw, got, s' :: Next(ttl, s, s', Dequeue(requested, draw, got)) ==> SingleFlight(ttl, s'))
      <==> !Clash(ttl, s, requested)
  {
    if Clash(ttl, s, requested) {
      var draw, got, s' := ClashBreaksSingleFlight(ttl, s, requested);
    } else {
      forall draw, got, s' | Next(ttl, s, s', Dequeue(requested, draw, got))
        ensures SingleFlight(ttl, s')
      {
        SingleFlightStep(ttl, s, s', Dequeue(requested, draw, got));
      }
    }
  }

  /** With nothing in flight and one queue name in use, the attempt takes its newest eligible task. */
  lemma TakeFromOnlyQueue(ttl: nat, s: State, name: string, id: TaskId)
    requires Newest(s.rows, name, s.now, ttl, id) && Unfinished(s.rows[id])
    requires forall x :: x in s.rows ==> s.rows[x].queue == name && !InFlight(s.rows[x], s.now, ttl)
    ensures var s' := s.(rows := s.rows[id := Stamped(s.rows[id], s.now)]);
      Next(ttl, s, s', Dequeue([], Draw([name], [], 0), Some(id)))
  {
    var draw := Draw([name], [], 0);
    assert Occurs(s.rows, Unfinished, draw.unfinished[0]);
    assert Listed([name], name) by {
      assert SameName([name][0], name);
    }
    LoneNameIsProcessable(name);
  }

  lemma ExtendRun(ttl: nat, ss: seq<State>, steps: seq<Step>, s': State, step: Step)
    requires Run(ttl, ss, steps) && Next(ttl, ss[|ss| - 1], s', step)
    ensures Run(ttl, ss + [s'], steps + [step])
  {
    LinkedExtends((s, t, a) => Next(ttl, s, t, a), ss, steps, s', step);
  }

  /** The state after one task was queued and taken at time 0. */
  lemma FirstTaskRun(ttl: nat, name: string) returns (ss: seq<State>, steps: seq<Step>)
    requires name != ""
    ensures Run(ttl, ss, steps)
    ensures ss[|ss| - 1] == State(map[0 := Stamped(NewRow(name, "t", None, 0), 0)], {0}, 0)
  {
    var s0 := State(map[], {}, 0);
    var s1 := State(map[0 := NewRow(name, "t", None, 0)], {0}, 0);
    assert Run(ttl, [s0], []);
    ExtendRun(ttl, [s0], [], s1, Enqueue(0, name, "t", None));
    assert Newest(s1.rows, name, 0, ttl, 0);
    TakeFromOnlyQueue(ttl, s1, name, 0);
    var s2 := s1.(rows := s1.rows[0 := Stamped(s1.rows[0], 0)]);
    var take := Dequeue([], Draw([name], [], 0), Some(0));
    ss, steps := [s0] + [s1], [] + [Enqueue(0, name, "t", None)];
    ExtendRun(ttl, ss, steps, s2, take);
    ss, steps := ss + [s2], steps + [take];
  }

  lemma MixedSpellingClashes(ttl: nat, s: State)
    requires ttl > 0 && s.now == 0 && s.used == {0, 1}
    requires s.rows == MixedRows(NewRow("a", "t", None, 0))
    ensures Inv(s) && SingleFlight(ttl, s) && Clash(ttl, s, [])
  {
    assert Fold("A") == Fold("a");
    assert "A" != "a" by {
      assert "A"[0] != "a"[0];
    }
    assert Eligible(s.rows[1], "a", 0, ttl) && InFlight(s.rows[0], 0, ttl);
    assert MayName(s.rows, [], "a") by {
      assert Unfinished(s.rows[1]) && s.rows[1].queue == "a";
    }
  }

  function MixedRows(second: Row): Table {
    map[0 := Stamped(NewRow("A", "t", None, 0), 0), 1 := second]
  }

  /** From the empty table: a task queued as "A" is taken, one queued as "a" follows, and both are in flight. */
  lemma MixedSpellingRun(ttl: nat) returns (ss: seq<State>, steps: seq<Step>)
    requires ttl > 0
    ensures Run(ttl, ss, steps) && !SingleFlight(ttl, ss[|ss| - 1])
    ensures ss[|ss| - 1] == State(MixedRows(Stamped(NewRow("a", "t", None, 0), 0)), {0, 1}, 0)
  {
    ss, steps := FirstTaskRun(ttl, "A");
    var s := State(MixedRows(NewRow("a", "t", None, 0)), {0, 1}, 0);
    ExtendRun(ttl, ss, steps, s, Enqueue(1, "a", "t", None));
    ss, steps := ss + [s], steps + [Enqueue(1, "a", "t", None)];
    var s', take := SecondSpellingIsTaken(ttl, s);
    ExtendRun(ttl, ss, steps, s', take);
    ss, steps := ss + [s'], steps + [take];
  }

  lemma SecondSpellingIsTaken(ttl: nat, s: State) returns (s': State, take: Step)
    requires ttl > 0 && s == State(MixedRows(NewRow("a", "t", None, 0)), {0, 1}, 0)
    ensures Next(ttl, s, s', take) && !SingleFlight(ttl, s')
    ensures s' == State(MixedRows(Stamped(NewRow("a", "t", None, 0), 0)), {0, 1}, 0)
  {
    MixedSpellingClashes(ttl, s);
    var draw, got;
    draw, got, s' := ClashBreaksSingleFlight(ttl, s, []);
    OnlyOneIsLeft(ttl, NewRow("a", "t", None, 0), got);
    take := Dequeue([], draw, Some(got));
  }

  lemma OnlyOneIsLeft(ttl: nat, second: Row, got: TaskId)
    requires ttl > 0 && got in MixedRows(second) && !InFlight(MixedRows(second)[got], 0, ttl)
    ensures MixedRows(second)[got := Stamped(MixedRows(second)[got], 0)] == MixedRows(Stamped(second, 0))
  {
    assert got == 1;
  }

  // ---- Completeness of a serial attempt.

  /** Unfinished tasks of one queue spell its name alike. */
  ghost predicate OneSpelling(t: Table) {
    forall a, b :: a in t && b in t && Unfinished(t[a]) && Unfinished(t[b]) && SameName(t[a].queue, t[b].queue) ==>
      t[a].queue == t[b].queue
  }

  ghost predicate HasInFlight(ttl: nat, s: State, name: string) {
    exists id :: id in s.rows && InFlight(s.rows[id], s.now, ttl) && SameName(s.rows[id].queue, name)
  }

  /** Every queue with unfinished work has a task in flight. */
  ghost predicate AllBusy(ttl: nat, s: State) {
    forall id :: id in s.rows && Unfinished(s.rows[id]) ==> HasInFlight(ttl, s, s.rows[id].queue)
  }

  /** All unfinished tasks of the queue have a heartbeat exactly twice the ttl old. */
  ghost predicate OnBoundary(ttl: nat, s: State, name: string) {
    forall id :: id in s.rows && Unfinished(s.rows[id]) && SameName(s.rows[id].queue, name) ==>
      s.rows[id].lastHeartbeatAt == Some(s.now - 2 * ttl)
  }

  lemma NoCandidatesMeansAllBusy(ttl: nat, s: State, draw: Draw)
    requires ValidDraw(s.rows, s.now, ttl, [], draw) && Candidates([], draw) == []
    ensures AllBusy(ttl, s)
  {
    ProcessableMembers(draw.inflight, draw.unfinished);
    forall id | id in s.rows && Unfinished(s.rows[id])
      ensures HasInFlight(ttl, s, s.rows[id].queue)
    {
      var shown := RowIsListed(s.rows, Unfinished, draw.unfinished, id);
      var busy := ListedNameOccurs(s.rows, Flying(s.now, ttl), draw.inflight, shown);
    }
  }

  /** All unfinished tasks of the queue are in flight or exactly on the boundary between in flight and expired. */
  ghost predicate NothingToTake(ttl: nat, s: State, name: string) {
    forall id :: id in s.rows && Unfinished(s.rows[id]) && SameName(s.rows[id].queue, name) ==>
      InFlight(s.rows[id], s.now, ttl) || s.rows[id].lastHeartbeatAt == Some(s.now - 2 * ttl)
  }

  lemma NothingToTakeIff(ttl: nat, s: State, name: string)
    requires Inv(s)
    ensures NoneEligible(s.rows, name, s.now, ttl) <==> NothingToTake(ttl, s, name)
  {
    forall id | id in s.rows && SameName(s.rows[id].queue, name)
      ensures !Eligible(s.rows[id], name, s.now, ttl) <==>
        (Unfinished(s.rows[id]) ==>
          InFlight(s.rows[id], s.now, ttl) || s.rows[id].lastHeartbeatAt == Some(s.now - 2 * ttl))
    {
      assert Good(s.rows[id], s.now);
    }
  }

  /**
   An attempt comes back empty exactly when no name is left after the in-flight
   ones were removed, or the drawn queue has only tasks that are in flight or on
   the boundary; otherwise it takes a task, whichever queue is drawn.
   */
  lemma DequeueEmptyIff(ttl: nat, s: State, s': State, requested: seq<string>, draw: Draw, got: Option<TaskId>)
    requires Inv(s) && Next(ttl, s, s', Dequeue(requested, draw, got))
    ensures got.None? <==>
      Candidates(requested, draw) == [] || NothingToTake(ttl, s, Candidates(requested, draw)[draw.pick])
  {
    if Candidates(requested, draw) != [] {
      NothingToTakeIff(ttl, s, Candidates(requested, draw)[draw.pick]);
    }
  }

  // ---- When an empty answer means that all queues are busy.

  /** What the documentation of an empty answer amounts to, for an attempt over all queues. */
  ghost predicate Explained(ttl: nat, s: State, draw: Draw, got: Option<TaskId>)
    requires ValidDraw(s.rows, s.now, ttl, [], draw)
  {
    got.None? <==>
      AllBusy(ttl, s) || (Candidates([], draw) != [] && OnBoundary(ttl, s, Candidates([], draw)[draw.pick]))
  }

  /** A queue with a task in flight can be drawn under the spelling of another unfinished task. */
  ghost predicate Muddled(ttl: nat, s: State, busy: TaskId, other: TaskId) {
    && busy in s.rows && other in s.rows && InFlight(s.rows[busy], s.now, ttl) && Unfinished(s.rows[other])
    && SameName(s.rows[busy].queue, s.rows[other].queue) && s.rows[busy].queue != s.rows[other].queue
  }

  /** Such a queue misleads: it is drawn in vain while another queue is free, or has a task when all are busy. */
  ghost predicate Misleading(ttl: nat, s: State, other: TaskId)
    requires other in s.rows
  {
    NothingToTake(ttl, s, s.rows[other].queue) != AllBusy(ttl, s)
  }

  /** A name drawn although its queue has a task in flight is spelled unlike one of these. */
  lemma DrawnBusyQueueIsMuddled(ttl: nat, s: State, draw: Draw, name: string) returns (busy: TaskId, other: TaskId)
    requires ValidDraw(s.rows, s.now, ttl, [], draw) && name in Candidates([], draw) && HasInFlight(ttl, s, name)
    ensures Muddled(ttl, s, busy, other) && s.rows[other].queue == name
  {
    ProcessableMembers(draw.inflight, draw.unfinished);
    other := ListedNameOccurs(s.rows, Unfinished, draw.unfinished, name);
    var flying :| flying in s.rows && InFlight(s.rows[flying], s.now, ttl) && SameName(s.rows[flying].queue, name);
    var shown := RowIsListed(s.rows, Flying(s.now, ttl), draw.inflight, flying);
    busy := ListedNameOccurs(s.rows, Flying(s.now, ttl), draw.inflight, shown);
  }

  /** A drawn queue with nothing in flight: its unfinished tasks leave only the boundary. */
  lemma DrawnFreeQueue(ttl: nat, s: State, draw: Draw, name: string)
    requires ValidDraw(s.rows, s.now, ttl, [], draw) && name in Candidates([], draw) && !HasInFlight(ttl, s, name)
    ensures !AllBusy(ttl, s) && (NothingToTake(ttl, s, name) <==> OnBoundary(ttl, s, name))
  {
    ProcessableMembers(draw.inflight, draw.unfinished);
    var id := ListedNameOccurs(s.rows, Unfinished, draw.unfinished, name);
  }

  lemma DrawnBusyQueue(ttl: nat, s: State, draw: Draw, name: string)
    requires ValidDraw(s.rows, s.now, ttl, [], draw) && name in Candidates([], draw) && HasInFlight(ttl, s, name)
    requires forall busy, other :: Muddled(ttl, s, busy, other) ==> !Misleading(ttl, s, other)
    ensures !OnBoundary(ttl, s, name) && (NothingToTake(ttl, s, name) <==> AllBusy(ttl, s))
  {
    var busy, other := DrawnBusyQueueIsMuddled(ttl, s, draw, name);
    assert !Misleading(ttl, s, other);
  }

  lemma ExplainedAttempt(ttl: nat, s: State, s': State, draw: Draw, got: Option<TaskId>)
    requires Inv(s) && Next(ttl, s, s', Dequeue([], draw, got))
    requires forall busy, other :: Muddled(ttl, s, busy, other) ==> !Misleading(ttl, s, other)
    ensures Explained(ttl, s, draw, got)
  {
    DequeueEmptyIff(ttl, s, s', [], draw, got);
    if Candidates([], draw) == [] {
      NoCandidatesMeansAllBusy(ttl, s, draw);
    } else {
      var name := Candidates([], draw)[draw.pick];
      assert name in Candidates([], draw);
      if HasInFlight(ttl, s, name) {
        DrawnBusyQueue(ttl, s, draw, name);
      } else {
        DrawnFreeQueue(ttl, s, draw, name);
      }
    }
  }

  /** A misleading queue can be drawn, and then the answer is not explained. */
  lemma MisleadingAttempt(ttl: nat, s: State, busy: TaskId, other: TaskId)
    returns (draw: Draw, got: Option<TaskId>, s': State)
    requires Inv(s) && Muddled(ttl, s, busy, other) && Misleading(ttl, s, other)
    ensures Next(ttl, s, s', Dequeue([], draw, got)) && !Explained(ttl, s, draw, got)
  {
    var name := s.rows[other].queue;
    assert MayName(s.rows, [], name);
    draw := DrawOf(ttl, s, [], busy, name);
    NothingToTakeIff(ttl, s, name);
    if NoneEligible(s.rows, name, s.now, ttl) {
      got, s' := None, s;
    } else {
      var some :| some in s.rows && Eligible(s.rows[some], name, s.now, ttl);
      var id := NewestExists(s.rows, name, s.now, ttl, s.rows.Keys, some);
      got, s' := Some(id), s.(rows := s.rows[id := Stamped(s.rows[id], s.now)]);
    }
    assert !OnBoundary(ttl, s, name);
  }

  /**
   Every attempt over all queues comes back empty exactly when all queues with
   unfinished work are busy or the drawn one is on the boundary, if and only if
   no queue that is in flight under two spellings misleads.
   */
  lemma EmptyIsExplainedIff(ttl: nat, s: State)
    requires Inv(s)
    ensures (forall draw, got, s' :: Next(ttl, s, s', Dequeue([], draw, got)) ==> Explained(ttl, s, draw, got))
      <==> forall busy, other :: Muddled(ttl, s, busy, other) ==> !Misleading(ttl, s, other)
  {
    if busy, other :| Muddled(ttl, s, busy, other) && Misleading(ttl, s, other) {
      var draw, got, s' := MisleadingAttempt(ttl, s, busy, other);
    } else {
      forall draw, got, s' | Next(ttl, s, s', Dequeue([], draw, got))
        ensures Explained(ttl, s, draw, got)
      {
        ExplainedAttempt(ttl, s, s', draw, got);
      }
    }
  }

  /** In particular where the unfinished tasks of a queue spell its name alike. */
  lemma EmptyIsExplained(ttl: nat, s: State, s': State, draw: Draw, got: Option<TaskId>)
    requires Inv(s) && OneSpelling(s.rows) && Next(ttl, s, s', Dequeue([], draw, got))
    ensures Explained(ttl, s, draw, got)
  {
    ExplainedAttempt(ttl, s, s', draw, got);
  }

  /** From the empty table: "A" and "a" are in flight, "b" is free and not on the boundary, and yet nothing is taken. */
  lemma FreeQueueIsMissedRun(ttl: nat) returns (ss: seq<State>, steps: seq<Step>, draw: Draw)
    requires ttl > 0
    ensures Run(ttl, ss, steps) && steps != [] && steps[|steps| - 1] == Dequeue([], draw, None)
    ensures var s := ss[|ss| - 1]; 2 in s.rows && s.rows[2] == NewRow("b", "t", None, 0) && !HasInFlight(ttl, s, "b")
  {
    ss, steps := MixedSpellingRun(ttl);
    var s := ss[|ss| - 1];
    var s' := State(s.rows[2 := NewRow("b", "t", None, 0)], {0, 1, 2}, 0);
    ExtendRun(ttl, ss, steps, s', Enqueue(2, "b", "t", None));
    ss, steps := ss + [s'], steps + [Enqueue(2, "b", "t", None)];
    FreeQueueIsMisled(ttl, s');
    var got, s'';
    draw, got, s'' := MisleadingAttempt(ttl, s', 0, 1);
    assert got.None?;
    ExtendRun(ttl, ss, steps, s'', Dequeue([], draw, None));
    ss, steps := ss + [s''], steps + [Dequeue([], draw, None)];
  }

  lemma FreeQueueIsMisled(ttl: nat, s: State)
    requires ttl > 0 && s.now == 0 && s.used == {0, 1, 2}
    requires s.rows == MixedRows(Stamped(NewRow("a", "t", None, 0), 0))[2 := NewRow("b", "t", None, 0)]
    ensures Inv(s) && Muddled(ttl, s, 0, 1) && !HasInFlight(ttl, s, "b")
    ensures NothingToTake(ttl, s, "a") && !AllBusy(ttl, s)
  {
    assert Fold("A") == Fold("a");
    assert "A" != "a" by {
      assert "A"[0] != "a"[0];
    }
    assert !SameName("A", "b") && !SameName("a", "b") by {
      assert Fold("A")[0] == 'a' && Fold("a")[0] == 'a' && Fold("b")[0] == 'b';
    }
    assert Unfinished(s.rows[2]);
  }
}
