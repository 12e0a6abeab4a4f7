/**
 Any number of attemptDequeue and updateProgress calls interleaved.  An attempt
 reads the clock first, runs the two list queries outside its transaction, locks
 a row with its select and commits the update later; an update reads the clock
 before it waits for the row.  Only the row locks order the calls.
 */
module DequeueRaces {
  import opened Options
  import opened Runs
  import opened Tasks
  import opened QueueRuns

  type WorkerId = nat

  /** How far an open call has come; `at` is its clock reading. */
  datatype Attempt =
    | Clocked(at: Time)
    | Surveyed(at: Time, potential: seq<string>)
    | Chosen(at: Time, name: string)
    | Locked(at: Time, id: TaskId)
    | Reporting(at: Time, id: TaskId, progress: string, call: Call)

  /** `log` keeps, per task, the clock readings of its deliveries in the order of their commits. */
  datatype World = World(
    q: State, attempts: map<WorkerId, Attempt>, locks: map<TaskId, WorkerId>, log: map<TaskId, seq<Time>>)

  datatype Move =
    | Other(step: Step)
    | ReadClock(w: WorkerId)
    | ReadPotential(w: WorkerId, requested: seq<string>, unfinished: seq<string>)
    | ReadInflight(w: WorkerId, inflight: seq<string>, pick: nat)
    | Select(w: WorkerId, got: Option<TaskId>)
    | Commit(w: WorkerId)
    | StartUpdate(w: WorkerId, id: TaskId, progress: string, call: Call)
    | ApplyUpdate(w: WorkerId)
    | Abort(w: WorkerId)

  function Deliveries(s: World, id: TaskId): seq<Time> {
    if id in s.log then s.log[id] else []
  }

  function Unlocked(s: World, w: WorkerId): map<TaskId, WorkerId> {
    map id | id in s.locks && s.locks[id] != w :: s.locks[id]
  }

  /** The table after the update that call `a` is about to make. */
  function Reported(s: World, a: Attempt): Table
    requires a.Reporting?
  {
    Updated(s.q.rows, a.id, a.progress, a.call != Heartbeat, a.call == Fail, a.at)
  }

  ghost predicate Start(s: World) {
    Init(s.q) && s.attempts == map[] && s.locks == map[] && s.log == map[]
  }

  /** `lag` bounds the time from the clock reading of an update to its write. */
  ghost predicate Moves(ttl: nat, lag: nat, s: World, s': World, m: Move) {
    match m
    case Other(step) =>
      !step.Dequeue? && !step.Update? && Next(ttl, s.q, s'.q, step) && s' == s.(q := s'.q)
    case ReadClock(w) =>
      w !in s.attempts && s' == s.(attempts := s.attempts[w := Clocked(s.q.now)])
    case ReadPotential(w, requested, unfinished) =>
      && w in s.attempts && s.attempts[w].Clocked?
      && (requested == [] ==> DistinctQueues(s.q.rows, Unfinished, unfinished))
      && var potential := if requested == [] then unfinished else requested;
         s' == s.(attempts := s.attempts[w := Surveyed(s.attempts[w].at, potential)])
    case ReadInflight(w, inflight, pick) =>
      && w in s.attempts && s.attempts[w].Surveyed?
      && DistinctQueues(s.q.rows, Flying(s.attempts[w].at, ttl), inflight)
      && var names := Processable(inflight, s.attempts[w].potential);
         if names == [] then
           s' == s.(attempts := s.attempts - {w})
         else
           pick < |names| && s' == s.(attempts := s.attempts[w := Chosen(s.attempts[w].at, names[pick])])
    case Select(w, got) =>
      && w in s.attempts && s.attempts[w].Chosen?
      && (match got
          case None => s' == s.(attempts := s.attempts - {w})
          case Some(id) =>
            // the row is matched again after its lock was granted
            && id in s.q.rows && id !in s.locks && Eligible(s.q.rows[id], s.attempts[w].name, s.attempts[w].at, ttl)
            && s' == s.(attempts := s.attempts[w := Locked(s.attempts[w].at, id)], locks := s.locks[id := w]))
    case Commit(w) =>
      && w in s.attempts && s.attempts[w].Locked? && s.attempts[w].id in s.q.rows
      && var id, at := s.attempts[w].id, s.attempts[w].at;
         s' == World(
           s.q.(rows := s.q.rows[id := Stamped(s.q.rows[id], at)]), s.attempts - {w}, Unlocked(s, w),
           s.log[id := Deliveries(s, id) + [at]])
    case StartUpdate(w, id, progress, call) =>
      w !in s.attempts && s' == s.(attempts := s.attempts[w := Reporting(s.q.now, id, progress, call)])
    case ApplyUpdate(w) =>
      // the row lock, the status gate and the write: an attempt that has the lock comes first
      && w in s.attempts && s.attempts[w].Reporting? && s.attempts[w].id !in s.locks
      && s.q.now - s.attempts[w].at <= lag
      && s' == s.(q := s.q.(rows := Reported(s, s.attempts[w])), attempts := s.attempts - {w})
    case Abort(w) =>
      w in s.attempts && s' == s.(attempts := s.attempts - {w}, locks := Unlocked(s, w))
  }

  ghost predicate Races(ttl: nat, lag: nat, ss: seq<World>, moves: seq<Move>) {
    && |ss| == |moves| + 1
    && Start(ss[0])
    && forall i {:trigger moves[i]} :: 0 <= i < |moves| ==> Moves(ttl, lag, ss[i], ss[i + 1], moves[i])
  }

  // ---- The invariant.

  /** What a lock holder may still rely on when it commits. */
  ghost predicate Claim(ttl: nat, s: World, w: WorkerId)
    requires w in s.attempts
  {
    s.attempts[w].Locked? ==>
      var id, at := s.attempts[w].id, s.attempts[w].at;
      && id in s.locks && s.locks[id] == w && id in s.q.rows
      && (s.q.rows[id].startedAt.None? || Expired(s.q.rows[id], at, ttl))
  }

  predicate Spaced(gap: int, log: seq<Time>) {
    forall k :: 0 <= k < |log| - 1 ==> log[k] + gap < log[k + 1]
  }

  /** The row's heartbeat is older than its last delivery by the lag at most. */
  ghost predicate LogFits(ttl: nat, lag: nat, s: World, id: TaskId)
    requires id in s.log
  {
    var log := s.log[id];
    && Spaced(2 * ttl - lag, log) && log != [] && id in s.q.used && log[|log| - 1] <= s.q.now
    && (id in s.q.rows ==>
        s.q.rows[id].lastHeartbeatAt.Some? && log[|log| - 1] - lag <= s.q.rows[id].lastHeartbeatAt.value)
  }

  ghost predicate Safe(ttl: nat, lag: nat, s: World) {
    && Inv(s.q)
    && (forall w :: w in s.attempts ==> s.attempts[w].at <= s.q.now && Claim(ttl, s, w))
    && (forall id :: id in s.locks ==>
        s.locks[id] in s.attempts && s.attempts[s.locks[id]].Locked? && s.attempts[s.locks[id]].id == id)
    && (forall id :: id in s.log ==> LogFits(ttl, lag, s, id))
  }

  lemma CommitIsSafe(ttl: nat, lag: nat, s: World, s': World, w: WorkerId)
    requires Safe(ttl, lag, s) && Moves(ttl, lag, s, s', Commit(w))
    ensures Safe(ttl, lag, s')
  {
    var id, at := s.attempts[w].id, s.attempts[w].at;
    assert Claim(ttl, s, w);
    assert Good(s.q.rows[id], s.q.now);
    forall v | v in s'.attempts
      ensures s'.attempts[v].at <= s'.q.now && Claim(ttl, s', v)
    {
      assert Claim(ttl, s, v);
    }
    forall x | x in s'.log
      ensures LogFits(ttl, lag, s', x)
    {
      CommitLogFits(ttl, lag, s, s', w, x);
    }
  }

  lemma CommitLogFits(ttl: nat, lag: nat, s: World, s': World, w: WorkerId, x: TaskId)
    requires Safe(ttl, lag, s) && Moves(ttl, lag, s, s', Commit(w)) && x in s'.log
    ensures LogFits(ttl, lag, s', x)
  {
    assert Claim(ttl, s, w) && Good(s.q.rows[s.attempts[w].id], s.q.now);
    if x in s.log {
      assert LogFits(ttl, lag, s, x);
    }
  }

  lemma OtherIsSafe(ttl: nat, lag: nat, s: World, s': World, step: Step)
    requires Safe(ttl, lag, s) && Moves(ttl, lag, s, s', Other(step))
    ensures Safe(ttl, lag, s')
  {
    InvStep(ttl, s.q, s'.q, step);
    forall w | w in s'.attempts
      ensures Claim(ttl, s', w)
    {
      assert Claim(ttl, s, w);
      if s.attempts[w].Locked? {
        assert Good(s.q.rows[s.attempts[w].id], s.q.now);
      }
    }
    forall id | id in s'.log
      ensures LogFits(ttl, lag, s', id)
    {
      assert LogFits(ttl, lag, s, id);
    }
  }

  lemma UpdateIsSafe(ttl: nat, lag: nat, s: World, s': World, w: WorkerId)
    requires Safe(ttl, lag, s) && Moves(ttl, lag, s, s', ApplyUpdate(w))
    ensures Safe(ttl, lag, s')
  {
    var id := s.attempts[w].id;
    assert id in s.q.rows ==> Good(s.q.rows[id], s.q.now);
    forall v | v in s'.attempts
      ensures s'.attempts[v].at <= s'.q.now && Claim(ttl, s', v)
    {
      assert Claim(ttl, s, v);
    }
    forall x | x in s'.log
      ensures LogFits(ttl, lag, s', x)
    {
      assert LogFits(ttl, lag, s, x);
    }
  }

  /** The moves of an open call before its write leave the table and the log alone. */
  lemma AttemptIsSafe(ttl: nat, lag: nat, s: World, s': World, m: Move)
    requires Safe(ttl, lag, s) && Moves(ttl, lag, s, s', m) && !m.Other? && !m.Commit? && !m.ApplyUpdate?
    ensures Safe(ttl, lag, s')
  {
    assert s'.q == s.q && s'.log == s.log;
    forall w | w in s'.attempts
      ensures s'.attempts[w].at <= s'.q.now && Claim(ttl, s', w)
    {
      if w in s.attempts {
        assert Claim(ttl, s, w);
      }
    }
    forall id | id in s'.log
      ensures LogFits(ttl, lag, s', id)
    {
      assert LogFits(ttl, lag, s, id);
    }
  }

  lemma SafeStep(ttl: nat, lag: nat, s: World, s': World, m: Move)
    requires Safe(ttl, lag, s) && Moves(ttl, lag, s, s', m)
    ensures Safe(ttl, lag, s')
  {
    if m.Other? {
      OtherIsSafe(ttl, lag, s, s', m.step);
    } else if m.Commit? {
      CommitIsSafe(ttl, lag, s, s', m.w);
    } else if m.ApplyUpdate? {
      UpdateIsSafe(ttl, lag, s, s', m.w);
    } else {
      AttemptIsSafe(ttl, lag, s, s', m);
    }
  }

  lemma {:induction false} SafeRun(ttl: nat, lag: nat, ss: seq<World>, moves: seq<Move>, n: nat)
    requires Races(ttl, lag, ss, moves) && n < |ss|
    ensures Safe(ttl, lag, ss[n])
  {
    if n > 0 {
      SafeRun(ttl, lag, ss, moves, n - 1);
      SafeStep(ttl, lag, ss[n - 1], ss[n], moves[n - 1]);
    }
  }

  // ---- Heartbeats and redeliveries, up to the lag of the updates.

  /** The row has a heartbeat at most the lag before `since`, which is past. */
  ghost predicate BeatenSince(lag: nat, s: World, id: TaskId, since: Time) {
    && id in s.q.used && since <= s.q.now
    && (id in s.q.rows ==>
        s.q.rows[id].lastHeartbeatAt.Some? && since - lag <= s.q.rows[id].lastHeartbeatAt.value)
  }

  lemma BeatenStep(ttl: nat, lag: nat, s: World, s': World, m: Move, id: TaskId, since: Time)
    requires Safe(ttl, lag, s) && Moves(ttl, lag, s, s', m) && BeatenSince(lag, s, id, since)
    ensures BeatenSince(lag, s', id, since)
  {
    assert id in s.q.rows ==> Good(s.q.rows[id], s.q.now);
    if m.Commit? {
      assert Claim(ttl, s, m.w);
    }
  }

  /** In any interleaving the heartbeat of a row goes back by the lag at most. */
  lemma {:induction false} HeartbeatGoesBackByLag(
    ttl: nat, lag: nat, ss: seq<World>, moves: seq<Move>, i: nat, j: nat, id: TaskId)
    requires Races(ttl, lag, ss, moves) && i <= j < |ss|
    requires id in ss[i].q.rows && ss[i].q.rows[id].lastHeartbeatAt.Some?
    ensures BeatenSince(lag, ss[j], id, ss[i].q.rows[id].lastHeartbeatAt.value)
    decreases j
  {
    if i < j {
      HeartbeatGoesBackByLag(ttl, lag, ss, moves, i, j - 1, id);
      SafeRun(ttl, lag, ss, moves, j - 1);
      BeatenStep(ttl, lag, ss[j - 1], ss[j], moves[j - 1], id, ss[i].q.rows[id].lastHeartbeatAt.value);
    } else {
      SafeRun(ttl, lag, ss, moves, i);
      assert Good(ss[i].q.rows[id], ss[i].q.now);
    }
  }

  /** A redelivery reads a clock more than twice the ttl, less the lag, past the delivery before it. */
  lemma RedeliveriesAreSpaced(ttl: nat, lag: nat, ss: seq<World>, moves: seq<Move>, n: nat, id: TaskId)
    requires Races(ttl, lag, ss, moves) && n < |ss|
    ensures Spaced(2 * ttl - lag, Deliveries(ss[n], id))
  {
    SafeRun(ttl, lag, ss, moves, n);
  }

  // ---- No redelivery of a finished task.

  lemma OverMove(ttl: nat, lag: nat, s: World, s': World, m: Move, id: TaskId)
    requires Safe(ttl, lag, s) && Moves(ttl, lag, s, s', m) && Over(s.q, id)
    ensures Over(s'.q, id) && Deliveries(s', id) == Deliveries(s, id)
    ensures m.Commit? ==> s.attempts[m.w].id != id
  {
    if m.Other? {
      OverStep(ttl, s.q, s'.q, m.step, id);
    } else if m.Commit? {
      assert Claim(ttl, s, m.w) && Good(s.q.rows[s.attempts[m.w].id], s.q.now);
    }
  }

  /** A delivery is stamped and logged with the clock reading of its attempt, however late it commits. */
  lemma CommitColumns(ttl: nat, lag: nat, ss: seq<World>, moves: seq<Move>, n: nat)
    requires Races(ttl, lag, ss, moves) && n < |moves| && moves[n].Commit?
    ensures moves[n].w in ss[n].attempts && ss[n].attempts[moves[n].w].Locked?
    ensures var id, at := ss[n].attempts[moves[n].w].id, ss[n].attempts[moves[n].w].at;
      && id in ss[n].q.rows && id in ss[n + 1].q.rows && at <= ss[n].q.now
      && Deliveries(ss[n + 1], id) == Deliveries(ss[n], id) + [at]
      && var r, r' := ss[n].q.rows[id], ss[n + 1].q.rows[id];
         && r'.startedAt == r'.lastHeartbeatAt == Some(at) && r'.status == Running
         && r'.queue == r.queue && r'.typ == r.typ && r'.spec == r.spec && r'.createdAt == r.createdAt
         && r'.progress == r.progress && r'.finishedAt == r.finishedAt == None
  {
    SafeRun(ttl, lag, ss, moves, n);
    CommitColumnsStep(ttl, lag, ss[n], ss[n + 1], moves[n].w);
  }

  lemma CommitColumnsStep(ttl: nat, lag: nat, s: World, s': World, w: WorkerId)
    requires Safe(ttl, lag, s) && Moves(ttl, lag, s, s', Commit(w))
    ensures w in s.attempts && s.attempts[w].Locked?
    ensures var id, at := s.attempts[w].id, s.attempts[w].at;
      && id in s.q.rows && id in s'.q.rows && at <= s.q.now && Deliveries(s', id) == Deliveries(s, id) + [at]
      && s'.q.rows[id] == s.q.rows[id].(startedAt := Some(at), lastHeartbeatAt := Some(at), status := Running)
      && s.q.rows[id].finishedAt == None
  {
    assert Claim(ttl, s, w) && Good(s.q.rows[s.attempts[w].id], s.q.now);
  }

  /** Whatever is in progress when a task is finished, it is not handed out any more. */
  lemma {:induction false} FinishedIsNotDelivered(
    ttl: nat, lag: nat, ss: seq<World>, moves: seq<Move>, i: nat, j: nat, id: TaskId)
    requires Races(ttl, lag, ss, moves) && i <= j < |ss|
    requires id in ss[i].q.rows && ss[i].q.rows[id].finishedAt.Some?
    ensures Over(ss[j].q, id) && Deliveries(ss[j], id) == Deliveries(ss[i], id)
    ensures j < |moves| && moves[j].Commit? ==>
      moves[j].w in ss[j].attempts && ss[j].attempts[moves[j].w].Locked? && ss[j].attempts[moves[j].w].id != id
    decreases j
  {
    SafeRun(ttl, lag, ss, moves, j);
    if i < j {
      FinishedIsNotDelivered(ttl, lag, ss, moves, i, j - 1, id);
      SafeRun(ttl, lag, ss, moves, j - 1);
      OverMove(ttl, lag, ss[j - 1], ss[j], moves[j - 1], id);
    }
    if j < |moves| {
      OverMove(ttl, lag, ss[j], ss[j + 1], moves[j], id);
    }
  }

  // ---- Runs that show what is not promised.

  lemma Extend(ttl: nat, lag: nat, ss: seq<World>, moves: seq<Move>, s': World, m: Move)
    returns (ss': seq<World>, moves': seq<Move>)
    requires Races(ttl, lag, ss, moves) && Moves(ttl, lag, ss[|ss| - 1], s', m)
    ensures Races(ttl, lag, ss', moves') && ss' == ss + [s']
  {
    LinkedExtends((s, t, a) => Moves(ttl, lag, s, t, a), ss, moves, s', m);
    ss', moves' := ss + [s'], moves + [m];
  }

  lemma WaitRun(ttl: nat, lag: nat, ss: seq<World>, moves: seq<Move>, elapsed: nat)
    returns (ss': seq<World>, moves': seq<Move>)
    requires Races(ttl, lag, ss, moves)
    ensures Races(ttl, lag, ss', moves')
    ensures var s := ss[|ss| - 1]; ss'[|ss'| - 1] == s.(q := s.q.(now := s.q.now + elapsed))
  {
    var s := ss[|ss| - 1];
    var s' := s.(q := s.q.(now := s.q.now + elapsed));
    assert Next(ttl, s.q, s'.q, Tick(elapsed));
    ss', moves' := Extend(ttl, lag, ss, moves, s', Other(Tick(elapsed)));
  }

  /** Worker `w` opens an attempt on queue "q" while nothing is in flight, and gets as far as choosing it. */
  lemma ChooseRun(ttl: nat, lag: nat, ss: seq<World>, moves: seq<Move>, w: WorkerId)
    returns (ss': seq<World>, moves': seq<Move>)
    requires Races(ttl, lag, ss, moves)
    requires var s := ss[|ss| - 1];
      w !in s.attempts && forall x :: x in s.q.rows ==> !InFlight(s.q.rows[x], s.q.now, ttl)
    ensures Races(ttl, lag, ss', moves')
    ensures var s := ss[|ss| - 1]; ss'[|ss'| - 1] == s.(attempts := s.attempts[w := Chosen(s.q.now, "q")])
  {
    var s := ss[|ss| - 1];
    var s1 := s.(attempts := s.attempts[w := Clocked(s.q.now)]);
    ss', moves' := Extend(ttl, lag, ss, moves, s1, ReadClock(w));
    var s2 := s1.(attempts := s1.attempts[w := Surveyed(s.q.now, ["q"])]);
    ss', moves' := Extend(ttl, lag, ss', moves', s2, ReadPotential(w, ["q"], []));
    var s3 := s2.(attempts := s2.attempts[w := Chosen(s.q.now, "q")]);
    LoneNameIsProcessable("q");
    ss', moves' := Extend(ttl, lag, ss', moves', s3, ReadInflight(w, [], 0));
    assert s3.attempts == s.attempts[w := Chosen(s.q.now, "q")];
  }

  /** Worker `w`, having chosen "q", locks the eligible task `id` and commits. */
  lemma TakeRun(ttl: nat, lag: nat, ss: seq<World>, moves: seq<Move>, w: WorkerId, id: TaskId)
    returns (ss': seq<World>, moves': seq<Move>)
    requires Races(ttl, lag, ss, moves)
    requires var s := ss[|ss| - 1];
      && w in s.attempts && s.attempts[w].Chosen? && s.attempts[w].name == "q" && s.locks == map[]
      && id in s.q.rows && Eligible(s.q.rows[id], "q", s.attempts[w].at, ttl)
    ensures Races(ttl, lag, ss', moves')
    ensures var s := ss[|ss| - 1]; var at := s.attempts[w].at;
      ss'[|ss'| - 1] == World(
        s.q.(rows := s.q.rows[id := Stamped(s.q.rows[id], at)]), s.attempts - {w}, map[],
        s.log[id := Deliveries(s, id) + [at]])
  {
    var s := ss[|ss| - 1];
    var at := s.attempts[w].at;
    var s1 := s.(attempts := s.attempts[w := Locked(at, id)], locks := s.locks[id := w]);
    ss', moves' := Extend(ttl, lag, ss, moves, s1, Select(w, Some(id)));
    assert Unlocked(s1, w) == map[] && s1.attempts - {w} == s.attempts - {w};
    var s2 := World(
      s.q.(rows := s.q.rows[id := Stamped(s.q.rows[id], at)]), s.attempts - {w}, map[],
      s.log[id := Deliveries(s, id) + [at]]);
    ss', moves' := Extend(ttl, lag, ss', moves', s2, Commit(w));
  }

  const ROW: Row := NewRow("q", "t", None, 0)

  lemma EnqueueRun(ttl: nat, lag: nat) returns (ss: seq<World>, moves: seq<Move>)
    ensures Races(ttl, lag, ss, moves)
    ensures ss[|ss| - 1] == World(State(map[0 := ROW], {0}, 0), map[], map[], map[])
  {
    var s0 := World(State(map[], {}, 0), map[], map[], map[]);
    var s1 := s0.(q := State(map[0 := ROW], {0}, 0));
    assert Races(ttl, lag, [s0], []);
    assert Next(ttl, s0.q, s1.q, Enqueue(0, "q", "t", None));
    ss, moves := Extend(ttl, lag, [s0], [], s1, Other(Enqueue(0, "q", "t", None)));
  }

  /** Both attempts read the lists before either commits: two tasks of one queue are in flight. */
  lemma TwoAttemptsShareAQueue(ttl: nat, lag: nat) returns (ss: seq<World>, moves: seq<Move>)
    requires ttl > 0
    ensures Races(ttl, lag, ss, moves) && !SingleFlight(ttl, ss[|ss| - 1].q)
  {
    ss, moves := EnqueueRun(ttl, lag);
    var s := ss[|ss| - 1];
    var s' := s.(q := State(map[0 := ROW, 1 := ROW], {0, 1}, 0));
    assert Next(ttl, s.q, s'.q, Enqueue(1, "q", "t", None));
    ss, moves := Extend(ttl, lag, ss, moves, s', Other(Enqueue(1, "q", "t", None)));
    ss, moves := ChooseRun(ttl, lag, ss, moves, 0);
    ss, moves := ChooseRun(ttl, lag, ss, moves, 1);
    ss, moves := TakeRun(ttl, lag, ss, moves, 0, 0);
    ss, moves := TakeRun(ttl, lag, ss, moves, 1, 1);
    var q := ss[|ss| - 1].q;
    assert InFlight(q.rows[0], q.now, ttl) && InFlight(q.rows[1], q.now, ttl);
  }

  /** Task 0 at a time `now`, last stamped at `beat`, with the open calls and deliveries given. */
  function OneTask(now: Time, beat: Time, attempts: map<WorkerId, Attempt>, log: seq<Time>): World {
    World(State(map[0 := Stamped(ROW, beat)], {0}, now), attempts, map[], map[0 := log])
  }

  /** The heartbeat of the first owner, sent when its lease is about to end. */
  function Late(ttl: nat): Attempt {
    Reporting(2 * ttl, 0, EMPTY_JSON, Heartbeat)
  }

  lemma FirstDeliveryRun(ttl: nat, lag: nat) returns (ss: seq<World>, moves: seq<Move>)
    ensures Races(ttl, lag, ss, moves) && ss[|ss| - 1] == OneTask(0, 0, map[], [0])
  {
    ss, moves := EnqueueRun(ttl, lag);
    ss, moves := ChooseRun(ttl, lag, ss, moves, 0);
    ss, moves := TakeRun(ttl, lag, ss, moves, 0, 0);
    var s := ss[|ss| - 1];
    assert s.attempts == map[] && s.q.rows == map[0 := Stamped(ROW, 0)];
    assert s.log[0] == [0] && s.log == map[0 := [0]];
  }

  /** The lease ends while the heartbeat of its owner is on the way, and the task is handed out again. */
  lemma OvertakenRun(ttl: nat, lag: nat) returns (ss: seq<World>, moves: seq<Move>)
    ensures Races(ttl, lag, ss, moves)
    ensures ss[|ss| - 1] == OneTask(2 * ttl + 1, 2 * ttl + 1, map[0 := Late(ttl)], [0, 2 * ttl + 1])
  {
    ss, moves := FirstDeliveryRun(ttl, lag);
    ss, moves := WaitRun(ttl, lag, ss, moves, 2 * ttl);
    var s := ss[|ss| - 1].(attempts := map[0 := Late(ttl)]);
    ss, moves := Extend(ttl, lag, ss, moves, s, StartUpdate(0, 0, EMPTY_JSON, Heartbeat));
    ss, moves := WaitRun(ttl, lag, ss, moves, 1);
    ss, moves := ChooseRun(ttl, lag, ss, moves, 1);
    ss, moves := TakeRun(ttl, lag, ss, moves, 1, 0);
    s := ss[|ss| - 1];
    assert s.attempts == map[0 := Late(ttl)] && s.q.rows == map[0 := Stamped(ROW, 2 * ttl + 1)];
    assert s.log[0] == [0, 2 * ttl + 1] && s.log == map[0 := [0, 2 * ttl + 1]];
  }

  /** Then the late heartbeat is written over the younger one of the redelivery. */
  lemma HeartbeatGoesBack(ttl: nat, lag: nat) returns (ss: seq<World>, moves: seq<Move>)
    requires lag > 0
    ensures Races(ttl, lag, ss, moves) && |ss| >= 2
    ensures ss[|ss| - 2] == OneTask(2 * ttl + 1, 2 * ttl + 1, map[0 := Late(ttl)], [0, 2 * ttl + 1])
    ensures var row := Stamped(ROW, 2 * ttl + 1).(lastHeartbeatAt := Some(2 * ttl));
      ss[|ss| - 1] == World(State(map[0 := row], {0}, 2 * ttl + 1), map[], map[], map[0 := [0, 2 * ttl + 1]])
  {
    ss, moves := OvertakenRun(ttl, lag);
    var s := ss[|ss| - 1];
    var s' := s.(q := s.q.(rows := Reported(s, Late(ttl))), attempts := map[]);
    assert s.attempts - {0} == map[];
    ss, moves := Extend(ttl, lag, ss, moves, s', ApplyUpdate(0));
  }

  /** And the task is handed out a third time, twice the ttl after the second. */
  lemma EarlyRedelivery(ttl: nat, lag: nat) returns (ss: seq<World>, moves: seq<Move>)
    requires lag > 0
    ensures Races(ttl, lag, ss, moves) && !Spaced(2 * ttl, Deliveries(ss[|ss| - 1], 0))
  {
    ss, moves := HeartbeatGoesBack(ttl, lag);
    ss, moves := WaitRun(ttl, lag, ss, moves, 2 * ttl);
    ss, moves := ChooseRun(ttl, lag, ss, moves, 2);
    ss, moves := TakeRun(ttl, lag, ss, moves, 2, 0);
    var log := Deliveries(ss[|ss| - 1], 0);
    assert log == [0, 2 * ttl + 1, 4 * ttl + 1];
    assert log[1] + 2 * ttl == log[2];
  }

  // ---- Exactly when heartbeats never go back and redeliveries are twice the ttl apart.

  ghost predicate NoHeartbeatGoesBack(ss: seq<World>) {
    forall i, j, id ::
      0 <= i <= j < |ss| && id in ss[i].q.rows && id in ss[j].q.rows && ss[i].q.rows[id].lastHeartbeatAt.Some? ==>
      && ss[j].q.rows[id].lastHeartbeatAt.Some?
      && ss[i].q.rows[id].lastHeartbeatAt.value <= ss[j].q.rows[id].lastHeartbeatAt.value
  }

  ghost predicate AllSpaced(ttl: nat, ss: seq<World>) {
    forall n, id :: 0 <= n < |ss| ==> Spaced(2 * ttl, Deliveries(ss[n], id))
  }

  lemma HeartbeatNeverDecreases(ttl: nat, ss: seq<World>, moves: seq<Move>)
    requires Races(ttl, 0, ss, moves)
    ensures NoHeartbeatGoesBack(ss)
  {
    forall i, j, id |
      0 <= i <= j < |ss| && id in ss[i].q.rows && id in ss[j].q.rows && ss[i].q.rows[id].lastHeartbeatAt.Some?
      ensures BeatenSince(0, ss[j], id, ss[i].q.rows[id].lastHeartbeatAt.value)
    {
      HeartbeatGoesBackByLag(ttl, 0, ss, moves, i, j, id);
    }
  }

  /** In any interleaving of any number of workers, exactly if no update is delayed after its clock reading. */
  lemma HeartbeatNeverDecreasesIff(ttl: nat, lag: nat)
    ensures (forall ss, moves :: Races(ttl, lag, ss, moves) ==> NoHeartbeatGoesBack(ss)) <==> lag == 0
  {
    if lag == 0 {
      forall ss, moves | Races(ttl, lag, ss, moves)
        ensures NoHeartbeatGoesBack(ss)
      {
        HeartbeatNeverDecreases(ttl, ss, moves);
      }
    } else {
      var ss, moves := HeartbeatGoesBack(ttl, lag);
      assert 0 in ss[|ss| - 2].q.rows && 0 in ss[|ss| - 1].q.rows;
      assert !NoHeartbeatGoesBack(ss);
    }
  }

  lemma RedeliveriesAreSpacedIff(ttl: nat, lag: nat)
    ensures (forall ss, moves :: Races(ttl, lag, ss, moves) ==> AllSpaced(ttl, ss)) <==> lag == 0
  {
    if lag == 0 {
      forall ss, moves | Races(ttl, lag, ss, moves)
        ensures AllSpaced(ttl, ss)
      {
        forall n, id | 0 <= n < |ss|
          ensures Spaced(2 * ttl, Deliveries(ss[n], id))
        {
          RedeliveriesAreSpaced(ttl, lag, ss, moves, n, id);
        }
      }
    } else {
      var ss, moves := EarlyRedelivery(ttl, lag);
      assert !AllSpaced(ttl, ss);
    }
  }
}
