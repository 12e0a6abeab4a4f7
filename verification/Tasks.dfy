/**
 The `tasks` table and what one statement of the queue does to it.  Times are
 integers (nanoseconds); task ids stand for the random UUIDs.
 */
module Tasks {
  import opened Options
  import opened Selections

  type Time = int
  type TaskId = nat

  const EMPTY_JSON := "{}"

  datatype Status = Waiting | Running | Cancelled | Finished | Failed

  datatype Row = Row(
    queue: string, typ: string, spec: string, status: Status, progress: string, createdAt: Time,
    startedAt: Option<Time>, finishedAt: Option<Time>, lastHeartbeatAt: Option<Time>)

  type Table = map<TaskId, Row>

  // ---- Names: the columns `queue` and `type` are citext, so SQL compares them without case.

  function FoldChar(c: char): char {
    if 'A' <= c <= 'Z' then (c as int + 32) as char else c
  }

  function Fold(s: string): string {
    seq(|s|, i requires 0 <= i < |s| => FoldChar(s[i]))
  }

  predicate SameName(a: string, b: string) {
    Fold(a) == Fold(b)
  }

  predicate Listed(names: seq<string>, name: string) {
    exists i :: 0 <= i < |names| && SameName(names[i], name)
  }

  // ---- The WHERE clauses.

  predicate Unfinished(r: Row) {
    r.finishedAt.None?
  }

  predicate InFlight(r: Row, now: Time, ttl: nat) {
    r.lastHeartbeatAt.Some? && r.lastHeartbeatAt.value > now - 2 * ttl && r.finishedAt.None?
  }

  function Flying(now: Time, ttl: nat): Row -> bool {
    r => InFlight(r, now, ttl)
  }

  predicate Expired(r: Row, now: Time, ttl: nat) {
    r.finishedAt.None? && r.lastHeartbeatAt.Some? && r.lastHeartbeatAt.value < now - 2 * ttl
  }

  predicate Eligible(r: Row, name: string, now: Time, ttl: nat) {
    SameName(r.queue, name) && (r.startedAt.None? || Expired(r, now, ttl))
  }

  /** What a retention job deletes; a NULL `finished_at` never satisfies the comparison. */
  predicate Retired(r: Row, status: Status, queue: string, typ: string, cutoff: Time) {
    && r.status == status
    && r.finishedAt.Some? && r.finishedAt.value <= cutoff
    && (queue != "" ==> SameName(r.queue, queue))
    && (typ != "" ==> SameName(r.typ, typ))
  }

  // ---- The rows written by each statement.

  function NewRow(queue: string, typ: string, spec: Option<string>, now: Time): Row {
    Row(queue, typ, if spec.None? then EMPTY_JSON else spec.value, Waiting, EMPTY_JSON, now, None, None, None)
  }

  function Stamped(r: Row, now: Time): Row {
    r.(startedAt := Some(now), lastHeartbeatAt := Some(now), status := Running)
  }

  function Progressed(r: Row, progress: string, isFinal: bool, isFailed: bool, now: Time): Row {
    var p := if progress == "" then EMPTY_JSON else progress;
    var beat := r.(lastHeartbeatAt := Some(now), progress := p);
    if isFinal then
      beat.(finishedAt := Some(now), status := if isFailed then Failed else Finished)
    else
      beat.(status := if isFailed then Failed else Running)
  }

  // ---- The status gate of updateProgress.

  datatype Reply = Ok | ErrTaskNotFound | ErrTaskNotRunning | ErrTaskCancelled | ErrTaskFinished

  function Gate(t: Table, id: TaskId): Reply {
    if id !in t then ErrTaskNotFound
    else match t[id].status
      case Waiting => ErrTaskNotRunning
      case Cancelled => ErrTaskCancelled
      case Finished => ErrTaskFinished
      case Running => Ok
      case Failed => Ok
  }

  function Updated(t: Table, id: TaskId, progress: string, isFinal: bool, isFailed: bool, now: Time): Table {
    if Gate(t, id) == Ok then t[id := Progressed(t[id], progress, isFinal, isFailed, now)] else t
  }

  /** The table after the DELETE of a retention job. */
  function Retained(t: Table, status: Status, queue: string, typ: string, cutoff: Time): Table {
    map id | id in t && !Retired(t[id], status, queue, typ, cutoff) :: t[id]
  }

  // ---- The list queries and the choice of a queue.

  ghost predicate Occurs(t: Table, where: Row -> bool, name: string) {
    exists id :: id in t && where(t[id]) && t[id].queue == name
  }

  /** `names` is a possible answer to SELECT DISTINCT queue: one spelling per queue, whichever SQL keeps. */
  ghost predicate DistinctQueues(t: Table, where: Row -> bool, names: seq<string>) {
    && (forall i :: 0 <= i < |names| ==> Occurs(t, where, names[i]))
    && (forall id :: id in t && where(t[id]) ==> Listed(names, t[id].queue))
    && (forall i, j :: 0 <= i < j < |names| ==> !SameName(names[i], names[j]))
  }

  function NotIn(names: seq<string>): string -> bool {
    (n: string) => n !in names
  }

  /** `potential` without the names spelled exactly as one in `inflight`, in order. */
  function Processable(inflight: seq<string>, potential: seq<string>): seq<string> {
    Filter(potential, NotIn(inflight))
  }

  /** The row that ORDER BY created_at DESC LIMIT 1 may return. */
  ghost predicate Newest(t: Table, name: string, now: Time, ttl: nat, id: TaskId) {
    && id in t && Eligible(t[id], name, now, ttl)
    && forall other :: other in t && Eligible(t[other], name, now, ttl) ==> t[other].createdAt <= t[id].createdAt
  }

  ghost predicate NoneEligible(t: Table, name: string, now: Time, ttl: nat) {
    forall id :: id in t ==> !Eligible(t[id], name, now, ttl)
  }

  /** What the random draws and the query plans decide in one attemptDequeue. */
  datatype Draw = Draw(unfinished: seq<string>, inflight: seq<string>, pick: nat)

  function Potential(requested: seq<string>, draw: Draw): seq<string> {
    if requested == [] then draw.unfinished else requested
  }

  function Candidates(requested: seq<string>, draw: Draw): seq<string> {
    Processable(draw.inflight, Potential(requested, draw))
  }

  ghost predicate ValidDraw(t: Table, now: Time, ttl: nat, requested: seq<string>, draw: Draw) {
    && (requested == [] ==> DistinctQueues(t, Unfinished, draw.unfinished))
    && DistinctQueues(t, Flying(now, ttl), draw.inflight)
    && (Candidates(requested, draw) != [] ==> draw.pick < |Candidates(requested, draw)|)
  }

  /** One serial attemptDequeue: the possible answers and the table it leaves. */
  ghost predicate Dequeued(
    t: Table, now: Time, ttl: nat, requested: seq<string>, draw: Draw, got: Option<TaskId>, t': Table)
  {
    && ValidDraw(t, now, ttl, requested, draw)
    && var names := Candidates(requested, draw);
       if names == [] then
         got.None? && t' == t
       else
         var name := names[draw.pick];
         match got
         case None => NoneEligible(t, name, now, ttl) && t' == t
         case Some(id) => Newest(t, name, now, ttl, id) && t' == t[id := Stamped(t[id], now)]
  }

  // ---- Facts about the queue choice.

  lemma ProcessableMembers(inflight: seq<string>, potential: seq<string>)
    ensures forall n :: n in Processable(inflight, potential) <==> n in potential && n !in inflight
  {
    FilterMembers(potential, NotIn(inflight));
  }

  lemma LoneNameIsProcessable(name: string)
    ensures Processable([], [name]) == [name]
  {
    assert [name][..0] == [];
    assert Filter([name][..0], NotIn([])) == [];
  }

  lemma ListedNameOccurs(t: Table, where: Row -> bool, names: seq<string>, name: string) returns (id: TaskId)
    requires DistinctQueues(t, where, names) && name in names
    ensures id in t && where(t[id]) && t[id].queue == name
  {
    var i :| 0 <= i < |names| && names[i] == name;
    assert Occurs(t, where, names[i]);
    id :| id in t && where(t[id]) && t[id].queue == name;
  }

  lemma RowIsListed(t: Table, where: Row -> bool, names: seq<string>, id: TaskId) returns (name: string)
    requires DistinctQueues(t, where, names) && id in t && where(t[id])
    ensures name in names && SameName(name, t[id].queue)
  {
    assert Listed(names, t[id].queue);
    var i :| 0 <= i < |names| && SameName(names[i], t[id].queue);
    name := names[i];
  }
}
