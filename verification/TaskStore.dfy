/**
 The Postgres queuer, dequeuer and retention job as methods that change the
 `tasks` table, each proved against the relations of module Tasks.
 */
module TaskStore {
  import opened Options
  import opened Tasks

  datatype EnqueueReply = Enqueued | ErrTaskQueueNotSpecified | ErrTaskTypeNotSpecified | ErrDuplicateId

  /** The inflight names are collected in a set, then the potential names are filtered against it. */
  method ProcessableQueues(inflight: seq<string>, potential: seq<string>) returns (names: seq<string>)
    ensures names == Processable(inflight, potential)
    ensures forall n :: n in names <==> n in potential && n !in inflight
  {
    ProcessableMembers(inflight, potential);
    var seen: set<string> := {};
    for i := 0 to |inflight|
      invariant seen == set n | n in inflight[..i]
    {
      assert inflight[..i + 1] == inflight[..i] + [inflight[i]];
      seen := seen + {inflight[i]};
    }
    assert inflight[..|inflight|] == inflight;
    names := [];
    for i := 0 to |potential|
      invariant names == Processable(inflight, potential[..i])
    {
      assert potential[..i + 1][..i] == potential[..i];
      if potential[i] !in seen {
        names := names + [potential[i]];
      }
    }
    assert potential[..|potential|] == potential;
  }

  class Store {
    var rows: Table

    constructor ()
      ensures rows == map[]
    {
      rows := map[];
    }

    /** `id` is the random UUID; a repeated one violates the primary key. */
    method Enqueue(id: TaskId, queue: string, typ: string, spec: Option<string>, now: Time)
      returns (reply: EnqueueReply)
      modifies this
      ensures reply == Enqueued <==> queue != "" && typ != "" && id !in old(rows)
      ensures reply == ErrTaskQueueNotSpecified <==> queue == ""
      ensures reply == ErrTaskTypeNotSpecified <==> queue != "" && typ == ""
      ensures rows == if reply == Enqueued then old(rows)[id := NewRow(queue, typ, spec, now)] else old(rows)
      ensures reply == Enqueued ==>
        var r := rows[id];
        && r.queue == queue && r.typ == typ && r.createdAt == now && r.status == Waiting && r.progress == "{}"
        && r.spec == (if spec.None? then "{}" else spec.value)
        && r.startedAt == r.finishedAt == r.lastHeartbeatAt == None
    {
      if queue == "" {
        return ErrTaskQueueNotSpecified;
      }
      if typ == "" {
        return ErrTaskTypeNotSpecified;
      }
      if id in rows {
        return ErrDuplicateId;
      }
      rows := rows[id := NewRow(queue, typ, spec, now)];
      return Enqueued;
    }

    /** Fetches the distinct queues of the rows that satisfy `where`, in any order. */
    method GenerateQueueList(where: Row -> bool) returns (names: seq<string>)
      ensures DistinctQueues(rows, where, names)
    {
      names := [];
      var todo := rows.Keys;
      while todo != {}
        invariant todo <= rows.Keys
        invariant forall i :: 0 <= i < |names| ==> Occurs(rows, where, names[i])
        invariant forall id :: id in rows && id !in todo && where(rows[id]) ==> Listed(names, rows[id].queue)
        invariant forall i, j :: 0 <= i < j < |names| ==> !SameName(names[i], names[j])
        decreases |todo|
      {
        var id :| id in todo;
        todo := todo - {id};
        if where(rows[id]) && !Listed(names, rows[id].queue) {
          ghost var before := names;
          names := names + [rows[id].queue];
          assert names[|before|] == rows[id].queue;
          forall other | other in rows && other !in todo && where(rows[other])
            ensures Listed(names, rows[other].queue)
          {
            if other != id {
              var i :| 0 <= i < |before| && SameName(before[i], rows[other].queue);
              assert names[i] == before[i];
            }
          }
        }
      }
    }

    /** Scans the eligible rows of one queue for the one created last. */
    method SelectForUpdate(name: string, now: Time, ttl: nat) returns (got: Option<TaskId>)
      ensures got.None? <==> NoneEligible(rows, name, now, ttl)
      ensures got.Some? ==> Newest(rows, name, now, ttl, got.value)
      ensures got.Some? ==> forall id :: id in rows && Eligible(rows[id], name, now, ttl) ==>
        rows[id].createdAt <= rows[got.value].createdAt
    {
      got := None;
      var todo := rows.Keys;
      while todo != {}
        invariant todo <= rows.Keys
        invariant got.Some? ==> got.value in rows && Eligible(rows[got.value], name, now, ttl)
        invariant forall id :: id in rows && id !in todo && Eligible(rows[id], name, now, ttl) ==>
          got.Some? && rows[id].createdAt <= rows[got.value].createdAt
        decreases |todo|
      {
        var id :| id in todo;
        todo := todo - {id};
        if Eligible(rows[id], name, now, ttl) && (got.None? || rows[got.value].createdAt < rows[id].createdAt) {
          got := Some(id);
        }
      }
    }

    /**
     One attempt with no concurrent statement.  `random` is the value the queue
     is drawn with.  The task handed back is the row as it was selected, with
     only the two times set: its status is still the old one.
     */
    method AttemptDequeue(now: Time, ttl: nat, requested: seq<string>, random: nat)
      returns (task: Option<(TaskId, Row)>, ghost draw: Draw)
      modifies this
      ensures Dequeued(old(rows), now, ttl, requested, draw, if task.Some? then Some(task.value.0) else None, rows)
      ensures task.Some? ==>
        var (id, r) := task.value;
        && id in old(rows) && r == old(rows)[id].(startedAt := Some(now), lastHeartbeatAt := Some(now))
        && rows == old(rows)[id := old(rows)[id].(
             startedAt := Some(now), lastHeartbeatAt := Some(now), status := Running)]
      ensures task.None? ==> rows == old(rows)
    {
      var potential := requested;
      if requested == [] {
        potential := GenerateQueueList(Unfinished);
      }
      var inflight := GenerateQueueList(Flying(now, ttl));
      var names := ProcessableQueues(inflight, potential);
      if names == [] {
        draw := Draw(potential, inflight, 0);
        return None, draw;
      }
      var n := random % |names|;
      draw := Draw(potential, inflight, n);
      var got := SelectForUpdate(names[n], now, ttl);
      if got.None? {
        return None, draw;
      }
      var id := got.value;
      task := Some((id, rows[id].(startedAt := Some(now), lastHeartbeatAt := Some(now))));
      rows := rows[id := Stamped(rows[id], now)];
    }

    method UpdateProgress(id: TaskId, progress: string, isFinal: bool, isFailed: bool, now: Time)
      returns (reply: Reply)
      modifies this
      ensures reply == Gate(old(rows), id)
      ensures rows == Updated(old(rows), id, progress, isFinal, isFailed, now)
      ensures reply == ErrTaskNotFound <==> id !in old(rows)
      ensures id in old(rows) ==>
        && (reply == ErrTaskNotRunning <==> old(rows)[id].status == Waiting)
        && (reply == ErrTaskCancelled <==> old(rows)[id].status == Cancelled)
        && (reply == ErrTaskFinished <==> old(rows)[id].status == Finished)
        && (reply == Ok <==> old(rows)[id].status == Running || old(rows)[id].status == Failed)
      ensures reply != Ok ==> rows == old(rows)
      ensures reply == Ok ==>
        && rows.Keys == old(rows).Keys && (forall x :: x in rows && x != id ==> rows[x] == old(rows)[x])
        && rows[id] == old(rows)[id].(
             lastHeartbeatAt := Some(now),
             progress := if progress == "" then "{}" else progress,
             finishedAt := if isFinal then Some(now) else old(rows)[id].finishedAt,
             status := if isFailed then Failed else if isFinal then Finished else Running)
    {
      var p := progress;
      if |p| == 0 {
        p := EMPTY_JSON;
      }
      if id !in rows {
        return ErrTaskNotFound;
      }
      match rows[id].status {
        case Waiting => return ErrTaskNotRunning;
        case Cancelled => return ErrTaskCancelled;
        case Finished => return ErrTaskFinished;
        case _ =>
      }
      var r := rows[id].(lastHeartbeatAt := Some(now), progress := p);
      if isFinal && isFailed {
        r := r.(finishedAt := Some(now), status := Failed);
      } else if isFinal {
        r := r.(finishedAt := Some(now), status := Finished);
      } else if isFailed {
        r := r.(status := Failed);
      } else {
        r := r.(status := Running);
      }
      rows := rows[id := r];
      return Ok;
    }

    method RunRetention(status: Status, queue: string, typ: string, cutoff: Time)
      modifies this
      ensures rows == Retained(old(rows), status, queue, typ, cutoff)
      ensures forall id :: id in rows <==>
        id in old(rows) && !(
          && old(rows)[id].status == status
          && old(rows)[id].finishedAt.Some? && old(rows)[id].finishedAt.value <= cutoff
          && (queue == "" || SameName(old(rows)[id].queue, queue))
          && (typ == "" || SameName(old(rows)[id].typ, typ)))
      ensures forall id :: id in rows ==> rows[id] == old(rows)[id]
    {
      var doomed := set id | id in rows && Retired(rows[id], status, queue, typ, cutoff);
      rows := rows - doomed;
    }
  }
}
