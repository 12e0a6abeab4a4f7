/**
 One task inside a worker: the calls it makes on the dequeuer for every order in
 which its channels can become ready.  The handler does not panic.
 */
module TaskWorker {
  import opened Options
  import opened Tasks

  type Progress = string
  type Error = string

  const TASK_TIMEOUT: Error := "task timeout"

  /** What decoding a progress into a Go map gives; the field values are JSON texts. */
  datatype Parsed = NotAnObject | NullValue | Object(fields: map<string, string>)

  /** The JSON library, with the one law used of it: what it encodes it decodes again. */
  datatype Json = Json(
    decode: Progress -> Parsed, encode: map<string, string> -> Option<Progress>, quote: Error -> string)
  {
    ghost predicate Lawful() {
      forall fields :: encode(fields).Some? ==> decode(encode(fields).value) == Object(fields)
    }
  }

  datatype Result = Answer(reply: Reply) | Broken(error: Error)

  /** What the select of processHeartbeats receives; a beat comes with the result of its Heartbeat call. */
  datatype Event = CtxDone | TtlFired | Closed | Beat(progress: Progress, result: Result)

  datatype Call = Heartbeat(progress: Progress) | Finish(progress: Progress) | Fail(progress: Progress)

  datatype Ending = BeatsClosed | Refused | TimedOut | Interrupted | Fatal(error: Error) | StillWaiting

  datatype Handler = Busy | Returned(error: Option<Error>)

  datatype Outcome = Interruption | FatalError(error: Error) | LastCall(result: Result) | Panic | Blocked

  predicate AcceptedBeat(e: Event) {
    e.Beat? && e.result == Answer(Ok)
  }

  /** `n` is the number of beats accepted before anything else happened. */
  predicate AcceptedPrefix(events: seq<Event>, n: nat) {
    && n <= |events|
    && (forall i :: 0 <= i < n ==> AcceptedBeat(events[i]))
    && (n < |events| ==> !AcceptedBeat(events[n]))
  }

  /** There is one such prefix, and only one. */
  function AcceptedBeats(events: seq<Event>): (n: nat)
    ensures AcceptedPrefix(events, n)
    ensures forall m: nat :: AcceptedPrefix(events, m) ==> m == n
  {
    if events == [] || !AcceptedBeat(events[0]) then 0
    else
      var n := 1 + AcceptedBeats(events[1..]);
      assert forall m: nat :: m < n ==> AcceptedBeat(events[m]);
      n
  }

  /** The calls are the first k events, all beats, once each and in order. */
  predicate Forwarded(events: seq<Event>, k: nat, calls: seq<Call>) {
    && k <= |events| && |calls| == k
    && forall i :: 0 <= i < k ==> events[i].Beat? && calls[i] == Heartbeat(events[i].progress)
  }

  /**
   After the n accepted beats the next event decides: a beat that is not
   accepted is still forwarded and recorded as progress, any other event is not
   a call.
   */
  method ProcessHeartbeats(events: seq<Event>) returns (progress: Progress, ending: Ending, calls: seq<Call>)
    ensures var n := AcceptedBeats(events);
      if n < |events| && events[n].Beat? then Forwarded(events, n + 1, calls) && progress == events[n].progress
      else Forwarded(events, n, calls) && progress == if n == 0 then "{}" else events[n - 1].progress
    ensures ending == StillWaiting <==> AcceptedBeats(events) == |events|
    ensures var n := AcceptedBeats(events);
      n < |events| ==>
      match events[n]
      case CtxDone => ending == Interrupted
      case TtlFired => ending == TimedOut
      case Closed => ending == BeatsClosed
      case Beat(_, Answer(_)) => ending == Refused
      case Beat(_, Broken(error)) => ending == Fatal(error)
  {
    ghost var n := AcceptedBeats(events);
    progress := EMPTY_JSON;
    calls := [];
    for i := 0 to |events|
      invariant i <= n && forall k :: 0 <= k < i ==> AcceptedBeat(events[k])
      invariant Forwarded(events, i, calls) && progress == if i == 0 then "{}" else events[i - 1].progress
    {
      match events[i]
      case CtxDone => return progress, Interrupted, calls;
      case TtlFired => return progress, TimedOut, calls;
      case Closed => return progress, BeatsClosed, calls;
      case Beat(p, result) =>
        progress := p;
        calls := calls + [Heartbeat(p)];
        match result {
          case Broken(error) => return progress, Fatal(error), calls;
          case Answer(reply) =>
            if reply != Ok {
              return progress, Refused, calls;
            }
        }
    }
    ending := StillWaiting;
  }

  /** Only the key "error" changes when the progress is an object, nothing when it is not. */
  ghost predicate ErrorSet(json: Json, before: Progress, error: Error, after: Progress) {
    match json.decode(before)
    case NotAnObject => after == before
    case NullValue => false
    case Object(fields) =>
      var fields' := fields["error" := json.quote(error)];
      if json.encode(fields').None? then after == before else json.decode(after) == Object(fields')
  }

  /** Decoding the JSON value null leaves a nil map, and the assignment to it panics. */
  method SetError(json: Json, progress: Progress, error: Error) returns (r: Option<Progress>)
    ensures r.None? <==> json.decode(progress) == NullValue
    ensures r.Some? && json.Lawful() ==> ErrorSet(json, progress, error, r.value)
    ensures json.decode(progress) == NotAnObject ==> r == Some(progress)
    ensures json.decode(progress).Object? ==>
      var marked := json.decode(progress).fields["error" := json.quote(error)];
      if json.encode(marked).None? then r == Some(progress)
      else json.Lawful() ==> r.Some? && json.decode(r.value) == Object(marked)
  {
    match json.decode(progress)
    case NotAnObject => return Some(progress);
    case NullValue => return None;
    case Object(fields) =>
      var p := fields;
      p := p["error" := json.quote(error)];
      var bytes := json.encode(p);
      if bytes.None? {
        return Some(progress);
      }
      return bytes;
  }

  /**
   The whole trace of handleTask, after the n accepted beats by the event that
   follows them and by what the handler returned.  There is exactly one Finish,
   exactly one Fail or no further call; a Fail that is due is missing only when
   the last progress is the JSON value null.
   */
  method HandleTask(json: Json, events: seq<Event>, handler: Handler, last: Result)
    returns (calls: seq<Call>, outcome: Outcome)
    ensures AcceptedBeats(events) == |events| ==> Forwarded(events, |events|, calls) && outcome == Blocked
    ensures var n := AcceptedBeats(events);
      n < |events| && events[n].CtxDone? ==> Forwarded(events, n, calls) && outcome == Interruption
    ensures var n := AcceptedBeats(events);
      n < |events| && events[n].Beat? && events[n].result.Broken? ==>
      Forwarded(events, n + 1, calls) && outcome == FatalError(events[n].result.error)
    ensures var n := AcceptedBeats(events);
      n < |events| && events[n].TtlFired? ==>
      var progress := if n == 0 then "{}" else events[n - 1].progress;
      if json.decode(progress) == NullValue then Forwarded(events, n, calls) && outcome == Panic
      else
        && |calls| == n + 1 && Forwarded(events, n, calls[..n]) && outcome == LastCall(last) && calls[n].Fail?
        && (json.Lawful() ==> ErrorSet(json, progress, TASK_TIMEOUT, calls[n].progress))
    ensures var n := AcceptedBeats(events);
      n < |events| && (events[n].Closed? || (events[n].Beat? && events[n].result.Answer?)) ==>
      var k := if events[n].Beat? then n + 1 else n;
      var progress := if k == 0 then "{}" else events[k - 1].progress;
      match handler
      case Busy => Forwarded(events, k, calls) && outcome == Blocked
      case Returned(None) =>
        && |calls| == k + 1 && Forwarded(events, k, calls[..k]) && outcome == LastCall(last)
        && calls[k] == Finish(progress)
      case Returned(Some(error)) =>
        if json.decode(progress) == NullValue then Forwarded(events, k, calls) && outcome == Panic
        else
          && |calls| == k + 1 && Forwarded(events, k, calls[..k]) && outcome == LastCall(last) && calls[k].Fail?
          && (json.Lawful() ==> ErrorSet(json, progress, error, calls[k].progress))
  {
    var progress, ending;
    progress, ending, calls := ProcessHeartbeats(events);
    assert calls[..|calls|] == calls;
    match ending {
      case TimedOut =>
        var marked := SetError(json, progress, TASK_TIMEOUT);
        if marked.None? {
          return calls, Panic;
        }
        return calls + [Fail(marked.value)], LastCall(last);
      case Interrupted => return calls, Interruption;
      case Fatal(error) => return calls, FatalError(error);
      case StillWaiting => return calls, Blocked;
      case _ =>
    }
    if handler.Busy? {
      return calls, Blocked;
    }
    if handler.error.Some? {
      var marked := SetError(json, progress, handler.error.value);
      if marked.None? {
        return calls, Panic;
      }
      return calls + [Fail(marked.value)], LastCall(last);
    }
    return calls + [Finish(progress)], LastCall(last);
  }

  /** A beat with the JSON value null, accepted, and then an error of the handler: no Fail is issued. */
  method FailureAfterNull(json: Json, progress: Progress, error: Error, last: Result)
    returns (calls: seq<Call>, outcome: Outcome)
    requires json.decode(progress) == NullValue
    ensures calls == [Heartbeat(progress)] && outcome == Panic
  {
    var events := [Beat(progress, Answer(Ok)), Closed];
    assert AcceptedPrefix(events, 1);
    calls, outcome := HandleTask(json, events, Returned(Some(error)), last);
  }

  // ---- The trace on the table.

  function Applied(t: Table, id: TaskId, call: Call, now: Time): Table {
    Updated(t, id, call.progress, !call.Heartbeat?, call.Fail?, now)
  }

  /** The calls of one task, the i-th made at times[i]. */
  function Replay(t: Table, id: TaskId, calls: seq<Call>, times: seq<Time>): Table
    requires |times| == |calls|
  {
    if calls == [] then t
    else
      var k := |calls| - 1;
      Applied(Replay(t, id, calls[..k], times[..k]), id, calls[k], times[k])
  }

  /**
   A trace that starts on a running row is accepted call by call, and leaves the
   row with the last progress, finished or failed if it ends in such a call and
   still running if not; no other row changes.
   */
  lemma {:induction false} TraceLandsInRow(t: Table, id: TaskId, calls: seq<Call>, times: seq<Time>)
    requires |times| == |calls| && calls != [] && id in t && t[id].status == Running
    requires forall i :: 0 <= i < |calls| - 1 ==> calls[i].Heartbeat?
    ensures var k := |calls| - 1; Gate(Replay(t, id, calls[..k], times[..k]), id) == Ok
    ensures var k := |calls| - 1; var last := calls[k]; var t' := Replay(t, id, calls, times);
      && t' == t[id := t'[id]]
      && t'[id].progress == (if last.progress == "" then EMPTY_JSON else last.progress)
      && t'[id].lastHeartbeatAt == Some(times[k])
      && t'[id].status == (match last case Heartbeat(_) => Running case Finish(_) => Finished case Fail(_) => Failed)
      && t'[id].finishedAt == (if last.Heartbeat? then t[id].finishedAt else Some(times[k]))
      && t'[id].startedAt == t[id].startedAt && t'[id].queue == t[id].queue && t'[id].spec == t[id].spec
  {
    var k := |calls| - 1;
    if k > 0 {
      TraceLandsInRow(t, id, calls[..k], times[..k]);
    } else {
      assert Replay(t, id, calls[..k], times[..k]) == t;
    }
  }
}
