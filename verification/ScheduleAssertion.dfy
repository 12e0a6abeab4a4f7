/**
 AssertSchedule: check for a schedule and insert it if there is none, under a
 SHARE lock on the table that does not exclude itself.  Lock conflicts and
 statement visibility are those of PostgreSQL: SHARE conflicts with the ROW
 EXCLUSIVE lock of a writer, neither conflicts with itself, and a statement
 reads what was committed before it began.
 */
module ScheduleAssertion {
  import opened Options
  import opened Runs
  import opened Tasks

  type RowId = nat
  type TxId = nat

  /** Reference columns with their values; None is SQL NULL. */
  type References = map<string, Option<string>>

  /** A nil spec is None; specs are JSON texts in normal form. */
  datatype Request = Request(queue: string, typ: string, spec: Option<string>, cron: string, references: References)

  /** `owner` is the request an AssertSchedule call inserted the row for, None for rows of other writers. */
  datatype Schedule = Schedule(
    queue: string, typ: string, spec: string, cron: string, references: References, owner: Option<Request>)

  type Table = map<RowId, Schedule>

  function Column(s: Schedule, col: string): Option<string> {
    if col in s.references then s.references[col] else None
  }

  /** The WHERE clause of EnsureSchedule: a nil spec compares with NULL and matches nothing. */
  predicate Matches(req: Request, s: Schedule) {
    && SameName(s.queue, req.queue) && SameName(s.typ, req.typ)
    && req.spec == Some(s.spec)
    && forall col :: col in req.references ==> Column(s, col) == req.references[col]
  }

  ghost predicate Scheduled(t: Table, req: Request) {
    exists id :: id in t && Matches(req, t[id])
  }

  function NewSchedule(req: Request): Schedule {
    Schedule(req.queue, req.typ, if req.spec.None? then EMPTY_JSON else req.spec.value, req.cron, req.references,
      Some(req))
  }

  predicate Acceptable(req: Request, validCron: string -> bool) {
    req.queue != "" && req.typ != "" && (req.cron == "" || validCron(req.cron))
  }

  // ---- One call with no concurrent transaction.

  datatype Reply = Existed | Inserted | ErrNotScheduled | ErrTaskQueueNotSpecified | ErrTaskTypeNotSpecified | ErrCron

  class Store {
    var rows: Table

    /** The filters are added column by column. */
    method Filter(req: Request, s: Schedule) returns (keep: bool)
      ensures keep <==> Matches(req, s)
    {
      keep := SameName(s.queue, req.queue) && SameName(s.typ, req.typ) && req.spec == Some(s.spec);
      var todo := req.references.Keys;
      while todo != {}
        invariant todo <= req.references.Keys
        invariant keep <==>
          SameName(s.queue, req.queue) && SameName(s.typ, req.typ) && req.spec == Some(s.spec) &&
          forall col :: col in req.references && col !in todo ==> Column(s, col) == req.references[col]
        decreases |todo|
      {
        var col :| col in todo;
        todo := todo - {col};
        keep := keep && Column(s, col) == req.references[col];
      }
    }

    method EnsureSchedule(req: Request) returns (reply: Reply)
      ensures reply == ErrTaskQueueNotSpecified <==> req.queue == ""
      ensures reply == ErrTaskTypeNotSpecified <==> req.queue != "" && req.typ == ""
      ensures reply == Existed <==> req.queue != "" && req.typ != "" && Scheduled(rows, req)
      ensures reply == ErrNotScheduled <==> req.queue != "" && req.typ != "" && !Scheduled(rows, req)
      ensures req.queue != "" && req.typ != "" ==>
        (reply == Existed <==>
          exists id ::
            && id in rows && SameName(rows[id].queue, req.queue) && SameName(rows[id].typ, req.typ)
            && req.spec == Some(rows[id].spec)
            && forall col :: col in req.references ==>
                 req.references[col] == if col in rows[id].references then rows[id].references[col] else None)
    {
      if req.queue == "" {
        return ErrTaskQueueNotSpecified;
      }
      if req.typ == "" {
        return ErrTaskTypeNotSpecified;
      }
      var found := false;
      var todo := rows.Keys;
      while todo != {} && !found
        invariant todo <= rows.Keys
        invariant found ==> Scheduled(rows, req)
        invariant !found ==> forall id :: id in rows && id !in todo ==> !Matches(req, rows[id])
        decreases |todo|
      {
        var id :| id in todo;
        todo := todo - {id};
        found := Filter(req, rows[id]);
      }
      return if found then Existed else ErrNotScheduled;
    }

    method AssertSchedule(req: Request, id: RowId, validCron: string -> bool) returns (reply: Reply)
      requires id !in rows
      modifies this
      ensures reply == Existed <==> req.queue != "" && req.typ != "" && Scheduled(old(rows), req)
      ensures reply == Inserted <==> Acceptable(req, validCron) && !Scheduled(old(rows), req)
      ensures reply == ErrTaskQueueNotSpecified <==> req.queue == ""
      ensures reply == ErrTaskTypeNotSpecified <==> req.queue != "" && req.typ == ""
      ensures reply != ErrNotScheduled
      ensures reply == ErrCron <==>
        && req.queue != "" && req.typ != "" && !Scheduled(old(rows), req)
        && req.cron != "" && !validCron(req.cron)
      ensures reply == Inserted ==>
        && rows.Keys == old(rows).Keys + {id} && (forall x :: x in old(rows) ==> rows[x] == old(rows)[x])
        && rows[id].queue == req.queue && rows[id].typ == req.typ && rows[id].cron == req.cron
        && rows[id].references == req.references && rows[id].owner == Some(req)
        && rows[id].spec == (if req.spec.None? then "{}" else req.spec.value)
      ensures reply != Inserted ==> rows == old(rows)
      ensures rows == if reply == Inserted then old(rows)[id := NewSchedule(req)] else old(rows)
    {
      reply := EnsureSchedule(req);
      if reply != ErrNotScheduled {
        return;
      }
      if req.cron != "" && !validCron(req.cron) {
        return ErrCron;
      }
      rows := rows[id := NewSchedule(req)];
      return Inserted;
    }
  }

  // ---- Any number of transactions.

  datatype Tx =
    | Sharing(req: Request)
    | Absent(req: Request)
    | Present(req: Request)
    | Adding(req: Request, id: RowId)
    | Writing(added: map<RowId, Schedule>, removed: set<RowId>)

  datatype State = State(rows: Table, used: set<RowId>, txs: map<TxId, Tx>)

  datatype Step =
    | Lock(t: TxId, req: Request)
    | Check(t: TxId)
    | Insert(t: TxId, id: RowId)
    | Write(t: TxId, added: map<RowId, Schedule>, removed: set<RowId>)
    | Commit(t: TxId)
    | Abort(t: TxId)

  predicate HoldsShare(tx: Tx) {
    !tx.Writing?
  }

  predicate HoldsRowExclusive(tx: Tx) {
    tx.Adding? || tx.Writing?
  }

  ghost predicate NoOtherShare(s: State, t: TxId) {
    forall u :: u in s.txs && u != t ==> !HoldsShare(s.txs[u])
  }

  ghost predicate NoOtherRowExclusive(s: State, t: TxId) {
    forall u :: u in s.txs && u != t ==> !HoldsRowExclusive(s.txs[u])
  }

  ghost predicate Init(s: State) {
    s.txs == map[] && s.rows.Keys <= s.used && forall id :: id in s.rows ==> s.rows[id].owner.None?
  }

  ghost predicate Next(validCron: string -> bool, s: State, s': State, step: Step) {
    match step
    case Lock(t, req) =>
      t !in s.txs && NoOtherRowExclusive(s, t) && s' == s.(txs := s.txs[t := Sharing(req)])
    case Check(t) =>
      && t in s.txs && s.txs[t].Sharing?
      && var req := s.txs[t].req;
         && req.queue != "" && req.typ != ""
         && s' == s.(txs := s.txs[t := if Scheduled(s.rows, req) then Present(req) else Absent(req)])
    case Insert(t, id) =>
      && t in s.txs && s.txs[t].Absent? && Acceptable(s.txs[t].req, validCron)
      && NoOtherShare(s, t) && id !in s.used
      && s' == s.(txs := s.txs[t := Adding(s.txs[t].req, id)], used := s.used + {id})
    case Write(t, added, removed) =>
      // any other writer: Schedule on a caller's transaction, a deletion, an update that touches no compared column
      && t !in s.txs && NoOtherShare(s, t)
      && added.Keys !! s.used && (forall id :: id in added ==> added[id].owner.None?)
      && s' == s.(txs := s.txs[t := Writing(added, removed)], used := s.used + added.Keys)
    case Commit(t) =>
      && t in s.txs && !s.txs[t].Sharing? && !s.txs[t].Absent?
      && s' == s.(txs := s.txs - {t}, rows := Committed(s.rows, s.txs[t]))
    case Abort(t) =>
      // an error, a crash, or the victim of a deadlock
      t in s.txs && s' == s.(txs := s.txs - {t})
  }

  function Committed(rows: Table, tx: Tx): Table {
    match tx
    case Adding(req, id) => rows[id := NewSchedule(req)]
    case Writing(added, removed) => (rows + added) - removed
    case _ => rows
  }

  ghost predicate Run(validCron: string -> bool, ss: seq<State>, steps: seq<Step>) {
    && |ss| == |steps| + 1
    && Init(ss[0])
    && forall i {:trigger steps[i]} :: 0 <= i < |steps| ==> Next(validCron, ss[i], ss[i + 1], steps[i])
  }

  // ---- The invariant.

  /** Every committed row of a request that names its spec matches that request. */
  lemma NewScheduleMatches(req: Request)
    requires req.spec.Some?
    ensures Matches(req, NewSchedule(req))
  {
  }

  ghost predicate Exclusive(s: State) {
    forall t, u :: t in s.txs && u in s.txs && t != u && HoldsRowExclusive(s.txs[t]) ==> !HoldsShare(s.txs[u])
  }

  ghost predicate StillAbsent(s: State, tx: Tx) {
    tx.Absent? || tx.Adding? ==> !Scheduled(s.rows, tx.req)
  }

  ghost predicate AtMostOne(s: State, req: Request) {
    forall a, b :: Asserted(s, a, req) && Asserted(s, b, req) ==> a == b
  }

  ghost predicate Asserted(s: State, id: RowId, req: Request) {
    id in s.rows && s.rows[id].owner == Some(req)
  }

  /** Of two rows inserted on behalf of requests, not each matches the request of the other. */
  ghost predicate NoMutualMatch(s: State) {
    forall a, b, req, req' :: Asserted(s, a, req) && Asserted(s, b, req') && a != b ==>
      !(Matches(req, s.rows[b]) && Matches(req', s.rows[a]))
  }

  /** Row ids are fresh, and rows with an owner are as the owner's call inserted them. */
  ghost predicate Bookkept(s: State) {
    && s.rows.Keys <= s.used
    && (forall id :: id in s.rows && s.rows[id].owner.Some? ==> s.rows[id] == NewSchedule(s.rows[id].owner.value))
    && (forall t :: t in s.txs ==> Uncommitted(s, s.txs[t]))
  }

  ghost predicate Uncommitted(s: State, tx: Tx) {
    && (tx.Writing? ==> tx.added.Keys <= s.used && forall id :: id in tx.added ==> tx.added[id].owner.None?)
    && (tx.Adding? ==> tx.id in s.used)
  }

  ghost predicate Inv(s: State) {
    && Exclusive(s)
    && (forall t :: t in s.txs ==> StillAbsent(s, s.txs[t]))
    && Bookkept(s)
    && NoMutualMatch(s)
  }

  /** The row of a commit is new: its request matched none of the rows that are there. */
  lemma CommitAddsNoMatch(validCron: string -> bool, s: State, s': State, t: TxId)
    requires Inv(s) && Next(validCron, s, s', Commit(t))
    ensures NoMutualMatch(s')
  {
    assert Uncommitted(s, s.txs[t]) && StillAbsent(s, s.txs[t]);
    forall a, b, req, req' | Asserted(s', a, req) && Asserted(s', b, req') && a != b
      ensures !(Matches(req, s'.rows[b]) && Matches(req', s'.rows[a]))
    {
      var added := if s.txs[t].Adding? then {s.txs[t].id} else {};
      assert a in added || Asserted(s, a, req);
      assert b in added || Asserted(s, b, req');
    }
  }

  /** Rows for one request with a spec match it, so there is one of them at most. */
  lemma OneRowPerRequest(s: State, req: Request)
    requires Inv(s) && req.spec.Some?
    ensures AtMostOne(s, req)
  {
    NewScheduleMatches(req);
  }

  lemma BookkeptStep(validCron: string -> bool, s: State, s': State, step: Step)
    requires Bookkept(s) && Next(validCron, s, s', step)
    ensures Bookkept(s')
  {
    if step.Commit? {
      assert Uncommitted(s, s.txs[step.t]);
    }
    forall u | u in s'.txs
      ensures Uncommitted(s', s'.txs[u])
    {
      assert u in s.txs ==> Uncommitted(s, s.txs[u]);
    }
  }

  /** A commit that changes the table finds no other transaction holding the SHARE lock. */
  lemma LockingStep(validCron: string -> bool, s: State, s': State, step: Step)
    requires Exclusive(s) && (forall t :: t in s.txs ==> StillAbsent(s, s.txs[t])) && Next(validCron, s, s', step)
    ensures Exclusive(s') && forall u :: u in s'.txs ==> StillAbsent(s', s'.txs[u])
  {
    forall u | u in s'.txs
      ensures StillAbsent(s', s'.txs[u])
    {
      assert u in s.txs ==> StillAbsent(s, s.txs[u]);
    }
  }

  lemma InvStep(validCron: string -> bool, s: State, s': State, step: Step)
    requires Inv(s) && Next(validCron, s, s', step)
    ensures Inv(s')
  {
    LockingStep(validCron, s, s', step);
    BookkeptStep(validCron, s, s', step);
    if step.Commit? {
      CommitAddsNoMatch(validCron, s, s', step.t);
    } else {
      assert forall id, req :: Asserted(s', id, req) <==> Asserted(s, id, req);
    }
  }

  lemma {:induction false} InvRun(validCron: string -> bool, ss: seq<State>, steps: seq<Step>, n: nat)
    requires Run(validCron, ss, steps) && n < |ss|
    ensures Inv(ss[n])
  {
    if n > 0 {
      InvRun(validCron, ss, steps, n - 1);
      InvStep(validCron, ss[n - 1], ss[n], steps[n - 1]);
    }
  }

  /** In any interleaving a row that was inserted for a request has the columns of that request. */
  lemma AssertedColumns(validCron: string -> bool, ss: seq<State>, steps: seq<Step>, n: nat, id: RowId, req: Request)
    requires Run(validCron, ss, steps) && n < |ss| && Asserted(ss[n], id, req)
    ensures var row := ss[n].rows[id];
      && row.queue == req.queue && row.typ == req.typ && row.cron == req.cron && row.references == req.references
      && row.spec == (if req.spec.None? then "{}" else req.spec.value)
  {
    InvRun(validCron, ss, steps, n);
  }

  /**
   Requests that differ only in cron expression, spelling or columns left out
   cover each other's rows; then too at most one live row was created for them.
   */
  lemma CoveredRequestsShareARow(
    validCron: string -> bool, ss: seq<State>, steps: seq<Step>, n: nat,
    a: RowId, b: RowId, req: Request, req': Request)
    requires Run(validCron, ss, steps) && n < |ss| && Asserted(ss[n], a, req) && Asserted(ss[n], b, req')
    requires Matches(req, NewSchedule(req')) && Matches(req', NewSchedule(req))
    ensures a == b
  {
    InvRun(validCron, ss, steps, n);
    assert ss[n].rows[a] == NewSchedule(req) && ss[n].rows[b] == NewSchedule(req');
  }

  // ---- Exactly for which requests one row is promised.

  lemma Extend(validCron: string -> bool, ss: seq<State>, steps: seq<Step>, s': State, step: Step)
    requires Run(validCron, ss, steps) && Next(validCron, ss[|ss| - 1], s', step)
    ensures Run(validCron, ss + [s'], steps + [step])
  {
    LinkedExtends((s, t, a) => Next(validCron, s, t, a), ss, steps, s', step);
  }

  /** A whole call that finds no match, alone in the database. */
  lemma InsertingCall(validCron: string -> bool, ss: seq<State>, steps: seq<Step>, req: Request, id: RowId)
    returns (ss': seq<State>, steps': seq<Step>)
    requires Run(validCron, ss, steps) && Acceptable(req, validCron)
    requires var s := ss[|ss| - 1]; s.txs == map[] && !Scheduled(s.rows, req) && id !in s.used
    ensures Run(validCron, ss', steps')
    ensures var s := ss[|ss| - 1]; ss'[|ss'| - 1] == State(s.rows[id := NewSchedule(req)], s.used + {id}, map[])
  {
    var s := ss[|ss| - 1];
    var s1 := s.(txs := map[0 := Sharing(req)]);
    Extend(validCron, ss, steps, s1, Lock(0, req));
    ss', steps' := ss + [s1], steps + [Lock(0, req)];
    var s2 := s.(txs := map[0 := Absent(req)]);
    Extend(validCron, ss', steps', s2, Check(0));
    ss', steps' := ss' + [s2], steps' + [Check(0)];
    var s3 := State(s.rows, s.used + {id}, map[0 := Adding(req, id)]);
    Extend(validCron, ss', steps', s3, Insert(0, id));
    ss', steps' := ss' + [s3], steps' + [Insert(0, id)];
    var s4 := State(s.rows[id := NewSchedule(req)], s.used + {id}, map[]);
    Extend(validCron, ss', steps', s4, Commit(0));
    ss', steps' := ss' + [s4], steps' + [Commit(0)];
  }

  /** With a nil spec the second call does not see the row of the first. */
  lemma NilSpecInsertsTwice(validCron: string -> bool, req: Request) returns (ss: seq<State>, steps: seq<Step>)
    requires Acceptable(req, validCron) && req.spec.None?
    ensures Run(validCron, ss, steps) && !AtMostOne(ss[|ss| - 1], req)
  {
    ss, steps := InsertingCall(validCron, [State(map[], {}, map[])], [], req, 0);
    ss, steps := InsertingCall(validCron, ss, steps, req, 1);
    var s := ss[|ss| - 1];
    assert Asserted(s, 0, req) && Asserted(s, 1, req);
  }

  /** At most one live row is ever created for a request, in any interleaving, exactly when its spec is not nil. */
  lemma AtMostOneIff(validCron: string -> bool, req: Request)
    requires Acceptable(req, validCron)
    ensures (forall ss, steps, n :: Run(validCron, ss, steps) && 0 <= n < |ss| ==> AtMostOne(ss[n], req))
      <==> req.spec.Some?
  {
    if req.spec.Some? {
      forall ss, steps, n | Run(validCron, ss, steps) && 0 <= n < |ss|
        ensures AtMostOne(ss[n], req)
      {
        InvRun(validCron, ss, steps, n);
        OneRowPerRequest(ss[n], req);
      }
    } else {
      var ss, steps := NilSpecInsertsTwice(validCron, req);
      assert !AtMostOne(ss[|ss| - 1], req);
    }
  }
}
