/**
 Database preparation: the sequential code of one run, and any number of
 replicas running it against one database with a crash possible at any step.
 A statement stands for its row `name_hash` in the migrations table.
 */
module Migrations {
  import opened Options
  import opened Runs
  import opened Selections

  type Version = string
  type ReplicaId = nat

  datatype Config = Config(app: Version, initSql: Version, list: seq<Version>)

  /**
   The guard that ends a run before it does anything.  The version is read into
   an empty string, so an empty app version matches even when no row was found.
   */
  predicate Known(c: Config, recorded: set<Version>) {
    c.app in recorded || c.app == ""
  }

  function Unrecorded(recorded: set<Version>): Version -> bool {
    (v: Version) => v !in recorded
  }

  /** The statements of `list` that are not recorded, in order. */
  function Pending(list: seq<Version>, recorded: set<Version>): seq<Version> {
    Filter(list, Unrecorded(recorded))
  }

  function Members(list: seq<Version>): set<Version> {
    set v | v in list
  }

  predicate Distinct(list: seq<Version>) {
    forall i, j :: 0 <= i < j < |list| ==> list[i] != list[j]
  }

  lemma PendingMembers(list: seq<Version>, recorded: set<Version>)
    ensures forall v :: v in Pending(list, recorded) <==> v in list && v !in recorded
  {
    FilterMembers(list, Unrecorded(recorded));
  }

  /** Every unrecorded statement is pending, once for each time it is listed and in the order of the list. */
  lemma PendingInOrder(list: seq<Version>, recorded: set<Version>) returns (at: seq<nat>)
    ensures forall i :: 0 <= i < |at| ==> at[i] < |list| && list[at[i]] !in recorded
    ensures forall i, j :: 0 <= i < j < |at| ==> at[i] < at[j]
    ensures forall k :: 0 <= k < |list| && list[k] !in recorded ==> k in at
    ensures |at| == |Pending(list, recorded)| && forall i :: 0 <= i < |at| ==> Pending(list, recorded)[i] == list[at[i]]
  {
    at := FilterInOrder(list, Unrecorded(recorded));
  }

  lemma {:induction false} PendingOnce(list: seq<Version>, recorded: set<Version>, v: Version)
    requires Distinct(list)
    ensures multiset(Pending(list, recorded))[v] == if v in list && v !in recorded then 1 else 0
  {
    if list != [] {
      var k := |list| - 1;
      PendingOnce(list[..k], recorded, v);
      assert list == list[..k] + [list[k]];
    }
  }

  // ---- One run, as the code performs it.

  /** Where a run fails, if it does. */
  datatype Fault =
    | NoFault
    | AtInit
    | AtStatement(k: nat)
    | AtMigrateCommit
    | AtViews
    | AtSave(k: nat)
    | AtRecord
    | AtCommit

  class Database {
    var recorded: set<Version>
    /** Executions that were committed: by migrate, and of the init statement. */
    var execs: seq<Version>
    var inits: seq<Version>

    constructor ()
      ensures recorded == {} && execs == [] && inits == []
    {
      recorded, execs, inits := {}, [], [];
    }

    /** Executes what is not recorded in one transaction; any failure rolls all of it back. */
    method Migrate(list: seq<Version>, fault: Fault) returns (ok: bool)
      modifies this
      ensures recorded == old(recorded) && inits == old(inits)
      ensures execs == if ok then old(execs) + Pending(list, recorded) else old(execs)
      ensures ok <==>
        && fault != AtMigrateCommit
        && !(fault.AtStatement? && fault.k < |list| && list[fault.k] !in recorded)
    {
      var executed := [];
      for k := 0 to |list|
        invariant executed == Pending(list[..k], recorded)
        invariant fault.AtStatement? && fault.k < k ==> list[fault.k] in recorded
        invariant recorded == old(recorded) && inits == old(inits) && execs == old(execs)
      {
        assert list[..k + 1][..k] == list[..k];
        if list[k] !in recorded {
          if fault == AtStatement(k) {
            return false;
          }
          executed := executed + [list[k]];
        }
      }
      assert list[..|list|] == list;
      if fault == AtMigrateCommit {
        return false;
      }
      execs := execs + executed;
      return true;
    }

    /** Runs the init statement until one attempt goes through completely; each attempt commits by itself. */
    method Initialize(initSql: Version, fault: Fault, retries: nat) returns (ok: bool)
      modifies this
      ensures recorded == old(recorded) && execs == old(execs)
      ensures old(inits) <= inits && |inits| == |old(inits)| + retries + (if ok then 1 else 0)
      ensures forall i :: |old(inits)| <= i < |inits| ==> inits[i] == initSql
      ensures ok <==> fault != AtInit
    {
      for i := 0 to retries
        invariant recorded == old(recorded) && execs == old(execs)
        invariant old(inits) <= inits && |inits| == |old(inits)| + i
        invariant forall i :: |old(inits)| <= i < |inits| ==> inits[i] == initSql
      {
        inits := inits + [initSql];
      }
      if fault == AtInit {
        return false;
      }
      inits := inits + [initSql];
      assert inits[|inits| - 1] == initSql;
      return true;
    }

    /** Collects the rows of all statements for the outer transaction. */
    method SaveVersionHashes(list: seq<Version>, inserted: set<Version>, fault: Fault)
      returns (ok: bool, inserted': set<Version>)
      ensures ok ==> forall v :: v in inserted' <==> v in inserted || v in list
      ensures ok ==> inserted' == inserted + Members(list)
      ensures ok <==> !(fault.AtSave? && fault.k < |list|)
    {
      inserted' := inserted;
      for k := 0 to |list|
        invariant inserted' == inserted + Members(list[..k])
        invariant fault.AtSave? ==> k <= fault.k
      {
        if fault == AtSave(k) {
          return false, inserted';
        }
        assert list[..k + 1] == list[..k] + [list[k]];
        inserted' := inserted' + {list[k]};
      }
      assert list[..|list|] == list;
      return true, inserted';
    }

    /** `retries` counts the attempts of the init statement that ran before one went through completely. */
    method Prepare(c: Config, fault: Fault, retries: nat) returns (ok: bool)
      modifies this
      ensures Known(c, old(recorded)) ==>
        ok && recorded == old(recorded) && execs == old(execs) && inits == old(inits)
      ensures ok ==> (c.app in recorded <==> c.app in old(recorded) || c.app != "")
      ensures !Known(c, old(recorded)) && ok ==>
        && recorded == old(recorded) + {c.app, c.initSql} + Members(c.list)
        && execs == old(execs) + Pending(c.list, old(recorded))
      ensures !ok ==>
        && recorded == old(recorded)
        && (execs == old(execs) || execs == old(execs) + Pending(c.list, old(recorded)))
      ensures inits != old(inits) ==> c.initSql !in old(recorded)
      ensures old(inits) <= inits && forall i :: |old(inits)| <= i < |inits| ==> inits[i] == c.initSql
      ensures !Known(c, old(recorded)) && ok ==>
        forall v :: v in recorded <==> v in old(recorded) || v == c.app || v == c.initSql || v in c.list
      // exactly which faults are reported
      ensures !ok <==>
        && c.app !in old(recorded) && c.app != ""
        && (|| (fault == AtInit && c.initSql !in old(recorded))
            || (fault.AtStatement? && fault.k < |c.list| && c.list[fault.k] !in old(recorded))
            || fault == AtMigrateCommit || fault == AtViews
            || (fault.AtSave? && fault.k < |c.list|)
            || fault == AtRecord || fault == AtCommit)
      // and what they leave behind: init comes first, then the statements, then their rows
      ensures !ok && (fault == AtInit || fault.AtStatement? || fault == AtMigrateCommit) ==> execs == old(execs)
      ensures !ok && (fault == AtViews || fault.AtSave? || fault == AtRecord || fault == AtCommit) ==>
        execs == old(execs) + Pending(c.list, old(recorded))
      ensures c.app !in old(recorded) && c.app != "" && c.initSql !in old(recorded) ==>
        |inits| == |old(inits)| + retries + if fault == AtInit then 0 else 1
      ensures c.initSql in old(recorded) ==> inits == old(inits)
    {
      var version := "";
      if c.app in recorded {
        version := c.app;
      }
      if version == c.app {
        return true;
      }
      var inserted: set<Version> := {};
      if c.initSql !in recorded {
        var initialised := Initialize(c.initSql, fault, retries);
        if !initialised {
          return false;
        }
        inserted := inserted + {c.initSql};
      }
      var migrated := Migrate(c.list, fault);
      if !migrated || fault == AtViews {
        return false;
      }
      var saved: bool;
      saved, inserted := SaveVersionHashes(c.list, inserted, fault);
      if !saved {
        return false;
      }
      if fault == AtRecord || fault == AtCommit {
        return false;
      }
      inserted := inserted + {c.app};
      recorded := recorded + inserted;
      return true;
    }
  }

  // ---- Many replicas.

  datatype Pc =
    | Locked
    | AppUnknown
    | Initing
    | Migrating(k: nat, executed: seq<Version>)
    | Migrated
    | Saving(k: nat)
    | Recorded

  /** `inserted` are the uncommitted rows of the outer transaction, `ran` the executions migrate has committed. */
  datatype Run = Run(pc: Pc, inserted: set<Version>, ran: seq<Version>)

  /**
   `execs` and `inits` count committed executions.  `failed` and `settled` split
   those of migrate by the fate of their run; `failedRuns` counts the runs that
   failed after migrate had committed.
   */
  datatype State = State(
    recorded: set<Version>, holder: Option<ReplicaId>, runs: map<ReplicaId, Run>,
    execs: multiset<Version>, inits: multiset<Version>,
    failed: multiset<Version>, settled: multiset<Version>, failedRuns: nat)

  datatype Step =
    | Acquire(r: ReplicaId)
    | CheckApp(r: ReplicaId)
    | CheckInit(r: ReplicaId)
    | TryInit(r: ReplicaId, complete: bool)
    | Statement(r: ReplicaId)
    | CommitMigrate(r: ReplicaId)
    | Views(r: ReplicaId)
    | Save(r: ReplicaId)
    | RecordApp(r: ReplicaId)
    | Commit(r: ReplicaId)
    | Crash(r: ReplicaId)

  type Fleet = map<ReplicaId, Config>

  /** App versions name their list, and no app version looks like a statement's row. */
  ghost predicate Sane(fleet: Fleet) {
    && (forall r, r' :: r in fleet && r' in fleet && fleet[r].app == fleet[r'].app ==> fleet[r] == fleet[r'])
    && (forall r, r' :: r in fleet && r' in fleet ==>
        fleet[r].app != fleet[r'].initSql && fleet[r].app !in fleet[r'].list)
  }

  ghost predicate Init(s: State) {
    s == State({}, None, map[], multiset{}, multiset{}, multiset{}, multiset{}, 0)
  }

  function At(s: State, r: ReplicaId, run: Run): State {
    s.(runs := s.runs[r := run])
  }

  function Leave(s: State, r: ReplicaId): State {
    s.(runs := s.runs - {r}, holder := None)
  }

  predicate PastMigrate(pc: Pc) {
    pc.Migrated? || pc.Saving? || pc.Recorded?
  }

  ghost predicate Next(fleet: Fleet, s: State, s': State, step: Step) {
    && step.r in fleet
    && if step.Acquire? then
         s.holder == None && step.r !in s.runs && s' == At(s, step.r, Run(Locked, {}, [])).(holder := Some(step.r))
       else
         && step.r in s.runs
         && RunStep(fleet[step.r], s, s', step, step.r, s.runs[step.r])
  }

  ghost predicate RunStep(c: Config, s: State, s': State, step: Step, r: ReplicaId, run: Run)
    requires !step.Acquire?
  {
    match step
    case CheckApp(_) =>
      run.pc == Locked && s' == if Known(c, s.recorded) then Leave(s, r) else At(s, r, run.(pc := AppUnknown))
    case CheckInit(_) =>
      run.pc == AppUnknown && s' == At(s, r, run.(pc := if c.initSql in s.recorded then Migrating(0, []) else Initing))
    case TryInit(_, complete) =>
      && run.pc == Initing
      && s' == (if complete then At(s, r, run.(pc := Migrating(0, []), inserted := run.inserted + {c.initSql})) else s)
               .(inits := s.inits + multiset{c.initSql})
    case Statement(_) =>
      && run.pc.Migrating? && run.pc.k < |c.list|
      && var v := c.list[run.pc.k];
         var executed := if v in s.recorded then run.pc.executed else run.pc.executed + [v];
         s' == At(s, r, run.(pc := Migrating(run.pc.k + 1, executed)))
    case CommitMigrate(_) =>
      && run.pc.Migrating? && run.pc.k == |c.list|
      && s' == At(s, r, run.(pc := Migrated, ran := run.pc.executed)).(execs := s.execs + multiset(run.pc.executed))
    case Views(_) => run.pc == Migrated && s' == At(s, r, run.(pc := Saving(0)))
    case Save(_) =>
      && run.pc.Saving? && run.pc.k < |c.list|
      && s' == At(s, r, run.(pc := Saving(run.pc.k + 1), inserted := run.inserted + {c.list[run.pc.k]}))
    case RecordApp(_) =>
      run.pc == Saving(|c.list|) && s' == At(s, r, run.(pc := Recorded, inserted := run.inserted + {c.app}))
    case Commit(_) =>
      && run.pc == Recorded
      && s' == Leave(s, r).(recorded := s.recorded + run.inserted, settled := s.settled + multiset(run.ran))
    case Crash(_) =>
      s' == Leave(s, r).(
        failed := s.failed + multiset(run.ran), failedRuns := s.failedRuns + if PastMigrate(run.pc) then 1 else 0)
  }

  ghost predicate Behavior(fleet: Fleet, ss: seq<State>, steps: seq<Step>) {
    && |ss| == |steps| + 1
    && Init(ss[0])
    && forall i {:trigger steps[i]} :: 0 <= i < |steps| ==> Next(fleet, ss[i], ss[i + 1], steps[i])
  }

  // ---- The invariant.

  /** The lock admits one run, and only to its holder. */
  ghost predicate OnlyHolderRuns(s: State) {
    forall r :: r in s.runs <==> s.holder == Some(r)
  }

  ghost predicate Executed(s: State, v: Version) {
    v in s.execs || v in s.inits
  }

  /** How far a run has come, and what its migrate step executed. */
  ghost predicate Stage(s: State, c: Config, run: Run) {
    && (run.pc != Locked ==> !Known(c, s.recorded))
    && (run.pc == Initing ==> c.initSql !in s.recorded)
    && (run.pc.Migrating? ==> run.pc.k <= |c.list| && run.pc.executed == Pending(c.list[..run.pc.k], s.recorded))
    && run.ran == (if PastMigrate(run.pc) then Pending(c.list, s.recorded) else [])
    && (PastMigrate(run.pc) ==> forall v :: v in c.list ==> v in s.execs || v in s.recorded)
  }

  /** Which rows it has inserted: only of statements that were executed, and in the end all of its own. */
  ghost predicate Rows(s: State, c: Config, run: Run) {
    && (run.pc.Migrating? || PastMigrate(run.pc) ==> c.initSql in s.recorded || c.initSql in run.inserted)
    && (run.pc.Saving? ==> run.pc.k <= |c.list| && forall i :: 0 <= i < run.pc.k ==> c.list[i] in run.inserted)
    && (run.pc.Recorded? ==> c.app in run.inserted && forall v :: v in c.list ==> v in run.inserted)
    && (forall v :: v in run.inserted ==>
        (v == c.app && run.pc.Recorded?) || ((v == c.initSql || v in c.list) && (Executed(s, v) || v in s.recorded)))
  }

  ghost predicate OnTrack(s: State, c: Config, run: Run) {
    Stage(s, c, run) && Rows(s, c, run)
  }

  ghost predicate AppCovered(s: State, c: Config) {
    c.app in s.recorded ==> c.initSql in s.recorded && forall v :: v in c.list ==> v in s.recorded
  }

  function LiveRan(s: State): multiset<Version> {
    if s.holder.Some? && s.holder.value in s.runs then multiset(s.runs[s.holder.value].ran) else multiset{}
  }

  /** Every committed execution of migrate belongs to a failed, a settled or the live run. */
  ghost predicate Conserved(s: State) {
    forall v :: s.execs[v] == s.failed[v] + s.settled[v] + LiveRan(s)[v]
  }

  ghost predicate Inv(fleet: Fleet, s: State) {
    && OnlyHolderRuns(s)
    && (forall r :: r in s.runs ==> r in fleet && OnTrack(s, fleet[r], s.runs[r]))
    && (forall r :: r in fleet ==> AppCovered(s, fleet[r]))
    && (forall v :: v in s.recorded ==> Executed(s, v) || exists r :: r in fleet && fleet[r].app == v)
    && Conserved(s)
    && (forall v :: v in s.settled ==> v in s.recorded)
  }

  lemma StageStep(s: State, s': State, c: Config, step: Step, r: ReplicaId)
    requires r in s.runs && Stage(s, c, s.runs[r])
    requires !step.Acquire? && RunStep(c, s, s', step, r, s.runs[r]) && r in s'.runs
    ensures Stage(s', c, s'.runs[r])
  {
    if step.Statement? {
      StatementStage(s, s', c, step, r);
    } else if step.CommitMigrate? {
      CommitMigrateStage(s, s', c, step, r);
    } else {
      assert s'.recorded == s.recorded && s'.execs == s.execs;
    }
  }

  lemma StatementStage(s: State, s': State, c: Config, step: Step, r: ReplicaId)
    requires r in s.runs && Stage(s, c, s.runs[r]) && step.Statement? && RunStep(c, s, s', step, r, s.runs[r])
    ensures Stage(s', c, s'.runs[r])
  {
    var k := s.runs[r].pc.k;
    assert c.list[..k + 1][..k] == c.list[..k];
  }

  lemma CommitMigrateStage(s: State, s': State, c: Config, step: Step, r: ReplicaId)
    requires r in s.runs && Stage(s, c, s.runs[r]) && step.CommitMigrate? && RunStep(c, s, s', step, r, s.runs[r])
    ensures Stage(s', c, s'.runs[r])
  {
    assert c.list[..|c.list|] == c.list;
    PendingMembers(c.list, s.recorded);
    forall v | v in c.list && v !in s.recorded
      ensures v in s'.execs
    {
      assert v in multiset(s.runs[r].pc.executed);
    }
  }

  lemma RowsStep(s: State, s': State, c: Config, step: Step, r: ReplicaId)
    requires r in s.runs && Rows(s, c, s.runs[r]) && Stage(s, c, s.runs[r])
    requires !step.Acquire? && RunStep(c, s, s', step, r, s.runs[r]) && r in s'.runs
    ensures Rows(s', c, s'.runs[r])
  {
    var run, run' := s.runs[r], s'.runs[r];
    assert s'.recorded == s.recorded && s.execs <= s'.execs && s.inits <= s'.inits;
    forall v | v in run'.inserted
      ensures (v == c.app && run'.pc.Recorded?) ||
        ((v == c.initSql || v in c.list) && (Executed(s', v) || v in s'.recorded))
    {
      InsertedRow(s, s', c, step, r, v);
    }
  }

  /** Only the rows of executed statements are inserted, and the app version last. */
  lemma InsertedRow(s: State, s': State, c: Config, step: Step, r: ReplicaId, v: Version)
    requires r in s.runs && Rows(s, c, s.runs[r]) && Stage(s, c, s.runs[r])
    requires !step.Acquire? && RunStep(c, s, s', step, r, s.runs[r]) && r in s'.runs && v in s'.runs[r].inserted
    ensures var pc := s'.runs[r].pc;
      (v == c.app && pc.Recorded?) || ((v == c.initSql || v in c.list) && (Executed(s', v) || v in s'.recorded))
  {
    if v in s.runs[r].inserted {
      assert Executed(s, v) ==> Executed(s', v);
    }
  }

  lemma TablesStep(fleet: Fleet, s: State, s': State, step: Step)
    requires Inv(fleet, s) && Next(fleet, s, s', step) && !step.Commit?
    ensures s'.recorded == s.recorded && s'.settled == s.settled
    ensures s.execs <= s'.execs && s.inits <= s'.inits
    ensures OnlyHolderRuns(s')
  {
    if !step.Acquire? {
      assert OnTrack(s, fleet[step.r], s.runs[step.r]);
      assert s.holder == Some(step.r);
    }
  }

  /** Only the commit of migrate adds executions; leaving moves them to the settled or the failed ones. */
  lemma RanStep(s: State, s': State, c: Config, step: Step, r: ReplicaId)
    requires r in s.runs && s.holder == Some(r) && Stage(s, c, s.runs[r])
    requires !step.Acquire? && RunStep(c, s, s', step, r, s.runs[r])
    ensures
      var ran, ran' := multiset(s.runs[r].ran), if r in s'.runs then multiset(s'.runs[r].ran) else multiset{};
      && s'.holder == (if r in s'.runs then Some(r) else None)
      && s'.execs + s.failed + s.settled + ran == s.execs + s'.failed + s'.settled + ran'
  {
    assert step.CommitMigrate? || step.Commit? || step.Crash? || s'.execs == s.execs;
  }

  lemma ConservedStep(fleet: Fleet, s: State, s': State, step: Step)
    requires Inv(fleet, s) && Next(fleet, s, s', step)
    ensures Conserved(s')
  {
    if step.Acquire? {
      assert LiveRan(s) == LiveRan(s') == multiset{};
    } else {
      var r := step.r;
      assert s.holder == Some(r) && OnTrack(s, fleet[r], s.runs[r]);
      RanStep(s, s', fleet[r], step, r);
      forall v
        ensures s'.execs[v] == s'.failed[v] + s'.settled[v] + LiveRan(s')[v]
      {
        var ran, ran' := multiset(s.runs[r].ran), LiveRan(s');
        assert (s'.execs + s.failed + s.settled + ran)[v] == (s.execs + s'.failed + s'.settled + ran')[v];
        assert s.execs[v] == s.failed[v] + s.settled[v] + ran[v];
      }
    }
  }

  lemma CommitCovers(fleet: Fleet, s: State, s': State, step: Step)
    requires Sane(fleet) && Inv(fleet, s) && Next(fleet, s, s', step) && step.Commit?
    ensures forall r :: r in fleet ==> AppCovered(s', fleet[r])
  {
    var c, run := fleet[step.r], s.runs[step.r];
    assert Rows(s, c, run);
    forall r | r in fleet
      ensures AppCovered(s', fleet[r])
    {
      assert AppCovered(s, fleet[r]);
      if fleet[r].app in run.inserted {
        assert fleet[r].app == c.app;
      }
    }
  }

  lemma CommitRecords(fleet: Fleet, s: State, s': State, step: Step)
    requires Inv(fleet, s) && Next(fleet, s, s', step) && step.Commit?
    ensures forall v :: v in s'.recorded ==> Executed(s', v) || exists r :: r in fleet && fleet[r].app == v
    ensures forall v :: v in s'.settled ==> v in s'.recorded
  {
    var c, run := fleet[step.r], s.runs[step.r];
    assert Rows(s, c, run) && Stage(s, c, run);
    PendingMembers(c.list, s.recorded);
    assert s'.execs == s.execs && s'.inits == s.inits;
    forall v | v in s'.recorded
      ensures Executed(s', v) || exists r :: r in fleet && fleet[r].app == v
    {
      assert Executed(s', v) <==> Executed(s, v);
    }
    forall v | v in s'.settled
      ensures v in s'.recorded
    {
      assert v in s.settled || v in run.ran;
    }
  }

  lemma CommitStep(fleet: Fleet, s: State, s': State, step: Step)
    requires Sane(fleet) && Inv(fleet, s) && Next(fleet, s, s', step) && step.Commit?
    ensures Inv(fleet, s')
  {
    ConservedStep(fleet, s, s', step);
    CommitCovers(fleet, s, s', step);
    CommitRecords(fleet, s, s', step);
    assert s.holder == Some(step.r) && s'.runs == s.runs - {step.r};
  }

  lemma InvStep(fleet: Fleet, s: State, s': State, step: Step)
    requires Sane(fleet) && Inv(fleet, s) && Next(fleet, s, s', step)
    ensures Inv(fleet, s')
  {
    ConservedStep(fleet, s, s', step);
    if step.Commit? {
      CommitStep(fleet, s, s', step);
    } else {
      TablesStep(fleet, s, s', step);
      forall r | r in s'.runs
        ensures r in fleet && OnTrack(s', fleet[r], s'.runs[r])
      {
        if step.Acquire? {
          assert s'.runs[r] == Run(Locked, {}, []);
        } else {
          assert OnTrack(s, fleet[r], s.runs[r]);
          StageStep(s, s', fleet[r], step, r);
          RowsStep(s, s', fleet[r], step, r);
        }
      }
      forall r | r in fleet
        ensures AppCovered(s', fleet[r])
      {
        assert AppCovered(s, fleet[r]);
      }
      forall v | v in s'.recorded
        ensures Executed(s', v) || exists r :: r in fleet && fleet[r].app == v
      {
        assert Executed(s, v) ==> Executed(s', v);
      }
    }
  }

  lemma {:induction false} InvBehavior(fleet: Fleet, ss: seq<State>, steps: seq<Step>, n: nat)
    requires Sane(fleet) && Behavior(fleet, ss, steps) && n < |ss|
    ensures Inv(fleet, ss[n])
  {
    if n > 0 {
      InvBehavior(fleet, ss, steps, n - 1);
      InvStep(fleet, ss[n - 1], ss[n], steps[n - 1]);
    }
  }

  // ---- Safety.

  /** Whatever crashes: one replica past the lock; a recorded app version has all its rows; a row means execution. */
  lemma MigrationSafety(fleet: Fleet, ss: seq<State>, steps: seq<Step>, n: nat)
    requires Sane(fleet) && Behavior(fleet, ss, steps) && n < |ss|
    ensures forall r, r' :: r in ss[n].runs && r' in ss[n].runs ==> r == r'
    ensures forall r :: r in fleet && fleet[r].app in ss[n].recorded ==>
      fleet[r].initSql in ss[n].recorded && forall v :: v in fleet[r].list ==> v in ss[n].recorded
    ensures forall r, v :: r in fleet && (v == fleet[r].initSql || v in fleet[r].list) && v in ss[n].recorded ==>
      Executed(ss[n], v)
  {
    InvBehavior(fleet, ss, steps, n);
    forall r | r in fleet
      ensures AppCovered(ss[n], fleet[r])
    {
    }
  }

  /** A recorded statement is never executed again, by migrate or by init. */
  lemma {:induction false} RecordedIsFinal(fleet: Fleet, ss: seq<State>, steps: seq<Step>, i: nat, j: nat, v: Version)
    requires Sane(fleet) && Behavior(fleet, ss, steps) && i <= j < |ss| && v in ss[i].recorded
    ensures v in ss[j].recorded && ss[j].execs[v] == ss[i].execs[v] && ss[j].inits[v] == ss[i].inits[v]
    decreases j
  {
    if i < j {
      RecordedIsFinal(fleet, ss, steps, i, j - 1, v);
      RecordedAt(fleet, ss, steps, j - 1, v);
    }
  }

  lemma RecordedAt(fleet: Fleet, ss: seq<State>, steps: seq<Step>, n: nat, v: Version)
    requires Sane(fleet) && Behavior(fleet, ss, steps) && n < |steps| && v in ss[n].recorded
    ensures v in ss[n + 1].recorded && ss[n + 1].execs[v] == ss[n].execs[v] && ss[n + 1].inits[v] == ss[n].inits[v]
  {
    InvBehavior(fleet, ss, steps, n);
    RecordedStep(fleet, ss[n], ss[n + 1], steps[n], v);
  }

  lemma RecordedStep(fleet: Fleet, s: State, s': State, step: Step, v: Version)
    requires Inv(fleet, s) && Next(fleet, s, s', step) && v in s.recorded
    ensures v in s'.recorded && s'.execs[v] == s.execs[v] && s'.inits[v] == s.inits[v]
  {
    if step.CommitMigrate? || step.TryInit? {
      assert Stage(s, fleet[step.r], s.runs[step.r]);
      NewExecutions(s, s', fleet[step.r], step, step.r, v);
    } else {
      assert s'.execs == s.execs && s'.inits == s.inits;
    }
  }

  lemma NewExecutions(s: State, s': State, c: Config, step: Step, r: ReplicaId, v: Version)
    requires r in s.runs && Stage(s, c, s.runs[r]) && v in s.recorded
    requires (step.CommitMigrate? || step.TryInit?) && RunStep(c, s, s', step, r, s.runs[r])
    ensures s'.recorded == s.recorded && s'.execs[v] == s.execs[v] && s'.inits[v] == s.inits[v]
  {
    if step.CommitMigrate? {
      assert c.list[..|c.list|] == c.list;
      PendingMembers(c.list, s.recorded);
      assert v !in s.runs[r].pc.executed;
    }
  }

  // ---- Counting.

  /** No list of a replica that migrates at all names a statement twice. */
  ghost predicate DistinctLists(fleet: Fleet) {
    forall r :: r in fleet && fleet[r].app != "" ==> Distinct(fleet[r].list)
  }

  /** Per statement: a settled execution is the only one, and each failed run adds at most one. */
  ghost predicate Counted(s: State) {
    forall v :: s.settled[v] <= 1 && s.failed[v] <= s.failedRuns
  }

  lemma RanOnce(s: State, c: Config, run: Run, v: Version)
    requires Stage(s, c, run) && (c.app != "" ==> Distinct(c.list))
    ensures multiset(run.ran)[v] <= 1 && (multiset(run.ran)[v] > 0 ==> PastMigrate(run.pc) && v !in s.recorded)
  {
    if PastMigrate(run.pc) {
      PendingOnce(c.list, s.recorded, v);
    }
  }

  lemma CountedStep(fleet: Fleet, s: State, s': State, step: Step)
    requires Sane(fleet) && DistinctLists(fleet) && Inv(fleet, s) && Counted(s) && Next(fleet, s, s', step)
    ensures Counted(s')
  {
    if step.Commit? || step.Crash? {
      var c, run := fleet[step.r], s.runs[step.r];
      assert OnTrack(s, c, run);
      forall v
        ensures s'.settled[v] <= 1 && s'.failed[v] <= s'.failedRuns
      {
        RanOnce(s, c, run, v);
        assert s.settled[v] > 0 ==> v in s.recorded;
      }
    }
  }

  lemma {:induction false} CountedBehavior(fleet: Fleet, ss: seq<State>, steps: seq<Step>, n: nat)
    requires Sane(fleet) && DistinctLists(fleet) && Behavior(fleet, ss, steps) && n < |ss|
    ensures Counted(ss[n])
  {
    if n > 0 {
      CountedBehavior(fleet, ss, steps, n - 1);
      CountedAt(fleet, ss, steps, n - 1);
    }
  }

  lemma CountedAt(fleet: Fleet, ss: seq<State>, steps: seq<Step>, n: nat)
    requires Sane(fleet) && DistinctLists(fleet) && Behavior(fleet, ss, steps) && n < |steps| && Counted(ss[n])
    ensures Counted(ss[n + 1])
  {
    InvBehavior(fleet, ss, steps, n);
    CountedStep(fleet, ss[n], ss[n + 1], steps[n]);
  }

  /**
   Every committed execution belongs to a failed run, to the one settled run or
   to the run now past its migrate step; so there is at most one more than the
   runs that failed after migrate had committed.
   */
  lemma ExecutionsAreCounted(fleet: Fleet, ss: seq<State>, steps: seq<Step>, n: nat, v: Version)
    requires Sane(fleet) && DistinctLists(fleet) && Behavior(fleet, ss, steps) && n < |ss|
    ensures ss[n].execs[v] == ss[n].failed[v] + ss[n].settled[v] + LiveRan(ss[n])[v]
    ensures ss[n].execs[v] <= 1 + ss[n].failedRuns
    ensures v in ss[n].recorded ==> LiveRan(ss[n])[v] == 0
  {
    var s := ss[n];
    InvBehavior(fleet, ss, steps, n);
    CountedBehavior(fleet, ss, steps, n);
    if s.holder.Some? {
      var c, run := fleet[s.holder.value], s.runs[s.holder.value];
      assert OnTrack(s, c, run);
      RanOnce(s, c, run, v);
    }
  }

  /** 1 if the i-th step ends a run whose migrate step was committed, without recording it. */
  function LateFailures(ss: seq<State>, steps: seq<Step>): nat -> nat {
    (i: nat) =>
      if i < |steps| && i < |ss| && steps[i].Crash? && steps[i].r in ss[i].runs &&
         (match ss[i].runs[steps[i].r].pc
          case Migrated => true
          case Saving(_) => true
          case Recorded => true
          case _ => false) then 1 else 0
  }

  /** How often the i-th step commits an execution of `v`. */
  function Executions(ss: seq<State>, steps: seq<Step>, v: Version): nat -> nat {
    (i: nat) =>
      if i < |steps| && i < |ss| && steps[i].CommitMigrate? && steps[i].r in ss[i].runs &&
         ss[i].runs[steps[i].r].pc.Migrating? then multiset(ss[i].runs[steps[i].r].pc.executed)[v] else 0
  }

  lemma CountersStep(fleet: Fleet, s: State, s': State, step: Step, v: Version)
    requires Next(fleet, s, s', step)
    ensures s'.execs[v] == s.execs[v] +
      if step.CommitMigrate? && step.r in s.runs && s.runs[step.r].pc.Migrating?
      then multiset(s.runs[step.r].pc.executed)[v] else 0
    ensures s'.failedRuns == s.failedRuns +
      if step.Crash? && step.r in s.runs && PastMigrate(s.runs[step.r].pc) then 1 else 0
  {
    if !step.CommitMigrate? {
      assert s'.execs == s.execs;
    }
  }

  ghost predicate Tallied(ss: seq<State>, steps: seq<Step>, v: Version, i: nat)
    requires i < |steps| && |ss| == |steps| + 1
  {
    && ss[i + 1].execs[v] == ss[i].execs[v] + Executions(ss, steps, v)(i)
    && ss[i + 1].failedRuns == ss[i].failedRuns + LateFailures(ss, steps)(i)
  }

  lemma CountersAt(fleet: Fleet, ss: seq<State>, steps: seq<Step>, v: Version, i: nat)
    requires Behavior(fleet, ss, steps) && i < |steps|
    ensures Tallied(ss, steps, v, i)
  {
    CountersStep(fleet, ss[i], ss[i + 1], steps[i], v);
  }

  lemma {:induction false} TalliesAddUp(ss: seq<State>, steps: seq<Step>, n: nat, v: Version)
    requires |ss| == |steps| + 1 && n < |ss| && ss[0].execs[v] == 0 && ss[0].failedRuns == 0
    requires forall i: nat :: i < |steps| ==> Tallied(ss, steps, v, i)
    ensures ss[n].execs[v] == Sum(Executions(ss, steps, v), n)
    ensures ss[n].failedRuns == Sum(LateFailures(ss, steps), n)
  {
    if n > 0 {
      TalliesAddUp(ss, steps, n - 1, v);
      assert Tallied(ss, steps, v, n - 1);
    }
  }

  /** The counters of the state are counts of steps of the run. */
  lemma CountersCountSteps(fleet: Fleet, ss: seq<State>, steps: seq<Step>, n: nat, v: Version)
    requires Behavior(fleet, ss, steps) && n < |ss|
    ensures ss[n].execs[v] == Sum(Executions(ss, steps, v), n)
    ensures ss[n].failedRuns == Sum(LateFailures(ss, steps), n)
  {
    forall i: nat | i < |steps|
      ensures Tallied(ss, steps, v, i)
    {
      CountersAt(fleet, ss, steps, v, i);
    }
    TalliesAddUp(ss, steps, n, v);
  }

  /** A run that finds its app version recorded, or has an empty one, leaves at once with every table as it was. */
  lemma KnownVersionExecutesNothing(fleet: Fleet, s: State, s': State, step: Step)
    requires Sane(fleet) && Inv(fleet, s) && Next(fleet, s, s', step) && !step.Acquire?
    requires Known(fleet[step.r], s.recorded)
    ensures step.CheckApp? || step.Crash?
    ensures step.r !in s'.runs && s'.holder == None
    ensures s'.recorded == s.recorded && s'.execs == s.execs && s'.inits == s.inits
  {
    assert OnTrack(s, fleet[step.r], s.runs[step.r]);
  }

  // ---- A run that is not disturbed does what the sequential code does.

  ghost predicate Path(fleet: Fleet, ss: seq<State>, steps: seq<Step>) {
    |ss| == |steps| + 1 && forall i {:trigger steps[i]} :: 0 <= i < |steps| ==> Next(fleet, ss[i], ss[i + 1], steps[i])
  }

  ghost predicate Reaches(fleet: Fleet, s: State, s': State) {
    exists ss, steps :: Path(fleet, ss, steps) && ss[0] == s && ss[|ss| - 1] == s'
  }

  lemma ReachesStep(fleet: Fleet, s: State, s': State, s'': State, step: Step)
    requires Reaches(fleet, s, s') && Next(fleet, s', s'', step)
    ensures Reaches(fleet, s, s'')
  {
    var ss, steps :| Path(fleet, ss, steps) && ss[0] == s && ss[|ss| - 1] == s';
    LinkedExtends((t, t', a) => Next(fleet, t, t', a), ss, steps, s'', step);
    var ss' := ss + [s''];
    assert Path(fleet, ss', steps + [step]) && ss'[0] == s && ss'[|ss'| - 1] == s'';
  }

  lemma {:induction false} StatementsReach(
    fleet: Fleet, s: State, r: ReplicaId, inserted: set<Version>, t: State, k: nat)
    requires r in fleet && k <= |fleet[r].list| && Reaches(fleet, s, At(t, r, Run(Migrating(0, []), inserted, [])))
    ensures Reaches(fleet, s, At(t, r, Run(Migrating(k, Pending(fleet[r].list[..k], t.recorded)), inserted, [])))
  {
    if k > 0 {
      StatementsReach(fleet, s, r, inserted, t, k - 1);
      var list := fleet[r].list;
      assert list[..k][..k - 1] == list[..k - 1];
      var before := At(t, r, Run(Migrating(k - 1, Pending(list[..k - 1], t.recorded)), inserted, []));
      var after := At(t, r, Run(Migrating(k, Pending(list[..k], t.recorded)), inserted, []));
      assert after == At(before, r, after.runs[r]);
      assert list[k - 1] in t.recorded ==> Pending(list[..k], t.recorded) == Pending(list[..k - 1], t.recorded);
      ReachesStep(fleet, s, before, after, Statement(r));
    }
  }

  lemma {:induction false} SavesReach(
    fleet: Fleet, s: State, r: ReplicaId, inserted: set<Version>, ran: seq<Version>, t: State, k: nat)
    requires r in fleet && k <= |fleet[r].list| && Reaches(fleet, s, At(t, r, Run(Saving(0), inserted, ran)))
    ensures Reaches(fleet, s, At(t, r, Run(Saving(k), inserted + Members(fleet[r].list[..k]), ran)))
  {
    if k > 0 {
      SavesReach(fleet, s, r, inserted, ran, t, k - 1);
      var list := fleet[r].list;
      assert list[..k] == list[..k - 1] + [list[k - 1]];
      var before := At(t, r, Run(Saving(k - 1), inserted + Members(list[..k - 1]), ran));
      var after := At(t, r, Run(Saving(k), inserted + Members(list[..k]), ran));
      assert inserted + Members(list[..k]) == (inserted + Members(list[..k - 1])) + {list[k - 1]};
      assert after == At(before, r, after.runs[r]);
      ReachesStep(fleet, s, before, after, Save(r));
    } else {
      assert inserted + Members(fleet[r].list[..0]) == inserted;
    }
  }

  /** Up to the start of the statements; the init statement runs if its row is missing. */
  lemma PrefaceReaches(fleet: Fleet, s: State, r: ReplicaId) returns (t: State, inserted: set<Version>)
    requires r in fleet && s.holder == None && s.runs == map[] && !Known(fleet[r], s.recorded)
    ensures inserted == if fleet[r].initSql in s.recorded then {} else {fleet[r].initSql}
    ensures t == s.(holder := Some(r), inits := s.inits + multiset(inserted))
    ensures Reaches(fleet, s, At(t, r, Run(Migrating(0, []), inserted, [])))
  {
    var c := fleet[r];
    var h := s.(holder := Some(r));
    assert Path(fleet, [s], []) && [s][0] == s;
    var s1 := At(h, r, Run(Locked, {}, []));
    ReachesStep(fleet, s, s, s1, Acquire(r));
    var s2 := At(h, r, Run(AppUnknown, {}, []));
    assert s2 == At(s1, r, s2.runs[r]);
    ReachesStep(fleet, s, s1, s2, CheckApp(r));
    if c.initSql in s.recorded {
      inserted, t := {}, h;
      var s3 := At(h, r, Run(Migrating(0, []), {}, []));
      assert s3 == At(s2, r, s3.runs[r]);
      ReachesStep(fleet, s, s2, s3, CheckInit(r));
      assert t.inits == s.inits + multiset(inserted);
    } else {
      inserted, t := {c.initSql}, h.(inits := s.inits + multiset{c.initSql});
      var s3 := At(h, r, Run(Initing, {}, []));
      assert s3 == At(s2, r, s3.runs[r]);
      ReachesStep(fleet, s, s2, s3, CheckInit(r));
      var s4 := At(t, r, Run(Migrating(0, []), inserted, []));
      assert {} + {c.initSql} == inserted;
      assert s4 == At(s3, r, s4.runs[r]).(inits := s3.inits + multiset{c.initSql});
      ReachesStep(fleet, s, s3, s4, TryInit(r, true));
      assert multiset(inserted) == multiset{c.initSql};
    }
  }

  /** From an idle database a replica can run to the end, and then leaves the tables as the sequential code does. */
  lemma UndisturbedRun(fleet: Fleet, s: State, r: ReplicaId) returns (s': State)
    requires r in fleet && s.holder == None && s.runs == map[] && !Known(fleet[r], s.recorded)
    ensures Reaches(fleet, s, s') && s'.holder == None && s'.runs == map[] && s'.failedRuns == s.failedRuns
    ensures s'.recorded == s.recorded + {fleet[r].app, fleet[r].initSql} + Members(fleet[r].list)
    ensures s'.execs == s.execs + multiset(Pending(fleet[r].list, s.recorded))
    ensures s'.inits == s.inits + if fleet[r].initSql in s.recorded then multiset{} else multiset{fleet[r].initSql}
  {
    var c := fleet[r];
    var n := |c.list|;
    var t, inserted := PrefaceReaches(fleet, s, r);
    StatementsReach(fleet, s, r, inserted, t, n);
    assert c.list[..n] == c.list;
    var ran := Pending(c.list, s.recorded);
    var t' := t.(execs := t.execs + multiset(ran));
    var a := At(t, r, Run(Migrating(n, ran), inserted, []));
    var b := At(t', r, Run(Migrated, inserted, ran));
    assert b == At(a, r, b.runs[r]).(execs := a.execs + multiset(ran));
    ReachesStep(fleet, s, a, b, CommitMigrate(r));
    var d := At(t', r, Run(Saving(0), inserted, ran));
    assert d == At(b, r, d.runs[r]);
    ReachesStep(fleet, s, b, d, Views(r));
    SavesReach(fleet, s, r, inserted, ran, t', n);
    var all := inserted + Members(c.list);
    var e := At(t', r, Run(Saving(n), all, ran));
    var f := At(t', r, Run(Recorded, all + {c.app}, ran));
    assert f == At(e, r, f.runs[r]);
    ReachesStep(fleet, s, e, f, RecordApp(r));
    s' := Leave(f, r).(recorded := f.recorded + (all + {c.app}), settled := f.settled + multiset(ran));
    ReachesStep(fleet, s, f, s', Commit(r));
    assert s'.runs == map[];
  }

  // ---- The bound on executions holds exactly for lists without repetition.

  lemma {:induction false} PendingOfNothingRecorded(list: seq<Version>)
    ensures Pending(list, {}) == list
  {
    if list != [] {
      var k := |list| - 1;
      PendingOfNothingRecorded(list[..k]);
      assert list == list[..k] + [list[k]];
    }
  }

  lemma RepeatedIsCountedTwice(list: seq<Version>, i: nat, j: nat)
    requires i < j < |list| && list[i] == list[j]
    ensures multiset(list)[list[i]] >= 2
  {
    var v := list[i];
    assert list == list[..j] + list[j..];
    assert list[..j][i] == v && list[j..][0] == v;
    assert v in multiset(list[..j]) && v in multiset(list[j..]);
    assert multiset(list)[v] == multiset(list[..j])[v] + multiset(list[j..])[v];
  }

  /** One undisturbed run executes a name twice that its list repeats: its own rows are not yet visible to it. */
  lemma RepeatedNameRunsTwice(fleet: Fleet, r: ReplicaId, i: nat, j: nat) returns (ss: seq<State>, steps: seq<Step>)
    requires r in fleet && fleet[r].app != "" && i < j < |fleet[r].list| && fleet[r].list[i] == fleet[r].list[j]
    ensures Behavior(fleet, ss, steps)
    ensures ss[|ss| - 1].execs[fleet[r].list[i]] >= 2 && ss[|ss| - 1].failedRuns == 0
  {
    var s0 := State({}, None, map[], multiset{}, multiset{}, multiset{}, multiset{}, 0);
    var s := UndisturbedRun(fleet, s0, r);
    PendingOfNothingRecorded(fleet[r].list);
    RepeatedIsCountedTwice(fleet[r].list, i, j);
    ss, steps :| Path(fleet, ss, steps) && ss[0] == s0 && ss[|ss| - 1] == s;
  }

  /** `execs[v]` is at most one more than the late failures. */
  ghost predicate ExecutionsBounded(s: State) {
    forall v :: s.execs[v] <= 1 + s.failedRuns
  }

  /** In all runs of a fleet, whatever crashes, exactly when no list repeats a name. */
  lemma ExecutionsBoundedIff(fleet: Fleet)
    requires Sane(fleet)
    ensures (forall ss, steps, n :: Behavior(fleet, ss, steps) && 0 <= n < |ss| ==> ExecutionsBounded(ss[n]))
      <==> DistinctLists(fleet)
  {
    if DistinctLists(fleet) {
      forall ss, steps, n | Behavior(fleet, ss, steps) && 0 <= n < |ss|
        ensures ExecutionsBounded(ss[n])
      {
        var s: State := ss[n];
        forall v
          ensures s.execs[v] <= 1 + s.failedRuns
        {
          ExecutionsAreCounted(fleet, ss, steps, n, v);
        }
      }
    } else {
      var r :| r in fleet && fleet[r].app != "" && !Distinct(fleet[r].list);
      var i, j :| 0 <= i < j < |fleet[r].list| && fleet[r].list[i] == fleet[r].list[j];
      var ss, steps := RepeatedNameRunsTwice(fleet, r, i, j);
      assert !ExecutionsBounded(ss[|ss| - 1]);
    }
  }
}
