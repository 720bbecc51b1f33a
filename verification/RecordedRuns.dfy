/**
  * Tables that only `record_plan` fills: no plan's locks sit under another plan's owner, so two recovery
  * passes settle them.
  */
module RecordedRuns {
  import opened Options
  import opened ByteStrings
  import opened Journal
  import opened Wallet
  import opened RecoveryPasses

  /** What is asked of the hash behind `lock_owner_hex`: different plans have different owners, none of them empty. */
  ghost predicate Separates(owner: OwnerOf) {
    (forall a, b :: owner(a) == owner(b) ==> a == b) && forall a :: owner(a) != ""
  }

  /** The lock owner `record_plan` writes: shielded plans are locked under their own id, others take no locks. */
  predicate AsRecorded(owner: OwnerOf, plan: Plan) {
    plan.lockOwner == if plan.fundingMode == "shielded" then owner(plan.id) else ""
  }

  ghost predicate RecordedTable(owner: OwnerOf, t: Table) {
    t.Valid() && forall id :: id in t.rows ==> AsRecorded(owner, t.rows[id].plan)
  }

  lemma RecordedIsWellOwned(owner: OwnerOf, t: Table)
    requires Separates(owner) && RecordedTable(owner, t)
    ensures WellOwned(owner, t)
  {
    forall a, b | a in t.rows && b in t.rows && t.rows[a].plan.lockOwner == owner(b) ensures a == b {
      assert AsRecorded(owner, t.rows[a].plan) && t.rows[a].plan.id == a;
    }
  }

  predicate Inserts(actions: seq<Action>, plans: set<Plan>) {
    forall a :: a in actions && a.Insert? ==> a.plan in plans
  }

  lemma StepRecorded(owner: OwnerOf, s: Store, a: Action)
    requires RecordedTable(owner, s.table) && Step(owner, s, a).Some?
    requires a.Insert? ==> AsRecorded(owner, a.plan)
    ensures RecordedTable(owner, Step(owner, s, a).value.table)
  {
    hide CanTransition, Unlocked, AsRecorded;
  }

  lemma {:induction false} ExecRecorded(owner: OwnerOf, s: Store, actions: seq<Action>, plans: set<Plan>)
    requires RecordedTable(owner, s.table) && Exec(owner, s, actions).Some?
    requires Inserts(actions, plans) && forall p :: p in plans ==> AsRecorded(owner, p)
    ensures RecordedTable(owner, Exec(owner, s, actions).value.table)
  {
    hide Step, RecordedTable, AsRecorded;
    if actions != [] {
      ExecRecorded(owner, s, actions[..|actions| - 1], plans);
      StepRecorded(owner, Exec(owner, s, actions[..|actions| - 1]).value, actions[|actions| - 1]);
    }
  }

  lemma {:induction false} PassInsertsNothing(f: Row -> seq<Action>, t: Table, ids: seq<string>)
    requires forall row: Row :: Inserts(f(row), {})
    ensures Inserts(OverRows(f, t, ids), {})
  {
    if ids != [] {
      PassInsertsNothing(f, t, ids[1..]);
      if ids[0] in t.rows {
        assert Inserts(f(t.rows[ids[0]]), {});
      }
    }
  }

  /** Only recording a plan inserts a row. */
  lemma OpInserts(owner: OwnerOf, s: Store, op: Op)
    ensures Inserts(ActionsOf(owner, s, op), if op.Record? then {op.plan} else {})
  {
    match op {
      case Recover(tip) =>
        PassInsertsNothing(Recovering(owner, s.locks, tip), s.table, NonTerminalIds(s.table, s.table.order));
      case Reconcile(status, tip) =>
        PassInsertsNothing(Reconciling(status, tip), s.table, NonTerminalIds(s.table, s.table.order));
      case _ =>
    }
  }

  ghost predicate RecordsPlans(owner: OwnerOf, ops: seq<Op>) {
    forall op :: op in ops && op.Record? ==> AsRecorded(owner, op.plan)
  }

  lemma {:induction false} RunsAreRecorded(owner: OwnerOf, states: seq<Store>, ops: seq<Op>, k: nat)
    requires IsRun(owner, states, ops) && RecordsPlans(owner, ops) && k < |states|
    ensures RecordedTable(owner, states[k].table)
  {
    hide ActionsOf, Exec, AsRecorded;
    if k > 0 {
      RunsAreRecorded(owner, states, ops, k - 1);
      var s, op := states[k - 1], ops[k - 1];
      if !op.LockStore? {
        var actions := ActionsOf(owner, s, op);
        var n :| 0 <= n <= |actions| && Exec(owner, s, actions[..n]) == Some(states[k]);
        OpInserts(owner, s, op);
        ExecRecorded(owner, s, actions[..n], if op.Record? then {op.plan} else {});
      }
    }
  }

  /**
    * Whatever a wallet did and however often it crashed: as long as plans enter the journal through
    * `record_plan`, two recovery passes settle its table.
    */
  lemma TwoPassesSettleRuns(owner: OwnerOf, states: seq<Store>, ops: seq<Op>, k: nat, status: string -> StatusReply,
      tip: BlockHeight)
    requires Separates(owner) && IsRun(owner, states, ops) && RecordsPlans(owner, ops) && k < |states|
    ensures var s1 := Pass(owner, states[k], status, tip);
      s1.Some? && var s2 := Pass(owner, s1.value, status, tip); s2.Some? && !Performs(owner, s2.value, status, tip)
  {
    hide Pass, Performs, IsRun, WellOwned;
    RunsAreRecorded(owner, states, ops, k);
    RecordedIsWellOwned(owner, states[k].table);
    TwoPassesSettleWellOwned(owner, states[k], status, tip);
  }
}
