/** How many recovery passes a table needs before nothing moves. */
module RecoveryPasses {
  import opened Options
  import opened ByteStrings
  import opened Journal
  import opened Wallet
  import opened Recovery

  predicate Moves(actions: seq<Action>) {
    exists i :: 0 <= i < |actions| && actions[i].Move?
  }

  /** A row changes exactly when its actions move it. */
  lemma RecoverRowMoves(owner: OwnerOf, row: Row, locks: seq<LockedOutput>, tip: BlockHeight)
    ensures Moves(RecoverRow(owner, row, locks, tip)) <==> Recovered(owner, row, locks, tip) != row
    ensures Terminal(row.stage) ==> RecoverRow(owner, row, locks, tip) == []
  {
    var actions := RecoverRow(owner, row, locks, tip);
    assert actions != [] ==> actions[0].Move?;
  }

  lemma ReconcileRowMoves(row: Row, status: string -> StatusReply, tip: BlockHeight)
    ensures Moves(ReconcileRow(row, status, tip)) <==> Reconciled(row, status, tip) != row
    ensures Terminal(row.stage) ==> ReconcileRow(row, status, tip) == []
  {
    var actions := ReconcileRow(row, status, tip);
    assert |actions| > 1 ==> actions[1].Move?;
  }

  lemma {:induction false} OverRowsMoves(f: Row -> seq<Action>, t: Table, ids: seq<string>)
    ensures Moves(OverRows(f, t, ids)) <==> exists id :: id in ids && id in t.rows && Moves(f(t.rows[id]))
  {
    if ids != [] {
      var id, rest := ids[0], ids[1..];
      assert ids == [id] + rest;
      OverRowsMoves(f, t, rest);
      MovesConcat(if id in t.rows then f(t.rows[id]) else [], OverRows(f, t, rest));
    }
  }

  lemma MovesConcat(a: seq<Action>, b: seq<Action>)
    ensures Moves(a + b) <==> Moves(a) || Moves(b)
  {
    var ab := a + b;
    if Moves(a) {
      var i :| 0 <= i < |a| && a[i].Move?;
      assert ab[i].Move?;
    }
    if Moves(b) {
      var i :| 0 <= i < |b| && b[i].Move?;
      assert ab[|a| + i].Move?;
    }
  }

  lemma {:induction false} FreedByWhich(owner: OwnerOf, f: Row -> seq<Action>, t: Table, ids: seq<string>, o: string)
    ensures o in FreedBy(owner, f, t, ids) <==>
      exists id :: id in ids && id in t.rows && Frees(f(t.rows[id])) && owner(id) == o
  {
    if ids != [] {
      assert ids == [ids[0]] + ids[1..];
      FreedByWhich(owner, f, t, ids[1..], o);
    }
  }

  lemma {:induction false} NonTerminalMembers(t: Table, ids: seq<string>)
    requires Unrepeated(ids)
    ensures Unrepeated(NonTerminalIds(t, ids))
    ensures forall id :: id in NonTerminalIds(t, ids) <==> id in ids && id in t.rows && !Terminal(t.rows[id].stage)
  {
    if ids != [] {
      assert ids == [ids[0]] + ids[1..];
      NonTerminalMembers(t, ids[1..]);
    }
  }

  // ---- One pass ----

  function RowPass(owner: OwnerOf, row: Row, locks: seq<LockedOutput>, status: string -> StatusReply,
      tip: BlockHeight): Row {
    Reconciled(Recovered(owner, row, locks, tip), status, tip)
  }

  predicate RowFrees(owner: OwnerOf, row: Row, locks: seq<LockedOutput>, status: string -> StatusReply,
      tip: BlockHeight) {
    RecoveryFrees(owner, row, locks) || ReconcileFrees(Recovered(owner, row, locks, tip), status, tip)
  }

  function OwnersWhere(owner: OwnerOf, t: Table, p: Row -> bool): set<string> {
    set id | id in t.rows && p(t.rows[id]) :: owner(id)
  }

  function PassFrees(owner: OwnerOf, s: Store, status: string -> StatusReply, tip: BlockHeight): set<string> {
    OwnersWhere(owner, s.table, row => RowFrees(owner, row, s.locks, status, tip))
  }

  /** `startup_recover`, run to its end: rows before the broadcast phase, then the reconciler on what is left. */
  function Pass(owner: OwnerOf, s: Store, status: string -> StatusReply, tip: BlockHeight): Option<Store> {
    var mid := Exec(owner, s, RecoverActions(owner, s, tip));
    if mid.None? then None else Exec(owner, mid.value, ReconcileActions(mid.value, status, tip))
  }

  /** Does this pass perform any transition? */
  predicate Performs(owner: OwnerOf, s: Store, status: string -> StatusReply, tip: BlockHeight) {
    var mid := Exec(owner, s, RecoverActions(owner, s, tip));
    Moves(RecoverActions(owner, s, tip)) || (mid.Some? && Moves(ReconcileActions(mid.value, status, tip)))
  }

  ghost predicate IsPass(owner: OwnerOf, s: Store, status: string -> StatusReply, tip: BlockHeight, s': Store) {
    && s'.table.Valid() && s'.table.rows.Keys == s.table.rows.Keys
    && (forall id :: id in s.table.rows ==> s'.table.rows[id] == RowPass(owner, s.table.rows[id], s.locks, status, tip))
    && s'.locks == Without(s.locks, PassFrees(owner, s, status, tip))
  }

  /** `f` acts on single rows, with effect `after`, releasing locks when `frees`, and leaves terminal rows alone. */
  ghost predicate Acts(f: Row -> seq<Action>, after: Row -> Row, frees: Row -> bool) {
    forall row: Row ::
      && About(row.plan.id, f(row)) && RowAfter(row, f(row)) == Some(after(row)) && (Frees(f(row)) <==> frees(row))
      && (Terminal(row.stage) ==> f(row) == [])
      && (Moves(f(row)) <==> after(row) != row)
  }

  lemma TerminalRowsRest(f: Row -> seq<Action>, after: Row -> Row, frees: Row -> bool, row: Row)
    requires Acts(f, after, frees) && Terminal(row.stage)
    ensures after(row) == row && !frees(row) && !Moves(f(row))
  {
  }

  /** One sweep over the non-terminal rows of a table. */
  lemma Sweep(owner: OwnerOf, f: Row -> seq<Action>, after: Row -> Row, frees: Row -> bool,
      s: Store) returns (s': Store)
    requires s.table.Valid() && Acts(f, after, frees)
    ensures Exec(owner, s, OverRows(f, s.table, NonTerminalIds(s.table, s.table.order))) == Some(s')
    ensures s'.table.order == s.table.order && s'.table.rows.Keys == s.table.rows.Keys
    ensures forall id :: id in s.table.rows ==> s'.table.rows[id] == after(s.table.rows[id])
    ensures s'.locks == Without(s.locks, OwnersWhere(owner, s.table, frees))
  {
    var ids := NonTerminalIds(s.table, s.table.order);
    NonTerminalMembers(s.table, s.table.order);
    ActsLawfully(f, after, frees);
    hide Lawful, About, Frees, Moves, Terminal, Exec, FreedBy, OwnersWhere, RowAfter, Without;
    ExecOverRows(owner, f, s.table, s, ids);
    s' := Exec(owner, s, OverRows(f, s.table, ids)).value;
    SweepFreed(owner, f, after, frees, s, ids);
    forall id | id in s.table.rows ensures s'.table.rows[id] == after(s.table.rows[id]) {
      if id !in ids {
        TerminalRowsRest(f, after, frees, s.table.rows[id]);
      }
    }
  }

  lemma ActsLawfully(f: Row -> seq<Action>, after: Row -> Row, frees: Row -> bool)
    requires Acts(f, after, frees)
    ensures Lawful(f)
  {
  }

  lemma SweepFreed(owner: OwnerOf, f: Row -> seq<Action>, after: Row -> Row, frees: Row -> bool, s: Store,
      ids: seq<string>)
    requires Acts(f, after, frees)
    requires forall id :: id in ids <==> id in s.table.rows && !Terminal(s.table.rows[id].stage)
    ensures FreedBy(owner, f, s.table, ids) == OwnersWhere(owner, s.table, frees)
  {
    hide Terminal, RowAfter, About, Moves;
    forall o ensures o in OwnersWhere(owner, s.table, frees) <==> o in FreedBy(owner, f, s.table, ids) {
      FreedByWhich(owner, f, s.table, ids, o);
      forall id | id in s.table.rows && Terminal(s.table.rows[id].stage) ensures !frees(s.table.rows[id]) {
        TerminalRowsRest(f, after, frees, s.table.rows[id]);
      }
    }
  }

  lemma SweepMoves(f: Row -> seq<Action>, after: Row -> Row, frees: Row -> bool, t: Table)
    requires t.Valid() && Acts(f, after, frees)
    ensures Moves(OverRows(f, t, NonTerminalIds(t, t.order))) <==>
      exists id :: id in t.rows && after(t.rows[id]) != t.rows[id]
  {
    var ids := NonTerminalIds(t, t.order);
    NonTerminalMembers(t, t.order);
    OverRowsMoves(f, t, ids);
    hide Terminal, RowAfter, About, Moves;
    forall id | id in t.rows && Terminal(t.rows[id].stage) ensures after(t.rows[id]) == t.rows[id] {
      TerminalRowsRest(f, after, frees, t.rows[id]);
    }
  }

  lemma RecoveryActs(owner: OwnerOf, locks: seq<LockedOutput>, tip: BlockHeight)
    ensures Acts(Recovering(owner, locks, tip), row => Recovered(owner, row, locks, tip),
      row => RecoveryFrees(owner, row, locks))
  {
    hide RecoverRow, Recovered, RecoveryFrees, RowAfter, Moves, Frees, About, Terminal;
    var f := Recovering(owner, locks, tip);
    forall row: Row
      ensures About(row.plan.id, f(row)) && RowAfter(row, f(row)) == Some(Recovered(owner, row, locks, tip))
      ensures Frees(f(row)) <==> RecoveryFrees(owner, row, locks)
      ensures Terminal(row.stage) ==> f(row) == []
      ensures Moves(f(row)) <==> Recovered(owner, row, locks, tip) != row
    {
      RecoverRowEffect(owner, row, locks, tip);
      RecoverRowMoves(owner, row, locks, tip);
    }
  }

  lemma ReconcileActs(status: string -> StatusReply, tip: BlockHeight)
    ensures Acts(Reconciling(status, tip), row => Reconciled(row, status, tip), row => ReconcileFrees(row, status, tip))
  {
    hide ReconcileRow, Reconciled, ReconcileFrees, RowAfter, Moves, Frees, About, Terminal;
    var f := Reconciling(status, tip);
    forall row: Row
      ensures About(row.plan.id, f(row)) && RowAfter(row, f(row)) == Some(Reconciled(row, status, tip))
      ensures Frees(f(row)) <==> ReconcileFrees(row, status, tip)
      ensures Terminal(row.stage) ==> f(row) == []
      ensures Moves(f(row)) <==> Reconciled(row, status, tip) != row
    {
      ReconcileRowEffect(row, status, tip);
      ReconcileRowMoves(row, status, tip);
    }
  }

  lemma RecoverPhase(owner: OwnerOf, s: Store, tip: BlockHeight) returns (mid: Store)
    requires s.table.Valid()
    ensures Exec(owner, s, RecoverActions(owner, s, tip)) == Some(mid)
    ensures mid.table.Valid() && mid.table.rows.Keys == s.table.rows.Keys
    ensures forall id :: id in s.table.rows ==> mid.table.rows[id] == Recovered(owner, s.table.rows[id], s.locks, tip)
    ensures mid.locks == Without(s.locks, OwnersWhere(owner, s.table, row => RecoveryFrees(owner, row, s.locks)))
    ensures Moves(RecoverActions(owner, s, tip)) <==>
      exists id :: id in s.table.rows && Recovered(owner, s.table.rows[id], s.locks, tip) != s.table.rows[id]
  {
    hide Exec, Acts, OwnersWhere, Moves, Without, RecoveryFrees, Recovered, Table.Valid;
    RecoveryActs(owner, s.locks, tip);
    var after := (row: Row) => Recovered(owner, row, s.locks, tip);
    var frees := (row: Row) => RecoveryFrees(owner, row, s.locks);
    mid := Sweep(owner, Recovering(owner, s.locks, tip), after, frees, s);
    SweepMoves(Recovering(owner, s.locks, tip), after, frees, s.table);
    forall row: Row ensures after(row).plan == row.plan {
      PlansKept(owner, row, s.locks, _ => QueryFailed, tip);
    }
    PhaseKeepsValid(s.table, mid.table, after);
  }

  lemma PlansKept(owner: OwnerOf, row: Row, locks: seq<LockedOutput>, status: string -> StatusReply, tip: BlockHeight)
    ensures Recovered(owner, row, locks, tip).plan == row.plan && Reconciled(row, status, tip).plan == row.plan
  {
  }

  lemma PhaseKeepsValid(t: Table, t': Table, after: Row -> Row)
    requires t.Valid() && t'.order == t.order && t'.rows.Keys == t.rows.Keys
    requires forall id :: id in t.rows ==> t'.rows[id] == after(t.rows[id])
    requires forall row: Row :: after(row).plan == row.plan
    ensures t'.Valid()
  {
  }

  lemma ReconcilePhase(owner: OwnerOf, s: Store, status: string -> StatusReply, tip: BlockHeight) returns (s': Store)
    requires s.table.Valid()
    ensures Exec(owner, s, ReconcileActions(s, status, tip)) == Some(s')
    ensures s'.table.Valid() && s'.table.rows.Keys == s.table.rows.Keys
    ensures forall id :: id in s.table.rows ==> s'.table.rows[id] == Reconciled(s.table.rows[id], status, tip)
    ensures s'.locks == Without(s.locks, OwnersWhere(owner, s.table, row => ReconcileFrees(row, status, tip)))
    ensures Moves(ReconcileActions(s, status, tip)) <==>
      exists id :: id in s.table.rows && Reconciled(s.table.rows[id], status, tip) != s.table.rows[id]
  {
    hide Exec, Acts, OwnersWhere, Moves, Without, ReconcileFrees, Reconciled, Table.Valid;
    ReconcileActs(status, tip);
    var after, frees := (row: Row) => Reconciled(row, status, tip), (row: Row) => ReconcileFrees(row, status, tip);
    s' := Sweep(owner, Reconciling(status, tip), after, frees, s);
    SweepMoves(Reconciling(status, tip), after, frees, s.table);
    forall row: Row ensures after(row).plan == row.plan {
      PlansKept(owner, row, s.locks, status, tip);
    }
    PhaseKeepsValid(s.table, s'.table, after);
  }

  /** On any table whatever, recovery never attempts a transition the journal forbids. */
  lemma PassNeverRefused(owner: OwnerOf, s: Store, status: string -> StatusReply, tip: BlockHeight)
    requires s.table.Valid()
    ensures Pass(owner, s, status, tip).Some?
    ensures IsPass(owner, s, status, tip, Pass(owner, s, status, tip).value)
  {
    var mid := RecoverPhase(owner, s, tip);
    var s' := ReconcilePhase(owner, mid, status, tip);
    BothPhasesFree(owner, s, mid, status, tip);
    hide Exec, Without, Recovered, Reconciled, Moves, RecoveryFrees, ReconcileFrees, Table.Valid, OwnersWhere;
    WithoutTwice(s.locks,
      OwnersWhere(owner, s.table, row => RecoveryFrees(owner, row, s.locks)),
      OwnersWhere(owner, mid.table, row => ReconcileFrees(row, status, tip)));
  }

  lemma BothPhasesFree(owner: OwnerOf, s: Store, mid: Store, status: string -> StatusReply, tip: BlockHeight)
    requires mid.table.rows.Keys == s.table.rows.Keys
    requires forall id :: id in s.table.rows ==> mid.table.rows[id] == Recovered(owner, s.table.rows[id], s.locks, tip)
    ensures OwnersWhere(owner, s.table, row => RecoveryFrees(owner, row, s.locks))
      + OwnersWhere(owner, mid.table, row => ReconcileFrees(row, status, tip)) == PassFrees(owner, s, status, tip)
  {
  }

  /** A pass performs a transition exactly when it changes some row. */
  lemma PerformsIffChanges(owner: OwnerOf, s: Store, status: string -> StatusReply, tip: BlockHeight)
    requires s.table.Valid()
    ensures Performs(owner, s, status, tip) <==>
      exists id :: id in s.table.rows && RowPass(owner, s.table.rows[id], s.locks, status, tip) != s.table.rows[id]
  {
    var mid := RecoverPhase(owner, s, tip);
    var s' := ReconcilePhase(owner, mid, status, tip);
    hide Exec, Without, RecoveryFrees, ReconcileFrees, Recovered, Reconciled, Moves, OwnersWhere;
    forall id | id in s.table.rows
      ensures RowPass(owner, s.table.rows[id], s.locks, status, tip) != s.table.rows[id] <==>
        (Recovered(owner, s.table.rows[id], s.locks, tip) != s.table.rows[id]
          || Reconciled(mid.table.rows[id], status, tip) != mid.table.rows[id])
    {
      HalvesDoNotCancel(owner, s.table.rows[id], s.locks, status, tip);
    }
  }

  lemma HalvesDoNotCancel(owner: OwnerOf, row: Row, locks: seq<LockedOutput>, status: string -> StatusReply,
      tip: BlockHeight)
    ensures Recovered(owner, row, locks, tip) != row ==>
      Reconciled(Recovered(owner, row, locks, tip), status, tip) == Recovered(owner, row, locks, tip)
  {
  }

  // ---- Successive passes, one row ----

  lemma {:induction false} HeldAfter(row: Row, locks: seq<LockedOutput>, freed: set<string>)
    ensures Held(row, Without(locks, freed)) == if row.plan.lockOwner in freed then [] else Held(row, locks)
  {
    LocksAfter(locks, freed, row.plan.lockOwner);
  }

  /** A row still to move in the third pass: its mismatched locks vanish in the second. */
  predicate Strandable(owner: OwnerOf, row: Row, locks: seq<LockedOutput>, tip: BlockHeight) {
    var held := Held(row, locks);
    && !OwnerCorrupt(owner, row) && held != [] && !InputsMatch(row, held)
    && (row.stage.Planned? || (row.stage.Reserved? && PastExpiry(row, tip)))
  }

  lemma ReconciledOnce(row: Row, status: string -> StatusReply, tip: BlockHeight)
    ensures var r := Reconciled(row, status, tip);
      Reconciled(r, status, tip) == r && !ReconcileFrees(r, status, tip)
  {
  }

  /** What one pass leaves. */
  lemma AfterFirst(owner: OwnerOf, r0: Row, l0: seq<LockedOutput>, status: string -> StatusReply, tip: BlockHeight)
    ensures var r1 := RowPass(owner, r0, l0, status, tip);
      && r1.plan == r0.plan && r1.txid == r0.txid && Reconciled(r1, status, tip) == r1
        && !ReconcileFrees(r1, status, tip)
      && (OwnerCorrupt(owner, r1) || r1.stage.Planned? || r1.stage.Reserved? || BroadcastPhase(r1.stage)
        || Terminal(r1.stage))
      && (!OwnerCorrupt(owner, r1) && r1.stage.Planned? ==> Held(r0, l0) != [] && !InputsMatch(r0, Held(r0, l0)))
  {
    ReconciledOnce(Recovered(owner, r0, l0, tip), status, tip);
    hide LocksOf, InputsMatch, DefinitelyExpired;
  }

  /** The third pass moves a row only if the second stranded it; and it releases nothing. */
  lemma AfterSecond(owner: OwnerOf, r0: Row, l0: seq<LockedOutput>, f0: set<string>, f1: set<string>,
      status: string -> StatusReply, tip: BlockHeight)
    ensures var l1 := Without(l0, f0);
      var r1 := RowPass(owner, r0, l0, status, tip);
      var r2 := RowPass(owner, r1, l1, status, tip);
      && (RowPass(owner, r2, Without(l1, f1), status, tip) != r2 <==>
        r1.plan.lockOwner in f1 && Strandable(owner, r1, l1, tip))
      && !RowFrees(owner, r2, Without(l1, f1), status, tip)
  {
    var l1 := Without(l0, f0);
    var r1 := RowPass(owner, r0, l0, status, tip);
    AfterFirst(owner, r0, l0, status, tip);
    HeldAfter(r0, l0, f0);
    HeldAfter(r0, l1, f1);
    hide Without, LocksOf;
    SecondStep(owner, r1, l1, Without(l1, f1), r1.plan.lockOwner in f1, status, tip);
  }

  lemma SecondStep(owner: OwnerOf, r1: Row, l1: seq<LockedOutput>, l2: seq<LockedOutput>, freed: bool,
      status: string -> StatusReply, tip: BlockHeight)
    requires Reconciled(r1, status, tip) == r1 && !ReconcileFrees(r1, status, tip)
    requires OwnerCorrupt(owner, r1) || r1.stage.Planned? || r1.stage.Reserved? || BroadcastPhase(r1.stage)
      || Terminal(r1.stage)
    requires !OwnerCorrupt(owner, r1) && r1.stage.Planned? ==> Held(r1, l1) == [] || !InputsMatch(r1, Held(r1, l1))
    requires Held(r1, l2) == if freed then [] else Held(r1, l1)
    ensures var r2 := RowPass(owner, r1, l1, status, tip);
      && (RowPass(owner, r2, l2, status, tip) != r2 <==> freed && Strandable(owner, r1, l1, tip))
      && !RowFrees(owner, r2, l2, status, tip)
  {
  }

  lemma AfterThird(owner: OwnerOf, r2: Row, l2: seq<LockedOutput>, status: string -> StatusReply, tip: BlockHeight)
    requires r2.stage.Planned? && !OwnerCorrupt(owner, r2) ==> Held(r2, l2) == [] || !InputsMatch(r2, Held(r2, l2))
    ensures var r3 := RowPass(owner, r2, l2, status, tip); RowPass(owner, r3, l2, status, tip) == r3
  {
    hide InputsMatch, Held;
    match r2.stage {
      case Planned =>
      case Reserved =>
      case _ =>
    }
  }

  // ---- Successive passes, whole tables ----

  /** Row `a` waits on locks that the second pass releases on behalf of row `b`. */
  predicate Stranded(owner: OwnerOf, s: Store, tip: BlockHeight, a: string, b: string) {
    && a in s.table.rows && b in s.table.rows
    && Strandable(owner, s.table.rows[a], s.locks, tip)
    && RecoveryFrees(owner, s.table.rows[b], s.locks) && owner(b) == s.table.rows[a].plan.lockOwner
  }

  lemma SecondPassReleases(owner: OwnerOf, s0: Store, s1: Store, status: string -> StatusReply, tip: BlockHeight,
      o: string)
    requires IsPass(owner, s0, status, tip, s1)
    ensures o in PassFrees(owner, s1, status, tip) <==>
      exists b :: b in s1.table.rows && RecoveryFrees(owner, s1.table.rows[b], s1.locks) && owner(b) == o
  {
    hide Without, RecoveryFrees, ReconcileFrees, Recovered, Reconciled, Table.Valid;
    forall b | b in s1.table.rows
      ensures RowFrees(owner, s1.table.rows[b], s1.locks, status, tip) <==>
        RecoveryFrees(owner, s1.table.rows[b], s1.locks)
    {
      AfterFirst(owner, s0.table.rows[b], s0.locks, status, tip);
      SettledNotFreed(owner, s1.table.rows[b], s1.locks, status, tip);
    }
  }

  lemma SettledNotFreed(owner: OwnerOf, r1: Row, l1: seq<LockedOutput>, status: string -> StatusReply, tip: BlockHeight)
    requires !ReconcileFrees(r1, status, tip)
    ensures !ReconcileFrees(Recovered(owner, r1, l1, tip), status, tip)
  {
  }

  /** After the second pass: what the third will do to each row. */
  lemma ThirdPassRow(owner: OwnerOf, s0: Store, s1: Store, s2: Store, status: string -> StatusReply,
      tip: BlockHeight, id: string)
    requires IsPass(owner, s0, status, tip, s1) && IsPass(owner, s1, status, tip, s2) && id in s2.table.rows
    ensures !RowFrees(owner, s2.table.rows[id], s2.locks, status, tip)
    ensures RowPass(owner, s2.table.rows[id], s2.locks, status, tip) != s2.table.rows[id] <==>
      exists b :: Stranded(owner, s1, tip, id, b)
  {
    hide Without, RecoveryFrees, ReconcileFrees, RowFrees, RowPass, Strandable, Table.Valid;
    AfterSecond(owner, s0.table.rows[id], s0.locks, PassFrees(owner, s0, status, tip),
      PassFrees(owner, s1, status, tip), status, tip);
    var row := s1.table.rows[id];
    SecondPassReleases(owner, s0, s1, status, tip, row.plan.lockOwner);
    if row.plan.lockOwner in PassFrees(owner, s1, status, tip) && Strandable(owner, row, s1.locks, tip) {
      var b :| b in s1.table.rows && RecoveryFrees(owner, s1.table.rows[b], s1.locks) && owner(b) == row.plan.lockOwner;
      assert Stranded(owner, s1, tip, id, b);
    }
    forall b | Stranded(owner, s1, tip, id, b)
      ensures row.plan.lockOwner in PassFrees(owner, s1, status, tip) && Strandable(owner, row, s1.locks, tip)
    {
    }
  }

  /** The third pass performs a transition exactly when the first leaves a stranded row. */
  lemma ThirdPassAfterFirst(owner: OwnerOf, s0: Store, status: string -> StatusReply, tip: BlockHeight)
    requires s0.table.Valid()
    ensures var s1 := Pass(owner, s0, status, tip);
      && s1.Some?
      && var s2 := Pass(owner, s1.value, status, tip);
         && s2.Some?
         && (Performs(owner, s2.value, status, tip) <==> exists a, b :: Stranded(owner, s1.value, tip, a, b))
  {
    hide Pass, RowPass, Stranded, Performs;
    PassNeverRefused(owner, s0, status, tip);
    var s1 := Pass(owner, s0, status, tip).value;
    PassNeverRefused(owner, s1, status, tip);
    var s2 := Pass(owner, s1, status, tip).value;
    PerformsIffChanges(owner, s2, status, tip);
    forall id | id in s2.table.rows
      ensures RowPass(owner, s2.table.rows[id], s2.locks, status, tip) != s2.table.rows[id] <==>
        exists b :: Stranded(owner, s1, tip, id, b)
    {
      ThirdPassRow(owner, s0, s1, s2, status, tip, id);
    }
    forall a, b | Stranded(owner, s1, tip, a, b) ensures a in s2.table.rows {
      StrandedListed(owner, s1, tip, a, b);
    }
  }

  /** A planned row whose recorded inputs are all locked: the first pass reserves it, the second releases it. */
  predicate Reservable(owner: OwnerOf, row: Row, locks: seq<LockedOutput>) {
    row.stage.Planned? && !OwnerCorrupt(owner, row) && Held(row, locks) != [] && InputsMatch(row, Held(row, locks))
  }

  /**
    * Row `a`, still planned or reserved past its expiry, has mismatched locks under the derived owner of
    * a reservable row `b`, and no row that the first pass frees owns the locks of either.
    */
  predicate WillStrand(owner: OwnerOf, s: Store, status: string -> StatusReply, tip: BlockHeight, a: string,
      b: string) {
    && a in s.table.rows && b in s.table.rows
    && Strandable(owner, s.table.rows[a], s.locks, tip) && Reservable(owner, s.table.rows[b], s.locks)
    && owner(b) == s.table.rows[a].plan.lockOwner
    && s.table.rows[a].plan.lockOwner !in PassFrees(owner, s, status, tip)
    && s.table.rows[b].plan.lockOwner !in PassFrees(owner, s, status, tip)
  }

  lemma StrandableAfterFirst(owner: OwnerOf, row: Row, locks: seq<LockedOutput>, freed: set<string>,
      status: string -> StatusReply, tip: BlockHeight)
    ensures Strandable(owner, RowPass(owner, row, locks, status, tip), Without(locks, freed), tip) <==>
      Strandable(owner, row, locks, tip) && row.plan.lockOwner !in freed
  {
    HeldAfter(row, locks, freed);
    PlansKept(owner, row, locks, status, tip);
    hide LocksOf, Without;
  }

  lemma FreedInSecond(owner: OwnerOf, row: Row, locks: seq<LockedOutput>, freed: set<string>,
      status: string -> StatusReply, tip: BlockHeight)
    ensures RecoveryFrees(owner, RowPass(owner, row, locks, status, tip), Without(locks, freed)) <==>
      Reservable(owner, row, locks) && row.plan.lockOwner !in freed
  {
    HeldAfter(row, locks, freed);
    PlansKept(owner, row, locks, status, tip);
    hide LocksOf, Without;
  }

  /**
    * The third pass performs a transition exactly when the table before the first holds two rows that will
    * strand one another.
    */
  lemma ThirdPassIff(owner: OwnerOf, s0: Store, status: string -> StatusReply, tip: BlockHeight)
    requires s0.table.Valid()
    ensures var s1 := Pass(owner, s0, status, tip);
      && s1.Some?
      && var s2 := Pass(owner, s1.value, status, tip);
         && s2.Some?
         && (Performs(owner, s2.value, status, tip) <==> exists a, b :: WillStrand(owner, s0, status, tip, a, b))
  {
    hide Pass, RowPass, Strandable, Reservable, RecoveryFrees, Performs, PassFrees, Table.Valid;
    ThirdPassAfterFirst(owner, s0, status, tip);
    PassNeverRefused(owner, s0, status, tip);
    var s1 := Pass(owner, s0, status, tip).value;
    var freed := PassFrees(owner, s0, status, tip);
    forall a, b ensures Stranded(owner, s1, tip, a, b) <==> WillStrand(owner, s0, status, tip, a, b) {
      if a in s0.table.rows && b in s0.table.rows {
        StrandableAfterFirst(owner, s0.table.rows[a], s0.locks, freed, status, tip);
        FreedInSecond(owner, s0.table.rows[b], s0.locks, freed, status, tip);
        assert s1.table.rows[a].plan == s0.table.rows[a].plan by {
          AfterFirst(owner, s0.table.rows[a], s0.locks, status, tip);
        }
      }
    }
  }

  lemma StrandedListed(owner: OwnerOf, s: Store, tip: BlockHeight, a: string, b: string)
    requires Stranded(owner, s, tip, a, b)
    ensures a in s.table.rows && b in s.table.rows && a != b && s.table.rows[a].plan.lockOwner == owner(b)
  {
  }

  /** No row's locks sit under the owner derived from another plan's id. */
  ghost predicate WellOwned(owner: OwnerOf, t: Table) {
    forall a, b :: a in t.rows && b in t.rows && t.rows[a].plan.lockOwner == owner(b) ==> a == b
  }

  /** On such tables two passes suffice. */
  lemma TwoPassesSettleWellOwned(owner: OwnerOf, s0: Store, status: string -> StatusReply, tip: BlockHeight)
    requires s0.table.Valid() && WellOwned(owner, s0.table)
    ensures var s1 := Pass(owner, s0, status, tip);
      s1.Some? && var s2 := Pass(owner, s1.value, status, tip); s2.Some? && !Performs(owner, s2.value, status, tip)
  {
    hide Pass, RowPass, Stranded, Performs;
    ThirdPassAfterFirst(owner, s0, status, tip);
    PassNeverRefused(owner, s0, status, tip);
    var s1 := Pass(owner, s0, status, tip).value;
    forall id | id in s0.table.rows ensures s1.table.rows[id].plan == s0.table.rows[id].plan {
      AfterFirst(owner, s0.table.rows[id], s0.locks, status, tip);
    }
    forall a, b ensures !Stranded(owner, s1, tip, a, b) {
      if Stranded(owner, s1, tip, a, b) {
        StrandedListed(owner, s1, tip, a, b);
      }
    }
  }

  /** On any table at all, three passes suffice: the fourth performs no transition. */
  lemma ThreePassesSettle(owner: OwnerOf, s0: Store, s1: Store, s2: Store, s3: Store, status: string -> StatusReply,
      tip: BlockHeight)
    requires s0.table.Valid()
    requires Pass(owner, s0, status, tip) == Some(s1) && Pass(owner, s1, status, tip) == Some(s2)
      && Pass(owner, s2, status, tip) == Some(s3)
    ensures !Performs(owner, s3, status, tip)
  {
    hide Pass, RowPass, Stranded, Performs, RowFrees, Without;
    PassNeverRefused(owner, s0, status, tip);
    PassNeverRefused(owner, s1, status, tip);
    PassNeverRefused(owner, s2, status, tip);
    forall id | id in s2.table.rows ensures !RowFrees(owner, s2.table.rows[id], s2.locks, status, tip) {
      ThirdPassRow(owner, s0, s1, s2, status, tip, id);
    }
    assert PassFrees(owner, s2, status, tip) == {};
    WithoutNone(s2.locks);
    PerformsIffChanges(owner, s3, status, tip);
    forall id | id in s3.table.rows
      ensures RowPass(owner, s3.table.rows[id], s3.locks, status, tip) == s3.table.rows[id]
    {
      FourthPassRow(owner, s0.table.rows[id], s0.locks, PassFrees(owner, s0, status, tip),
        PassFrees(owner, s1, status, tip), status, tip);
    }
  }

  lemma FourthPassRow(owner: OwnerOf, r0: Row, l0: seq<LockedOutput>, f0: set<string>, f1: set<string>,
      status: string -> StatusReply, tip: BlockHeight)
    ensures var l1 := Without(l0, f0);
      var l2 := Without(l1, f1);
      var r2 := RowPass(owner, RowPass(owner, r0, l0, status, tip), l1, status, tip);
      var r3 := RowPass(owner, r2, l2, status, tip);
      RowPass(owner, r3, l2, status, tip) == r3
  {
    var l1 := Without(l0, f0);
    var l2 := Without(l1, f1);
    var r1 := RowPass(owner, r0, l0, status, tip);
    var r2 := RowPass(owner, r1, l1, status, tip);
    AfterFirst(owner, r0, l0, status, tip);
    AfterFirst(owner, r1, l1, status, tip);
    HeldAfter(r0, l0, f0);
    HeldAfter(r0, l1, f1);
    hide Without, LocksOf, RowPass;
    AfterThird(owner, r2, l2, status, tip);
  }

  // ---- Two passes are not always enough ----

  function ExamplePlan(id: string, mode: string, lockOwner: string, input: string): Plan {
    Plan(id, "", "call", mode, lockOwner, 0, "", 0, [input], None)
  }

  /** A shielded plan "b", and a corrupt transparent plan "a" whose row names the owner of "b". */
  function ExampleStore(): Store {
    var a, b := ExamplePlan("a", "transparent", "kb", "y"), ExamplePlan("b", "shielded", "kb", "x");
    Store(Table(map["a" := Row(a, Planned, None, None), "b" := Row(b, Planned, None, None)], ["a", "b"]),
      [LockedOutput("x", "kb")], [])
  }

  lemma ExampleFirstPass(owner: OwnerOf, status: string -> StatusReply, tip: BlockHeight)
    requires owner("b") == "kb"
    ensures var s0 := ExampleStore();
      var a, b := s0.table.rows["a"], s0.table.rows["b"];
      && RowPass(owner, a, s0.locks, status, tip) == a && Strandable(owner, a, s0.locks, tip)
      && RowPass(owner, b, s0.locks, status, tip) == Moved(b, Reserved, None, None)
      && RecoveryFrees(owner, Moved(b, Reserved, None, None), s0.locks)
      && !RowFrees(owner, a, s0.locks, status, tip) && !RowFrees(owner, b, s0.locks, status, tip)
  {
  }

  /** The table settles only in its third pass: "a" is cancelled once "b" has been released. */
  lemma TwoPassesNotEnough(status: string -> StatusReply, tip: BlockHeight)
    ensures var owner: OwnerOf := id => "k" + id;
      var s1 := Pass(owner, ExampleStore(), status, tip);
      s1.Some? && var s2 := Pass(owner, s1.value, status, tip); s2.Some? && Performs(owner, s2.value, status, tip)
  {
    var owner: OwnerOf := id => "k" + id;
    var s0 := ExampleStore();
    assert owner("b") == "kb";
    hide Pass, Performs, Stranded, IsPass, ExampleStore;
    assert s0.table.Valid() by { ExampleValid(); }
    ThirdPassAfterFirst(owner, s0, status, tip);
    PassNeverRefused(owner, s0, status, tip);
    ExampleStranded(owner, Pass(owner, s0, status, tip).value, status, tip);
  }

  lemma ExampleValid()
    ensures ExampleStore().table.Valid()
  {
  }

  lemma ExampleStranded(owner: OwnerOf, s1: Store, status: string -> StatusReply, tip: BlockHeight)
    requires owner("b") == "kb" && IsPass(owner, ExampleStore(), status, tip, s1)
    ensures Stranded(owner, s1, tip, "a", "b")
  {
    hide RowPass, RowFrees, RecoveryFrees, Strandable, Moved;
    var s0 := ExampleStore();
    ExampleFirstPass(owner, status, tip);
    assert PassFrees(owner, s0, status, tip) == {};
    WithoutNone(s0.locks);
    assert s1.table.rows["a"] == s0.table.rows["a"];
  }
}
