/**
  * Broadcast and recovery as lists of durable writes. A crash may fall between any two of them:
  * what is on disk is then the effect of a prefix of the list.
  */
module Wallet {
  import opened Options
  import opened ByteStrings
  import opened Journal

  const EXPIRY_ABSENT_MARGIN: nat := 6

  datatype LockedOutput = LockedOutput(outputRef: string, owner: string)

  datatype TxStatus = InBlock | InMempool | Absent
  datatype StatusReply = Known(status: TxStatus) | QueryFailed

  /** What the transport reports for one submission. */
  datatype Verdict = NodeAccepted(txid: string) | NodeRejected | Ambiguous

  datatype Event =
    | Sent(id: string)
    | Heard(id: string, verdict: Verdict)
    | Observed(id: string, status: TxStatus, tip: BlockHeight)
    | Released(id: string)

  /** The two durable stores, and a trace of what the outside world saw. */
  datatype Store = Store(table: Table, locks: seq<LockedOutput>, trace: seq<Event>)

  const NEW: Store := Store(Table(map[], []), [], [])

  datatype Action =
    | Insert(plan: Plan)
    | Move(id: string, to: Stage, txid: Option<string>, err: Option<string>)
    | Send(id: string)
    | Hear(id: string, verdict: Verdict)
    | Observe(id: string, status: TxStatus, tip: BlockHeight)
    | Release(id: string)

  /** `lock_owner_hex`: the lock owner derived from a plan id. */
  type OwnerOf = string -> string

  function Unlocked(locks: seq<LockedOutput>, owner: string): seq<LockedOutput> {
    if locks == [] then []
    else if locks[0].owner == owner then Unlocked(locks[1..], owner)
    else [locks[0]] + Unlocked(locks[1..], owner)
  }

  function Happened(s: Store, e: Event): Store {
    s.(trace := s.trace + [e])
  }

  /** One durable write or one message; `None` when the journal refuses it, which ends the operation. */
  function Step(owner: OwnerOf, s: Store, a: Action): Option<Store> {
    match a
    case Insert(plan) => (match Created(s.table, plan) case Ok(t) => Some(s.(table := t)) case Err(_) => None)
    case Move(id, to, txid, err) =>
      (match Transitioned(s.table, id, to, txid, err) case Ok(t) => Some(s.(table := t)) case Err(_) => None)
    case Send(id) => Some(Happened(s, Sent(id)))
    case Hear(id, v) => Some(Happened(s, Heard(id, v)))
    case Observe(id, status, tip) => Some(Happened(s, Observed(id, status, tip)))
    case Release(id) => Some(Happened(s.(locks := Unlocked(s.locks, owner(id))), Released(id)))
  }

  function Exec(owner: OwnerOf, s: Store, actions: seq<Action>): Option<Store> {
    if actions == [] then Some(s) else
      var before :- Exec(owner, s, actions[..|actions| - 1]);
      Step(owner, before, actions[|actions| - 1])
  }

  // ---- broadcast_verified ----

  function BroadcastActions(id: string, txid: string, tipFresh: bool, verdict: Verdict): seq<Action> {
    if !tipFresh then [] else
      [Move(id, Broadcasting, Some(txid), None), Send(id), Hear(id, verdict)] +
      match verdict
      case NodeAccepted(returned) =>
        if returned == txid then [Move(id, BroadcastAccepted, None, None)]
        else [Move(id, BroadcastUnknown, None, Some("accepted txid mismatch"))]
      case NodeRejected => [Move(id, Stage.Rejected, None, Some("rejected")), Release(id)]
      case Ambiguous => [Move(id, BroadcastUnknown, None, Some("ambiguous"))]
  }

  // ---- startup_recover: rows before the broadcast phase ----

  function LocksOf(locks: seq<LockedOutput>, owner: string): seq<LockedOutput> {
    if locks == [] then []
    else if locks[0].owner == owner then [locks[0]] + LocksOf(locks[1..], owner)
    else LocksOf(locks[1..], owner)
  }

  function Refs(locks: seq<LockedOutput>): seq<string> {
    seq(|locks|, i requires 0 <= i < |locks| => locks[i].outputRef)
  }

  /** Recorded and held inputs agree as multisets (both sides are sorted before comparing). */
  predicate InputsMatch(row: Row, held: seq<LockedOutput>) {
    multiset(row.plan.inputs) == multiset(Refs(held))
  }

  function Held(row: Row, locks: seq<LockedOutput>): seq<LockedOutput> {
    if row.plan.lockOwner == "" then [] else LocksOf(locks, row.plan.lockOwner)
  }

  predicate OwnerCorrupt(owner: OwnerOf, row: Row) {
    row.plan.fundingMode == "shielded" && row.plan.lockOwner != owner(row.plan.id)
  }

  predicate PastExpiry(row: Row, tip: BlockHeight) {
    row.plan.expiry.Some? && tip > row.plan.expiry.value
  }

  function Cancel(id: string): Action {
    Move(id, Cancelled, None, Some("restart"))
  }

  function RecoverRow(owner: OwnerOf, row: Row, locks: seq<LockedOutput>, tip: BlockHeight): seq<Action> {
    var id, held := row.plan.id, Held(row, locks);
    if OwnerCorrupt(owner, row) then [] else
      match row.stage
      case Planned =>
        if held == [] then [Cancel(id)]
        else if InputsMatch(row, held) then [Move(id, Reserved, None, None)]
        else []
      case Reserved =>
        if held == [] then (if PastExpiry(row, tip) then [Move(id, Expired, None, Some("restart"))] else [])
        else if InputsMatch(row, held) then [Cancel(id), Release(id)]
        else []
      case Proving => [Cancel(id)] + (if held == [] then [] else [Release(id)])
      case Proven => [Cancel(id)] + (if held == [] then [] else [Release(id)])
      case Signing => [Cancel(id)]
      case Signed => [Cancel(id)]
      case Extracted => [Cancel(id)]
      case Verified => [Cancel(id)]
      case _ => []
  }

  // ---- reconcile: broadcast-phase rows ----

  predicate BroadcastPhase(s: Stage) {
    s.Broadcasting? || s.BroadcastUnknown? || s.BroadcastAccepted?
  }

  function SaturatingAdd(h: BlockHeight, n: nat): BlockHeight {
    if h + n < U32_MODULUS then h + n else U32_MODULUS - 1
  }

  predicate DefinitelyExpired(row: Row, tip: BlockHeight) {
    row.plan.expiry.Some? && tip > SaturatingAdd(row.plan.expiry.value, EXPIRY_ABSENT_MARGIN)
  }

  function ResolveRow(row: Row, status: TxStatus, tip: BlockHeight): seq<Action> {
    var id := row.plan.id;
    match status
    case InBlock => [Move(id, Mined, None, None)]
    case InMempool => if row.stage.BroadcastAccepted? then [] else [Move(id, BroadcastAccepted, None, None)]
    case Absent =>
      var note := if DefinitelyExpired(row, tip) then None else Some("absent");
      var unknown := if row.stage.Broadcasting? then [Move(id, BroadcastUnknown, None, note)] else [];
      if DefinitelyExpired(row, tip) then unknown + [Move(id, Expired, None, Some("absent past expiry")), Release(id)]
      else unknown
  }

  function ReconcileRow(row: Row, status: string -> StatusReply, tip: BlockHeight): seq<Action> {
    if !BroadcastPhase(row.stage) || row.txid.None? then [] else
      match status(row.txid.value)
      case QueryFailed => []
      case Known(st) => [Observe(row.plan.id, st, tip)] + ResolveRow(row, st, tip)
  }

  /** What a pass does over a list of row ids, every row read from the table as the pass began. */
  function OverRows(f: Row -> seq<Action>, t: Table, ids: seq<string>): seq<Action> {
    if ids == [] then [] else (if ids[0] in t.rows then f(t.rows[ids[0]]) else []) + OverRows(f, t, ids[1..])
  }

  function Recovering(owner: OwnerOf, locks: seq<LockedOutput>, tip: BlockHeight): Row -> seq<Action> {
    row => RecoverRow(owner, row, locks, tip)
  }

  function Reconciling(status: string -> StatusReply, tip: BlockHeight): Row -> seq<Action> {
    row => ReconcileRow(row, status, tip)
  }

  function RecoverActions(owner: OwnerOf, s: Store, tip: BlockHeight): seq<Action> {
    OverRows(Recovering(owner, s.locks, tip), s.table, NonTerminalIds(s.table, s.table.order))
  }

  function ReconcileActions(s: Store, status: string -> StatusReply, tip: BlockHeight): seq<Action> {
    OverRows(Reconciling(status, tip), s.table, NonTerminalIds(s.table, s.table.order))
  }

  // ---- Runs ----

  /** Stages other code moves a row to; only broadcast and reconciliation touch the broadcast phase. */
  predicate DriverStage(s: Stage) {
    !BroadcastPhase(s) && !s.Mined? && !s.Rejected?
  }

  datatype Op =
    | Record(plan: Plan)
    | Advance(id: string, to: Stage)
    | Broadcast(id: string, txid: string, tipFresh: bool, verdict: Verdict)
    | Recover(tip: BlockHeight)
    | Reconcile(status: string -> StatusReply, tip: BlockHeight)
    | LockStore(locks: seq<LockedOutput>)   // reservations taken, or expired, outside the journal

  function ActionsOf(owner: OwnerOf, s: Store, op: Op): seq<Action> {
    match op
    case Record(plan) => [Insert(plan), Move(plan.id, Reserved, None, None)]
    case Advance(id, to) => if DriverStage(to) then [Move(id, to, None, None)] else []
    case Broadcast(id, txid, tipFresh, verdict) => BroadcastActions(id, txid, tipFresh, verdict)
    case Recover(tip) => RecoverActions(owner, s, tip)
    case Reconcile(status, tip) => ReconcileActions(s, status, tip)
    case LockStore(locks) => []
  }

  /** The operation ran to its end, was refused by the journal, or crashed: some prefix took effect. */
  ghost predicate Next(owner: OwnerOf, s: Store, op: Op, s': Store) {
    match op
    case LockStore(locks) => s' == s.(locks := locks)
    case _ =>
      exists n :: 0 <= n <= |ActionsOf(owner, s, op)| && Exec(owner, s, ActionsOf(owner, s, op)[..n]) == Some(s')
  }

  ghost predicate IsRun(owner: OwnerOf, states: seq<Store>, ops: seq<Op>) {
    && |states| == |ops| + 1 && states[0] == NEW
    && forall i :: 0 <= i < |ops| ==> Next(owner, states[i], ops[i], states[i + 1])
  }

  // ---- Release safety ----

  /** Stages a row can only be in once its transaction may have left the process. */
  predicate Launched(s: Stage) {
    BroadcastPhase(s) || s.Mined? || s.Expired? || s.Rejected? || s.Reorged?
  }

  /** Why the release at position `i` of the trace was sound. */
  ghost predicate ReleaseJustified(s: Store, i: nat)
    requires i < |s.trace| && s.trace[i].Released?
  {
    var id := s.trace[i].id;
    && id in s.table.rows
    && var row := s.table.rows[id];
       || (row.stage.Cancelled? && Sent(id) !in s.trace)
       || (row.stage.Rejected? && Heard(id, NodeRejected) in s.trace[..i])
       || (row.stage.Expired? && exists tip: BlockHeight ::
             Observed(id, Absent, tip) in s.trace[..i] && DefinitelyExpired(row, tip))
  }

  ghost predicate Safe(s: Store) {
    && s.table.Valid()
    && (forall id :: Sent(id) in s.trace ==> id in s.table.rows && Launched(s.table.rows[id].stage))
    && (forall i :: 0 <= i < |s.trace| && s.trace[i].Released? ==> ReleaseJustified(s, i))
  }

  /** The local discipline of an action list that keeps a store safe. */
  ghost predicate SendGuarded(actions: seq<Action>, i: nat)
    requires i < |actions| && actions[i].Send?
  {
    i > 0 && actions[i - 1].Move? && actions[i - 1].id == actions[i].id && actions[i - 1].to == Broadcasting
  }

  ghost predicate ReleaseGuarded(t: Table, actions: seq<Action>, i: nat)
    requires i < |actions| && actions[i].Release?
  {
    var id := actions[i].id;
    && i > 0 && actions[i - 1].Move? && actions[i - 1].id == id
    && (|| actions[i - 1].to == Cancelled
        || (actions[i - 1].to == Stage.Rejected && Hear(id, NodeRejected) in actions[..i])
        || (actions[i - 1].to == Expired && id in t.rows && exists tip: BlockHeight ::
              Observe(id, Absent, tip) in actions[..i] && DefinitelyExpired(t.rows[id], tip)))
  }

  ghost predicate Disciplined(t: Table, actions: seq<Action>) {
    && (forall i :: 0 <= i < |actions| && actions[i].Send? ==> SendGuarded(actions, i))
    && (forall i :: 0 <= i < |actions| && actions[i].Release? ==> ReleaseGuarded(t, actions, i))
  }

  lemma DisciplinedConcat(t: Table, a: seq<Action>, b: seq<Action>)
    requires Disciplined(t, a) && Disciplined(t, b)
    ensures Disciplined(t, a + b)
  {
    var ab := a + b;
    forall i | 0 <= i < |ab| && ab[i].Send? ensures SendGuarded(ab, i) {
      if i < |a| { assert SendGuarded(a, i); } else { assert SendGuarded(b, i - |a|); }
    }
    forall i | 0 <= i < |ab| && ab[i].Release? ensures ReleaseGuarded(t, ab, i) {
      if i < |a| {
        assert ReleaseGuarded(t, a, i);
        assert ab[..i] == a[..i];
      } else {
        assert ReleaseGuarded(t, b, i - |a|);
        assert ab[..i] == a + b[..i - |a|];
      }
    }
  }

  lemma RecoverRowDisciplined(t: Table, owner: OwnerOf, row: Row, locks: seq<LockedOutput>, tip: BlockHeight)
    ensures Disciplined(t, RecoverRow(owner, row, locks, tip))
  {
  }

  lemma ReconcileRowDisciplined(t: Table, row: Row, status: string -> StatusReply, tip: BlockHeight)
    requires Lookup(t.rows, row.plan.id) == Some(row)
    ensures Disciplined(t, ReconcileRow(row, status, tip))
  {
    var actions := ReconcileRow(row, status, tip);
    forall i | 0 <= i < |actions| && actions[i].Release? ensures ReleaseGuarded(t, actions, i) {
      assert actions[0] == Observe(row.plan.id, Absent, tip);
      assert actions[0] in actions[..i];
    }
  }

  lemma {:induction false} OverRowsDisciplined(t: Table, f: Row -> seq<Action>, ids: seq<string>)
    requires forall id :: id in t.rows ==> Disciplined(t, f(t.rows[id]))
    ensures Disciplined(t, OverRows(f, t, ids))
  {
    if ids != [] {
      OverRowsDisciplined(t, f, ids[1..]);
      DisciplinedConcat(t, if ids[0] in t.rows then f(t.rows[ids[0]]) else [], OverRows(f, t, ids[1..]));
    }
  }

  lemma BroadcastDisciplined(t: Table, id: string, txid: string, tipFresh: bool, verdict: Verdict)
    ensures Disciplined(t, BroadcastActions(id, txid, tipFresh, verdict))
  {
    var actions := BroadcastActions(id, txid, tipFresh, verdict);
    forall i | 0 <= i < |actions| && actions[i].Release? ensures ReleaseGuarded(t, actions, i) {
      assert actions[2] == Hear(id, NodeRejected);
      assert actions[2] in actions[..i];
    }
  }

  lemma OpsDisciplined(owner: OwnerOf, s: Store, op: Op)
    requires s.table.Valid()
    ensures Disciplined(s.table, ActionsOf(owner, s, op))
  {
    var ids := NonTerminalIds(s.table, s.table.order);
    match op {
      case Broadcast(id, txid, tipFresh, verdict) => BroadcastDisciplined(s.table, id, txid, tipFresh, verdict);
      case Recover(tip) =>
        var f := Recovering(owner, s.locks, tip);
        forall id | id in s.table.rows ensures Disciplined(s.table, f(s.table.rows[id])) {
          RecoverRowDisciplined(s.table, owner, s.table.rows[id], s.locks, tip);
        }
        OverRowsDisciplined(s.table, f, ids);
      case Reconcile(status, tip) =>
        var f := Reconciling(status, tip);
        forall id | id in s.table.rows ensures Disciplined(s.table, f(s.table.rows[id])) {
          ReconcileRowDisciplined(s.table, s.table.rows[id], status, tip);
        }
        OverRowsDisciplined(s.table, f, ids);
      case _ =>
    }
  }

  /** What a prefix of an action list has left behind in the store. */
  ghost predicate Carries(s0: Store, s: Store, done: seq<Action>) {
    && (forall a :: a in done && a.Hear? ==> Heard(a.id, a.verdict) in s.trace)
    && (forall a :: a in done && a.Observe? ==> Observed(a.id, a.status, a.tip) in s.trace)
    && (forall id :: id in s0.table.rows ==> id in s.table.rows && s.table.rows[id].plan == s0.table.rows[id].plan)
    && (done != [] && done[|done| - 1].Move? ==>
          done[|done| - 1].id in s.table.rows && s.table.rows[done[|done| - 1].id].stage == done[|done| - 1].to)
  }

  lemma StepCarries(owner: OwnerOf, s0: Store, s: Store, done: seq<Action>, a: Action)
    requires Carries(s0, s, done) && Step(owner, s, a).Some?
    ensures Carries(s0, Step(owner, s, a).value, done + [a])
  {
  }

  /** A journal write never moves a row out of the launched stages, nor out of a terminal one. */
  lemma StagesClosed(from: Stage, to: Stage)
    requires CanTransition(from, to)
    ensures Launched(from) ==> Launched(to)
    ensures Terminal(from) ==> to == from
  {
  }

  ghost predicate Advanced(t: Table, t': Table) {
    forall id :: id in t.rows ==>
      (id in t'.rows && t'.rows[id].plan == t.rows[id].plan && CanTransition(t.rows[id].stage, t'.rows[id].stage))
  }

  lemma TableStepSafe(s: Store, t: Table)
    requires Safe(s) && t.Valid() && Advanced(s.table, t)
    ensures Safe(s.(table := t))
  {
    hide CanTransition, Launched, Terminal;
    var s' := s.(table := t);
    forall id | id in s.table.rows
      ensures Launched(s.table.rows[id].stage) ==> Launched(t.rows[id].stage)
      ensures Terminal(s.table.rows[id].stage) ==> t.rows[id].stage == s.table.rows[id].stage
    {
      StagesClosed(s.table.rows[id].stage, t.rows[id].stage);
    }
    forall i | 0 <= i < |s'.trace| && s'.trace[i].Released? ensures ReleaseJustified(s', i) {
      assert ReleaseJustified(s, i);
      JustifiedIsTerminal(s, i);
    }
  }

  lemma JustifiedIsTerminal(s: Store, i: nat)
    requires i < |s.trace| && s.trace[i].Released? && ReleaseJustified(s, i)
    ensures s.trace[i].id in s.table.rows && Terminal(s.table.rows[s.trace[i].id].stage)
  {
  }

  lemma MoveSafe(owner: OwnerOf, s: Store, a: Action)
    requires Safe(s) && (a.Insert? || a.Move?) && Step(owner, s, a).Some?
    ensures Safe(Step(owner, s, a).value)
  {
    TableStepSafe(s, Step(owner, s, a).value.table);
  }

  lemma EventSafe(s: Store, e: Event)
    requires Safe(s) && !e.Released?
    requires e.Sent? ==> e.id in s.table.rows && s.table.rows[e.id].stage.Broadcasting?
    ensures Safe(Happened(s, e))
  {
    var s' := Happened(s, e);
    forall i | 0 <= i < |s'.trace| && s'.trace[i].Released? ensures ReleaseJustified(s', i) {
      assert ReleaseJustified(s, i);
      assert s'.trace[..i] == s.trace[..i];
    }
  }

  lemma ReleaseSafe(s0: Store, s: Store, locks: seq<LockedOutput>, actions: seq<Action>, n: nat)
    requires Safe(s) && n < |actions| && actions[n].Release?
    requires Carries(s0, s, actions[..n]) && ReleaseGuarded(s0.table, actions, n)
    ensures Safe(Happened(s.(locks := locks), Released(actions[n].id)))
  {
    var id := actions[n].id;
    var s' := Happened(s.(locks := locks), Released(id));
    assert actions[..n][n - 1] == actions[n - 1];
    forall i | 0 <= i < |s'.trace| && s'.trace[i].Released? ensures ReleaseJustified(s', i) {
      assert s'.trace[..|s.trace|] == s.trace;
      if i < |s.trace| {
        assert ReleaseJustified(s, i);
        assert s'.trace[..i] == s.trace[..i];
      }
    }
  }

  lemma {:induction false} ExecSafe(owner: OwnerOf, s0: Store, actions: seq<Action>, n: nat)
    requires Safe(s0) && Disciplined(s0.table, actions) && n <= |actions|
    requires Exec(owner, s0, actions[..n]).Some?
    ensures Safe(Exec(owner, s0, actions[..n]).value)
    ensures Carries(s0, Exec(owner, s0, actions[..n]).value, actions[..n])
  {
    if n > 0 {
      var done, a := actions[..n - 1], actions[n - 1];
      assert actions[..n] == done + [a] && actions[..n][..n - 1] == done;
      ExecSafe(owner, s0, actions, n - 1);
      var s := Exec(owner, s0, done).value;
      hide Step, Safe, Carries, Disciplined;
      StepCarries(owner, s0, s, done, a);
      ActionSafe(owner, s0, s, actions, n - 1);
    }
  }

  /** One more action of a disciplined list keeps safety. */
  lemma ActionSafe(owner: OwnerOf, s0: Store, s: Store, actions: seq<Action>, n: nat)
    requires Safe(s) && Disciplined(s0.table, actions) && n < |actions|
    requires Carries(s0, s, actions[..n]) && Step(owner, s, actions[n]).Some?
    ensures Safe(Step(owner, s, actions[n]).value)
  {
    hide Safe;
    match actions[n] {
      case Insert(_) => MoveSafe(owner, s, actions[n]);
      case Move(_, _, _, _) => MoveSafe(owner, s, actions[n]);
      case Send(id) =>
        assert SendGuarded(actions, n);
        assert actions[..n][n - 1] == actions[n - 1];
        EventSafe(s, Sent(id));
      case Hear(id, v) => EventSafe(s, Heard(id, v));
      case Observe(id, status, tip) => EventSafe(s, Observed(id, status, tip));
      case Release(id) =>
        assert ReleaseGuarded(s0.table, actions, n);
        ReleaseSafe(s0, s, Unlocked(s.locks, owner(id)), actions, n);
    }
  }

  lemma LockStoreSafe(s: Store, locks: seq<LockedOutput>)
    requires Safe(s)
    ensures Safe(s.(locks := locks))
  {
  }

  lemma NextSafe(owner: OwnerOf, s: Store, op: Op, s': Store)
    requires Safe(s) && Next(owner, s, op, s')
    ensures Safe(s')
  {
    if op.LockStore? {
      LockStoreSafe(s, op.locks);
    } else {
      var actions := ActionsOf(owner, s, op);
      var n :| 0 <= n <= |actions| && Exec(owner, s, actions[..n]) == Some(s');
      OpsDisciplined(owner, s, op);
      ExecSafe(owner, s, actions, n);
    }
  }

  /**
    * In every run, however often it crashed: each release concerns a row that is terminal, and
    * either its transaction was never handed to the transport, or the transport had rejected it,
    * or it had been observed absent past its expiry and the reorg margin.
    */
  lemma {:induction false} ReleaseSafety(owner: OwnerOf, states: seq<Store>, ops: seq<Op>, k: nat)
    requires IsRun(owner, states, ops) && k < |states|
    ensures Safe(states[k])
  {
    if k == 0 {
      assert Safe(NEW);
    } else {
      hide Safe;
      ReleaseSafety(owner, states, ops, k - 1);
      NextSafe(owner, states[k - 1], ops[k - 1], states[k]);
    }
  }

  /** Once a plan's reservations were released while it was unsent, no later step of any run sends it. */
  lemma ReleasedNeverSent(owner: OwnerOf, states: seq<Store>, ops: seq<Op>, i: nat, j: nat, id: string)
    requires IsRun(owner, states, ops) && i <= j < |states|
    requires id in states[i].table.rows && states[i].table.rows[id].stage.Cancelled?
    ensures id in states[j].table.rows && states[j].table.rows[id].stage.Cancelled?
    ensures Sent(id) !in states[j].trace
    decreases j
  {
    ReleaseSafety(owner, states, ops, j);
    hide Next;
    if i < j {
      ReleaseSafety(owner, states, ops, j - 1);
      ReleasedNeverSent(owner, states, ops, i, j - 1, id);
      CancelledStays(owner, states[j - 1], ops[j - 1], states[j], id);
    }
    assert Safe(states[j]);
  }

  lemma CancelledStays(owner: OwnerOf, s: Store, op: Op, s': Store, id: string)
    requires Safe(s) && Next(owner, s, op, s')
    requires id in s.table.rows && s.table.rows[id].stage.Cancelled?
    ensures id in s'.table.rows && s'.table.rows[id].stage.Cancelled?
  {
    if !op.LockStore? {
      var actions := ActionsOf(owner, s, op);
      var n :| 0 <= n <= |actions| && Exec(owner, s, actions[..n]) == Some(s');
      CancelledThroughout(owner, s, actions[..n], id);
    }
  }

  lemma {:induction false} CancelledThroughout(owner: OwnerOf, s: Store, actions: seq<Action>, id: string)
    requires Exec(owner, s, actions).Some?
    requires id in s.table.rows && s.table.rows[id].stage.Cancelled?
    ensures id in Exec(owner, s, actions).value.table.rows
    ensures Exec(owner, s, actions).value.table.rows[id].stage.Cancelled?
  {
    if actions != [] {
      CancelledThroughout(owner, s, actions[..|actions| - 1], id);
    }
  }
}
