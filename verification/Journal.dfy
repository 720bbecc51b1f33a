/** The wallet's operation journal: stages, legal transitions, and the row table. */
module Journal {
  import opened Options
  import opened ByteStrings

  datatype Stage =
    | Planned | Reserved | Proving | Proven | Signing | Signed | Extracted | Verified
    | Broadcasting | BroadcastUnknown | BroadcastAccepted
    | Mined | Cancelled | Expired | Rejected | Reorged

  predicate Terminal(s: Stage) {
    s.Mined? || s.Cancelled? || s.Expired? || s.Rejected? || s.Reorged?
  }

  predicate CanTransition(from: Stage, to: Stage) {
    || from == to
    || match from
       case Planned => to.Reserved? || to.Cancelled?
       case Reserved => to.Proving? || to.Cancelled? || to.Expired? || to.Reorged?
       case Proving => to.Proven? || to.Cancelled?
       case Proven => to.Signing? || to.Cancelled?
       case Signing => to.Signed? || to.Cancelled?
       case Signed => to.Extracted? || to.Cancelled? || to.Expired? || to.Reorged?
       case Extracted => to.Verified? || to.Cancelled? || to.Expired? || to.Reorged?
       case Verified => to.Broadcasting? || to.Cancelled? || to.Expired? || to.Reorged?
       case Broadcasting => to.BroadcastAccepted? || to.BroadcastUnknown? || to.Rejected? || to.Mined?
       case BroadcastUnknown => to.BroadcastAccepted? || to.Mined? || to.Rejected? || to.Expired? || to.Reorged?
       case BroadcastAccepted => to.Mined? || to.Reorged? || to.Expired?
       case _ => false
  }

  /** A plan's immutable fields. An empty lock owner means the plan takes no note locks. */
  datatype Plan = Plan(
    id: string,
    intentHash: string,
    kind: string,
    fundingMode: string,
    lockOwner: string,
    tipHeight: BlockHeight,
    tipHash: string,
    targetHeight: BlockHeight,
    inputs: seq<string>,
    expiry: Option<BlockHeight>)

  datatype Row = Row(plan: Plan, stage: Stage, txid: Option<string>, lastError: Option<string>)

  datatype Table = Table(rows: map<string, Row>, order: seq<string>) {
    /** Every row is listed once, in creation order, under its own id. */
    ghost predicate Valid() {
      && (forall i, j :: 0 <= i < j < |order| ==> order[i] != order[j])
      && (forall id :: id in order <==> id in rows)
      && (forall id :: id in rows ==> rows[id].plan.id == id)
    }
  }

  datatype JournalError = NotFound | IllegalTransition(from: Stage, to: Stage) | PlanIdConflict

  /** SQL `COALESCE`. */
  function Coalesce(a: Option<string>, b: Option<string>): Option<string> {
    if a.Some? then a else b
  }

  function Moved(row: Row, to: Stage, txid: Option<string>, err: Option<string>): Row {
    row.(stage := to, txid := Coalesce(txid, row.txid), lastError := Coalesce(err, row.lastError))
  }

  function Transitioned(t: Table, id: string, to: Stage, txid: Option<string>, err: Option<string>): Result<Table,
      JournalError> {
    if id !in t.rows then Err(NotFound)
    else if !CanTransition(t.rows[id].stage, to) then Err(IllegalTransition(t.rows[id].stage, to))
    else Ok(t.(rows := t.rows[id := Moved(t.rows[id], to, txid, err)]))
  }

  function Created(t: Table, plan: Plan): Result<Table, JournalError> {
    if plan.id !in t.rows then Ok(Table(t.rows[plan.id := Row(plan, Planned, None, None)], t.order + [plan.id]))
    else if t.rows[plan.id].plan == plan then Ok(t)
    else Err(PlanIdConflict)
  }

  function NonTerminalIds(t: Table, ids: seq<string>): seq<string> {
    if ids == [] then [] else
      (if ids[0] in t.rows && !Terminal(t.rows[ids[0]].stage) then [ids[0]] else []) + NonTerminalIds(t, ids[1..])
  }

  /** Every legal move to another stage climbs this rank, so no row can move for ever. */
  function Rank(s: Stage): nat {
    match s
    case Planned => 0
    case Reserved => 1
    case Proving => 2
    case Proven => 3
    case Signing => 4
    case Signed => 5
    case Extracted => 6
    case Verified => 7
    case Broadcasting => 8
    case BroadcastUnknown => 9
    case BroadcastAccepted => 10
    case _ => 11
  }

  lemma TransitionsClimb(from: Stage, to: Stage)
    requires CanTransition(from, to) && from != to
    ensures Rank(from) < Rank(to) && !Terminal(from)
  {
  }

  lemma NextNonTerminal(t: Table, i: nat)
    requires i < |t.order|
    ensures var id, rest := t.order[i], NonTerminalIds(t, t.order[i + 1..]);
      NonTerminalIds(t, t.order[i..]) == if id in t.rows && !Terminal(t.rows[id].stage) then [id] + rest else rest
  {
    hide Terminal;
    assert t.order[i..][1..] == t.order[i + 1..];
  }

  class JournalStore {
    var table: Table

    constructor ()
      ensures table == Table(map[], []) && table.Valid()
    {
      table := Table(map[], []);
    }

    /** Never overwrites: the same plan again is a no-op, a different plan under the same id a conflict. */
    method CreatePlan(plan: Plan) returns (r: Result<(), JournalError>)
      requires table.Valid()
      modifies this
      ensures table.Valid()
      ensures match Created(old(table), plan)
        case Ok(t) => r == Ok(()) && table == t
        case Err(e) => r == Err(e) && table == old(table)
    {
      if plan.id in table.rows {
        return if table.rows[plan.id].plan == plan then Ok(()) else Err(PlanIdConflict);
      }
      table := Table(table.rows[plan.id := Row(plan, Planned, None, None)], table.order + [plan.id]);
      r := Ok(());
    }

    /** Returns the previous stage; an illegal transition changes nothing. */
    method Transition(id: string, to: Stage, txid: Option<string>,
        err: Option<string>) returns (r: Result<Stage, JournalError>)
      requires table.Valid()
      modifies this
      ensures table.Valid()
      ensures match Transitioned(old(table), id, to, txid, err)
        case Ok(t) => id in old(table).rows && r == Ok(old(table).rows[id].stage) && table == t
        case Err(e) => r == Err(e) && table == old(table)
    {
      if id !in table.rows {
        return Err(NotFound);
      }
      var row := table.rows[id];
      if !CanTransition(row.stage, to) {
        return Err(IllegalTransition(row.stage, to));
      }
      var txid' := if txid.Some? then txid else row.txid;
      var err' := if err.Some? then err else row.lastError;
      table := table.(rows := table.rows[id := row.(stage := to, txid := txid', lastError := err')]);
      r := Ok(row.stage);
    }

    method NonTerminal() returns (ids: seq<string>)
      requires table.Valid()
      ensures ids == NonTerminalIds(table, table.order)
    {
      hide Terminal, Table.Valid;
      ids := [];
      assert table.order[0..] == table.order;
      for i := 0 to |table.order|
        invariant ids + NonTerminalIds(table, table.order[i..]) == NonTerminalIds(table, table.order)
      {
        var id := table.order[i];
        NextNonTerminal(table, i);
        if id in table.rows && !Terminal(table.rows[id].stage) {
          ids := ids + [id];
        }
      }
      assert table.order[|table.order|..] == [];
    }
  }
}
