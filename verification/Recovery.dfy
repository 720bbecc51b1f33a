/** Uninterrupted recovery passes: never refused by the journal, and how many of them settle a table. */
module Recovery {
  import opened Options
  import opened ByteStrings
  import opened Journal
  import opened Wallet

  // ---- Executing a pass row by row ----

  function RowStep(row: Row, a: Action): Option<Row> {
    if !a.Move? then Some(row)
    else if CanTransition(row.stage, a.to) then Some(Moved(row, a.to, a.txid, a.err))
    else None
  }

  /** What an action list does to the one row it names. */
  function RowAfter(row: Row, actions: seq<Action>): Option<Row> {
    if actions == [] then Some(row) else
      var before := RowAfter(row, actions[..|actions| - 1]);
      if before.None? then None else RowStep(before.value, actions[|actions| - 1])
  }

  predicate Frees(actions: seq<Action>) {
    exists i :: 0 <= i < |actions| && actions[i].Release?
  }

  predicate About(id: string, actions: seq<Action>) {
    forall i :: 0 <= i < |actions| ==>
      (actions[i].Move? || actions[i].Observe? || actions[i].Release?) && actions[i].id == id
  }

  /** The locks left when every owner in `freed` has been released. */
  function Without(locks: seq<LockedOutput>, freed: set<string>): seq<LockedOutput> {
    if locks == [] then []
    else if locks[0].owner in freed then Without(locks[1..], freed)
    else [locks[0]] + Without(locks[1..], freed)
  }

  lemma {:induction false} WithoutOne(locks: seq<LockedOutput>, owner: string)
    ensures Unlocked(locks, owner) == Without(locks, {owner})
  {
    if locks != [] {
      WithoutOne(locks[1..], owner);
    }
  }

  lemma {:induction false} WithoutNone(locks: seq<LockedOutput>)
    ensures Without(locks, {}) == locks
  {
    if locks != [] {
      WithoutNone(locks[1..]);
    }
  }

  lemma {:induction false} WithoutTwice(locks: seq<LockedOutput>, a: set<string>, b: set<string>)
    ensures Without(Without(locks, a), b) == Without(locks, a + b)
  {
    if locks != [] {
      WithoutTwice(locks[1..], a, b);
    }
  }

  lemma {:induction false} LocksAfter(locks: seq<LockedOutput>, freed: set<string>, owner: string)
    ensures LocksOf(Without(locks, freed), owner) == if owner in freed then [] else LocksOf(locks, owner)
  {
    if locks != [] {
      LocksAfter(locks[1..], freed, owner);
    }
  }

  lemma {:induction false} ExecConcat(owner: OwnerOf, s: Store, a: seq<Action>, b: seq<Action>)
    ensures Exec(owner, s, a + b) == match Exec(owner, s, a) case None => None case Some(s') => Exec(owner, s', b)
  {
    if b == [] {
      assert a + b == a;
    } else {
      assert (a + b)[..|a + b| - 1] == a + b[..|b| - 1];
      ExecConcat(owner, s, a, b[..|b| - 1]);
    }
  }

  function WithRow(t: Table, id: string, row: Row): Table {
    t.(rows := t.rows[id := row])
  }

  lemma {:induction false} ExecOnRow(owner: OwnerOf, s: Store, id: string, actions: seq<Action>)
    requires About(id, actions) && id in s.table.rows && RowAfter(s.table.rows[id], actions).Some?
    ensures Exec(owner, s, actions).Some?
    ensures var s' := Exec(owner, s, actions).value;
      && s'.table == WithRow(s.table, id, RowAfter(s.table.rows[id], actions).value)
      && s'.locks == Without(s.locks, if Frees(actions) then {owner(id)} else {})
  {
    if actions == [] {
      WithoutNone(s.locks);
    } else {
      var front, a := actions[..|actions| - 1], actions[|actions| - 1];
      assert forall i :: 0 <= i < |front| ==> front[i] == actions[i];
      ExecOnRow(owner, s, id, front);
      FreesSnoc(front, a);
      assert actions == front + [a];
      var mid := Exec(owner, s, front).value;
      if a.Release? {
        WithoutOne(mid.locks, owner(id));
        WithoutTwice(s.locks, if Frees(front) then {owner(id)} else {}, {owner(id)});
        assert (if Frees(front) then {owner(id)} else {}) + {owner(id)} == {owner(id)};
      }
    }
  }

  lemma FreesSnoc(front: seq<Action>, a: Action)
    ensures Frees(front + [a]) <==> Frees(front) || a.Release?
  {
    var actions := front + [a];
    assert actions[|front|] == a;
    if Frees(front) {
      var i :| 0 <= i < |front| && front[i].Release?;
      assert actions[i].Release?;
    }
  }

  /** The owners whose locks a pass over `ids` releases. */
  function FreedBy(owner: OwnerOf, f: Row -> seq<Action>, t: Table, ids: seq<string>): set<string> {
    if ids == [] then {} else
      (if ids[0] in t.rows && Frees(f(t.rows[ids[0]])) then {owner(ids[0])} else {}) + FreedBy(owner, f, t, ids[1..])
  }

  /** `f` issues only legal actions about the row it is given. */
  ghost predicate Lawful(f: Row -> seq<Action>) {
    forall row: Row :: About(row.plan.id, f(row)) && RowAfter(row, f(row)).Some?
  }

  ghost predicate Unrepeated(ids: seq<string>) {
    forall i, j :: 0 <= i < j < |ids| ==> ids[i] != ids[j]
  }

  ghost function RowOver(f: Row -> seq<Action>, t: Table, current: Table, ids: seq<string>, id: string): Row
    requires Lawful(f) && t.Valid() && id in current.rows
  {
    if id in ids && id in t.rows then RowAfter(t.rows[id], f(t.rows[id])).value else current.rows[id]
  }

  /** `s'` is `s` after a whole pass of `f` over `ids`. */
  ghost predicate PassedOver(owner: OwnerOf, f: Row -> seq<Action>, t: Table, s: Store, ids: seq<string>, s': Store)
    requires Lawful(f) && t.Valid()
  {
    && s'.table.order == s.table.order && s'.table.rows.Keys == s.table.rows.Keys
    && (forall id :: id in s.table.rows ==> s'.table.rows[id] == RowOver(f, t, s.table, ids, id))
    && s'.locks == Without(s.locks, FreedBy(owner, f, t, ids))
  }

  lemma {:induction false} ExecOverRows(owner: OwnerOf, f: Row -> seq<Action>, t: Table, s: Store, ids: seq<string>)
    requires Lawful(f) && t.Valid() && Unrepeated(ids)
    requires forall id :: id in ids ==> Lookup(s.table.rows, id) == Lookup(t.rows, id)
    ensures Exec(owner, s, OverRows(f, t, ids)).Some?
    ensures PassedOver(owner, f, t, s, ids, Exec(owner, s, OverRows(f, t, ids)).value)
    decreases |ids|
  {
    if ids == [] {
      WithoutNone(s.locks);
    } else {
      hide Lawful, Table.Valid, Exec, Frees, RowAfter, PassedOver, WithRow, Without, FreedBy;
      var id, rest := ids[0], ids[1..];
      assert ids == [id] + rest;
      assert id !in rest;
      var mid := FirstRow(owner, f, t, s, id);
      ExecConcat(owner, s, if id in t.rows then f(t.rows[id]) else [], OverRows(f, t, rest));
      ExecOverRows(owner, f, t, mid, rest);
      PassExtends(owner, f, t, s, ids, mid, Exec(owner, mid, OverRows(f, t, rest)).value);
    }
  }

  lemma PassExtends(owner: OwnerOf, f: Row -> seq<Action>, t: Table, s: Store, ids: seq<string>, mid: Store, s': Store)
    requires Lawful(f) && t.Valid() && ids != [] && ids[0] !in ids[1..]
    requires Lookup(s.table.rows, ids[0]) == Lookup(t.rows, ids[0])
    requires mid.table ==
      if ids[0] in t.rows then WithRow(s.table, ids[0], RowAfter(t.rows[ids[0]], f(t.rows[ids[0]])).value) else s.table
    requires mid.locks == Without(s.locks, if ids[0] in t.rows && Frees(f(t.rows[ids[0]])) then {owner(ids[0])} else {})
    requires PassedOver(owner, f, t, mid, ids[1..], s')
    ensures PassedOver(owner, f, t, s, ids, s')
  {
    hide Lawful, Table.Valid, Frees, RowAfter, Without;
    var id, rest := ids[0], ids[1..];
    assert ids == [id] + rest;
    WithoutTwice(s.locks, if id in t.rows && Frees(f(t.rows[id])) then {owner(id)} else {}, FreedBy(owner, f, t, rest));
  }

  lemma FirstRow(owner: OwnerOf, f: Row -> seq<Action>, t: Table, s: Store, id: string) returns (mid: Store)
    requires Lawful(f) && t.Valid() && Lookup(s.table.rows, id) == Lookup(t.rows, id)
    ensures Exec(owner, s, if id in t.rows then f(t.rows[id]) else []) == Some(mid)
    ensures mid.table ==
      if id in t.rows then WithRow(s.table, id, RowAfter(t.rows[id], f(t.rows[id])).value) else s.table
    ensures mid.locks == Without(s.locks, if id in t.rows && Frees(f(t.rows[id])) then {owner(id)} else {})
    ensures forall other :: other != id ==> Lookup(mid.table.rows, other) == Lookup(s.table.rows, other)
  {
    if id in t.rows {
      ExecOnRow(owner, s, id, f(t.rows[id]));
      mid := Exec(owner, s, f(t.rows[id])).value;
    } else {
      WithoutNone(s.locks);
      mid := s;
    }
  }

  // ---- Recovery never attempts a transition the journal forbids ----

  lemma RowAfterOne(row: Row, a: Action)
    ensures RowAfter(row, [a]) == RowStep(row, a)
  {
  }

  lemma {:induction false} RowAfterConcat(row: Row, a: seq<Action>, b: seq<Action>)
    ensures RowAfter(row, a + b) == match RowAfter(row, a) case None => None case Some(r) => RowAfter(r, b)
  {
    if b == [] {
      assert a + b == a;
    } else {
      assert (a + b)[..|a + b| - 1] == a + b[..|b| - 1];
      RowAfterConcat(row, a, b[..|b| - 1]);
    }
  }

  /** The row after recovery has looked at it. */
  function Recovered(owner: OwnerOf, row: Row, locks: seq<LockedOutput>, tip: BlockHeight): Row {
    var held := Held(row, locks);
    var cancelled := Moved(row, Cancelled, None, Some("restart"));
    if OwnerCorrupt(owner, row) then row else
      match row.stage
      case Planned =>
        if held == [] then cancelled else if InputsMatch(row, held) then Moved(row, Reserved, None, None) else row
      case Reserved =>
        if held == [] then (if PastExpiry(row, tip) then Moved(row, Expired, None, Some("restart")) else row)
        else if InputsMatch(row, held) then cancelled else row
      case Proving => cancelled
      case Proven => cancelled
      case Signing => cancelled
      case Signed => cancelled
      case Extracted => cancelled
      case Verified => cancelled
      case _ => row
  }

  predicate RecoveryFrees(owner: OwnerOf, row: Row, locks: seq<LockedOutput>) {
    var held := Held(row, locks);
    && !OwnerCorrupt(owner, row) && held != []
    && (row.stage.Proving? || row.stage.Proven? || (row.stage.Reserved? && InputsMatch(row, held)))
  }

  lemma RecoverRowEffect(owner: OwnerOf, row: Row, locks: seq<LockedOutput>, tip: BlockHeight)
    ensures var actions := RecoverRow(owner, row, locks, tip);
      && About(row.plan.id, actions)
      && RowAfter(row, actions) == Some(Recovered(owner, row, locks, tip))
      && (Frees(actions) <==> RecoveryFrees(owner, row, locks))
  {
    var actions := RecoverRow(owner, row, locks, tip);
    var id := row.plan.id;
    if |actions| == 1 {
      assert actions == [actions[0]];
      RowAfterOne(row, actions[0]);
    } else if |actions| == 2 {
      assert actions == [Cancel(id)] + [Release(id)];
      RowAfterConcat(row, [Cancel(id)], [Release(id)]);
      RowAfterOne(row, Cancel(id));
      RowAfterOne(Moved(row, Cancelled, None, Some("restart")), Release(id));
      assert actions[1].Release?;
    }
  }

  /** The row after reconciliation has looked at it. */
  function Reconciled(row: Row, status: string -> StatusReply, tip: BlockHeight): Row {
    if !BroadcastPhase(row.stage) || row.txid.None? then row else
      match status(row.txid.value)
      case QueryFailed => row
      case Known(InBlock) => Moved(row, Mined, None, None)
      case Known(InMempool) => if row.stage.BroadcastAccepted? then row else Moved(row, BroadcastAccepted, None, None)
      case Known(Absent) =>
        var note := if DefinitelyExpired(row, tip) then None else Some("absent");
        var unknown := if row.stage.Broadcasting? then Moved(row, BroadcastUnknown, None, note) else row;
        if DefinitelyExpired(row, tip) then Moved(unknown, Expired, None, Some("absent past expiry")) else unknown
  }

  predicate ReconcileFrees(row: Row, status: string -> StatusReply, tip: BlockHeight) {
    && BroadcastPhase(row.stage) && row.txid.Some? && status(row.txid.value) == Known(Absent)
    && DefinitelyExpired(row, tip)
  }

  lemma ResolveRowEffect(row: Row, st: TxStatus, tip: BlockHeight)
    requires BroadcastPhase(row.stage) && row.txid.Some?
    ensures var actions := ResolveRow(row, st, tip);
      && About(row.plan.id, actions)
      && RowAfter(row, actions) == Some(Reconciled(row, _ => Known(st), tip))
      && (Frees(actions) <==> ReconcileFrees(row, _ => Known(st), tip))
  {
    var actions := ResolveRow(row, st, tip);
    var id := row.plan.id;
    if st.Absent? {
      var note := if DefinitelyExpired(row, tip) then None else Some("absent");
      var unknown: seq<Action> := if row.stage.Broadcasting? then [Move(id, BroadcastUnknown, None, note)] else [];
      var mid := if row.stage.Broadcasting? then Moved(row, BroadcastUnknown, None, note) else row;
      assert RowAfter(row, unknown) == Some(mid) by {
        RowAfterOne(row, Move(id, BroadcastUnknown, None, note));
      }
      if DefinitelyExpired(row, tip) {
        var expire, release := Move(id, Expired, None, Some("absent past expiry")), Action.Release(id);
        assert actions == unknown + ([expire] + [release]);
        RowAfterConcat(row, unknown, [expire] + [release]);
        RowAfterConcat(mid, [expire], [release]);
        RowAfterOne(mid, expire);
        RowAfterOne(Moved(mid, Expired, None, Some("absent past expiry")), release);
        assert actions[|actions| - 1].Release?;
      }
    } else if actions != [] {
      assert actions == [actions[0]];
      RowAfterOne(row, actions[0]);
    }
  }

  lemma ReconcileRowEffect(row: Row, status: string -> StatusReply, tip: BlockHeight)
    ensures var actions := ReconcileRow(row, status, tip);
      && About(row.plan.id, actions)
      && RowAfter(row, actions) == Some(Reconciled(row, status, tip))
      && (Frees(actions) <==> ReconcileFrees(row, status, tip))
  {
    var actions := ReconcileRow(row, status, tip);
    if actions != [] {
      var st := status(row.txid.value).status;
      var first := Observe(row.plan.id, st, tip);
      var rest := ResolveRow(row, st, tip);
      ResolveRowEffect(row, st, tip);
      RowAfterConcat(row, [first], rest);
      RowAfterOne(row, first);
      assert forall i :: 0 <= i < |rest| ==> actions[i + 1] == rest[i];
      assert forall i :: 1 <= i < |actions| ==> actions[i] == rest[i - 1];
    }
  }
}
