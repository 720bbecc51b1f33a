/** The wallet's broadcast, reconciliation and recovery procedures over the journal and the lock store. */
module WalletSession {
  import opened Options
  import opened ByteStrings
  import opened Journal
  import opened Wallet
  import opened Recovery
  import opened RecoveryPasses

  datatype Outcome = Accepted | RejectedByNode | Unknown | StalePlan | Refused(error: JournalError)

  /** What a pass did: every transition with the stage it left, every release, and the locks nobody owns. */
  datatype Report = Report(transitions: seq<(string, Stage, Stage)>, released: seq<string>, orphans: seq<LockedOutput>)

  const NOTHING: Report := Report([], [], [])

  function Noted(report: Report, s: Store, a: Action): Report {
    match a
    case Move(id, to, _, _) =>
      if id in s.table.rows then report.(transitions := report.transitions + [(id, s.table.rows[id].stage, to)])
      else report
    case Release(id) => report.(released := report.released + [id])
    case _ => report
  }

  /** The report after `actions`, performed one after another from `s`. */
  function Reported(owner: OwnerOf, s: Store, actions: seq<Action>, report: Report): Report {
    if actions == [] then report else
      var front, a := actions[..|actions| - 1], actions[|actions| - 1];
      var sofar := Reported(owner, s, front, report);
      match Exec(owner, s, front)
      case None => sofar
      case Some(mid) => Noted(sofar, mid, a)
  }

  lemma ReportedSnoc(owner: OwnerOf, s: Store, actions: seq<Action>, a: Action, report: Report)
    requires Exec(owner, s, actions).Some?
    ensures Reported(owner, s, actions + [a], report) ==
      Noted(Reported(owner, s, actions, report), Exec(owner, s, actions).value, a)
    ensures Exec(owner, s, actions + [a]) == Step(owner, Exec(owner, s, actions).value, a)
  {
  }

  lemma {:induction false} ReportedConcat(owner: OwnerOf, s: Store, a: seq<Action>, b: seq<Action>, report: Report)
    requires Exec(owner, s, a).Some?
    ensures Reported(owner, s, a + b, report) ==
      Reported(owner, Exec(owner, s, a).value, b, Reported(owner, s, a, report))
  {
    hide Exec, Noted;
    if b == [] {
      assert a + b == a;
    } else {
      var front := b[..|b| - 1];
      assert (a + b)[..|a + b| - 1] == a + front && (a + b)[|a + b| - 1] == b[|b| - 1];
      ReportedConcat(owner, s, a, front, report);
      ExecConcat(owner, s, a, front);
    }
  }

  lemma {:induction false} OverRowsSnoc(f: Row -> seq<Action>, t: Table, ids: seq<string>, id: string)
    ensures OverRows(f, t, ids + [id]) == OverRows(f, t, ids) + (if id in t.rows then f(t.rows[id]) else [])
  {
    if ids == [] {
      assert [id][1..] == [];
      assert OverRows(f, t, [id]) == (if id in t.rows then f(t.rows[id]) else []) + OverRows(f, t, []);
    } else {
      assert (ids + [id])[1..] == ids[1..] + [id];
      OverRowsSnoc(f, t, ids[1..], id);
    }
  }

  /** Owners named by non-terminal rows; locks of anyone else are reported as orphans. */
  function KnownOwners(t: Table): set<string> {
    set id | id in t.rows && !Terminal(t.rows[id].stage) && t.rows[id].plan.lockOwner != "" :: t.rows[id].plan.lockOwner
  }

  /** A row whose own actions have not run yet still reads as it did when the pass began. */
  lemma UntouchedSoFar(owner: OwnerOf, f: Row -> seq<Action>, s0: Store, ids: seq<string>, i: nat)
    requires Lawful(f) && s0.table.Valid() && Unrepeated(ids) && i < |ids| && ids[i] in s0.table.rows
    ensures var done := Exec(owner, s0, OverRows(f, s0.table, ids[..i]));
      done.Some? && Lookup(done.value.table.rows, ids[i]) == Some(s0.table.rows[ids[i]]) && done.value.table.Valid()
  {
    ExecOverRows(owner, f, s0.table, s0, ids[..i]);
    var s := Exec(owner, s0, OverRows(f, s0.table, ids[..i])).value;
    assert ids[i] !in ids[..i];
    hide Exec, OverRows, FreedBy, Without, About, RowAfter;
    forall id | id in s0.table.rows ensures s.table.rows[id].plan == s0.table.rows[id].plan {
      ReleasesKeepPlans(f, s0.table, ids[..i], id);
    }
  }

  lemma ReleasesKeepPlans(f: Row -> seq<Action>, t: Table, ids: seq<string>, id: string)
    requires Lawful(f) && t.Valid() && id in t.rows
    ensures RowOver(f, t, t, ids, id).plan == t.rows[id].plan
  {
    RowAfterKeepsPlan(t.rows[id], f(t.rows[id]));
  }

  lemma {:induction false} RowAfterKeepsPlan(row: Row, actions: seq<Action>)
    requires RowAfter(row, actions).Some?
    ensures RowAfter(row, actions).value.plan == row.plan
  {
    if actions != [] {
      RowAfterKeepsPlan(row, actions[..|actions| - 1]);
    }
  }

  /** One more row of a pass. */
  lemma PassGrows(owner: OwnerOf, f: Row -> seq<Action>, s0: Store, ids: seq<string>, i: nat, s: Store, s': Store,
      report: Report)
    requires i < |ids| && ids[i] in s0.table.rows
    requires Exec(owner, s0, OverRows(f, s0.table, ids[..i])) == Some(s)
    requires Exec(owner, s, f(s0.table.rows[ids[i]])) == Some(s')
    ensures var done := OverRows(f, s0.table, ids[..i + 1]);
      && Exec(owner, s0, done) == Some(s')
      && Reported(owner, s0, done, report) ==
           Reported(owner, s, f(s0.table.rows[ids[i]]), Reported(owner, s0, OverRows(f, s0.table, ids[..i]), report))
  {
    hide Exec, Reported;
    assert ids[..i + 1] == ids[..i] + [ids[i]];
    OverRowsSnoc(f, s0.table, ids[..i], ids[i]);
    ExecConcat(owner, s0, OverRows(f, s0.table, ids[..i]), f(s0.table.rows[ids[i]]));
    ReportedConcat(owner, s0, OverRows(f, s0.table, ids[..i]), f(s0.table.rows[ids[i]]), report);
  }

  class Session {
    const journal: JournalStore
    const owner: OwnerOf
    var locks: seq<LockedOutput>
    ghost var trace: seq<Event>

    constructor (j: JournalStore, o: OwnerOf)
      ensures journal == j && owner == o && locks == [] && trace == []
    {
      journal, owner, locks, trace := j, o, [], [];
    }

    ghost function Current(): Store
      reads this, journal
    {
      Store(journal.table, locks, trace)
    }

    ghost predicate Valid()
      reads this, journal
    {
      journal.table.Valid()
    }

    /** `done` is what this procedure has performed since the store was `s0`, and `report` tells it. */
    ghost predicate Did(s0: Store, done: seq<Action>, before: Report, report: Report)
      reads this, journal
    {
      Exec(owner, s0, done) == Some(Current()) && Reported(owner, s0, done, before) == report
    }

    /** Something the outside world saw or said. */
    ghost method Happens(a: Action)
      requires a.Send? || a.Hear? || a.Observe?
      modifies this`trace
      ensures Step(owner, old(Current()), a) == Some(Current())
    {
      match a {
        case Send(id) => trace := trace + [Sent(id)];
        case Hear(id, v) => trace := trace + [Heard(id, v)];
        case Observe(id, status, tip) => trace := trace + [Observed(id, status, tip)];
        case _ =>
      }
    }

    /** A journal write; refused exactly when the step is. */
    method MoveRow(id: string, to: Stage, txid: Option<string>,
        err: Option<string>) returns (r: Result<Stage, JournalError>)
      requires Valid()
      modifies journal
      ensures Valid()
      ensures Step(owner, old(Current()), Move(id, to, txid, err)) == if r.Ok? then Some(Current()) else None
      ensures r.Err? ==> Current() == old(Current())
      ensures r.Ok? <==> id in old(journal.table.rows) && CanTransition(old(journal.table.rows)[id].stage, to)
      ensures r.Ok? ==> r == Ok(old(journal.table.rows)[id].stage)
      ensures r.Ok? ==> id in journal.table.rows && journal.table.rows[id].stage == to
    {
      r := journal.Transition(id, to, txid, err);
    }

    /** The lock store drops every lock of the plan's derived owner. */
    method ReleaseLocks(id: string)
      modifies this
      ensures Step(owner, old(Current()), Release(id)) == Some(Current())
    {
      var kept: seq<LockedOutput> := [];
      assert locks[0..] == locks;
      for i := 0 to |locks|
        invariant unchanged(this)
        invariant kept + Unlocked(locks[i..], owner(id)) == Unlocked(locks, owner(id))
      {
        assert locks[i..][0] == locks[i] && locks[i..][1..] == locks[i + 1..];
        if locks[i].owner != owner(id) {
          kept := kept + [locks[i]];
        }
      }
      assert locks[|locks|..] == [] && kept + [] == kept;
      locks := kept;
      trace := trace + [Released(id)];
    }

    /** `broadcast_verified`: journal first, then the wire, then the verdict. */
    method BroadcastVerified(id: string, txid: string, currentTip: (BlockHeight, string),
        verifiedTip: (BlockHeight, string), verdict: Verdict)
      returns (r: Outcome)
      requires Valid()
      modifies this, journal
      ensures Valid()
      ensures if r.Refused?
        then Current() == old(Current()) && Step(owner, old(Current()), Move(id, Broadcasting, Some(txid), None)).None?
        else Some(Current()) ==
             Exec(owner, old(Current()), BroadcastActions(id, txid, currentTip == verifiedTip, verdict))
      ensures r == StalePlan <==> currentTip != verifiedTip
      ensures r == RejectedByNode <==> currentTip == verifiedTip && verdict.NodeRejected? && !r.Refused?
      ensures r == Accepted <==> currentTip == verifiedTip && verdict == NodeAccepted(txid) && !r.Refused?
    {
      hide Exec, Step, BroadcastActions, CanTransition, Table.Valid;
      ghost var s0 := Current();
      ghost var done: seq<Action> := [];
      ExecNothing(owner, s0);
      BroadcastList(id, txid, verdict);
      if currentTip != verifiedTip {
        return StalePlan;
      }
      var moved := MoveRow(id, Broadcasting, Some(txid), None);
      if moved.Err? {
        return Refused(moved.error);
      }
      done := Also(s0, done, Move(id, Broadcasting, Some(txid), None));
      Happens(Send(id));
      done := Also(s0, done, Send(id));
      Happens(Hear(id, verdict));
      done := Also(s0, done, Hear(id, verdict));
      var to, note: Option<string>;
      match verdict {
        case NodeAccepted(returned) =>
          to, note := if returned != txid then BroadcastUnknown else BroadcastAccepted,
            if returned != txid then Some("accepted txid mismatch") else None;
          r := if returned != txid then Unknown else Accepted;
        case NodeRejected =>
          to, note, r := Stage.Rejected, Some("rejected"), RejectedByNode;
        case Ambiguous =>
          to, note, r := BroadcastUnknown, Some("ambiguous"), Unknown;
      }
      ghost var sent := done;
      assert sent == [Move(id, Broadcasting, Some(txid), None)] + [Send(id)] + [Hear(id, verdict)];
      moved := MoveRow(id, to, None, note);
      done := Also(s0, done, Move(id, to, None, note));
      if verdict.NodeRejected? {
        ReleaseLocks(id);
        done := Also(s0, done, Release(id));
        assert done == sent + ([Move(id, to, None, note)] + [Release(id)]);
      }
    }

    /** Ghost bookkeeping: the store is the effect of the actions performed so far. */
    ghost method Also(s0: Store, done: seq<Action>, a: Action) returns (done': seq<Action>)
      requires Exec(owner, s0, done).Some? && Step(owner, Exec(owner, s0, done).value, a) == Some(Current())
      ensures done' == done + [a] && Exec(owner, s0, done') == Some(Current())
    {
      done' := done + [a];
      ReportedSnoc(owner, s0, done, a, NOTHING);
    }

    /** A transition of recovery, which the journal is known to allow. */
    method Resolve(id: string, to: Stage, err: Option<string>, report: Report, ghost s0: Store,
        ghost done: seq<Action>, ghost before: Report)
      returns (report': Report, ghost done': seq<Action>)
      requires Valid() && Did(s0, done, before, report)
      requires id in journal.table.rows && CanTransition(journal.table.rows[id].stage, to)
      modifies journal
      ensures Valid() && done' == done + [Move(id, to, None, err)] && Did(s0, done', before, report')
      ensures id in journal.table.rows && journal.table.rows[id].stage == to
    {
      ReportedSnoc(owner, s0, done, Move(id, to, None, err), before);
      hide Exec, Step;
      var from := MoveRow(id, to, None, err);
      report' := report.(transitions := report.transitions + [(id, from.value, to)]);
      done' := done + [Move(id, to, None, err)];
    }

    /** A release of recovery. */
    method Free(id: string, report: Report, ghost s0: Store, ghost done: seq<Action>, ghost before: Report)
      returns (report': Report, ghost done': seq<Action>)
      requires Valid() && Did(s0, done, before, report)
      modifies this
      ensures Valid() && done' == done + [Release(id)] && Did(s0, done', before, report')
    {
      ReportedSnoc(owner, s0, done, Release(id), before);
      hide Exec, Step;
      ReleaseLocks(id);
      report' := report.(released := report.released + [id]);
      done' := done + [Release(id)];
    }

    /** One row of `startup_recover`. */
    method RecoverOne(row: Row, allLocks: seq<LockedOutput>, tip: BlockHeight, report: Report) returns (report': Report)
      requires Valid() && Lookup(journal.table.rows, row.plan.id) == Some(row)
      modifies this, journal
      ensures Valid() && Did(old(Current()), RecoverRow(owner, row, allLocks, tip), report, report')
    {
      hide Exec, Reported, LocksOf, InputsMatch;
      var id := row.plan.id;
      report' := report;
      ghost var s0 := Current();
      ghost var done: seq<Action> := [];
      NothingYet(owner, s0, report);
      if row.plan.fundingMode == "shielded" && row.plan.lockOwner != owner(id) {
        return;
      }
      var held := if row.plan.lockOwner == "" then [] else LocksOf(allLocks, row.plan.lockOwner);
      var expired := row.plan.expiry.Some? && tip > row.plan.expiry.value;
      var cancel, release := false, false;
      match row.stage {
        case Planned =>
          if held == [] {
            cancel := true;
          } else if InputsMatch(row, held) {
            report', done := Resolve(id, Reserved, None, report', s0, done, report);
          }
        case Reserved =>
          if held == [] {
            if expired {
              report', done := Resolve(id, Expired, Some("restart"), report', s0, done, report);
            }
          } else if InputsMatch(row, held) {
            cancel, release := true, true;
          }
        case Proving => cancel, release := true, held != [];
        case Proven => cancel, release := true, held != [];
        case Signing => cancel := true;
        case Signed => cancel := true;
        case Extracted => cancel := true;
        case Verified => cancel := true;
        case _ =>
      }
      if cancel {
        report', done := Resolve(id, Cancelled, Some("restart"), report', s0, done, report);
        if release {
          report', done := Free(id, report', s0, done, report);
        }
      }
      assert done == RecoverRow(owner, row, allLocks, tip);
    }

    /** One row of `reconcile`. */
    method ReconcileOne(row: Row, status: string -> StatusReply, tip: BlockHeight,
        report: Report) returns (report': Report)
      requires Valid() && Lookup(journal.table.rows, row.plan.id) == Some(row)
      modifies this, journal
      ensures Valid() && Did(old(Current()), ReconcileRow(row, status, tip), report, report')
    {
      hide Exec, Reported, Step, DefinitelyExpired, Table.Valid;
      var id := row.plan.id;
      report' := report;
      ghost var s0 := Current();
      ghost var done: seq<Action> := [];
      NothingYet(owner, s0, report);
      if !BroadcastPhase(row.stage) || row.txid.None? {
        return;
      }
      var reply := status(row.txid.value);
      if reply.QueryFailed? {
        return;
      }
      ReportedSnoc(owner, s0, done, Observe(id, reply.status, tip), report);
      Happens(Observe(id, reply.status, tip));
      done := done + [Observe(id, reply.status, tip)];
      match reply.status {
        case InBlock =>
          report', done := Resolve(id, Mined, None, report', s0, done, report);
        case InMempool =>
          if !row.stage.BroadcastAccepted? {
            report', done := Resolve(id, BroadcastAccepted, None, report', s0, done, report);
          }
        case Absent =>
          var definitelyExpired := DefinitelyExpired(row, tip);
          if row.stage.Broadcasting? {
            var note := if definitelyExpired then None else Some("absent");
            report', done := Resolve(id, BroadcastUnknown, note, report', s0, done, report);
          }
          if definitelyExpired {
            report', done := Resolve(id, Expired, Some("absent past expiry"), report', s0, done, report);
            report', done := Free(id, report', s0, done, report);
          }
      }
      assert done == ReconcileRow(row, status, tip);
    }

    /** The rows before the broadcast phase, each as it was when the pass began. */
    method RecoverRows(allLocks: seq<LockedOutput>, tip: BlockHeight, report: Report) returns (report': Report)
      requires Valid() && allLocks == locks
      modifies this, journal
      ensures Valid() && Did(old(Current()), RecoverActions(owner, old(Current()), tip), report, report')
    {
      hide Table.Valid, Exec, Reported, OverRows, RecoverRow, Lawful, Terminal;
      ghost var s0 := Current();
      var ids := journal.NonTerminal();
      var rows := journal.table.rows;
      ghost var f := Recovering(owner, allLocks, tip);
      RecoveryIsLawful(owner, allLocks, tip);
      ListedRows(s0.table, ids);
      report' := report;
      NoRowsYet(owner, f, s0, ids, report);
      for i := 0 to |ids|
        invariant Valid() && Did(s0, OverRows(f, s0.table, ids[..i]), report, report')
      {
        UntouchedSoFar(owner, f, s0, ids, i);
        ghost var s := Current();
        report' := RecoverOne(rows[ids[i]], allLocks, tip, report');
        PassGrows(owner, f, s0, ids, i, s, Current(), report);
      }
      assert ids[..|ids|] == ids;
    }

    /** `reconcile`. */
    method ReconcileRows(status: string -> StatusReply, tip: BlockHeight, report: Report) returns (report': Report)
      requires Valid()
      modifies this, journal
      ensures Valid() && Did(old(Current()), ReconcileActions(old(Current()), status, tip), report, report')
    {
      hide Table.Valid, Exec, Reported, OverRows, ReconcileRow, Lawful, Terminal;
      ghost var s0 := Current();
      var ids := journal.NonTerminal();
      var rows := journal.table.rows;
      ghost var f := Reconciling(status, tip);
      ReconciliationIsLawful(status, tip);
      ListedRows(s0.table, ids);
      report' := report;
      NoRowsYet(owner, f, s0, ids, report);
      for i := 0 to |ids|
        invariant Valid() && Did(s0, OverRows(f, s0.table, ids[..i]), report, report')
      {
        UntouchedSoFar(owner, f, s0, ids, i);
        ghost var s := Current();
        report' := ReconcileOne(rows[ids[i]], status, tip, report');
        PassGrows(owner, f, s0, ids, i, s, Current(), report);
      }
      assert ids[..|ids|] == ids;
    }

    /** `startup_recover`. */
    method StartupRecover(status: string -> StatusReply, tip: BlockHeight) returns (report: Report)
      requires Valid()
      modifies this, journal
      ensures Valid() && Pass(owner, old(Current()), status, tip) == Some(Current())
      ensures report.(orphans := []) == PassReport(owner, old(Current()), status, tip)
      ensures report.orphans == OrphanLocks(KnownOwners(old(journal.table)), old(locks))
    {
      hide Exec, Reported, RecoverActions, ReconcileActions, Table.Valid;
      ghost var s0 := Current();
      var allLocks := locks;
      var known := KnownOwners(journal.table);
      report := RecoverRows(allLocks, tip, NOTHING);
      report := ReconcileRows(status, tip, report);
      ReportsNoOrphans(owner, s0, status, tip);
      var orphans := [];
      for i := 0 to |allLocks|
        invariant orphans == OrphanLocks(known, allLocks[..i])
      {
        assert allLocks[..i + 1][..i] == allLocks[..i];
        if allLocks[i].owner !in known {
          orphans := orphans + [allLocks[i]];
        }
      }
      assert allLocks[..|allLocks|] == allLocks;
      report := report.(orphans := orphans);
    }
  }

  function PassReport(owner: OwnerOf, s: Store, status: string -> StatusReply, tip: BlockHeight): Report {
    var first := Reported(owner, s, RecoverActions(owner, s, tip), NOTHING);
    match Exec(owner, s, RecoverActions(owner, s, tip))
    case None => first
    case Some(mid) => Reported(owner, mid, ReconcileActions(mid, status, tip), first)
  }

  /** The locks no non-terminal row accounts for. */
  function OrphanLocks(known: set<string>, locks: seq<LockedOutput>): seq<LockedOutput> {
    if locks == [] then [] else
      var last := locks[|locks| - 1];
      OrphanLocks(known, locks[..|locks| - 1]) + (if last.owner in known then [] else [last])
  }

  /** A lock is reported exactly when every row naming its owner is terminal, not only when no row does. */
  lemma {:induction false} OrphanIff(t: Table, locks: seq<LockedOutput>, l: LockedOutput)
    requires l.owner != ""
    ensures l in OrphanLocks(KnownOwners(t), locks) <==>
      l in locks && forall id :: id in t.rows && t.rows[id].plan.lockOwner == l.owner ==> Terminal(t.rows[id].stage)
  {
    if locks != [] {
      OrphanIff(t, locks[..|locks| - 1], l);
      assert locks == locks[..|locks| - 1] + [locks[|locks| - 1]];
    }
    assert l.owner in KnownOwners(t) <==>
      exists id :: id in t.rows && !Terminal(t.rows[id].stage) && t.rows[id].plan.lockOwner == l.owner;
  }

  lemma {:induction false} ReportedOrphans(owner: OwnerOf, s: Store, actions: seq<Action>, report: Report)
    ensures Reported(owner, s, actions, report).orphans == report.orphans
  {
    hide Exec;
    if actions != [] {
      ReportedOrphans(owner, s, actions[..|actions| - 1], report);
    }
  }

  lemma ReportsNoOrphans(owner: OwnerOf, s: Store, status: string -> StatusReply, tip: BlockHeight)
    ensures PassReport(owner, s, status, tip).orphans == []
  {
    hide Exec, RecoverActions, ReconcileActions;
    ReportedOrphans(owner, s, RecoverActions(owner, s, tip), NOTHING);
    var mid := Exec(owner, s, RecoverActions(owner, s, tip));
    if mid.Some? {
      ReportedOrphans(owner, mid.value, ReconcileActions(mid.value, status, tip),
        Reported(owner, s, RecoverActions(owner, s, tip), NOTHING));
    }
  }

  /** The sends and moves of one broadcast, and that the journal allows the move after the send. */
  lemma BroadcastList(id: string, txid: string, verdict: Verdict)
    ensures BroadcastActions(id, txid, false, verdict) == []
    ensures CanTransition(Broadcasting, BroadcastUnknown) && CanTransition(Broadcasting, BroadcastAccepted)
    ensures CanTransition(Broadcasting, Stage.Rejected)
    ensures BroadcastActions(id, txid, true, verdict) ==
      [Move(id, Broadcasting, Some(txid), None)] + [Send(id)] + [Hear(id, verdict)] +
      match verdict
      case NodeAccepted(returned) =>
        if returned == txid then [Move(id, BroadcastAccepted, None, None)]
        else [Move(id, BroadcastUnknown, None, Some("accepted txid mismatch"))]
      case NodeRejected => [Move(id, Stage.Rejected, None, Some("rejected"))] + [Release(id)]
      case Ambiguous => [Move(id, BroadcastUnknown, None, Some("ambiguous"))]
  {
  }

  function StageAfter(txid: string, verdict: Verdict): Stage {
    match verdict
    case NodeAccepted(returned) => if returned == txid then BroadcastAccepted else BroadcastUnknown
    case NodeRejected => Stage.Rejected
    case Ambiguous => BroadcastUnknown
  }

  /**
    * What a broadcast of a verified plan leaves: one send, after the row and its txid were on disk; a
    * stage that claims no more than the verdict; and the reservations, unless the node rejected.
    */
  lemma BroadcastEffect(owner: OwnerOf, s: Store, id: string, txid: string, verdict: Verdict)
    requires id in s.table.rows && s.table.rows[id].stage.Verified?
    ensures var done := Exec(owner, s, BroadcastActions(id, txid, true, verdict));
      && done.Some?
      && done.value.trace == s.trace + [Sent(id), Heard(id, verdict)]
        + (if verdict.NodeRejected? then [Released(id)] else [])
      && done.value.locks == (if verdict.NodeRejected? then Unlocked(s.locks, owner(id)) else s.locks)
      && done.value.table.order == s.table.order && done.value.table.rows.Keys == s.table.rows.Keys
      && done.value.table.rows[id].stage == StageAfter(txid, verdict) && done.value.table.rows[id].txid == Some(txid)
      && done.value.table.rows[id].plan == s.table.rows[id].plan
      && forall other :: other in s.table.rows && other != id ==> done.value.table.rows[other] == s.table.rows[other]
  {
    var actions := BroadcastActions(id, txid, true, verdict);
    assert actions[..|actions|] == actions;
    var sent := Sending(owner, s, id, txid, verdict);
    BroadcastList(id, txid, verdict);
    hide Exec, BroadcastActions, CanTransition, Unlocked;
    ExecStep(owner, s, actions, 3);
    if verdict.NodeRejected? {
      ExecStep(owner, s, actions, 4);
    }
  }

  /** The store once the node has answered: the row first, then the message, then the answer. */
  lemma Sending(owner: OwnerOf, s: Store, id: string, txid: string, verdict: Verdict) returns (sent: Store)
    requires id in s.table.rows && s.table.rows[id].stage.Verified?
    ensures Exec(owner, s, BroadcastActions(id, txid, true, verdict)[..3]) == Some(sent)
    ensures sent.table == s.table.(rows := s.table.rows[id := Moved(s.table.rows[id], Broadcasting, Some(txid), None)])
    ensures sent.locks == s.locks && sent.trace == s.trace + [Sent(id), Heard(id, verdict)]
  {
    var actions := BroadcastActions(id, txid, true, verdict);
    ExecNothing(owner, s);
    assert actions[..0] == [];
    hide Exec;
    ExecStep(owner, s, actions, 0);
    ExecStep(owner, s, actions, 1);
    ExecStep(owner, s, actions, 2);
    sent := Exec(owner, s, actions[..3]).value;
  }

  lemma ExecStep(owner: OwnerOf, s: Store, actions: seq<Action>, n: nat)
    requires n < |actions| && Exec(owner, s, actions[..n]).Some?
    ensures Exec(owner, s, actions[..n + 1]) == Step(owner, Exec(owner, s, actions[..n]).value, actions[n])
  {
    assert actions[..n + 1][..n] == actions[..n];
  }

  lemma ExecNothing(owner: OwnerOf, s: Store)
    ensures Exec(owner, s, []) == Some(s)
  {
  }

  lemma NothingYet(owner: OwnerOf, s: Store, report: Report)
    ensures Exec(owner, s, []) == Some(s) && Reported(owner, s, [], report) == report
  {
  }

  lemma NoRowsYet(owner: OwnerOf, f: Row -> seq<Action>, s: Store, ids: seq<string>, report: Report)
    ensures Exec(owner, s, OverRows(f, s.table, ids[..0])) == Some(s)
    ensures Reported(owner, s, OverRows(f, s.table, ids[..0]), report) == report
  {
  }

  lemma ListedRows(t: Table, ids: seq<string>)
    requires t.Valid() && ids == NonTerminalIds(t, t.order)
    ensures Unrepeated(ids)
    ensures forall id :: id in ids ==> id in t.rows && t.rows[id].plan.id == id
  {
    NonTerminalMembers(t, t.order);
  }

  lemma RecoveryIsLawful(owner: OwnerOf, locks: seq<LockedOutput>, tip: BlockHeight)
    ensures Lawful(Recovering(owner, locks, tip))
  {
    RecoveryActs(owner, locks, tip);
    ActsLawfully(Recovering(owner, locks, tip), row => Recovered(owner, row, locks, tip),
      row => RecoveryFrees(owner, row, locks));
  }

  lemma ReconciliationIsLawful(status: string -> StatusReply, tip: BlockHeight)
    ensures Lawful(Reconciling(status, tip))
  {
    ReconcileActs(status, tip);
    ActsLawfully(Reconciling(status, tip), row => Reconciled(row, status, tip),
      row => ReconcileFrees(row, status, tip));
  }
}
