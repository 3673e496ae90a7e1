/** The queue's methods, adapters/postgres/command_queue_store.go:168-483. Each runs in a
    transaction `t`, its own or one the caller already holds. */
module CommandStore {
  import opened Collections
  import opened Options
  import opened CommandQueue
  import opened CommandInvariants
  import opened CommandTheorems

  datatype Result = Ok | NotFound | Invalid | Conflict | DeviceNotFound | RateLimited | StillWaiting

  datatype AckReason = AckSuccess | AckFailed | AckTimeout | AckRejected

  /** Five minutes, in seconds. */
  const DefaultLeaseDuration := 300

  function TargetStatus(reason: AckReason): (s: Status)
    ensures Terminal(s)
  {
    match reason
    case AckSuccess => Succeeded
    case AckFailed => Failed
    case AckTimeout => Expired
    case AckRejected => Canceled
  }

  /** What an enqueue answers on the rows it sees, once nothing makes it wait. */
  function EnqueueVerdict(cfg: Config, seen: Table, id: Id, device: Device, key: Option<Key>, cap: nat): Result {
    if KeyTaken(seen, key) then Ok
    else if id in seen then Conflict
    else if device !in cfg.devices then DeviceNotFound
    else if cap > 0 && |PendingOf(seen, device)| >= cap then RateLimited
    else Ok
  }

  /** Another transaction's unfinished work has to end before the row can be inserted. */
  predicate InsertWaits(db: Db, t: TxId, seen: Table, id: Id, key: Option<Key>) {
    KeyByOther(db, t, key) || (!KeyTaken(seen, key) && LockedByOther(db, t, id) && id !in db.rows)
  }

  /** What Ack (or Cancel) answers for a command in `status`. */
  function FinishVerdict(status: Status, target: Status, cancel: bool): Result {
    if Terminal(status) then
      if !cancel && status == target then Ok else Invalid
    else if CanTransition(status, target) then Ok
    else Invalid
  }

  lemma {:induction false} RunAppend(cfg: Config, db: Db, acts: seq<Action>, a: Action)
    ensures Run(cfg, db, acts + [a]) == Step(cfg, Run(cfg, db, acts), a)
    decreases |acts|
  {
    if acts == [] {
      assert acts + [a] == [a] && [a][1..] == [];
    } else {
      assert (acts + [a])[1..] == acts[1..] + [a];
      RunAppend(cfg, Step(cfg, db, acts[0]), acts[1..], a);
    }
  }

  lemma OthersLeaveTx(cfg: Config, db: Db, a: Action, t: TxId)
    requires t in db.txs && a.t != t
    ensures var db' := Step(cfg, db, a); t in db'.txs && db'.txs[t] == db.txs[t]
  {
  }

  /** A row somebody has locked is not changed by anybody else's step. */
  lemma OthersLeaveRow(cfg: Config, db: Db, a: Action, t: TxId, id: Id)
    requires Inv(cfg, db) && t in db.txs && a.t != t && id in Rows(db.txs[t]) && id in db.rows + db.txs[t].own
    ensures var db' := Step(cfg, db, a); id in db'.rows + db.txs[t].own && (db'.rows + db.txs[t].own)[id] == (db.rows + db.txs[t].own)[id]
  {
    if a.Commit? && a.t in db.txs {
      assert PairOk(cfg, db.rows, db.txs[a.t], db.txs[t]) && TxOk(db.rows, db.txs[a.t]);
      assert id !in db.txs[a.t].own;
    } else if !a.Commit? {
      OnlyCommitChangesRows(cfg, db, a);
    }
  }

  /** Waiting depends on the other transactions only. */
  lemma WaitsForOthers(db: Db, t: TxId, tx: Tx, seen: Table, id: Id, key: Option<Key>)
    requires t in db.txs
    ensures InsertWaits(With(db, t, tx), t, seen, id, key) == InsertWaits(db, t, seen, id, key)
  {
    var db' := With(db, t, tx);
    assert db.txs.Keys == db'.txs.Keys && forall u | u in db.txs && u != t :: db'.txs[u] == db.txs[u];
    assert LockedByOther(db', t, id) == LockedByOther(db, t, id);
    assert KeyByOther(db', t, key) == KeyByOther(db, t, key);
  }

  lemma PendingPlusOne(seen: Table, id: Id, row: Command)
    requires id !in seen && row.status.Pending?
    ensures |PendingOf(seen[id := row], row.device)| == |PendingOf(seen, row.device)| + 1
  {
    assert PendingOf(seen[id := row], row.device) == PendingOf(seen, row.device) + {id};
  }

  // ------------------------------------------------------------------
  // In columns
  // ------------------------------------------------------------------

  /** Not ended yet: status IN (1, 2, 3). */
  ghost predicate Active(s: Status) {
    s == Pending || s == Sent || s == Delivered
  }

  /** A command with the key is under way. */
  ghost predicate Coalesces(seen: Table, key: Option<Key>) {
    key != None && exists x | x in seen :: seen[x].key == key && Active(seen[x].status)
  }

  ghost function PendingAt(seen: Table, device: Device): set<Id> {
    set x | x in seen && seen[x].status == Pending && seen[x].device == device
  }

  ghost function AckedAs(reason: AckReason): Status {
    if reason == AckSuccess then Succeeded
    else if reason == AckFailed then Failed
    else if reason == AckTimeout then Expired
    else Canceled
  }

  /** A command that already has the target status stays; one under way takes it, except that a
      pending one cannot have succeeded; all else is an error. */
  ghost predicate Concluded(c: Command, target: Status, now: Time, r: Result, after: Command) {
    if c.status == target then r == Ok && after == c
    else if Active(c.status) && !(c.status == Pending && target == Succeeded) then
      r == Ok && after == c.(status := target, completedAt := Some(now), lease := None)
    else r == Invalid && after == c
  }

  /** Another transaction has the row locked. */
  ghost predicate LockedElsewhere(db: Db, t: TxId, id: Id) {
    exists u | u in db.txs :: u != t && Locks(db.txs[u], id)
  }

  ghost predicate Locks(tx: Tx, id: Id) {
    id in tx.locks || (tx.pc.Inserted? && tx.pc.id == id) || (tx.pc.Locked? && tx.pc.rowId == id)
  }

  /** What makes an enqueue wait: another transaction has the device's quota lock, has the key in
      the index of active commands, or is inserting a row with the same id. */
  ghost predicate Hinders(cfg: Config, rows: Table, tx: Tx, seen: Table, id: Id, device: Device, key: Option<Key>, cap: nat) {
    || (cap > 0 && HasQuota(cfg, tx, device))
    || (key != None && HasKey(rows, tx, key))
    || (!Coalesces(seen, key) && id !in rows && Locks(tx, id))
  }

  /** It has written a command with the key that is under way, or one whose end it has not committed. */
  ghost predicate HasKey(rows: Table, tx: Tx, key: Option<Key>) {
    || (tx.pc.Inserted? && tx.pc.row.key == key)
    || exists x | x in tx.own :: tx.own[x].key == key && (Active(tx.own[x].status) || (x in rows && Active(rows[x].status)))
  }

  ghost predicate Hindered(cfg: Config, db: Db, t: TxId, seen: Table, id: Id, device: Device, key: Option<Key>, cap: nat) {
    exists u | u in db.txs :: u != t && Hinders(cfg, db.rows, db.txs[u], seen, id, device, key, cap)
  }

  ghost predicate HasQuota(cfg: Config, tx: Tx, device: Device) {
    || cfg.lockKey(device) in tx.quotas
    || (tx.pc.Quota? && cfg.lockKey(tx.pc.device) == cfg.lockKey(device))
    || (tx.pc.Inserted? && cfg.lockKey(tx.pc.row.device) == cfg.lockKey(device))
  }

  /** The answer of an enqueue that does not wait, on the rows it sees, and what it leaves. */
  ghost predicate Enqueued(cfg: Config, seen: Table, id: Id, device: Device, key: Option<Key>, cap: nat, now: Time, r: Result, after: Table) {
    if Coalesces(seen, key) then r == Ok && after == seen
    else if id in seen then r == Conflict && after == seen
    else if device !in cfg.devices then r == DeviceNotFound && after == seen
    else if 0 < cap <= |PendingAt(seen, device)| then r == RateLimited && after == seen
    else r == Ok && after == seen[id := Command(device, key, Pending, 0, now, None, None, None, None)]
  }

  lemma TakenInColumns(seen: Table, key: Option<Key>, device: Device)
    ensures KeyTaken(seen, key) <==> Coalesces(seen, key)
    ensures PendingOf(seen, device) == PendingAt(seen, device)
  {
    assert forall x | x in seen :: Terminal(seen[x].status) <==> !Active(seen[x].status);
  }

  lemma LockedInColumns(db: Db, t: TxId, id: Id)
    ensures LockedByOther(db, t, id) <==> LockedElsewhere(db, t, id)
  {
    assert forall u | u in db.txs :: id in Rows(db.txs[u]) <==> Locks(db.txs[u], id);
  }

  /** Pending commands of the device that no other transaction has locked. */
  ghost function FreeAt(db: Db, t: TxId, seen: Table, device: Device): set<Id> {
    set x | x in PendingAt(seen, device) && !LockedElsewhere(db, t, x)
  }

  lemma FreeInColumns(db: Db, t: TxId, seen: Table, device: Device)
    ensures FreeAt(db, t, seen, device) == set id | id in PendingOf(seen, device) && !LockedByOther(db, t, id)
  {
    TakenInColumns(seen, None, device);
    forall x | x in seen ensures LockedByOther(db, t, x) <==> LockedElsewhere(db, t, x) {
      LockedInColumns(db, t, x);
    }
  }

  lemma HasInColumns(cfg: Config, rows: Table, tx: Tx, device: Device, key: Option<Key>)
    requires TxOk(rows, tx)
    ensures cfg.lockKey(device) in Quotas(cfg, tx) <==> HasQuota(cfg, tx, device)
    ensures (exists x | x in Overlay(tx) :: Occupies(rows, Overlay(tx), x, key)) <==> HasKey(rows, tx, key)
  {
    if tx.pc.Inserted? && tx.pc.row.key == key {
      assert Occupies(rows, Overlay(tx), tx.pc.id, key);
    }
    forall x | x in tx.own ensures Occupies(rows, Overlay(tx), x, key) <==>
        tx.own[x].key == key && (Active(tx.own[x].status) || (x in rows && Active(rows[x].status)))
    {
      assert Overlay(tx)[x] == tx.own[x];
    }
  }

  lemma WaitInColumns(cfg: Config, db: Db, t: TxId, seen: Table, id: Id, device: Device, key: Option<Key>, cap: nat)
    requires forall u | u in db.txs :: TxOk(db.rows, db.txs[u])
    ensures (cap > 0 && QuotaByOther(cfg, db, t, cfg.lockKey(device))) || InsertWaits(db, t, seen, id, key)
            <==> Hindered(cfg, db, t, seen, id, device, key, cap)
  {
    TakenInColumns(seen, key, device);
    forall u | u in db.txs
      ensures Hinders(cfg, db.rows, db.txs[u], seen, id, device, key, cap) <==>
        || (cap > 0 && cfg.lockKey(device) in Quotas(cfg, db.txs[u]))
        || (key.Some? && exists x | x in Overlay(db.txs[u]) :: Occupies(db.rows, Overlay(db.txs[u]), x, key))
        || (!KeyTaken(seen, key) && id !in db.rows && id in Rows(db.txs[u]))
    {
      HasInColumns(cfg, db.rows, db.txs[u], device, key);
    }
  }

  class Store {
    const cfg: Config
    var db: Db
    ghost var acts: seq<Action>

    ghost predicate Valid()
      reads this
    {
      db == Run(cfg, Init, acts)
    }

    /** Transaction `t` is between operations. */
    predicate Ready(t: TxId)
      reads this
    {
      t in db.txs && db.txs[t].pc.Idle?
    }

    function View(t: TxId): Table
      reads this
      requires t in db.txs
    {
      db.rows + db.txs[t].own
    }

    constructor (cfg: Config)
      ensures Valid() && db == Init
    {
      this.cfg := cfg;
      db := Init;
      acts := [];
    }

    method Perform(a: Action)
      requires Valid()
      modifies this
      ensures Valid() && db == Step(cfg, old(db), a)
    {
      RunAppend(cfg, Init, acts, a);
      db := Step(cfg, db, a);
      acts := acts + [a];
    }

    lemma Sound()
      requires Valid()
      ensures Inv(cfg, db)
    {
      InitInv(cfg);
      RunKeeps(cfg, Init, acts);
    }

    /** Leaves exactly the new pending command on Ok (or nothing, if one with the key is under way),
        nothing on an error, and never more than `cap` pending for the device. It waits exactly
        while another transaction is in its way. */
    method Enqueue(t: TxId, id: Id, device: Device, key: Option<Key>, cap: nat, now: Time) returns (r: Result)
      requires Valid() && Ready(t)
      modifies this
      ensures Valid() && t in db.txs && db.rows == old(db.rows)
      ensures r == StillWaiting <==> Hindered(cfg, old(db), t, old(View(t)), id, device, key, cap)
      ensures r == StillWaiting ==> View(t) == old(View(t))
      ensures r != StillWaiting ==> Ready(t) && Enqueued(cfg, old(View(t)), id, device, key, cap, now, r, View(t))
    {
      Sound();
      TakenInColumns(View(t), key, device);
      WaitInColumns(cfg, db, t, View(t), id, device, key, cap);
      r := EnqueueRow(t, id, device, key, cap, now);
    }

    /** The same in the terms of the machine. */
    method EnqueueRow(t: TxId, id: Id, device: Device, key: Option<Key>, cap: nat, now: Time) returns (r: Result)
      requires Valid() && Ready(t)
      modifies this
      ensures Valid() && t in db.txs
      ensures if old((cap > 0 && QuotaByOther(cfg, db, t, cfg.lockKey(device))) || InsertWaits(db, t, View(t), id, key)) then r == StillWaiting
              else Ready(t) && r == EnqueueVerdict(cfg, old(View(t)), id, device, key, cap)
      ensures View(t) == if r == Ok && !KeyTaken(old(View(t)), key) then old(View(t))[id := NewCommand(device, key, now)] else old(View(t))
      ensures db.rows == old(db.rows)
    {
      var seen, row := View(t), NewCommand(device, key, now);
      if cap > 0 {
        WaitsForOthers(db, t, db.txs[t].(pc := Quota(device, cap)), seen, id, key);
        var got := TakeQuota(t, device, cap);
        if !got {
          return StillWaiting;
        }
      }
      r := InsertAndCheck(t, id, row, cap);
      SeesInserted(db.rows, old(db.txs[t].own), id, row);
    }

    method InsertAndCheck(t: TxId, id: Id, row: Command, cap: nat) returns (r: Result)
      requires Valid() && t in db.txs && row == NewCommand(row.device, row.key, row.createdAt)
      requires db.txs[t].pc == if cap > 0 then Quota(row.device, cap) else Idle
      modifies this
      ensures Valid() && t in db.txs && db.rows == old(db.rows)
      ensures if old(InsertWaits(db, t, View(t), id, row.key)) then r == StillWaiting
              else Ready(t) && r == EnqueueVerdict(cfg, old(View(t)), id, row.device, row.key, cap)
      ensures var own := old(db.txs[t].own);
              db.txs[t].own == if r == Ok && !KeyTaken(old(View(t)), row.key) then own[id := row] else own
    {
      var seen := View(t);
      var waiting := InsertRow(t, id, row, cap);
      if waiting {
        return StillWaiting;
      }
      if KeyTaken(seen, row.key) {
        return Ok;
      }
      if id in seen || row.device !in cfg.devices {
        Fail(t);
        return if id in seen then Conflict else DeviceNotFound;
      }
      r := Ok;
      if cap > 0 {
        var over := EnforcePendingLimit(t);
        if over {
          Fail(t);
          r := RateLimited;
        }
      }
    }

    /** The per-device lock, held from here to the end of the transaction. */
    method TakeQuota(t: TxId, device: Device, cap: nat) returns (got: bool)
      requires Valid() && Ready(t) && cap > 0
      modifies this
      ensures Valid() && t in db.txs && db.rows == old(db.rows)
      ensures got <==> !old(QuotaByOther(cfg, db, t, cfg.lockKey(device)))
      ensures db == if got then With(old(db), t, old(db.txs[t]).(pc := Quota(device, cap))) else old(db)
    {
      Perform(LockQuota(t, device, cap));
      got := db.txs[t].pc.Quota?;
    }

    method InsertRow(t: TxId, id: Id, row: Command, cap: nat) returns (waiting: bool)
      requires Valid() && t in db.txs && row == NewCommand(row.device, row.key, row.createdAt)
      requires db.txs[t].pc == if cap > 0 then Quota(row.device, cap) else Idle
      modifies this
      ensures Valid() && t in db.txs && db.rows == old(db.rows)
      ensures waiting <==> old(InsertWaits(db, t, View(t), id, row.key))
      ensures waiting ==> db.txs[t] == old(db.txs[t])
      ensures var seen, tx := old(View(t)), db.txs[t];
              !waiting ==>
                if KeyTaken(seen, row.key) then tx.own == old(db.txs[t].own) && tx.pc.Idle?
                else if id in seen || row.device !in cfg.devices then tx.own == old(db.txs[t].own) && tx.pc.Broken?
                else if cap > 0 then tx.own == old(db.txs[t].own) && tx.pc == Inserted(id, row, cap)
                else tx.own == old(db.txs[t].own)[id := row] && tx.pc.Idle?
    {
      waiting := InsertWaits(db, t, View(t), id, row.key);
      if !waiting {
        Perform(Insert(t, id, row.device, row.key, cap, row.createdAt));
      }
    }

    /** The count includes the row just inserted. */
    method EnforcePendingLimit(t: TxId) returns (over: bool)
      requires Valid() && t in db.txs && db.txs[t].pc.Inserted?
      requires var pc := db.txs[t].pc; pc.id !in View(t) && pc.row.status.Pending?
      modifies this
      ensures Valid() && t in db.txs && db.rows == old(db.rows)
      ensures var pc, seen, own := old(db.txs[t].pc), old(View(t)), old(db.txs[t].own);
              && (over <==> |PendingOf(seen, pc.row.device)| >= pc.cap)
              && (if over then db.txs[t].own == own && db.txs[t].pc.Broken? else db.txs[t].own == own[pc.id := pc.row] && db.txs[t].pc.Idle?)
    {
      ghost var pc, seen := db.txs[t].pc, View(t);
      PendingPlusOne(seen, pc.id, pc.row);
      assert Seen(db, db.txs[t]) == seen[pc.id := pc.row];
      Perform(CheckCap(t));
      over := db.txs[t].pc.Broken?;
    }

    /** The operation's scope is rolled back. */
    method Fail(t: TxId)
      requires Valid() && t in db.txs
      modifies this
      ensures Valid() && Ready(t) && db.rows == old(db.rows) && db.txs[t].own == old(db.txs[t].own)
    {
      Perform(CallFails(t));
    }

    /** Claims the oldest pending commands of the device that nobody else has locked. */
    method Dequeue(t: TxId, device: Device, n: nat, leaseDuration: int, now: Time) returns (claimed: set<Id>)
      requires Valid() && Ready(t)
      modifies this
      ensures Valid() && Ready(t)
      ensures var seen, free := old(View(t)), FreeAt(old(db), t, old(View(t)), device);
              && claimed <= free && |claimed| <= n && (|claimed| < n ==> claimed == free)
              && (forall x, y | x in claimed && y in free - claimed :: seen[x].createdAt <= seen[y].createdAt)
              && View(t).Keys == seen.Keys
              && (forall id | id in seen && id !in claimed :: View(t)[id] == seen[id])
              && (forall id | id in claimed ::
                    View(t)[id] == seen[id].(
                      status := Sent, attempt := seen[id].attempt + 1, sentAt := Some(now),
                      lease := Some(now + if leaseDuration > 0 then leaseDuration else 300)))
    {
      var seen := View(t);
      assert Seen(db, db.txs[t]) == seen;
      var free := set id | id in PendingOf(seen, device) && !LockedByOther(db, t, id);
      FreeInColumns(db, t, seen, device);
      claimed := PickOldest(map id | id in free :: seen[id].createdAt, free, n);
      var expiry := now + if leaseDuration <= 0 then DefaultLeaseDuration else leaseDuration;
      ClaimRows(t, device, claimed, now, expiry);
    }

    method ClaimRows(t: TxId, device: Device, picked: set<Id>, now: Time, expiry: Time)
      requires Valid() && Ready(t) && forall id | id in picked :: id in PendingOf(View(t), device) && !LockedByOther(db, t, id)
      modifies this
      ensures Valid() && Ready(t) && View(t).Keys == old(View(t)).Keys
      ensures forall id | id in old(View(t)) ::
                View(t)[id] == if id in picked then Dequeued(old(View(t))[id], now, expiry) else old(View(t))[id]
    {
      assert Seen(db, db.txs[t]) == View(t);
      Perform(CommandQueue.Dequeue(t, device, picked, now, expiry));
    }

    /** Sent becomes Delivered; a delivered command stays as it is, with its first time. */
    method Report(t: TxId, id: Id, now: Time) returns (r: Result)
      requires Valid() && Ready(t)
      modifies this
      ensures Valid() && Ready(t)
      ensures var seen := old(View(t));
              && (r == NotFound <==> id !in seen)
              && (r == Invalid <==> id in seen && !seen[id].status.Sent? && !seen[id].status.Delivered?)
              && (r == StillWaiting ==> LockedElsewhere(old(db), t, id))
              && (r == Ok || r == StillWaiting || r == NotFound || r == Invalid)
              && View(t) == if r == Ok && seen[id].status == Sent then seen[id := seen[id].(status := Delivered, deliveredAt := Some(now))] else seen
    {
      LockedInColumns(db, t, id);
      var seen := View(t);
      assert Seen(db, db.txs[t]) == seen;
      if id in seen && seen[id].status.Sent? && LockedByOther(db, t, id) {
        return StillWaiting;
      }
      var a := CommandQueue.Report(t, id, now);
      if id in seen && seen[id].status.Delivered? {
        Perform(a);
        return Ok;
      }
      if id in seen && seen[id].status.Sent? {
        UpdateRow(t, a, id, Reported(seen[id], now));
        return Ok;
      }
      MatchNoRow(t, a);
      return if id in seen then Invalid else NotFound;
    }

    /** An UPDATE that finds its row. */
    method UpdateRow(t: TxId, a: Action, id: Id, row: Command)
      requires Valid() && Ready(t) && Step(cfg, db, a) == With(db, t, Wrote(db.txs[t], id, row))
      modifies this
      ensures Valid() && Ready(t) && View(t) == old(View(t))[id := row]
    {
      Perform(a);
      SeesInserted(db.rows, old(db.txs[t].own), id, row);
    }

    /** One that does not: the call fails. */
    method MatchNoRow(t: TxId, a: Action)
      requires Valid() && Ready(t) && Step(cfg, db, a) == With(db, t, db.txs[t].(pc := Broken))
      modifies this
      ensures Valid() && Ready(t) && View(t) == old(View(t))
    {
      Perform(a);
      Fail(t);
    }

    /** The row lock makes the two statements one: whatever other transactions do in between,
        the outcome is decided by the status read first, and a terminal command stays. */
    method Conclude(t: TxId, id: Id, target: Status, cancel: bool, now: Time, others: seq<Action>) returns (r: Result)
      requires Valid() && Ready(t) && Terminal(target) && (cancel ==> target.Canceled?)
      requires forall i | 0 <= i < |others| :: others[i].t != t
      modifies this
      ensures Valid() && Ready(t)
      ensures var seen := old(View(t));
              if id !in seen then r == NotFound && db.txs[t].own == old(db.txs[t].own)
              else if old(LockedByOther(db, t, id)) then r == StillWaiting && db == old(db)
              else
                && r == FinishVerdict(seen[id].status, target, cancel)
                && id in View(t)
                && View(t)[id] == if r == Ok && !Terminal(seen[id].status) then Finished(seen[id], target, now) else seen[id]
    {
      var seen := View(t);
      assert Seen(db, db.txs[t]) == seen;
      if id in seen && LockedByOther(db, t, id) {
        return StillWaiting;
      }
      var found := SelectForUpdate(t, id, target, cancel);
      if !found {
        Fail(t);
        return NotFound;
      }
      Interleave(others, t, id);
      r := FinishRow(t, now);
      if r == Invalid {
        Fail(t);
      }
    }

    /** Locks the row and reads its status. */
    method SelectForUpdate(t: TxId, id: Id, target: Status, cancel: bool) returns (found: bool)
      requires Valid() && Ready(t) && Terminal(target) && (cancel ==> target.Canceled?)
      requires id in View(t) ==> !LockedByOther(db, t, id)
      modifies this
      ensures Valid() && t in db.txs && db.rows == old(db.rows) && db.txs[t].own == old(db.txs[t].own)
      ensures found <==> id in old(View(t))
      ensures found ==> db.txs[t].pc == Locked(id, old(View(t))[id].status, target, cancel)
    {
      assert Seen(db, db.txs[t]) == View(t);
      Perform(LockRow(t, id, target, cancel));
      found := db.txs[t].pc.Locked?;
    }

    /** Decides on the status that was read, then updates unconditionally. */
    method FinishRow(t: TxId, now: Time) returns (r: Result)
      requires Valid() && t in db.txs && db.txs[t].pc.Locked? && db.txs[t].pc.rowId in View(t)
      modifies this
      ensures Valid() && t in db.txs && db.rows == old(db.rows)
      ensures var pc, own := old(db.txs[t].pc), old(db.txs[t].own);
              && r == FinishVerdict(pc.status, pc.target, pc.cancel)
              && db.txs[t].own == (if r == Ok && !Terminal(pc.status) then own[pc.rowId := Finished(old(View(t))[pc.rowId], pc.target, now)] else own)
              && (r == Ok ==> Ready(t))
    {
      assert Seen(db, db.txs[t]) == View(t);
      Perform(Finish(t, now));
      r := if db.txs[t].pc.Broken? then Invalid else Ok;
    }

    method Interleave(others: seq<Action>, t: TxId, id: Id)
      requires Valid() && t in db.txs && id in Rows(db.txs[t]) && id in View(t)
      requires forall i | 0 <= i < |others| :: others[i].t != t
      modifies this
      ensures Valid() && t in db.txs && db.txs[t] == old(db.txs[t])
      ensures id in View(t) && View(t)[id] == old(View(t)[id])
    {
      for i := 0 to |others|
        invariant Valid() && t in db.txs && db.txs[t] == old(db.txs[t])
        invariant id in View(t) && View(t)[id] == old(View(t)[id])
      {
        assert Inv(cfg, db) by {
          Sound();
        }
        OthersLeaveTx(cfg, db, others[i], t);
        OthersLeaveRow(cfg, db, others[i], t, id);
        Perform(others[i]);
      }
    }

    method Ack(t: TxId, id: Id, reason: AckReason, now: Time, others: seq<Action>) returns (r: Result)
      requires Valid() && Ready(t) && forall i | 0 <= i < |others| :: others[i].t != t
      modifies this
      ensures Valid() && Ready(t)
      ensures var seen := old(View(t));
              if id !in seen then r == NotFound
              else if LockedElsewhere(old(db), t, id) then r == StillWaiting
              else
                && id in View(t)
                && Concluded(seen[id], AckedAs(reason), now, r, View(t)[id])
    {
      LockedInColumns(db, t, id);
      r := Conclude(t, id, TargetStatus(reason), false, now, others);
    }

    method Cancel(t: TxId, id: Id, now: Time, others: seq<Action>) returns (r: Result)
      requires Valid() && Ready(t) && forall i | 0 <= i < |others| :: others[i].t != t
      modifies this
      ensures Valid() && Ready(t)
      ensures var seen := old(View(t));
              if id !in seen then r == NotFound
              else if LockedElsewhere(old(db), t, id) then r == StillWaiting
              else
                && r == (if Active(seen[id].status) then Ok else Invalid)
                && id in View(t)
                && View(t)[id] == if r == Ok then seen[id].(status := Canceled, completedAt := Some(now), lease := None) else seen[id]
    {
      LockedInColumns(db, t, id);
      r := Conclude(t, id, Canceled, true, now, others);
    }

    /** Only a command that is out with the device has a lease to extend. */
    method ExtendLease(t: TxId, id: Id, extension: int, now: Time) returns (r: Result)
      requires Valid() && Ready(t)
      modifies this
      ensures Valid() && Ready(t)
      ensures var seen := old(View(t));
              && (r == NotFound <==> id !in seen)
              && (r == Invalid <==> id in seen && seen[id].status != Sent && seen[id].status != Delivered)
              && (r == StillWaiting ==> LockedElsewhere(old(db), t, id))
              && (r == Ok || r == StillWaiting || r == NotFound || r == Invalid)
              && View(t) == if r == Ok then seen[id := seen[id].(lease := Some(now + extension))] else seen
    {
      LockedInColumns(db, t, id);
      var seen := View(t);
      assert Seen(db, db.txs[t]) == seen;
      if id in seen {
        assert RowOk(seen[id]) by {
          Sound();
          SeenOk(cfg, db, t, id);
        }
        if Leased(seen[id].status) && LockedByOther(db, t, id) {
          return StillWaiting;
        }
      }
      var a := Extend(t, id, now + extension);
      if id in seen && Leased(seen[id].status) {
        UpdateRow(t, a, id, seen[id].(lease := Some(now + extension)));
        return Ok;
      }
      MatchNoRow(t, a);
      return if id in seen then Invalid else NotFound;
    }
  }
}
