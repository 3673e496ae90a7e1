/** The device command queue, adapters/postgres/command_queue_store.go, with the status table
    of framework/kernel/command/status.go.

    A transaction (READ COMMITTED) runs queue operations one after the other, each in its own
    scope; the statements of many transactions interleave. Row locks, the per-device quota lock
    and the active-key unique index are explicit. A step that has to wait changes nothing. */
module CommandQueue {
  import opened Options

  type Id = nat
  type Device = nat
  type Key = nat
  type TxId = nat
  type Time = int

  datatype Status = Pending | Sent | Delivered | Succeeded | Failed | Expired | Canceled

  datatype Command = Command(
    device: Device,
    key: Option<Key>,
    status: Status,
    attempt: nat,
    createdAt: Time,
    sentAt: Option<Time>,
    deliveredAt: Option<Time>,
    completedAt: Option<Time>,
    lease: Option<Time>)

  type Table = map<Id, Command>

  /** Where the running operation stands. `Inserted` carries the speculative row, which is the
      transaction's only after the cap check; `Locked` carries the status read under the lock. */
  datatype Pc =
    | Idle
    | Quota(device: Device, cap: nat)
    | Inserted(id: Id, row: Command, cap: nat)
    | Locked(rowId: Id, status: Status, target: Status, cancel: bool)
    | Broken

  datatype Tx = Tx(own: Table, locks: set<Id>, quotas: set<int>, pc: Pc)

  /** `devices` is the referenced table; `lockKey` the hash of the quota lock. */
  datatype Config = Config(devices: set<Device>, lockKey: Device -> int)

  datatype Db = Db(rows: Table, txs: map<TxId, Tx>)

  const Init := Db(map[], map[])

  datatype Action =
    | Begin(t: TxId)
    | LockQuota(t: TxId, device: Device, cap: nat)
    | Insert(t: TxId, id: Id, device: Device, key: Option<Key>, cap: nat, now: Time)
    | CheckCap(t: TxId)
    | Dequeue(t: TxId, device: Device, picked: set<Id>, now: Time, expiry: Time)
    | Report(t: TxId, id: Id, now: Time)
    | LockRow(t: TxId, id: Id, target: Status, cancel: bool)
    | Finish(t: TxId, now: Time)
    | Extend(t: TxId, id: Id, expiry: Time)
    | CallFails(t: TxId)
    | Commit(t: TxId)
    | Rollback(t: TxId)

  // ------------------------------------------------------------------
  // Statuses
  // ------------------------------------------------------------------

  predicate Terminal(s: Status) {
    s.Succeeded? || s.Failed? || s.Expired? || s.Canceled?
  }

  predicate CanTransition(from: Status, to: Status) {
    match from
    case Pending => to in {Sent, Failed, Expired, Canceled}
    case Sent => to in {Delivered, Succeeded, Failed, Expired, Canceled}
    case Delivered => to in {Succeeded, Failed, Expired, Canceled}
    case _ => false
  }

  /** Reachable by zero or more transitions of the table. */
  predicate Onward(from: Status, to: Status) {
    from == to || (!Terminal(from) && !to.Pending? && !(from.Delivered? && to.Sent?))
  }

  /** Statuses one transition after the other. */
  predicate Path(path: seq<Status>) {
    path != [] && forall i | 0 <= i < |path| - 1 :: CanTransition(path[i], path[i + 1])
  }

  lemma {:induction false} PathIsOnward(path: seq<Status>)
    requires Path(path)
    ensures Onward(path[0], path[|path| - 1])
  {
    if |path| > 1 {
      var rest := path[1..];
      forall i | 0 <= i < |rest| - 1 ensures CanTransition(rest[i], rest[i + 1]) {
        assert CanTransition(path[i + 1], path[i + 2]);
      }
      PathIsOnward(rest);
      assert CanTransition(path[0], path[1]);
    }
  }

  lemma OnwardIffPath(from: Status, to: Status)
    ensures Onward(from, to) <==> exists path :: Path(path) && path[0] == from && path[|path| - 1] == to
  {
    if Onward(from, to) {
      var path := if from == to then [from] else if CanTransition(from, to) then [from, to] else [from, Sent, to];
      assert Path(path) && path[0] == from && path[|path| - 1] == to;
    }
    forall path | Path(path) && path[0] == from && path[|path| - 1] == to ensures Onward(from, to) {
      PathIsOnward(path);
    }
  }

  predicate Leased(s: Status) {
    s.Sent? || s.Delivered?
  }

  // ------------------------------------------------------------------
  // What transactions see and hold
  // ------------------------------------------------------------------

  /** The transaction's rows, with the row of an unfinished insert. */
  function Overlay(tx: Tx): Table {
    if tx.pc.Inserted? then tx.own[tx.pc.id := tx.pc.row] else tx.own
  }

  function Seen(db: Db, tx: Tx): Table {
    db.rows + Overlay(tx)
  }

  function Rows(tx: Tx): set<Id> {
    match tx.pc
    case Inserted(id, _, _) => tx.locks + {id}
    case Locked(id, _, _, _) => tx.locks + {id}
    case _ => tx.locks
  }

  function Quotas(cfg: Config, tx: Tx): set<int> {
    match tx.pc
    case Quota(device, _) => tx.quotas + {cfg.lockKey(device)}
    case Inserted(_, row, _) => tx.quotas + {cfg.lockKey(row.device)}
    case _ => tx.quotas
  }

  predicate LockedByOther(db: Db, t: TxId, id: Id) {
    exists u | u in db.txs :: u != t && id in Rows(db.txs[u])
  }

  predicate QuotaByOther(cfg: Config, db: Db, t: TxId, k: int) {
    exists u | u in db.txs :: u != t && k in Quotas(cfg, db.txs[u])
  }

  /** The row has an entry in the active-key index, or had one that is not committed away yet. */
  predicate Occupies(rows: Table, own: Table, id: Id, key: Option<Key>) {
    id in own && own[id].key == key && (!Terminal(own[id].status) || (id in rows && !Terminal(rows[id].status)))
  }

  /** Another transaction's unfinished work decides whether the key is free. */
  predicate KeyByOther(db: Db, t: TxId, key: Option<Key>) {
    key.Some? && exists u | u in db.txs :: u != t && exists id | id in Overlay(db.txs[u]) :: Occupies(db.rows, Overlay(db.txs[u]), id, key)
  }

  predicate KeyTaken(seen: Table, key: Option<Key>) {
    key.Some? && exists id | id in seen :: seen[id].key == key && !Terminal(seen[id].status)
  }

  function PendingOf(rows: Table, device: Device): set<Id> {
    set id | id in rows && rows[id].device == device && rows[id].status.Pending?
  }

  // ------------------------------------------------------------------
  // Row changes
  // ------------------------------------------------------------------

  function NewCommand(device: Device, key: Option<Key>, now: Time): Command {
    Command(device, key, Pending, 0, now, None, None, None, None)
  }

  function Dequeued(r: Command, now: Time, expiry: Time): Command {
    r.(status := Sent, sentAt := Some(now), lease := Some(expiry), attempt := r.attempt + 1)
  }

  function Reported(r: Command, now: Time): Command {
    r.(status := Delivered, deliveredAt := Some(now))
  }

  function Finished(r: Command, target: Status, now: Time): Command {
    r.(status := target, completedAt := Some(now), lease := None)
  }

  // ------------------------------------------------------------------
  // Steps
  // ------------------------------------------------------------------

  function With(db: Db, t: TxId, tx: Tx): Db {
    db.(txs := db.txs[t := tx])
  }

  /** The transaction wrote the row; the operation is over. */
  function Wrote(tx: Tx, id: Id, r: Command): Tx {
    Tx(tx.own[id := r], tx.locks + {id}, tx.quotas, Idle)
  }

  function InsertStep(cfg: Config, db: Db, t: TxId, tx: Tx, id: Id, row: Command, cap: nat): Db {
    if if cap > 0 then tx.pc != Quota(row.device, cap) else !tx.pc.Idle? then db
    else if KeyByOther(db, t, row.key) then db
    else if KeyTaken(Seen(db, tx), row.key) then With(db, t, Tx(tx.own, tx.locks, Quotas(cfg, tx), Idle))
    else if LockedByOther(db, t, id) && id !in db.rows then db
    else if id in Seen(db, tx) || row.device !in cfg.devices then With(db, t, tx.(pc := Broken))
    else if cap > 0 then With(db, t, tx.(pc := Inserted(id, row, cap)))
    else With(db, t, Wrote(tx, id, row))
  }

  function CheckStep(cfg: Config, db: Db, t: TxId, tx: Tx): Db {
    if !tx.pc.Inserted? then db
    else if |PendingOf(Seen(db, tx), tx.pc.row.device)| > tx.pc.cap then With(db, t, tx.(pc := Broken))
    else With(db, t, Tx(tx.own[tx.pc.id := tx.pc.row], tx.locks + {tx.pc.id}, Quotas(cfg, tx), Idle))
  }

  function DequeueStep(db: Db, t: TxId, tx: Tx, device: Device, picked: set<Id>, now: Time, expiry: Time): Db {
    if !tx.pc.Idle? || exists id | id in picked :: id !in PendingOf(Seen(db, tx), device) || LockedByOther(db, t, id) then db
    else With(db, t, Tx(tx.own + (map id | id in picked && id in Seen(db, tx) :: Dequeued(Seen(db, tx)[id], now, expiry)),
                        tx.locks + picked, tx.quotas, Idle))
  }

  function ReportStep(db: Db, t: TxId, tx: Tx, id: Id, now: Time): Db {
    var seen := Seen(db, tx);
    if !tx.pc.Idle? then db
    else if id !in seen || !seen[id].status.Sent? then
      // no row matched: unknown command, wrong status, or already delivered
      if id in seen && seen[id].status.Delivered? then db else With(db, t, tx.(pc := Broken))
    else if LockedByOther(db, t, id) then db
    else With(db, t, Wrote(tx, id, Reported(seen[id], now)))
  }

  function LockStep(db: Db, t: TxId, tx: Tx, id: Id, target: Status, cancel: bool): Db {
    var seen := Seen(db, tx);
    if !tx.pc.Idle? || !Terminal(target) || (cancel && !target.Canceled?) then db
    else if id !in seen then With(db, t, tx.(pc := Broken))
    else if LockedByOther(db, t, id) then db
    else With(db, t, tx.(pc := Locked(id, seen[id].status, target, cancel)))
  }

  /** The decision uses the status read earlier; the UPDATE itself is unconditional. */
  function FinishStep(db: Db, t: TxId, tx: Tx, now: Time): Db {
    if !tx.pc.Locked? then db
    else
      var id, status, target := tx.pc.rowId, tx.pc.status, tx.pc.target;
      if Terminal(status) then
        if status == target && !tx.pc.cancel then With(db, t, Tx(tx.own, tx.locks + {id}, tx.quotas, Idle))
        else With(db, t, tx.(pc := Broken))
      else if !CanTransition(status, target) || id !in Seen(db, tx) then With(db, t, tx.(pc := Broken))
      else With(db, t, Wrote(tx, id, Finished(Seen(db, tx)[id], target, now)))
  }

  function ExtendStep(db: Db, t: TxId, tx: Tx, id: Id, expiry: Time): Db {
    var seen := Seen(db, tx);
    if !tx.pc.Idle? then db
    else if id !in seen || seen[id].lease.None? || !Leased(seen[id].status) then With(db, t, tx.(pc := Broken))
    else if LockedByOther(db, t, id) then db
    else With(db, t, Wrote(tx, id, seen[id].(lease := Some(expiry))))
  }

  function Step(cfg: Config, db: Db, a: Action): Db {
    if a.Begin? then
      if a.t in db.txs then db else With(db, a.t, Tx(map[], {}, {}, Idle))
    else if a.t !in db.txs then db
    else
      var tx := db.txs[a.t];
      match a
      case LockQuota(t, device, cap) =>
        if !tx.pc.Idle? || cap == 0 || QuotaByOther(cfg, db, t, cfg.lockKey(device)) then db
        else With(db, t, tx.(pc := Quota(device, cap)))
      case Insert(t, id, device, key, cap, now) => InsertStep(cfg, db, t, tx, id, NewCommand(device, key, now), cap)
      case CheckCap(t) => CheckStep(cfg, db, t, tx)
      case Dequeue(t, device, picked, now, expiry) => DequeueStep(db, t, tx, device, picked, now, expiry)
      case Report(t, id, now) => ReportStep(db, t, tx, id, now)
      case LockRow(t, id, target, cancel) => LockStep(db, t, tx, id, target, cancel)
      case Finish(t, now) => FinishStep(db, t, tx, now)
      case Extend(t, id, expiry) => ExtendStep(db, t, tx, id, expiry)
      case CallFails(t) => With(db, t, tx.(pc := Idle))
      case Commit(t) => if !tx.pc.Idle? then db else Db(db.rows + tx.own, db.txs - {t})
      case Rollback(t) => Db(db.rows, db.txs - {t})
  }

  function Run(cfg: Config, db: Db, acts: seq<Action>): Db
    decreases |acts|
  {
    if acts == [] then db else Run(cfg, Step(cfg, db, acts[0]), acts[1..])
  }
}
