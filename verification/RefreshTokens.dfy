/** Refresh token rotation with replay detection, adapters/postgres/refresh_store.go, as
    recommended in section 4.14.2 of RFC 9700.

    The table is shared by any number of READ COMMITTED transactions.  Each SQL statement
    of Issue, Peek and Rotate is one atomic step, and the steps of different transactions
    interleave in any order.  A step that has to wait (for the session's advisory lock or
    for a row another transaction has written) leaves the state as it is.  A transaction
    may hold several Peek, Rotate and Issue calls, may lose a call to an error (its
    savepoint is rolled back) and may be rolled back at any point. */
module RefreshTokens {
  import opened Options

  /** Row id and selector are drawn fresh together; one number stands for both. */
  type Id = nat
  type TxId = nat
  type Time = int

  datatype Row = Row(
    parent: Option<Id>,
    root: Id,              // the Issue row the lineage starts from; follows from `parent`
    session: string,
    subject: string,
    epoch: int,
    verifier: string,      // the stored digest
    expiresAt: Time,
    idleExpiresAt: Time,
    rotatedAt: Option<Time>,
    revokedAt: Option<Time>,
    firstUsedAt: Option<Time>,
    usedTimes: nat)

  datatype Policy = Policy(reuseInterval: int, maxAge: int, maxIdle: int, graceMaxReuses: int)

  /** lockKey is the 64-bit hash behind the advisory lock; sessions may collide. */
  datatype Config = Config(policy: Policy, lockKey: string -> int)

  predicate ValidConfig(cfg: Config) {
    cfg.policy.reuseInterval >= 0 && cfg.policy.graceMaxReuses > 0
  }

  // ------------------------------------------------------------------
  // Validation of a presented token
  // ------------------------------------------------------------------

  datatype Verdict = Rejected | Fresh | Grace | Reused

  /** checkBasicValidity, then handleRotatedRow; `now` and `later` are their clock reads. */
  function Judge(policy: Policy, row: Row, verifier: string, now: Time, later: Time): Verdict {
    if row.verifier != verifier || row.revokedAt.Some? || row.expiresAt <= now || row.idleExpiresAt <= now then
      Rejected
    else if row.rotatedAt.None? then
      Fresh
    else if row.usedTimes >= policy.graceMaxReuses || later - row.rotatedAt.value > policy.reuseInterval then
      Reused
    else
      Grace
  }

  // ------------------------------------------------------------------
  // State and steps
  // ------------------------------------------------------------------

  datatype Pc =
    | Idle
    | Located(id: Id, verifier: string, mutate: bool, session: string)
    | Locked(id: Id, verifier: string, mutate: bool, session: string)
    | Cascading(session: string, at: Time)
    | Counting(id: Id, row: Row, at: Time)
    | Inserting(id: Id, row: Row)
    | Marking(id: Id, row: Row, at: Time)

  /** A transaction: the row versions it has written, its advisory locks, the statement the
      current call stands at, and what that call's savepoint would restore. */
  datatype Tx = Tx(own: map<Id, Row>, locks: set<int>, pc: Pc, saved: map<Id, Row>, savedLocks: set<int>)

  datatype Db = Db(committed: map<Id, Row>, txs: map<TxId, Tx>)

  datatype Action =
    | Begin(t: TxId)
    | Issue(t: TxId, id: Id, session: string, subject: string, epoch: int, verifier: string, now: Time)
    | Present(t: TxId, id: Id, verifier: string, mutate: bool)
    | Lock(t: TxId)
    | Validate(t: TxId, now: Time, later: Time)
    | Cascade(t: TxId)
    | CountGrace(t: TxId)
    | InsertChild(t: TxId, id: Id, verifier: string, now: Time)
    | MarkRotated(t: TxId)
    | CallFails(t: TxId)
    | Commit(t: TxId)
    | Rollback(t: TxId)

  const Init := Db(map[], map[])

  /** What a statement of `tx` sees. */
  function Visible(committed: map<Id, Row>, tx: Tx): map<Id, Row> {
    committed + tx.own
  }

  function SetTx(db: Db, t: TxId, tx: Tx): Db {
    db.(txs := db.txs[t := tx])
  }

  predicate Unused(db: Db, id: Id) {
    id !in db.committed && forall u | u in db.txs :: id !in db.txs[u].own
  }

  /** No other transaction has written the row and not yet ended. */
  predicate RowFree(db: Db, t: TxId, id: Id) {
    forall u | u in db.txs && u != t :: id !in db.txs[u].own
  }

  predicate LockFree(db: Db, t: TxId, key: int) {
    forall u | u in db.txs && u != t :: key !in db.txs[u].locks
  }

  /** The rows the cascade has to revoke are locked by nobody, the presenting transaction
      included: it runs on a connection of its own. */
  predicate CascadeUnblocked(db: Db, session: string) {
    forall id, u | id in db.committed && db.committed[id].session == session
                   && db.committed[id].revokedAt.None? && u in db.txs ::
      id !in db.txs[u].own
  }

  function Revoke(m: map<Id, Row>, session: string, at: Time): map<Id, Row> {
    map id | id in m ::
      if m[id].session == session && m[id].revokedAt.None? then m[id].(revokedAt := Some(at)) else m[id]
  }

  function RootRow(cfg: Config, a: Action): Row
    requires a.Issue?
  {
    Row(None, a.id, a.session, a.subject, a.epoch, a.verifier,
        a.now + cfg.policy.maxAge, a.now + cfg.policy.maxIdle, None, None, None, 0)
  }

  function ChildRow(cfg: Config, parentId: Id, parent: Row, verifier: string, now: Time): Row {
    Row(Some(parentId), parent.root, parent.session, parent.subject, parent.epoch, verifier,
        now + cfg.policy.maxAge, now + cfg.policy.maxIdle, None, None, None, 0)
  }

  function CountedRow(row: Row, at: Time): Row {
    row.(firstUsedAt := if row.firstUsedAt.None? then Some(at) else row.firstUsedAt,
         usedTimes := row.usedTimes + 1)
  }

  /** validatePresentedInTx from the re-read on. */
  function AfterReread(cfg: Config, committed: map<Id, Row>, tx: Tx, now: Time, later: Time): Tx
    requires tx.pc.Locked?
  {
    var pc := tx.pc;
    if pc.id !in Visible(committed, tx) then tx.(pc := Idle)
    else
      var row := Visible(committed, tx)[pc.id];
      match Judge(cfg.policy, row, pc.verifier, now, later)
      case Rejected => tx.(pc := Idle)
      case Fresh => tx.(pc := if pc.mutate then Inserting(pc.id, row) else Idle)
      case Grace => tx.(pc := if pc.mutate then Counting(pc.id, row, later) else Idle)
      case Reused => tx.(pc := Cascading(row.session, later))
  }

  function Step(cfg: Config, db: Db, a: Action): Db {
    if a.Begin? then
      if a.t in db.txs then db else SetTx(db, a.t, Tx(map[], {}, Idle, map[], {}))
    else if a.t !in db.txs then db
    else
      var tx := db.txs[a.t];
      match a
      case Begin(_) => db
      case Issue(t, id, _, _, epoch, _, _) =>
        if tx.pc.Idle? && epoch != 0 && Unused(db, id) then
          SetTx(db, t, tx.(own := tx.own[id := RootRow(cfg, a)]))
        else db
      case Present(t, id, verifier, mutate) =>
        if tx.pc.Idle? && id in Visible(db.committed, tx) then
          SetTx(db, t, Tx(tx.own, tx.locks,
                          Located(id, verifier, mutate, Visible(db.committed, tx)[id].session), tx.own, tx.locks))
        else db
      case Lock(t) =>
        if tx.pc.Located? && LockFree(db, t, cfg.lockKey(tx.pc.session)) then
          SetTx(db, t, tx.(locks := tx.locks + {cfg.lockKey(tx.pc.session)},
                           pc := Locked(tx.pc.id, tx.pc.verifier, tx.pc.mutate, tx.pc.session)))
        else db
      case Validate(t, now, later) =>
        if tx.pc.Locked? then SetTx(db, t, AfterReread(cfg, db.committed, tx, now, later)) else db
      case Cascade(t) =>
        if tx.pc.Cascading? && CascadeUnblocked(db, tx.pc.session) then
          SetTx(db.(committed := Revoke(db.committed, tx.pc.session, tx.pc.at)), t, tx.(pc := Idle))
        else db
      case CountGrace(t) =>
        if tx.pc.Counting? && RowFree(db, t, tx.pc.id) && tx.pc.id in Visible(db.committed, tx) then
          SetTx(db, t, tx.(own := tx.own[tx.pc.id := CountedRow(Visible(db.committed, tx)[tx.pc.id], tx.pc.at)],
                           pc := Inserting(tx.pc.id, tx.pc.row)))
        else db
      case InsertChild(t, id, verifier, now) =>
        if tx.pc.Inserting? && Unused(db, id) then
          SetTx(db, t, tx.(own := tx.own[id := ChildRow(cfg, tx.pc.id, tx.pc.row, verifier, now)],
                           pc := if tx.pc.row.rotatedAt.None? then Marking(tx.pc.id, tx.pc.row, now) else Idle))
        else db
      case MarkRotated(t) =>
        if tx.pc.Marking? && RowFree(db, t, tx.pc.id) && tx.pc.id in Visible(db.committed, tx) then
          var row := Visible(db.committed, tx)[tx.pc.id];
          SetTx(db, t, tx.(own := if row.rotatedAt.None? then tx.own[tx.pc.id := row.(rotatedAt := Some(tx.pc.at))]
                                  else tx.own,
                           pc := Idle))
        else db
      case CallFails(t) =>
        if tx.pc.Idle? then db else SetTx(db, t, Tx(tx.saved, tx.savedLocks, Idle, tx.saved, tx.savedLocks))
      case Commit(t) =>
        if tx.pc.Idle? then Db(db.committed + tx.own, db.txs - {t}) else db
      case Rollback(t) => db.(txs := db.txs - {t})
  }

  function Run(cfg: Config, db: Db, acts: seq<Action>): Db
    decreases |acts|
  {
    if acts == [] then db else Run(cfg, Step(cfg, db, acts[0]), acts[1..])
  }

  /** Every other step changes the transaction that takes it and nothing else. */
  lemma StepIsOwn(cfg: Config, db: Db, a: Action)
    requires a.t in db.txs && !a.Begin? && !a.Cascade? && !a.Commit? && !a.Rollback?
    ensures var db' := Step(cfg, db, a); a.t in db'.txs && db' == SetTx(db, a.t, db'.txs[a.t])
  {
  }

  lemma {:induction false} RunSplits(cfg: Config, db: Db, xs: seq<Action>, ys: seq<Action>)
    ensures Run(cfg, db, xs + ys) == Run(cfg, Run(cfg, db, xs), ys)
    decreases |xs|
  {
    if xs == [] {
      assert xs + ys == ys;
    } else {
      assert (xs + ys)[0] == xs[0] && (xs + ys)[1..] == xs[1..] + ys;
      RunSplits(cfg, Step(cfg, db, xs[0]), xs[1..], ys);
    }
  }

  lemma RunAppend(cfg: Config, db: Db, acts: seq<Action>, a: Action)
    ensures Run(cfg, db, acts + [a]) == Step(cfg, Run(cfg, db, acts), a)
  {
    RunSplits(cfg, db, acts, [a]);
    assert [a][1..] == [];
  }
}
