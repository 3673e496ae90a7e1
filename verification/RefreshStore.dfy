/** Peek and Rotate as the store executes them, statement by statement, in a transaction
    that is not interrupted between its statements. */
module RefreshStore {
  import opened Options
  import opened RefreshTokens
  import opened RefreshInvariants
  import opened RefreshTheorems

  /** Waiting: another transaction holds the session's lock.  Failed: the cascade was
      blocked by a row lock and timed out, so the call returns an infrastructure error. */
  datatype Answer = Waiting | Denied | Passed | Rotated(child: Id) | ReuseDetected | Failed

  /** What Peek and Rotate have to answer to a row in the state they find. */
  function Answers(policy: Policy, db: Db, row: Row, verifier: string, now: Time, later: Time, success: Answer): Answer {
    match Judge(policy, row, verifier, now, later)
    case Rejected => Denied
    case Fresh => success
    case Grace => success
    case Reused => if CascadeUnblocked(db, row.session) then ReuseDetected else Failed
  }

  /** The answer to a presented token in terms of the columns of its row. The verifier, the
      revocation and both deadlines come first, whatever else the row says; a rotated token passes
      again only within its interval and its budget. */
  ghost predicate FitsColumns(policy: Policy, row: Row, verifier: string, now: Time, later: Time, success: Answer, answer: Answer) {
    var valid := verifier == row.verifier && row.revokedAt == None && now < row.expiresAt && now < row.idleExpiresAt;
    var passes := row.rotatedAt == None
                  || (row.usedTimes < policy.graceMaxReuses && later <= row.rotatedAt.value + policy.reuseInterval);
    && (answer == Denied <==> !valid)
    && (answer == success <==> valid && passes)
    && (answer == ReuseDetected || answer == Failed <==> valid && !passes)
  }

  lemma AnswersFitColumns(policy: Policy, db: Db, row: Row, verifier: string, now: Time, later: Time, success: Answer)
    requires success.Passed? || success.Rotated?
    ensures FitsColumns(policy, row, verifier, now, later, success, Answers(policy, db, row, verifier, now, later, success))
  {
  }

  /** Another transaction has the session's lock. */
  ghost predicate HeldByOther(cfg: Config, db: Db, t: TxId, session: string) {
    exists u | u in db.txs :: u != t && cfg.lockKey(session) in db.txs[u].locks
  }

  /** A child continues its parent's grant under its own verifier, with deadlines counted from now. */
  ghost predicate IsChild(policy: Policy, id: Id, parent: Row, verifier: string, at: Time, r: Row) {
    && r.parent == Some(id) && r.verifier == verifier
    && r.root == parent.root && r.session == parent.session && r.subject == parent.subject && r.epoch == parent.epoch
    && r.expiresAt - at == policy.maxAge && r.idleExpiresAt - at == policy.maxIdle
    && r.rotatedAt == r.revokedAt == r.firstUsedAt == None && r.usedTimes == 0
  }

  /** An exchange dates the first rotation, or counts one use more and dates the first use. */
  ghost predicate IsSpent(was: Row, graceAt: Time, at: Time, r: Row) {
    && r.parent == was.parent && r.root == was.root && r.session == was.session && r.subject == was.subject
    && r.epoch == was.epoch && r.verifier == was.verifier && r.expiresAt == was.expiresAt
    && r.idleExpiresAt == was.idleExpiresAt && r.revokedAt == was.revokedAt
    && if was.rotatedAt == None then
         r.rotatedAt == Some(at) && r.usedTimes == was.usedTimes && r.firstUsedAt == was.firstUsedAt
       else
         && r.rotatedAt == was.rotatedAt && r.usedTimes == was.usedTimes + 1
         && r.firstUsedAt == (if was.firstUsedAt == None then Some(graceAt) else was.firstUsedAt)
  }

  /** One child more, its parent spent, and nothing else changed. */
  ghost predicate Exchanged(policy: Policy, id: Id, child: Id, verifier: string, graceAt: Time, at: Time, m: map<Id, Row>, m': map<Id, Row>)
    requires id in m
  {
    && child !in m && m'.Keys == m.Keys + {child}
    && IsChild(policy, id, m[id], verifier, at, m'[child]) && IsSpent(m[id], graceAt, at, m'[id])
    && forall x | x in m && x != id :: m'[x] == m[x]
  }

  lemma ExchangeInColumns(cfg: Config, id: Id, child: Id, verifier: string, graceAt: Time, at: Time, m: map<Id, Row>)
    requires id in m && child !in m
    ensures Exchanged(cfg.policy, id, child, verifier, graceAt, at, m,
                      m[id := Spent(m[id], graceAt, at)][child := ChildRow(cfg, id, m[id], verifier, at)])
  {
  }

  /** Nobody else has written a row whose session lock can be had, so the updates that
      follow under the lock never wait. */
  lemma LockGuardsRow(cfg: Config, acts: seq<Action>, t: TxId, id: Id)
    requires ValidConfig(cfg)
    requires var db := Run(cfg, Init, acts);
             && t in db.txs && id in Visible(db.committed, db.txs[t])
             && LockFree(db, t, cfg.lockKey(Visible(db.committed, db.txs[t])[id].session))
    ensures RowFree(Run(cfg, Init, acts), t, id)
  {
    var db := Run(cfg, Init, acts);
    InitInv(cfg);
    RunKeeps(cfg, Init, acts);
    var tx := db.txs[t];
    forall u | u in db.txs && u != t ensures id !in db.txs[u].own {
      assert Apart(tx, db.txs[u]);
      WrittenMeansLocked(cfg, db.committed, db.txs[u]);
    }
  }

  class Store {
    const cfg: Config
    var db: Db
    /** Every step taken so far, by whichever transaction. */
    ghost var history: seq<Action>

    constructor (cfg: Config)
      requires ValidConfig(cfg)
      ensures Valid() && this.cfg == cfg && db == Init
    {
      this.cfg := cfg;
      db, history := Init, [];
    }

    ghost predicate Valid()
      reads this
    {
      ValidConfig(cfg) && db == Run(cfg, Init, history)
    }

    method Perform(a: Action)
      requires Valid()
      modifies this
      ensures Valid() && db == Step(cfg, old(db), a)
    {
      RunAppend(cfg, Init, history, a);
      db, history := Step(cfg, db, a), history + [a];
    }

    /** The first SELECT by selector, which only serves to learn the session. */
    method Locate(t: TxId, id: Id, verifier: string, mutate: bool)
      requires Valid() && t in db.txs && db.txs[t].pc.Idle?
      modifies this
      ensures Valid() && t in db.txs && SameButFor(t, old(db), db)
      ensures var m := Visible(old(db).committed, old(db).txs[t]);
              db.txs[t] == if id !in m then old(db).txs[t]
                           else Tx(old(db).txs[t].own, old(db).txs[t].locks,
                                   Located(id, verifier, mutate, m[id].session),
                                   old(db).txs[t].own, old(db).txs[t].locks)
    {
      Perform(Present(t, id, verifier, mutate));
    }

    method LockSession(t: TxId)
      requires Valid() && t in db.txs && db.txs[t].pc.Located?
      modifies this
      ensures Valid() && t in db.txs && SameButFor(t, old(db), db)
      ensures db.txs[t].saved == old(db).txs[t].saved
      ensures var pc := old(db).txs[t].pc;
              db.txs[t].pc == if LockFree(old(db), t, cfg.lockKey(pc.session))
                              then Locked(pc.id, pc.verifier, pc.mutate, pc.session) else pc
    {
      Perform(Lock(t));
    }

    method Reread(t: TxId, now: Time, later: Time)
      requires Valid() && t in db.txs && db.txs[t].pc.Locked?
      requires db.txs[t].pc.id in Visible(db.committed, db.txs[t])
      modifies this
      ensures Valid() && t in db.txs && SameButFor(t, old(db), db)
      ensures db.txs[t].saved == old(db).txs[t].saved
      ensures var pc := old(db).txs[t].pc;
              var row := Visible(old(db).committed, old(db).txs[t])[pc.id];
              db.txs[t].pc == PcAfter(cfg.policy, row, pc.id, pc.verifier, pc.mutate, now, later)
    {
      ghost var tx := AfterReread(cfg, db.committed, db.txs[t], now, later);
      RereadGoesOn(cfg, db.committed, db.txs[t], now, later);
      assert Step(cfg, db, Validate(t, now, later)) == SetTx(db, t, tx);
      Perform(Validate(t, now, later));
    }

    /** validatePresentedInTx up to and including the re-read under the session lock; None
        when the selector is unknown or the lock is taken. */
    method LockAndReread(t: TxId, id: Id, verifier: string, mutate: bool, now: Time, later: Time)
      returns (row: Option<Row>)
      requires Valid() && t in db.txs && db.txs[t].pc.Idle?
      modifies this
      ensures Valid() && t in db.txs && SameButFor(t, old(db), db)
      ensures row.Some? ==> db.txs[t].saved == db.txs[t].own
      ensures var m := Visible(old(db).committed, old(db).txs[t]);
              if id !in m then row.None? && db.txs[t].pc.Idle?
              else if !LockFree(old(db), t, cfg.lockKey(m[id].session)) then row.None? && !db.txs[t].pc.Idle?
              else row == Some(m[id]) && db.txs[t].pc == PcAfter(cfg.policy, m[id], id, verifier, mutate, now, later)
    {
      Locate(t, id, verifier, mutate);
      if db.txs[t].pc.Idle? {
        return None;
      }
      LockSession(t);
      if db.txs[t].pc.Located? {
        return None;
      }
      row := Some(Visible(db.committed, db.txs[t])[id]);
      Reread(t, now, later);
    }

    /** The detached revoke, or the failure of the whole call when it cannot run. */
    method RevokeSessionDetached(t: TxId) returns (answer: Answer)
      requires Valid() && t in db.txs && db.txs[t].pc.Cascading? && db.txs[t].saved == db.txs[t].own
      modifies this
      ensures Valid() && t in db.txs && db.txs[t].own == old(db).txs[t].own
      ensures var session := old(db).txs[t].pc.session;
              if CascadeUnblocked(old(db), session)
              then answer == ReuseDetected && SessionRevoked(db.committed, session)
              else answer == Failed && db.committed == old(db).committed
    {
      Perform(Cascade(t));
      if db.txs[t].pc.Idle? {
        return ReuseDetected;
      }
      Perform(CallFails(t));
      answer := Failed;
    }

    /** The answer Rotate would give, without spending anything. */
    method Peek(t: TxId, id: Id, verifier: string, now: Time, later: Time) returns (answer: Answer)
      requires Valid() && t in db.txs && db.txs[t].pc.Idle?
      modifies this
      ensures Valid() && t in db.txs && db.txs[t].own == old(db).txs[t].own
      ensures answer != ReuseDetected ==> db.committed == old(db).committed
      ensures var m := old(db).committed + old(db).txs[t].own;
              if id !in m then answer == Denied
              else if HeldByOther(cfg, old(db), t, m[id].session) then answer == Waiting
              else && FitsColumns(cfg.policy, m[id], verifier, now, later, Passed, answer)
                   && (answer == ReuseDetected ==> SessionRevoked(db.committed, m[id].session))
                   && (answer == ReuseDetected || answer == Failed ==> (answer == Failed <==> !CascadeUnblocked(old(db), m[id].session)))
    {
      ghost var m := db.committed + db.txs[t].own;
      answer := PeekJudged(t, id, verifier, now, later);
      if id in m {
        AnswersFitColumns(cfg.policy, old(db), m[id], verifier, now, later, Passed);
      }
    }

    method PeekJudged(t: TxId, id: Id, verifier: string, now: Time, later: Time) returns (answer: Answer)
      requires Valid() && t in db.txs && db.txs[t].pc.Idle?
      modifies this
      ensures Valid() && t in db.txs && db.txs[t].own == old(db).txs[t].own
      ensures answer != ReuseDetected ==> db.committed == old(db).committed
      ensures var m := Visible(old(db).committed, old(db).txs[t]);
              if id !in m then answer == Denied
              else if !LockFree(old(db), t, cfg.lockKey(m[id].session)) then answer == Waiting
              else && answer == Answers(cfg.policy, old(db), m[id], verifier, now, later, Passed)
                   && (answer == ReuseDetected ==> SessionRevoked(db.committed, m[id].session))
    {
      var row := LockAndReread(t, id, verifier, false, now, later);
      if row.None? {
        return if db.txs[t].pc.Idle? then Denied else Waiting;
      }
      if db.txs[t].pc.Cascading? {
        answer := RevokeSessionDetached(t);
        return;
      }
      answer := if Judge(cfg.policy, row.value, verifier, now, later).Rejected? then Denied else Passed;
    }

    /** The answer is that of the row's columns under the session lock; a token that passes is spent
        and gets one child, and nothing else changes in what the transaction sees. */
    method Rotate(t: TxId, id: Id, verifier: string, now: Time, later: Time, child: Id, childVerifier: string, at: Time)
      returns (answer: Answer)
      requires Valid() && t in db.txs && db.txs[t].pc.Idle?
      requires Unused(db, child)
      modifies this
      ensures Valid() && t in db.txs
      ensures answer != ReuseDetected ==> db.committed == old(db).committed
      ensures !answer.Rotated? ==> db.txs[t].own == old(db).txs[t].own
      ensures var m, m' := old(db).committed + old(db).txs[t].own, db.committed + db.txs[t].own;
              if id !in m then answer == Denied
              else if HeldByOther(cfg, old(db), t, m[id].session) then answer == Waiting
              else && FitsColumns(cfg.policy, m[id], verifier, now, later, Rotated(child), answer)
                   && (answer == ReuseDetected ==> SessionRevoked(db.committed, m[id].session))
                   && (answer == ReuseDetected || answer == Failed ==> (answer == Failed <==> !CascadeUnblocked(old(db), m[id].session)))
                   && (answer.Rotated? ==> Exchanged(cfg.policy, id, child, childVerifier, later, at, m, m'))
    {
      ghost var m := db.committed + db.txs[t].own;
      answer := RotateJudged(t, id, verifier, now, later, child, childVerifier, at);
      if id in m {
        AnswersFitColumns(cfg.policy, old(db), m[id], verifier, now, later, Rotated(child));
        ExchangeInColumns(cfg, id, child, childVerifier, later, at, m);
      }
    }

    /** The same in the terms of the machine. */
    method RotateJudged(t: TxId, id: Id, verifier: string, now: Time, later: Time, child: Id, childVerifier: string, at: Time)
      returns (answer: Answer)
      requires Valid() && t in db.txs && db.txs[t].pc.Idle?
      requires Unused(db, child)
      modifies this
      ensures Valid() && t in db.txs
      ensures answer != ReuseDetected ==> db.committed == old(db).committed
      ensures var m := Visible(old(db).committed, old(db).txs[t]);
              if id !in m then answer == Denied
              else if !LockFree(old(db), t, cfg.lockKey(m[id].session)) then answer == Waiting
              else && answer == Answers(cfg.policy, old(db), m[id], verifier, now, later, Rotated(child))
                   && (answer == ReuseDetected ==> SessionRevoked(db.committed, m[id].session))
                   && (answer.Rotated? ==>
                         Visible(db.committed, db.txs[t])
                         == m[id := Spent(m[id], later, at)][child := ChildRow(cfg, id, m[id], childVerifier, at)])
      ensures !answer.Rotated? ==> db.txs[t].own == old(db).txs[t].own
    {
      ghost var m := Visible(db.committed, db.txs[t]);
      if id in m && LockFree(db, t, cfg.lockKey(m[id].session)) {
        LockGuardsRow(cfg, history, t, id);
      }
      var row := LockAndReread(t, id, verifier, true, now, later);
      if row.None? {
        return if db.txs[t].pc.Idle? then Denied else Waiting;
      }
      if db.txs[t].pc.Cascading? {
        answer := RevokeSessionDetached(t);
        return;
      }
      if Judge(cfg.policy, row.value, verifier, now, later).Rejected? {
        return Denied;
      }
      Exchange(t, child, childVerifier, at);
      answer := Rotated(child);
    }

    /** The statements after a token has passed: count a use in grace, add the child, mark a first
        rotation. */
    method Exchange(t: TxId, child: Id, childVerifier: string, at: Time)
      requires Valid() && t in db.txs && Unused(db, child) && (db.txs[t].pc.Counting? || db.txs[t].pc.Inserting?)
      requires var pc := db.txs[t].pc;
               && RowFree(db, t, pc.id) && (pc.Counting? <==> pc.row.rotatedAt.Some?)
               && pc.id in Visible(db.committed, db.txs[t]) && Visible(db.committed, db.txs[t])[pc.id] == pc.row
      modifies this
      ensures Valid() && t in db.txs && db.committed == old(db).committed
      ensures var pc, m := old(db).txs[t].pc, Visible(old(db).committed, old(db).txs[t]);
              var spent := if pc.Counting? then CountedRow(pc.row, pc.at) else pc.row.(rotatedAt := Some(at));
              Visible(db.committed, db.txs[t]) == m[pc.id := spent][child := ChildRow(cfg, pc.id, pc.row, childVerifier, at)]
    {
      if db.txs[t].pc.Counting? {
        MarkGraceUsed(t);
      }
      InsertAndMark(t, child, childVerifier, at);
    }

    /** Starts a lineage: the new root passes with its own verifier until its first deadline. An
        epoch of zero is refused. */
    method Issue(t: TxId, id: Id, session: string, subject: string, epoch: int, verifier: string, now: Time)
      returns (ok: bool)
      requires Valid() && t in db.txs && db.txs[t].pc.Idle? && Unused(db, id)
      modifies this
      ensures Valid() && t in db.txs && db.committed == old(db).committed
      ensures ok <==> epoch != 0
      ensures !ok ==> db == old(db)
      ensures ok ==>
                && id in db.txs[t].own && db.txs[t].own == old(db).txs[t].own[id := db.txs[t].own[id]]
                && var r := db.txs[t].own[id];
                && r.parent.None? && r.root == id && r.session == session && r.subject == subject && r.epoch == epoch
                && r.usedTimes == 0
                && forall presented, at, later ::
                     Judge(cfg.policy, r, presented, at, later)
                     == if presented == verifier && at - now < cfg.policy.maxAge && at - now < cfg.policy.maxIdle then Fresh else Rejected
    {
      Perform(RefreshTokens.Issue(t, id, session, subject, epoch, verifier, now));
      ok := epoch != 0;
    }

    method MarkGraceUsed(t: TxId)
      requires Valid() && t in db.txs && db.txs[t].pc.Counting? && RowFree(db, t, db.txs[t].pc.id)
      requires db.txs[t].pc.id in Visible(db.committed, db.txs[t])
      modifies this
      ensures Valid() && t in db.txs && db.committed == old(db).committed
      ensures db.txs[t].pc == Inserting(old(db).txs[t].pc.id, old(db).txs[t].pc.row)
      ensures var pc, m := old(db).txs[t].pc, Visible(old(db).committed, old(db).txs[t]);
              Visible(db.committed, db.txs[t]) == m[pc.id := CountedRow(m[pc.id], pc.at)]
      ensures forall u | u in db.txs && u != t :: u in old(db).txs && db.txs[u] == old(db).txs[u]
    {
      Perform(CountGrace(t));
    }

    method InsertRow(t: TxId, child: Id, childVerifier: string, at: Time)
      requires Valid() && t in db.txs && Unused(db, child) && db.txs[t].pc.Inserting?
      modifies this
      ensures Valid() && t in db.txs && db.committed == old(db).committed
      ensures forall u | u in db.txs && u != t :: u in old(db).txs && db.txs[u] == old(db).txs[u]
      ensures var pc := old(db).txs[t].pc;
              && db.txs[t].own == old(db).txs[t].own[child := ChildRow(cfg, pc.id, pc.row, childVerifier, at)]
              && db.txs[t].pc == if pc.row.rotatedAt.None? then Marking(pc.id, pc.row, at) else Idle
    {
      Perform(InsertChild(t, child, childVerifier, at));
    }

    method FlipRotatedAt(t: TxId)
      requires Valid() && t in db.txs && db.txs[t].pc.Marking? && RowFree(db, t, db.txs[t].pc.id)
      requires db.txs[t].pc.id in Visible(db.committed, db.txs[t])
      requires Visible(db.committed, db.txs[t])[db.txs[t].pc.id] == db.txs[t].pc.row && db.txs[t].pc.row.rotatedAt.None?
      modifies this
      ensures Valid() && t in db.txs && db.committed == old(db).committed
      ensures var pc := old(db).txs[t].pc;
              db.txs[t].own == old(db).txs[t].own[pc.id := pc.row.(rotatedAt := Some(pc.at))]
    {
      Perform(MarkRotated(t));
    }

    /** The child INSERT and, on the first rotation, the flip of rotated_at. */
    method InsertAndMark(t: TxId, child: Id, childVerifier: string, at: Time)
      requires Valid() && t in db.txs && Unused(db, child) && db.txs[t].pc.Inserting? && RowFree(db, t, db.txs[t].pc.id)
      requires db.txs[t].pc.id in Visible(db.committed, db.txs[t])
      requires db.txs[t].pc.row.rotatedAt.None? ==> Visible(db.committed, db.txs[t])[db.txs[t].pc.id] == db.txs[t].pc.row
      modifies this
      ensures Valid() && t in db.txs && db.committed == old(db).committed
      ensures var pc, m := old(db).txs[t].pc, Visible(old(db).committed, old(db).txs[t]);
              var r := ChildRow(cfg, pc.id, pc.row, childVerifier, at);
              && (pc.row.rotatedAt.None? ==>
                    Visible(db.committed, db.txs[t]) == m[pc.id := pc.row.(rotatedAt := Some(at))][child := r])
              && (pc.row.rotatedAt.Some? ==> Visible(db.committed, db.txs[t]) == m[child := r])
    {
      ghost var pc, own, r := db.txs[t].pc, db.txs[t].own, ChildRow(cfg, db.txs[t].pc.id, db.txs[t].pc.row, childVerifier, at);
      VisibleWithChild(db.committed, own, child, r, pc.id, pc.row.(rotatedAt := Some(at)));
      InsertRow(t, child, childVerifier, at);
      if db.txs[t].pc.Marking? {
        FlipRotatedAt(t);
      }
    }
  }

  lemma VisibleWithChild(committed: map<Id, Row>, own: map<Id, Row>, child: Id, r: Row, id: Id, flipped: Row)
    requires id != child
    ensures committed + own[child := r] == (committed + own)[child := r]
    ensures committed + own[child := r][id := flipped] == (committed + own)[id := flipped][child := r]
  {
  }

  /** A parent after it has been exchanged for a child. */
  function Spent(row: Row, graceAt: Time, at: Time): Row {
    if row.rotatedAt.None? then row.(rotatedAt := Some(at)) else CountedRow(row, graceAt)
  }

  /** Where the call stands after judging the row it has re-read. */
  function PcAfter(policy: Policy, row: Row, id: Id, verifier: string, mutate: bool, now: Time, later: Time): Pc {
    match Judge(policy, row, verifier, now, later)
    case Rejected => Idle
    case Fresh => if mutate then Inserting(id, row) else Idle
    case Grace => if mutate then Counting(id, row, later) else Idle
    case Reused => Cascading(row.session, later)
  }

  lemma RereadGoesOn(cfg: Config, committed: map<Id, Row>, tx: Tx, now: Time, later: Time)
    requires tx.pc.Locked? && tx.pc.id in Visible(committed, tx)
    ensures var pc, tx' := tx.pc, AfterReread(cfg, committed, tx, now, later);
            tx' == tx.(pc := PcAfter(cfg.policy, Visible(committed, tx)[pc.id], pc.id, pc.verifier, pc.mutate, now, later))
  {
  }

  /** The two states differ in the transaction `t` at most, and not in what it has written. */
  ghost predicate SameButFor(t: TxId, a: Db, b: Db) {
    && a.committed == b.committed && a.txs.Keys == b.txs.Keys
    && forall u | u in a.txs :: (u != t ==> a.txs[u] == b.txs[u]) && a.txs[u].own == b.txs[u].own
  }
}
