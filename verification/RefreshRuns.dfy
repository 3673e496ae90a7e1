/** Two reachable runs in which a revocation falls short: RevokeSession beside a rotation, and the
    reuse cascade of a transaction that has itself rotated a token of the session. */
module RefreshRuns {
  import opened Options
  import opened RefreshTokens
  import opened RefreshTheorems
  import opened RefreshRevoke

  function Issuing(): seq<Action> {
    [Begin(1), Issue(1, 10, "s", "u", 1, "v", 0), Commit(1)]
  }

  function Presenting(): seq<Action> {
    [Begin(2), Present(2, 10, "v", true), Lock(2)]
  }

  /** A token is issued, and a rotation of it gets as far as its validation. */
  function Rotating(): seq<Action> {
    Issuing() + Presenting() + [Validate(2, 0, 0)]
  }

  function Parent(cfg: Config): Row {
    RootRow(cfg, Issue(1, 10, "s", "u", 1, "v", 0))
  }

  /** The rotating transaction, at the statement it stands at. */
  function Rotator(cfg: Config, own: map<Id, Row>, pc: Pc): Tx {
    Tx(own, {cfg.lockKey("s")}, pc, map[], {})
  }

  lemma IssuedIs(cfg: Config)
    ensures Run(cfg, Init, Issuing()) == Db(map[10 := Parent(cfg)], map[])
  {
    ThreeSteps(cfg, Init, Issuing());
    var db1 := Step(cfg, Init, Begin(1));
    var db2 := Step(cfg, db1, Issue(1, 10, "s", "u", 1, "v", 0));
    assert db1.txs == map[1 := Tx(map[], {}, Idle, map[], {})];
    assert db2.txs[1].own == map[10 := Parent(cfg)];
    assert db2.committed + db2.txs[1].own == map[10 := Parent(cfg)] && db2.txs - {1} == map[];
  }

  lemma PresentedIs(cfg: Config, row: Row)
    requires row.session == "s"
    ensures Run(cfg, Db(map[10 := row], map[]), Presenting())
            == Db(map[10 := row], map[2 := Rotator(cfg, map[], Locked(10, "v", true, "s"))])
  {
    var db := Db(map[10 := row], map[]);
    ThreeSteps(cfg, db, Presenting());
    var db1 := Step(cfg, db, Begin(2));
    var db2 := Step(cfg, db1, Present(2, 10, "v", true));
    assert db1.txs == map[2 := Tx(map[], {}, Idle, map[], {})];
    assert db2.txs == map[2 := Tx(map[], {}, Located(10, "v", true, "s"), map[], {})];
    assert db2.txs[2].locks + {cfg.lockKey("s")} == {cfg.lockKey("s")};
  }

  lemma ValidatedIs(cfg: Config, row: Row)
    requires Judge(cfg.policy, row, "v", 0, 0) == Fresh
    ensures Step(cfg, Db(map[10 := row], map[2 := Rotator(cfg, map[], Locked(10, "v", true, "s"))]), Validate(2, 0, 0))
            == Db(map[10 := row], map[2 := Rotator(cfg, map[], Inserting(10, row))])
  {
    var db, tx := Db(map[10 := row], map[2 := Rotator(cfg, map[], Locked(10, "v", true, "s"))]), Rotator(cfg, map[], Inserting(10, row));
    assert AfterReread(cfg, db.committed, db.txs[2], 0, 0) == tx;
    assert db.txs[2 := tx] == map[2 := tx];
  }

  lemma RotatingIs(cfg: Config)
    requires cfg.policy.maxAge > 0 && cfg.policy.maxIdle > 0
    ensures Run(cfg, Init, Rotating()) == Db(map[10 := Parent(cfg)], map[2 := Rotator(cfg, map[], Inserting(10, Parent(cfg)))])
  {
    RunAppend(cfg, Init, Issuing() + Presenting(), Validate(2, 0, 0));
    RunSplits(cfg, Init, Issuing(), Presenting());
    IssuedIs(cfg);
    PresentedIs(cfg, Parent(cfg));
    ValidatedIs(cfg, Parent(cfg));
  }

  /** The child is in and the parent marked, in a table in which the parent may be revoked by now. */
  lemma MarkedIs(cfg: Config, parent: Row, now: Row)
    requires parent.rotatedAt.None? && now.rotatedAt.None?
    ensures var db := Db(map[10 := now], map[2 := Rotator(cfg, map[], Inserting(10, parent))]);
            Step(cfg, Step(cfg, db, InsertChild(2, 11, "w", 0)), MarkRotated(2))
            == Db(map[10 := now], map[2 := Rotator(cfg, Exchanged(cfg, parent, now), Idle)])
  {
    var db := Db(map[10 := now], map[2 := Rotator(cfg, map[], Inserting(10, parent))]);
    var tx1 := Rotator(cfg, map[11 := ChildRow(cfg, 10, parent, "w", 0)], Marking(10, parent, 0));
    var tx2 := Rotator(cfg, Exchanged(cfg, parent, now), Idle);
    assert Step(cfg, db, InsertChild(2, 11, "w", 0)) == SetTx(db, 2, tx1);
    assert Visible(db.committed, tx1)[10] == now;
    assert Step(cfg, SetTx(db, 2, tx1), MarkRotated(2)) == SetTx(SetTx(db, 2, tx1), 2, tx2);
    assert SetTx(SetTx(db, 2, tx1), 2, tx2).txs == map[2 := tx2];
  }

  /** The marked parent and its child. */
  function Exchanged(cfg: Config, parent: Row, now: Row): map<Id, Row> {
    map[11 := ChildRow(cfg, 10, parent, "w", 0), 10 := now.(rotatedAt := Some(0))]
  }

  // ------------------------------------------------------------------
  // A rotation that outruns RevokeSession
  // ------------------------------------------------------------------

  function Outrunning(): seq<Action> {
    [InsertChild(2, 11, "w", 0), MarkRotated(2), Commit(2)]
  }

  lemma OutrunsIs(cfg: Config, parent: Row, now: Row)
    requires parent.rotatedAt.None? && now.rotatedAt.None?
    ensures var db := Db(map[10 := now], map[2 := Rotator(cfg, map[], Inserting(10, parent))]);
            Run(cfg, db, Outrunning()).committed == Exchanged(cfg, parent, now)
  {
    var db := Db(map[10 := now], map[2 := Rotator(cfg, map[], Inserting(10, parent))]);
    ThreeSteps(cfg, db, Outrunning());
    MarkedIs(cfg, parent, now);
    assert db.committed + Exchanged(cfg, parent, now) == Exchanged(cfg, parent, now);
  }

  /** The session is revoked while one of its tokens is being rotated; the rotation goes on to
      leave a token of that session that is not revoked and that validates. */
  lemma RotationOutrunsRevoke(cfg: Config)
    requires ValidConfig(cfg) && cfg.policy.maxAge > 0 && cfg.policy.maxIdle > 0
    ensures var db := Run(cfg, Init, Rotating());
            var end := Run(cfg, RevokeSession(db, {10}, 0), Outrunning()).committed;
            && Snapshot(db, {10}, "s") && Unlocked(db, {10}) && db.committed.Keys == {10}
            && end.Keys == {10, 11} && end[10].revokedAt == Some(0)
            && end[11].session == "s" && Judge(cfg.policy, end[11], "w", 0, 0) == Fresh
  {
    RotatingIs(cfg);
    var revoked := Parent(cfg).(revokedAt := Some(0));
    RevokedIs(Parent(cfg), 0);
    OutrunsIs(cfg, Parent(cfg), revoked);
  }

  lemma RevokedIs(row: Row, at: Time)
    requires row.revokedAt.None?
    ensures RevokeIds(map[10 := row], {10}, at) == map[10 := row.(revokedAt := Some(at))]
  {
  }

  // ------------------------------------------------------------------
  // A cascade that blocks itself
  // ------------------------------------------------------------------

  /** The rotation is over, and the same transaction presents the spent token again. */
  function Reusing(at: Time): seq<Action> {
    [InsertChild(2, 11, "w", 0), MarkRotated(2), Present(2, 10, "v", true), Lock(2), Validate(2, at, at)]
  }

  /** The cascade times out, so the call fails; the transaction commits. */
  function GivingUp(): seq<Action> {
    [Cascade(2), CallFails(2), Commit(2)]
  }

  /** The transaction in its second call. */
  function Presenter(cfg: Config, own: map<Id, Row>, pc: Pc): Tx {
    Tx(own, {cfg.lockKey("s")}, pc, own, {cfg.lockKey("s")})
  }

  lemma PresentedAgain(cfg: Config, row: Row, own: map<Id, Row>)
    requires 10 in own && own[10].session == "s"
    ensures var db := Db(map[10 := row], map[2 := Rotator(cfg, own, Idle)]);
            Step(cfg, Step(cfg, db, Present(2, 10, "v", true)), Lock(2))
            == Db(map[10 := row], map[2 := Presenter(cfg, own, Locked(10, "v", true, "s"))])
  {
    var db := Db(map[10 := row], map[2 := Rotator(cfg, own, Idle)]);
    var tx1, tx2 := Presenter(cfg, own, Located(10, "v", true, "s")), Presenter(cfg, own, Locked(10, "v", true, "s"));
    assert Step(cfg, db, Present(2, 10, "v", true)) == SetTx(db, 2, tx1);
    assert tx1.locks + {cfg.lockKey("s")} == tx2.locks;
    assert Step(cfg, SetTx(db, 2, tx1), Lock(2)) == SetTx(SetTx(db, 2, tx1), 2, tx2);
    assert SetTx(SetTx(db, 2, tx1), 2, tx2).txs == map[2 := tx2];
  }

  lemma ReuseFound(cfg: Config, row: Row, own: map<Id, Row>, at: Time)
    requires 10 in own && own[10].session == "s" && Judge(cfg.policy, own[10], "v", at, at) == Reused
    ensures Step(cfg, Db(map[10 := row], map[2 := Presenter(cfg, own, Locked(10, "v", true, "s"))]), Validate(2, at, at))
            == Db(map[10 := row], map[2 := Presenter(cfg, own, Cascading("s", at))])
  {
    var db, tx := Db(map[10 := row], map[2 := Presenter(cfg, own, Locked(10, "v", true, "s"))]), Presenter(cfg, own, Cascading("s", at));
    assert AfterReread(cfg, db.committed, db.txs[2], at, at) == tx;
    assert db.txs[2 := tx] == map[2 := tx];
  }

  lemma ReusingIs(cfg: Config, at: Time)
    requires ValidConfig(cfg) && cfg.policy.reuseInterval < at && at < cfg.policy.maxAge && at < cfg.policy.maxIdle
    ensures Run(cfg, Init, Rotating() + Reusing(at))
            == Db(map[10 := Parent(cfg)], map[2 := Presenter(cfg, Exchanged(cfg, Parent(cfg), Parent(cfg)), Cascading("s", at))])
  {
    var db, own := Run(cfg, Init, Rotating()), Exchanged(cfg, Parent(cfg), Parent(cfg));
    RotatingIs(cfg);
    RunSplits(cfg, Init, Rotating(), Reusing(at));
    RunSplits(cfg, db, Reusing(at)[..2], Reusing(at)[2..]);
    assert Reusing(at) == Reusing(at)[..2] + Reusing(at)[2..];
    TwoSteps(cfg, db, Reusing(at)[..2]);
    MarkedIs(cfg, Parent(cfg), Parent(cfg));
    ThreeSteps(cfg, Run(cfg, db, Reusing(at)[..2]), Reusing(at)[2..]);
    PresentedAgain(cfg, Parent(cfg), own);
    ReuseFound(cfg, Parent(cfg), own, at);
  }

  lemma GivesUp(cfg: Config, row: Row, own: map<Id, Row>, at: Time)
    requires own.Keys == {10, 11} && row.session == "s" && row.revokedAt.None?
    ensures var db := Db(map[10 := row], map[2 := Presenter(cfg, own, Cascading("s", at))]);
            Step(cfg, db, Cascade(2)) == db && Run(cfg, db, GivingUp()).committed == own
  {
    var db := Db(map[10 := row], map[2 := Presenter(cfg, own, Cascading("s", at))]);
    assert !CascadeUnblocked(db, "s") by {
      assert 10 in db.committed && 2 in db.txs && 10 in db.txs[2].own;
    }
    ThreeSteps(cfg, db, GivingUp());
    assert Step(cfg, db, CallFails(2)) == SetTx(db, 2, Presenter(cfg, own, Idle));
    assert db.committed + own == own;
  }

  /** A transaction rotates a token and then presents it again once the interval is over. That is
      reuse, but the cascade waits for the row the transaction itself has marked. It times out; the
      call fails, the callback commits, and no row of the session is revoked: the child validates. */
  lemma CascadeBlocksItself(cfg: Config, at: Time)
    requires ValidConfig(cfg) && cfg.policy.reuseInterval < at && at < cfg.policy.maxAge && at < cfg.policy.maxIdle
    ensures var db := Run(cfg, Init, Rotating() + Reusing(at));
            var end := Run(cfg, db, GivingUp()).committed;
            && 2 in db.txs && db.txs[2].pc == Cascading("s", at)
            && WroteUnrevoked(db, 2, "s") && Step(cfg, db, Cascade(2)) == db
            && end.Keys == {10, 11} && end[10].session == end[11].session == "s"
            && end[10].revokedAt.None? && Judge(cfg.policy, end[11], "w", at, at) == Fresh
  {
    ReusingIs(cfg, at);
    GivesUp(cfg, Parent(cfg), Exchanged(cfg, Parent(cfg), Parent(cfg)), at);
    var db := Run(cfg, Init, Rotating() + Reusing(at));
    assert 10 in db.txs[2].own && 10 in db.committed;
  }
}
