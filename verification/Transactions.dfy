/** Nested transactions of adapters/postgres/tx_manager.go on PostgreSQL savepoints.

    A callback handed to RunInTx is a finite decision tree `Fn`: it executes statements,
    registers after-commit hooks and opens nested scopes, and goes on differently after
    each result, so an error or a panic can be swallowed or passed on anywhere.  The
    runner works on a live transaction with PostgreSQL's savepoint stack and on the hook
    registry with marks; `Eval` is the reference in which a scope simply works on values
    and a failed scope hands back the values it was given. */
module Transactions {
  import opened Options

  /** The rows a transaction sees. */
  type Db = map<string, string>
  type Hook = nat

  /** What the server answers to a statement, as a function of the rows it finds. */
  datatype Reply = Applied(db: Db) | SqlError | ConnLost

  datatype Outcome = Nil | Err | Panic

  datatype Fn =
    | Return(out: Outcome)
    | Exec(stmt: Db -> Reply, onOk: Fn, onFail: Fn)
    | Register(hook: Hook, next: Fn)
      /** The context the callback holds is cancelled or reaches its deadline. */
    | Cancel(next: Fn)
      /** RunInTx on the callback's own context, or on one derived from it with its own
          deadline, followed by the reaction to each result. */
    | Nest(derived: bool, body: Fn, onNil: Fn, onErr: Fn, onPanic: Fn)

  /** Aborted: a statement failed; only ROLLBACK TO helps.  Lost: the connection is gone. */
  datatype Health = Live | Aborted | Lost

  /** The reference state. */
  datatype View = View(db: Db, hooks: seq<Hook>, health: Health, canceled: bool)

  datatype Result = Result(out: Outcome, view: View)

  function ExecView(stmt: Db -> Reply, v: View): View {
    match stmt(v.db)
    case Applied(db) => v.(db := db)
    case SqlError => v.(health := Aborted)
    case ConnLost => v.(health := Lost)
  }

  predicate Usable(v: View) {
    v.health.Live? && !v.canceled
  }

  function Eval(fn: Fn, v: View): Result
    decreases fn, 0
  {
    match fn
    case Return(out) => Result(out, v)
    case Exec(stmt, onOk, onFail) =>
      if !Usable(v) then Eval(onFail, v)
      else if stmt(v.db).Applied? then Eval(onOk, ExecView(stmt, v))
      else Eval(onFail, ExecView(stmt, v))
    case Register(hook, next) => Eval(next, v.(hooks := v.hooks + [hook]))
    case Cancel(next) => Eval(next, v.(canceled := true))
    case Nest(derived, body, onNil, onErr, onPanic) =>
      var r := EvalScope(derived, body, v);
      Eval(Reaction(fn, r.out), r.view)
  }

  /** How the callback goes on after a nested scope. */
  function Reaction(fn: Fn, out: Outcome): Fn
    requires fn.Nest?
  {
    match out
    case Nil => fn.onNil
    case Err => fn.onErr
    case Panic => fn.onPanic
  }

  /** One nested scope on values.  The one way in which a failing scope keeps anything is
      a callback that succeeded although its own context had expired: RELEASE is then
      refused without anything being rolled back. */
  function EvalScope(derived: bool, body: Fn, v: View): Result
    decreases body, 1
  {
    if !Usable(v) then Result(Err, v)
    else
      var b := Eval(body, v);
      var after := b.view.(canceled := if derived then v.canceled else b.view.canceled);
      if b.view.health.Lost? then
        Result(if b.out.Nil? then Err else b.out, after)
      else if !b.out.Nil? then
        Result(b.out, after.(db := v.db, hooks := v.hooks, health := Live))
      else if b.view.health.Aborted? || b.view.canceled then
        Result(Err, after)
      else
        Result(Nil, after)
  }

  // ------------------------------------------------------------------
  // The live transaction
  // ------------------------------------------------------------------

  datatype Savepoint = Savepoint(name: nat, saved: Db)

  /** Index of the most recent savepoint called `name`, or -1. */
  function FindLast(stack: seq<Savepoint>, name: nat): (i: int)
    ensures -1 <= i < |stack|
    ensures i >= 0 ==> stack[i].name == name
    ensures forall j | i < j < |stack| :: stack[j].name != name
  {
    if stack == [] then -1
    else if stack[|stack| - 1].name == name then |stack| - 1
    else FindLast(stack[..|stack| - 1], name)
  }

  class Tx {
    var db: Db
    var stack: seq<Savepoint>
    var health: Health

    constructor (rows: Db)
      ensures db == rows && stack == [] && health == Live
    {
      db, stack, health := rows, [], Live;
    }

    method ExecStmt(stmt: Db -> Reply, canceled: bool) returns (ok: bool)
      modifies this
      ensures stack == old(stack)
      ensures ok <==> old(health).Live? && !canceled && stmt(old(db)).Applied?
      ensures !old(health).Live? || canceled ==> db == old(db) && health == old(health)
      ensures ok ==> db == stmt(old(db)).db && health == Live
      ensures old(health).Live? && !canceled && !ok ==>
                db == old(db) && health == (if stmt(old(db)).SqlError? then Aborted else Lost)
    {
      if !health.Live? || canceled {
        return false;
      }
      match stmt(db) {
        case Applied(rows) => db := rows; ok := true;
        case SqlError => health := Aborted; ok := false;
        case ConnLost => health := Lost; ok := false;
      }
    }

    /** SAVEPOINT: refused in an aborted transaction. */
    method Save(name: nat, canceled: bool) returns (ok: bool)
      modifies this
      ensures db == old(db) && health == old(health)
      ensures ok <==> health.Live? && !canceled
      ensures stack == if ok then old(stack) + [Savepoint(name, db)] else old(stack)
    {
      ok := health.Live? && !canceled;
      if ok {
        stack := stack + [Savepoint(name, db)];
      }
    }

    /** ROLLBACK TO: keeps the savepoint, drops the later ones, heals an aborted transaction. */
    method RollbackTo(name: nat)
      modifies this
      ensures var i := FindLast(old(stack), name);
              if old(health).Lost? then
                db == old(db) && stack == old(stack) && health == Lost
              else if i < 0 then
                db == old(db) && stack == old(stack) && health == Aborted
              else
                db == old(stack)[i].saved && stack == old(stack)[..i + 1] && health == Live
    {
      var i := FindLast(stack, name);
      if health.Lost? {
      } else if i < 0 {
        health := Aborted;
      } else {
        db, stack, health := stack[i].saved, stack[..i + 1], Live;
      }
    }

    /** RELEASE: drops the savepoint and the later ones; refused when aborted. */
    method Release(name: nat, canceled: bool) returns (ok: bool)
      modifies this
      ensures db == old(db)
      ensures var i := FindLast(old(stack), name);
              if !old(health).Live? || canceled then
                !ok && stack == old(stack) && health == old(health)
              else if i < 0 then
                !ok && stack == old(stack) && health == Aborted
              else
                ok && stack == old(stack)[..i] && health == Live
    {
      var i := FindLast(stack, name);
      if !health.Live? || canceled {
        ok := false;
      } else if i < 0 {
        health := Aborted;
        ok := false;
      } else {
        stack := stack[..i];
        ok := true;
      }
    }
  }

  /** framework/kernel/persistence/aftercommit.go: a list with mark and truncate-to-mark. */
  class HookRegistry {
    var hooks: seq<Hook>

    constructor ()
      ensures hooks == []
    {
      hooks := [];
    }

    method Add(hook: Hook)
      modifies this
      ensures hooks == old(hooks) + [hook]
    {
      hooks := hooks + [hook];
    }

    method TruncateTo(mark: nat)
      modifies this
      ensures hooks == if mark <= |old(hooks)| then old(hooks)[..mark] else old(hooks)
    {
      if mark <= |hooks| {
        hooks := hooks[..mark];
      }
    }
  }

  /** What the transaction and the registry have in common with the reference: the same
      health always, and the same rows and hooks as long as the transaction is alive. */
  ghost predicate Represents(tx: Tx, reg: HookRegistry, canceled: bool, v: View)
    reads tx, reg
  {
    && tx.health == v.health
    && canceled == v.canceled
    && (v.health.Live? ==> tx.db == v.db && reg.hooks == v.hooks)
  }

  /** Nothing below `base` was touched and only savepoints of depth `depth` or more were
      left on top of it. */
  ghost predicate Grown(base: seq<Savepoint>, stack: seq<Savepoint>, depth: nat) {
    base <= stack && forall i | |base| <= i < |stack| :: stack[i].name >= depth
  }

  /** Runs a callback whose context carries savepoint depth `depth`. */
  method RunFn(fn: Fn, tx: Tx, reg: HookRegistry, depth: nat, canceled: bool, ghost v: View)
    returns (out: Outcome, canceled': bool)
    requires Represents(tx, reg, canceled, v)
    modifies tx, reg
    ensures out == Eval(fn, v).out
    ensures Represents(tx, reg, canceled', Eval(fn, v).view)
    ensures Grown(old(tx.stack), tx.stack, depth)
    ensures old(reg.hooks) <= reg.hooks
    decreases fn, 1
  {
    match fn
    case Return(o) =>
      out, canceled' := o, canceled;
    case Exec(stmt, onOk, onFail) =>
      var ok := tx.ExecStmt(stmt, canceled);
      if ok {
        out, canceled' := RunFn(onOk, tx, reg, depth, canceled, ExecView(stmt, v));
      } else {
        ghost var w := if Usable(v) then ExecView(stmt, v) else v;
        out, canceled' := RunFn(onFail, tx, reg, depth, canceled, w);
      }
    case Register(hook, next) =>
      reg.Add(hook);
      out, canceled' := RunFn(next, tx, reg, depth, canceled, v.(hooks := v.hooks + [hook]));
    case Cancel(next) =>
      out, canceled' := RunFn(next, tx, reg, depth, true, v.(canceled := true));
    case Nest(derived, body, onNil, onErr, onPanic) =>
      var o, c := RunInSavepoint(derived, body, tx, reg, depth, canceled, v);
      ghost var w := EvalScope(derived, body, v).view;
      out, canceled' := RunFn(Reaction(fn, o), tx, reg, depth, c, w);
  }

  /** Whatever was left on top of a savepoint is deeper, so its name still finds it. */
  lemma FoundAgain(base: seq<Savepoint>, stack: seq<Savepoint>, p: Savepoint)
    requires Grown(base + [p], stack, p.name + 1)
    ensures base <= stack && |base| < |stack| && stack[|base|] == p && FindLast(stack, p.name) == |base|
    ensures Grown(base, stack, p.name)
  {
    assert stack[|base|] == (base + [p])[|base|];
  }

  method RunInSavepoint(derived: bool, body: Fn, tx: Tx, reg: HookRegistry, depth: nat, canceled: bool, ghost v: View)
    returns (out: Outcome, canceled': bool)
    requires Represents(tx, reg, canceled, v)
    modifies tx, reg
    ensures out == EvalScope(derived, body, v).out
    ensures Represents(tx, reg, canceled', EvalScope(derived, body, v).view)
    ensures Grown(old(tx.stack), tx.stack, depth)
    ensures old(reg.hooks) <= reg.hooks
    decreases body, 2
  {
    var ok := tx.Save(depth, canceled);
    if !ok {
      return Err, canceled;
    }
    var mark := |reg.hooks|;
    ghost var base := old(tx.stack);
    var o, c := RunFn(body, tx, reg, depth + 1, canceled, v);
    canceled' := if derived then canceled else c;
    out := EndScope(o, c, tx, reg, depth, mark, base, v.db);
  }

  /** ROLLBACK TO and the hooks cut back to the mark if the callback failed, RELEASE if not. */
  method EndScope(o: Outcome, canceled: bool, tx: Tx, reg: HookRegistry, depth: nat, mark: nat, ghost base: seq<Savepoint>, ghost rows: Db)
    returns (out: Outcome)
    requires Grown(base + [Savepoint(depth, rows)], tx.stack, depth + 1) && mark <= |reg.hooks|
    modifies tx, reg
    ensures Grown(base, tx.stack, depth)
    ensures o.Nil? ==>
              && reg.hooks == old(reg.hooks) && tx.db == old(tx.db) && tx.health == old(tx.health)
              && out == if tx.health.Live? && !canceled then Nil else Err
    ensures !o.Nil? ==>
              && out == o && reg.hooks == old(reg.hooks)[..mark]
              && if old(tx.health).Lost? then tx.health.Lost? else tx.health.Live? && tx.db == rows
  {
    FoundAgain(base, tx.stack, Savepoint(depth, rows));
    if !o.Nil? {
      reg.TruncateTo(mark);
      tx.RollbackTo(depth);
      return o;
    }
    var released := tx.Release(depth, canceled);
    out := if released then Nil else Err;
  }

  // ------------------------------------------------------------------
  // What a run leaves behind, read off the record of what happened
  // ------------------------------------------------------------------

  datatype Effect = Hooked(hook: Hook) | Wrote(stmt: Db -> Reply)

  /** How a scope ended: without an error; with its context expired after a callback that had
      succeeded in a live transaction; or with what it did undone or lost. */
  datatype Ending = Released | Expired | Undone

  /** Everything a callback did, in order, with every scope it started and how that ended. */
  datatype Trail =
    | Done
    | Did(effect: Effect, rest: Trail)
    | Scope(end: Ending, kids: Trail, rest: Trail)

  function EndingOf(derived: bool, body: Fn, v: View): Ending {
    if EvalScope(derived, body, v).out.Nil? then Released
    else if ExpiresBeforeRelease(body, v) then Expired
    else Undone
  }

  function Log(fn: Fn, v: View): Trail
    decreases fn
  {
    match fn
    case Return(_) => Done
    case Exec(stmt, onOk, onFail) =>
      if !Usable(v) then Log(onFail, v)
      else if stmt(v.db).Applied? then Did(Wrote(stmt), Log(onOk, ExecView(stmt, v)))
      else Log(onFail, ExecView(stmt, v))
    case Register(hook, next) => Did(Hooked(hook), Log(next, v.(hooks := v.hooks + [hook])))
    case Cancel(next) => Log(next, v.(canceled := true))
    case Nest(derived, body, onNil, onErr, onPanic) =>
      var r := EvalScope(derived, body, v);
      Scope(EndingOf(derived, body, v), if Usable(v) then Log(body, v) else Done,
            Log(Reaction(fn, r.out), r.view))
  }

  /** What was done in scopes that did not fail and lie inside no failed scope. */
  function Unfailed(t: Trail): seq<Effect> {
    match t
    case Done => []
    case Did(effect, rest) => [effect] + Unfailed(rest)
    case Scope(end, kids, rest) => (if end.Released? then Unfailed(kids) else []) + Unfailed(rest)
  }

  /** The same with the scopes whose context had expired. */
  function Kept(t: Trail): seq<Effect> {
    match t
    case Done => []
    case Did(effect, rest) => [effect] + Kept(rest)
    case Scope(end, kids, rest) => (if end.Undone? then [] else Kept(kids)) + Kept(rest)
  }

  function Hooks(es: seq<Effect>): seq<Hook> {
    if es == [] then [] else (if es[0].Hooked? then [es[0].hook] else []) + Hooks(es[1..])
  }

  /** The rows after replaying the statements. */
  function Replay(es: seq<Effect>, db: Db): Db {
    if es == [] then db
    else Replay(es[1..], if es[0].Wrote? && es[0].stmt(db).Applied? then es[0].stmt(db).db else db)
  }

  /** A scope expired outside every scope that was undone, and it had done something. */
  predicate Leaves(t: Trail) {
    match t
    case Done => false
    case Did(_, rest) => Leaves(rest)
    case Scope(end, kids, rest) =>
      (end.Expired? && |Kept(kids)| > 0) || (end.Released? && Leaves(kids)) || Leaves(rest)
  }

  /** The same, and it had registered a hook. */
  predicate LeavesHook(t: Trail) {
    match t
    case Done => false
    case Did(_, rest) => LeavesHook(rest)
    case Scope(end, kids, rest) =>
      (end.Expired? && |Hooks(Kept(kids))| > 0) || (end.Released? && LeavesHook(kids)) || LeavesHook(rest)
  }

  /** Every nested call is handed the context the callback was given. */
  predicate PassesContext(fn: Fn) {
    match fn
    case Return(_) => true
    case Exec(_, onOk, onFail) => PassesContext(onOk) && PassesContext(onFail)
    case Register(_, next) => PassesContext(next)
    case Cancel(next) => PassesContext(next)
    case Nest(derived, body, onNil, onErr, onPanic) =>
      !derived && PassesContext(body) && PassesContext(onNil) && PassesContext(onErr) && PassesContext(onPanic)
  }

  /** A scope whose callback succeeds in a live transaction while its context is expired. */
  predicate ExpiresBeforeRelease(body: Fn, v: View) {
    var b := Eval(body, v);
    Usable(v) && b.out.Nil? && b.view.health.Live? && b.view.canceled
  }

  /** A transaction that is down stays down until an enclosing scope rolls back. */
  lemma {:induction false} StaysDown(fn: Fn, v: View)
    requires !v.health.Live?
    ensures Eval(fn, v).view.health == v.health
  {
    match fn
    case Return(_) =>
    case Exec(_, _, onFail) => StaysDown(onFail, v);
    case Register(hook, next) => StaysDown(next, v.(hooks := v.hooks + [hook]));
    case Cancel(next) => StaysDown(next, v.(canceled := true));
    case Nest(derived, body, onNil, onErr, onPanic) => StaysDown(onErr, v);
  }

  /** Without derived contexts a cancellation is never undone, and an expired scope that leaves
      something implies one. */
  lemma {:induction false} CancellationStays(fn: Fn, v: View)
    requires PassesContext(fn)
    ensures v.canceled || Leaves(Log(fn, v)) ==> Eval(fn, v).view.canceled
  {
    match fn
    case Return(_) =>
    case Exec(stmt, onOk, onFail) =>
      CancellationStays(onOk, ExecView(stmt, v));
      CancellationStays(onFail, ExecView(stmt, v));
      CancellationStays(onFail, v);
    case Register(hook, next) => CancellationStays(next, v.(hooks := v.hooks + [hook]));
    case Cancel(next) => CancellationStays(next, v.(canceled := true));
    case Nest(derived, body, onNil, onErr, onPanic) =>
      var r := EvalScope(derived, body, v);
      CancellationStays(body, v);
      CancellationStays(Reaction(fn, r.out), r.view);
  }

  lemma {:induction false} HooksJoin(xs: seq<Effect>, ys: seq<Effect>)
    ensures Hooks(xs + ys) == Hooks(xs) + Hooks(ys)
  {
    if xs == [] {
      assert xs + ys == ys;
    } else {
      assert (xs + ys)[0] == xs[0] && (xs + ys)[1..] == xs[1..] + ys;
      HooksJoin(xs[1..], ys);
    }
  }

  lemma {:induction false} ReplayJoin(xs: seq<Effect>, ys: seq<Effect>, db: Db)
    ensures Replay(xs + ys, db) == Replay(ys, Replay(xs, db))
    decreases |xs|
  {
    if xs == [] {
      assert xs + ys == ys;
    } else {
      assert (xs + ys)[0] == xs[0] && (xs + ys)[1..] == xs[1..] + ys;
      ReplayJoin(xs[1..], ys, if xs[0].Wrote? && xs[0].stmt(db).Applied? then xs[0].stmt(db).db else db);
    }
  }

  /** A view after `es` have been done to it. */
  ghost predicate After(v: View, es: seq<Effect>, w: View) {
    w.hooks == v.hooks + Hooks(es) && w.db == Replay(es, v.db)
  }

  lemma AfterJoin(v: View, xs: seq<Effect>, w: View, ys: seq<Effect>, z: View)
    requires After(v, xs, w) && After(w, ys, z)
    ensures After(v, xs + ys, z)
  {
    HooksJoin(xs, ys);
    ReplayJoin(xs, ys, v.db);
  }

  /** A run that ends with a live transaction has exactly what was not undone. */
  lemma {:induction false} RunKeeps(fn: Fn, v: View)
    requires v.health.Live? && Eval(fn, v).view.health.Live?
    ensures After(v, Kept(Log(fn, v)), Eval(fn, v).view)
    decreases fn, 0
  {
    match fn
    case Return(_) =>
    case Exec(stmt, onOk, onFail) =>
      if !Usable(v) {
        RunKeeps(onFail, v);
      } else if stmt(v.db).Applied? {
        var w := ExecView(stmt, v);
        RunKeeps(onOk, w);
        AfterJoin(v, [Wrote(stmt)], w, Kept(Log(onOk, w)), Eval(onOk, w).view);
      } else {
        StaysDown(onFail, ExecView(stmt, v));
      }
    case Register(hook, next) =>
      var w := v.(hooks := v.hooks + [hook]);
      RunKeeps(next, w);
      AfterJoin(v, [Hooked(hook)], w, Kept(Log(next, w)), Eval(next, w).view);
    case Cancel(next) => RunKeeps(next, v.(canceled := true));
    case Nest(derived, body, onNil, onErr, onPanic) =>
      var r := EvalScope(derived, body, v);
      var next := Reaction(fn, r.out);
      if !r.view.health.Live? {
        StaysDown(next, r.view);
      } else {
        ScopeKeeps(derived, body, v);
        RunKeeps(next, r.view);
        AfterJoin(v, KeptInScope(derived, body, v), r.view, Kept(Log(next, r.view)), Eval(next, r.view).view);
      }
  }

  function KeptInScope(derived: bool, body: Fn, v: View): seq<Effect> {
    if EndingOf(derived, body, v).Undone? then [] else Kept(Log(body, v))
  }

  /** So has one scope: a failing one keeps nothing, unless its context expired after its last
      statement; then it keeps all that its callback had not undone. */
  lemma {:induction false} ScopeKeeps(derived: bool, body: Fn, v: View)
    requires v.health.Live? && EvalScope(derived, body, v).view.health.Live?
    ensures After(v, KeptInScope(derived, body, v), EvalScope(derived, body, v).view)
    decreases body, 1
  {
    if !EndingOf(derived, body, v).Undone? {
      RunKeeps(body, v);
    }
  }

  /** What stays is what the unfailed scopes did, if and only if no expired scope leaves anything. */
  lemma {:induction false} KeptIffNothingLeft(t: Trail)
    ensures |Unfailed(t)| <= |Kept(t)|
    ensures Kept(t) == Unfailed(t) <==> !Leaves(t)
    ensures Leaves(t) ==> |Unfailed(t)| < |Kept(t)|
  {
    match t
    case Done =>
    case Did(_, rest) => KeptIffNothingLeft(rest);
    case Scope(_, kids, rest) =>
      KeptIffNothingLeft(kids);
      KeptIffNothingLeft(rest);
  }

  /** And the hooks that run are those of the unfailed scopes, if and only if none leaves a hook. */
  lemma {:induction false} HooksIffNoneLeft(t: Trail)
    ensures Hooks(Kept(t)) == Hooks(Unfailed(t)) <==> !LeavesHook(t)
    ensures |Hooks(Unfailed(t))| <= |Hooks(Kept(t))|
    ensures LeavesHook(t) ==> |Hooks(Unfailed(t))| < |Hooks(Kept(t))|
  {
    match t
    case Done =>
    case Did(effect, rest) =>
      HooksIffNoneLeft(rest);
      HooksJoin([effect], Kept(rest));
      HooksJoin([effect], Unfailed(rest));
    case Scope(end, kids, rest) =>
      HooksIffNoneLeft(kids);
      HooksIffNoneLeft(rest);
      HooksJoin(if end.Undone? then [] else Kept(kids), Kept(rest));
      HooksJoin(if end.Released? then Unfailed(kids) else [], Unfailed(rest));
  }

  /** With a derived context the outermost commit can succeed and run the hook of a scope
      that returned an error. */
  lemma DerivedContextLeaks(v: View)
    requires Usable(v)
    ensures var body := Register(7, Cancel(Return(Nil)));
            var fn := Nest(true, body, Return(Err), Return(Nil), Return(Err));
            && EvalScope(true, body, v).out.Err?
            && Eval(fn, v).out.Nil?
            && Usable(Eval(fn, v).view)
            && Eval(fn, v).view.hooks == v.hooks + [7]
            && Unfailed(Log(fn, v)) == []
  {
    var body := Register(7, Cancel(Return(Nil)));
    assert Eval(Cancel(Return(Nil)), v.(hooks := v.hooks + [7])).view.canceled;
    assert EvalScope(true, body, v) == Result(Err, v.(hooks := v.hooks + [7]));
  }

  // ------------------------------------------------------------------
  // The leaf a callback reaches
  // ------------------------------------------------------------------

  /** What a callback is told: whether a statement worked, or how a nested scope came out. */
  datatype Answer = Worked | Rejected | CameOut(out: Outcome)

  /** The outcome at the leaf that the answers lead to, read off the tree alone. */
  function LeafAt(fn: Fn, told: seq<Answer>): Option<Outcome>
    decreases fn
  {
    match fn
    case Return(out) => if told == [] then Some(out) else None
    case Register(_, next) => LeafAt(next, told)
    case Cancel(next) => LeafAt(next, told)
    case Exec(_, onOk, onFail) =>
      if told == [] then None
      else if told[0].Worked? then LeafAt(onOk, told[1..])
      else if told[0].Rejected? then LeafAt(onFail, told[1..])
      else None
    case Nest(_, _, onNil, onErr, onPanic) =>
      if told == [] then None
      else if told[0] == CameOut(Nil) then LeafAt(onNil, told[1..])
      else if told[0] == CameOut(Err) then LeafAt(onErr, told[1..])
      else if told[0] == CameOut(Panic) then LeafAt(onPanic, told[1..])
      else None
  }

  /** The answers in a run: a statement works if the transaction can be used and the server applies it. */
  function Told(fn: Fn, v: View): seq<Answer>
    decreases fn
  {
    match fn
    case Return(_) => []
    case Register(hook, next) => Told(next, v.(hooks := v.hooks + [hook]))
    case Cancel(next) => Told(next, v.(canceled := true))
    case Exec(stmt, onOk, onFail) =>
      if v.health.Live? && !v.canceled && stmt(v.db).Applied? then [Worked] + Told(onOk, v.(db := stmt(v.db).db))
      else [Rejected] + Told(onFail, if v.health.Live? && !v.canceled then ExecView(stmt, v) else v)
    case Nest(derived, body, onNil, onErr, onPanic) =>
      var r := EvalScope(derived, body, v);
      [CameOut(r.out)] + Told(match r.out case Nil => onNil case Err => onErr case Panic => onPanic, r.view)
  }

  /** The leaf of a run. */
  function Leaf(fn: Fn, v: View): Option<Outcome> {
    LeafAt(fn, Told(fn, v))
  }

  /** A callback comes out as its leaf says, errors and panics kept apart. */
  lemma {:induction false} OutIsLeaf(fn: Fn, v: View)
    ensures Leaf(fn, v) == Some(Eval(fn, v).out)
    decreases fn
  {
    match fn
    case Return(_) =>
    case Register(hook, next) => OutIsLeaf(next, v.(hooks := v.hooks + [hook]));
    case Cancel(next) => OutIsLeaf(next, v.(canceled := true));
    case Exec(stmt, onOk, onFail) =>
      var worked := v.health.Live? && !v.canceled && stmt(v.db).Applied?;
      var w := if v.health.Live? && !v.canceled then ExecView(stmt, v) else v;
      OutIsLeaf(if worked then onOk else onFail, w);
      assert Told(fn, v)[1..] == Told(if worked then onOk else onFail, w);
    case Nest(derived, body, onNil, onErr, onPanic) =>
      var r := EvalScope(derived, body, v);
      OutIsLeaf(Reaction(fn, r.out), r.view);
      assert Told(fn, v)[1..] == Told(Reaction(fn, r.out), r.view);
  }

  /** A scope comes out as its callback's leaf says; one whose leaf is no error comes out with an
      error exactly if the transaction is down or the context expired. One that cannot be entered
      comes out with an error. */
  lemma ScopeIsLeaf(derived: bool, body: Fn, v: View)
    ensures var out := EvalScope(derived, body, v).out;
            if v.health != Live || v.canceled then out == Err
            else
              && (Leaf(body, v) == Some(Err) ==> out == Err)
              && (Leaf(body, v) == Some(Panic) ==> out == Panic)
              && (Leaf(body, v) == Some(Nil) ==>
                    var after := Eval(body, v).view; out == if after.health == Live && !after.canceled then Nil else Err)
  {
    OutIsLeaf(body, v);
  }

  /** The outcomes at the leaves of a tree. */
  function Outcomes(fn: Fn): set<Outcome> {
    match fn
    case Return(out) => {out}
    case Register(_, next) => Outcomes(next)
    case Cancel(next) => Outcomes(next)
    case Exec(_, onOk, onFail) => Outcomes(onOk) + Outcomes(onFail)
    case Nest(_, _, onNil, onErr, onPanic) => Outcomes(onNil) + Outcomes(onErr) + Outcomes(onPanic)
  }

  lemma {:induction false} LeafIsOutcome(fn: Fn, told: seq<Answer>)
    requires LeafAt(fn, told).Some?
    ensures LeafAt(fn, told).value in Outcomes(fn)
    decreases fn
  {
    match fn
    case Return(_) =>
    case Register(_, next) => LeafIsOutcome(next, told);
    case Cancel(next) => LeafIsOutcome(next, told);
    case Exec(_, onOk, onFail) => LeafIsOutcome(if told[0].Worked? then onOk else onFail, told[1..]);
    case Nest(_, _, onNil, onErr, onPanic) =>
      LeafIsOutcome(if told[0] == CameOut(Nil) then onNil else if told[0] == CameOut(Err) then onErr else onPanic, told[1..]);
  }

  // ------------------------------------------------------------------
  // The outermost scope
  // ------------------------------------------------------------------

  /** What becomes of COMMIT in a transaction that could commit: the server may refuse it,
      or the acknowledgement may be lost although the commit is durable. */
  datatype CommitFate = Durable | Refused | AckLost

  class Database {
    var rows: Db

    constructor (rows: Db)
      ensures this.rows == rows
    {
      this.rows := rows;
    }
  }

  /** TxManager.RunInTx on a context without a transaction.  `begins` and `scoped` say
      whether BEGIN and the tenant setting succeed.  `ran` are the hooks that were run. */
  method RunInTx(database: Database, fn: Fn, begins: bool, scoped: bool, fate: CommitFate)
    returns (out: Outcome, ran: seq<Hook>)
    modifies database
    ensures var r := Eval(fn, View(old(database.rows), [], Live, false));
            var started := begins && scoped;
            var commits := started && r.out.Nil? && Usable(r.view);
            && out == (if !started then Err
                       else if !r.out.Nil? then r.out
                       else if commits && fate.Durable? then Nil
                       else Err)
            && database.rows == (if commits && !fate.Refused? then r.view.db else old(database.rows))
            && ran == (if out.Nil? then r.view.hooks else [])
    ensures var t := Log(fn, View(old(database.rows), [], Live, false));
            out.Nil? ==>
              && database.rows == Replay(Kept(t), old(database.rows)) && ran == Hooks(Kept(t))
              && (Kept(t) == Unfailed(t) <==> !Leaves(t))
              && (ran == Hooks(Unfailed(t)) <==> !LeavesHook(t))
              && (PassesContext(fn) ==> !Leaves(t))
    ensures var leaf := Leaf(fn, View(old(database.rows), [], Live, false));
            && leaf.Some? && leaf.value in Outcomes(fn)
            && (out.Nil? ==> leaf == Some(Nil))
            && (begins && scoped && leaf != Some(Nil) ==> Some(out) == leaf)
            && (leaf != Some(Nil) ==> database.rows == old(database.rows) && ran == [])
    ensures Nil !in Outcomes(fn) ==> !out.Nil? && database.rows == old(database.rows) && ran == []
    ensures !out.Nil? ==> ran == []
  {
    OutIsLeaf(fn, View(database.rows, [], Live, false));
    LeafIsOutcome(fn, Told(fn, View(database.rows, [], Live, false)));
    ran := [];
    if !begins || !scoped {
      return Err, ran;
    }
    var tx := new Tx(database.rows);
    var reg := new HookRegistry();
    var mark := |reg.hooks|;
    ghost var v := View(database.rows, [], Live, false);
    var o, canceled := RunFn(fn, tx, reg, 0, false, v);
    if !o.Nil? {
      reg.TruncateTo(mark);
      return o, ran;
    }
    if !tx.health.Live? || canceled || fate.Refused? {
      return Err, ran;
    }
    database.rows := tx.db;
    if fate.AckLost? {
      return Err, ran;
    }
    ran := reg.hooks;
    out := Nil;
    RunKeeps(fn, v);
    KeptIffNothingLeft(Log(fn, v));
    HooksIffNoneLeft(Log(fn, v));
    if PassesContext(fn) {
      CancellationStays(fn, v);
    }
  }
}
