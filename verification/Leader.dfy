/** Leader election by a row with a time-to-live, adapters/postgres/reconcile_leader.go.

    Every call is one statement on one row, stamped by the database clock, which never runs
    backwards. Each elector has its own holder identity and its own positive lease length.
    Beside the table the model keeps what the calls meant: the tokens handed out and, per
    epoch, who led and from when to when. */
module Leader {
  import opened Options

  type Reconciler = nat
  type Holder = nat
  type Time = int

  datatype Row = Row(holder: Holder, epoch: nat, acquiredAt: Time, expiresAt: Time)

  /** Epoch e of a reconciler is the e-th span. `end` is the last expiry granted in it, or the
      instant the holder gave the lease up. */
  datatype Span = Span(holder: Holder, start: Time, end: Time)

  datatype Token = Token(id: Reconciler, holder: Holder, epoch: nat)

  datatype State = State(rows: map<Reconciler, Row>, clock: Time, spans: map<Reconciler, seq<Span>>, tokens: set<Token>)

  const Init := State(map[], 0, map[], {})

  /** Lease length of an elector, in the clock's unit; sub-millisecond lengths cannot be built. */
  type Lease = n: int | 1 <= n witness 1

  datatype Action =
    | Acquire(id: Reconciler, holder: Holder, now: Time)
    | Renew(id: Reconciler, holder: Holder, now: Time)
    | Release(id: Reconciler, holder: Holder, now: Time)

  const OneSecond := 1000

  function SpansOf(st: State, id: Reconciler): seq<Span> {
    if id in st.spans then st.spans[id] else []
  }

  /** The guard of the upsert: no row, a lapsed row, or our own. */
  predicate MayAcquire(st: State, id: Reconciler, holder: Holder, now: Time) {
    id in st.rows ==> st.rows[id].expiresAt < now || st.rows[id].holder == holder
  }

  /** A live row of our own keeps its epoch. */
  predicate KeepsEpoch(st: State, id: Reconciler, holder: Holder, now: Time) {
    id in st.rows && st.rows[id].holder == holder && st.rows[id].expiresAt > now
  }

  /** The guard of the renewal. */
  predicate MayRenew(st: State, id: Reconciler, holder: Holder, now: Time) {
    id in st.rows && st.rows[id].holder == holder && st.rows[id].expiresAt > now
  }

  function MoveEnd(spans: seq<Span>, end: Time): seq<Span>
    requires spans != []
  {
    spans[|spans| - 1 := spans[|spans| - 1].(end := end)]
  }

  function AcquireStep(st: State, id: Reconciler, holder: Holder, ttl: Lease, now: Time): State {
    if !MayAcquire(st, id, holder, now) then st.(clock := now)
    else
      var spans := SpansOf(st, id);
      var keep := KeepsEpoch(st, id, holder, now) && spans != [];
      var epoch := if id !in st.rows then 1 else if KeepsEpoch(st, id, holder, now) then st.rows[id].epoch else st.rows[id].epoch + 1;
      State(st.rows[id := Row(holder, epoch, now, now + ttl)], now,
            st.spans[id := if keep then MoveEnd(spans, now + ttl) else spans + [Span(holder, now, now + ttl)]],
            st.tokens + {Token(id, holder, epoch)})
  }

  function RenewStep(st: State, id: Reconciler, holder: Holder, ttl: Lease, now: Time): State {
    if !MayRenew(st, id, holder, now) || SpansOf(st, id) == [] then st.(clock := now)
    else State(st.rows[id := st.rows[id].(expiresAt := now + ttl)], now,
               st.spans[id := MoveEnd(SpansOf(st, id), now + ttl)], st.tokens)
  }

  function Sooner(a: Time, b: Time): Time {
    if a < b then a else b
  }

  function ReleaseStep(st: State, id: Reconciler, holder: Holder, now: Time): State {
    if id !in st.rows || st.rows[id].holder != holder || SpansOf(st, id) == [] then st.(clock := now)
    else
      var spans := SpansOf(st, id);
      State(st.rows[id := st.rows[id].(expiresAt := now - OneSecond)], now,
            st.spans[id := MoveEnd(spans, Sooner(spans[|spans| - 1].end, now))], st.tokens)
  }

  function Step(ttl: Holder -> Lease, st: State, a: Action): State {
    if a.now < st.clock then st
    else
      match a
      case Acquire(id, holder, now) => AcquireStep(st, id, holder, ttl(holder), now)
      case Renew(id, holder, now) => RenewStep(st, id, holder, ttl(holder), now)
      case Release(id, holder, now) => ReleaseStep(st, id, holder, now)
  }

  function Run(ttl: Holder -> Lease, st: State, acts: seq<Action>): State
    decreases |acts|
  {
    if acts == [] then st else Run(ttl, Step(ttl, st, acts[0]), acts[1..])
  }

  // ------------------------------------------------------------------
  // The invariant
  // ------------------------------------------------------------------

  /** One span after another, the last one being the row's. */
  ghost predicate Ordered(spans: seq<Span>) {
    forall e, f | 0 <= e < f < |spans| :: Apart(spans, e, f)
  }

  ghost predicate Apart(spans: seq<Span>, e: nat, f: nat)
    requires e < |spans| && f < |spans|
  {
    spans[e].end <= spans[f].start
  }

  ghost predicate RowOk(r: Row, spans: seq<Span>, clock: Time) {
    && r.epoch == |spans| && spans != []
    && spans[r.epoch - 1].holder == r.holder
    && spans[r.epoch - 1].start <= clock
    && (spans[r.epoch - 1].end == r.expiresAt || (r.expiresAt < clock && spans[r.epoch - 1].end <= clock))
    && Ordered(spans)
  }

  ghost predicate TokenOk(st: State, t: Token) {
    && 1 <= t.epoch <= |SpansOf(st, t.id)|
    && SpansOf(st, t.id)[t.epoch - 1].holder == t.holder
  }

  ghost predicate Inv(st: State) {
    && st.rows.Keys == st.spans.Keys
    && (forall id | id in st.rows :: RowOk(st.rows[id], st.spans[id], st.clock))
    && (forall t | t in st.tokens :: TokenOk(st, t))
  }

  /** Later states keep every epoch's holder and start, and closed spans entirely. */
  ghost predicate Extends(now: seq<Span>, later: seq<Span>) {
    && |now| <= |later|
    && (forall e | 0 <= e < |now| :: later[e].holder == now[e].holder && later[e].start == now[e].start)
    && (forall e | 0 <= e < |now| - 1 :: later[e] == now[e])
  }

  /** What a statement on row `id` has to keep. */
  ghost predicate Keeps(st: State, st': State, id: Reconciler) {
    Inv(st') && Extends(SpansOf(st, id), SpansOf(st', id))
  }

  /** A statement that touches one row. */
  lemma OneRow(st: State, id: Reconciler, r: Row, spans: seq<Span>, now: Time, tokens: set<Token>)
    requires Inv(st) && st.clock <= now
    requires RowOk(r, spans, now) && Extends(SpansOf(st, id), spans)
    requires forall t | t in tokens :: t in st.tokens || t == Token(id, r.holder, r.epoch)
    ensures Keeps(st, State(st.rows[id := r], now, st.spans[id := spans], tokens), id)
  {
    var st' := State(st.rows[id := r], now, st.spans[id := spans], tokens);
    forall x | x in st'.rows ensures RowOk(st'.rows[x], st'.spans[x], now) {
      if x != id {
        OlderRow(st.rows[x], st.spans[x], st.clock, now);
      }
    }
    forall t | t in tokens ensures TokenOk(st', t) {
      if t in st.tokens {
        assert TokenOk(st, t);
      }
    }
  }

  lemma OlderRow(r: Row, spans: seq<Span>, was: Time, now: Time)
    requires RowOk(r, spans, was) && was <= now
    ensures RowOk(r, spans, now)
  {
  }

  /** A statement that touches none. */
  lemma OnlyClock(st: State, now: Time)
    requires Inv(st) && st.clock <= now
    ensures Inv(st.(clock := now))
  {
    forall x | x in st.rows ensures RowOk(st.rows[x], st.spans[x], now) {
      OlderRow(st.rows[x], st.spans[x], st.clock, now);
    }
    forall t | t in st.tokens ensures TokenOk(st.(clock := now), t) {
      assert TokenOk(st, t);
    }
  }

  /** The row's own span goes on, to a new end. */
  lemma SpanGoesOn(r: Row, spans: seq<Span>, clock: Time, r': Row, end: Time, now: Time)
    requires RowOk(r, spans, clock) && clock <= now
    requires r'.holder == r.holder && r'.epoch == r.epoch
    requires end == r'.expiresAt || (r'.expiresAt < now && end <= now)
    ensures RowOk(r', MoveEnd(spans, end), now) && Extends(spans, MoveEnd(spans, end))
  {
    var spans' := MoveEnd(spans, end);
    forall e, f | 0 <= e < f < |spans'| ensures Apart(spans', e, f) {
      assert Apart(spans, e, f);
    }
  }

  /** A new span starts when the row's own is over. */
  lemma SpanStarts(r: Row, spans: seq<Span>, clock: Time, holder: Holder, ttl: Lease, now: Time)
    requires RowOk(r, spans, clock) && clock <= now && r.expiresAt <= now
    ensures var spans' := spans + [Span(holder, now, now + ttl)];
            RowOk(Row(holder, r.epoch + 1, now, now + ttl), spans', now) && Extends(spans, spans')
  {
    var spans' := spans + [Span(holder, now, now + ttl)];
    var last := |spans| - 1;
    forall e, f | 0 <= e < f < |spans'| ensures Apart(spans', e, f) {
      assert e < last ==> Apart(spans, e, last);
      assert f <= last ==> Apart(spans, e, f);
    }
  }

  lemma FirstAcquire(st: State, id: Reconciler, holder: Holder, ttl: Lease, now: Time)
    requires Inv(st) && st.clock <= now && id !in st.rows
    ensures Keeps(st, AcquireStep(st, id, holder, ttl, now), id)
  {
    var spans := SpansOf(st, id) + [Span(holder, now, now + ttl)];
    assert spans == [Span(holder, now, now + ttl)];
    OneRow(st, id, Row(holder, 1, now, now + ttl), spans, now, st.tokens + {Token(id, holder, 1)});
  }

  lemma Reacquire(st: State, id: Reconciler, holder: Holder, ttl: Lease, now: Time)
    requires Inv(st) && st.clock <= now && KeepsEpoch(st, id, holder, now)
    ensures Keeps(st, AcquireStep(st, id, holder, ttl, now), id)
  {
    var spans, r := SpansOf(st, id), Row(holder, st.rows[id].epoch, now, now + ttl);
    SpanGoesOn(st.rows[id], spans, st.clock, r, now + ttl, now);
    OneRow(st, id, r, MoveEnd(spans, now + ttl), now, st.tokens + {Token(id, holder, r.epoch)});
  }

  lemma TakeOver(st: State, id: Reconciler, holder: Holder, ttl: Lease, now: Time)
    requires Inv(st) && st.clock <= now && id in st.rows && MayAcquire(st, id, holder, now)
    requires !KeepsEpoch(st, id, holder, now)
    ensures Keeps(st, AcquireStep(st, id, holder, ttl, now), id)
  {
    var spans, epoch := SpansOf(st, id), st.rows[id].epoch + 1;
    SpanStarts(st.rows[id], spans, st.clock, holder, ttl, now);
    OneRow(st, id, Row(holder, epoch, now, now + ttl), spans + [Span(holder, now, now + ttl)], now,
           st.tokens + {Token(id, holder, epoch)});
  }

  lemma AcquireKeeps(st: State, id: Reconciler, holder: Holder, ttl: Lease, now: Time)
    requires Inv(st) && st.clock <= now
    ensures Keeps(st, AcquireStep(st, id, holder, ttl, now), id)
  {
    if id !in st.rows {
      FirstAcquire(st, id, holder, ttl, now);
    } else if KeepsEpoch(st, id, holder, now) {
      Reacquire(st, id, holder, ttl, now);
    } else if MayAcquire(st, id, holder, now) {
      TakeOver(st, id, holder, ttl, now);
    } else {
      OnlyClock(st, now);
    }
  }

  lemma RenewKeeps(st: State, id: Reconciler, holder: Holder, ttl: Lease, now: Time)
    requires Inv(st) && st.clock <= now
    ensures Keeps(st, RenewStep(st, id, holder, ttl, now), id)
  {
    if MayRenew(st, id, holder, now) {
      var spans, r := SpansOf(st, id), st.rows[id].(expiresAt := now + ttl);
      SpanGoesOn(st.rows[id], spans, st.clock, r, now + ttl, now);
      OneRow(st, id, r, MoveEnd(spans, now + ttl), now, st.tokens);
    } else {
      OnlyClock(st, now);
    }
  }

  lemma GiveUp(st: State, id: Reconciler, holder: Holder, now: Time)
    requires Inv(st) && st.clock <= now && id in st.rows && st.rows[id].holder == holder
    ensures Keeps(st, ReleaseStep(st, id, holder, now), id)
  {
    assert RowOk(st.rows[id], st.spans[id], st.clock);
    var spans, r := st.spans[id], st.rows[id].(expiresAt := now - OneSecond);
    var end := Sooner(spans[|spans| - 1].end, now);
    SpanGoesOn(st.rows[id], spans, st.clock, r, end, now);
    OneRow(st, id, r, MoveEnd(spans, end), now, st.tokens);
  }

  lemma ReleaseKeeps(st: State, id: Reconciler, holder: Holder, now: Time)
    requires Inv(st) && st.clock <= now
    ensures Keeps(st, ReleaseStep(st, id, holder, now), id)
  {
    if id in st.rows && st.rows[id].holder == holder {
      GiveUp(st, id, holder, now);
    } else {
      OnlyClock(st, now);
    }
  }

  lemma StepKeeps(ttl: Holder -> Lease, st: State, a: Action)
    requires Inv(st)
    ensures Inv(Step(ttl, st, a))
    ensures forall id :: Extends(SpansOf(st, id), SpansOf(Step(ttl, st, a), id))
  {
    if st.clock <= a.now {
      match a
      case Acquire(id, holder, now) => AcquireKeeps(st, id, holder, ttl(holder), now);
      case Renew(id, holder, now) => RenewKeeps(st, id, holder, ttl(holder), now);
      case Release(id, holder, now) => ReleaseKeeps(st, id, holder, now);
    }
  }

  lemma {:induction false} RunKeeps(ttl: Holder -> Lease, st: State, acts: seq<Action>)
    requires Inv(st)
    ensures Inv(Run(ttl, st, acts))
    ensures forall id :: Extends(SpansOf(st, id), SpansOf(Run(ttl, st, acts), id))
    decreases |acts|
  {
    if acts != [] {
      var next := Step(ttl, st, acts[0]);
      StepKeeps(ttl, st, acts[0]);
      RunKeeps(ttl, next, acts[1..]);
      forall id ensures Extends(SpansOf(st, id), SpansOf(Run(ttl, st, acts), id)) {
        ExtendsOnward(SpansOf(st, id), SpansOf(next, id), SpansOf(Run(ttl, st, acts), id));
      }
    }
  }

  lemma ExtendsOnward(a: seq<Span>, b: seq<Span>, c: seq<Span>)
    requires Extends(a, b) && Extends(b, c)
    ensures Extends(a, c)
  {
  }

  // ------------------------------------------------------------------
  // Over every run
  // ------------------------------------------------------------------

  /** Epochs never decrease, and every epoch keeps its holder and its start for good. */
  lemma EpochsOnlyGrow(ttl: Holder -> Lease, acts: seq<Action>, more: seq<Action>, id: Reconciler)
    requires id in Run(ttl, Init, acts).rows
    ensures var st := Run(ttl, Init, acts);
            var later := Run(ttl, st, more);
            && id in later.rows && st.rows[id].epoch <= later.rows[id].epoch
            && Extends(SpansOf(st, id), SpansOf(later, id))
            && (later.rows[id].epoch == st.rows[id].epoch ==> later.rows[id].holder == st.rows[id].holder)
  {
    RunKeeps(ttl, Init, acts);
    RunKeeps(ttl, Run(ttl, Init, acts), more);
  }

  /** All tokens of one epoch belong to one holder. */
  lemma OneHolderPerEpoch(ttl: Holder -> Lease, acts: seq<Action>, t: Token, u: Token)
    requires var st := Run(ttl, Init, acts); t in st.tokens && u in st.tokens
    ensures t.id == u.id && t.epoch == u.epoch ==> t.holder == u.holder
  {
    RunKeeps(ttl, Init, acts);
  }

  /** No two epochs of a reconciler were ever live at the same instant; and a live row is in
      the span of its own epoch, so of no other. */
  lemma LiveWindowsDisjoint(ttl: Holder -> Lease, acts: seq<Action>, id: Reconciler, e: nat, f: nat, t: Time)
    requires var spans := SpansOf(Run(ttl, Init, acts), id); e < f < |spans|
    ensures var st := Run(ttl, Init, acts);
            var spans := SpansOf(st, id);
            && !(spans[e].start <= t < spans[e].end && spans[f].start <= t < spans[f].end)
            && id in st.rows && st.rows[id].epoch == |spans|
            && (st.clock < st.rows[id].expiresAt ==>
                  spans[|spans| - 1].start <= st.clock < spans[|spans| - 1].end == st.rows[id].expiresAt)
  {
    RunKeeps(ttl, Init, acts);
    assert Apart(SpansOf(Run(ttl, Init, acts), id), e, f);
  }

  /** An epoch is raised only once the previous window is over: lapsed, or given up. */
  lemma RaisedOnlyWhenOver(ttl: Holder -> Lease, acts: seq<Action>, a: Action, id: Reconciler)
    requires var st, next := Run(ttl, Init, acts), Step(ttl, Run(ttl, Init, acts), a);
             id in st.rows && id in next.rows && st.rows[id].epoch < next.rows[id].epoch
    ensures var st := Run(ttl, Init, acts);
            var spans := SpansOf(st, id);
            && a.Acquire? && a.id == id && st.rows[id].expiresAt <= a.now
            && spans != [] && spans[|spans| - 1].end <= a.now
            && Step(ttl, st, a).rows[id].epoch == st.rows[id].epoch + 1
  {
    RunKeeps(ttl, Init, acts);
  }

  // ------------------------------------------------------------------
  // The calls
  // ------------------------------------------------------------------

  lemma {:induction false} RunAppend(ttl: Holder -> Lease, st: State, acts: seq<Action>, a: Action)
    ensures Run(ttl, st, acts + [a]) == Step(ttl, Run(ttl, st, acts), a)
    decreases |acts|
  {
    if acts == [] {
      assert acts + [a] == [a] && [a][1..] == [];
    } else {
      assert (acts + [a])[1..] == acts[1..] + [a];
      RunAppend(ttl, Step(ttl, st, acts[0]), acts[1..], a);
    }
  }

  class Leases {
    const ttl: Holder -> Lease
    var st: State
    ghost var acts: seq<Action>

    ghost predicate Valid()
      reads this
    {
      st == Run(ttl, Init, acts)
    }

    constructor (ttl: Holder -> Lease)
      ensures Valid() && st == Init
    {
      this.ttl := ttl;
      st := Init;
      acts := [];
    }

    method Perform(a: Action)
      requires Valid()
      modifies this
      ensures Valid() && st == Step(ttl, old(st), a) && Inv(st)
    {
      RunAppend(ttl, Init, acts, a);
      st := Step(ttl, st, a);
      acts := acts + [a];
      RunKeeps(ttl, Init, acts);
    }

    /** A token means: the caller leads alone from now until the lease runs out, under an epoch
        no other holder ever had. No token means another holder's lease has not lapsed. */
    method AcquireLease(id: Reconciler, holder: Holder, now: Time) returns (token: Option<Token>)
      requires Valid() && st.clock <= now
      modifies this
      ensures Valid()
      ensures token.None? <==> old(id in st.rows && st.rows[id].holder != holder && now <= st.rows[id].expiresAt)
      ensures token.None? ==> st.rows == old(st.rows) && st.tokens == old(st.tokens)
      ensures token.Some? ==>
                && token.value.id == id && token.value.holder == holder && token.value in st.tokens
                && id in st.rows && st.rows[id] == Row(holder, token.value.epoch, now, now + ttl(holder))
                && token.value.epoch == (if id !in old(st.rows) then 1
                                         else if old(st.rows)[id].holder == holder && now < old(st.rows)[id].expiresAt then old(st.rows)[id].epoch
                                         else old(st.rows)[id].epoch + 1)
                && (forall t | t in st.tokens && t.id == id && t.epoch == token.value.epoch :: t.holder == holder)
                && (forall t | t in old(st.tokens) && t.id == id && t.holder != holder :: t.epoch < token.value.epoch)
      ensures forall x | x != id :: (x in st.rows <==> x in old(st.rows)) && (x in st.rows ==> st.rows[x] == old(st.rows)[x])
    {
      ghost var was := st;
      assert Inv(was) by {
        RunKeeps(ttl, Init, acts);
      }
      var got := MayAcquire(st, id, holder, now);
      Perform(Acquire(id, holder, now));
      token := if got then Some(Token(id, holder, st.rows[id].epoch)) else None;
    }

    /** Renewal succeeds exactly for the live holder, and keeps its epoch. */
    method RenewLease(id: Reconciler, holder: Holder, now: Time) returns (ok: bool)
      requires Valid() && st.clock <= now
      modifies this
      ensures Valid()
      ensures ok <==> old(id in st.rows && st.rows[id].holder == holder && now < st.rows[id].expiresAt)
      ensures st.rows == if ok then old(st.rows)[id := old(st.rows)[id].(expiresAt := now + ttl(holder))] else old(st.rows)
      ensures var spans := SpansOf(st, id); ok ==> spans != [] && spans[|spans| - 1].end == now + ttl(holder)
    {
      assert Inv(st) by {
        RunKeeps(ttl, Init, acts);
      }
      ok := MayRenew(st, id, holder, now);
      Perform(Renew(id, holder, now));
    }

    /** After a release nobody leads, and whoever acquires next gets a higher epoch. */
    method ReleaseLease(id: Reconciler, holder: Holder, now: Time)
      requires Valid() && st.clock <= now
      modifies this
      ensures Valid()
      ensures st.rows.Keys == old(st.rows).Keys
      ensures id in st.rows && st.rows[id].holder == holder ==>
                && st.rows[id] == old(st.rows)[id].(expiresAt := now - 1000)
                && forall h, later :: now <= later ==> MayAcquire(st, id, h, later) && !KeepsEpoch(st, id, h, later)
      ensures forall x | x in st.rows && (x != id || st.rows[x].holder != holder) :: st.rows[x] == old(st.rows)[x]
    {
      assert Inv(st) by {
        RunKeeps(ttl, Init, acts);
      }
      Perform(Release(id, holder, now));
    }
  }
}
