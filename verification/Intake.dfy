/** MQTT intake and its drain, adapters/mqtt/subscriber.go.

    A delivery callback and its worker are one program counter each; so is every StopIntake
    call. The counter, the worker semaphore and the stop channel are shared, each touched by one
    atomic step at a time, in any interleaving. Where a select finds both a free slot and the
    stop signal, either may be taken. */
module Intake {
  type Delivery = nat
  type Stopper = nat

  /** Where a delivery stands. Counted deliveries that are not yet Gone make up the in-flight count. */
  datatype Pc =
    | Counted    // the count was raised; stop not looked at yet
    | Checked    // stop was not set; waiting for a slot or for stop
    | Dropping   // stop was set; will not be processed or acknowledged
    | Acquired   // has a slot; worker not started
    | Running    // the handler runs
    | Freeing    // the handler returned
    | Freed      // the slot is free again, the count not lowered yet
    | Gone

  datatype StopPc = Polling | ReturnedNil | ReturnedError

  datatype State = State(
    stopped: bool,
    inflight: int,
    slots: int,
    deliveries: map<Delivery, Pc>,
    stops: map<Stopper, StopPc>,
    handled: seq<Delivery>)  // handlers started, in order

  const Init := State(false, 0, 0, map[], map[], [])

  datatype Action =
    | Arrive(d: Delivery)
    | Check(d: Delivery)
    | Acquire(d: Delivery)
    | Abandon(d: Delivery)
    | Drop(d: Delivery)
    | StartHandler(d: Delivery)
    | HandlerReturns(d: Delivery)
    | FreeSlot(d: Delivery)
    | Lower(d: Delivery)
    | CloseIntake(s: Stopper)
    | Poll(s: Stopper)
    | GiveUp(s: Stopper)

  function Move(st: State, d: Delivery, from: Pc, to: Pc): State {
    if d in st.deliveries && st.deliveries[d] == from then st.(deliveries := st.deliveries[d := to]) else st
  }

  predicate At(st: State, d: Delivery, pc: Pc) {
    d in st.deliveries && st.deliveries[d] == pc
  }

  function Step(cap: nat, st: State, a: Action): State {
    match a
    case Arrive(d) =>
      if d in st.deliveries then st
      else st.(inflight := st.inflight + 1, deliveries := st.deliveries[d := Counted])
    case Check(d) => Move(st, d, Counted, if st.stopped then Dropping else Checked)
    case Acquire(d) =>
      if At(st, d, Checked) && st.slots < cap then Move(st.(slots := st.slots + 1), d, Checked, Acquired) else st
    case Abandon(d) => if st.stopped then Move(st, d, Checked, Dropping) else st
    case Drop(d) =>
      if At(st, d, Dropping) then Move(st.(inflight := st.inflight - 1), d, Dropping, Gone) else st
    case StartHandler(d) =>
      if At(st, d, Acquired) then Move(st.(handled := st.handled + [d]), d, Acquired, Running) else st
    case HandlerReturns(d) => Move(st, d, Running, Freeing)
    case FreeSlot(d) =>
      if At(st, d, Freeing) then Move(st.(slots := st.slots - 1), d, Freeing, Freed) else st
    case Lower(d) =>
      if At(st, d, Freed) then Move(st.(inflight := st.inflight - 1), d, Freed, Gone) else st
    case CloseIntake(s) =>
      if s in st.stops then st else st.(stopped := true, stops := st.stops[s := Polling])
    case Poll(s) =>
      if s in st.stops && st.stops[s].Polling? && st.inflight == 0 then st.(stops := st.stops[s := ReturnedNil]) else st
    case GiveUp(s) =>
      if s in st.stops && st.stops[s].Polling? then st.(stops := st.stops[s := ReturnedError]) else st
  }

  function Run(cap: nat, st: State, acts: seq<Action>): State
    decreases |acts|
  {
    if acts == [] then st else Run(cap, Step(cap, st, acts[0]), acts[1..])
  }

  // ------------------------------------------------------------------
  // The invariant
  // ------------------------------------------------------------------

  predicate HoldsSlot(pc: Pc) {
    pc.Acquired? || pc.Running? || pc.Freeing?
  }

  ghost function Live(m: map<Delivery, Pc>): set<Delivery> {
    set d | d in m && !m[d].Gone?
  }

  ghost function Holders(m: map<Delivery, Pc>): set<Delivery> {
    set d | d in m && HoldsSlot(m[d])
  }

  /** The delivery can only be dropped, or is over. */
  predicate Harmless(pc: Pc) {
    pc.Counted? || pc.Dropping? || pc.Gone?
  }

  ghost predicate SomeStopReturnedNil(st: State) {
    exists s | s in st.stops :: st.stops[s].ReturnedNil?
  }

  ghost predicate Inv(cap: nat, st: State) {
    Exact(cap, st) && Quiet(st)
  }

  function One(b: bool): int {
    if b then 1 else 0
  }

  lemma Swap(was: set<Delivery>, next: set<Delivery>, d: Delivery)
    requires forall x | x != d :: x in was <==> x in next
    ensures |next| == |was| - One(d in was) + One(d in next)
  {
    assert next - {d} == was - {d};
    assert d in was ==> was == was - {d} + {d};
    assert d in next ==> next == next - {d} + {d};
  }

  /** One delivery moves: each count changes by what that delivery contributes. */
  lemma MovesOne(m: map<Delivery, Pc>, d: Delivery, pc: Pc)
    ensures |Live(m[d := pc])| == |Live(m)| - One(d in m && !m[d].Gone?) + One(!pc.Gone?)
    ensures |Holders(m[d := pc])| == |Holders(m)| - One(d in m && HoldsSlot(m[d])) + One(HoldsSlot(pc))
  {
    Swap(Live(m), Live(m[d := pc]), d);
    Swap(Holders(m), Holders(m[d := pc]), d);
  }

  lemma NoneLive(m: map<Delivery, Pc>)
    requires |Live(m)| == 0
    ensures forall d | d in m :: m[d].Gone?
  {
    forall d | d in m ensures m[d].Gone? {
      assert d in Live(m) ==> Live(m) != {};
    }
  }

  /** The two counts are exact. */
  ghost predicate Exact(cap: nat, st: State) {
    st.inflight == |Live(st.deliveries)| && st.slots == |Holders(st.deliveries)| <= cap
  }

  lemma StepExact(cap: nat, st: State, a: Action)
    requires Exact(cap, st)
    ensures Exact(cap, Step(cap, st, a))
  {
    var st' := Step(cap, st, a);
    if st'.deliveries != st.deliveries {
      var m, d, pc := st.deliveries, a.d, st'.deliveries[a.d];
      assert st'.deliveries == m[d := pc];
      MovesOne(m, d, pc);
    }
  }

  /** After a nil return nothing goes past the check. */
  ghost predicate Quiet(st: State) {
    && (st.stops != map[] ==> st.stopped)
    && (SomeStopReturnedNil(st) ==> forall d | d in st.deliveries :: Harmless(st.deliveries[d]))
  }

  lemma StepQuiet(cap: nat, st: State, a: Action)
    requires Exact(cap, st) && Quiet(st)
    ensures Quiet(Step(cap, st, a))
  {
    var st' := Step(cap, st, a);
    if a.Poll? {
      if st' != st {
        NoneLive(st.deliveries);
      }
    } else if SomeStopReturnedNil(st') {
      var s :| s in st'.stops && st'.stops[s].ReturnedNil?;
      assert s in st.stops && st.stops[s].ReturnedNil?;
    }
  }

  lemma StepKeeps(cap: nat, st: State, a: Action)
    requires Inv(cap, st)
    ensures Inv(cap, Step(cap, st, a))
  {
    StepExact(cap, st, a);
    StepQuiet(cap, st, a);
  }

  lemma {:induction false} RunKeeps(cap: nat, st: State, acts: seq<Action>)
    requires Inv(cap, st)
    ensures Inv(cap, Run(cap, st, acts))
    decreases |acts|
  {
    if acts != [] {
      StepKeeps(cap, st, acts[0]);
      RunKeeps(cap, Step(cap, st, acts[0]), acts[1..]);
    }
  }

  // ------------------------------------------------------------------
  // Over every run
  // ------------------------------------------------------------------

  ghost predicate NoHandlerRuns(st: State) {
    forall d | d in st.deliveries :: !st.deliveries[d].Running?
  }

  lemma StepAfterNil(cap: nat, st: State, a: Action)
    requires Inv(cap, st) && SomeStopReturnedNil(st)
    ensures SomeStopReturnedNil(Step(cap, st, a)) && Step(cap, st, a).handled == st.handled
  {
    var s :| s in st.stops && st.stops[s].ReturnedNil?;
    var st' := Step(cap, st, a);
    assert s in st'.stops && st'.stops[s].ReturnedNil?;
  }

  lemma {:induction false} RunAfterNil(cap: nat, st: State, more: seq<Action>)
    requires Inv(cap, st) && SomeStopReturnedNil(st)
    ensures var later := Run(cap, st, more);
            SomeStopReturnedNil(later) && later.handled == st.handled && NoHandlerRuns(later)
    decreases |more|
  {
    if more != [] {
      StepKeeps(cap, st, more[0]);
      StepAfterNil(cap, st, more[0]);
      RunAfterNil(cap, Step(cap, st, more[0]), more[1..]);
    }
  }

  lemma InitInv(cap: nat)
    ensures Inv(cap, Init)
  {
    assert Live(map[]) == {} && Holders(map[]) == {};
  }

  /** Once a StopIntake returned nil, no handler runs, and none ever starts again. */
  lemma DrainIsFinal(cap: nat, acts: seq<Action>, more: seq<Action>)
    requires SomeStopReturnedNil(Run(cap, Init, acts))
    ensures var st := Run(cap, Init, acts);
            var later := Run(cap, st, more);
            NoHandlerRuns(st) && NoHandlerRuns(later) && later.handled == st.handled
  {
    InitInv(cap);
    RunKeeps(cap, Init, acts);
    RunAfterNil(cap, Run(cap, Init, acts), more);
    RunAfterNil(cap, Run(cap, Init, acts), []);
  }

  /** What a StopIntake has returned stays what it returned, and the intake stays closed. */
  lemma {:induction false} StopIsFinal(cap: nat, st: State, acts: seq<Action>, s: Stopper)
    requires st.stopped && s in st.stops && !st.stops[s].Polling?
    ensures var later := Run(cap, st, acts); later.stopped && s in later.stops && later.stops[s] == st.stops[s]
    decreases |acts|
  {
    if acts != [] {
      StopIsFinal(cap, Step(cap, st, acts[0]), acts[1..], s);
    }
  }

  /** Running handlers are among the slot holders, which are as many as the semaphore counts,
      never more than its capacity; and the count is zero only when every delivery is over. */
  lemma CountsAreExact(cap: nat, acts: seq<Action>)
    ensures var st := Run(cap, Init, acts);
            && st.inflight == |Live(st.deliveries)|
            && st.slots == |Holders(st.deliveries)| <= cap
            && (forall d | d in st.deliveries && st.deliveries[d].Running? :: d in Holders(st.deliveries))
            && (st.inflight == 0 <==> forall d | d in st.deliveries :: st.deliveries[d].Gone?)
  {
    InitInv(cap);
    RunKeeps(cap, Init, acts);
    var m := Run(cap, Init, acts).deliveries;
    if |Live(m)| == 0 {
      NoneLive(m);
    } else {
      assert Live(m) != {};
      var d :| d in Live(m);
    }
  }

  lemma {:induction false} RunSplits(cap: nat, st: State, xs: seq<Action>, ys: seq<Action>)
    ensures Run(cap, st, xs + ys) == Run(cap, Run(cap, st, xs), ys)
    decreases |xs|
  {
    if xs == [] {
      assert xs + ys == ys;
    } else {
      assert (xs + ys)[0] == xs[0] && (xs + ys)[1..] == xs[1..] + ys;
      RunSplits(cap, Step(cap, st, xs[0]), xs[1..], ys);
    }
  }

  // ------------------------------------------------------------------
  // The calls
  // ------------------------------------------------------------------

  /** What wakes the drain loop: its own timer, the drain budget or the context; in between,
      other goroutines take steps. */
  datatype Event = Tick | DrainTimeout | ContextDone | Elsewhere(action: Action)

  datatype StopResult = Drained | TimedOut | Cancelled | StillPolling

  datatype Receipt = Dropped | Dispatched | Blocked

  /** Steps of others leave a delivery where it is, and never reopen the intake. */
  lemma StepElsewhere(cap: nat, st: State, a: Action, d: Delivery)
    requires !OfDelivery(a, d)
    ensures var st' := Step(cap, st, a);
            && (d in st.deliveries ==> d in st'.deliveries && st'.deliveries[d] == st.deliveries[d])
            && (st.stopped ==> st'.stopped)
  {
  }

  class Subscriber {
    const cap: nat
    var st: State
    ghost var acts: seq<Action>

    ghost predicate Valid()
      reads this
    {
      st == Run(cap, Init, acts)
    }

    constructor (cap: nat)
      ensures Valid() && st == Init && this.cap == cap
    {
      this.cap := cap;
      st := Init;
      acts := [];
    }

    method Perform(a: Action)
      requires Valid()
      modifies this
      ensures Valid() && st == Step(cap, old(st), a)
    {
      RunSplits(cap, Init, acts, [a]);
      assert [a][1..] == [];
      st := Step(cap, st, a);
      acts := acts + [a];
    }

    method PerformAll(others: seq<Action>, d: Delivery)
      requires Valid() && forall i | 0 <= i < |others| :: !OfDelivery(others[i], d)
      modifies this
      ensures Valid()
      ensures d in old(st.deliveries) ==> d in st.deliveries && st.deliveries[d] == old(st.deliveries[d])
      ensures old(st.stopped) ==> st.stopped
    {
      for i := 0 to |others|
        invariant Valid()
        invariant d in old(st.deliveries) ==> d in st.deliveries && st.deliveries[d] == old(st.deliveries[d])
        invariant old(st.stopped) ==> st.stopped
      {
        StepElsewhere(cap, st, others[i], d);
        Perform(others[i]);
      }
    }

    /** The delivery callback: counts first, looks at the stop signal next, then takes a slot
        or gives way to the stop signal. A delivery that arrives after the stop is dropped. */
    method Receive(d: Delivery, before: seq<Action>, between: seq<Action>, preferSlot: bool) returns (r: Receipt)
      requires Valid() && d !in st.deliveries
      requires forall i | 0 <= i < |before| :: !OfDelivery(before[i], d)
      requires forall i | 0 <= i < |between| :: !OfDelivery(between[i], d)
      modifies this
      ensures Valid() && d in st.deliveries
      ensures r == Dropped <==> st.deliveries[d].Gone?
      ensures r == Dispatched <==> st.deliveries[d].Acquired?
      ensures r == Blocked ==> st.deliveries[d].Checked? && st.slots >= cap && !st.stopped
      ensures old(st.stopped) ==> r == Dropped
      ensures r == Dropped ==> st.stopped
    {
      Perform(Arrive(d));
      PerformAll(before, d);
      Perform(Check(d));
      if st.deliveries[d].Dropping? {
        Perform(Drop(d));
        return Dropped;
      }
      PerformAll(between, d);
      if st.slots < cap && (preferSlot || !st.stopped) {
        Perform(Acquire(d));
        return Dispatched;
      }
      if st.stopped {
        Perform(Abandon(d));
        Perform(Drop(d));
        return Dropped;
      }
      return Blocked;
    }

    /** The worker of a dispatched delivery: the handler runs once, then the slot and the count are
        given back, and the delivery is over. */
    method Work(d: Delivery)
      requires Valid() && d in st.deliveries && st.deliveries[d].Acquired?
      modifies this
      ensures Valid()
      ensures st == old(st).(deliveries := old(st.deliveries)[d := Gone], handled := old(st.handled) + [d],
                             slots := old(st.slots) - 1, inflight := old(st.inflight) - 1)
    {
      Perform(StartHandler(d));
      assert st.deliveries[d].Running?;
      Perform(HandlerReturns(d));
      assert st.deliveries[d].Freeing?;
      Perform(FreeSlot(d));
      assert st.deliveries[d].Freed?;
      Perform(Lower(d));
      assert st.deliveries == old(st.deliveries)[d := Gone];
    }

    /** Closes the intake and polls the count. `Drained` means: no handler runs now. It is returned
        at once if no delivery is under way, and at the next tick after the last is over. */
    method StopIntake(s: Stopper, events: seq<Event>) returns (r: StopResult)
      requires Valid() && s !in st.stops
      requires forall i | 0 <= i < |events| :: events[i].Elsewhere? ==> !OfStopper(events[i].action, s)
      modifies this
      ensures Valid() && st.stopped
      ensures r == Drained <==> s in st.stops && st.stops[s].ReturnedNil?
      ensures r == Drained ==> NoHandlerRuns(st) && forall d | d in st.deliveries :: st.deliveries[d].Gone?
      ensures r == StillPolling ==> s in st.stops && st.stops[s].Polling?
      ensures (forall d | d in old(st.deliveries) :: old(st.deliveries)[d].Gone?) ==> r == Drained
      ensures r == StillPolling && events != [] && events[|events| - 1].Tick? ==> exists d | d in st.deliveries :: !st.deliveries[d].Gone?
      ensures r == StillPolling ==> forall i | 0 <= i < |events| :: events[i].Tick? || events[i].Elsewhere?
      ensures r == TimedOut ==> DrainTimeout in events
      ensures r == Cancelled ==> ContextDone in events
    {
      Perform(CloseIntake(s));
      var done := TryFinish(s);
      if done {
        return Drained;
      }
      for i := 0 to |events|
        invariant Valid() && st.stopped && s in st.stops && st.stops[s].Polling?
        invariant forall j | 0 <= j < i :: events[j].Tick? || events[j].Elsewhere?
        invariant i > 0 && events[i - 1].Tick? ==> exists d | d in st.deliveries :: !st.deliveries[d].Gone?
      {
        match events[i]
        case Tick =>
          done := TryFinish(s);
          if done {
            return Drained;
          }
        case DrainTimeout =>
          Leave(s);
          return TimedOut;
        case ContextDone =>
          Leave(s);
          return Cancelled;
        case Elsewhere(action) =>
          Happen(s, action);
      }
      return StillPolling;
    }

    method Happen(s: Stopper, a: Action)
      requires Valid() && s in st.stops && st.stopped && !OfStopper(a, s)
      modifies this
      ensures Valid() && st.stopped && s in st.stops && st.stops[s] == old(st.stops[s])
    {
      Perform(a);
    }

    /** The time for polling is over. */
    method Leave(s: Stopper)
      requires Valid() && s in st.stops && st.stops[s].Polling? && st.stopped
      modifies this
      ensures Valid() && st.stopped && s in st.stops && !st.stops[s].Polling? && !st.stops[s].ReturnedNil?
    {
      Perform(GiveUp(s));
    }

    method TryFinish(s: Stopper) returns (done: bool)
      requires Valid() && s in st.stops && st.stops[s].Polling?
      modifies this
      ensures Valid() && st.stopped == old(st.stopped) && s in st.stops
      ensures done <==> st.stops[s].ReturnedNil?
      ensures done ==> NoHandlerRuns(st) && forall d | d in st.deliveries :: st.deliveries[d].Gone?
      ensures !done ==> st == old(st) && exists d | d in st.deliveries :: !st.deliveries[d].Gone?
    {
      CountsAreExact(cap, acts);
      done := st.inflight == 0;
      Perform(Poll(s));
    }
  }

  predicate OfDelivery(a: Action, d: Delivery) {
    !a.CloseIntake? && !a.Poll? && !a.GiveUp? && a.d == d
  }

  predicate OfStopper(a: Action, s: Stopper) {
    (a.CloseIntake? || a.Poll? || a.GiveUp?) && a.s == s
  }
}
