/** The MQTT connection's state broadcast, adapters/mqtt/connection.go.

    Writers change the guarded fields under the mutex and broadcast: they close the current state
    channel and install a fresh one. A WaitConnected caller snapshots the fields and the channel
    under the read lock, then sleeps on that channel. The bootstrap outcome is claimed under the
    mutex and sent after it is released. Steps of all goroutines interleave freely. */
module Connection {
  import opened Options

  type Waiter = nat
  type Emitter = nat
  type Channel = nat
  type Error = nat

  datatype Phase = Connecting | Connected | Disconnected

  /** The fields a waiter decides on. */
  datatype View = View(phase: Phase, closed: bool, permanentErr: Option<Error>)

  datatype Verdict = IsClosed | IsRejected(err: Error) | IsConnected | ContextDone

  datatype WaiterPc = AtTop | Asleep(seen: View, on: Channel) | Returned(verdict: Verdict)

  datatype Outcome = Up | Rejected(err: Error)

  datatype EmitterPc = ToClaim(outcome: Outcome) | ToSend(outcome: Outcome) | Finished

  datatype State = State(
    view: View,
    firstUp: bool,
    stateCh: Channel,
    closedChs: set<Channel>,
    waiters: map<Waiter, WaiterPc>,
    firstOutcomeSent: bool,
    emitters: map<Emitter, EmitterPc>,
    outcomeCh: Option<Outcome>,  // the outcome channel, which has room for one
    received: seq<Outcome>,
    dropped: seq<Outcome>)       // what a full channel turned away

  const Init := State(View(Connecting, false, None), false, 0, {}, map[], false, map[], None, [], [])

  datatype Action =
    | ConnectionUp(e: Emitter)
    | ConnectionDown
    | PermanentError(e: Emitter, err: Error)
    | Close
    | Look(w: Waiter)
    | Wake(w: Waiter)
    | Cancel(w: Waiter)
    | Claim(e: Emitter)
    | Send(e: Emitter)
    | Receive

  /** What a waiter answers on the fields it sees; none means: sleep. */
  function Decide(v: View): Option<Verdict> {
    if v.closed then Some(IsClosed)
    else if v.permanentErr.Some? then Some(IsRejected(v.permanentErr.value))
    else if v.phase.Connected? then Some(IsConnected)
    else None
  }

  /** Every change of the fields closes the current channel and installs a fresh one. */
  function Broadcast(st: State, view: View): State {
    st.(view := view, closedChs := st.closedChs + {st.stateCh}, stateCh := st.stateCh + 1)
  }

  function Step(st: State, a: Action): State {
    match a
    case ConnectionUp(e) =>
      if e in st.emitters then st
      else Broadcast(st, st.view.(phase := Connected, permanentErr := None))
           .(firstUp := true, emitters := st.emitters[e := if st.firstUp then Finished else ToClaim(Up)])
    case ConnectionDown => Broadcast(st, st.view.(phase := Disconnected))
    case PermanentError(e, err) =>
      if e in st.emitters then st
      else Broadcast(st, st.view.(permanentErr := Some(err))).(emitters := st.emitters[e := ToClaim(Rejected(err))])
    case Close => if st.view.closed then st else Broadcast(st, st.view.(closed := true))
    case Look(w) =>
      if w in st.waiters && !st.waiters[w].AtTop? then st
      else
        var verdict := Decide(st.view);
        st.(waiters := st.waiters[w := if verdict.Some? then Returned(verdict.value) else Asleep(st.view, st.stateCh)])
    case Wake(w) =>
      if w in st.waiters && st.waiters[w].Asleep? && st.waiters[w].on in st.closedChs then st.(waiters := st.waiters[w := AtTop])
      else st
    case Cancel(w) =>
      if w in st.waiters && st.waiters[w].Asleep? then st.(waiters := st.waiters[w := Returned(ContextDone)]) else st
    case Claim(e) =>
      if e in st.emitters && st.emitters[e].ToClaim? then
        if st.firstOutcomeSent then st.(emitters := st.emitters[e := Finished])
        else st.(firstOutcomeSent := true, emitters := st.emitters[e := ToSend(st.emitters[e].outcome)])
      else st
    case Send(e) =>
      if e in st.emitters && st.emitters[e].ToSend? then
        var outcome, st' := st.emitters[e].outcome, st.(emitters := st.emitters[e := Finished]);
        if st.outcomeCh.None? then st'.(outcomeCh := Some(outcome)) else st'.(dropped := st.dropped + [outcome])
      else st
    case Receive =>
      if st.outcomeCh.Some? then st.(outcomeCh := None, received := st.received + [st.outcomeCh.value]) else st
  }

  function Run(st: State, acts: seq<Action>): State
    decreases |acts|
  {
    if acts == [] then st else Run(Step(st, acts[0]), acts[1..])
  }

  // ------------------------------------------------------------------
  // The invariant
  // ------------------------------------------------------------------

  ghost predicate WaiterOk(st: State, pc: WaiterPc) {
    pc.Asleep? ==>
      && Decide(pc.seen).None?
      && pc.on <= st.stateCh
      && (pc.on !in st.closedChs ==> pc.seen == st.view)
  }

  ghost predicate Waiting(st: State) {
    && (forall ch :: ch in st.closedChs <==> 0 <= ch < st.stateCh)
    && (forall w | w in st.waiters :: WaiterOk(st, st.waiters[w]))
  }

  ghost function Senders(m: map<Emitter, EmitterPc>): set<Emitter> {
    set e | e in m && m[e].ToSend?
  }

  /** Everything that ever was on the outcome channel. */
  function Sent(st: State): seq<Outcome> {
    st.received + if st.outcomeCh.Some? then [st.outcomeCh.value] else []
  }

  /** The one claimed outcome is on its way, on the channel or received. */
  ghost predicate Emitting(st: State) {
    |Senders(st.emitters)| + |Sent(st)| == (if st.firstOutcomeSent then 1 else 0) && st.dropped == []
  }

  lemma StepWaiting(st: State, a: Action)
    requires Waiting(st)
    ensures Waiting(Step(st, a))
  {
    var st' := Step(st, a);
    forall w | w in st'.waiters ensures WaiterOk(st', st'.waiters[w]) {
      if w in st.waiters {
        assert WaiterOk(st, st.waiters[w]);
      }
    }
  }

  lemma OneEmitter(m: map<Emitter, EmitterPc>, e: Emitter, pc: EmitterPc)
    ensures Senders(m[e := pc]) - {e} == Senders(m) - {e}
    ensures e in Senders(m[e := pc]) <==> pc.ToSend?
    ensures pc.ToSend? && e !in Senders(m) ==> |Senders(m[e := pc])| == |Senders(m)| + 1
    ensures !pc.ToSend? && e in Senders(m) ==> |Senders(m[e := pc])| == |Senders(m)| - 1
    ensures !pc.ToSend? && e !in Senders(m) ==> Senders(m[e := pc]) == Senders(m)
  {
    var next := Senders(m[e := pc]);
    assert pc.ToSend? ==> next == Senders(m) + {e};
    assert !pc.ToSend? ==> next == Senders(m) - {e};
  }

  lemma StepEmitting(st: State, a: Action)
    requires Emitting(st)
    ensures Emitting(Step(st, a))
  {
    var st' := Step(st, a);
    if (a.Claim? || a.Send? || a.ConnectionUp? || a.PermanentError?) && st' != st {
      OneEmitter(st.emitters, a.e, st'.emitters[a.e]);
      if a.Send? {
        OnlySender(st, a.e);
      }
    }
  }

  /** An emitter about to send is the only one, and finds the channel unused. */
  lemma OnlySender(st: State, e: Emitter)
    requires Emitting(st) && e in Senders(st.emitters)
    ensures st.firstOutcomeSent && Senders(st.emitters) == {e} && st.outcomeCh == None && st.received == []
  {
    var others := Senders(st.emitters) - {e};
    assert Senders(st.emitters) == others + {e};
  }

  lemma {:induction false} RunKeeps(st: State, acts: seq<Action>)
    requires Waiting(st) && Emitting(st)
    ensures Waiting(Run(st, acts)) && Emitting(Run(st, acts))
    decreases |acts|
  {
    if acts != [] {
      StepWaiting(st, acts[0]);
      StepEmitting(st, acts[0]);
      RunKeeps(Step(st, acts[0]), acts[1..]);
    }
  }

  lemma InitOk()
    ensures Waiting(Init) && Emitting(Init)
  {
    assert Senders(map[]) == {};
  }

  // ------------------------------------------------------------------
  // Over every run
  // ------------------------------------------------------------------

  /** A sleeper whose channel is closed wakes up and returns what the fields say. */
  lemma SleeperReturns(st: State, w: Waiter)
    requires w in st.waiters && st.waiters[w].Asleep? && st.waiters[w].on in st.closedChs && Decide(st.view).Some?
    ensures w in Step(Step(st, Wake(w)), Look(w)).waiters
    ensures Step(Step(st, Wake(w)), Look(w)).waiters[w] == Returned(Decide(st.view).value)
  {
    assert Step(st, Wake(w)) == st.(waiters := st.waiters[w := AtTop]);
  }

  lemma SleeperIsCurrent(st: State, w: Waiter)
    requires Waiting(st) && w in st.waiters && st.waiters[w].Asleep?
    ensures st.waiters[w].on !in st.closedChs ==> st.waiters[w].seen == st.view && st.waiters[w].on == st.stateCh
    ensures Decide(st.view).Some? ==> st.waiters[w].on in st.closedChs
  {
    assert WaiterOk(st, st.waiters[w]);
  }

  /** A sleeper whose channel is still open looked at the current fields. So once the connection
      is up, closed or rejected, every sleeper's channel is closed, and its next two steps return
      exactly that. */
  lemma NoLostWakeUp(acts: seq<Action>, w: Waiter)
    requires var st := Run(Init, acts); w in st.waiters && st.waiters[w].Asleep?
    ensures var st := Run(Init, acts);
            && (st.waiters[w].on !in st.closedChs ==>
                  st.waiters[w].seen == st.view && st.waiters[w].on == st.stateCh && Step(st, Wake(w)) == st)
            && (Decide(st.view).Some? ==>
                  && st.waiters[w].on in st.closedChs
                  && w in Step(Step(st, Wake(w)), Look(w)).waiters
                  && Step(Step(st, Wake(w)), Look(w)).waiters[w] == Returned(Decide(st.view).value))
  {
    InitOk();
    RunKeeps(Init, acts);
    var st := Run(Init, acts);
    SleeperIsCurrent(st, w);
    if Decide(st.view).Some? {
      SleeperReturns(st, w);
    }
  }

  /** What a caller was told stays what it was told. */
  lemma {:induction false} ReturnedStays(st: State, acts: seq<Action>, w: Waiter)
    requires w in st.waiters && st.waiters[w].Returned?
    ensures w in Run(st, acts).waiters && Run(st, acts).waiters[w] == st.waiters[w]
    decreases |acts|
  {
    if acts != [] {
      ReturnedStays(Step(st, acts[0]), acts[1..], w);
    }
  }

  /** At most one bootstrap outcome is ever on the channel, and none is dropped. */
  lemma OutcomeSentOnce(acts: seq<Action>)
    ensures var st := Run(Init, acts);
            && |Sent(st)| <= 1 && st.dropped == []
            && (Sent(st) != [] ==> st.firstOutcomeSent)
  {
    InitOk();
    RunKeeps(Init, acts);
  }

  /** The emitter that claimed is about to send `outcome`, or that is what was sent. */
  ghost predicate Delivers(st: State, e: Emitter, outcome: Outcome) {
    && Emitting(st) && st.firstOutcomeSent && e in st.emitters
    && (st.emitters[e] == ToSend(outcome) || (st.emitters[e].Finished? && Sent(st) == [outcome]))
  }

  lemma StepDelivers(st: State, a: Action, e: Emitter, outcome: Outcome)
    requires Delivers(st, e, outcome)
    ensures Delivers(Step(st, a), e, outcome)
  {
    StepEmitting(st, a);
    if st.emitters[e].ToSend? {
      OnlySender(st, e);
    }
    if a.Send? && a.e in Senders(st.emitters) {
      OnlySender(st, a.e);
    }
  }

  lemma {:induction false} RunDelivers(st: State, acts: seq<Action>, e: Emitter, outcome: Outcome)
    requires Delivers(st, e, outcome)
    ensures Delivers(Run(st, acts), e, outcome)
    decreases |acts|
  {
    if acts != [] {
      StepDelivers(st, acts[0], e, outcome);
      RunDelivers(Step(st, acts[0]), acts[1..], e, outcome);
    }
  }

  /** The outcome of the first claim is the one that is received, whatever the others do: once its
      emitter has sent, it is all that ever was on the channel. */
  lemma ClaimIsDelivered(acts: seq<Action>, after: seq<Action>, e: Emitter)
    requires var st := Run(Init, acts); e in st.emitters && st.emitters[e].ToSend?
    ensures var st := Run(Init, acts);
            var later := Run(st, after);
            && e in later.emitters && later.dropped == []
            && Sent(later) == if later.emitters[e].ToSend? then [] else [st.emitters[e].outcome]
  {
    InitOk();
    RunKeeps(Init, acts);
    var st := Run(Init, acts);
    assert e in Senders(st.emitters);
    OnlySender(st, e);
    RunDelivers(st, after, e, st.emitters[e].outcome);
    var later := Run(st, after);
    if later.emitters[e].ToSend? {
      assert e in Senders(later.emitters);
      OnlySender(later, e);
    }
  }

  /** After Close, every caller that looks again is told so, whatever else happens. */
  lemma {:induction false} ClosedForGood(st: State, acts: seq<Action>, w: Waiter)
    requires st.view.closed
    ensures var later := Run(st, acts);
            && later.view.closed
            && (w !in later.waiters || later.waiters[w].AtTop? ==> Step(later, Look(w)).waiters[w] == Returned(IsClosed))
    decreases |acts|
  {
    if acts != [] {
      ClosedForGood(Step(st, acts[0]), acts[1..], w);
    }
  }

  // ------------------------------------------------------------------
  // The calls
  // ------------------------------------------------------------------

  datatype Event = CallerDone | Elsewhere(action: Action)

  lemma {:induction false} RunAppend(st: State, acts: seq<Action>, a: Action)
    ensures Run(st, acts + [a]) == Step(Run(st, acts), a)
    decreases |acts|
  {
    if acts == [] {
      assert acts + [a] == [a] && [a][1..] == [];
    } else {
      assert (acts + [a])[1..] == acts[1..] + [a];
      RunAppend(Step(st, acts[0]), acts[1..], a);
    }
  }

  predicate OfWaiter(a: Action, w: Waiter) {
    (a.Look? || a.Wake? || a.Cancel?) && a.w == w
  }

  /** What a caller is told, in the fields: closed comes first, then a rejection, then connected. */
  ghost predicate Says(v: View, verdict: Option<Verdict>) {
    && (verdict == Some(IsClosed) <==> v.closed)
    && (forall err: Error :: verdict == Some(IsRejected(err)) <==> !v.closed && v.permanentErr == Some(err))
    && (verdict == Some(IsConnected) <==> !v.closed && v.permanentErr == None && v.phase == Connected)
    && (verdict == None <==> !v.closed && v.permanentErr == None && v.phase != Connected)
  }

  lemma DecideInFields(v: View)
    ensures Says(v, Decide(v))
  {
  }

  class Client {
    var st: State
    ghost var acts: seq<Action>

    ghost predicate Valid()
      reads this
    {
      st == Run(Init, acts)
    }

    constructor ()
      ensures Valid() && st == Init
      ensures st.view == View(Connecting, false, None) && st.outcomeCh == None && !st.firstUp && !st.firstOutcomeSent
    {
      st := Init;
      acts := [];
    }

    method Perform(a: Action)
      requires Valid()
      modifies this
      ensures Valid() && st == Step(old(st), a)
    {
      RunAppend(Init, acts, a);
      st := Step(st, a);
      acts := acts + [a];
    }

    /** Unless it is closed, whoever looks now is told that the connection is up; an earlier
        rejection is forgotten. Only the first time an outcome is to be emitted. */
    method OnConnectionUp(e: Emitter)
      requires Valid() && e !in st.emitters
      modifies this
      ensures Valid() && old(st.stateCh) in st.closedChs && st.firstUp && e in st.emitters
      ensures Decide(st.view) == Some(if old(st.view.closed) then IsClosed else IsConnected)
      ensures st.view == old(st.view).(phase := Connected, permanentErr := None)
      ensures st.emitters[e] == if old(st.firstUp) then Finished else ToClaim(Up)
    {
      Perform(ConnectionUp(e));
    }

    /** Callers wait again, unless the connection is closed or was rejected. */
    method OnConnectionDown()
      requires Valid()
      modifies this
      ensures Valid() && old(st.stateCh) in st.closedChs
      ensures Decide(st.view).None? <==> !old(st.view.closed) && old(st.view.permanentErr).None?
      ensures Decide(st.view) != Some(IsConnected)
      ensures st.view == old(st.view).(phase := Disconnected) && st.emitters == old(st.emitters)
    {
      Perform(ConnectionDown);
    }

    /** A permanent rejection is what callers are told until the connection is up or closed. */
    method RecordPermanent(e: Emitter, err: Error)
      requires Valid() && e !in st.emitters
      modifies this
      ensures Valid() && old(st.stateCh) in st.closedChs && e in st.emitters && st.emitters[e] == ToClaim(Rejected(err))
      ensures Decide(st.view) == Some(if old(st.view.closed) then IsClosed else IsRejected(err))
      ensures st.view == old(st.view).(permanentErr := Some(err))
    {
      Perform(PermanentError(e, err));
    }

    /** Shutting down twice is the same as once. */
    method Shut()
      requires Valid()
      modifies this
      ensures Valid() && st.view == old(st.view).(closed := true)
      ensures old(st.view.closed) ==> st == old(st)
      ensures !old(st.view.closed) ==> old(st.stateCh) in st.closedChs
    {
      Perform(Close);
    }

    /** Claims the right to send, then sends outside the lock; the first caller's outcome is the
        one that is sent, every other call does nothing. */
    method EmitFirstOutcome(e: Emitter)
      requires Valid() && e in st.emitters && st.emitters[e].ToClaim?
      modifies this
      ensures Valid() && st.firstOutcomeSent && st.dropped == [] && st.received == old(st.received)
      ensures old(st.firstOutcomeSent) ==> st.outcomeCh == old(st.outcomeCh)
      ensures !old(st.firstOutcomeSent) ==> Sent(old(st)) == [] && st.outcomeCh == Some(old(st.emitters[e].outcome))
    {
      OutcomeSentOnce(acts);
      Perform(Claim(e));
      Perform(Send(e));
      OutcomeSentOnce(acts);
    }

    /** Returns what the fields say at the moment it last looked; if it is still asleep after
        everything that happened, then the connection is neither up, closed nor rejected. */
    method WaitConnected(w: Waiter, events: seq<Event>) returns (verdict: Option<Verdict>)
      requires Valid() && w !in st.waiters
      requires forall i | 0 <= i < |events| && events[i].Elsewhere? :: !OfWaiter(events[i].action, w)
      modifies this
      ensures Valid() && w in st.waiters
      ensures verdict.None? ==> Decide(st.view).None? && st.waiters[w].Asleep?
      ensures verdict.Some? ==> st.waiters[w] == Returned(verdict.value)
      ensures verdict.Some? && verdict.value != ContextDone ==> verdict == Decide(st.view)
      ensures verdict != Some(ContextDone) ==> Says(st.view, verdict)
      ensures verdict == Some(ContextDone) ==> CallerDone in events && Says(st.view, None)
    {
      forall v: View ensures Says(v, Decide(v)) {
        DecideInFields(v);
      }
      Perform(Look(w));
      if st.waiters[w].Returned? {
        return Some(st.waiters[w].verdict);
      }
      for i := 0 to |events|
        invariant Valid() && w in st.waiters && st.waiters[w].Asleep?
        invariant Decide(st.view).None?
      {
        if events[i].CallerDone? {
          Perform(Cancel(w));
          return Some(ContextDone);
        }
        verdict := AfterEvent(w, events[i].action);
        if verdict.Some? {
          return;
        }
      }
      return None;
    }

    /** Something happens elsewhere; if it closed our channel, look again. */
    method AfterEvent(w: Waiter, a: Action) returns (verdict: Option<Verdict>)
      requires Valid() && w in st.waiters && st.waiters[w].Asleep? && !OfWaiter(a, w)
      modifies this
      ensures Valid() && w in st.waiters && verdict == Decide(st.view)
      ensures if verdict.None? then st.waiters[w].Asleep? else st.waiters[w] == Returned(verdict.value)
    {
      Happen(w, a);
      NoLostWakeUp(acts, w);
      if st.waiters[w].on in st.closedChs {
        Perform(Wake(w));
        Perform(Look(w));
      }
      verdict := if st.waiters[w].Returned? then Some(st.waiters[w].verdict) else None;
    }

    method Happen(w: Waiter, a: Action)
      requires Valid() && w in st.waiters && !OfWaiter(a, w)
      modifies this
      ensures Valid() && w in st.waiters && st.waiters[w] == old(st.waiters[w])
    {
      Perform(a);
    }
  }
}
