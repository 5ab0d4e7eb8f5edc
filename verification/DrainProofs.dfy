/** What holds in every run of the drain protocol. */
module DrainProofs {
  import opened Wrappers
  import opened Tracker
  import opened Drain
  import Transport

  // ---------- Counting ----------

  function Live(guards: map<nat, Guard>, kind: Kind): set<nat> {
    set g | g in guards && guards[g].kind == kind
  }

  /** The tracker's counts are exactly the numbers of live guards of each kind. */
  ghost predicate Counted(w: World) {
    && (forall g :: g in w.guards ==> g < w.next)
    && w.inner.requests == |Live(w.guards, RequestWork)|
    && w.inner.background == |Live(w.guards, BackgroundWork)|
  }

  /** Once release has been granted nothing is counted and nothing is live. */
  predicate Sealed(w: World) {
    && (Closing(w.inner) <==> w.passedRelease)
    && (Closing(w.inner) ==> w.guards == map[] && Empty(w.inner))
    && (w.signal ==> w.passedRelease)
    && (forall g :: g in w.guards ==> Placed(w.guards[g].place, w.conns))
    && (w.maintainer.Working? ==> At(w, w.maintainer.guard, Upkeep))
  }

  /** Request work belongs to a known connection; a closed connection has none parked. */
  predicate Placed(p: Place, conns: map<nat, Conn>) {
    match p
    case Handler(c) => c in conns
    case Body(c) => c in conns
    case Parked(c) => c in conns && !conns[c].closed
    case _ => true
  }

  /** Where the run task has got to, and what it must have seen on the way. */
  predicate Ordered(w: World) {
    && (w.manager == Listening ==> !w.passedRelease)
    && (w.manager == Granted || w.manager == Awaiting || w.manager.Answered? ==> w.passedRelease)
    && (w.runner in {Joining, Checking, ClosingDb, Marking, Reporting(true), Reported(true)} ==>
         w.signal && AllDropped(w.conns))
    && (w.runner in {Checking, ClosingDb, Marking, Reporting(true), Reported(true)} ==> w.maintainer == Ended(true))
    && (w.runner in {ClosingDb, Marking, Reporting(true), Reported(true)} ==> w.sawClean)
    && (w.sawClean ==> w.passedRelease && w.maintainer == Ended(true) && w.runner != ServingHttp)
    && (w.sawClean ==> AllDropped(w.conns) && !w.inner.failed)
    && (w.runner in {Marking, Reporting(true), Reported(true)} ==> w.dbClosed)
    && (w.runner in {Reporting(true), Reported(true)} ==> w.inner.phase == Released)
    && (w.manager == Answered(true) ==> w.runner == Reported(true))
  }

  ghost predicate WInv(w: World) {
    Counted(w) && Sealed(w) && Ordered(w)
  }

  lemma LiveAdded(guards: map<nat, Guard>, n: nat, g: Guard, kind: Kind)
    requires n !in guards
    ensures |Live(guards[n := g], kind)| == |Live(guards, kind)| + if g.kind == kind then 1 else 0
  {
    var before, after := Live(guards, kind), Live(guards[n := g], kind);
    assert n !in before;
    assert after == if g.kind == kind then before + {n} else before;
  }

  lemma AddCounts(w: World, g: Guard)
    requires Counted(w)
    ensures Counted(Add(w, g))
  {
    LiveAdded(w.guards, w.next, g, RequestWork);
    LiveAdded(w.guards, w.next, g, BackgroundWork);
  }

  lemma MoveCounts(w: World, v: World)
    requires Counted(w) && v.next == w.next && v.guards.Keys == w.guards.Keys
    requires forall g :: g in w.guards ==> v.guards[g].kind == w.guards[g].kind
    requires v.inner.requests == w.inner.requests && v.inner.background == w.inner.background
    ensures Counted(v)
  {
    assert Live(v.guards, RequestWork) == Live(w.guards, RequestWork);
    assert Live(v.guards, BackgroundWork) == Live(w.guards, BackgroundWork);
  }

  lemma LiveDropped(guards: map<nat, Guard>, g: nat, kind: Kind)
    requires g in guards
    ensures |Live(guards, kind)| == |Live(guards - {g}, kind)| + if guards[g].kind == kind then 1 else 0
  {
    var before, after := Live(guards, kind), Live(guards - {g}, kind);
    assert g !in after;
    assert before == if guards[g].kind == kind then after + {g} else after;
  }

  lemma DropCounts(w: World, g: nat, panicking: bool)
    requires Counted(w) && g in w.guards && w.guards[g].place.Falling?
    ensures GuardStep(w, DropGuard(g, panicking)).To? && Counted(GuardStep(w, DropGuard(g, panicking)).w)
  {
    LiveDropped(w.guards, g, RequestWork);
    LiveDropped(w.guards, g, BackgroundWork);
  }

  // ---------- The invariant ----------

  lemma StartInv()
    ensures WInv(START)
  {
    assert Live(START.guards, RequestWork) == {} && Live(START.guards, BackgroundWork) == {};
  }

  lemma ControlKeeps(w: World, s: ControlEvent)
    requires WInv(w) && ControlStep(w, s).To?
    ensures WInv(ControlStep(w, s).w)
  {
    MoveCounts(w, ControlStep(w, s).w);
    ControlSealed(w, s);
    assert Ordered(ControlStep(w, s).w);
  }

  lemma ControlSealed(w: World, s: ControlEvent)
    requires Counted(w) && Sealed(w) && Ordered(w) && ControlStep(w, s).To?
    ensures Sealed(ControlStep(w, s).w)
  {
    if s == ReleaseCmd && Quiescent(w.inner) { NobodyLive(w); }
  }

  lemma NobodyLive(w: World)
    requires Counted(w) && w.inner.requests == 0 && w.inner.background == 0
    ensures w.guards == map[]
  {
    assert forall g :: g in w.guards ==> g in Live(w.guards, RequestWork) || g in Live(w.guards, BackgroundWork);
  }

  lemma HttpCounts(w: World, s: HttpEvent)
    requires Counted(w) && HttpStep(w, s).To?
    ensures Counted(HttpStep(w, s).w)
  {
    var v := HttpStep(w, s).w;
    if s.Admit? && v != w {
      AddCounts(w, Guard(RequestWork, Handler(s.conn)));
    } else {
      MoveCounts(w, v);
    }
  }

  lemma HttpKeeps(w: World, s: HttpEvent)
    requires WInv(w) && HttpStep(w, s).To?
    ensures WInv(HttpStep(w, s).w)
  {
    HttpCounts(w, s);
    HttpSealed(w, s);
  }

  lemma HttpSealed(w: World, s: HttpEvent)
    requires Counted(w) && Sealed(w) && HttpStep(w, s).To?
    ensures Sealed(HttpStep(w, s).w)
  {
  }

  lemma TransportKeeps(w: World, s: TransportEvent)
    requires WInv(w) && TransportStep(w, s).To?
    ensures WInv(TransportStep(w, s).w)
  {
    TransportCounts(w, s);
    TransportSealed(w, s);
    hide Counted, Sealed;
  }

  lemma TransportCounts(w: World, s: TransportEvent)
    requires Counted(w) && TransportStep(w, s).To?
    ensures Counted(TransportStep(w, s).w)
  {
    hide Live;
    MoveCounts(w, TransportStep(w, s).w);
  }

  lemma TransportSealed(w: World, s: TransportEvent)
    requires Sealed(w) && TransportStep(w, s).To?
    ensures Sealed(TransportStep(w, s).w)
  {
  }

  lemma GuardKeeps(w: World, s: GuardEvent)
    requires WInv(w) && GuardStep(w, s).To?
    ensures WInv(GuardStep(w, s).w)
  {
    match s
    case Detach(_) => AddCounts(w, Guard(BackgroundWork, Detached));
    case DropGuard(g, panicking) => DropCounts(w, g, panicking);
    case _ => MoveCounts(w, GuardStep(w, s).w);
  }

  lemma MaintainCounts(w: World, s: MaintainEvent)
    requires Counted(w) && MaintainStep(w, s).To?
    ensures Counted(MaintainStep(w, s).w)
  {
    hide Live;
    var v := MaintainStep(w, s).w;
    if s == TryMaintain && w.inner.phase == Serving {
      AddCounts(w, Guard(BackgroundWork, Upkeep));
      MoveCounts(Add(w, Guard(BackgroundWork, Upkeep)), v);
    } else {
      MoveCounts(w, v);
    }
  }

  lemma MaintainKeeps(w: World, s: MaintainEvent)
    requires WInv(w) && MaintainStep(w, s).To?
    ensures WInv(MaintainStep(w, s).w)
  {
    hide Counted, Sealed;
    MaintainCounts(w, s);
    MaintainSealed(w, s);
  }

  lemma MaintainSealed(w: World, s: MaintainEvent)
    requires Counted(w) && Sealed(w) && MaintainStep(w, s).To?
    ensures Sealed(MaintainStep(w, s).w)
  {
  }

  lemma RunStepKeeps(w: World, s: RunEvent)
    requires WInv(w) && RunStep(w, s).To?
    ensures WInv(RunStep(w, s).w)
  {
    MoveCounts(w, RunStep(w, s).w);
  }

  /** No step ever takes a count below zero, and every step keeps the invariant. */
  lemma NextKeeps(w: World, s: Step)
    requires WInv(w)
    ensures Next(w, s) != CountUnderflow
    ensures Next(w, s).To? ==> WInv(Next(w, s).w)
  {
    match s
    case Control(c) => if ControlStep(w, c).To? { ControlKeeps(w, c); }
    case Http(h) => if HttpStep(w, h).To? { HttpKeeps(w, h); }
    case Transport(t) => if TransportStep(w, t).To? { TransportKeeps(w, t); }
    case Work(g) =>
      if g.DropGuard? && g.guard in w.guards && w.guards[g.guard].place.Falling? {
        DropCounts(w, g.guard, g.panicking);
      }
      if GuardStep(w, g).To? { GuardKeeps(w, g); }
    case Maintain(m) => if MaintainStep(w, m).To? { MaintainKeeps(w, m); }
    case Task(r) => if RunStep(w, r).To? { RunStepKeeps(w, r); }
  }

  lemma {:induction false} RunKeeps(w: World, steps: seq<Step>)
    requires WInv(w)
    ensures Run(w, steps) != CountUnderflow
    ensures Run(w, steps).To? ==> WInv(Run(w, steps).w)
    decreases |steps|
  {
    if steps != [] {
      NextKeeps(w, steps[0]);
      if Next(w, steps[0]).To? { RunKeeps(Next(w, steps[0]).w, steps[1..]); }
    }
  }

  ghost predicate Reachable(w: World) {
    exists steps: seq<Step> :: Run(START, steps) == To(w)
  }

  lemma ReachableInv(w: World)
    requires Reachable(w)
    ensures WInv(w)
  {
    var steps: seq<Step> :| Run(START, steps) == To(w);
    StartInv();
    RunKeeps(START, steps);
  }

  // ---------- What no step takes back ----------

  predicate Within(a: map<string, string>, b: map<string, string>) {
    forall id :: id in a ==> id in b && a[id] == b[id]
  }

  /** A failure stays recorded, a grant stays granted, a dropped guard never returns, and unless aborted a
      drain neither ends nor gains a workflow. */
  ghost predicate Progress(w: World, v: World, aborts: bool) {
    && (w.inner.failed ==> v.inner.failed && (v.sawClean ==> w.sawClean))
    && (w.passedRelease ==> v.passedRelease)
    && (w.sawClean ==> v.sawClean)
    && w.next <= v.next
    && (forall g :: g < w.next && g in v.guards ==> g in w.guards)
    && (w.inner.phase != Serving && !aborts ==>
         v.inner.phase != Serving && Within(v.inner.workflows, w.inner.workflows))
  }

  lemma ControlProgress(w: World, c: ControlEvent)
    requires ControlStep(w, c).To?
    ensures Progress(w, ControlStep(w, c).w, c == AbortCmd)
  {
    ControlLeaves(w, c);
    var i, j := w.inner, ControlStep(w, c).w.inner;
    assert j == i.(phase := j.phase);
  }

  lemma HttpProgress(w: World, h: HttpEvent)
    requires HttpStep(w, h).To?
    ensures Progress(w, HttpStep(w, h).w, false)
  {
  }

  lemma TransportProgress(w: World, t: TransportEvent)
    requires TransportStep(w, t).To?
    ensures Progress(w, TransportStep(w, t).w, false)
  {
  }

  lemma GuardProgress(w: World, g: GuardEvent)
    requires GuardStep(w, g).To?
    ensures Progress(w, GuardStep(w, g).w, false)
  {
  }

  lemma MaintainProgress(w: World, m: MaintainEvent)
    requires MaintainStep(w, m).To?
    ensures Progress(w, MaintainStep(w, m).w, false)
  {
  }

  lemma RunProgress(w: World, r: RunEvent)
    requires RunStep(w, r).To?
    ensures Progress(w, RunStep(w, r).w, false)
  {
    TaskLeaves(w, r);
    var i, j := w.inner, RunStep(w, r).w.inner;
    assert j == i || j == i.(phase := Released);
  }

  lemma NextProgress(w: World, s: Step)
    requires Next(w, s).To?
    ensures Progress(w, Next(w, s).w, s == Control(AbortCmd))
  {
    match s
    case Control(c) => ControlProgress(w, c);
    case Http(h) => HttpProgress(w, h);
    case Transport(t) => TransportProgress(w, t);
    case Work(g) => GuardProgress(w, g);
    case Maintain(m) => MaintainProgress(w, m);
    case Task(r) => RunProgress(w, r);
  }

  // ---------- Release ----------

  /** Counts equal live guards in every reachable state, whatever step comes next. */
  lemma CountsAreGuards(w: World, s: Step)
    requires Reachable(w)
    ensures w.inner.requests == |Live(w.guards, RequestWork)| && w.inner.background == |Live(w.guards, BackgroundWork)|
    ensures Next(w, s) != CountUnderflow
  {
    ReachableInv(w);
    NextKeeps(w, s);
  }

  /** Release is granted only with nothing live and no failure, and is granted at most once. */
  lemma ReleaseIsClean(w: World)
    requires Reachable(w) && Next(w, Control(ReleaseCmd)).To? && Next(w, Control(ReleaseCmd)).w.inner.phase == Releasing
    ensures w.guards == map[] && Empty(w.inner) && !w.inner.failed && !w.passedRelease
  {
    ReachableInv(w);
    if Quiescent(w.inner) { NobodyLive(w); }
  }

  /** From the grant on, every count stays zero for ever. */
  lemma {:induction false} ZeroForEver(w: World, steps: seq<Step>)
    requires WInv(w) && w.passedRelease && Run(w, steps).To?
    ensures var v := Run(w, steps).w;
            Empty(v.inner) && v.guards == map[] && Closing(v.inner)
    decreases |steps|
  {
    if steps != [] {
      NextKeeps(w, steps[0]);
      NextProgress(w, steps[0]);
      ZeroForEver(Next(w, steps[0]).w, steps[1..]);
    }
  }

  /** When the shutdown signal closes a connection, no response is parked on it, nor anywhere. */
  lemma SignalLosesNoResponse(w: World, conn: nat)
    requires Reachable(w) && Next(w, Transport(CloseOnSignal(conn))).To?
    ensures w.guards == map[] && Next(w, Transport(CloseOnSignal(conn))).w.guards == map[]
  {
    ReachableInv(w);
  }

  /** A connection parks a response only while it is open; a flush, the signal and a lost stream each let go
      of everything parked there, and no other step of any kind touches what a connection has parked. */
  lemma ParkedUntilFlushed(w: World, s: Step, c: nat, g: nat)
    requires Reachable(w) && Next(w, s).To?
    ensures At(Next(w, s).w, g, Parked(c)) <==>
      || (s == Transport(BodyDropped(g)) && At(w, g, Body(c)) && !w.conns[c].closed)
      || (At(w, g, Parked(c)) && s !in {Transport(Flush(c)), Transport(CloseOnSignal(c)), Transport(DropStream(c))})
  {
    ReachableInv(w);
    StepParks(w, s, c, g);
  }

  lemma StepParks(w: World, s: Step, c: nat, g: nat)
    requires Counted(w) && Sealed(w) && Next(w, s).To?
    ensures At(Next(w, s).w, g, Parked(c)) <==>
      || (s == Transport(BodyDropped(g)) && At(w, g, Body(c)) && !w.conns[c].closed)
      || (At(w, g, Parked(c)) && s !in {Transport(Flush(c)), Transport(CloseOnSignal(c)), Transport(DropStream(c))})
  {
    hide ControlStep, HttpStep, TransportStep, GuardStep, MaintainStep, RunStep;
    match s
    case Transport(t) => TransportParks(w, t, c, g);
    case Http(h) => HttpParks(w, h, c, g);
    case Work(e) => GuardParks(w, e, c, g);
    case Maintain(m) => MaintainParks(w, m, c, g);
    case Control(e) => ControlLeaves(w, e);
    case Task(r) => TaskLeaves(w, r);
  }

  lemma TransportParks(w: World, t: TransportEvent, c: nat, g: nat)
    requires TransportStep(w, t).To?
    ensures At(TransportStep(w, t).w, g, Parked(c)) <==>
      || (t == BodyDropped(g) && At(w, g, Body(c)) && !w.conns[c].closed)
      || (At(w, g, Parked(c)) && t !in {Flush(c), CloseOnSignal(c), DropStream(c)})
  {
  }

  lemma HttpParks(w: World, h: HttpEvent, c: nat, g: nat)
    requires Counted(w) && HttpStep(w, h).To?
    ensures At(HttpStep(w, h).w, g, Parked(c)) <==> At(w, g, Parked(c))
  {
  }

  lemma GuardParks(w: World, e: GuardEvent, c: nat, g: nat)
    requires Counted(w) && GuardStep(w, e).To?
    ensures At(GuardStep(w, e).w, g, Parked(c)) <==> At(w, g, Parked(c))
  {
  }

  lemma MaintainParks(w: World, m: MaintainEvent, c: nat, g: nat)
    requires Counted(w) && Sealed(w) && MaintainStep(w, m).To?
    ensures At(MaintainStep(w, m).w, g, Parked(c)) <==> At(w, g, Parked(c))
  {
  }

  // ---------- The transport of one connection ----------

  /** The connection's own state is its part of the world: closed alike, the same guards parked. */
  ghost predicate Stands(w: World, c: nat, s: Transport.Connection) {
    && c in w.conns && w.conns[c].closed == s.parking.closed
    && (s.closed ==> w.signal)
    && (forall i, j :: 0 <= i < j < |s.parking.response| ==> s.parking.response[i] != s.parking.response[j])
    && (forall g :: g in s.parking.response <==> At(w, g, Parked(c)))
  }

  /** The step of the world that a call is. A flush that does not complete and a question answered no are none. */
  function StepOf(c: nat, s: Transport.Connection, call: Transport.Call): Option<TransportEvent> {
    match call
    case BodyDropped(g) => Some(BodyDropped(g))
    case PollFlush(completed) => if completed then Some(Flush(c)) else None
    case ShouldClose(_) => if Transport.Closes(s, call) then Some(CloseOnSignal(c)) else None
    case Discard => Some(DropStream(c))
  }

  /** A call that can be made: a body that came through this connection, or a stream that is still there. */
  predicate Callable(w: World, c: nat, call: Transport.Call) {
    match call
    case BodyDropped(g) => At(w, g, Body(c))
    case ShouldClose(signalled) => Up(w, c) && (signalled ==> w.signal)
    case _ => Up(w, c)
  }

  /** Guard g is let go between w and v. */
  predicate Falls(w: World, v: World, g: nat) {
    g in w.guards && g in v.guards && !w.guards[g].place.Falling? && v.guards[g].place.Falling?
  }

  /** The code of one connection is the world's transport step: the same guards end up parked, and those it hands
      back are exactly those the step lets go. */
  lemma CallIsStep(w: World, c: nat, s: Transport.Connection, call: Transport.Call)
    requires Stands(w, c, s) && Callable(w, c, call)
    ensures var (t, dropped) := Transport.Handle(s, call);
            match StepOf(c, s, call)
            case None => t.parking == s.parking && dropped == [] && Stands(w, c, t)
            case Some(e) =>
              && TransportStep(w, e).To? && Stands(TransportStep(w, e).w, c, t)
              && forall g :: g in dropped <==> Falls(w, TransportStep(w, e).w, g)
  {
    match call
    case BodyDropped(g) => BodyIsStep(w, c, s, g);
    case PollFlush(completed) => if completed { LetGoIsStep(w, c, s, call, Flush(c)); }
    case ShouldClose(_) => if Transport.Closes(s, call) { LetGoIsStep(w, c, s, call, CloseOnSignal(c)); }
    case Discard => LetGoIsStep(w, c, s, call, DropStream(c));
  }

  lemma BodyIsStep(w: World, c: nat, s: Transport.Connection, g: nat)
    requires Stands(w, c, s) && At(w, g, Body(c))
    ensures var (t, dropped) := Transport.Handle(s, Transport.BodyDropped(g));
            && TransportStep(w, BodyDropped(g)).To? && Stands(TransportStep(w, BodyDropped(g)).w, c, t)
            && forall h :: h in dropped <==> Falls(w, TransportStep(w, BodyDropped(g)).w, h)
  {
    assert g !in s.parking.response;
  }

  lemma LetGoIsStep(w: World, c: nat, s: Transport.Connection, call: Transport.Call, e: TransportEvent)
    requires Stands(w, c, s) && Up(w, c) && e in {Flush(c), CloseOnSignal(c), DropStream(c)}
    requires StepOf(c, s, call) == Some(e) && TransportStep(w, e).To?
    requires call.ShouldClose? && call.signalled ==> w.signal
    ensures var (t, dropped) := Transport.Handle(s, call);
            && Stands(TransportStep(w, e).w, c, t)
            && forall g :: g in dropped <==> Falls(w, TransportStep(w, e).w, g)
  {
    var v := TransportStep(w, e).w;
    forall g ensures At(v, g, Parked(c)) <==> false { TransportParks(w, e, c, g); }
  }

  /** The call a step of the world is on connection c, if it is one. */
  function CallOf(w: World, c: nat, s: Step): Option<Transport.Call> {
    if s.Transport? && s.t.BodyDropped? && At(w, s.t.guard, Body(c)) then Some(Transport.BodyDropped(s.t.guard))
    else if s == Transport(Flush(c)) then Some(Transport.PollFlush(true))
    else if s == Transport(CloseOnSignal(c)) then Some(Transport.ShouldClose(true))
    else if s == Transport(DropStream(c)) then Some(Transport.Discard)
    else None
  }

  lemma ControlConns(w: World, e: ControlEvent)
    requires ControlStep(w, e).To?
    ensures ControlStep(w, e).w.conns == w.conns && (w.signal ==> ControlStep(w, e).w.signal)
  {
  }

  lemma HttpConns(w: World, e: HttpEvent)
    requires HttpStep(w, e).To?
    ensures HttpStep(w, e).w.conns == w.conns && (w.signal ==> HttpStep(w, e).w.signal)
  {
  }

  lemma GuardConns(w: World, e: GuardEvent)
    requires GuardStep(w, e).To?
    ensures GuardStep(w, e).w.conns == w.conns && (w.signal ==> GuardStep(w, e).w.signal)
  {
  }

  lemma MaintainConns(w: World, e: MaintainEvent)
    requires MaintainStep(w, e).To?
    ensures MaintainStep(w, e).w.conns == w.conns && (w.signal ==> MaintainStep(w, e).w.signal)
  {
  }

  lemma TaskConns(w: World, e: RunEvent)
    requires RunStep(w, e).To?
    ensures RunStep(w, e).w.conns == w.conns && (w.signal ==> RunStep(w, e).w.signal)
  {
  }

  lemma TransportConns(w: World, e: TransportEvent, c: nat)
    requires TransportStep(w, e).To?
    ensures TransportStep(w, e).w.signal == w.signal
    ensures c in TransportStep(w, e).w.conns <==> c in w.conns || e == Connect(c)
    ensures c in w.conns && e !in {CloseOnSignal(c), DropStream(c)} ==> TransportStep(w, e).w.conns[c] == w.conns[c]
    ensures e == Connect(c) ==> TransportStep(w, e).w.conns[c] == Conn(false, false)
    ensures e == CloseOnSignal(c) ==> w.signal && TransportStep(w, e).w.conns[c] == Conn(true, false)
    ensures e == DropStream(c) ==> TransportStep(w, e).w.conns[c] == Conn(true, true)
  {
  }

  /** Only its own closing changes a connection, only Connect makes one, and the signal stays. */
  lemma ConnStays(w: World, s: Step, c: nat)
    requires Next(w, s).To?
    ensures var v := Next(w, s).w;
            && (w.signal ==> v.signal)
            && (c in v.conns <==> c in w.conns || s == Transport(Connect(c)))
            && (c in w.conns && s !in {Transport(CloseOnSignal(c)), Transport(DropStream(c))} ==>
                 v.conns[c] == w.conns[c])
  {
    hide ControlStep, HttpStep, TransportStep, GuardStep, MaintainStep, RunStep;
    match s
    case Control(e) => ControlConns(w, e);
    case Http(e) => HttpConns(w, e);
    case Transport(e) => TransportConns(w, e, c);
    case Work(e) => GuardConns(w, e);
    case Maintain(e) => MaintainConns(w, e);
    case Task(e) => TaskConns(w, e);
  }

  /** A step that is no call on c leaves what stands for it. */
  lemma OtherStepStands(w: World, s: Step, c: nat, t: Transport.Connection)
    requires Counted(w) && Sealed(w) && Stands(w, c, t) && Next(w, s).To? && CallOf(w, c, s) == None
    ensures Stands(Next(w, s).w, c, t)
  {
    ConnStays(w, s, c);
    hide Next, Counted, Sealed;
    forall g ensures At(Next(w, s).w, g, Parked(c)) <==> At(w, g, Parked(c)) { StepParks(w, s, c, g); }
  }

  /** A new connection stands as a fresh one. */
  lemma ConnectStands(w: World, c: nat)
    requires Sealed(w) && TransportStep(w, Connect(c)).To?
    ensures Stands(TransportStep(w, Connect(c)).w, c, Transport.FRESH)
  {
    forall g ensures !At(TransportStep(w, Connect(c)).w, g, Parked(c)) {
      if g in w.guards { assert Placed(w.guards[g].place, w.conns); }
    }
  }

  lemma CallStepStands(w: World, s: Step, c: nat, t: Transport.Connection)
    requires Stands(w, c, t) && Next(w, s).To? && CallOf(w, c, s).Some?
    ensures Stands(Next(w, s).w, c, Transport.Handle(t, CallOf(w, c, s).value).0)
  {
    CallIsStep(w, c, t, CallOf(w, c, s).value);
  }

  /** The calls a run makes on connection c. */
  function CallsOf(w: World, steps: seq<Step>, c: nat): seq<Transport.Call>
    decreases |steps|
  {
    if steps == [] || !Next(w, steps[0]).To? then [] else
    (if c in w.conns && CallOf(w, c, steps[0]).Some? then [CallOf(w, c, steps[0]).value] else [])
    + CallsOf(Next(w, steps[0]).w, steps[1..], c)
  }

  lemma {:induction false} CallsStand(w: World, steps: seq<Step>, c: nat, t: Transport.Connection)
    requires WInv(w) && Stands(w, c, t) && Run(w, steps).To?
    ensures Stands(Run(w, steps).w, c, Transport.HandleAll(t, CallsOf(w, steps, c)).0)
    decreases |steps|
  {
    assert Counted(w) && Sealed(w) && c in w.conns;
    hide Next, Stands, WInv, Counted, Sealed, CallOf;
    if steps != [] {
      var s, v := steps[0], Next(w, steps[0]).w;
      var rest := CallsOf(v, steps[1..], c);
      NextKeeps(w, s);
      if CallOf(w, c, s).Some? {
        CallStepStands(w, s, c, t);
        CallsStand(v, steps[1..], c, Transport.Handle(t, CallOf(w, c, s).value).0);
        assert ([CallOf(w, c, s).value] + rest)[1..] == rest;
      } else {
        OtherStepStands(w, s, c, t);
        CallsStand(v, steps[1..], c, t);
        assert [] + rest == rest;
      }
    }
  }

  lemma {:induction false} CallsStandFrom(w: World, steps: seq<Step>, c: nat)
    requires WInv(w) && c !in w.conns && Run(w, steps).To? && c in Run(w, steps).w.conns
    ensures Stands(Run(w, steps).w, c, Transport.HandleAll(Transport.FRESH, CallsOf(w, steps, c)).0)
    decreases |steps|
  {
    var s, v := steps[0], Next(w, steps[0]).w;
    NextKeeps(w, s);
    if s == Transport(Connect(c)) { ConnectStands(w, c); } else { ConnStays(w, s, c); }
    hide Next, Stands, WInv;
    assert CallsOf(w, steps, c) == [] + CallsOf(v, steps[1..], c) == CallsOf(v, steps[1..], c);
    if s == Transport(Connect(c)) {
      CallsStand(v, steps[1..], c, Transport.FRESH);
    } else {
      CallsStandFrom(v, steps[1..], c);
    }
  }

  /** In every run of the whole system, what a connection is and what is parked on it is what its own code makes of
      the calls the run made on it. */
  lemma ConnectionsRefined(steps: seq<Step>, w: World, c: nat)
    requires Run(START, steps) == To(w) && c in w.conns
    ensures Stands(w, c, Transport.HandleAll(Transport.FRESH, CallsOf(START, steps, c)).0)
  {
    StartInv();
    CallsStandFrom(START, steps, c);
  }

  // ---------- What records a failure ----------

  /** The steps at which the source records a failure: a guard dropped while unwinding, a request that panics, work
      or a request future that gives up, and a maintenance loop that fails, ends badly or loses its sender. */
  predicate Failing(s: Step) {
    match s
    case Work(DropGuard(_, panicking)) => panicking
    case Work(FailHeld(_)) => true
    case Work(FailOn(_)) => true
    case Http(PanicCaught(_)) => true
    case Maintain(MaintainFails) => true
    case Maintain(MaintainEnds(ok)) => !ok
    case Maintain(SenderLost) => true
    case _ => false
  }

  lemma ControlFails(w: World, c: ControlEvent)
    requires ControlStep(w, c).To?
    ensures ControlStep(w, c).w.inner.failed == w.inner.failed
  {
  }

  lemma HttpFails(w: World, h: HttpEvent)
    requires HttpStep(w, h).To?
    ensures HttpStep(w, h).w.inner.failed <==> w.inner.failed || h.PanicCaught?
  {
  }

  lemma GuardFails(w: World, e: GuardEvent)
    requires GuardStep(w, e).To?
    ensures GuardStep(w, e).w.inner.failed <==>
      w.inner.failed || e.FailHeld? || e.FailOn? || (e.DropGuard? && e.panicking)
  {
  }

  lemma MaintainFailsExactly(w: World, m: MaintainEvent)
    requires MaintainStep(w, m).To?
    ensures MaintainStep(w, m).w.inner.failed <==>
      w.inner.failed || m == MaintainFails || m == MaintainEnds(false) || m == SenderLost
  {
  }

  lemma TaskFails(w: World, r: RunEvent)
    requires RunStep(w, r).To?
    ensures RunStep(w, r).w.inner.failed == w.inner.failed
  {
  }

  lemma FailsExactly(w: World, s: Step)
    requires Next(w, s).To?
    ensures Next(w, s).w.inner.failed <==> w.inner.failed || Failing(s)
  {
    hide ControlStep, HttpStep, TransportStep, GuardStep, MaintainStep, RunStep;
    match s
    case Control(c) => ControlFails(w, c);
    case Http(h) => HttpFails(w, h);
    case Transport(t) => QuietTransport(w, t);
    case Work(e) => GuardFails(w, e);
    case Maintain(m) => MaintainFailsExactly(w, m);
    case Task(r) => TaskFails(w, r);
  }

  /** Over any run a failure is on record exactly if it was at the start or one of those steps was taken. */
  lemma {:induction false} FailedExactly(w: World, steps: seq<Step>)
    requires Run(w, steps).To?
    ensures Run(w, steps).w.inner.failed <==> w.inner.failed || exists s :: s in steps && Failing(s)
    decreases |steps|
  {
    hide Next, Failing;
    if steps != [] {
      FailsExactly(w, steps[0]);
      FailedExactly(Next(w, steps[0]).w, steps[1..]);
      assert steps == [steps[0]] + steps[1..];
    }
  }

  /** So after any of them no continuation answers a release with yes. */
  lemma FailingBlocksRelease(w: World, steps: seq<Step>, s: Step)
    requires WInv(w) && s in steps && Failing(s) && Run(w, steps).To?
    ensures Run(w, steps).w.inner.failed && Run(w, steps).w.manager != Answered(true)
  {
    FailedExactly(w, steps);
    RunKeeps(w, steps);
  }

  // ---------- What a step admits, and a drain that finishes ----------

  /** A request on a connection is let in, and counted with a guard of its own, exactly when the server is serving
      and it belongs to no workflow, or the server is not releasing and it belongs to an open workflow of its own
      authority; otherwise nothing happens. */
  lemma AdmittedExactly(w: World, c: nat, workflow: Option<string>, authority: string)
    requires Counted(w) && Up(w, c)
    ensures var next := Next(w, Http(Admit(c, workflow, authority)));
      && next.To?
      && if (workflow == None && w.inner.phase == Serving)
            || (workflow.Some? && w.inner.phase in {Serving, Draining} && workflow.value in w.inner.workflows
                && w.inner.workflows[workflow.value] == authority)
         then
           && w.next !in w.guards && next.w.guards == w.guards[w.next := Guard(RequestWork, Handler(c))]
           && next.w.inner.requests == w.inner.requests + 1
         else next.w == w
  {
  }

  /** Detached work is counted with a guard of its own before it runs, and so is maintenance, which starts exactly
      while the server is serving. */
  lemma StartedExactly(w: World, parent: nat)
    requires Counted(w)
    ensures parent in w.guards ==>
      var next := Next(w, Work(Detach(parent)));
      && next.To? && next.w.guards == w.guards[w.next := Guard(BackgroundWork, Detached)] && w.next !in w.guards
      && next.w.inner.background == w.inner.background + 1
    ensures w.maintainer == Ready ==>
      var next := Next(w, Maintain(TryMaintain));
      && next.To?
      && if w.inner.phase == Serving then
           && next.w.guards == w.guards[w.next := Guard(BackgroundWork, Upkeep)] && w.next !in w.guards
           && next.w.inner.background == w.inner.background + 1 && next.w.maintainer == Working(w.next)
         else next.w == w.(maintainer := Sleeping)
  {
  }

  /** A workflow is open to its authority after the call exactly if it was, or the server is serving and its name is
      new. */
  lemma OpensExactly(i: Inner, id: string, authority: string)
    ensures Owns(OpenWorkflow(i, id, authority), id, authority) <==>
      Owns(i, id, authority) || (i.phase == Serving && id !in i.workflows)
    ensures OpenWorkflow(i, id, authority).(workflows := i.workflows) == i
  {
  }

  /** An idle server that begins to drain can be released; an abort instead puts it back as it was; begun work is not
      lost on the way. */
  lemma DrainCycle(i: Inner)
    requires i.phase == Serving
    ensures Abort(Begin(i)) == i
    ensures Release(Begin(i)).phase == (if Empty(i) && !i.failed then Releasing else Draining)
    ensures Begin(i) == i.(phase := Draining) && Begin(Begin(i)) == Begin(i)
  {
  }

  /** The steps of a release in which nothing goes wrong. */
  const GRANT := [Control(BeginCmd), Control(ReleaseCmd), Control(SendSignal)]
  const END := [Maintain(CheckSignal), Task(ServeEnds(true)), Task(Join)]
  const CLOSE := [Task(CheckFailed), Task(CloseDb(true)), Task(MarkReleased)]
  const ANSWER := [Task(Report), Control(CollectAnswer)]

  /** An idle server whose connections have ended answers a release with yes, if its storage closes. */
  lemma CleanReleaseAccepted(w: World)
    requires w.inner.phase == Serving && Empty(w.inner) && !w.inner.failed
    requires w.manager == Listening && w.runner == ServingHttp && w.maintainer == Sleeping && AllDropped(w.conns)
    ensures var r := Run(w, GRANT + (END + (CLOSE + ANSWER))); r.To? && r.w.manager == Answered(true)
  {
    var w1 := CleanGrant(w);
    var w2 := CleanEnd(w1);
    var w3 := CleanClose(w2);
    var w4 := CleanAnswer(w3);
    hide Run, Next, Empty, AllDropped;
    FourParts(w, GRANT, w1, END, w2, CLOSE, w3, ANSWER, w4);
  }

  lemma FourParts(w: World, a: seq<Step>, w1: World, b: seq<Step>, w2: World, c: seq<Step>, w3: World, d: seq<Step>,
        w4: World)
    requires Run(w, a) == To(w1) && Run(w1, b) == To(w2) && Run(w2, c) == To(w3) && Run(w3, d) == To(w4)
    ensures Run(w, a + (b + (c + d))) == To(w4)
  {
    hide Run, Next;
    RunInTwo(w, a, b + (c + d));
    RunInTwo(w1, b, c + d);
    RunInTwo(w2, c, d);
  }

  lemma CleanGrant(w: World) returns (v: World)
    requires w.inner.phase == Serving && Empty(w.inner) && !w.inner.failed
    requires w.manager == Listening && w.runner == ServingHttp
    ensures v ==
      w.(inner := w.inner.(phase := Releasing), passedRelease := true, signal := true, manager := Awaiting)
    ensures Run(w, GRANT) == To(v)
  {
    v := w.(inner := w.inner.(phase := Releasing), passedRelease := true, signal := true, manager := Awaiting);
    ThreeSteps(w, Control(BeginCmd), Control(ReleaseCmd), Control(SendSignal));
  }

  lemma CleanEnd(w: World) returns (v: World)
    requires w.signal && w.runner == ServingHttp && w.maintainer == Sleeping && AllDropped(w.conns)
    ensures v == w.(maintainer := Ended(true), runner := Checking) && Run(w, END) == To(v)
  {
    v := w.(maintainer := Ended(true), runner := Checking);
    ThreeSteps(w, Maintain(CheckSignal), Task(ServeEnds(true)), Task(Join));
  }

  lemma CleanClose(w: World) returns (v: World)
    requires w.runner == Checking && !w.inner.failed
    ensures v ==
      w.(sawClean := true, dbClosed := true, runner := Reporting(true), inner := w.inner.(phase := Released))
    ensures Run(w, CLOSE) == To(v)
  {
    v := w.(sawClean := true, dbClosed := true, runner := Reporting(true), inner := w.inner.(phase := Released));
    ThreeSteps(w, Task(CheckFailed), Task(CloseDb(true)), Task(MarkReleased));
  }

  lemma CleanAnswer(w: World) returns (v: World)
    requires w.runner == Reporting(true) && w.manager == Awaiting
    ensures v.manager == Answered(true) && Run(w, ANSWER) == To(v)
  {
    v := w.(runner := Reported(true), manager := Answered(true));
    assert ANSWER[1..] == [Control(CollectAnswer)] && ANSWER[1..][1..] == [];
    assert Run(w.(runner := Reported(true)), ANSWER[1..]) == Run(v, []);
  }

  lemma ThreeSteps(w: World, a: Step, b: Step, c: Step)
    ensures Run(w, [a, b, c]) ==
      if !Next(w, a).To? then Next(w, a)
      else if !Next(Next(w, a).w, b).To? then Next(Next(w, a).w, b)
      else Next(Next(Next(w, a).w, b).w, c)
  {
    hide Next;
    assert [a, b, c][1..] == [b, c] && [b, c][1..] == [c] && [c][1..] == [];
    if Next(w, a).To? {
      assert Run(Next(w, a).w, [b, c]) ==
        if !Next(Next(w, a).w, b).To? then Next(Next(w, a).w, b) else Run(Next(Next(w, a).w, b).w, [c]);
    }
  }

  lemma {:induction false} RunInTwo(w: World, a: seq<Step>, b: seq<Step>)
    ensures Run(w, a + b) == if Run(w, a).To? then Run(Run(w, a).w, b) else Run(w, a)
    decreases |a|
  {
    hide Next;
    if a == [] {
      assert a + b == b;
    } else {
      assert (a + b)[0] == a[0] && (a + b)[1..] == a[1..] + b;
      if Next(w, a[0]).To? { RunInTwo(Next(w, a[0]).w, a[1..], b); }
    }
  }

  // ---------- The release answer ----------

  /** An accepted release means: granted, maintenance ended well, no failure when that was checked afterwards,
      the database closed; and the status it carries is that of a clean release. */
  lemma AcceptedMeansClean(w: World)
    requires Reachable(w) && w.manager == Answered(true)
    ensures w.passedRelease && w.maintainer == Ended(true) && w.sawClean && w.dbClosed
    ensures w.inner == Inner(Released, 0, map[], 0, false)
  {
    ReachableInv(w);
  }

  /** A failure, whenever it is recorded, makes an accepted release impossible in every continuation. */
  lemma {:induction false} FailureBlocksRelease(w: World, steps: seq<Step>)
    requires WInv(w) && w.inner.failed && Run(w, steps).To?
    ensures Run(w, steps).w.manager != Answered(true)
    decreases |steps|
  {
    hide Next, Counted, Sealed;
    if steps != [] {
      NextKeeps(w, steps[0]);
      NextProgress(w, steps[0]);
      FailureBlocksRelease(Next(w, steps[0]).w, steps[1..]);
    }
  }

  /** Nothing can record a failure once the check has found none: whoever could has ended by then. */
  lemma NoFailureAfterCheck(w: World, steps: seq<Step>)
    requires Reachable(w) && w.sawClean && Run(w, steps).To?
    ensures Run(w, steps).w.sawClean && !Run(w, steps).w.inner.failed
  {
    ReachableInv(w);
    StaysClean(w, steps);
  }

  lemma {:induction false} StaysClean(w: World, steps: seq<Step>)
    requires WInv(w) && w.sawClean && Run(w, steps).To?
    ensures Run(w, steps).w.sawClean && !Run(w, steps).w.inner.failed
    decreases |steps|
  {
    hide Next, Counted, Sealed;
    if steps != [] {
      NextKeeps(w, steps[0]);
      NextProgress(w, steps[0]);
      StaysClean(Next(w, steps[0]).w, steps[1..]);
    }
  }

  // ---------- Draining ----------

  /** Opening and closing a workflow undo each other and touch no other workflow. */
  lemma OpenThenClose(i: Inner, id: string, authority: string, other: string, owner: string)
    requires CanOpen(i, id)
    ensures Owns(OpenWorkflow(i, id, authority), id, authority)
    ensures CloseWorkflow(OpenWorkflow(i, id, authority), id, authority) == i
    ensures other != id ==> (Owns(OpenWorkflow(i, id, authority), other, owner) <==> Owns(i, other, owner))
    ensures other != id ==> (Owns(CloseWorkflow(i, id, authority), other, owner) <==> Owns(i, other, owner))
  {
    assert i.workflows[id := authority] - {id} == i.workflows;
  }

  /** Until an abort, draining never goes back and the open workflows only shrink. */
  lemma {:induction false} DrainingIsMonotone(w: World, steps: seq<Step>)
    requires w.inner.phase != Serving && Control(AbortCmd) !in steps && Run(w, steps).To?
    ensures Run(w, steps).w.inner.phase != Serving
    ensures Within(Run(w, steps).w.inner.workflows, w.inner.workflows)
    decreases |steps|
  {
    if steps != [] {
      NextProgress(w, steps[0]);
      DrainingIsMonotone(Next(w, steps[0]).w, steps[1..]);
    }
  }

  /** In any continuation without an abort, whoever is admitted owns a workflow that was already open. */
  lemma AdmittedWhileDraining(w: World, steps: seq<Step>, c: nat, workflow: Option<string>, authority: string)
    requires w.inner.phase != Serving && Control(AbortCmd) !in steps && Run(w, steps).To?
    requires var v := Run(w, steps).w;
             Next(v, Http(Admit(c, workflow, authority))).To? && Next(v, Http(Admit(c, workflow, authority))).w != v
    ensures workflow.Some? && Owns(w.inner, workflow.value, authority)
  {
    DrainingIsMonotone(w, steps);
  }

  /** Quiescence holds exactly when a release would be granted. */
  lemma QuiescentIsReleasable(i: Inner)
    ensures Quiescent(i) <==> Release(i) != i
    ensures Release(i) != i ==> Release(i) == i.(phase := Releasing)
  {
  }

  /** The steps that can end quiescence: an abort, a granted release, and a failure recorded by a request that was
      waiting for a lost task or by a maintenance loop whose manager is gone. */
  predicate Unsettling(s: Step) {
    || s in {Control(AbortCmd), Control(ReleaseCmd), Maintain(SenderLost)}
    || (s.Work? && s.g.FailOn?)
  }

  /** Once quiescent, only those steps end it. */
  lemma QuiescenceIsStable(w: World, s: Step)
    requires Reachable(w) && Quiescent(w.inner) && Next(w, s).To?
    ensures Quiescent(Next(w, s).w.inner) || Unsettling(s)
  {
    ReachableInv(w);
    QuietStep(w, s);
  }

  lemma QuietStep(w: World, s: Step)
    requires WInv(w) && Quiescent(w.inner) && Next(w, s).To?
    ensures Quiescent(Next(w, s).w.inner) || Unsettling(s)
  {
    NobodyLive(w);
    hide Live, Counted, Ordered;
    match s
    case Http(h) => QuietHttp(w, h);
    case Transport(t) => QuietTransport(w, t);
    case Work(e) => QuietGuard(w, e);
    case Maintain(m) => QuietMaintain(w, m);
    case Control(_) =>
    case Task(r) => QuietTask(w, r);
  }

  /** A quiesce that was answered yes stays good: after any run without an abort, a release or a recorded failure
      the release is granted. */
  lemma {:induction false} QuiescedReleases(w: World, steps: seq<Step>)
    requires WInv(w) && Quiescent(w.inner) && Run(w, steps).To? && forall s :: s in steps ==> !Unsettling(s)
    ensures Quiescent(Run(w, steps).w.inner)
    ensures Release(Run(w, steps).w.inner) == Run(w, steps).w.inner.(phase := Releasing) != Run(w, steps).w.inner
    decreases |steps|
  {
    hide Next, Unsettling, WInv;
    if steps != [] {
      assert steps[0] in steps;
      NextKeeps(w, steps[0]);
      QuietStep(w, steps[0]);
      QuiescedReleases(Next(w, steps[0]).w, steps[1..]);
    }
  }

  lemma QuietHttp(w: World, h: HttpEvent)
    requires Quiescent(w.inner) && w.guards == map[] && HttpStep(w, h).To?
    ensures HttpStep(w, h).w.inner == w.inner
  {
  }

  lemma QuietTransport(w: World, t: TransportEvent)
    requires TransportStep(w, t).To?
    ensures TransportStep(w, t).w.inner == w.inner
  {
  }

  lemma QuietGuard(w: World, e: GuardEvent)
    requires w.guards == map[] && GuardStep(w, e).To?
    ensures GuardStep(w, e).w.inner == w.inner || e.FailOn?
  {
  }

  lemma QuietMaintain(w: World, m: MaintainEvent)
    requires Quiescent(w.inner) && w.guards == map[] && Sealed(w) && MaintainStep(w, m).To?
    ensures MaintainStep(w, m).w.inner == w.inner || m == SenderLost
  {
  }

  lemma QuietTask(w: World, r: RunEvent)
    requires Quiescent(w.inner) && WInv(w) && RunStep(w, r).To?
    ensures RunStep(w, r).w.inner == w.inner
  {
  }

  // ---------- The life of a request guard ----------

  /** The step lets go of a request guard that belongs to connection c: its task is lost, its body is dropped
      on a closed connection, or it was parked and that connection flushes or closes. */
  predicate LetsGoOf(w: World, s: Step, g: nat, c: nat) {
    || (At(w, g, Handler(c)) && s == Http(TaskLost(g)))
    || (At(w, g, Body(c)) && s == Transport(BodyDropped(g)) && c in w.conns && w.conns[c].closed)
    || (At(w, g, Parked(c)) && s in {Transport(Flush(c)), Transport(CloseOnSignal(c)), Transport(DropStream(c))})
  }

  predicate Belongs(w: World, g: nat, c: nat) {
    At(w, g, Handler(c)) || At(w, g, Body(c)) || At(w, g, Parked(c))
  }

  predicate Drops(s: Step, g: nat) {
    s.Work? && s.g.DropGuard? && s.g.guard == g
  }

  /** Outside the request and transport steps a guard that is neither detached work nor the maintenance
      loop's own is left alone, until it is dropped. */
  lemma WorkLeaves(w: World, e: GuardEvent, g: nat)
    requires g in w.guards && g < w.next && w.guards[g].place != Detached
    requires GuardStep(w, e).To? && (Drops(Work(e), g) ==> !w.guards[g].place.Falling?)
    ensures Kept(w, GuardStep(w, e).w, g) && GuardStep(w, e).w.maintainer == w.maintainer
  {
  }

  lemma MaintainLeaves(w: World, m: MaintainEvent, g: nat)
    requires g in w.guards && g < w.next && w.maintainer != Working(g) && MaintainStep(w, m).To?
    ensures Kept(w, MaintainStep(w, m).w, g) && MaintainStep(w, m).w.maintainer != Working(g)
  {
  }

  predicate Kept(w: World, v: World, g: nat)
    requires g in w.guards
  {
    g in v.guards && v.guards[g] == w.guards[g]
  }

  lemma HttpGuard(w: World, h: HttpEvent, g: nat, c: nat)
    requires Belongs(w, g, c) && g < w.next && HttpStep(w, h).To?
    ensures var v := HttpStep(w, h).w;
            && g in v.guards && v.maintainer == w.maintainer
            && if LetsGoOf(w, Http(h), g, c) then v.guards[g].place.Falling? else Belongs(v, g, c)
  {
    hide Admits, Acquire, OpenWorkflow, CloseWorkflow;
    if h.Respond? || h.PanicCaught? || h.TaskLost? {
      if h.guard != g { assert HttpStep(w, h).w.guards[g] == w.guards[g]; }
    }
  }

  lemma LetGoBelongs(w: World, conn: nat, why: Exit, g: nat, c: nat)
    requires Belongs(w, g, c)
    ensures var v := LetGo(w, conn, why);
            && g in v.guards && v.maintainer == w.maintainer
            && if conn == c && At(w, g, Parked(c)) then v.guards[g].place.Falling? else Belongs(v, g, c)
  {
  }

  lemma TransportGuard(w: World, t: TransportEvent, g: nat, c: nat)
    requires Belongs(w, g, c) && TransportStep(w, t).To?
    ensures var v := TransportStep(w, t).w;
            && g in v.guards && v.maintainer == w.maintainer
            && if LetsGoOf(w, Transport(t), g, c) then v.guards[g].place.Falling? else Belongs(v, g, c)
  {
    match t
    case Connect(_) =>
    case BodyDropped(_) =>
    case Flush(conn) => LetGoBelongs(w, conn, Flushed(conn), g, c);
    case CloseOnSignal(conn) => CloseBelongs(w, conn, w.conns[conn], g, c);
    case DropStream(conn) => CloseBelongs(w, conn, Conn(true, true), g, c);
  }

  lemma CloseBelongs(w: World, conn: nat, k: Conn, g: nat, c: nat)
    requires Belongs(w, g, c)
    ensures var v := CloseConn(w, conn, k);
            && g in v.guards && v.maintainer == w.maintainer
            && if conn == c && At(w, g, Parked(c)) then v.guards[g].place.Falling? else Belongs(v, g, c)
  {
    LetGoBelongs(w.(conns := w.conns[conn := k.(closed := true)]), conn, ConnClosed(conn), g, c);
  }

  lemma ControlLeaves(w: World, c: ControlEvent)
    requires ControlStep(w, c).To?
    ensures ControlStep(w, c).w.guards == w.guards && ControlStep(w, c).w.maintainer == w.maintainer
  {
  }

  lemma TaskLeaves(w: World, r: RunEvent)
    requires RunStep(w, r).To?
    ensures RunStep(w, r).w.guards == w.guards && RunStep(w, r).w.maintainer == w.maintainer
  {
  }

  lemma BelongsStep(w: World, s: Step, g: nat, c: nat)
    requires Belongs(w, g, c) && g < w.next && Next(w, s).To? && w.maintainer != Working(g)
    ensures var v := Next(w, s).w;
            && g in v.guards && v.maintainer != Working(g)
            && if LetsGoOf(w, s, g, c) then v.guards[g].place.Falling? else Belongs(v, g, c)
  {
    hide ControlStep, HttpStep, TransportStep, GuardStep, MaintainStep, RunStep;
    match s
    case Http(h) => HttpGuard(w, h, g, c);
    case Transport(t) => TransportGuard(w, t, g, c);
    case Work(k) => WorkLeaves(w, k, g);
    case Maintain(m) => MaintainLeaves(w, m, g);
    case Control(e) => ControlLeaves(w, e);
    case Task(r) => TaskLeaves(w, r);
  }

  lemma HttpFalling(w: World, h: HttpEvent, g: nat)
    requires g in w.guards && w.guards[g].place.Falling? && g < w.next && HttpStep(w, h).To?
    ensures Kept(w, HttpStep(w, h).w, g) && HttpStep(w, h).w.maintainer == w.maintainer
  {
  }

  lemma TransportFalling(w: World, t: TransportEvent, g: nat)
    requires g in w.guards && w.guards[g].place.Falling? && TransportStep(w, t).To?
    ensures Kept(w, TransportStep(w, t).w, g) && TransportStep(w, t).w.maintainer == w.maintainer
  {
  }

  lemma FallingStays(w: World, s: Step, g: nat)
    requires g in w.guards && w.guards[g].place.Falling? && g < w.next && w.maintainer != Working(g)
    requires Next(w, s).To? && !Drops(s, g)
    ensures Kept(w, Next(w, s).w, g) && Next(w, s).w.maintainer != Working(g)
  {
    hide ControlStep, HttpStep, TransportStep, GuardStep, MaintainStep, RunStep;
    match s
    case Http(h) => HttpFalling(w, h, g);
    case Transport(t) => TransportFalling(w, t, g);
    case Work(k) => WorkLeaves(w, k, g);
    case Maintain(m) => MaintainLeaves(w, m, g);
    case Control(e) => ControlLeaves(w, e);
    case Task(r) => TaskLeaves(w, r);
  }

  /** A prefix of a run is its first step and a prefix of the rest. */
  lemma RunPrefix(w: World, steps: seq<Step>, i: nat)
    requires i < |steps| && Next(w, steps[0]).To?
    ensures Run(w, steps[..i + 1]) == Run(Next(w, steps[0]).w, steps[1..][..i])
  {
    assert steps[..i + 1][0] == steps[0] && steps[..i + 1][1..] == steps[1..][..i];
  }

  /** The guard is live before each of the first j steps and after the last of them. */
  predicate LiveUntil(w: World, steps: seq<Step>, g: nat, j: nat)
    requires j <= |steps|
  {
    forall k :: 0 <= k <= j ==> Run(w, steps[..k]).To? && g in Run(w, steps[..k]).w.guards
  }

  lemma LiveStep(w: World, steps: seq<Step>, g: nat, j: nat)
    requires j < |steps| && Next(w, steps[0]).To? && g in w.guards
    requires LiveUntil(Next(w, steps[0]).w, steps[1..], g, j)
    ensures LiveUntil(w, steps, g, j + 1)
  {
    hide Next;
    forall k | 0 <= k <= j + 1 ensures Run(w, steps[..k]).To? && g in Run(w, steps[..k]).w.guards {
      if k > 0 {
        RunPrefix(w, steps, k - 1);
        assert Run(Next(w, steps[0]).w, steps[1..][..k - 1]).To?;
      }
    }
  }

  lemma {:induction false} FallingDrops(w: World, steps: seq<Step>, g: nat) returns (j: nat, panicking: bool)
    requires g in w.guards && w.guards[g].place.Falling? && w.maintainer != Working(g)
    requires g < w.next && Run(w, steps).To? && g !in Run(w, steps).w.guards
    ensures j < |steps| && steps[j] == Work(DropGuard(g, panicking))
    ensures LiveUntil(w, steps, g, j)
    decreases |steps|
  {
    hide Next;
    var v := Next(w, steps[0]).w;
    if Drops(steps[0], g) {
      j, panicking := 0, steps[0].g.panicking;
    } else {
      FallingStays(w, steps[0], g);
      NextProgress(w, steps[0]);
      j, panicking := FallingDrops(v, steps[1..], g);
      LiveStep(w, steps, g, j);
      j := j + 1;
    }
  }

  /** A request guard that has gone was let go by step i, in one of the three permitted ways, and dropped by a
      later step j; at every moment until that drop it was live, and so counted. */
  lemma {:induction false} RequestReleasedProperly(w: World, steps: seq<Step>, g: nat, c: nat) returns (i: nat, j: nat)
    requires Belongs(w, g, c) && g < w.next && w.maintainer != Working(g)
    requires Run(w, steps).To? && g !in Run(w, steps).w.guards
    ensures i < j < |steps| && LiveUntil(w, steps, g, j)
    ensures Run(w, steps[..i]).To? && LetsGoOf(Run(w, steps[..i]).w, steps[i], g, c)
    ensures Drops(steps[j], g)
    decreases |steps|
  {
    hide Next;
    var s := steps[0];
    var v := Next(w, s).w;
    BelongsStep(w, s, g, c);
    NextProgress(w, s);
    var tail := steps[1..];
    if LetsGoOf(w, s, g, c) {
      var panicking;
      j, panicking := FallingDrops(v, tail, g);
      i := 0;
    } else {
      i, j := RequestReleasedProperly(v, tail, g, c);
      RunPrefix(w, steps, i);
      i := i + 1;
    }
    LiveStep(w, steps, g, j);
    j := j + 1;
  }

  /** A guard that has been dropped never comes back, so it is dropped exactly once. */
  lemma {:induction false} DroppedOnce(w: World, steps: seq<Step>, g: nat)
    requires g < w.next && g !in w.guards && Run(w, steps).To?
    ensures g !in Run(w, steps).w.guards
    ensures forall panicking :: Work(DropGuard(g, panicking)) !in steps
    decreases |steps|
  {
    if steps != [] {
      var v := Next(w, steps[0]).w;
      NextProgress(w, steps[0]);
      DroppedOnce(v, steps[1..], g);
      assert steps == [steps[0]] + steps[1..];
    }
  }
}
