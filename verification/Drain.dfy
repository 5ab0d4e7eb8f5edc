/** The drain protocol as a whole: tracker, connections, the control and run tasks and the maintenance loop,
    interleaved step by step. Every critical section of the tracker is one step. */
module Drain {
  import opened Wrappers
  import opened Tracker

  // ---------- State ----------

  /** Where a live guard is. `Falling` guards have been let go and are about to be dropped. */
  datatype Place =
    | Handler(conn: nat)    // the spawned request task
    | Body(conn: nat)       // the response body stream
    | Parked(conn: nat)     // deferred on the connection
    | Detached              // background work
    | Upkeep                // the maintenance loop
    | Falling(why: Exit)

  datatype Exit = Flushed(conn: nat) | ConnClosed(conn: nat) | Lost | Finished

  datatype Guard = Guard(kind: Kind, place: Place)

  datatype Conn = Conn(closed: bool, dropped: bool)

  datatype Manager = Listening | Granted | Awaiting | Answered(accepted: bool) | Broken

  datatype Runner =
    | ServingHttp | Joining | Checking | ClosingDb | Marking
    | Reporting(ok: bool) | Reported(ok: bool)

  datatype Maintainer = Sleeping | Ready | Working(guard: nat) | Ended(ok: bool)

  /** A connection is dropped when its task has ended. The last three fields of a world only remember that the
      release succeeded, that the failure flag was then found unset after the maintenance loop had ended, and that
      the database closed. */
  datatype World = World(
    inner: Inner, guards: map<nat, Guard>, next: nat, conns: map<nat, Conn>, signal: bool,
    manager: Manager, runner: Runner, maintainer: Maintainer,
    passedRelease: bool, sawClean: bool, dbClosed: bool)

  const START := World(NEW, map[], 0, map[], false, Listening, ServingHttp, Sleeping, false, false, false)

  datatype ControlEvent = BeginCmd | AbortCmd | ReleaseCmd | SendSignal | CollectAnswer | ManagerDies

  datatype HttpEvent =
    | Admit(conn: nat, workflow: Option<string>, authority: string)
    | OpenWf(id: string, authority: string)
    | CloseWf(id: string, authority: string)
    | Respond(guard: nat)
    | PanicCaught(guard: nat)
    | TaskLost(guard: nat)

  datatype TransportEvent =
    | Connect(conn: nat)
    | BodyDropped(guard: nat)
    | Flush(conn: nat)
    | CloseOnSignal(conn: nat)
    | DropStream(conn: nat)

  /** `FailHeld`: work that is still counted records a failure. `FailOn`: the request future of a connection does,
      when the task it was waiting for is lost. */
  datatype GuardEvent =
    | Detach(parent: nat)
    | DetachedEnds(guard: nat)
    | DropGuard(guard: nat, panicking: bool)
    | FailHeld(guard: nat)
    | FailOn(conn: nat)

  datatype MaintainEvent = CheckSignal | TryMaintain | MaintainFails | MaintainEnds(ok: bool) | SenderLost

  datatype RunEvent = ServeEnds(ok: bool) | Join | CheckFailed | CloseDb(ok: bool) | MarkReleased | Report

  datatype Step =
    | Control(c: ControlEvent)
    | Http(h: HttpEvent)
    | Transport(t: TransportEvent)
    | Work(g: GuardEvent)
    | Maintain(m: MaintainEvent)
    | Task(r: RunEvent)

  datatype Outcome = To(w: World) | Disabled | CountUnderflow {
    predicate IsFailure() { !To? }
    function PropagateFailure(): Outcome requires !To? { this }
    function Extract(): World requires To? { w }
  }

  // ---------- Steps ----------

  function Add(w: World, g: Guard): World {
    w.(inner := Acquire(w.inner, g.kind), guards := w.guards[w.next := g], next := w.next + 1)
  }

  predicate At(w: World, g: nat, p: Place) {
    g in w.guards && w.guards[g].place == p
  }

  function MoveTo(w: World, g: nat, p: Place): World
    requires g in w.guards
  {
    w.(guards := w.guards[g := w.guards[g].(place := p)])
  }

  /** The guards parked on a connection are let go together. */
  function LetGo(w: World, conn: nat, why: Exit): World {
    w.(guards := map g | g in w.guards ::
         if w.guards[g].place == Parked(conn) then w.guards[g].(place := Falling(why)) else w.guards[g])
  }

  predicate Up(w: World, conn: nat) {
    conn in w.conns && !w.conns[conn].dropped
  }

  predicate AllDropped(conns: map<nat, Conn>) {
    forall c :: c in conns ==> conns[c].dropped
  }

  function Failed(w: World): World {
    w.(inner := w.inner.(failed := true))
  }

  function CloseConn(w: World, conn: nat, c: Conn): World {
    LetGo(w.(conns := w.conns[conn := c.(closed := true)]), conn, ConnClosed(conn))
  }

  function ControlStep(w: World, s: ControlEvent): Outcome {
    match s
    case BeginCmd => if w.manager != Listening then Disabled else To(w.(inner := Begin(w.inner)))
    case AbortCmd => if w.manager != Listening then Disabled else To(w.(inner := Abort(w.inner)))
    case ReleaseCmd =>
      if w.manager != Listening then Disabled
      else if !Quiescent(w.inner) then To(w)
      else To(w.(inner := Release(w.inner), passedRelease := true, manager := Granted))
    // the signal cannot be sent once its receivers are gone: the server, the maintenance loop, every connection
    case SendSignal =>
      if w.manager != Granted then Disabled
      else if w.runner != ServingHttp && w.maintainer.Ended? && AllDropped(w.conns) then To(w.(manager := Broken))
      else To(w.(signal := true, manager := Awaiting))
    case CollectAnswer =>
      if w.manager == Awaiting && w.runner.Reported? then To(w.(manager := Answered(w.runner.ok))) else Disabled
    case ManagerDies => if w.manager == Listening then To(w.(manager := Broken)) else Disabled
  }

  function HttpStep(w: World, s: HttpEvent): Outcome {
    match s
    case Admit(c, workflow, authority) =>
      if !Up(w, c) then Disabled
      else if Admits(w.inner, workflow, authority) then To(Add(w, Guard(RequestWork, Handler(c)))) else To(w)
    case OpenWf(id, authority) => To(w.(inner := OpenWorkflow(w.inner, id, authority)))
    case CloseWf(id, authority) => To(w.(inner := CloseWorkflow(w.inner, id, authority)))
    case Respond(g) =>
      if g in w.guards && w.guards[g].place.Handler? then To(MoveTo(w, g, Body(w.guards[g].place.conn))) else Disabled
    case PanicCaught(g) =>
      if g in w.guards && w.guards[g].place.Handler? then To(Failed(MoveTo(w, g, Body(w.guards[g].place.conn))))
      else Disabled
    case TaskLost(g) =>
      if g in w.guards && w.guards[g].place.Handler? then To(MoveTo(w, g, Falling(Lost))) else Disabled
  }

  function TransportStep(w: World, s: TransportEvent): Outcome {
    match s
    case Connect(c) =>
      if c in w.conns || w.runner != ServingHttp then Disabled else To(w.(conns := w.conns[c := Conn(false, false)]))
    case BodyDropped(g) =>
      if g in w.guards && w.guards[g].place.Body? && w.guards[g].place.conn in w.conns then
        var c := w.guards[g].place.conn;
        To(MoveTo(w, g, if w.conns[c].closed then Falling(ConnClosed(c)) else Parked(c)))
      else Disabled
    case Flush(c) => if Up(w, c) then To(LetGo(w, c, Flushed(c))) else Disabled
    case CloseOnSignal(c) => if Up(w, c) && w.signal then To(CloseConn(w, c, w.conns[c])) else Disabled
    case DropStream(c) => if Up(w, c) then To(CloseConn(w, c, Conn(true, true))) else Disabled
  }

  function GuardStep(w: World, s: GuardEvent): Outcome {
    match s
    // detached work is only started by work that is itself still counted
    case Detach(p) => if p in w.guards then To(Add(w, Guard(BackgroundWork, Detached))) else Disabled
    case DetachedEnds(g) => if At(w, g, Detached) then To(MoveTo(w, g, Falling(Finished))) else Disabled
    case DropGuard(g, panicking) =>
      if g !in w.guards || !w.guards[g].place.Falling? then Disabled else
      (match Drop(w.inner, w.guards[g].kind, panicking)
       case Underflow => CountUnderflow
       case Kept(i) => To(w.(inner := i, guards := w.guards - {g})))
    case FailHeld(g) => if g in w.guards then To(Failed(w)) else Disabled
    case FailOn(c) => if Up(w, c) then To(Failed(w)) else Disabled
  }

  function MaintainStep(w: World, s: MaintainEvent): Outcome {
    match s
    case CheckSignal =>
      if w.maintainer != Sleeping then Disabled else To(w.(maintainer := if w.signal then Ended(true) else Ready))
    case TryMaintain =>
      if w.maintainer != Ready then Disabled
      else if w.inner.phase == Serving then To(Add(w, Guard(BackgroundWork, Upkeep)).(maintainer := Working(w.next)))
      else To(w.(maintainer := Sleeping))
    case MaintainFails => if w.maintainer.Working? then To(Failed(w)) else Disabled
    case MaintainEnds(ok) =>
      if w.maintainer.Working? && w.maintainer.guard in w.guards then
        var v := MoveTo(w, w.maintainer.guard, Falling(Finished)).(maintainer := if ok then Sleeping else Ended(false));
        To(if ok then v else Failed(v))
      else Disabled
    case SenderLost =>
      if w.maintainer == Sleeping && w.manager == Broken then To(Failed(w).(maintainer := Ended(false))) else Disabled
  }

  function RunStep(w: World, s: RunEvent): Outcome {
    match s
    // the server ends well only on the signal, and after every connection has
    case ServeEnds(ok) =>
      if w.runner != ServingHttp || (ok && !(w.signal && AllDropped(w.conns))) then Disabled
      else To(w.(runner := if ok then Joining else Reporting(false)))
    case Join =>
      if w.runner != Joining || !w.maintainer.Ended? then Disabled
      else To(w.(runner := if w.maintainer.ok then Checking else Reporting(false)))
    case CheckFailed =>
      if w.runner != Checking then Disabled
      else if w.inner.failed then To(w.(runner := Reporting(false)))
      else To(w.(runner := ClosingDb, sawClean := true))
    case CloseDb(ok) =>
      if w.runner != ClosingDb then Disabled
      else if ok then To(w.(runner := Marking, dbClosed := true)) else To(w.(runner := Reporting(false)))
    case MarkReleased =>
      if w.runner != Marking then Disabled
      else To(w.(runner := Reporting(true), inner := w.inner.(phase := Released)))
    case Report => if w.runner.Reporting? then To(w.(runner := Reported(w.runner.ok))) else Disabled
  }

  function Next(w: World, s: Step): Outcome {
    match s
    case Control(c) => ControlStep(w, c)
    case Http(h) => HttpStep(w, h)
    case Transport(t) => TransportStep(w, t)
    case Work(g) => GuardStep(w, g)
    case Maintain(m) => MaintainStep(w, m)
    case Task(r) => RunStep(w, r)
  }

  function Run(w: World, steps: seq<Step>): Outcome
    decreases |steps|
  {
    if steps == [] then To(w) else
    var v :- Next(w, steps[0]);
    Run(v, steps[1..])
  }
}
