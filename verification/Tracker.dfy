/** Admission and work accounting: the lock-protected state, one function and one method per critical section. */
module Tracker {
  import opened Wrappers

  datatype Phase = Serving | Draining | Releasing | Released

  datatype Kind = RequestWork | BackgroundWork

  datatype Inner = Inner(phase: Phase, requests: nat, workflows: map<string, string>, background: nat, failed: bool)

  const NEW := Inner(Serving, 0, map[], 0, false)

  predicate Closing(i: Inner) {
    i.phase == Releasing || i.phase == Released
  }

  predicate Empty(i: Inner) {
    i.requests == 0 && i.workflows == map[] && i.background == 0
  }

  predicate Owns(i: Inner, id: string, authority: string) {
    id in i.workflows && i.workflows[id] == authority
  }

  // ---------- The critical sections ----------

  function Begin(i: Inner): Inner {
    if Closing(i) then i else i.(phase := Draining)
  }

  function Abort(i: Inner): Inner {
    if Closing(i) then i else i.(phase := Serving)
  }

  predicate Quiescent(i: Inner) {
    i.phase == Draining && Empty(i) && !i.failed
  }

  function Release(i: Inner): Inner {
    if i.phase != Draining || i.requests != 0 || i.workflows != map[] || i.background != 0 || i.failed then i
    else i.(phase := Releasing)
  }

  predicate CanOpen(i: Inner, id: string) {
    i.phase == Serving && id !in i.workflows
  }

  function OpenWorkflow(i: Inner, id: string, authority: string): Inner {
    if CanOpen(i, id) then i.(workflows := i.workflows[id := authority]) else i
  }

  function CloseWorkflow(i: Inner, id: string, authority: string): Inner {
    if Owns(i, id, authority) then i.(workflows := i.workflows - {id}) else i
  }

  /** Outside a workflow only while serving; inside one for its owner, draining or not; never once releasing. */
  predicate Admits(i: Inner, workflow: Option<string>, authority: string) {
    && !Closing(i)
    && match workflow
       case None => i.phase == Serving
       case Some(id) => Owns(i, id, authority)
  }

  function Acquire(i: Inner, kind: Kind): Inner {
    match kind
    case RequestWork => i.(requests := i.requests + 1)
    case BackgroundWork => i.(background := i.background + 1)
  }

  function Held(i: Inner, kind: Kind): nat {
    match kind
    case RequestWork => i.requests
    case BackgroundWork => i.background
  }

  datatype Dropped = Underflow | Kept(inner: Inner)

  /** Dropping a guard. A drop while unwinding marks the failure first. */
  function Drop(i: Inner, kind: Kind, panicking: bool): Dropped {
    if Held(i, kind) == 0 then Underflow else
    var j := i.(failed := i.failed || panicking);
    Kept(match kind
         case RequestWork => j.(requests := j.requests - 1)
         case BackgroundWork => j.(background := j.background - 1))
  }

  // ---------- The lock-protected object ----------

  class Tracker {
    var phase: Phase
    var requests: nat
    var workflows: map<string, string>
    var background: nat
    var failed: bool

    ghost function Value(): Inner
      reads this
    {
      Inner(phase, requests, workflows, background, failed)
    }

    constructor ()
      ensures Value() == NEW
    {
      phase, requests, workflows, background, failed := Serving, 0, map[], 0, false;
    }

    method BeginDrain() returns (ok: bool)
      modifies this
      ensures Value() == Begin(old(Value())) && ok == !Closing(old(Value()))
    {
      match phase
      case Serving => phase := Draining; ok := true;
      case Draining => ok := true;
      case Releasing => ok := false;
      case Released => ok := false;
    }

    method AbortDrain() returns (ok: bool)
      modifies this
      ensures Value() == Abort(old(Value())) && ok == !Closing(old(Value()))
    {
      match phase
      case Serving => ok := true;
      case Draining => phase := Serving; ok := true;
      case Releasing => ok := false;
      case Released => ok := false;
    }

    method IsQuiescent() returns (ok: bool)
      ensures ok == Quiescent(Value())
    {
      ok := phase == Draining && requests == 0 && workflows == map[] && background == 0 && !failed;
    }

    method TryRelease() returns (ok: bool)
      modifies this`phase
      ensures Value() == Release(old(Value())) && ok == Quiescent(old(Value()))
    {
      if phase != Draining || requests != 0 || workflows != map[] || background != 0 || failed {
        return false;
      }
      phase := Releasing;
      ok := true;
    }

    method MarkReleased()
      modifies this`phase
      ensures Value() == old(Value()).(phase := Released)
    {
      phase := Released;
    }

    method Fail()
      modifies this`failed
      ensures Value() == old(Value()).(failed := true)
    {
      failed := true;
    }

    method Open(id: string, authority: string) returns (ok: bool)
      modifies this`workflows
      ensures Value() == OpenWorkflow(old(Value()), id, authority) && ok == CanOpen(old(Value()), id)
    {
      if phase != Serving || id in workflows { return false; }
      workflows := workflows[id := authority];
      ok := true;
    }

    method Close(id: string, authority: string) returns (ok: bool)
      modifies this`workflows
      ensures Value() == CloseWorkflow(old(Value()), id, authority) && ok == Owns(old(Value()), id, authority)
    {
      if id !in workflows || workflows[id] != authority { return false; }
      workflows := workflows - {id};
      ok := true;
    }

    /** Some guard exactly when the request is admitted; the guard is already counted. */
    method Request(workflow: Option<string>, authority: string) returns (guard: Option<Kind>)
      modifies this`requests
      ensures var i := old(Value());
              if Admits(i, workflow, authority) then guard == Some(RequestWork) && Value() == Acquire(i, RequestWork)
              else guard == None && Value() == i
    {
      var admitted := false;
      match workflow {
        case None => admitted := phase == Serving;
        case Some(id) => admitted := id in workflows && workflows[id] == authority;
      }
      if !admitted || phase == Releasing || phase == Released { return None; }
      requests := requests + 1;
      guard := Some(RequestWork);
    }

    method Background() returns (guard: Kind)
      modifies this`background
      ensures guard == BackgroundWork && Value() == Acquire(old(Value()), BackgroundWork)
    {
      background := background + 1;
      guard := BackgroundWork;
    }

    method Maintenance() returns (guard: Option<Kind>)
      modifies this`background
      ensures var i := old(Value());
              if i.phase == Serving then guard == Some(BackgroundWork) && Value() == Acquire(i, BackgroundWork)
              else guard == None && Value() == i
    {
      if phase != Serving { return None; }
      background := background + 1;
      guard := Some(BackgroundWork);
    }

    /** The destructor of a guard. Callers hold a guard of the kind, so the count is not zero. */
    method DropGuard(kind: Kind, panicking: bool)
      requires Held(Value(), kind) > 0
      modifies this
      ensures Drop(old(Value()), kind, panicking) == Kept(Value())
    {
      if panicking { failed := true; }
      match kind
      case RequestWork => requests := requests - 1;
      case BackgroundWork => background := background - 1;
    }
  }
}
