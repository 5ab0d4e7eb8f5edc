/** The response work parked on one connection until its bytes are flushed or the connection closes. Guards are
    named by number; each call returns the guards it lets go, for the caller to drop. */
module Transport {

  datatype Parking = Parking(closed: bool, response: seq<nat>)

  /** A stream and its parking place; `closed` remembers that the signal has been seen. */
  datatype Connection = Connection(closed: bool, parking: Parking)

  const FRESH := Connection(false, Parking(false, []))

  datatype Call = BodyDropped(work: nat) | PollFlush(completed: bool) | ShouldClose(signalled: bool) | Discard

  function Defer(p: Parking, work: nat): (Parking, seq<nat>) {
    if p.closed then (p, [work]) else (p.(response := p.response + [work]), [])
  }

  function Flushed(p: Parking): (Parking, seq<nat>) {
    (p.(response := []), p.response)
  }

  function Close(p: Parking): (Parking, seq<nat>) {
    (Parking(true, []), p.response)
  }

  predicate Closes(s: Connection, c: Call) {
    c.Discard? || (c.ShouldClose? && (s.closed || c.signalled))
  }

  function Handle(s: Connection, c: Call): (Connection, seq<nat>) {
    var (p, dropped) :=
      if c.BodyDropped? then Defer(s.parking, c.work)
      else if c == PollFlush(true) then Flushed(s.parking)
      else if Closes(s, c) then Close(s.parking)
      else (s.parking, []);
    (Connection(s.closed || (c.ShouldClose? && c.signalled), p), dropped)
  }

  /** Any sequence of calls, and all they let go. */
  function HandleAll(s: Connection, calls: seq<Call>): (Connection, seq<nat>)
    decreases |calls|
  {
    if calls == [] then (s, []) else
    var (t, first) := Handle(s, calls[0]);
    var (u, rest) := HandleAll(t, calls[1..]);
    (u, first + rest)
  }

  /** The guards handed in. */
  function Given(calls: seq<Call>): seq<nat> {
    if calls == [] then []
    else (if calls[0].BodyDropped? then [calls[0].work] else []) + Given(calls[1..])
  }

  /** Over any sequence of calls every guard handed in is still parked or has been let go, exactly once. */
  lemma {:induction false} EachOnce(s: Connection, calls: seq<Call>)
    ensures var (t, dropped) := HandleAll(s, calls);
            multiset(s.parking.response) + multiset(Given(calls)) == multiset(t.parking.response) + multiset(dropped)
    decreases |calls|
  {
    if calls != [] {
      var (t, first) := Handle(s, calls[0]);
      HandleOnce(s, calls[0]);
      EachOnce(t, calls[1..]);
      var mine := if calls[0].BodyDropped? then [calls[0].work] else [];
      var (u, rest) := HandleAll(t, calls[1..]);
      Exchange(s.parking.response, mine, t.parking.response, first, Given(calls[1..]), u.parking.response, rest);
    }
  }

  lemma Exchange(a: seq<nat>, b: seq<nat>, c: seq<nat>, d: seq<nat>, e: seq<nat>, f: seq<nat>, g: seq<nat>)
    requires multiset(a) + multiset(b) == multiset(c) + multiset(d)
    requires multiset(c) + multiset(e) == multiset(f) + multiset(g)
    ensures multiset(a) + multiset(b + e) == multiset(f) + multiset(d + g)
  {
    assert multiset(b + e) == multiset(b) + multiset(e) && multiset(d + g) == multiset(d) + multiset(g);
    forall x: nat
      ensures (multiset(a) + multiset(b + e))[x] == (multiset(f) + multiset(d + g))[x]
    {
      assert (multiset(a) + multiset(b))[x] == (multiset(c) + multiset(d))[x];
      assert (multiset(c) + multiset(e))[x] == (multiset(f) + multiset(g))[x];
    }
  }

  lemma HandleOnce(s: Connection, c: Call)
    ensures var (t, dropped) := Handle(s, c);
            multiset(s.parking.response) + multiset(if c.BodyDropped? then [c.work] else [])
              == multiset(t.parking.response) + multiset(dropped)
  {
  }

  /** A closed connection has nothing parked. */
  predicate Settled(s: Connection) {
    (s.closed ==> s.parking.closed) && (s.parking.closed ==> s.parking.response == [])
  }

  /** It stays closed and empty whatever is called: every guard handed in afterwards is let go at once. */
  lemma {:induction false} ClosedForGood(s: Connection, calls: seq<Call>)
    requires Settled(s) && s.parking.closed
    ensures var (t, dropped) := HandleAll(s, calls);
            Settled(t) && t.parking.closed && dropped == Given(calls)
    decreases |calls|
  {
    if calls != [] { ClosedForGood(Handle(s, calls[0]).0, calls[1..]); }
  }

  /** A connection has closed exactly if its stream was discarded or a question found the signal. */
  lemma {:induction false} ClosedExactly(s: Connection, calls: seq<Call>)
    requires Settled(s)
    ensures var t := HandleAll(s, calls).0;
            Settled(t)
            && (t.parking.closed <==> s.parking.closed || Discard in calls || ShouldClose(true) in calls)
    decreases |calls|
  {
    if calls != [] {
      var t := Handle(s, calls[0]).0;
      ClosedExactly(t, calls[1..]);
      assert calls == [calls[0]] + calls[1..];
    }
  }

  class Pending {
    var closed: bool
    var response: seq<nat>

    ghost function Value(): Parking
      reads this
    {
      Parking(closed, response)
    }

    constructor ()
      ensures Value() == FRESH.parking
    {
      closed, response := false, [];
    }

    method DeferWork(work: nat) returns (dropped: seq<nat>)
      modifies this`response
      ensures (Value(), dropped) == Defer(old(Value()), work)
    {
      if closed { dropped := [work]; } else { response := response + [work]; dropped := []; }
    }

    method ClearFlushed() returns (dropped: seq<nat>)
      modifies this`response
      ensures (Value(), dropped) == Flushed(old(Value()))
    {
      dropped := response;
      response := [];
    }

    method CloseAndClear() returns (dropped: seq<nat>)
      modifies this
      ensures (Value(), dropped) == Close(old(Value()))
    {
      closed := true;
      dropped := response;
      response := [];
    }
  }

  class Stream {
    const state: Pending
    var closed: bool

    ghost function Value(): Connection
      reads this, state
    {
      Connection(closed, state.Value())
    }

    constructor ()
      ensures fresh(state) && Value() == FRESH
    {
      state := new Pending();
      closed := false;
    }

    /** Asked on every read and write: once the signal has been seen the answer is yes for good. */
    method AskClose(signalled: bool) returns (yes: bool, dropped: seq<nat>)
      modifies this, state
      ensures (Value(), dropped) == Handle(old(Value()), ShouldClose(signalled))
      ensures yes == Closes(old(Value()), ShouldClose(signalled)) == closed
    {
      yes, dropped := closed || signalled, [];
      if yes {
        closed := true;
        dropped := state.CloseAndClear();
      }
    }

    method Flush(completed: bool) returns (dropped: seq<nat>)
      modifies state
      ensures (Value(), dropped) == Handle(old(Value()), PollFlush(completed))
    {
      dropped := [];
      if completed { dropped := state.ClearFlushed(); }
    }

    /** The destructor of the stream. */
    method Drop() returns (dropped: seq<nat>)
      modifies state
      ensures (Value(), dropped) == Handle(old(Value()), Discard)
    {
      dropped := state.CloseAndClear();
    }

    /** The destructor of a response body that came through this connection. */
    method DropBody(work: nat) returns (dropped: seq<nat>)
      modifies state
      ensures (Value(), dropped) == Handle(old(Value()), BodyDropped(work))
    {
      dropped := state.DeferWork(work);
    }
  }
}
