/** The program itself: the poll loop over its arrays and counters, phase by phase, each phase proved to do
    what the transition system says. Ghost fields keep the history. */
module Server {
  import opened Octets
  import opened Wire
  import opened Bridge

  datatype Exit = Running | Exited(why: Reason)

  predicate Agrees(o: Outcome, x: Exit) {
    match o
    case Next(_) => x == Running
    case Stop(why) => x == Exited(why)
  }

  // ---------- memmove, memcpy, big-endian fields ----------

  /** Moves a[n..count] to the front of the buffer. */
  method MoveDown(a: array<byte>, n: nat, count: nat)
    requires n <= count <= a.Length
    modifies a
    ensures a[..count - n] == old(a[n..count])
  {
    for i := 0 to count - n
      invariant a[..i] == old(a[n..n + i])
      invariant a[i..] == old(a[i..])
    {
      assert a[i + n] == a[i..][n] == old(a[i..])[n] == old(a[i + n]);
      ghost var before := a[..];
      a[i] := a[i + n];
      assert a[i + 1..] == before[i + 1..];
      assert old(a[i..])[1..] == old(a[i + 1..]);
      assert before[i + 1..] == before[i..][1..];
    }
  }

  method CopyIn(a: array<byte>, at: nat, bytes: seq<byte>)
    requires at + |bytes| <= a.Length
    modifies a
    ensures a[..at] == old(a[..at]) && a[at..at + |bytes|] == bytes
  {
    for i := 0 to |bytes|
      invariant a[..at] == old(a[..at])
      invariant a[at..at + i] == bytes[..i]
    {
      a[at + i] := bytes[i];
    }
  }

  lemma Sliced(a: array<byte>, n: nat, i: nat, j: nat)
    requires i <= j <= n <= a.Length
    ensures a[..n][i..j] == a[i..j]
  {
  }

  method Field(a: array<byte>, at: nat) returns (v: u32)
    requires at + 4 <= a.Length
    ensures v == FromBe32(a[at..at + 4])
  {
    assert a[at..at + 4] == [a[at], a[at + 1], a[at + 2], a[at + 3]];
    v := FromBe32([a[at], a[at + 1], a[at + 2], a[at + 3]]);
  }

  class Server {
    const slots: array<Stream>
    const incoming: array<byte>
    const outgoing: array<byte>
    var have: nat
    var need: nat
    var sending: nat
    var serial: u32

    ghost var rx: seq<byte>
    ghost var tx: seq<byte>
    ghost var fromLocal: Bytes
    ghost var toLocal: Bytes
    ghost var emitted: seq<Frame>
    ghost var dispatched: seq<Frame>

    /** The buffers are where they should be and the counts within them. */
    ghost predicate Bounded()
      reads this
    {
      && slots.Length == LIMIT
      && incoming.Length == outgoing.Length == HEADER + CHUNK
      && incoming != outgoing
      && have <= HEADER + CHUNK
      && sending <= HEADER + CHUNK
    }

    ghost predicate Valid()
      reads this, incoming
    {
      Bounded() && have < need <= HEADER + CHUNK && need == Need(incoming[..have])
    }

    ghost function View(): Core
      requires Bounded()
      reads this, slots, incoming, outgoing
    {
      Core(slots[..], incoming[..have], outgoing[..sending], serial,
           rx, tx, fromLocal, toLocal, emitted, dispatched)
    }

    /** The state after the two magics have been exchanged. */
    constructor ()
      ensures Valid() && fresh(slots) && fresh(incoming) && fresh(outgoing)
      ensures View() == Initial()
    {
      slots := new Stream[LIMIT](_ => VACANT);
      incoming := new byte[HEADER + CHUNK];
      outgoing := new byte[HEADER + CHUNK];
      have, need, sending, serial := 0, HEADER, 0, 0;
      rx, tx, fromLocal, toLocal, emitted, dispatched := [], MAGIC, map[], map[], [], [];
      new;
      assert slots[..] == Initial().slots;
    }

    /** Frames a header in front of `len` payload bytes that already lie at outgoing[9..]. */
    method FrameHeader(tag: byte, id: u32, len: nat)
      requires Valid() && len <= CHUNK
      modifies this`sending, this`emitted, outgoing
      ensures Valid()
      ensures View() == Emit(old(View()), Frame(tag, id, old(outgoing[HEADER..HEADER + len])))
    {
      ghost var f := Frame(tag, id, outgoing[HEADER..HEADER + len]);
      var h := [tag] + Be32(id) + Be32(len);
      for i := 0 to HEADER
        modifies outgoing
        invariant outgoing[..i] == h[..i]
        invariant outgoing[HEADER..] == old(outgoing[HEADER..])
      {
        outgoing[i] := h[i];
      }
      sending := len + HEADER;
      emitted := emitted + [f];
      assert old(outgoing[HEADER..])[..len] == f.payload;
      assert outgoing[HEADER..HEADER + len] == outgoing[HEADER..][..len] == f.payload;
      assert outgoing[..HEADER] == h;
      assert outgoing[..sending] == outgoing[..HEADER] + outgoing[HEADER..sending];
      assert h == Header(f);
    }

    method FlushWire(e: Env) returns (x: Exit)
      requires Valid()
      modifies this`sending, this`tx, outgoing
      ensures Agrees(FlushPhase(old(View()), e), x)
      ensures x.Running? ==> Valid() && View() == FlushPhase(old(View()), e).core
    {
      x := Running;
      if sending != 0 && e.wireWritable {
        match e.wirePut
        case PutAgain =>
        case PutFailed => return Exited(Io);
        case Wrote(n) =>
          var k := Least(n, sending);
          tx := tx + outgoing[..k];
          assert outgoing[..sending][..k] == outgoing[..k];
          assert outgoing[..sending][k..] == outgoing[k..sending];
          MoveDown(outgoing, k, sending);
          sending := sending - k;
      }
    }

    method AcceptLocal(asked: bool, e: Env) returns (x: Exit)
      requires Valid()
      modifies this`serial, this`sending, this`emitted, slots, outgoing
      ensures Agrees(AcceptPhase(old(View()), asked, e), x)
      ensures x.Running? ==> Valid() && View() == AcceptPhase(old(View()), asked, e).core
    {
      hide Emit;
      x := Running;
      if asked && e.connecting && sending == 0 {
        match e.accepted
        case AcceptFailed => return Exited(Io);
        case NewFd(fd) =>
          var slot := 0;
          while slot < LIMIT && slots[slot].fd >= 0
            invariant slot <= LIMIT
            invariant forall i :: 0 <= i < slot ==> slots[i].Live()
          {
            slot := slot + 1;
          }
          VacantIs(slots[..], slot);
          if slot < LIMIT {
            if serial + 1 == U32 { return Exited(Exhausted); }
            serial := serial + 1;
            slots[slot] := Stream(fd, serial, [], true, false);
            assert slots[..] == old(slots[..])[slot := slots[slot]];
            assert outgoing[HEADER..HEADER + 0] == [];
            FrameHeader(OPEN, serial, 0);
          }
      }
    }

    /** The slot a frame is for: the last live one with its id. */
    method SlotOf(id: u32) returns (k: int)
      requires Valid()
      ensures k == Find(slots[..], id)
    {
      k := -1;
      for i := 0 to LIMIT
        invariant k == Find(slots[..i], id)
      {
        assert slots[..i + 1][..i] == slots[..i];
        if slots[i].id == id && slots[i].fd >= 0 { k := i; }
      }
      assert slots[..LIMIT] == slots[..];
    }

    /** What the finished frame does to the stream it is for. */
    method DeliverTo(k: nat, len: nat, ghost f: Frame) returns (x: Exit)
      requires Bounded() && k < LIMIT && len <= CHUNK
      requires f.tag == incoming[0] && f.payload == incoming[HEADER..HEADER + len]
      modifies slots
      ensures var s := old(slots[k]);
              x == if f.tag == ACK && s.credit then Exited(CreditOverrun)
                   else if f.tag != CLOSE && f.tag != ACK && (s.pending != [] || s.ack) then Exited(DataOverrun)
                   else Running
      ensures x.Running? ==> slots[..] == old(slots[..])[k := Deliver(old(slots[k]), f)]
    {
      var s := slots[k];
      if incoming[0] == CLOSE {
        slots[k] := s.(fd := -1, pending := []);
      } else if incoming[0] == ACK {
        if s.credit { return Exited(CreditOverrun); }
        slots[k] := s.(credit := true);
      } else if s.pending != [] || s.ack {
        return Exited(DataOverrun);
      } else {
        slots[k] := s.(pending := incoming[HEADER..HEADER + len]);
      }
      x := Running;
    }

    method DispatchFrame(len: nat) returns (x: Exit)
      requires Bounded() && have == HEADER + len && LengthOf(incoming[..have]) == len
      modifies this`have, this`need, this`dispatched, slots
      ensures Agrees(Dispatch(old(View()).(incoming := []), First(old(View()).incoming)), x)
      ensures x.Running? ==>
        Valid() && View() == Dispatch(old(View()).(incoming := []), First(old(View()).incoming)).core
    {
      ghost var f := First(incoming[..have]);
      Sliced(incoming, have, 1, 5);
      Sliced(incoming, have, HEADER, have);
      var id := Field(incoming, 1);
      have, need := 0, HEADER;
      dispatched := dispatched + [f];
      var k := SlotOf(id);
      x := Running;
      if k >= 0 { x := DeliverTo(k, len, f); }
    }

    /** Everything after the read: header checks, the new need, and the dispatch of a finished frame. */
    method ParseIncoming() returns (x: Exit)
      requires Bounded()
      requires have < HEADER ==> need == HEADER
      requires have <= Need(incoming[..have])
      modifies this`have, this`need, this`dispatched, slots
      ensures Agrees(Parse(old(View())), x)
      ensures x.Running? ==> Valid() && View() == Parse(old(View())).core
    {
      x := Running;
      if have >= HEADER {
        Sliced(incoming, have, 1, 5);
        Sliced(incoming, have, 5, 9);
        var id := Field(incoming, 1);
        var len := Field(incoming, 5);
        if id == 0 || id > serial || len > CHUNK
           || (incoming[0] != DATA && incoming[0] != CLOSE && incoming[0] != ACK)
           || (incoming[0] != DATA && len != 0) || (incoming[0] == DATA && len == 0) {
          return Exited(BadHeader);
        }
        need := len + HEADER;
        if have == need {
          x := DispatchFrame(len);
        }
      }
    }

    method TakeIn(chunk: seq<byte>)
      requires Bounded() && have + |chunk| <= HEADER + CHUNK
      modifies this`have, this`rx, incoming
      ensures Bounded()
      ensures View() == old(View()).(rx := old(rx) + chunk, incoming := old(incoming[..have]) + chunk)
    {
      CopyIn(incoming, have, chunk);
      rx := rx + chunk;
      have := have + |chunk|;
      assert incoming[..have] == incoming[..have - |chunk|] + incoming[have - |chunk|..have];
    }

    method ReceiveWire(e: Env) returns (x: Exit)
      requires Valid()
      modifies this`have, this`need, this`rx, this`dispatched, slots, incoming
      ensures Agrees(ReceivePhase(old(View()), e), x)
      ensures x.Running? ==> Valid() && View() == ReceivePhase(old(View()), e).core
    {
      hide Parse;
      x := Running;
      if !e.wireReadable { return; }
      match e.wireGet
      case End => return Exited(Io);
      case GetFailed => return Exited(Io);
      case GetAgain =>
      case Read(bytes) =>
        ghost var c := View();
        var n := Least(|bytes|, need - have);
        NeedGrows(incoming[..have], bytes[..n]);
        TakeIn(bytes[..n]);
        assert Receive(c, e.wireGet) == Parse(View());
        x := ParseIncoming();
    }

    method ServeLocal(i: nat, ready: Ready, v: SlotEnv) returns (x: Exit)
      requires Valid() && i < LIMIT
      modifies this`sending, this`toLocal, this`fromLocal, this`emitted, slots, outgoing
      ensures Agrees(ServeSlot(old(View()), i, ready, v), x)
      ensures x.Running? ==> Valid() && View() == ServeSlot(old(View()), i, ready, v).core
    {
      x := Running;
      if slots[i].fd < 0 { return; }
      ghost var c := View();
      if ready.out {
        x := DrainLocal(i, v.put);
        if x.Exited? { return; }
      }
      ghost var c1 := View();
      if sending == 0 && slots[i].ack {
        var id := slots[i].id;
        slots[i] := slots[i].(ack := false);
        FrameHeader(ACK, id, 0);
        assert slots[..] == c1.slots[i := slots[i]];
      }
      ghost var c2 := View();
      assert c2 == FrameAck(c1, i);
      if sending == 0 && slots[i].credit && ready.inp {
        PullLocal(i, v.get);
      }
    }

    method DrainLocal(i: nat, put: Put) returns (x: Exit)
      requires Valid() && i < LIMIT
      modifies this`toLocal, slots
      ensures Agrees(Drain(old(View()), i, put), x)
      ensures x.Running? ==> Valid() && View() == Drain(old(View()), i, put).core
    {
      x := Running;
      match put
      case PutAgain =>
      case PutFailed => return Exited(Io);
      case Wrote(n) =>
        var s := slots[i];
        if s.pending == [] { return Exited(ZeroIo); }
        var k := Least(n, |s.pending|);
        var rest := s.pending[k..];
        slots[i] := s.(pending := rest, ack := s.ack || rest == []);
        toLocal := toLocal[s.id := At(toLocal, s.id) + s.pending[..k]];
        assert slots[..] == old(slots[..])[i := slots[i]];
    }

    method PullLocal(i: nat, get: Get)
      requires Valid() && i < LIMIT && sending == 0
      modifies this`sending, this`fromLocal, this`emitted, slots, outgoing
      ensures Valid() && View() == Pull(old(View()), i, get)
    {
      var s := slots[i];
      match get
      case GetAgain =>
      case Read(bytes) =>
        var n := Least(|bytes|, CHUNK);
        CopyIn(outgoing, HEADER, bytes[..n]);
        slots[i] := s.(credit := false);
        fromLocal := fromLocal[s.id := At(fromLocal, s.id) + bytes[..n]];
        FrameHeader(DATA, s.id, n);
        assert slots[..] == old(slots[..])[i := slots[i]];
      case _ =>
        slots[i] := s.(fd := -1, pending := []);
        FrameHeader(CLOSE, s.id, 0);
        assert slots[..] == old(slots[..])[i := slots[i]];
    }

    /** Every slot in order. */
    method ServeAll(ready: seq<Ready>, v: seq<SlotEnv>) returns (x: Exit)
      requires Valid() && |ready| == |v| == LIMIT
      modifies this`sending, this`toLocal, this`fromLocal, this`emitted, slots, outgoing
      ensures Agrees(ServeSlots(old(View()), LIMIT, ready, v), x)
      ensures x.Running? ==> Valid() && View() == ServeSlots(old(View()), LIMIT, ready, v).core
    {
      hide ServeSlot;
      x := Running;
      for i := 0 to LIMIT
        invariant Valid() && x == Running && ServeSlots(old(View()), i, ready, v) == Next(View())
      {
        x := ServeLocal(i, ready[i], v[i]);
        if x.Exited? {
          StopsEarly(old(View()), i, ready, v, x.why);
          return;
        }
      }
    }

    /** One pass of the loop. */
    method Pass(e: Env) returns (x: Exit)
      requires Valid()
      modifies this, slots, incoming, outgoing
      ensures Agrees(Turn(old(View()), e), x)
      ensures x.Running? ==> Valid() && View() == Turn(old(View()), e).core
    {
      hide FlushPhase, AcceptPhase, ReceivePhase, ServeSlots;
      ghost var c := View();
      var ready := PollAll(e);
      var asked := sending == 0;
      x := FlushWire(e);
      if x.Exited? { return; }
      x := AcceptLocal(asked, e);
      if x.Exited? { return; }
      x := ReceiveWire(e);
      if x.Exited? { return; }
      assert WirePhases(c, e) == Next(View());
      x := ServeAll(ready, e.slots);
      if x.Exited? { return; }
      if e.wireError { return Exited(Io); }
      x := Running;
    }

    method PollAll(e: Env) returns (ready: seq<Ready>)
      requires Valid()
      ensures ready == Poll(View(), e)
    {
      ready := [];
      for i := 0 to LIMIT
        invariant |ready| == i
        invariant forall j :: 0 <= j < i ==> ready[j] == ReadyOf(slots[j], sending == 0, e.slots[j])
      {
        ready := ready + [ReadyOf(slots[i], sending == 0, e.slots[i])];
      }
    }

    /** The loop, for as long as the environment keeps it going. */
    method Serve(es: seq<Env>) returns (x: Exit)
      requires Valid()
      modifies this, slots, incoming, outgoing
      ensures Agrees(Run(old(View()), es), x)
      ensures x.Running? ==> Valid() && View() == Run(old(View()), es).core
    {
      x := Running;
      var k := 0;
      while k < |es|
        invariant k <= |es| && Valid()
        invariant Run(old(View()), es) == Run(View(), es[k..])
      {
        x := Pass(es[k]);
        if x.Exited? { return; }
        assert es[k..][1..] == es[k + 1..];
        k := k + 1;
      }
      x := Running;
    }
  }

  lemma {:induction false} VacantIs(slots: seq<Stream>, k: nat)
    requires k <= |slots|
    requires forall i :: 0 <= i < k ==> slots[i].Live()
    requires k < |slots| ==> !slots[k].Live()
    ensures Vacant(slots) == k
  {
  }

  lemma {:induction false} StopsEarly(w: Core, i: nat, ready: seq<Ready>, v: seq<SlotEnv>, why: Reason)
    requires i < LIMIT == |ready| == |v|
    requires ServeSlots(w, i + 1, ready, v) == Stop(why)
    ensures ServeSlots(w, LIMIT, ready, v) == Stop(why)
  {
    var n := i + 1;
    while n < LIMIT
      invariant n <= LIMIT && ServeSlots(w, n, ready, v) == Stop(why)
    {
      n := n + 1;
    }
  }
}
