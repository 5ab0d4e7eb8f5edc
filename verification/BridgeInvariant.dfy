/** What every turn of the multiplexer keeps, and what that says about every run. */
module BridgeInvariant {
  import opened Octets
  import opened Wire
  import opened Bridge

  // ---------- The invariant ----------

  predicate SlotsOk(c: Core) {
    && (forall i :: 0 <= i < LIMIT ==> SlotOk(c.slots[i], c.serial))
    && (forall i, j :: 0 <= i < j < LIMIT && c.slots[i].Live() && c.slots[j].Live() ==> c.slots[i].id != c.slots[j].id)
  }

  predicate SlotOk(s: Stream, serial: u32) {
    && (s.Live() ==> 0 < s.id <= serial)
    && (!s.Live() ==> s.pending == [])
    && |s.pending| <= CHUNK
    && !(s.pending != [] && s.ack)
  }

  /** The wire: what was received decodes to the frames dispatched and the buffered part of the next one;
      what was written and what is buffered spell the magic and whole frames. */
  predicate WireOk(c: Core) {
    && Decode(c.rx) == (c.dispatched, c.incoming)
    && |c.incoming| < Need(c.incoming) <= HEADER + CHUNK
    && (|c.incoming| >= HEADER ==> ValidHeader(c.incoming, c.serial))
    && c.tx + c.outgoing == MAGIC + EncodeAll(c.emitted)
    && |c.outgoing| <= HEADER + CHUNK
    && (forall f :: f in c.dispatched ==> 0 < f.id <= c.serial)
  }

  /** The books of one stream id: bytes read from and written to its socket, payloads framed and accepted,
      the stage of its emitted frames, and how many frames of each kind went each way. */
  datatype Books = Books(
    read: seq<byte>, framed: seq<byte>, written: seq<byte>, got: seq<byte>, stage: Stage,
    dataOut: nat, ackOut: nat, dataIn: nat, ackIn: nat, closeIn: nat)

  function BooksOf(c: Core, id: u32): Books {
    var e, d := c.emitted, c.dispatched;
    Books(At(c.fromLocal, id), Payloads(e, id), At(c.toLocal, id), Payloads(d, id), StageOf(e, id),
          Count(e, DATA, id), Count(e, ACK, id), Count(d, DATA, id), Count(d, ACK, id), Count(d, CLOSE, id))
  }

  datatype Lookup = Missing | Found(stream: Stream)

  function LookUp(slots: Slots, id: u32): Lookup {
    var k := Find(slots, id);
    if k < 0 then Missing else Found(slots[k])
  }

  ghost predicate Balanced(b: Books, l: Lookup, issued: bool) {
    && b.read == b.framed
    && b.written <= b.got
    && b.stage != Bad
    && (b.stage == Fresh <==> !issued)
    && b.dataOut <= 1 + b.ackIn
    && b.ackOut <= b.dataIn
    && match l
       case Missing => issued ==> b.stage == Finished || b.closeIn > 0
       case Found(s) =>
         && b.stage == Opened
         && b.closeIn == 0
         && b.written + s.pending == b.got
         && b.dataOut - b.ackIn == 1 - Bit(s.credit)
         && b.dataIn - b.ackOut == Bit(s.pending != []) + Bit(s.ack)
  }

  ghost predicate StreamOk(c: Core, id: u32) {
    Balanced(BooksOf(c, id), LookUp(c.slots, id), 0 < id <= c.serial)
  }

  ghost predicate Inv(c: Core) {
    SlotsOk(c) && WireOk(c) && forall id: u32 :: StreamOk(c, id)
  }

  lemma InvInitial()
    ensures Inv(Initial())
  {
    forall id: u32 ensures StreamOk(Initial(), id) {
      assert LookUp(Initial().slots, id) == Missing;
    }
  }

  // ---------- Each phase keeps it ----------

  /** Exchanging one slot changes the lookups of the ids it served and serves, and no other. */
  lemma Exchange(slots: Slots, i: nat, s: Stream, id: u32)
    requires i < LIMIT
    requires forall j :: 0 <= j < LIMIT && j != i && slots[j].Live() ==>
      (s.Live() ==> slots[j].id != s.id) && (slots[i].Live() ==> slots[j].id != slots[i].id)
    ensures LookUp(slots[i := s], id) ==
      if s.Serves(id) then Found(s) else if slots[i].Serves(id) then Missing else LookUp(slots, id)
  {
    var after := slots[i := s];
    assert forall j :: 0 <= j < LIMIT && j != i ==> after[j] == slots[j];
    assert after[i] == s;
    if !s.Serves(id) && !slots[i].Serves(id) {
      assert forall j :: 0 <= j < LIMIT ==> after[j].Serves(id) == slots[j].Serves(id);
    }
  }

  lemma LookUpLive(c: Core, i: nat)
    requires SlotsOk(c) && i < LIMIT && c.slots[i].Live()
    ensures LookUp(c.slots, c.slots[i].id) == Found(c.slots[i])
  {
  }

  /** The entry one emitted frame makes in the books of its stream. */
  function Sent(b: Books, f: Frame): Books {
    b.(framed := b.framed + (if f.tag == DATA then f.payload else []), stage := Step(b.stage, f.tag),
       dataOut := b.dataOut + Bit(f.tag == DATA), ackOut := b.ackOut + Bit(f.tag == ACK))
  }

  lemma EmitBooks(c: Core, d: Core, f: Frame, id: u32)
    requires d.emitted == c.emitted + [f] && d.dispatched == c.dispatched
    requires d.toLocal == c.toLocal && d.fromLocal == c.fromLocal
    ensures BooksOf(d, id) ==
      if f.id != id then BooksOf(c, id) else Sent(BooksOf(c, id), f)
  {
    Snoc(c.emitted, f, id);
  }

  /** The entry one dispatched frame makes in the books of its stream. */
  function Received(b: Books, f: Frame): Books {
    b.(got := b.got + (if f.tag == DATA then f.payload else []), dataIn := b.dataIn + Bit(f.tag == DATA),
       ackIn := b.ackIn + Bit(f.tag == ACK), closeIn := b.closeIn + Bit(f.tag == CLOSE))
  }

  lemma DispatchBooks(c: Core, d: Core, f: Frame, id: u32)
    requires d.emitted == c.emitted && d.dispatched == c.dispatched + [f]
    requires d.toLocal == c.toLocal && d.fromLocal == c.fromLocal
    ensures BooksOf(d, id) == if f.id != id then BooksOf(c, id) else Received(BooksOf(c, id), f)
  {
    Snoc(c.dispatched, f, id);
  }

  /** Framing one more frame onto an empty buffer keeps the wire well formed. */
  lemma EmitWire(c: Core, f: Frame)
    requires WireOk(c) && c.outgoing == []
    ensures WireOk(Emit(c, f))
  {
    EncodeAllSnoc(c.emitted, f);
    assert c.tx + [] == c.tx;
    Associative(MAGIC, EncodeAll(c.emitted), Encode(f));
  }

  lemma FlushKeeps(c: Core, put: Put)
    requires Inv(c) && Flush(c, put).Next?
    ensures Inv(Flush(c, put).core)
  {
    var d := Flush(c, put).core;
    if put.Wrote? {
      var k := Least(put.n, |c.outgoing|);
      assert c.outgoing[..k] + c.outgoing[k..] == c.outgoing;
      Associative(c.tx, c.outgoing[..k], c.outgoing[k..]);
    }
    forall id: u32 ensures StreamOk(d, id) { assert StreamOk(c, id); }
  }

  /** The next id has no history, so the books of the new stream start empty. */
  lemma AcceptBooks(c: Core, fd: nat, id: u32)
    requires Vacant(c.slots) < LIMIT && c.serial + 1 < U32
    requires StageOf(c.emitted, c.serial + 1) == Fresh
    requires At(c.fromLocal, c.serial + 1) == At(c.toLocal, c.serial + 1) == []
    requires forall f :: f in c.dispatched ==> f.id <= c.serial
    ensures BooksOf(Accept(c, NewFd(fd)).core, id) ==
      if id == c.serial + 1 then Books([], [], [], [], Opened, 0, 0, 0, 0, 0) else BooksOf(c, id)
  {
    var grown: u32 := c.serial + 1;
    EmitBooks(c, Accept(c, NewFd(fd)).core, Frame(OPEN, grown, []), id);
    if id == grown {
      FreshIsUntouched(c.emitted, id);
      Untouched(c.emitted, id);
      Untouched(c.dispatched, id);
    }
  }

  lemma UnissuedBooks(c: Core, id: u32)
    requires StreamOk(c, id) && !(0 < id <= c.serial)
    requires forall f :: f in c.dispatched ==> 0 < f.id <= c.serial
    ensures StageOf(c.emitted, id) == Fresh && At(c.fromLocal, id) == At(c.toLocal, id) == []
  {
    FreshIsUntouched(c.emitted, id);
    Untouched(c.emitted, id);
    Untouched(c.dispatched, id);
  }

  lemma AcceptSlots(c: Core, a: Accepted)
    requires SlotsOk(c) && Accept(c, a).Next?
    ensures SlotsOk(Accept(c, a).core)
  {
    var k, d := Vacant(c.slots), Accept(c, a).core;
    if k < LIMIT {
      assert forall j :: 0 <= j < LIMIT ==> SlotOk(c.slots[j], c.serial);
      assert forall j :: 0 <= j < LIMIT && j != k ==> d.slots[j] == c.slots[j];
    }
  }

  /** The wire does not depend on the slots, and survives a larger serial. */
  lemma WireSlots(c: Core, serial: u32, slots: Slots, fromLocal: Bytes)
    requires WireOk(c) && c.serial <= serial
    ensures WireOk(c.(serial := serial, slots := slots, fromLocal := fromLocal))
  {
  }

  lemma AcceptWire(c: Core, a: Accepted)
    requires WireOk(c) && c.outgoing == [] && Accept(c, a).Next?
    ensures WireOk(Accept(c, a).core)
  {
    hide WireOk;
    var d := Accept(c, a).core;
    if Vacant(c.slots) < LIMIT {
      WireSlots(c, d.serial, d.slots, c.fromLocal);
      EmitWire(c.(serial := d.serial, slots := d.slots), Frame(OPEN, d.serial, []));
    }
  }

  lemma AcceptStream(c: Core, a: Accepted, id: u32)
    requires SlotsOk(c) && StreamOk(c, id) && a.NewFd? && Accept(c, a).Next?
    requires Vacant(c.slots) < LIMIT ==> StreamOk(c, c.serial + 1)
    requires forall f :: f in c.dispatched ==> 0 < f.id <= c.serial
    ensures StreamOk(Accept(c, a).core, id)
  {
    hide BooksOf, LookUp, Vacant;
    var k := Vacant(c.slots);
    if k < LIMIT {
      UnissuedBooks(c, c.serial + 1);
      AcceptBooks(c, a.fd, id);
      assert forall j :: 0 <= j < LIMIT ==> SlotOk(c.slots[j], c.serial);
      Exchange(c.slots, k, Stream(a.fd, c.serial + 1, [], true, false), id);
    }
  }

  lemma AcceptKeeps(c: Core, a: Accepted)
    requires Inv(c) && c.outgoing == [] && Accept(c, a).Next?
    ensures Inv(Accept(c, a).core)
  {
    AcceptSlots(c, a);
    AcceptWire(c, a);
    forall id: u32 ensures StreamOk(Accept(c, a).core, id) {
      assert StreamOk(c, id);
      assert Vacant(c.slots) < LIMIT ==> StreamOk(c, c.serial + 1);
      AcceptStream(c, a, id);
    }
  }

  predicate Dispatchable(c: Core, f: Frame) {
    && 0 < f.id <= c.serial
    && f.tag in {DATA, CLOSE, ACK}
    && (f.tag == DATA <==> f.payload != [])
  }

  lemma DispatchStream(c: Core, f: Frame, id: u32)
    requires SlotsOk(c) && StreamOk(c, id) && Dispatchable(c, f) && Dispatch(c, f).Next?
    ensures StreamOk(Dispatch(c, f).core, id)
  {
    var k, d := Find(c.slots, f.id), Dispatch(c, f).core;
    DispatchBooks(c, d, f, id);
    if k >= 0 {
      LookUpLive(c, k);
      Exchange(c.slots, k, Deliver(c.slots[k], f), id);
      if id == f.id { DispatchBalances(BooksOf(c, id), BooksOf(d, id), c.slots[k], f); }
    }
  }

  /** The entry a frame can make in the books of the live stream it is for. */
  lemma DispatchBalances(b: Books, b': Books, s: Stream, f: Frame)
    requires Balanced(b, Found(s), true) && s.Live()
    requires f.tag in {DATA, CLOSE, ACK} && (f.tag == DATA <==> f.payload != [])
    requires b' == Received(b, f)
    requires f.tag == ACK ==> !s.credit
    requires f.tag == DATA ==> s.pending == [] && !s.ack
    ensures Balanced(b', if f.tag == CLOSE then Missing else Found(Deliver(s, f)), true)
  {
  }

  lemma DispatchSlots(c: Core, f: Frame)
    requires SlotsOk(c) && Dispatchable(c, f) && Dispatch(c, f).Next?
    ensures SlotsOk(Dispatch(c, f).core)
  {
  }

  lemma DecodeOne(s: seq<byte>)
    requires Complete(s) && |s| == HEADER + LengthOf(s)
    ensures Decode(s) == ([First(s)], [])
  {
    var t := s[HEADER + LengthOf(s)..];
    assert t == [] && Decode(t) == ([], t);
    assert [First(s)] + [] == [First(s)];
  }

  lemma ReceiveWire(c: Core, chunk: seq<byte>)
    requires WireOk(c) && |chunk| <= Need(c.incoming) - |c.incoming|
    ensures var all := c.incoming + chunk;
            if Complete(all) then
              |all| == HEADER + LengthOf(all) && Decode(c.rx + chunk) == (c.dispatched + [First(all)], [])
            else Decode(c.rx + chunk) == (c.dispatched, all)
  {
    var all := c.incoming + chunk;
    DecodeAppend(c.rx, chunk);
    NeedGrows(c.incoming, chunk);
    if Complete(all) {
      DecodeOne(all);
    } else {
      assert Decode(all) == ([], all);
      assert c.dispatched + [] == c.dispatched;
    }
  }

  /** The slots and books after a read: as they were, or as one dispatch leaves them. */
  lemma ReceiveStreams(c: Core, bytes: NonEmpty)
    requires SlotsOk(c) && (forall id: u32 :: StreamOk(c, id))
    requires Receive(c, Read(bytes)).Next?
    ensures SlotsOk(Receive(c, Read(bytes)).core)
    ensures forall id: u32 :: StreamOk(Receive(c, Read(bytes)).core, id)
  {
    var d := Receive(c, Read(bytes)).core;
    var chunk := bytes[..Least(|bytes|, Need(c.incoming) - |c.incoming|)];
    var all := c.incoming + chunk;
    if Complete(all) {
      var e := c.(rx := c.rx + chunk, incoming := []);
      DispatchSlots(e, First(all));
      forall id: u32 ensures StreamOk(d, id) {
        assert StreamOk(c, id);
        assert StreamOk(e, id);
        DispatchStream(e, First(all), id);
      }
    } else {
      forall id: u32 ensures StreamOk(d, id) { assert StreamOk(c, id); }
    }
  }

  lemma ReceiveWireOk(c: Core, bytes: NonEmpty)
    requires WireOk(c) && Receive(c, Read(bytes)).Next?
    ensures WireOk(Receive(c, Read(bytes)).core)
  {
    var chunk := bytes[..Least(|bytes|, Need(c.incoming) - |c.incoming|)];
    ReceiveWire(c, chunk);
    NeedGrows(c.incoming, chunk);
    ParseWireOk(c.(rx := c.rx + chunk, incoming := c.incoming + chunk));
  }

  lemma ParseWireOk(c: Core)
    requires Parse(c).Next?
    requires Decode(c.rx) ==
      if Complete(c.incoming) then (c.dispatched + [First(c.incoming)], []) else (c.dispatched, c.incoming)
    requires |c.incoming| <= Need(c.incoming)
    requires c.tx + c.outgoing == MAGIC + EncodeAll(c.emitted) && |c.outgoing| <= HEADER + CHUNK
    requires forall f :: f in c.dispatched ==> 0 < f.id <= c.serial
    ensures WireOk(Parse(c).core)
  {
    var d := Parse(c).core;
    assert d.rx == c.rx && d.tx == c.tx && d.outgoing == c.outgoing && d.emitted == c.emitted && d.serial == c.serial;
    if Complete(c.incoming) {
      assert d.dispatched == c.dispatched + [First(c.incoming)] && d.incoming == [];
    }
  }

  lemma ReceiveKeeps(c: Core, get: Get)
    requires Inv(c) && Receive(c, get).Next?
    ensures Inv(Receive(c, get).core)
  {
    if get.Read? {
      ReceiveStreams(c, get.bytes);
      ReceiveWireOk(c, get.bytes);
    }
  }

  lemma DrainStream(c: Core, i: nat, put: Put, id: u32)
    requires SlotsOk(c) && i < LIMIT && c.slots[i].Live() && Drain(c, i, put).Next? && put.Wrote?
    requires StreamOk(c, id)
    ensures StreamOk(Drain(c, i, put).core, id)
  {
    var d, s := Drain(c, i, put).core, c.slots[i];
    LookUpLive(c, i);
    Exchange(c.slots, i, d.slots[i], id);
    var k := Least(put.n, |s.pending|);
    assert s.pending[..k] + s.pending[k..] == s.pending;
    if id == s.id {
      Associative(At(c.toLocal, id), s.pending[..k], s.pending[k..]);
    }
  }

  lemma DrainKeeps(c: Core, i: nat, put: Put)
    requires Inv(c) && i < LIMIT && c.slots[i].Live() && Drain(c, i, put).Next?
    ensures Inv(Drain(c, i, put).core)
  {
    var d := Drain(c, i, put).core;
    if put.Wrote? {
      forall id: u32 ensures StreamOk(d, id) { DrainStream(c, i, put, id); }
    }
  }

  lemma FrameAckStream(c: Core, i: nat, id: u32)
    requires SlotsOk(c) && i < LIMIT && c.slots[i].Live() && c.outgoing == [] && c.slots[i].ack
    requires StreamOk(c, id)
    ensures StreamOk(FrameAck(c, i), id)
  {
    var d, s := FrameAck(c, i), c.slots[i];
    LookUpLive(c, i);
    EmitBooks(c, d, Frame(ACK, s.id, []), id);
    Exchange(c.slots, i, d.slots[i], id);
  }

  lemma FrameAckKeeps(c: Core, i: nat)
    requires Inv(c) && i < LIMIT && c.slots[i].Live()
    ensures Inv(FrameAck(c, i))
  {
    var d, s := FrameAck(c, i), c.slots[i];
    if c.outgoing == [] && s.ack {
      EmitWire(c.(slots := d.slots), Frame(ACK, s.id, []));
      forall id: u32 ensures StreamOk(d, id) { FrameAckStream(c, i, id); }
    }
  }

  lemma PullStream(c: Core, i: nat, get: Get, id: u32)
    requires SlotsOk(c) && i < LIMIT && c.slots[i].Live() && c.slots[i].credit && c.outgoing == []
    requires StreamOk(c, id) && !get.GetAgain?
    ensures StreamOk(Pull(c, i, get), id)
  {
    var d, s := Pull(c, i, get), c.slots[i];
    LookUpLive(c, i);
    EmitBooks(c.(fromLocal := d.fromLocal), d, d.emitted[|c.emitted|], id);
    Exchange(c.slots, i, d.slots[i], id);
  }

  lemma PullSlots(c: Core, i: nat, get: Get)
    requires SlotsOk(c) && i < LIMIT && c.slots[i].Live()
    ensures SlotsOk(Pull(c, i, get))
  {
    hide Encode;
  }

  lemma PullWire(c: Core, i: nat, get: Get)
    requires WireOk(c) && i < LIMIT && c.outgoing == [] && !get.GetAgain?
    ensures WireOk(Pull(c, i, get))
  {
    hide WireOk;
    var d := Pull(c, i, get);
    WireSlots(c, c.serial, d.slots, d.fromLocal);
    EmitWire(c.(slots := d.slots, fromLocal := d.fromLocal), d.emitted[|c.emitted|]);
  }

  lemma PullKeeps(c: Core, i: nat, get: Get)
    requires Inv(c) && i < LIMIT && c.slots[i].Live() && c.slots[i].credit && c.outgoing == []
    ensures Inv(Pull(c, i, get))
  {
    if !get.GetAgain? {
      PullSlots(c, i, get);
      PullWire(c, i, get);
      hide SlotsOk, WireOk, StreamOk, Pull;
      forall id: u32 ensures StreamOk(Pull(c, i, get), id) { PullStream(c, i, get, id); }
    }
  }
}
