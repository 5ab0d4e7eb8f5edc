/** When the multiplexer loses bytes it has accepted for a stream, and how many. */
module BridgeLosses {
  import opened Octets
  import opened Wire
  import opened Bridge
  import opened BridgeInvariant
  import opened BridgeRuns

  function PendingOf(c: Core, id: u32): seq<byte> {
    var l := LookUp(c.slots, id);
    if l.Found? then l.stream.pending else []
  }

  /** How many of the bytes accepted for a stream are neither on its socket nor pending. */
  function Lost(c: Core, id: u32): int {
    |Payloads(c.dispatched, id)| - |At(c.toLocal, id)| - |PendingOf(c, id)|
  }

  /** Dispatching a frame loses bytes in two cases only: a close drops what its stream had pending, and data for a
      stream that is closed is dropped. */
  function LostByFrame(c: Core, f: Frame, id: u32): nat {
    if f.id != id then 0
    else if f.tag == CLOSE then |PendingOf(c, id)|
    else if f.tag == DATA && LookUp(c.slots, id) == Missing then |f.payload|
    else 0
  }

  /** The frame a read completes, if it completes one. */
  function Completed(c: Core, get: Get): seq<Frame> {
    if !get.Read? || |c.incoming| >= Need(c.incoming) then [] else
    var all := c.incoming + get.bytes[..Least(|get.bytes|, Need(c.incoming) - |c.incoming|)];
    if Complete(all) then [First(all)] else []
  }

  /** The state a read leaves before its header check. */
  function Buffered(c: Core, bytes: NonEmpty): Core
    requires |c.incoming| < Need(c.incoming)
  {
    var chunk := bytes[..Least(|bytes|, Need(c.incoming) - |c.incoming|)];
    c.(rx := c.rx + chunk, incoming := c.incoming + chunk)
  }

  lemma ReceiveIsParse(c: Core, bytes: NonEmpty)
    requires Receive(c, Read(bytes)).Next?
    ensures |c.incoming| < Need(c.incoming) && Receive(c, Read(bytes)) == Parse(Buffered(c, bytes))
    ensures var d := Buffered(c, bytes);
            && d.slots == c.slots && d.serial == c.serial && d.toLocal == c.toLocal && d.dispatched == c.dispatched
            && Completed(c, Read(bytes)) == if Complete(d.incoming) then [First(d.incoming)] else []
  {
  }

  /** A read loses exactly what the frame it completes loses. */
  lemma ReceiveLoses(c: Core, get: Get, id: u32)
    requires SlotsOk(c) && Receive(c, get).Next?
    ensures Lost(Receive(c, get).core, id) == Lost(c, id) + LostByRead(c, get, id)
  {
    if get.Read? {
      ReceiveIsParse(c, get.bytes);
      var d := Buffered(c, get.bytes);
      BufferedLoses(c, d, if Complete(d.incoming) then First(d.incoming) else Frame(ACK, 0, []), id);
      hide Parse, Lost, LostByFrame, Complete, First, Buffered, Receive, Completed;
      ParseLoses(d, id);
    }
  }

  function LostByRead(c: Core, get: Get, id: u32): nat {
    var fs := Completed(c, get);
    if fs == [] then 0 else LostByFrame(c, fs[0], id)
  }

  lemma BufferedLoses(c: Core, d: Core, f: Frame, id: u32)
    requires d.slots == c.slots && d.serial == c.serial && d.toLocal == c.toLocal && d.dispatched == c.dispatched
    ensures Lost(d, id) == Lost(c, id) && LostByFrame(d, f, id) == LostByFrame(c, f, id)
    ensures SlotsOk(c) ==> SlotsOk(d)
  {
  }

  lemma ParseLoses(c: Core, id: u32)
    requires SlotsOk(c) && Parse(c).Next?
    ensures Lost(Parse(c).core, id) == Lost(c, id) +
      if Complete(c.incoming) then LostByFrame(c, First(c.incoming), id) else 0
  {
    if Complete(c.incoming) { DispatchLoses(c.(incoming := []), First(c.incoming), id); }
  }

  lemma DispatchLoses(c: Core, f: Frame, id: u32)
    requires SlotsOk(c) && f.tag in {DATA, CLOSE, ACK} && Dispatch(c, f).Next?
    ensures Lost(Dispatch(c, f).core, id) == Lost(c, id) + LostByFrame(c, f, id)
  {
    hide Find, Payloads;
    var k := Find(c.slots, f.id);
    Snoc(c.dispatched, f, id);
    if k >= 0 {
      LookUpLive(c, k);
      Exchange(c.slots, k, Deliver(c.slots[k], f), id);
    }
  }

  /** Serving a stream loses bytes in one case only: its socket ended or failed while bytes were pending for it. */
  lemma PullLoses(c: Core, i: nat, get: Get, id: u32)
    requires SlotsOk(c) && i < LIMIT && c.slots[i].Live()
    ensures Lost(Pull(c, i, get), id) == Lost(c, id) +
      if c.slots[i].id == id && !get.Read? && !get.GetAgain? then |c.slots[i].pending| else 0
  {
    LookUpLive(c, i);
    Exchange(c.slots, i, Pull(c, i, get).slots[i], id);
  }

  lemma AcceptLoses(c: Core, asked: bool, e: Env, id: u32)
    requires SlotsOk(c) && AcceptPhase(c, asked, e).Next?
    ensures Lost(AcceptPhase(c, asked, e).core, id) == Lost(c, id)
  {
    var d, k := AcceptPhase(c, asked, e).core, Vacant(c.slots);
    if d != c && k < LIMIT {
      assert forall j :: 0 <= j < LIMIT ==> SlotOk(c.slots[j], c.serial);
      Exchange(c.slots, k, d.slots[k], id);
      if id == c.serial + 1 { assert LookUp(c.slots, id) == Missing; }
    }
  }

  lemma FrameAckLoses(c: Core, i: nat, id: u32)
    requires SlotsOk(c) && i < LIMIT && c.slots[i].Live()
    ensures Lost(FrameAck(c, i), id) == Lost(c, id)
  {
    LookUpLive(c, i);
    Exchange(c.slots, i, FrameAck(c, i).slots[i], id);
  }

  /** Flushing, accepting, writing to a socket and acknowledging lose nothing. */
  lemma NothingElseLoses(c: Core, e: Env, asked: bool, i: nat, put: Put, id: u32)
    requires SlotsOk(c) && i < LIMIT && c.slots[i].Live()
    ensures FlushPhase(c, e).Next? ==> Lost(FlushPhase(c, e).core, id) == Lost(c, id)
    ensures AcceptPhase(c, asked, e).Next? ==> Lost(AcceptPhase(c, asked, e).core, id) == Lost(c, id)
    ensures Drain(c, i, put).Next? ==> Lost(Drain(c, i, put).core, id) == Lost(c, id)
    ensures Lost(FrameAck(c, i), id) == Lost(c, id)
  {
    hide AcceptPhase, Drain, FrameAck;
    if AcceptPhase(c, asked, e).Next? { AcceptLoses(c, asked, e, id); }
    if Drain(c, i, put).Next? { DrainLoses(c, i, put, id); }
    FrameAckLoses(c, i, id);
  }

  lemma DrainLoses(c: Core, i: nat, put: Put, id: u32)
    requires SlotsOk(c) && i < LIMIT && c.slots[i].Live() && Drain(c, i, put).Next?
    ensures Lost(Drain(c, i, put).core, id) == Lost(c, id)
  {
    LookUpLive(c, i);
    Exchange(c.slots, i, Drain(c, i, put).core.slots[i], id);
  }

  // ---------- Turns and runs ----------

  /** What serving one slot loses: the bytes still pending after its own write, if its socket then ends or fails. */
  function LostBySlot(c: Core, i: nat, ready: Ready, v: SlotEnv, id: u32): nat
    requires i < LIMIT
  {
    if !c.slots[i].Serves(id) then 0 else
    var drained := if ready.out then Drain(c, i, v.put) else Next(c);
    if drained.Stop? then 0 else
    var d := FrameAck(drained.core, i);
    if d.outgoing == [] && d.slots[i].credit && ready.inp && (v.get.End? || v.get.GetFailed?) then |d.slots[i].pending|
    else 0
  }

  function LostBySlots(c: Core, n: nat, ready: seq<Ready>, v: seq<SlotEnv>, id: u32): nat
    requires n <= LIMIT == |ready| == |v|
  {
    if n == 0 || ServeSlots(c, n - 1, ready, v).Stop? then 0 else
    LostBySlots(c, n - 1, ready, v, id)
    + LostBySlot(ServeSlots(c, n - 1, ready, v).core, n - 1, ready[n - 1], v[n - 1], id)
  }

  /** What a turn loses: by the frame its read completes, and by the sockets that end or fail. */
  function LostInTurn(c: Core, e: Env, id: u32): nat {
    var flushed := FlushPhase(c, e);
    if flushed.Stop? then 0 else
    var accepted := AcceptPhase(flushed.core, c.outgoing == [], e);
    if accepted.Stop? then 0 else
    var received := ReceivePhase(accepted.core, e);
    if received.Stop? then 0 else
    (if e.wireReadable then LostByRead(accepted.core, e.wireGet, id) else 0)
    + LostBySlots(received.core, LIMIT, Poll(c, e), e.slots, id)
  }

  function LostInRun(c: Core, es: seq<Env>, id: u32): nat
    decreases |es|
  {
    if es == [] || Turn(c, es[0]).Stop? then 0 else
    LostInTurn(c, es[0], id) + LostInRun(Turn(c, es[0]).core, es[1..], id)
  }

  lemma ServeSlotLoses(c: Core, i: nat, ready: Ready, v: SlotEnv, id: u32)
    requires Inv(c) && i < LIMIT && ServeSlot(c, i, ready, v).Next?
    ensures Lost(ServeSlot(c, i, ready, v).core, id) == Lost(c, id) + LostBySlot(c, i, ready, v, id)
  {
    InvSlots(c);
    hide Inv, SlotsOk, Lost, Drain, FrameAck, Pull;
    if c.slots[i].Live() {
      var c1 := if ready.out then Drain(c, i, v.put).core else c;
      if ready.out {
        DrainLoses(c, i, v.put, id);
        DrainKeeps(c, i, v.put);
      }
      SameOccupant(c, i, ready, v);
      InvSlots(c1);
      FrameAckLoses(c1, i, id);
      FrameAckKeeps(c1, i);
      var c2 := FrameAck(c1, i);
      InvSlots(c2);
      if c2.outgoing == [] && c2.slots[i].credit && ready.inp { PullLoses(c2, i, v.get, id); }
    }
  }

  lemma InvSlots(c: Core)
    requires Inv(c)
    ensures SlotsOk(c)
  {
  }

  lemma SameOccupant(c: Core, i: nat, ready: Ready, v: SlotEnv)
    requires i < LIMIT && c.slots[i].Live() && (ready.out ==> Drain(c, i, v.put).Next?)
    ensures var c1 := if ready.out then Drain(c, i, v.put).core else c;
            && c1.slots[i].Live() && c1.slots[i].id == c.slots[i].id
            && FrameAck(c1, i).slots[i].Live() && FrameAck(c1, i).slots[i].id == c.slots[i].id
  {
  }

  lemma {:induction false} ServeSlotsLose(c: Core, n: nat, ready: seq<Ready>, v: seq<SlotEnv>, id: u32)
    requires Inv(c) && n <= LIMIT == |ready| == |v| && ServeSlots(c, n, ready, v).Next?
    ensures Lost(ServeSlots(c, n, ready, v).core, id) == Lost(c, id) + LostBySlots(c, n, ready, v, id)
  {
    hide Inv, Lost, ServeSlot, LostBySlot;
    if n > 0 {
      ServeSlotsLose(c, n - 1, ready, v, id);
      ServeSlotsKeep(c, n - 1, ready, v);
      ServeSlotLoses(ServeSlots(c, n - 1, ready, v).core, n - 1, ready[n - 1], v[n - 1], id);
    }
  }

  lemma FlushLoses(c: Core, e: Env, id: u32)
    requires FlushPhase(c, e).Next?
    ensures Lost(FlushPhase(c, e).core, id) == Lost(c, id)
  {
  }

  /** A turn loses exactly what its read and its slots lose. */
  lemma TurnLoses(c: Core, e: Env, id: u32)
    requires Inv(c) && Turn(c, e).Next?
    ensures Lost(Turn(c, e).core, id) == Lost(c, id) + LostInTurn(c, e, id)
  {
    var c1 := FlushPhase(c, e).core;
    FlushLoses(c, e, id);
    FlushPhaseKeeps(c, e);
    var c2 := AcceptPhase(c1, c.outgoing == [], e).core;
    AcceptLoses(c1, c.outgoing == [], e, id);
    AcceptPhaseKeeps(c1, c.outgoing == [], e);
    WirePhasesKeep(c, e);
    hide Inv, Lost, FlushPhase, AcceptPhase, ServeSlots, LostBySlots, LostByRead, Receive;
    if e.wireReadable { ReceiveLoses(c2, e.wireGet, id); }
    ServeSlotsLose(WirePhases(c, e).core, LIMIT, Poll(c, e), e.slots, id);
  }

  lemma FlushPhaseKeeps(c: Core, e: Env)
    requires Inv(c) && FlushPhase(c, e).Next?
    ensures Inv(FlushPhase(c, e).core)
  {
    if c.outgoing != [] && e.wireWritable { FlushKeeps(c, e.wirePut); }
  }

  lemma AcceptPhaseKeeps(c: Core, asked: bool, e: Env)
    requires Inv(c) && AcceptPhase(c, asked, e).Next?
    ensures Inv(AcceptPhase(c, asked, e).core) && SlotsOk(AcceptPhase(c, asked, e).core)
  {
    if asked && e.connecting && c.outgoing == [] { AcceptKeeps(c, e.accepted); }
  }

  lemma {:induction false} RunLoses(c: Core, es: seq<Env>, id: u32)
    requires Inv(c) && Run(c, es).Next?
    ensures Lost(Run(c, es).core, id) == Lost(c, id) + LostInRun(c, es, id)
    decreases |es|
  {
    hide Inv, Lost, Turn, LostInTurn;
    if es != [] {
      TurnLoses(c, es[0], id);
      TurnKeeps(c, es[0]);
      RunLoses(Turn(c, es[0]).core, es[1..], id);
    }
  }

  /** In every run of the program, the bytes accepted for a stream are on its socket, pending, or among those that
      the run lost: at a close with bytes pending, or as data for a stream already closed. */
  lemma LossAccounted(es: seq<Env>, c: Core, id: u32)
    requires Run(Initial(), es) == Next(c)
    ensures |Payloads(FramesIn(c), id)| == |At(c.toLocal, id)| + |PendingOf(c, id)| + LostInRun(Initial(), es, id)
  {
    InvInitial();
    RunLoses(Initial(), es, id);
    RunKeeps(Initial(), es);
    FramesAreRecorded(c);
    assert LookUp(Initial().slots, id) == Missing;
  }

  // ---------- A run that loses bytes ----------

  function Silence(): Env {
    Env(false, PutAgain, false, AcceptFailed, false, GetAgain,
        seq(LIMIT, _ => SlotEnv(false, PutAgain, false, false, GetAgain)), false)
  }

  function Knock(): Env {
    Silence().(connecting := true, accepted := NewFd(3))
  }

  function Hear(bytes: NonEmpty): Env {
    Silence().(wireReadable := true, wireGet := Read(bytes))
  }

  lemma {:induction false} SilentSlots(c: Core, n: nat, ready: seq<Ready>, v: seq<SlotEnv>)
    requires n <= LIMIT == |ready| == |v| && c.outgoing != []
    requires forall j :: 0 <= j < LIMIT ==> !ready[j].out && !ready[j].inp
    ensures ServeSlots(c, n, ready, v) == Next(c)
  {
    if n > 0 { SilentSlots(c, n - 1, ready, v); }
  }

  lemma KnockTurn(c: Core)
    requires c.outgoing == [] && Accept(c, NewFd(3)).Next? && Accept(c, NewFd(3)).core.outgoing != []
    ensures Turn(c, Knock()) == Accept(c, NewFd(3))
  {
    hide Accept;
    assert WirePhases(c, Knock()) == Accept(c, NewFd(3));
    SilentSlots(Accept(c, NewFd(3)).core, LIMIT, Poll(c, Knock()), Knock().slots);
  }

  lemma HearTurn(c: Core, bytes: NonEmpty)
    requires c.outgoing != [] && Receive(c, Read(bytes)).Next? && Receive(c, Read(bytes)).core.outgoing != []
    ensures Turn(c, Hear(bytes)) == Receive(c, Read(bytes))
  {
    hide Receive;
    assert WirePhases(c, Hear(bytes)) == Receive(c, Read(bytes));
    SilentSlots(Receive(c, Read(bytes)).core, LIMIT, Poll(c, Hear(bytes)), Hear(bytes).slots);
  }

  predicate Welcome(c: Core, f: Frame) {
    && 0 < f.id <= c.serial
    && f.tag in {DATA, CLOSE, ACK}
    && (f.tag == DATA <==> f.payload != [])
  }

  /** The header of a frame, read on its own: the frame is dispatched at once if it has no payload. */
  lemma HeaderRead(c: Core, f: Frame)
    requires c.incoming == [] && Welcome(c, f)
    ensures var d := c.(rx := c.rx + Header(f));
            Receive(c, Read(Header(f))) ==
              if f.payload == [] then Dispatch(d, f) else Next(d.(incoming := Header(f)))
  {
    var h := Header(f);
    assert h[..HEADER] == h && [] + h == h;
    if f.payload == [] {
      FirstOfEncode(f, []);
      assert h + [] == h && Encode(f) + [] == h;
    }
  }

  lemma PayloadRead(c: Core, f: Frame)
    requires f.payload != [] && c.incoming == Header(f) && Welcome(c, f)
    ensures Receive(c, Read(f.payload)) == Dispatch(c.(rx := c.rx + f.payload, incoming := []), f)
  {
    assert f.payload[..|f.payload|] == f.payload;
    FirstOfEncode(f, []);
    assert Encode(f) + [] == Header(f) + f.payload;
    assert (Header(f) + f.payload)[1..5] == Header(f)[1..5] && (Header(f) + f.payload)[5..9] == Header(f)[5..9];
  }

  const BYTE := Frame(DATA, 1, [7])
  const BYE := Frame(CLOSE, 1, [])

  /** What a frame does to the only thing that matters here, the stream with id 1. */
  lemma Dispatched(c: Core, f: Frame, s: Stream)
    requires SlotsOk(c) && LookUp(c.slots, 1) == Found(s) && s.pending == [] && !s.ack && f.id == 1 && f.tag == DATA
    ensures var d := Dispatch(c, f); d.Next? && Follows(c, d.core, f)
    ensures LookUp(Dispatch(c, f).core.slots, 1) == Found(s.(pending := f.payload))
  {
    var k := Find(c.slots, 1);
    LookUpLive(c, k);
    Exchange(c.slots, k, s.(pending := f.payload), 1);
  }

  lemma Closed(c: Core, f: Frame)
    requires f.tag == CLOSE
    ensures var d := Dispatch(c, f); d.Next? && Follows(c, d.core, f)
  {
  }

  predicate Follows(c: Core, d: Core, f: Frame) {
    && d.dispatched == c.dispatched + [f] && d.outgoing == c.outgoing && d.serial == c.serial
    && d.incoming == c.incoming && d.toLocal == c.toLocal
  }

  /** One byte of data and then a close are received for stream 1. */
  lemma ByteThenClose(c1: Core) returns (c2: Core, c3: Core, c4: Core)
    requires SlotsOk(c1) && LookUp(c1.slots, 1) == Found(Stream(3, 1, [], true, false))
    requires c1.serial == 1 && c1.outgoing != [] && c1.incoming == [] && c1.dispatched == [] && c1.toLocal == map[]
    ensures Turn(c1, Hear(Header(BYTE))) == Next(c2)
    ensures Turn(c2, Hear([7])) == Next(c3)
    ensures Turn(c3, Hear(Header(BYE))) == Next(c4)
    ensures c4.dispatched == [BYTE] + [BYE] && c4.toLocal == map[]
  {
    c2 := c1.(rx := c1.rx + Header(BYTE), incoming := Header(BYTE));
    HeaderRead(c1, BYTE);
    PayloadRead(c2, BYTE);
    var data := c2.(rx := c2.rx + [7], incoming := []);
    assert SlotsOk(data);
    hide SlotsOk, Turn, Dispatch, Receive, Hear, Header, LookUp;
    HearTurn(c1, Header(BYTE));
    Dispatched(data, BYTE, Stream(3, 1, [], true, false));
    c3 := Dispatch(data, BYTE).core;
    HearTurn(c2, [7]);
    HeaderRead(c3, BYE);
    var close := c3.(rx := c3.rx + Header(BYE));
    Closed(close, BYE);
    c4 := Dispatch(close, BYE).core;
    HearTurn(c3, Header(BYE));
  }

  /** A connection is accepted, one byte of data arrives for it, and then its close: the byte is lost. */
  lemma PendingByteLost() returns (es: seq<Env>, c: Core)
    ensures Run(Initial(), es) == Next(c)
    ensures Payloads(FramesIn(c), 1) == [7] && At(c.toLocal, 1) == [] && PendingOf(c, 1) == []
    ensures LostInRun(Initial(), es, 1) == 1
  {
    var c0 := Initial();
    OneStream();
    KnockTurn(c0);
    InvInitial();
    TurnKeeps(c0, Knock());
    var c1 := Accept(c0, NewFd(3)).core;
    var c2, c3;
    c2, c3, c := ByteThenClose(c1);
    es := [Knock(), Hear(Header(BYTE)), Hear([7]), Hear(Header(BYE))];
    hide Inv, Turn, Accept, Hear, Knock, LostInRun, Payloads, Count, PendingOf, Lost, Header;
    FourTurns(c0, c1, c2, c3, c, es);
    ByteAndClose();
    RunKeeps(c0, es);
    FramesAreRecorded(c);
    LossAccounted(es, c, 1);
    NothingPending(es, c);
  }

  /** A stream that has been closed has nothing pending. */
  lemma NothingPending(es: seq<Env>, c: Core)
    requires Run(Initial(), es) == Next(c) && Count(FramesIn(c), CLOSE, 1) > 0
    ensures PendingOf(c, 1) == []
  {
    InvInitial();
    RunKeeps(Initial(), es);
    FramesAreRecorded(c);
    assert StreamOk(c, 1);
  }

  lemma ByteAndClose()
    ensures Payloads([BYTE] + [BYE], 1) == [7] && Count([BYTE] + [BYE], CLOSE, 1) == 1
  {
    Snoc([BYTE], BYE, 1);
    Snoc([], BYTE, 1);
    assert [] + [BYTE] == [BYTE];
  }

  /** The first connection takes slot 0 and id 1. */
  lemma OneStream()
    ensures var c := Accept(Initial(), NewFd(3));
            && c.Next? && c.core.slots == Initial().slots[0 := Stream(3, 1, [], true, false)]
            && c.core.serial == 1 && c.core.outgoing != [] && c.core.incoming == [] && c.core.dispatched == []
            && c.core.toLocal == map[] && LookUp(c.core.slots, 1) == Found(Stream(3, 1, [], true, false))
  {
    Exchange(Initial().slots, 0, Stream(3, 1, [], true, false), 1);
  }

  lemma FourTurns(c0: Core, c1: Core, c2: Core, c3: Core, c4: Core, es: seq<Env>)
    requires |es| == 4 && Turn(c0, es[0]) == Next(c1) && Turn(c1, es[1]) == Next(c2)
    requires Turn(c2, es[2]) == Next(c3) && Turn(c3, es[3]) == Next(c4)
    ensures Run(c0, es) == Next(c4)
  {
    hide Turn;
    assert es[1..][1..][1..][1..] == [];
    assert Run(c3, es[1..][1..][1..]) == Next(c4);
    assert Run(c2, es[1..][1..]) == Next(c4);
    assert Run(c1, es[1..]) == Next(c4);
  }
}
