/** The credit-controlled multiplexer as a transition system: one `Turn` is one pass of the poll loop.
    The environment of a turn is arbitrary; a count that the operating system may choose is clipped to the
    range the call allows, so every behaviour of `read`, `write` and `poll` is some environment. */
module Bridge {
  import opened Octets
  import opened Wire

  // ---------- State ----------

  /** One slot of the stream table. `pending` is the used part of the C buffer of that name. */
  datatype Stream = Stream(fd: int, id: u32, pending: seq<byte>, credit: bool, ack: bool) {
    predicate Live() { fd >= 0 }
    predicate Serves(i: u32) { Live() && id == i }
    function Close(): Stream { this.(fd := -1, pending := []) }
  }

  const VACANT := Stream(-1, 0, [], false, false)

  type Slots = s: seq<Stream> | |s| == LIMIT witness seq(LIMIT, _ => VACANT)

  type Bytes = map<u32, seq<byte>>

  function At(m: Bytes, id: u32): seq<byte> {
    if id in m then m[id] else []
  }

  /** The loop's locals, then its history: bytes read from and written to the wire, bytes read from and
      written to each stream's socket, frames framed and frames dispatched. */
  datatype Core = Core(
    slots: Slots, incoming: seq<byte>, outgoing: seq<byte>, serial: u32,
    rx: seq<byte>, tx: seq<byte>, fromLocal: Bytes, toLocal: Bytes,
    emitted: seq<Frame>, dispatched: seq<Frame>)

  function Initial(): Core {
    Core(seq(LIMIT, _ => VACANT), [], [], 0, [], MAGIC, map[], map[], [], [])
  }

  datatype Reason =
    | Io             // the operating system refused, or the wire ended
    | Exhausted      // the stream counter would wrap
    | BadHeader
    | CreditOverrun  // an acknowledgement for a stream that holds its credit
    | DataOverrun    // data for a stream that has not acknowledged the last
    | ZeroIo         // a call with count zero

  datatype Outcome = Next(core: Core) | Stop(why: Reason) {
    predicate IsFailure() { Stop? }
    function PropagateFailure(): Outcome requires Stop? { this }
    function Extract(): Core requires Next? { core }
  }

  // ---------- Environment ----------

  type Positive = n: nat | 0 < n witness 1
  type NonEmpty = s: seq<byte> | s != [] witness [0]

  datatype Put = Wrote(n: Positive) | PutAgain | PutFailed
  datatype Get = Read(bytes: NonEmpty) | End | GetAgain | GetFailed

  datatype SlotEnv = SlotEnv(writable: bool, put: Put, readable: bool, hangup: bool, get: Get)

  datatype Accepted = NewFd(fd: nat) | AcceptFailed

  datatype EnvRaw = Env(
    wireWritable: bool, wirePut: Put, connecting: bool, accepted: Accepted,
    wireReadable: bool, wireGet: Get, slots: seq<SlotEnv>, wireError: bool)
  type Env = e: EnvRaw | |e.slots| == LIMIT
    witness Env(false, PutAgain, false, AcceptFailed, false, GetAgain,
                seq(LIMIT, _ => SlotEnv(false, PutAgain, false, false, GetAgain)), false)

  function Least(a: nat, b: nat): nat { if a < b then a else b }

  /** What `poll` reports for one slot: nothing for a negative descriptor, write and read readiness only
      where asked for, hang-up and error always. */
  datatype Ready = Ready(out: bool, inp: bool)

  function ReadyOf(s: Stream, idle: bool, v: SlotEnv): Ready {
    Ready(s.Live() && s.pending != [] && v.writable,
          s.Live() && (v.hangup || (idle && s.credit && v.readable)))
  }

  function Poll(c: Core, e: Env): seq<Ready> {
    seq(LIMIT, i requires 0 <= i < LIMIT => ReadyOf(c.slots[i], c.outgoing == [], e.slots[i]))
  }

  // ---------- One turn ----------

  function Emit(c: Core, f: Frame): Core {
    c.(outgoing := Encode(f), emitted := c.emitted + [f])
  }

  function Flush(c: Core, put: Put): Outcome {
    match put
    case PutAgain => Next(c)
    case PutFailed => Stop(Io)
    case Wrote(n) =>
      if c.outgoing == [] then Stop(ZeroIo) else
      var k := Least(n, |c.outgoing|);
      Next(c.(tx := c.tx + c.outgoing[..k], outgoing := c.outgoing[k..]))
  }

  /** The first vacant slot, or LIMIT. */
  function Vacant(slots: seq<Stream>): (k: nat)
    ensures k <= |slots|
    ensures k < |slots| ==> !slots[k].Live()
    ensures forall i :: 0 <= i < k ==> slots[i].Live()
  {
    if slots == [] || !slots[0].Live() then 0 else 1 + Vacant(slots[1..])
  }

  function Accept(c: Core, a: Accepted): Outcome {
    match a
    case AcceptFailed => Stop(Io)
    case NewFd(fd) =>
      var k := Vacant(c.slots);
      if k == LIMIT then Next(c)  // the connection is closed at once
      else if c.serial + 1 == U32 then Stop(Exhausted)
      else
        var id: u32 := c.serial + 1;
        Next(Emit(c.(serial := id, slots := c.slots[k := Stream(fd, id, [], true, false)]),
                  Frame(OPEN, id, [])))
  }

  function Need(incoming: seq<byte>): nat {
    if |incoming| < HEADER then HEADER else HEADER + LengthOf(incoming)
  }

  /** A read bounded by the need never runs past the frame it completes. */
  lemma NeedGrows(incoming: seq<byte>, chunk: seq<byte>)
    requires |incoming| + |chunk| <= Need(incoming)
    ensures |incoming + chunk| <= Need(incoming + chunk)
  {
    if |incoming| >= HEADER {
      assert (incoming + chunk)[5..9] == incoming[5..9];
    }
  }

  predicate ValidHeader(s: seq<byte>, serial: u32)
    requires |s| >= HEADER
  {
    && 0 < IdOf(s) <= serial
    && LengthOf(s) <= CHUNK
    && TagOf(s) in {DATA, CLOSE, ACK}
    && (TagOf(s) == DATA <==> LengthOf(s) != 0)
  }

  /** The last live slot that serves `id`, or -1. */
  function Find(slots: seq<Stream>, id: u32): (k: int)
    ensures -1 <= k < |slots|
    ensures k >= 0 ==> slots[k].Serves(id)
    ensures forall i :: k < i < |slots| ==> !slots[i].Serves(id)
  {
    if slots == [] then -1
    else if slots[|slots| - 1].Serves(id) then |slots| - 1
    else Find(slots[..|slots| - 1], id)
  }

  /** What a frame does to the live stream it is for. */
  function Deliver(s: Stream, f: Frame): Stream {
    if f.tag == CLOSE then s.Close()
    else if f.tag == ACK then s.(credit := true)
    else s.(pending := f.payload)
  }

  function Dispatch(c: Core, f: Frame): Outcome {
    var k := Find(c.slots, f.id);
    var d := c.(dispatched := c.dispatched + [f]);
    if k < 0 then Next(d)
    else if f.tag == ACK && c.slots[k].credit then Stop(CreditOverrun)
    else if f.tag != CLOSE && f.tag != ACK && (c.slots[k].pending != [] || c.slots[k].ack) then Stop(DataOverrun)
    else Next(d.(slots := c.slots[k := Deliver(c.slots[k], f)]))
  }

  /** What follows every read: check the header once it is whole, dispatch once the frame is. */
  function Parse(c: Core): Outcome {
    if |c.incoming| < HEADER then Next(c)
    else if !ValidHeader(c.incoming, c.serial) then Stop(BadHeader)
    else if Complete(c.incoming) then Dispatch(c.(incoming := []), First(c.incoming))
    else Next(c)
  }

  function Receive(c: Core, get: Get): Outcome {
    match get
    case End => Stop(Io)
    case GetFailed => Stop(Io)
    case GetAgain => Next(c)
    case Read(bytes) =>
      if |c.incoming| >= Need(c.incoming) then Stop(ZeroIo) else
      var n := Least(|bytes|, Need(c.incoming) - |c.incoming|);
      Parse(c.(rx := c.rx + bytes[..n], incoming := c.incoming + bytes[..n]))
  }

  function Drain(c: Core, i: nat, put: Put): Outcome
    requires i < LIMIT
  {
    match put
    case PutAgain => Next(c)
    case PutFailed => Stop(Io)
    case Wrote(n) =>
      var s := c.slots[i];
      if s.pending == [] then Stop(ZeroIo) else
      var k := Least(n, |s.pending|);
      var rest := s.pending[k..];
      Next(c.(slots := c.slots[i := s.(pending := rest, ack := s.ack || rest == [])],
              toLocal := c.toLocal[s.id := At(c.toLocal, s.id) + s.pending[..k]]))
  }

  function FrameAck(c: Core, i: nat): Core
    requires i < LIMIT
  {
    var s := c.slots[i];
    if c.outgoing == [] && s.ack then
      Emit(c.(slots := c.slots[i := s.(ack := false)]), Frame(ACK, s.id, []))
    else c
  }

  function Pull(c: Core, i: nat, get: Get): Core
    requires i < LIMIT
  {
    var s := c.slots[i];
    match get
    case GetAgain => c
    case Read(bytes) =>
      var data := bytes[..Least(|bytes|, CHUNK)];
      Emit(c.(slots := c.slots[i := s.(credit := false)],
              fromLocal := c.fromLocal[s.id := At(c.fromLocal, s.id) + data]),
           Frame(DATA, s.id, data))
    case _ =>
      Emit(c.(slots := c.slots[i := s.Close()]), Frame(CLOSE, s.id, []))
  }

  function ServeSlot(c: Core, i: nat, ready: Ready, v: SlotEnv): Outcome
    requires i < LIMIT
  {
    if !c.slots[i].Live() then Next(c) else
    var c1 :- if ready.out then Drain(c, i, v.put) else Next(c);
    var c2 := FrameAck(c1, i);
    if c2.outgoing == [] && c2.slots[i].credit && ready.inp then Next(Pull(c2, i, v.get)) else Next(c2)
  }

  /** The first n slots, in order. */
  function ServeSlots(c: Core, n: nat, ready: seq<Ready>, v: seq<SlotEnv>): Outcome
    requires n <= LIMIT == |ready| == |v|
  {
    if n == 0 then Next(c) else
    var c1 :- ServeSlots(c, n - 1, ready, v);
    ServeSlot(c1, n - 1, ready[n - 1], v[n - 1])
  }

  function FlushPhase(c: Core, e: Env): Outcome {
    if c.outgoing != [] && e.wireWritable then Flush(c, e.wirePut) else Next(c)
  }

  /** `asked`: the listener was polled, which it is only when nothing was waiting to be sent. */
  function AcceptPhase(c: Core, asked: bool, e: Env): Outcome {
    if asked && e.connecting && c.outgoing == [] then Accept(c, e.accepted) else Next(c)
  }

  function ReceivePhase(c: Core, e: Env): Outcome {
    if e.wireReadable then Receive(c, e.wireGet) else Next(c)
  }

  /** Everything a turn does before it serves the slots. */
  function WirePhases(c: Core, e: Env): Outcome {
    var c1 :- FlushPhase(c, e);
    var c2 :- AcceptPhase(c1, c.outgoing == [], e);
    ReceivePhase(c2, e)
  }

  /** One pass of the loop: flush, accept, receive, then every slot in order. */
  function Turn(c: Core, e: Env): Outcome {
    var c1 :- WirePhases(c, e);
    var c2 :- ServeSlots(c1, LIMIT, Poll(c, e), e.slots);
    if e.wireError then Stop(Io) else Next(c2)
  }

  /** Any number of turns. */
  function Run(c: Core, es: seq<Env>): Outcome
    decreases |es|
  {
    if es == [] then Next(c) else
    var d :- Turn(c, es[0]);
    Run(d, es[1..])
  }

  // ---------- What a history of frames says about one stream ----------

  function Bit(b: bool): nat { if b then 1 else 0 }

  function Count(fs: seq<Frame>, tag: byte, id: u32): nat {
    if fs == [] then 0 else
    var f := fs[|fs| - 1];
    Count(fs[..|fs| - 1], tag, id) + Bit(f.tag == tag && f.id == id)
  }

  /** The concatenated payloads of the data frames of a stream. */
  function Payloads(fs: seq<Frame>, id: u32): seq<byte> {
    if fs == [] then [] else
    var f := fs[|fs| - 1];
    Payloads(fs[..|fs| - 1], id) + if f.tag == DATA && f.id == id then f.payload else []
  }

  /** The frames of one stream, in order. */
  function Of(fs: seq<Frame>, id: u32): seq<Frame> {
    if fs == [] then [] else
    var f := fs[|fs| - 1];
    Of(fs[..|fs| - 1], id) + if f.id == id then [f] else []
  }

  datatype Stage = Fresh | Opened | Finished | Bad

  function Step(s: Stage, tag: byte): Stage {
    if s == Fresh && tag == OPEN then Opened
    else if s == Opened && (tag == DATA || tag == ACK) then Opened
    else if s == Opened && tag == CLOSE then Finished
    else Bad
  }

  function StageOf(fs: seq<Frame>, id: u32): Stage {
    if fs == [] then Fresh else
    var f := fs[|fs| - 1];
    var before := StageOf(fs[..|fs| - 1], id);
    if f.id == id then Step(before, f.tag) else before
  }

  lemma Snoc(fs: seq<Frame>, f: Frame, id: u32)
    ensures Count(fs + [f], DATA, id) == Count(fs, DATA, id) + Bit(f.tag == DATA && f.id == id)
    ensures Count(fs + [f], ACK, id) == Count(fs, ACK, id) + Bit(f.tag == ACK && f.id == id)
    ensures Count(fs + [f], CLOSE, id) == Count(fs, CLOSE, id) + Bit(f.tag == CLOSE && f.id == id)
    ensures Payloads(fs + [f], id) == Payloads(fs, id) + if f.tag == DATA && f.id == id then f.payload else []
    ensures StageOf(fs + [f], id) == if f.id == id then Step(StageOf(fs, id), f.tag) else StageOf(fs, id)
  {
    assert (fs + [f])[..|fs + [f]| - 1] == fs;
  }

  lemma {:induction false} Untouched(fs: seq<Frame>, id: u32)
    requires forall f :: f in fs ==> f.id != id
    ensures StageOf(fs, id) == Fresh && Payloads(fs, id) == []
    ensures forall tag: byte :: Count(fs, tag, id) == 0
  {
    if fs != [] {
      Untouched(fs[..|fs| - 1], id);
    }
  }

  lemma {:induction false} FreshIsUntouched(fs: seq<Frame>, id: u32)
    requires StageOf(fs, id) == Fresh
    ensures forall f :: f in fs ==> f.id != id
  {
    if fs != [] {
      FreshIsUntouched(fs[..|fs| - 1], id);
      assert fs == fs[..|fs| - 1] + [fs[|fs| - 1]];
    }
  }

  /** What a stage other than Bad means: one open first, then data and acknowledgements,
      then at most one close and nothing after it. */
  lemma {:induction false} StageShape(fs: seq<Frame>, id: u32)
    requires StageOf(fs, id) != Bad
    ensures StageOf(fs, id) == Fresh <==> Of(fs, id) == []
    ensures forall k :: 0 <= k < |Of(fs, id)| ==>
      var tag := Of(fs, id)[k].tag;
      && (tag == OPEN <==> k == 0)
      && tag in {OPEN, DATA, ACK, CLOSE}
      && (tag == CLOSE ==> StageOf(fs, id) == Finished && k == |Of(fs, id)| - 1)
    ensures StageOf(fs, id) == Finished ==> Of(fs, id)[|Of(fs, id)| - 1].tag == CLOSE
  {
    if fs != [] {
      StageShape(fs[..|fs| - 1], id);
    }
  }
}
