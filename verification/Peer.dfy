/** The multiplexer joined by two reliable byte streams to a peer that keeps the mirrored credit rules.
    Neither side can ever drive the other into a protocol error, whatever crosses in flight. */
module Peer {
  import opened Octets
  import opened Wire
  import opened Bridge
  import opened BridgeInvariant
  import opened BridgeRuns

  // ---------- The two-party system ----------

  /** The far end of one stream: data not yet delivered, credit to send, acknowledgement owed. */
  datatype Far = Far(open: bool, holding: bool, credit: bool, owes: bool)

  /** `sent` is everything the peer ever framed; it has taken the first `seen` frames of the multiplexer. */
  datatype Sys = Sys(c: Core, peer: map<u32, Far>, sent: seq<Frame>, seen: nat)

  datatype Move =
    | BridgeTurn(e: Env)
    | Take
    | Deliver(id: u32)
    | SendAck(id: u32)
    | SendData(id: u32, data: Payload)
    | SendClose(id: u32)

  datatype SysOutcome = Moved(s: Sys) | Halted(why: Reason) | PeerFault | Disallowed {
    predicate IsFailure() { !Moved? }
    function PropagateFailure(): SysOutcome requires !Moved? { this }
    function Extract(): Sys requires Moved? { s }
  }

  function StartSys(): Sys {
    Sys(Initial(), map[], [], 0)
  }

  /** The wire brings the peer's bytes, in order, as many at a time as it likes. */
  predicate WireFromPeer(s: Sys, e: Env) {
    e.wireReadable && e.wireGet.Read? ==> s.c.rx + e.wireGet.bytes <= EncodeAll(s.sent)
  }

  /** The next frame for the peer has been written to the wire in full. */
  predicate Arrived(s: Sys) {
    s.seen < |s.c.emitted| && MAGIC + EncodeAll(s.c.emitted[..s.seen + 1]) <= s.c.tx
  }

  datatype FarLookUp = Unknown | Known(far: Far)

  function FarOf(peer: map<u32, Far>, id: u32): FarLookUp {
    if id in peer then Known(peer[id]) else Unknown
  }

  datatype FarResult = Fault | Fine(far: Far)

  /** What taking a frame does to the far end it is for; frames for a closed end are dropped. */
  function FarTake(l: FarLookUp, f: Frame): FarResult {
    match l
    case Unknown => if f.tag == OPEN then Fine(Far(true, false, true, false)) else Fault
    case Known(p) =>
      if f.tag == OPEN then Fault
      else if !p.open then Fine(p)
      else if f.tag == DATA then
        if p.holding || p.owes then Fault else Fine(p.(holding := true))
      else if f.tag == ACK then
        if p.credit then Fault else Fine(p.(credit := true))
      else Fine(p.(open := false))
  }

  function TakeFrame(s: Sys, f: Frame): SysOutcome {
    match FarTake(FarOf(s.peer, f.id), f)
    case Fault => PeerFault
    case Fine(p) => Moved(s.(seen := s.seen + 1, peer := s.peer[f.id := p]))
  }

  predicate Open(s: Sys, id: u32) {
    id in s.peer && s.peer[id].open
  }

  /** The moves of the peer that put something on the wire or hand data to its own socket. */
  function FarMove(s: Sys, m: Move): SysOutcome
    requires m.Deliver? || m.SendAck? || m.SendData? || m.SendClose?
  {
    if !Open(s, m.id) then Disallowed else
    var p := s.peer[m.id];
    match m
    case Deliver(id) =>
      if !p.holding then Disallowed else Moved(s.(peer := s.peer[id := p.(holding := false, owes := true)]))
    case SendAck(id) =>
      if !p.owes then Disallowed
      else Moved(s.(peer := s.peer[id := p.(owes := false)], sent := s.sent + [Frame(ACK, id, [])]))
    case SendData(id, data) =>
      if !p.credit || data == [] then Disallowed
      else Moved(s.(peer := s.peer[id := p.(credit := false)], sent := s.sent + [Frame(DATA, id, data)]))
    case SendClose(id) =>
      Moved(s.(peer := s.peer[id := p.(open := false)], sent := s.sent + [Frame(CLOSE, id, [])]))
  }

  function SysStep(s: Sys, m: Move): SysOutcome {
    match m
    case BridgeTurn(e) =>
      if !WireFromPeer(s, e) then Disallowed else
      (match Turn(s.c, e) case Next(d) => Moved(s.(c := d)) case Stop(why) => Halted(why))
    case Take =>
      if !Arrived(s) then Disallowed else TakeFrame(s, s.c.emitted[s.seen])
    case _ => FarMove(s, m)
  }

  function SysRun(s: Sys, ms: seq<Move>): SysOutcome
    decreases |ms|
  {
    if ms == [] then Moved(s) else
    var t :- SysStep(s, ms[0]);
    SysRun(t, ms[1..])
  }

  // ---------- Prefixes of histories ----------

  lemma {:induction false} CountAppend(a: seq<Frame>, b: seq<Frame>, tag: byte, id: u32)
    ensures Count(a + b, tag, id) == Count(a, tag, id) + Count(b, tag, id)
  {
    if b == [] {
      assert a + b == a;
    } else {
      assert (a + b)[..|a + b| - 1] == a + b[..|b| - 1];
      CountAppend(a, b[..|b| - 1], tag, id);
    }
  }

  lemma {:induction false} Prefixes(a: seq<Frame>, b: seq<Frame>, id: u32)
    requires a <= b
    ensures Count(a, DATA, id) <= Count(b, DATA, id) && Count(a, ACK, id) <= Count(b, ACK, id)
    ensures Payloads(a, id) <= Payloads(b, id)
    ensures StageOf(b, id) != Bad ==> StageOf(a, id) != Bad
    ensures StageOf(b, id) == Fresh ==> StageOf(a, id) == Fresh
  {
    if a == b { return; }
    var c := b[..|b| - 1];
    assert a <= c && b == c + [b[|b| - 1]];
    Prefixes(a, c, id);
    Snoc(c, b[|b| - 1], id);
  }

  // ---------- The joint invariant ----------

  /** The peer's books of one id, the mirror of the multiplexer's own. */
  datatype FarBooks = FarBooks(stage: Stage, dataIn: nat, ackIn: nat, dataOut: nat, ackOut: nat)

  function FarBooksOf(taken: seq<Frame>, sent: seq<Frame>, id: u32): FarBooks {
    FarBooks(StageOf(taken, id), Count(taken, DATA, id), Count(taken, ACK, id),
             Count(sent, DATA, id), Count(sent, ACK, id))
  }

  predicate FarBalanced(b: FarBooks, l: FarLookUp) {
    && (l.Known? <==> b.stage != Fresh)
    && b.ackOut <= b.dataIn
    && b.dataOut <= 1 + b.ackIn
    && (l.Unknown? ==> b.dataIn == b.ackIn == b.dataOut == b.ackOut == 0)
    && (l.Known? && l.far.open ==>
         && b.dataOut - b.ackIn == 1 - Bit(l.far.credit)
         && b.dataIn - b.ackOut == Bit(l.far.holding) + Bit(l.far.owes) <= 1)
  }

  predicate FarOk(s: Sys, id: u32)
    requires s.seen <= |s.c.emitted|
  {
    FarBalanced(FarBooksOf(s.c.emitted[..s.seen], s.sent, id), FarOf(s.peer, id))
  }

  predicate Proper(s: Sys, f: Frame) {
    f.id in s.peer && f.tag in {DATA, CLOSE, ACK} && (f.tag == DATA <==> f.payload != [])
  }

  ghost predicate SysInv(s: Sys) {
    && Inv(s.c)
    && s.seen <= |s.c.emitted|
    && s.c.rx <= EncodeAll(s.sent)
    && (forall f :: f in s.sent ==> Proper(s, f))
    && (forall id: u32 :: FarOk(s, id))
  }

  lemma SysInvStart()
    ensures SysInv(StartSys())
  {
    InvInitial();
  }

  /** What each side has taken is a prefix of what the other framed. */
  lemma TakenInOrder(s: Sys)
    requires SysInv(s)
    ensures s.c.dispatched <= s.sent
    ensures s.c.emitted[..s.seen] <= s.c.emitted
  {
    PrefixDecodes(s.c.rx, s.sent);
  }

  // ---------- The peer is safe ----------

  /** However much the peer has taken, it holds at most one data frame and one acknowledgement beyond
      what it has answered. */
  lemma CrossBounds(s: Sys, k: nat, id: u32)
    requires StreamOk(s.c, id) && s.c.dispatched <= s.sent && k <= |s.c.emitted|
    ensures var b := FarBooksOf(s.c.emitted[..k], s.sent, id);
            b.stage != Bad && b.dataIn <= 1 + b.ackOut && b.ackIn <= b.dataOut
  {
    Prefixes(s.c.emitted[..k], s.c.emitted, id);
    Prefixes(s.c.dispatched, s.sent, id);
  }

  function Taken(b: FarBooks, f: Frame): FarBooks {
    b.(stage := Step(b.stage, f.tag), dataIn := b.dataIn + Bit(f.tag == DATA), ackIn := b.ackIn + Bit(f.tag == ACK))
  }

  function Answered(b: FarBooks, f: Frame): FarBooks {
    b.(dataOut := b.dataOut + Bit(f.tag == DATA), ackOut := b.ackOut + Bit(f.tag == ACK))
  }

  lemma TakeBooks(taken: seq<Frame>, f: Frame, sent: seq<Frame>, id: u32)
    ensures FarBooksOf(taken + [f], sent, id) ==
      if f.id != id then FarBooksOf(taken, sent, id) else Taken(FarBooksOf(taken, sent, id), f)
  {
    Snoc(taken, f, id);
  }

  lemma SendBooks(taken: seq<Frame>, f: Frame, sent: seq<Frame>, id: u32)
    ensures FarBooksOf(taken, sent + [f], id) ==
      if f.id != id then FarBooksOf(taken, sent, id) else Answered(FarBooksOf(taken, sent, id), f)
  {
    Snoc(sent, f, id);
  }

  /** Within the bounds of the crossing, taking a frame never faults and keeps its stream's books. */
  lemma TakeSafe(l: FarLookUp, f: Frame, b: FarBooks)
    requires FarBalanced(b, l)
    requires var b' := Taken(b, f); b'.stage != Bad && b'.dataIn <= 1 + b'.ackOut && b'.ackIn <= b'.dataOut
    ensures FarTake(l, f).Fine? && FarBalanced(Taken(b, f), Known(FarTake(l, f).far))
  {
  }

  lemma TakeOwn(s: Sys, f: Frame)
    requires s.seen < |s.c.emitted| && f == s.c.emitted[s.seen]
    requires FarOk(s, f.id) && StreamOk(s.c, f.id) && s.c.dispatched <= s.sent
    ensures FarTake(FarOf(s.peer, f.id), f).Fine?
    ensures FarOk(TakeFrame(s, f).s, f.id)
  {
    hide FarBalanced, FarBooksOf, FarTake, StreamOk, Taken;
    var e := s.c.emitted[..s.seen];
    assert s.c.emitted[..s.seen + 1] == e + [f];
    TakeBooks(e, f, s.sent, f.id);
    CrossBounds(s, s.seen + 1, f.id);
    TakeSafe(FarOf(s.peer, f.id), f, FarBooksOf(e, s.sent, f.id));
  }

  lemma TakeOther(s: Sys, f: Frame, id: u32)
    requires s.seen < |s.c.emitted| && f == s.c.emitted[s.seen] && id != f.id
    requires FarOk(s, id) && TakeFrame(s, f).Moved?
    ensures FarOk(TakeFrame(s, f).s, id)
  {
    assert s.c.emitted[..s.seen + 1] == s.c.emitted[..s.seen] + [f];
    TakeBooks(s.c.emitted[..s.seen], f, s.sent, id);
  }

  lemma TakeStream(s: Sys, f: Frame, id: u32)
    requires s.seen < |s.c.emitted| && f == s.c.emitted[s.seen] && s.c.dispatched <= s.sent
    requires FarOk(s, id) && FarOk(s, f.id) && StreamOk(s.c, f.id)
    ensures TakeFrame(s, f).Moved? && FarOk(TakeFrame(s, f).s, id)
  {
    hide FarOk, StreamOk, FarTake;
    TakeOwn(s, f);
    if id != f.id { TakeOther(s, f, id); }
  }

  lemma TakeShape(s: Sys, f: Frame)
    requires TakeFrame(s, f).Moved?
    ensures var t := TakeFrame(s, f).s;
            && t.c == s.c && t.sent == s.sent && t.seen == s.seen + 1
            && forall id :: id in s.peer ==> id in t.peer
  {
  }

  lemma TakeStreams(s: Sys, f: Frame)
    requires SysInv(s) && s.c.dispatched <= s.sent && s.seen < |s.c.emitted| && f == s.c.emitted[s.seen]
    ensures TakeFrame(s, f).Moved? && TakeFrame(s, f).s.seen <= |s.c.emitted| && TakeFrame(s, f).s.c == s.c
    ensures forall id: u32 :: FarOk(TakeFrame(s, f).s, id)
  {
    assert StreamOk(s.c, f.id);
    assert forall id: u32 :: FarOk(s, id);
    hide SysInv, FarOk, StreamOk;
    TakeStream(s, f, f.id);
    TakeShape(s, f);
    forall id: u32 ensures FarOk(TakeFrame(s, f).s, id) { TakeStream(s, f, id); }
  }

  lemma TakeKeeps(s: Sys, f: Frame)
    requires SysInv(s) && s.seen < |s.c.emitted| && f == s.c.emitted[s.seen]
    ensures TakeFrame(s, f).Moved? && SysInv(TakeFrame(s, f).s)
  {
    TakenInOrder(s);
    TakeStreams(s, f);
    TakeShape(s, f);
    hide Inv, FarOk, TakeFrame, EncodeAll;
    forall g | g in s.sent ensures Proper(TakeFrame(s, f).s, g) { assert Proper(s, g); }
  }

  /** Whatever the peer may do on a stream keeps that stream's books. */
  lemma MoveBalances(s: Sys, m: Move, b: FarBooks)
    requires !m.BridgeTurn? && !m.Take? && FarMove(s, m).Moved?
    requires FarBalanced(b, FarOf(s.peer, m.id))
    ensures FarBalanced(
      match m
      case SendAck(i) => Answered(b, Frame(ACK, i, []))
      case SendData(i, data) => Answered(b, Frame(DATA, i, data))
      case SendClose(i) => Answered(b, Frame(CLOSE, i, []))
      case _ => b,
      FarOf(FarMove(s, m).s.peer, m.id))
  {
  }

  lemma SendStream(s: Sys, m: Move, id: u32)
    requires !m.BridgeTurn? && !m.Take? && FarMove(s, m).Moved?
    requires s.seen <= |s.c.emitted| && FarOk(s, id)
    ensures FarOk(FarMove(s, m).s, id)
  {
    hide FarBalanced, FarBooksOf, Answered;
    var t, e := FarMove(s, m).s, s.c.emitted[..s.seen];
    if m.id == id {
      MoveBalances(s, m, FarBooksOf(e, s.sent, id));
    } else {
      assert FarOf(t.peer, id) == FarOf(s.peer, id);
    }
    match m
    case Deliver(_) =>
    case SendAck(i) => SendBooks(e, Frame(ACK, i, []), s.sent, id);
    case SendData(i, data) => SendBooks(e, Frame(DATA, i, data), s.sent, id);
    case SendClose(i) => SendBooks(e, Frame(CLOSE, i, []), s.sent, id);
  }

  lemma SendKeeps(s: Sys, m: Move)
    requires SysInv(s) && !m.BridgeTurn? && !m.Take? && FarMove(s, m).Moved?
    ensures SysInv(FarMove(s, m).s)
  {
    var t := FarMove(s, m).s;
    if t.sent != s.sent { EncodeAllSnoc(s.sent, t.sent[|s.sent|]); }
    forall g | g in t.sent ensures Proper(t, g) {
      if g in s.sent { assert Proper(s, g); }
    }
    forall id: u32 ensures FarOk(t, id) {
      assert FarOk(s, id);
      SendStream(s, m, id);
    }
  }

  // ---------- The multiplexer is safe ----------

  /** The next thing the wire brings starts with a frame the peer sent, so its header is good. */
  lemma HeaderFromPeer(s: Sys, chunk: seq<byte>)
    requires SysInv(s) && s.c.rx + chunk <= EncodeAll(s.sent)
    requires |chunk| <= Need(s.c.incoming) - |s.c.incoming| && |s.c.incoming + chunk| >= HEADER
    ensures var all, k := s.c.incoming + chunk, |s.c.dispatched|;
            && k < |s.sent| && all[..HEADER] == Header(s.sent[k])
            && (Complete(all) ==> First(all) == s.sent[k] && s.c.dispatched + [s.sent[k]] <= s.sent)
  {
    var all := s.c.incoming + chunk;
    PrefixDecodes(s.c.rx + chunk, s.sent);
    ReceiveWire(s.c, chunk);
    if Complete(all) {
      var fs := s.c.dispatched + [First(all)];
      assert fs[|s.c.dispatched|] == s.sent[|s.c.dispatched|];
      EncodeOfFirst(all);
      assert all[..HEADER] == Encode(First(all))[..HEADER] == Header(First(all));
    }
  }

  lemma ProperHeader(s: Sys, f: Frame, h: seq<byte>)
    requires s.seen <= |s.c.emitted| && Proper(s, f) && FarOk(s, f.id) && StreamOk(s.c, f.id)
    requires |h| >= HEADER && h[..HEADER] == Header(f)
    ensures ValidHeader(h, s.c.serial)
  {
    Prefixes(s.c.emitted[..s.seen], s.c.emitted, f.id);
    assert h[1..5] == Header(f)[1..5] && h[5..9] == Header(f)[5..9] && h[0] == Header(f)[0];
  }

  lemma NoOverrun(s: Sys, f: Frame, d: Core)
    requires s.seen <= |s.c.emitted| && Proper(s, f) && FarOk(s, f.id) && StreamOk(s.c, f.id)
    requires s.c.dispatched + [f] <= s.sent && d.slots == s.c.slots
    ensures Dispatch(d, f).Next?
  {
    Snoc(s.c.dispatched, f, f.id);
    Prefixes(s.c.dispatched + [f], s.sent, f.id);
    Prefixes(s.c.emitted[..s.seen], s.c.emitted, f.id);
  }

  lemma ParseSafe(s: Sys, chunk: seq<byte>)
    requires SysInv(s) && s.c.rx + chunk <= EncodeAll(s.sent) && |chunk| <= Need(s.c.incoming) - |s.c.incoming|
    ensures Parse(s.c.(rx := s.c.rx + chunk, incoming := s.c.incoming + chunk)).Next?
  {
    var all := s.c.incoming + chunk;
    if |all| >= HEADER {
      HeaderFromPeer(s, chunk);
      var f := s.sent[|s.c.dispatched|];
      assert Proper(s, f) && FarOk(s, f.id) && StreamOk(s.c, f.id);
      ProperHeader(s, f, all);
      if Complete(all) { NoOverrun(s, f, s.c.(rx := s.c.rx + chunk, incoming := [])); }
    }
  }

  lemma ReceiveSafe(s: Sys, get: Get)
    requires SysInv(s) && (get.Read? ==> s.c.rx + get.bytes <= EncodeAll(s.sent))
    ensures Receive(s.c, get).Stop? ==> Receive(s.c, get).why == Io
  {
    hide Parse;
    if get.Read? {
      var chunk := get.bytes[..Least(|get.bytes|, Need(s.c.incoming) - |s.c.incoming|)];
      assert s.c.rx + chunk <= s.c.rx + get.bytes;
      ParseSafe(s, chunk);
    }
  }

  lemma {:induction false} ServeSlotsGrow(c: Core, n: nat, ready: seq<Ready>, v: seq<SlotEnv>)
    requires n <= LIMIT == |ready| == |v| && ServeSlots(c, n, ready, v).Next?
    ensures c.emitted <= ServeSlots(c, n, ready, v).core.emitted && ServeSlots(c, n, ready, v).core.rx == c.rx
  {
    hide ServeSlot;
    if n > 0 {
      ServeSlotsGrow(c, n - 1, ready, v);
      ServeSlotGrows(ServeSlots(c, n - 1, ready, v).core, n - 1, ready[n - 1], v[n - 1]);
    }
  }

  lemma ServeSlotGrows(c: Core, i: nat, ready: Ready, v: SlotEnv)
    requires i < LIMIT && ServeSlot(c, i, ready, v).Next?
    ensures c.emitted <= ServeSlot(c, i, ready, v).core.emitted && ServeSlot(c, i, ready, v).core.rx == c.rx
  {
  }

  /** More framed and more received, but nothing the peer has not sent, keeps the joint invariant. */
  lemma CoreAdvances(s: Sys, d: Core)
    requires SysInv(s) && Inv(d) && s.c.emitted <= d.emitted && d.rx <= EncodeAll(s.sent)
    ensures SysInv(s.(c := d))
  {
    var t := s.(c := d);
    assert d.emitted[..s.seen] == s.c.emitted[..s.seen];
    forall g | g in t.sent ensures Proper(t, g) { assert Proper(s, g); }
    forall id: u32 ensures FarOk(t, id) { assert FarOk(s, id); }
  }

  lemma AcceptAdvances(c: Core, e: Env)
    requires Inv(c) && FlushPhase(c, e).Next? && AcceptPhase(FlushPhase(c, e).core, c.outgoing == [], e).Next?
    ensures var d := AcceptPhase(FlushPhase(c, e).core, c.outgoing == [], e).core;
            Inv(d) && d.rx == c.rx && c.emitted <= d.emitted
  {
    hide Inv;
    var c1 := FlushPhase(c, e).core;
    if c.outgoing != [] && e.wireWritable { FlushKeeps(c, e.wirePut); }
    if c.outgoing == [] && e.connecting && c1.outgoing == [] { AcceptKeeps(c1, e.accepted); }
  }

  /** Flushing and accepting keep the joint invariant, up to the moment the wire is read. */
  lemma BeforeReceive(s: Sys, e: Env)
    requires SysInv(s) && FlushPhase(s.c, e).Next?
    requires AcceptPhase(FlushPhase(s.c, e).core, s.c.outgoing == [], e).Next?
    ensures var c2 := AcceptPhase(FlushPhase(s.c, e).core, s.c.outgoing == [], e).core;
            SysInv(s.(c := c2)) && c2.rx == s.c.rx && s.c.emitted <= c2.emitted
  {
    var c2 := AcceptPhase(FlushPhase(s.c, e).core, s.c.outgoing == [], e).core;
    AcceptAdvances(s.c, e);
    CoreAdvances(s, c2);
  }

  lemma WirePhasesSafe(s: Sys, e: Env)
    requires SysInv(s) && WireFromPeer(s, e)
    ensures var w := WirePhases(s.c, e);
            match w
            case Stop(why) => why == Io || why == Exhausted
            case Next(d) => SysInv(s.(c := d))
  {
    var c1 := FlushPhase(s.c, e);
    if c1.Next? {
      assert c1.core.outgoing == [] || s.c.outgoing != [];
      var c2 := AcceptPhase(c1.core, s.c.outgoing == [], e);
      if c2.Next? {
        BeforeReceive(s, e);
        var t := s.(c := c2.core);
        if e.wireReadable { ReceiveSafe(t, e.wireGet); }
        var w := ReceivePhase(c2.core, e);
        if w.Next? {
          WirePhasesKeep(s.c, e);
          ReceiveGrows(c2.core, e);
          assert w.core.rx <= EncodeAll(s.sent);
          CoreAdvances(s, w.core);
        }
      }
    }
  }

  lemma ReceiveGrows(c: Core, e: Env)
    requires ReceivePhase(c, e).Next?
    ensures var d := ReceivePhase(c, e).core;
            && d.emitted == c.emitted
            && (if e.wireReadable && e.wireGet.Read? then d.rx <= c.rx + e.wireGet.bytes else d.rx == c.rx)
  {
  }

  /** No slot is ever a reason to stop except an error of its own socket. */
  lemma {:induction false} ServeSlotsStop(c: Core, n: nat, ready: seq<Ready>, v: seq<SlotEnv>)
    requires n <= LIMIT == |ready| == |v| && ServeSlots(c, n, ready, v).Stop?
    ensures ServeSlots(c, n, ready, v).why in {Io, ZeroIo}
  {
    if n > 0 && ServeSlots(c, n - 1, ready, v).Stop? {
      ServeSlotsStop(c, n - 1, ready, v);
    }
  }

  lemma TurnSafe(s: Sys, e: Env)
    requires SysInv(s) && WireFromPeer(s, e)
    ensures match Turn(s.c, e)
            case Stop(why) => why == Io || why == Exhausted
            case Next(d) => SysInv(s.(c := d))
  {
    WirePhasesSafe(s, e);
    var w := WirePhases(s.c, e);
    if w.Next? {
      var slots := ServeSlots(w.core, LIMIT, Poll(s.c, e), e.slots);
      forall j | 0 <= j < LIMIT ensures Current(s.c, w.core, Poll(s.c, e)[j], j) { WirePhasesCurrent(s.c, e, j); }
      ServeSlotsNeverZero(s.c, w.core, LIMIT, Poll(s.c, e), e.slots);
      if slots.Stop? {
        ServeSlotsStop(w.core, LIMIT, Poll(s.c, e), e.slots);
      } else {
        ServeSlotsKeep(w.core, LIMIT, Poll(s.c, e), e.slots);
        ServeSlotsGrow(w.core, LIMIT, Poll(s.c, e), e.slots);
        CoreAdvances(s.(c := w.core), slots.core);
      }
    }
  }

  // ---------- Main results ----------

  lemma SysStepKeeps(s: Sys, m: Move)
    requires SysInv(s)
    ensures match SysStep(s, m)
            case Moved(t) => SysInv(t)
            case Halted(why) => why == Io || why == Exhausted
            case PeerFault => false
            case Disallowed => true
  {
    match m
    case BridgeTurn(e) => if WireFromPeer(s, e) { TurnSafe(s, e); }
    case Take => if Arrived(s) { TakeKeeps(s, s.c.emitted[s.seen]); }
    case _ => if FarMove(s, m).Moved? { SendKeeps(s, m); }
  }

  /** Against a peer that keeps the mirrored rules no run ends in a protocol error on either side: the
      multiplexer stops only when the operating system fails it or its stream counter is exhausted. */
  lemma {:induction false} NoProtocolError(s: Sys, ms: seq<Move>)
    requires SysInv(s)
    ensures match SysRun(s, ms)
            case Moved(t) => SysInv(t)
            case Halted(why) => why == Io || why == Exhausted
            case PeerFault => false
            case Disallowed => true
    decreases |ms|
  {
    if ms != [] {
      SysStepKeeps(s, ms[0]);
      if SysStep(s, ms[0]).Moved? { NoProtocolError(SysStep(s, ms[0]).s, ms[1..]); }
    }
  }

  /** Each direction of a stream open at both ends has exactly one credit token: held by the sender, in
      flight as data, held by the receiver, or in flight as an acknowledgement. */
  lemma OneToken(ms: seq<Move>, s: Sys, i: nat)
    requires SysRun(StartSys(), ms) == Moved(s)
    requires i < LIMIT && s.c.slots[i].Live() && Open(s, s.c.slots[i].id)
    ensures s.seen <= |s.c.emitted| && s.c.dispatched <= s.sent
    ensures var near := s.c.slots[i];
            var far := s.peer[near.id];
            var (toPeer, toBridge) := (s.c.emitted[s.seen..], s.sent[|s.c.dispatched|..]);
            && Bit(near.credit) + Count(toPeer, DATA, near.id) + Bit(far.holding) + Bit(far.owes)
                 + Count(toBridge, ACK, near.id) == 1
            && Bit(far.credit) + Count(toBridge, DATA, near.id) + Bit(near.pending != []) + Bit(near.ack)
                 + Count(toPeer, ACK, near.id) == 1
  {
    SysInvStart();
    NoProtocolError(StartSys(), ms);
    TakenInOrder(s);
    assert FarOk(s, s.c.slots[i].id) && StreamOk(s.c, s.c.slots[i].id);
    LookUpLive(s.c, i);
    TokenArithmetic(s, s.c.slots[i]);
  }

  lemma TokenArithmetic(s: Sys, near: Stream)
    requires s.seen <= |s.c.emitted| && s.c.dispatched <= s.sent
    requires FarOk(s, near.id) && StreamOk(s.c, near.id)
    requires LookUp(s.c.slots, near.id) == Found(near) && Open(s, near.id)
    ensures var far := s.peer[near.id];
            var (toPeer, toBridge) := (s.c.emitted[s.seen..], s.sent[|s.c.dispatched|..]);
            && Bit(near.credit) + Count(toPeer, DATA, near.id) + Bit(far.holding) + Bit(far.owes)
                 + Count(toBridge, ACK, near.id) == 1
            && Bit(far.credit) + Count(toBridge, DATA, near.id) + Bit(near.pending != []) + Bit(near.ack)
                 + Count(toPeer, ACK, near.id) == 1
  {
    var id := near.id;
    assert s.c.emitted == s.c.emitted[..s.seen] + s.c.emitted[s.seen..];
    assert s.sent == s.c.dispatched + s.sent[|s.c.dispatched|..];
    CountAppend(s.c.emitted[..s.seen], s.c.emitted[s.seen..], DATA, id);
    CountAppend(s.c.emitted[..s.seen], s.c.emitted[s.seen..], ACK, id);
    CountAppend(s.c.dispatched, s.sent[|s.c.dispatched|..], DATA, id);
    CountAppend(s.c.dispatched, s.sent[|s.c.dispatched|..], ACK, id);
  }

  /** End to end: what reaches a local socket is a prefix of what the peer sent on that stream, and what the
      peer has taken is a prefix of what was read from the local socket. */
  lemma EndToEnd(ms: seq<Move>, s: Sys, id: u32)
    requires SysRun(StartSys(), ms) == Moved(s)
    ensures At(s.c.toLocal, id) <= Payloads(s.sent, id)
    ensures s.seen <= |s.c.emitted| && Payloads(s.c.emitted[..s.seen], id) <= At(s.c.fromLocal, id)
  {
    SysInvStart();
    NoProtocolError(StartSys(), ms);
    TakenInOrder(s);
    Prefixes(s.c.dispatched, s.sent, id);
    Prefixes(s.c.emitted[..s.seen], s.c.emitted, id);
    assert StreamOk(s.c, id);
  }
}
