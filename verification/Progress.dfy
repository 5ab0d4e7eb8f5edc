/** The multiplexer and its peer always settle: moves that only answer what is under way pay off a debt, one can
    be made until nothing is owed, and then every credit is home. */
module Progress {
  import opened Octets
  import opened Wire
  import opened Bridge
  import opened BridgeInvariant
  import opened BridgeRuns
  import opened Peer

  /** A move that starts nothing: no new connection, no local bytes, no new data or close from the peer. */
  predicate Answering(m: Move) {
    match m
    case Take => true
    case Deliver(_) => true
    case SendAck(_) => true
    case BridgeTurn(e) => !e.connecting && forall j :: 0 <= j < LIMIT ==> !e.slots[j].readable && !e.slots[j].hangup
    case _ => false
  }

  // ---------- The debt ----------

  /** What a frame on its way still has to cause: bytes to write, frames to take, acknowledgements to send. */
  function OutWeight(f: Frame): nat { if f.tag == DATA then 14 else 1 }

  function InWeight(f: Frame): nat { if f.tag == DATA then |f.payload| + 13 else 1 }

  function OutSum(fs: seq<Frame>): nat {
    if fs == [] then 0 else OutWeight(fs[0]) + OutSum(fs[1..])
  }

  function InSum(fs: seq<Frame>): nat {
    if fs == [] then 0 else InWeight(fs[0]) + InSum(fs[1..])
  }

  function SlotWeight(s: Stream): nat {
    if !s.Live() then 0 else |s.pending| + (if s.pending != [] then 12 else 0) + (if s.ack then 11 else 0)
  }

  function SlotSum(slots: Slots, n: nat): nat
    requires n <= LIMIT
  {
    if n == 0 then 0 else SlotSum(slots, n - 1) + SlotWeight(slots[n - 1])
  }

  function FarWeight(l: FarLookUp): nat {
    if l.Unknown? || !l.far.open then 0 else (if l.far.holding then 12 else 0) + (if l.far.owes then 11 else 0)
  }

  function FarSum(peer: map<u32, Far>, n: nat): nat
    requires n <= U32
  {
    if n == 0 then 0 else FarSum(peer, n - 1) + FarWeight(FarOf(peer, n - 1))
  }

  predicate Comparable(c: Core, sent: seq<Frame>, seen: nat) {
    seen <= |c.emitted| && c.dispatched <= sent && c.rx <= EncodeAll(sent)
  }

  /** What the multiplexer and the two wires still owe. */
  function CoreDebt(c: Core, sent: seq<Frame>, seen: nat): nat
    requires Comparable(c, sent, seen)
  {
    |c.outgoing| + OutSum(c.emitted[seen..]) + (|EncodeAll(sent)| - |c.rx|)
    + InSum(sent[|c.dispatched|..]) + SlotSum(c.slots, LIMIT)
  }

  function Debt(s: Sys): nat
    requires Comparable(s.c, s.sent, s.seen)
  {
    CoreDebt(s.c, s.sent, s.seen) + FarSum(s.peer, U32)
  }

  lemma {:induction false} OutSumSnoc(fs: seq<Frame>, f: Frame)
    ensures OutSum(fs + [f]) == OutSum(fs) + OutWeight(f)
  {
    if fs != [] {
      assert (fs + [f])[1..] == fs[1..] + [f];
      OutSumSnoc(fs[1..], f);
    }
  }

  lemma {:induction false} InSumSnoc(fs: seq<Frame>, f: Frame)
    ensures InSum(fs + [f]) == InSum(fs) + InWeight(f)
  {
    if fs != [] {
      assert (fs + [f])[1..] == fs[1..] + [f];
      InSumSnoc(fs[1..], f);
    }
  }

  lemma {:induction false} SlotSumUpdate(slots: Slots, i: nat, s: Stream, n: nat)
    requires i < LIMIT && n <= LIMIT
    ensures SlotSum(slots[i := s], n) == SlotSum(slots, n) + if i < n then SlotWeight(s) - SlotWeight(slots[i]) else 0
  {
    if n > 0 { SlotSumUpdate(slots, i, s, n - 1); }
  }

  lemma {:induction false} FarSumUpdate(peer: map<u32, Far>, id: u32, p: Far, n: nat)
    requires n <= U32
    ensures FarSum(peer[id := p], n) ==
      FarSum(peer, n) + if id < n then FarWeight(Known(p)) - FarWeight(FarOf(peer, id)) else 0
  {
    if n > 0 { FarSumUpdate(peer, id, p, n - 1); }
  }

  lemma {:induction false} SlotOwing(slots: Slots, n: nat) returns (i: nat)
    requires n <= LIMIT && SlotSum(slots, n) > 0
    ensures i < n && SlotWeight(slots[i]) > 0
  {
    if SlotWeight(slots[n - 1]) > 0 { i := n - 1; } else { i := SlotOwing(slots, n - 1); }
  }

  lemma {:induction false} FarOwing(peer: map<u32, Far>, n: nat) returns (id: u32)
    requires n <= U32 && FarSum(peer, n) > 0
    ensures FarWeight(FarOf(peer, id)) > 0
  {
    if FarWeight(FarOf(peer, n - 1)) > 0 { id := n - 1; } else { id := FarOwing(peer, n - 1); }
  }

  // ---------- Every answering move pays ----------

  /** From c to d nothing happened, or something was paid off. */
  predicate Pays(c: Core, d: Core, sent: seq<Frame>, seen: nat)
    requires Comparable(c, sent, seen)
  {
    Comparable(d, sent, seen) && (d == c || CoreDebt(d, sent, seen) < CoreDebt(c, sent, seen))
  }

  lemma FlushPays(c: Core, put: Put, sent: seq<Frame>, seen: nat)
    requires Comparable(c, sent, seen) && Flush(c, put).Next?
    ensures Pays(c, Flush(c, put).core, sent, seen)
  {
  }

  lemma DeliverPays(s: Stream, f: Frame)
    requires f.tag == ACK || f.tag == CLOSE || (f.tag == DATA && s.pending == [] && !s.ack)
    ensures SlotWeight(Bridge.Deliver(s, f)) < SlotWeight(s) + InWeight(f)
  {
  }

  lemma DispatchPays(c: Core, f: Frame)
    requires f.tag in {DATA, CLOSE, ACK} && Dispatch(c, f).Next?
    ensures SlotSum(Dispatch(c, f).core.slots, LIMIT) < SlotSum(c.slots, LIMIT) + InWeight(f)
  {
    var k := Find(c.slots, f.id);
    if k >= 0 {
      DeliverPays(c.slots[k], f);
      SlotSumUpdate(c.slots, k, Bridge.Deliver(c.slots[k], f), LIMIT);
    }
  }

  lemma ReceivePays(c: Core, get: Get, sent: seq<Frame>, seen: nat)
    requires Comparable(c, sent, seen) && Receive(c, get).Next? && Comparable(Receive(c, get).core, sent, seen)
    ensures Pays(c, Receive(c, get).core, sent, seen)
  {
    if get.Read? {
      var n := Least(|get.bytes|, Need(c.incoming) - |c.incoming|);
      var all := c.incoming + get.bytes[..n];
      ParsePays(c.(rx := c.rx + get.bytes[..n], incoming := all), sent, seen);
    }
  }

  lemma ParsePays(c: Core, sent: seq<Frame>, seen: nat)
    requires Comparable(c, sent, seen) && Parse(c).Next? && Comparable(Parse(c).core, sent, seen)
    ensures CoreDebt(Parse(c).core, sent, seen) <= CoreDebt(c, sent, seen)
  {
    var d := Parse(c).core;
    if Complete(c.incoming) {
      var f := First(c.incoming);
      DispatchPays(c.(incoming := []), f);
      assert d.dispatched == c.dispatched + [f];
      assert sent[|c.dispatched|] == d.dispatched[|c.dispatched|] == f;
      assert sent[|c.dispatched|..][1..] == sent[|d.dispatched|..];
    }
  }

  lemma DrainPays(c: Core, i: nat, put: Put, sent: seq<Frame>, seen: nat)
    requires Comparable(c, sent, seen) && i < LIMIT && c.slots[i].Live() && Drain(c, i, put).Next?
    ensures Pays(c, Drain(c, i, put).core, sent, seen)
  {
    SlotSumUpdate(c.slots, i, Drain(c, i, put).core.slots[i], LIMIT);
  }

  lemma FrameAckPays(c: Core, i: nat, sent: seq<Frame>, seen: nat)
    requires Comparable(c, sent, seen) && i < LIMIT && c.slots[i].Live()
    ensures Pays(c, FrameAck(c, i), sent, seen)
  {
    var d, f := FrameAck(c, i), Frame(ACK, c.slots[i].id, []);
    if d != c {
      SlotSumUpdate(c.slots, i, d.slots[i], LIMIT);
      OutSumSnoc(c.emitted[seen..], f);
      assert d.emitted[seen..] == c.emitted[seen..] + [f];
    }
  }

  lemma ServeSlotPays(c: Core, i: nat, ready: Ready, v: SlotEnv, sent: seq<Frame>, seen: nat)
    requires Comparable(c, sent, seen) && i < LIMIT && !ready.inp && ServeSlot(c, i, ready, v).Next?
    ensures Pays(c, ServeSlot(c, i, ready, v).core, sent, seen)
  {
    hide CoreDebt;
    if c.slots[i].Live() {
      var c1 := if ready.out then Drain(c, i, v.put).core else c;
      if ready.out { DrainPays(c, i, v.put, sent, seen); }
      FrameAckPays(c1, i, sent, seen);
    }
  }

  lemma {:induction false} ServeSlotsPay(c: Core, n: nat, ready: seq<Ready>, v: seq<SlotEnv>, sent: seq<Frame>,
        seen: nat)
    requires Comparable(c, sent, seen) && n <= LIMIT == |ready| == |v| && ServeSlots(c, n, ready, v).Next?
    requires forall j :: 0 <= j < LIMIT ==> !ready[j].inp
    ensures Pays(c, ServeSlots(c, n, ready, v).core, sent, seen)
  {
    hide CoreDebt, ServeSlot;
    if n > 0 {
      ServeSlotsPay(c, n - 1, ready, v, sent, seen);
      ServeSlotPays(ServeSlots(c, n - 1, ready, v).core, n - 1, ready[n - 1], v[n - 1], sent, seen);
    }
  }

  lemma WirePhasesPay(s: Sys, e: Env)
    requires SysInv(s) && WireFromPeer(s, e) && Answering(BridgeTurn(e)) && WirePhases(s.c, e).Next?
    ensures Comparable(s.c, s.sent, s.seen) && Pays(s.c, WirePhases(s.c, e).core, s.sent, s.seen)
  {
    TakenInOrder(s);
    WirePhasesSafe(s, e);
    TakenInOrder(s.(c := WirePhases(s.c, e).core));
    hide CoreDebt, SysInv;
    var c1 := FlushPhase(s.c, e).core;
    if s.c.outgoing != [] && e.wireWritable { FlushPays(s.c, e.wirePut, s.sent, s.seen); }
    if e.wireReadable { ReceivePays(c1, e.wireGet, s.sent, s.seen); }
  }

  lemma TurnPays(s: Sys, e: Env)
    requires SysInv(s) && WireFromPeer(s, e) && Answering(BridgeTurn(e)) && Turn(s.c, e).Next?
    ensures Comparable(s.c, s.sent, s.seen) && Pays(s.c, Turn(s.c, e).core, s.sent, s.seen)
  {
    WirePhasesPay(s, e);
    hide CoreDebt, SysInv, WirePhases;
    ServeSlotsPay(WirePhases(s.c, e).core, LIMIT, Poll(s.c, e), e.slots, s.sent, s.seen);
  }

  lemma BridgeTurnPays(s: Sys, e: Env)
    requires SysInv(s) && WireFromPeer(s, e) && Answering(BridgeTurn(e)) && Turn(s.c, e).Next?
    ensures Comparable(s.c, s.sent, s.seen)
    ensures var t := s.(c := Turn(s.c, e).core);
            Comparable(t.c, t.sent, t.seen) && (t == s || Debt(t) < Debt(s))
  {
    TurnPays(s, e);
  }

  lemma TakePays(s: Sys)
    requires Comparable(s.c, s.sent, s.seen) && s.seen < |s.c.emitted| && TakeFrame(s, s.c.emitted[s.seen]).Moved?
    ensures var t := TakeFrame(s, s.c.emitted[s.seen]).s;
            Comparable(t.c, t.sent, t.seen) && Debt(t) < Debt(s)
  {
    var f := s.c.emitted[s.seen];
    assert s.c.emitted[s.seen..][1..] == s.c.emitted[s.seen + 1..];
    FarSumUpdate(s.peer, f.id, TakeFrame(s, f).s.peer[f.id], U32);
  }

  lemma DeliverMovePays(s: Sys, id: u32)
    requires Comparable(s.c, s.sent, s.seen) && FarMove(s, Move.Deliver(id)).Moved?
    ensures Debt(FarMove(s, Move.Deliver(id)).s) < Debt(s)
  {
    FarSumUpdate(s.peer, id, FarMove(s, Move.Deliver(id)).s.peer[id], U32);
  }

  lemma SendAckPays(s: Sys, id: u32)
    requires Comparable(s.c, s.sent, s.seen) && FarMove(s, SendAck(id)).Moved?
    ensures var t := FarMove(s, SendAck(id)).s;
            Comparable(t.c, t.sent, t.seen) && Debt(t) < Debt(s)
  {
    var t, f := FarMove(s, SendAck(id)).s, Frame(ACK, id, []);
    FarSumUpdate(s.peer, id, t.peer[id], U32);
    EncodeAllSnoc(s.sent, f);
    InSumSnoc(s.sent[|s.c.dispatched|..], f);
    assert t.sent[|s.c.dispatched|..] == s.sent[|s.c.dispatched|..] + [f];
  }

  /** An answering move changes nothing at all or lowers the debt. */
  lemma AnsweringPays(s: Sys, m: Move)
    requires SysInv(s) && Answering(m) && SysStep(s, m).Moved?
    ensures var t := SysStep(s, m).s;
            && Comparable(s.c, s.sent, s.seen) && Comparable(t.c, t.sent, t.seen)
            && (t == s || Debt(t) < Debt(s))
  {
    TakenInOrder(s);
    hide SysInv, Debt, FarMove, Turn, TakeFrame;
    match m
    case BridgeTurn(e) => BridgeTurnPays(s, e);
    case Take => TakeKeeps(s, s.c.emitted[s.seen]); TakePays(s);
    case Deliver(id) => DeliverMovePays(s, id);
    case SendAck(id) => SendAckPays(s, id);
  }

  // ---------- Turns in which little happens ----------

  const IDLE := SlotEnv(false, PutAgain, false, false, GetAgain)

  /** Nothing is ready except that slot i, if there is one, takes a byte. */
  function Calm(i: nat): Env {
    Env(false, PutAgain, false, AcceptFailed, false, GetAgain,
        seq(LIMIT, j => if j == i then SlotEnv(true, Wrote(1), false, false, GetAgain) else IDLE), false)
  }

  predicate Quiet(c: Core, ready: seq<Ready>, v: seq<SlotEnv>)
    requires |ready| == |v| == LIMIT
  {
    forall j :: 0 <= j < LIMIT ==> !ready[j].inp && (ready[j].out ==> c.slots[j].pending != [] && v[j].put.Wrote?)
  }

  /** From c to d only local bytes and frames were added. */
  predicate Adds(c: Core, d: Core, id: u32) {
    && d.tx == c.tx && d.rx == c.rx
    && |c.emitted| <= |d.emitted|
    && (|c.emitted| == |d.emitted| ==> d.outgoing == c.outgoing)
    && |At(c.toLocal, id)| <= |At(d.toLocal, id)|
  }

  /** Serving one quiet slot: its reported write moves a byte, and its owed acknowledgement is framed if it can be. */
  lemma QuietSlot(c: Core, i: nat, ready: Ready, v: SlotEnv, id: u32)
    requires i < LIMIT && !ready.inp && (ready.out ==> c.slots[i].pending != [] && v.put.Wrote?)
    ensures var d := ServeSlot(c, i, ready, v);
            && d.Next? && Adds(c, d.core, id)
            && (c.slots[i].Serves(id) && ready.out ==> |At(c.toLocal, id)| < |At(d.core.toLocal, id)|)
            && (c.slots[i].Live() && c.slots[i].ack && c.outgoing == [] ==> |c.emitted| < |d.core.emitted|)
  {
    hide Encode;
  }

  lemma {:induction false} QuietSlots(c: Core, n: nat, ready: seq<Ready>, v: seq<SlotEnv>, i: nat, id: u32)
    requires n <= LIMIT == |ready| == |v| && i < LIMIT && Quiet(c, ready, v)
    ensures var d := ServeSlots(c, n, ready, v);
            && d.Next? && Adds(c, d.core, id)
            && (i < n && c.slots[i].Serves(id) && ready[i].out ==> |At(c.toLocal, id)| < |At(d.core.toLocal, id)|)
            && (i < n && c.slots[i].Live() && c.slots[i].ack && c.outgoing == [] ==> |c.emitted| < |d.core.emitted|)
  {
    hide ServeSlot;
    if n > 0 {
      QuietSlots(c, n - 1, ready, v, i, id);
      SlotsAhead(c, n - 1, ready, v, n - 1);
      QuietSlot(ServeSlots(c, n - 1, ready, v).core, n - 1, ready[n - 1], v[n - 1], id);
    }
  }

  /** A turn after whose wire phases nothing but slot i is ready goes through. */
  lemma QuietTurn(c: Core, e: Env, i: nat, id: u32)
    requires WirePhases(c, e).Next? && !e.wireError && i < LIMIT && Quiet(WirePhases(c, e).core, Poll(c, e), e.slots)
    ensures var w := WirePhases(c, e).core;
            && Turn(c, e).Next? && Adds(w, Turn(c, e).core, id)
            && (w.slots[i].Serves(id) && Poll(c, e)[i].out ==> |At(w.toLocal, id)| < |At(Turn(c, e).core.toLocal, id)|)
            && (w.slots[i].Live() && w.slots[i].ack && w.outgoing == [] ==> |w.emitted| < |Turn(c, e).core.emitted|)
  {
    hide WirePhases;
    QuietSlots(WirePhases(c, e).core, LIMIT, Poll(c, e), e.slots, i, id);
  }

  // ---------- While anything is owed, some move pays ----------

  ghost predicate CanAnswer(s: Sys) {
    exists m: Move :: Answering(m) && SysStep(s, m).Moved? && SysStep(s, m).s != s
  }

  lemma FlushAnswers(s: Sys)
    requires s.c.outgoing != []
    ensures CanAnswer(s)
  {
    var e := Calm(LIMIT).(wireWritable := true, wirePut := Wrote(1));
    assert WirePhases(s.c, e) == Flush(s.c, Wrote(1));
    QuietTurn(s.c, e, 0, 0);
    assert Answering(BridgeTurn(e)) && SysStep(s, BridgeTurn(e)).s.c.tx != s.c.tx;
  }

  /** Once everything framed has been written, the peer can take the next frame. */
  lemma TakeAnswers(s: Sys)
    requires SysInv(s) && s.seen < |s.c.emitted|
    ensures CanAnswer(s)
  {
    if s.c.outgoing != [] {
      FlushAnswers(s);
    } else {
      var front, rest := s.c.emitted[..s.seen + 1], s.c.emitted[s.seen + 1..];
      assert s.c.emitted == front + rest && s.c.tx + [] == s.c.tx;
      EncodeAllAppend(front, rest);
      Associative(MAGIC, EncodeAll(front), EncodeAll(rest));
      TakeKeeps(s, s.c.emitted[s.seen]);
      assert Answering(Take) && SysStep(s, Take).s.seen != s.seen;
    }
  }

  lemma ReadingIsSafe(s: Sys, left: NonEmpty)
    requires SysInv(s) && s.c.rx + left <= EncodeAll(s.sent)
    ensures var d := Receive(s.c, Read(left)); d.Next? && |s.c.rx| < |d.core.rx|
  {
    assert |s.c.incoming| < Need(s.c.incoming);
    var n := Least(|left|, Need(s.c.incoming) - |s.c.incoming|);
    assert s.c.rx + left[..n] <= s.c.rx + left;
    hide SysInv, Parse, EncodeAll, Need;
    ParseSafe(s, left[..n]);
    ParseReads(s.c.(rx := s.c.rx + left[..n], incoming := s.c.incoming + left[..n]));
  }

  function Reading(left: NonEmpty): Env {
    Calm(LIMIT).(wireReadable := true, wireGet := Read(left))
  }

  lemma ReadingTurn(c: Core, left: NonEmpty)
    requires Receive(c, Read(left)).Next?
    ensures Answering(BridgeTurn(Reading(left)))
    ensures Turn(c, Reading(left)).Next? && |Receive(c, Read(left)).core.rx| <= |Turn(c, Reading(left)).core.rx|
  {
    hide Receive, Turn;
    assert WirePhases(c, Reading(left)) == Receive(c, Read(left));
    QuietTurn(c, Reading(left), 0, 0);
  }

  /** While the peer's bytes have not all been read, reading them is safe. */
  lemma ReadAnswers(s: Sys)
    requires SysInv(s) && s.c.rx != EncodeAll(s.sent)
    ensures CanAnswer(s)
  {
    var left := EncodeAll(s.sent)[|s.c.rx|..];
    PrefixSplit(s.c.rx, EncodeAll(s.sent));
    assert s.c.rx + [] == s.c.rx;
    ReadingIsSafe(s, left);
    hide SysInv, Receive, Turn, Answering;
    ReadingTurn(s.c, left);
    var m := BridgeTurn(Reading(left));
    assert Answering(m) && SysStep(s, m).Moved? && |SysStep(s, m).s.c.rx| > |s.c.rx|;
  }

  lemma ParseReads(c: Core)
    requires Parse(c).Next?
    ensures Parse(c).core.rx == c.rx
  {
  }

  /** Bytes pending for a local socket can be written, and an owed acknowledgement framed. */
  lemma SlotAnswers(s: Sys, i: nat)
    requires i < LIMIT && SlotWeight(s.c.slots[i]) > 0
    ensures CanAnswer(s)
  {
    if s.c.outgoing != [] && s.c.slots[i].pending == [] {
      FlushAnswers(s);
    } else {
      var e := Calm(i);
      assert WirePhases(s.c, e) == Next(s.c);
      QuietTurn(s.c, e, i, s.c.slots[i].id);
      assert Answering(BridgeTurn(e)) && SysStep(s, BridgeTurn(e)).s.c != s.c;
    }
  }

  lemma FarAnswers(s: Sys, id: u32)
    requires Open(s, id) && (s.peer[id].holding || s.peer[id].owes)
    ensures CanAnswer(s)
  {
    var m := if s.peer[id].holding then Deliver(id) else SendAck(id);
    assert Answering(m) && SysStep(s, m).Moved?;
    if s.peer[id].holding {
      assert SysStep(s, m).s.peer[id] != s.peer[id];
    } else {
      assert |SysStep(s, m).s.sent| > |s.sent|;
    }
  }

  /** All read means all dispatched. */
  lemma AllDispatched(s: Sys)
    requires SysInv(s) && s.c.rx == EncodeAll(s.sent)
    ensures s.c.dispatched == s.sent
  {
    DecodeOfEncode(s.sent, []);
    assert EncodeAll(s.sent) + [] == EncodeAll(s.sent);
  }

  lemma SomethingAnswers(s: Sys)
    requires SysInv(s) && Comparable(s.c, s.sent, s.seen) && Debt(s) > 0
    ensures CanAnswer(s)
  {
    hide CanAnswer;
    if s.c.rx == EncodeAll(s.sent) { AllDispatched(s); }
    hide SysInv;
    if s.c.outgoing != [] {
      FlushAnswers(s);
    } else if s.seen < |s.c.emitted| {
      TakeAnswers(s);
    } else if s.c.rx != EncodeAll(s.sent) {
      ReadAnswers(s);
    } else if SlotSum(s.c.slots, LIMIT) > 0 {
      var i := SlotOwing(s.c.slots, LIMIT);
      SlotAnswers(s, i);
    } else {
      var id := FarOwing(s.peer, U32);
      FarAnswers(s, id);
    }
  }

  /** Some answering move changes something exactly while anything is owed. */
  lemma RestsExactlyWhenPaid(s: Sys)
    requires SysInv(s)
    ensures Comparable(s.c, s.sent, s.seen) && (CanAnswer(s) <==> Debt(s) > 0)
  {
    TakenInOrder(s);
    hide SysInv, SysStep, Answering, Debt;
    if CanAnswer(s) {
      var m: Move :| Answering(m) && SysStep(s, m).Moved? && SysStep(s, m).s != s;
      AnsweringPays(s, m);
    }
    if Debt(s) > 0 { SomethingAnswers(s); }
  }

  // ---------- Main results ----------

  /** Every stream open at both ends has the credit of each direction with its sender. */
  predicate CreditsHome(s: Sys) {
    forall i :: 0 <= i < LIMIT && s.c.slots[i].Live() && Open(s, s.c.slots[i].id) ==>
      s.c.slots[i].credit && s.peer[s.c.slots[i].id].credit
  }

  /** When nothing is owed every credit is home. */
  lemma PaidMeansHome(s: Sys)
    requires SysInv(s) && Comparable(s.c, s.sent, s.seen) && Debt(s) == 0
    ensures CreditsHome(s)
  {
    TakenInOrder(s);
    assert forall id: u32 :: FarOk(s, id) && StreamOk(s.c, id);
    hide Inv, SysInv, Debt, FarOk, StreamOk;
    forall i | 0 <= i < LIMIT && s.c.slots[i].Live() && Open(s, s.c.slots[i].id)
      ensures s.c.slots[i].credit && s.peer[s.c.slots[i].id].credit
    {
      var near := s.c.slots[i];
      assert FarOk(s, near.id) && StreamOk(s.c, near.id);
      LookUpLive(s.c, i);
      TokenArithmetic(s, near);
      NothingOwed(s, i);
    }
  }

  /** With no debt a stream has nothing in flight and owes nothing at either end. */
  lemma NothingOwed(s: Sys, i: nat)
    requires Comparable(s.c, s.sent, s.seen) && Debt(s) == 0
    requires i < LIMIT && s.c.slots[i].Live() && Open(s, s.c.slots[i].id)
    ensures s.c.emitted[s.seen..] == [] && s.sent[|s.c.dispatched|..] == []
    ensures s.c.slots[i].pending == [] && !s.c.slots[i].ack
    ensures !s.peer[s.c.slots[i].id].holding && !s.peer[s.c.slots[i].id].owes
  {
    SlotPart(s.c.slots, i, LIMIT);
    FarPart(s.peer, s.c.slots[i].id, U32);
    assert s.c.emitted[s.seen..] == [] && s.sent[|s.c.dispatched|..] == [];
  }

  /** Every byte has arrived: all the peer sent on a live stream is on its local socket, and all that was read from
      any local socket has been taken by the peer. */
  ghost predicate Delivered(s: Sys) {
    && s.seen == |s.c.emitted|
    && (forall id: u32 :: Payloads(s.c.emitted[..s.seen], id) == At(s.c.fromLocal, id))
    && (forall i :: 0 <= i < LIMIT && s.c.slots[i].Live() ==>
          At(s.c.toLocal, s.c.slots[i].id) == Payloads(s.sent, s.c.slots[i].id))
  }

  /** When nothing is owed every byte has arrived. */
  lemma PaidMeansDelivered(s: Sys)
    requires SysInv(s) && Comparable(s.c, s.sent, s.seen) && Debt(s) == 0
    ensures Delivered(s)
  {
    assert s.c.emitted[s.seen..] == [] && s.sent[|s.c.dispatched|..] == [];
    assert s.c.emitted[..s.seen] == s.c.emitted && s.c.dispatched == s.sent;
    forall id: u32 ensures Payloads(s.c.emitted[..s.seen], id) == At(s.c.fromLocal, id) { assert StreamOk(s.c, id); }
    forall i | 0 <= i < LIMIT && s.c.slots[i].Live()
      ensures At(s.c.toLocal, s.c.slots[i].id) == Payloads(s.sent, s.c.slots[i].id)
    {
      var near := s.c.slots[i];
      assert StreamOk(s.c, near.id);
      LookUpLive(s.c, i);
      SlotPart(s.c.slots, i, LIMIT);
      assert At(s.c.toLocal, near.id) + [] == At(s.c.toLocal, near.id);
    }
  }

  lemma {:induction false} SlotPart(slots: Slots, i: nat, n: nat)
    requires i < n <= LIMIT
    ensures SlotWeight(slots[i]) <= SlotSum(slots, n)
  {
    if i < n - 1 { SlotPart(slots, i, n - 1); }
  }

  lemma {:induction false} FarPart(peer: map<u32, Far>, id: u32, n: nat)
    requires id < n <= U32
    ensures FarWeight(FarOf(peer, id)) <= FarSum(peer, n)
  {
    if id < n - 1 { FarPart(peer, id, n - 1); }
  }

  /** Whatever is in flight, finitely many answering moves bring every credit home and every byte to its end; their
      number is at most the debt. */
  lemma {:induction false} CreditsComeHome(s: Sys) returns (ms: seq<Move>)
    requires SysInv(s)
    ensures Comparable(s.c, s.sent, s.seen) && |ms| <= Debt(s) && forall m :: m in ms ==> Answering(m)
    ensures SysRun(s, ms).Moved? && SysInv(SysRun(s, ms).s)
    ensures CreditsHome(SysRun(s, ms).s) && Delivered(SysRun(s, ms).s)
    decreases if Comparable(s.c, s.sent, s.seen) then Debt(s) else 0
  {
    RestsExactlyWhenPaid(s);
    hide CreditsHome, Delivered, SysInv, SysStep, Debt;
    if Debt(s) == 0 {
      PaidMeansHome(s);
      PaidMeansDelivered(s);
      ms := [];
    } else {
      var m: Move :| Answering(m) && SysStep(s, m).Moved? && SysStep(s, m).s != s;
      AnsweringPays(s, m);
      SysStepKeeps(s, m);
      var rest := CreditsComeHome(SysStep(s, m).s);
      ms := [m] + rest;
      assert ms[1..] == rest;
    }
  }

  /** Every run of the two parties can be continued, without new traffic, to a state with every credit at home and
      every byte delivered. */
  lemma EveryRunSettles(before: seq<Move>, s: Sys) returns (ms: seq<Move>)
    requires SysRun(StartSys(), before) == Moved(s)
    ensures forall m :: m in ms ==> Answering(m)
    ensures SysRun(s, ms).Moved? && CreditsHome(SysRun(s, ms).s) && Delivered(SysRun(s, ms).s)
  {
    SysInvStart();
    NoProtocolError(StartSys(), before);
    ms := CreditsComeHome(s);
  }

  /** Every move of the run changes something. */
  predicate Busy(s: Sys, ms: seq<Move>)
    decreases |ms|
  {
    ms != [] ==> SysStep(s, ms[0]).Moved? && SysStep(s, ms[0]).s != s && Busy(SysStep(s, ms[0]).s, ms[1..])
  }

  /** However they are chosen, answering moves that change something come to an end. */
  lemma {:induction false} AnsweringEnds(s: Sys, ms: seq<Move>)
    requires SysInv(s) && Busy(s, ms) && forall m :: m in ms ==> Answering(m)
    ensures Comparable(s.c, s.sent, s.seen) && |ms| <= Debt(s)
    decreases |ms|
  {
    TakenInOrder(s);
    if ms != [] {
      assert ms[0] in ms;
      AnsweringPays(s, ms[0]);
      SysStepKeeps(s, ms[0]);
      AnsweringEnds(SysStep(s, ms[0]).s, ms[1..]);
    }
  }
}
