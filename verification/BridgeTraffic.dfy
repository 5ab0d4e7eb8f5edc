/** What the operating system handed over and took, read off the environment of a run, and that the histories of the
    multiplexer are exactly that. */
module BridgeTraffic {
  import opened Octets
  import opened Wire
  import opened Bridge
  import opened BridgeInvariant
  import opened BridgeRuns

  // ---------- One turn, from what is reported and answered ----------

  /** Bytes the wire takes, and bytes it gives. */
  function WireTook(c: Core, e: Env): seq<byte> {
    if c.outgoing != [] && e.wireWritable && e.wirePut.Wrote? then Front(c.outgoing, e.wirePut.n) else []
  }

  function WireGave(c: Core, e: Env): seq<byte> {
    if e.wireReadable && e.wireGet.Read? && |c.incoming| < Need(c.incoming) then
      Front(e.wireGet.bytes, Need(c.incoming) - |c.incoming|)
    else []
  }

  /** A socket is asked to write when it was polled with bytes pending and reported writable. */
  predicate WriteReported(polled: Core, i: nat, v: SlotEnv)
    requires i < LIMIT
  {
    polled.slots[i].fd >= 0 && polled.slots[i].pending != [] && v.writable
  }

  /** A socket is reported readable when it hangs up, or has bytes and was polled for them, which it is with a credit
      and nothing waiting for the wire. */
  predicate ReadReported(polled: Core, i: nat, v: SlotEnv)
    requires i < LIMIT
  {
    && polled.slots[i].fd >= 0
    && (v.hangup || (v.readable && polled.outgoing == [] && polled.slots[i].credit))
  }

  /** Bytes that the socket of slot i takes when its turn comes in state b. */
  function SlotTook(polled: Core, b: Core, i: nat, v: SlotEnv): seq<byte>
    requires i < LIMIT
  {
    if b.slots[i].fd >= 0 && WriteReported(polled, i, v) && v.put.Wrote? then Front(b.slots[i].pending, v.put.n) else []
  }

  /** It is asked to read after its write, if it has a credit and neither a frame nor an acknowledgement of its own
      waits for the wire. */
  predicate ReadAsked(polled: Core, b: Core, i: nat, v: SlotEnv)
    requires i < LIMIT
  {
    var took := SlotTook(polled, b, i, v);
    && b.slots[i].fd >= 0 && ReadReported(polled, i, v)
    && b.outgoing == [] && b.slots[i].credit
    && !b.slots[i].ack && !(took != [] && took == b.slots[i].pending)
  }

  function SlotGave(polled: Core, b: Core, i: nat, v: SlotEnv): seq<byte>
    requires i < LIMIT
  {
    if ReadAsked(polled, b, i, v) && v.get.Read? then Front(v.get.bytes, CHUNK) else []
  }

  /** The bytes that passed between the program and the rest of the world, for one stream. */
  datatype Traffic = Traffic(rx: seq<byte>, tx: seq<byte>, fromLocal: seq<byte>, toLocal: seq<byte>)

  const SILENT := Traffic([], [], [], [])

  function Then(a: Traffic, b: Traffic): Traffic {
    Traffic(a.rx + b.rx, a.tx + b.tx, a.fromLocal + b.fromLocal, a.toLocal + b.toLocal)
  }

  function SlotsTraffic(polled: Core, w: Core, n: nat, v: seq<SlotEnv>, ready: seq<Ready>, id: u32): Traffic
    requires n <= LIMIT == |v| == |ready|
  {
    if n == 0 || ServeSlots(w, n - 1, ready, v).Stop? then SILENT else
    var b, i := ServeSlots(w, n - 1, ready, v).core, n - 1;
    Then(SlotsTraffic(polled, w, i, v, ready, id),
         if b.slots[i].id == id then Traffic([], [], SlotGave(polled, b, i, v[i]), SlotTook(polled, b, i, v[i]))
         else SILENT)
  }

  function TurnTraffic(c: Core, e: Env, id: u32): Traffic {
    if WirePhases(c, e).Stop? then SILENT else
    Then(Traffic(WireGave(c, e), WireTook(c, e), [], []),
         SlotsTraffic(c, WirePhases(c, e).core, LIMIT, e.slots, Poll(c, e), id))
  }

  function RunTraffic(c: Core, es: seq<Env>, id: u32): Traffic
    decreases |es|
  {
    if es == [] || Turn(c, es[0]).Stop? then SILENT else
    Then(TurnTraffic(c, es[0], id), RunTraffic(Turn(c, es[0]).core, es[1..], id))
  }

  // ---------- The histories are the traffic ----------

  /** The histories the program keeps, for one stream. */
  function Histories(c: Core, id: u32): Traffic {
    Traffic(c.rx, c.tx, At(c.fromLocal, id), At(c.toLocal, id))
  }

  lemma WireIsTraffic(c: Core, e: Env, id: u32)
    requires WirePhases(c, e).Next?
    ensures Histories(WirePhases(c, e).core, id) ==
      Then(Histories(c, id), Traffic(WireGave(c, e), WireTook(c, e), [], []))
  {
    var c1 := FlushPhase(c, e).core;
    assert c1.rx == c.rx && c1.tx == c.tx + WireTook(c, e);
    var c2 := AcceptPhase(c1, c.outgoing == [], e).core;
    assert c2.rx == c1.rx && c2.tx == c1.tx && c2.incoming == c.incoming;
    ReceiveGives(c2, e);
    var d := ReceivePhase(c2, e).core;
    assert WireGave(c2, e) == WireGave(c, e);
    assert d.fromLocal == c.fromLocal && d.toLocal == c.toLocal;
  }

  lemma ReceiveGives(c: Core, e: Env)
    requires ReceivePhase(c, e).Next?
    ensures var d := ReceivePhase(c, e).core;
            && d.rx == c.rx + WireGave(c, e) && d.tx == c.tx
            && d.fromLocal == c.fromLocal && d.toLocal == c.toLocal
  {
  }

  /** The write of a slot: what its socket took is recorded and no longer pending, and an emptied slot owes. */
  lemma DrainTakes(polled: Core, b: Core, i: nat, v: SlotEnv, id: u32)
    requires i < LIMIT && b.slots[i].fd >= 0 && WriteReported(polled, i, v) && Drain(b, i, v.put).Next?
    ensures var (d, took) := (Drain(b, i, v.put).core, SlotTook(polled, b, i, v));
      && Histories(d, id) == Then(Histories(b, id), Traffic([], [], [], if b.slots[i].id == id then took else []))
      && d.outgoing == b.outgoing && d.slots[i].fd == b.slots[i].fd && d.slots[i].id == b.slots[i].id
      && d.slots[i].credit == b.slots[i].credit
      && (d.slots[i].ack <==> b.slots[i].ack || (took != [] && took == b.slots[i].pending))
  {
  }

  lemma FrameAckMovesNothing(c: Core, i: nat, id: u32)
    requires i < LIMIT
    ensures var d := FrameAck(c, i);
      && Histories(d, id) == Histories(c, id)
      && d.slots[i].fd == c.slots[i].fd && d.slots[i].id == c.slots[i].id && d.slots[i].credit == c.slots[i].credit
      && (d.outgoing == [] <==> c.outgoing == [] && !c.slots[i].ack)
  {
  }

  lemma PullGives(c: Core, i: nat, get: Get, id: u32)
    requires i < LIMIT
    ensures Histories(Pull(c, i, get), id) == Then(Histories(c, id),
      Traffic([], [], if c.slots[i].id == id && get.Read? then Front(get.bytes, CHUNK) else [], []))
  {
    hide Encode;
  }

  lemma AskedExactly(polled: Core, b: Core, c1: Core, c2: Core, i: nat, v: SlotEnv)
    requires i < LIMIT && b.slots[i].fd >= 0 && c1.outgoing == b.outgoing && c1.slots[i].credit == b.slots[i].credit
    requires var took := SlotTook(polled, b, i, v);
             c1.slots[i].ack <==> b.slots[i].ack || (took != [] && took == b.slots[i].pending)
    requires c2.slots[i].credit == c1.slots[i].credit && (c2.outgoing == [] <==> c1.outgoing == [] && !c1.slots[i].ack)
    ensures ReadAsked(polled, b, i, v) <==>
      c2.outgoing == [] && c2.slots[i].credit && ReadyOf(polled.slots[i], polled.outgoing == [], v).inp
  {
    hide SlotTook;
  }

  lemma SlotIsTraffic(polled: Core, b: Core, i: nat, v: SlotEnv, id: u32)
    requires i < LIMIT
    requires ServeSlot(b, i, ReadyOf(polled.slots[i], polled.outgoing == [], v), v).Next?
    ensures Histories(ServeSlot(b, i, ReadyOf(polled.slots[i], polled.outgoing == [], v), v).core, id) ==
      Then(Histories(b, id),
           if b.slots[i].id == id then Traffic([], [], SlotGave(polled, b, i, v), SlotTook(polled, b, i, v))
           else SILENT)
  {
    var ready := ReadyOf(polled.slots[i], polled.outgoing == [], v);
    ThenAssociates(Histories(b, id), SILENT, SILENT);
    if b.slots[i].Live() {
      var c1 := if ready.out then Drain(b, i, v.put).core else b;
      if ready.out { DrainTakes(polled, b, i, v, id); }
      FrameAckMovesNothing(c1, i, id);
      var c2 := FrameAck(c1, i);
      PullGives(c2, i, v.get, id);
      hide Drain, FrameAck, Pull, Histories;
      assert Histories(c2, id) == Then(Histories(b, id),
        Traffic([], [], [], if b.slots[i].id == id then SlotTook(polled, b, i, v) else []));
      AskedExactly(polled, b, c1, c2, i, v);
      hide ReadAsked, SlotTook;
    }
  }

  lemma {:induction false} SlotsAreTraffic(polled: Core, e: Env, w: Core, n: nat, id: u32)
    requires n <= LIMIT && ServeSlots(w, n, Poll(polled, e), e.slots).Next?
    ensures Histories(ServeSlots(w, n, Poll(polled, e), e.slots).core, id) ==
      Then(Histories(w, id), SlotsTraffic(polled, w, n, e.slots, Poll(polled, e), id))
  {
    hide ServeSlot, SlotGave, SlotTook, Histories;
    if n > 0 {
      SlotsAreTraffic(polled, e, w, n - 1, id);
      var b := ServeSlots(w, n - 1, Poll(polled, e), e.slots).core;
      SlotIsTraffic(polled, b, n - 1, e.slots[n - 1], id);
    }
  }

  lemma ThenAssociates(a: Traffic, b: Traffic, c: Traffic)
    ensures Then(Then(a, b), c) == Then(a, Then(b, c))
    ensures Then(a, SILENT) == a == Then(SILENT, a)
  {
    Associative(a.rx, b.rx, c.rx);
    Associative(a.tx, b.tx, c.tx);
    Associative(a.fromLocal, b.fromLocal, c.fromLocal);
    Associative(a.toLocal, b.toLocal, c.toLocal);
  }

  lemma TurnIsTraffic(c: Core, e: Env, id: u32)
    requires Turn(c, e).Next?
    ensures Histories(Turn(c, e).core, id) == Then(Histories(c, id), TurnTraffic(c, e, id))
  {
    hide WirePhases, ServeSlots, SlotsTraffic, WireGave, WireTook, Histories, Then;
    WireIsTraffic(c, e, id);
    SlotsAreTraffic(c, e, WirePhases(c, e).core, LIMIT, id);
    ThenAssociates(Histories(c, id), Traffic(WireGave(c, e), WireTook(c, e), [], []),
                   SlotsTraffic(c, WirePhases(c, e).core, LIMIT, e.slots, Poll(c, e), id));
  }

  lemma {:induction false} RunIsTraffic(c: Core, es: seq<Env>, id: u32)
    requires Run(c, es).Next?
    ensures Histories(Run(c, es).core, id) == Then(Histories(c, id), RunTraffic(c, es, id))
    decreases |es|
  {
    hide Turn, TurnTraffic, Histories, Then;
    ThenAssociates(Histories(c, id), SILENT, SILENT);
    if es != [] {
      TurnIsTraffic(c, es[0], id);
      RunIsTraffic(Turn(c, es[0]).core, es[1..], id);
      ThenAssociates(Histories(c, id), TurnTraffic(c, es[0], id), RunTraffic(Turn(c, es[0]).core, es[1..], id));
    }
  }

  /** In every run of the program the bytes it holds to be read are, in order, those that the wire and the sockets gave
      when asked, and those it holds to be written are those they took. */
  lemma HistoriesAreReal(es: seq<Env>, c: Core, id: u32)
    requires Run(Initial(), es) == Next(c)
    ensures var t := RunTraffic(Initial(), es, id);
            c.rx == t.rx && c.tx == MAGIC + t.tx && At(c.fromLocal, id) == t.fromLocal && At(c.toLocal, id) == t.toLocal
  {
    RunIsTraffic(Initial(), es, id);
    assert [] + RunTraffic(Initial(), es, id).rx == RunTraffic(Initial(), es, id).rx;
  }

  /** Relayed end to end: what a stream's socket gave is the payload of its data frames on the way out, and what it
      took is a prefix of the payload of the data frames that the wire gave. */
  lemma TrafficRelayed(es: seq<Env>, c: Core, id: u32)
    requires Run(Initial(), es) == Next(c)
    ensures var t := RunTraffic(Initial(), es, id);
            && t.fromLocal == Payloads(FramesOut(c), id)
            && t.toLocal <= Payloads(Decode(t.rx).0, id)
            && t.tx <= EncodeAll(FramesOut(c))
  {
    HistoriesAreReal(es, c, id);
    assert Reachable(c);
    StreamsConserved(c, id);
    BuffersBounded(c);
    var (t, all) := (RunTraffic(Initial(), es, id).tx, EncodeAll(FramesOut(c)));
    assert (MAGIC + t)[|MAGIC|..] == t && (MAGIC + all)[|MAGIC|..] == all;
    assert (MAGIC + all)[..|MAGIC| + |t|] == MAGIC + t;
    assert all[..|t|] == (MAGIC + all)[|MAGIC|..|MAGIC| + |t|];
  }

  // ---------- When the program stops ----------

  /** Something the program cannot survive: an error on the wire, its end, a refused connection, or a socket that
      refuses what is written to it. */
  predicate FatalEvent(c: Core, e: Env) {
    || e.wireError
    || (e.wireReadable && (e.wireGet.End? || e.wireGet.GetFailed?))
    || (c.outgoing != [] && e.wireWritable && e.wirePut.PutFailed?)
    || (c.outgoing == [] && e.connecting && e.accepted.AcceptFailed?)
    || exists i :: 0 <= i < LIMIT && WriteReported(c, i, e.slots[i]) && e.slots[i].put.PutFailed?
  }

  lemma {:induction false} SlotsStopOnFailure(c: Core, e: Env, w: Core, n: nat)
    requires n <= LIMIT && ServeSlots(w, n, Poll(c, e), e.slots) == Stop(Io)
    ensures FatalEvent(c, e)
  {
    if n > 0 {
      if ServeSlots(w, n - 1, Poll(c, e), e.slots).Stop? {
        SlotsStopOnFailure(c, e, w, n - 1);
      } else {
        assert WriteReported(c, n - 1, e.slots[n - 1]) && e.slots[n - 1].put.PutFailed?;
      }
    }
  }

  lemma WireStopsOnFailure(c: Core, e: Env)
    requires WirePhases(c, e) == Stop(Io)
    ensures FatalEvent(c, e)
  {
    hide Parse;
    ParseIsNoIo(c, e);
  }

  lemma ParseIsNoIo(c: Core, e: Env)
    ensures FlushPhase(c, e).Next? && AcceptPhase(FlushPhase(c, e).core, c.outgoing == [], e).Next? ==>
      ReceivePhase(AcceptPhase(FlushPhase(c, e).core, c.outgoing == [], e).core, e) == Stop(Io) ==>
        e.wireReadable && (e.wireGet.End? || e.wireGet.GetFailed?)
  {
  }

  /** A turn survives only without an event on the wire or at the listener that is fatal, and is stopped by the
      operating system only with a fatal event. */
  lemma StopsExactlyOnFailure(c: Core, e: Env)
    ensures Turn(c, e) == Stop(Io) ==> FatalEvent(c, e)
    ensures Turn(c, e).Next? ==>
      && !e.wireError
      && !(e.wireReadable && (e.wireGet.End? || e.wireGet.GetFailed?))
      && !(c.outgoing != [] && e.wireWritable && e.wirePut.PutFailed?)
      && !(c.outgoing == [] && e.connecting && e.accepted.AcceptFailed?)
  {
    hide ServeSlots;
    if WirePhases(c, e) == Stop(Io) {
      WireStopsOnFailure(c, e);
    } else if WirePhases(c, e).Next? && ServeSlots(WirePhases(c, e).core, LIMIT, Poll(c, e), e.slots) == Stop(Io) {
      SlotsStopOnFailure(c, e, WirePhases(c, e).core, LIMIT);
    }
  }

  lemma {:induction false} SlotsNeverExhaust(c: Core, n: nat, ready: seq<Ready>, v: seq<SlotEnv>)
    requires n <= LIMIT == |ready| == |v|
    ensures ServeSlots(c, n, ready, v) != Stop(Exhausted)
  {
    hide Encode;
    if n > 0 { SlotsNeverExhaust(c, n - 1, ready, v); }
  }

  /** The counter stops the program only where one more stream would wrap it. */
  lemma ExhaustedOnlyAtTheEnd(c: Core, e: Env)
    requires Turn(c, e) == Stop(Exhausted)
    ensures e.connecting && c.serial == 0xFFFF_FFFF
  {
    if WirePhases(c, e).Next? { SlotsNeverExhaust(WirePhases(c, e).core, LIMIT, Poll(c, e), e.slots); }
    hide ServeSlots, ReceivePhase;
    if FlushPhase(c, e).Next? && AcceptPhase(FlushPhase(c, e).core, c.outgoing == [], e).Next? {
      ParseIsNoExhaustion(c, e);
    }
  }

  lemma ParseIsNoExhaustion(c: Core, e: Env)
    requires FlushPhase(c, e).Next? && AcceptPhase(FlushPhase(c, e).core, c.outgoing == [], e).Next?
    ensures ReceivePhase(AcceptPhase(FlushPhase(c, e).core, c.outgoing == [], e).core, e) != Stop(Exhausted)
  {
  }
}
