/** What holds in every run of the multiplexer, whatever its environment does. */
module BridgeRuns {
  import opened Octets
  import opened Wire
  import opened Bridge
  import opened BridgeInvariant

  // ---------- The invariant over turns and runs ----------

  lemma WirePhasesKeep(c: Core, e: Env)
    requires Inv(c) && WirePhases(c, e).Next?
    ensures Inv(WirePhases(c, e).core)
  {
    var c1 := FlushPhase(c, e).core;
    if c.outgoing != [] && e.wireWritable { FlushKeeps(c, e.wirePut); }
    var c2 := AcceptPhase(c1, c.outgoing == [], e).core;
    if c.outgoing == [] && e.connecting && c1.outgoing == [] { AcceptKeeps(c1, e.accepted); }
    if e.wireReadable { ReceiveKeeps(c2, e.wireGet); }
  }

  lemma ServeSlotKeeps(c: Core, i: nat, ready: Ready, v: SlotEnv)
    requires Inv(c) && i < LIMIT && ServeSlot(c, i, ready, v).Next?
    ensures Inv(ServeSlot(c, i, ready, v).core)
  {
    if c.slots[i].Live() {
      if ready.out { DrainKeeps(c, i, v.put); }
      var c1 := if ready.out then Drain(c, i, v.put).core else c;
      FrameAckKeeps(c1, i);
      var c2 := FrameAck(c1, i);
      if c2.outgoing == [] && c2.slots[i].credit && ready.inp { PullKeeps(c2, i, v.get); }
    }
  }

  lemma {:induction false} ServeSlotsKeep(c: Core, n: nat, ready: seq<Ready>, v: seq<SlotEnv>)
    requires Inv(c) && n <= LIMIT == |ready| == |v| && ServeSlots(c, n, ready, v).Next?
    ensures Inv(ServeSlots(c, n, ready, v).core)
  {
    hide Inv, ServeSlot;
    if n > 0 {
      ServeSlotsKeep(c, n - 1, ready, v);
      ServeSlotKeeps(ServeSlots(c, n - 1, ready, v).core, n - 1, ready[n - 1], v[n - 1]);
    }
  }

  lemma TurnKeeps(c: Core, e: Env)
    requires Inv(c) && Turn(c, e).Next?
    ensures Inv(Turn(c, e).core)
  {
    WirePhasesKeep(c, e);
    ServeSlotsKeep(WirePhases(c, e).core, LIMIT, Poll(c, e), e.slots);
  }

  lemma {:induction false} RunKeeps(c: Core, es: seq<Env>)
    requires Inv(c) && Run(c, es).Next?
    ensures Inv(Run(c, es).core)
    decreases |es|
  {
    if es != [] {
      TurnKeeps(c, es[0]);
      RunKeeps(Turn(c, es[0]).core, es[1..]);
    }
  }

  /** A state some run of the program reaches. */
  ghost predicate Reachable(c: Core) {
    exists es: seq<Env> :: Run(Initial(), es) == Next(c)
  }

  lemma ReachableInv(c: Core)
    requires Reachable(c)
    ensures Inv(c)
  {
    var es: seq<Env> :| Run(Initial(), es) == Next(c);
    InvInitial();
    RunKeeps(Initial(), es);
  }

  /** When a read finds nothing the program checks the buffered header all the same; that check never does
      anything. */
  lemma RecheckIsIdle(c: Core)
    requires Reachable(c)
    ensures Parse(c) == Next(c)
  {
    ReachableInv(c);
  }

  // ---------- Conservation ----------

  /** The frames on the way out, read off the bytes written and buffered; those in, off the bytes read. */
  function FramesOut(c: Core): seq<Frame> {
    var all := c.tx + c.outgoing;
    if |MAGIC| <= |all| then Decode(all[|MAGIC|..]).0 else []
  }

  function FramesIn(c: Core): seq<Frame> {
    Decode(c.rx).0
  }

  lemma FramesAreRecorded(c: Core)
    requires Inv(c)
    ensures FramesOut(c) == c.emitted && FramesIn(c) == c.dispatched
  {
    var all := c.tx + c.outgoing;
    assert all[|MAGIC|..] == EncodeAll(c.emitted) + [];
    DecodeOfEncode(c.emitted, []);
  }

  /** Every stream relays its bytes in order and loses none, in both directions, under any fragmentation. */
  lemma StreamsConserved(c: Core, id: u32)
    requires Reachable(c)
    ensures At(c.fromLocal, id) == Payloads(FramesOut(c), id)
    ensures At(c.toLocal, id) <= Payloads(FramesIn(c), id)
    ensures forall i :: 0 <= i < LIMIT && c.slots[i].Serves(id) ==>
              At(c.toLocal, id) + c.slots[i].pending == Payloads(FramesIn(c), id)
  {
    ReachableInv(c);
    FramesAreRecorded(c);
    assert StreamOk(c, id);
    forall i | 0 <= i < LIMIT && c.slots[i].Serves(id)
      ensures At(c.toLocal, id) + c.slots[i].pending == Payloads(FramesIn(c), id)
    {
      LookUpLive(c, i);
    }
  }

  /** Each stream emits one open, then data and acknowledgements, then at most one close, and nothing
      after the close; a stream still served has not been closed in either direction. */
  lemma StreamsWellFormed(c: Core, id: u32)
    requires Reachable(c)
    ensures var mine := Of(FramesOut(c), id);
            && (mine != [] <==> 0 < id <= c.serial)
            && (forall k :: 0 <= k < |mine| ==>
                 && (mine[k].tag == OPEN <==> k == 0)
                 && mine[k].tag in {OPEN, DATA, ACK, CLOSE}
                 && (mine[k].tag == CLOSE ==> k == |mine| - 1))
            && (LookUp(c.slots, id).Found? ==>
                 mine != [] && mine[|mine| - 1].tag != CLOSE && Count(FramesIn(c), CLOSE, id) == 0)
  {
    ReachableInv(c);
    FramesAreRecorded(c);
    assert StreamOk(c, id);
    StageShape(c.emitted, id);
  }

  /** Credit conservation: with k data frames out and not acknowledged the stream holds 1 - k credits, and
      what it accepted and has not acknowledged is its pending data or its owed acknowledgement, never both. */
  lemma CreditConserved(c: Core, i: nat)
    requires Reachable(c) && i < LIMIT && c.slots[i].Live()
    ensures var s := c.slots[i];
            && Count(FramesOut(c), DATA, s.id) - Count(FramesIn(c), ACK, s.id) == 1 - Bit(s.credit)
            && Count(FramesIn(c), DATA, s.id) - Count(FramesOut(c), ACK, s.id) == Bit(s.pending != []) + Bit(s.ack)
            && !(s.pending != [] && s.ack)
  {
    ReachableInv(c);
    FramesAreRecorded(c);
    assert StreamOk(c, c.slots[i].id);
    LookUpLive(c, i);
    assert SlotOk(c.slots[i], c.serial);
  }

  /** Buffers stay within their C sizes, every read asks for at least one byte, and the bytes on the wire
      are always a prefix of the magic followed by whole frames. */
  lemma BuffersBounded(c: Core)
    requires Reachable(c)
    ensures |c.incoming| < Need(c.incoming) <= CHUNK + 9
    ensures |c.outgoing| <= CHUNK + 9
    ensures forall i :: 0 <= i < LIMIT ==> |c.slots[i].pending| <= CHUNK
    ensures c.tx <= MAGIC + EncodeAll(FramesOut(c))
    ensures c.rx == EncodeAll(FramesIn(c)) + c.incoming
  {
    ReachableInv(c);
    FramesAreRecorded(c);
    DecodeSound(c.rx);
    forall i | 0 <= i < LIMIT ensures |c.slots[i].pending| <= CHUNK {
      assert SlotOk(c.slots[i], c.serial);
    }
  }

  /** Live slots serve distinct, issued, nonzero ids. */
  lemma IdsDistinct(c: Core, i: nat, j: nat)
    requires Reachable(c) && i < j < LIMIT && c.slots[i].Live() && c.slots[j].Live()
    ensures c.slots[i].id != c.slots[j].id
    ensures 0 < c.slots[i].id <= c.serial < U32
  {
    ReachableInv(c);
    assert SlotOk(c.slots[i], c.serial);
  }

  // ---------- Closed streams stay closed ----------

  /** From c to d the counter did not go back, and a stream closed in c is closed in d with nothing more
      read from or written to its socket. */
  ghost predicate Buries(c: Core, d: Core, id: u32) {
    && c.serial <= d.serial
    && (LookUp(c.slots, id) == Missing && 0 < id <= c.serial ==>
         && LookUp(d.slots, id) == Missing
         && At(d.fromLocal, id) == At(c.fromLocal, id)
         && At(d.toLocal, id) == At(c.toLocal, id))
  }

  lemma WirePhasesBury(c: Core, e: Env, id: u32)
    requires Inv(c) && WirePhases(c, e).Next?
    ensures Buries(c, WirePhases(c, e).core, id)
  {
    var c1 := FlushPhase(c, e).core;
    if c.outgoing != [] && e.wireWritable { FlushKeeps(c, e.wirePut); }
    var c2 := AcceptPhase(c1, c.outgoing == [], e).core;
    AcceptBuries(c1, c.outgoing == [], e, id);
    if c.outgoing == [] && e.connecting && c1.outgoing == [] { AcceptKeeps(c1, e.accepted); }
    ReceiveBuries(c2, e, id);
  }

  lemma AcceptBuries(c: Core, asked: bool, e: Env, id: u32)
    requires SlotsOk(c) && AcceptPhase(c, asked, e).Next?
    ensures Buries(c, AcceptPhase(c, asked, e).core, id)
  {
    var d, k := AcceptPhase(c, asked, e).core, Vacant(c.slots);
    if d != c {
      assert forall j :: 0 <= j < LIMIT ==> SlotOk(c.slots[j], c.serial);
      Exchange(c.slots, k, d.slots[k], id);
    }
  }

  lemma ReceiveBuries(c: Core, e: Env, id: u32)
    requires SlotsOk(c) && ReceivePhase(c, e).Next?
    ensures Buries(c, ReceivePhase(c, e).core, id)
  {
    var d := ReceivePhase(c, e).core;
    if d.slots != c.slots {
      var n := Least(|e.wireGet.bytes|, Need(c.incoming) - |c.incoming|);
      var k := Find(c.slots, First(c.incoming + e.wireGet.bytes[..n]).id);
      Exchange(c.slots, k, d.slots[k], id);
    }
  }

  /** Serving a slot touches that slot and the bytes of its own stream, and no other. */
  lemma ServeSlotShape(c: Core, i: nat, ready: Ready, v: SlotEnv, id: u32)
    requires i < LIMIT && c.slots[i].Live() && ServeSlot(c, i, ready, v).Next?
    ensures var d := ServeSlot(c, i, ready, v).core;
            && d.slots == c.slots[i := d.slots[i]]
            && d.slots[i].id == c.slots[i].id
            && d.serial == c.serial
            && (id != c.slots[i].id ==>
                 At(d.fromLocal, id) == At(c.fromLocal, id) && At(d.toLocal, id) == At(c.toLocal, id))
  {
    hide Encode;
  }

  lemma ServeSlotBuries(c: Core, i: nat, ready: Ready, v: SlotEnv, id: u32)
    requires SlotsOk(c) && i < LIMIT && ServeSlot(c, i, ready, v).Next?
    ensures Buries(c, ServeSlot(c, i, ready, v).core, id)
  {
    var d, s := ServeSlot(c, i, ready, v).core, c.slots[i];
    if s.Live() {
      ServeSlotShape(c, i, ready, v, id);
      LookUpLive(c, i);
      Exchange(c.slots, i, d.slots[i], id);
    }
  }

  lemma {:induction false} ServeSlotsBury(c: Core, n: nat, ready: seq<Ready>, v: seq<SlotEnv>, id: u32)
    requires Inv(c) && n <= LIMIT == |ready| == |v| && ServeSlots(c, n, ready, v).Next?
    ensures Buries(c, ServeSlots(c, n, ready, v).core, id)
  {
    if n > 0 {
      ServeSlotsBury(c, n - 1, ready, v, id);
      ServeSlotsKeep(c, n - 1, ready, v);
      ServeSlotBuries(ServeSlots(c, n - 1, ready, v).core, n - 1, ready[n - 1], v[n - 1], id);
    }
  }

  /** Over any further run a closed id is never served again and its late frames move no bytes. */
  lemma {:induction false} ClosedForEver(c: Core, es: seq<Env>, id: u32)
    requires Inv(c) && Run(c, es).Next?
    ensures Buries(c, Run(c, es).core, id)
    decreases |es|
  {
    if es != [] {
      var e := es[0];
      WirePhasesBury(c, e, id);
      WirePhasesKeep(c, e);
      ServeSlotsBury(WirePhases(c, e).core, LIMIT, Poll(c, e), e.slots, id);
      TurnKeeps(c, e);
      ClosedForEver(Turn(c, e).core, es[1..], id);
    }
  }

  /** A frame that arrives for an id already closed changes no stream, however late it is. */
  lemma LateFramesIgnored(c: Core, es: seq<Env>, f: Frame)
    requires Reachable(c) && LookUp(c.slots, f.id) == Missing && 0 < f.id <= c.serial && Run(c, es).Next?
    ensures var d := Run(c, es).core;
            Dispatch(d, f).Next? && Dispatch(d, f).core.slots == d.slots
  {
    ReachableInv(c);
    ClosedForEver(c, es, f.id);
  }

  // ---------- Events reach the stream they were reported for ----------

  /** Slot j, when its turn comes in d, is served on the events polled in c only if it is still the stream
      that was polled, and a reported write still has bytes to write. */
  predicate Current(c: Core, d: Core, ready: Ready, j: nat)
    requires j < LIMIT
  {
    d.slots[j].Live() && (ready.out || ready.inp) ==>
      && c.slots[j].Live() && c.slots[j].id == d.slots[j].id
      && (ready.out ==> d.slots[j].pending != [])
  }

  lemma WirePhasesCurrent(c: Core, e: Env, j: nat)
    requires Inv(c) && j < LIMIT && WirePhases(c, e).Next?
    ensures Current(c, WirePhases(c, e).core, Poll(c, e)[j], j)
  {
    var c1 := FlushPhase(c, e).core;
    assert c1.slots == c.slots;
    var c2 := AcceptPhase(c1, c.outgoing == [], e).core;
    assert c2.slots[j] == c.slots[j] || !c.slots[j].Live();
    ReceiveLeaves(c2, e, j);
  }

  lemma ReceiveLeaves(c: Core, e: Env, j: nat)
    requires j < LIMIT && ReceivePhase(c, e).Next?
    ensures var s, t := c.slots[j], ReceivePhase(c, e).core.slots[j];
            t.Live() ==> s.Live() && s.id == t.id && (s.pending != [] ==> t.pending == s.pending)
  {
  }

  lemma ServeSlotLeaves(c: Core, i: nat, ready: Ready, v: SlotEnv, j: nat)
    requires i < LIMIT && j < LIMIT && j != i && ServeSlot(c, i, ready, v).Next?
    ensures ServeSlot(c, i, ready, v).core.slots[j] == c.slots[j]
  {
  }

  lemma {:induction false} SlotsAhead(c: Core, n: nat, ready: seq<Ready>, v: seq<SlotEnv>, j: nat)
    requires n <= j < LIMIT == |ready| == |v| && ServeSlots(c, n, ready, v).Next?
    ensures ServeSlots(c, n, ready, v).core.slots[j] == c.slots[j]
  {
    if n > 0 {
      SlotsAhead(c, n - 1, ready, v, j);
      var b := ServeSlots(c, n - 1, ready, v).core;
      ServeSlotLeaves(b, n - 1, ready[n - 1], v[n - 1], j);
    }
  }

  /** No event reported for an earlier occupant of a slot is ever applied to a later one. */
  lemma EventsReachTheirStream(c: Core, e: Env, j: nat)
    requires Reachable(c) && j < LIMIT && WirePhases(c, e).Next?
    requires ServeSlots(WirePhases(c, e).core, j, Poll(c, e), e.slots).Next?
    ensures Current(c, ServeSlots(WirePhases(c, e).core, j, Poll(c, e), e.slots).core, Poll(c, e)[j], j)
  {
    ReachableInv(c);
    WirePhasesCurrent(c, e, j);
    SlotsAhead(WirePhases(c, e).core, j, Poll(c, e), e.slots, j);
  }

  lemma {:induction false} ServeSlotsNeverZero(c: Core, d: Core, n: nat, ready: seq<Ready>, v: seq<SlotEnv>)
    requires n <= LIMIT == |ready| == |v|
    requires forall j :: 0 <= j < LIMIT ==> Current(c, d, ready[j], j)
    ensures ServeSlots(d, n, ready, v) != Stop(ZeroIo)
  {
    if n > 0 {
      ServeSlotsNeverZero(c, d, n - 1, ready, v);
      if ServeSlots(d, n - 1, ready, v).Next? {
        SlotsAhead(d, n - 1, ready, v, n - 1);
        assert Current(c, d, ready[n - 1], n - 1);
      }
    }
  }

  lemma WirePhasesNeverZero(c: Core, e: Env)
    requires |c.incoming| < Need(c.incoming)
    ensures WirePhases(c, e) != Stop(ZeroIo)
  {
    hide Encode, Need, First;
    var c1 := FlushPhase(c, e);
    if c1.Next? {
      assert c1.core.incoming == c.incoming;
      var c2 := AcceptPhase(c1.core, c.outgoing == [], e);
      if c2.Next? { assert c2.core.incoming == c.incoming; }
    }
  }

  /** No read or write is ever made with count zero, so an end of file is never imagined. */
  lemma NeverZeroIo(c: Core, e: Env)
    requires Reachable(c)
    ensures Turn(c, e) != Stop(ZeroIo)
  {
    ReachableInv(c);
    WirePhasesNeverZero(c, e);
    var w := WirePhases(c, e);
    if w.Next? {
      forall j | 0 <= j < LIMIT ensures Current(c, w.core, Poll(c, e)[j], j) { WirePhasesCurrent(c, e, j); }
      ServeSlotsNeverZero(c, w.core, LIMIT, Poll(c, e), e.slots);
    }
  }
}
