/** The two-way copy between standard input and output and one socket, with its end-of-file states. */
module Relay {
  import opened Octets
  import opened Wire
  import opened Bridge
  import opened Server

  datatype Eof = Reading | Ended | ShutDown

  /** `input`: read from standard input, not yet on the socket; `output`: read from the socket, not yet on
      standard output. The rest is history; `shutdowns` records how much the socket had at each shutdown. */
  datatype Copy = Copy(
    eof: Eof, input: seq<byte>, output: seq<byte>,
    readIn: seq<byte>, wroteSocket: seq<byte>, readSocket: seq<byte>, wroteOut: seq<byte>,
    shutdowns: seq<nat>)

  datatype Step = Go(copy: Copy) | Done(copy: Copy) | Fail(why: Reason, copy: Copy) {
    predicate IsFailure() { !Go? }
    function PropagateFailure(): Step requires !Go? { this }
    function Extract(): Copy requires Go? { copy }
  }

  datatype Events = Events(
    inReady: bool, inGet: Get, outReady: bool, outPut: Put,
    socketReadable: bool, socketHangup: bool, socketGet: Get, socketWritable: bool, socketPut: Put, error: bool)

  function Start(): Copy {
    Copy(Reading, [], [], [], [], [], [], [])
  }

  function FromInput(c: Copy, e: Events): Step {
    if c.eof != Reading || c.input != [] || !e.inReady then Go(c) else
    match e.inGet
    case End => Go(c.(eof := Ended))
    case GetAgain => Go(c)
    case GetFailed => Fail(Io, c)
    case Read(bytes) =>
      var data := bytes[..Least(|bytes|, CHUNK)];
      Go(c.(input := data, readIn := c.readIn + data))
  }

  /** `asked`: there was something to send when the descriptors were polled. */
  function ToSocket(c: Copy, asked: bool, e: Events): Step {
    if !asked || !e.socketWritable then Go(c) else
    match e.socketPut
    case PutAgain => Go(c)
    case PutFailed => Fail(Io, c)
    case Wrote(n) =>
      if c.input == [] then Fail(ZeroIo, c) else
      var k := Least(n, |c.input|);
      Go(c.(input := c.input[k..], wroteSocket := c.wroteSocket + c.input[..k]))
  }

  function FinishInput(c: Copy): Copy {
    if c.eof == Ended && c.input == [] then c.(eof := ShutDown, shutdowns := c.shutdowns + [|c.wroteSocket|]) else c
  }

  function FromSocket(c: Copy, idle: bool, e: Events): Step {
    if c.output != [] || !((idle && e.socketReadable) || e.socketHangup) then Go(c) else
    match e.socketGet
    case End => Done(c)
    case GetAgain => Go(c)
    case GetFailed => Fail(Io, c)
    case Read(bytes) =>
      var data := bytes[..Least(|bytes|, CHUNK)];
      Go(c.(output := data, readSocket := c.readSocket + data))
  }

  function ToOutput(c: Copy, asked: bool, e: Events): Step {
    if !asked || !e.outReady then Go(c) else
    match e.outPut
    case PutAgain => Go(c)
    case PutFailed => Fail(Io, c)
    case Wrote(n) =>
      if c.output == [] then Fail(ZeroIo, c) else
      var k := Least(n, |c.output|);
      Go(c.(output := c.output[k..], wroteOut := c.wroteOut + c.output[..k]))
  }

  /** Standard input towards the socket. */
  function InHalf(c: Copy, e: Events): Step {
    var c1 :- FromInput(c, e);
    var c2 :- ToSocket(c1, c.input != [], e);
    Go(FinishInput(c2))
  }

  /** The socket towards standard output; `idle` is what the poll saw. */
  function OutHalf(c: Copy, idle: bool, e: Events): Step {
    var c1 :- FromSocket(c, idle, e);
    ToOutput(c1, !idle, e)
  }

  function CopyTurn(c: Copy, e: Events): Step {
    var c1 :- InHalf(c, e);
    var c2 :- OutHalf(c1, c.output == [], e);
    if e.error then Fail(Io, c2) else Go(c2)
  }

  function CopyRun(c: Copy, es: seq<Events>): Step
    decreases |es|
  {
    if es == [] then Go(c) else
    var d :- CopyTurn(c, es[0]);
    CopyRun(d, es[1..])
  }

  // ---------- What every run keeps ----------

  predicate Exact(c: Copy) {
    && c.readIn == c.wroteSocket + c.input
    && c.readSocket == c.wroteOut + c.output
    && |c.input| <= CHUNK && |c.output| <= CHUNK
    && c.shutdowns == (if c.eof == ShutDown then [|c.readIn|] else [])
    && (c.eof == ShutDown ==> c.input == [])
  }

  lemma InHalfExact(c: Copy, e: Events)
    requires Exact(c)
    ensures match InHalf(c, e)
            case Go(d) => Exact(d) && d.output == c.output
            case Done(_) => false
            case Fail(why, d) => why == Io && Exact(d)
  {
    var s1 := FromInput(c, e);
    if s1.Go? {
      assert Exact(s1.copy);
      var s2 := ToSocket(s1.copy, c.input != [], e);
      if s2.Go? {
        Moves(s1.copy.wroteSocket, s1.copy.input, |s1.copy.input| - |s2.copy.input|);
        FinishExact(s2.copy);
      }
    }
  }

  lemma FinishExact(c: Copy)
    requires Exact(c)
    ensures Exact(FinishInput(c))
  {
    assert c.wroteSocket + [] == c.wroteSocket;
  }

  lemma OutHalfExact(c: Copy, e: Events)
    requires Exact(c)
    ensures match OutHalf(c, c.output == [], e)
            case Go(d) => Exact(d)
            case Done(d) => Exact(d) && d.output == []
            case Fail(why, d) => why == Io && Exact(d)
  {
    var s1 := FromSocket(c, c.output == [], e);
    if s1.Go? {
      assert Exact(s1.copy) by { assert c.wroteOut + [] == c.wroteOut; }
      var s2 := ToOutput(s1.copy, c.output != [], e);
      if s2.Go? { Moves(s1.copy.wroteOut, s1.copy.output, |s1.copy.output| - |s2.copy.output|); }
    }
  }

  lemma TurnExact(c: Copy, e: Events)
    requires Exact(c)
    ensures match CopyTurn(c, e)
            case Go(d) => Exact(d)
            case Done(d) => Exact(d) && d.output == []
            case Fail(why, d) => why == Io && Exact(d)
  {
    InHalfExact(c, e);
    if InHalf(c, e).Go? { OutHalfExact(InHalf(c, e).copy, e); }
  }

  lemma Moves(done: seq<byte>, left: seq<byte>, k: nat)
    requires k <= |left|
    ensures (done + left[..k]) + left[k..] == done + left
  {
  }

  lemma {:induction false} RunExact(c: Copy, es: seq<Events>)
    requires Exact(c)
    ensures match CopyRun(c, es)
            case Go(d) => Exact(d)
            case Done(d) => Exact(d) && d.output == []
            case Fail(why, d) => why == Io && Exact(d)
    decreases |es|
  {
    if es != [] {
      TurnExact(c, es[0]);
      if CopyTurn(c, es[0]).Go? { RunExact(CopyTurn(c, es[0]).copy, es[1..]); }
    }
  }

  /** However a run ends, or before it does, what is on the socket is a prefix of what was read; the write side is
      shut down at most once, and only when everything read has been sent and nothing more will be read. */
  lemma RelaysExactly(es: seq<Events>)
    ensures var r := CopyRun(Start(), es);
            && r.copy.wroteSocket <= r.copy.readIn
            && r.copy.wroteOut <= r.copy.readSocket
            && |r.copy.shutdowns| <= 1
            && (r.copy.shutdowns != [] ==>
                 r.copy.shutdowns == [|r.copy.readIn|] && r.copy.wroteSocket == r.copy.readIn)
            && (r.Fail? ==> r.why == Io)
  {
    RunExact(Start(), es);
  }

  /** Success means that every byte read from the socket was written out. */
  lemma SuccessLosesNothing(es: seq<Events>)
    requires CopyRun(Start(), es).Done?
    ensures CopyRun(Start(), es).copy.wroteOut == CopyRun(Start(), es).copy.readSocket
  {
    RunExact(Start(), es);
    var c := CopyRun(Start(), es).copy;
    assert c.wroteOut + [] == c.wroteOut;
  }

  // ---------- What was really read and written ----------

  /** Standard input is asked while it has not ended and nothing of it is waiting. */
  predicate InputAsked(c: Copy, e: Events) {
    c.eof == Reading && c.input == [] && e.inReady
  }

  predicate InputFails(c: Copy, e: Events) {
    (InputAsked(c, e) && e.inGet.GetFailed?) || (c.input != [] && e.socketWritable && e.socketPut.PutFailed?)
  }

  /** The socket is asked while nothing from it is waiting. */
  predicate SocketAsked(c: Copy, e: Events) {
    !InputFails(c, e) && c.output == [] && (e.socketReadable || e.socketHangup)
  }

  predicate OutputFails(c: Copy, e: Events) {
    (SocketAsked(c, e) && e.socketGet.GetFailed?) || (c.output != [] && e.outReady && e.outPut.PutFailed?)
  }

  datatype Traffic = Traffic(readIn: seq<byte>, wroteSocket: seq<byte>, readSocket: seq<byte>, wroteOut: seq<byte>)

  function Then(a: Traffic, b: Traffic): Traffic {
    Traffic(a.readIn + b.readIn, a.wroteSocket + b.wroteSocket, a.readSocket + b.readSocket, a.wroteOut + b.wroteOut)
  }

  /** What the descriptors gave and took in one turn. */
  function TurnTraffic(c: Copy, e: Events): Traffic {
    Traffic(
      if InputAsked(c, e) && e.inGet.Read? then Front(e.inGet.bytes, CHUNK) else [],
      if c.input != [] && e.socketWritable && e.socketPut.Wrote? then Front(c.input, e.socketPut.n) else [],
      if SocketAsked(c, e) && e.socketGet.Read? then Front(e.socketGet.bytes, CHUNK) else [],
      if !InputFails(c, e) && c.output != [] && e.outReady && e.outPut.Wrote? then Front(c.output, e.outPut.n) else [])
  }

  function RunTraffic(c: Copy, es: seq<Events>): Traffic
    decreases |es|
  {
    if es == [] then Traffic([], [], [], [])
    else if CopyTurn(c, es[0]).Go? then Then(TurnTraffic(c, es[0]), RunTraffic(CopyTurn(c, es[0]).copy, es[1..]))
    else TurnTraffic(c, es[0])
  }

  /** Standard input has been found to end. */
  predicate EndSeen(c: Copy, es: seq<Events>)
    decreases |es|
  {
    es != [] &&
      ((InputAsked(c, es[0]) && es[0].inGet.End?)
       || (CopyTurn(c, es[0]).Go? && EndSeen(CopyTurn(c, es[0]).copy, es[1..])))
  }

  function Histories(c: Copy): Traffic {
    Traffic(c.readIn, c.wroteSocket, c.readSocket, c.wroteOut)
  }

  lemma InHalfIsTraffic(c: Copy, e: Events)
    ensures var (d, t) := (InHalf(c, e).copy, TurnTraffic(c, e));
            && Histories(d) == Then(Histories(c), t.(readSocket := [], wroteOut := []))
            && d.output == c.output
            && (InHalf(c, e).Go? <==> !InputFails(c, e))
            && (d.eof == Reading <==> c.eof == Reading && !(InputAsked(c, e) && e.inGet.End?))
  {
  }

  lemma OutHalfIsTraffic(c: Copy, d: Copy, e: Events)
    requires d.output == c.output && !InputFails(c, e)
    ensures var r := OutHalf(d, c.output == [], e);
            && Histories(r.copy) == Then(Histories(d), TurnTraffic(c, e).(readIn := [], wroteSocket := []))
            && r.copy.eof == d.eof && r.copy.input == d.input && r.copy.shutdowns == d.shutdowns
            && (r.Done? <==> SocketAsked(c, e) && e.socketGet.End?)
            && (r.Fail? <==> OutputFails(c, e))
  {
  }

  /** One turn moves exactly the bytes that the descriptors gave and took, and ends the run exactly on the end of the
      socket, a failed call, or an error reported by the poll. */
  lemma TurnIsTraffic(c: Copy, e: Events)
    ensures var r := CopyTurn(c, e);
            && Histories(r.copy) == Then(Histories(c), TurnTraffic(c, e))
            && (r.copy.eof == Reading <==> c.eof == Reading && !(InputAsked(c, e) && e.inGet.End?))
            && (r.Done? <==> SocketAsked(c, e) && e.socketGet.End?)
            && (r.Go? <==> !InputFails(c, e) && !OutputFails(c, e) && !r.Done? && !e.error)
  {
    InHalfIsTraffic(c, e);
    var d := InHalf(c, e).copy;
    if !InputFails(c, e) { OutHalfIsTraffic(c, d, e); }
    hide InHalf, OutHalf, InputAsked;
    var t := TurnTraffic(c, e);
    Both(Histories(c), t.(readSocket := [], wroteOut := []), t.(readIn := [], wroteSocket := []));
  }

  lemma Both(a: Traffic, b: Traffic, c: Traffic)
    ensures Then(Then(a, b), c) == Then(a, Then(b, c))
    ensures b.readSocket == b.wroteOut == c.readIn == c.wroteSocket == [] ==>
      Then(b, c) == Traffic(b.readIn, b.wroteSocket, c.readSocket, c.wroteOut)
    ensures Then(a, Traffic([], [], [], [])) == a
  {
    Associative(a.readIn, b.readIn, c.readIn);
    Associative(a.wroteSocket, b.wroteSocket, c.wroteSocket);
    Associative(a.readSocket, b.readSocket, c.readSocket);
    Associative(a.wroteOut, b.wroteOut, c.wroteOut);
  }

  lemma {:induction false} RunIsTraffic(c: Copy, es: seq<Events>)
    ensures Histories(CopyRun(c, es).copy) == Then(Histories(c), RunTraffic(c, es))
    ensures CopyRun(c, es).copy.eof == Reading <==> c.eof == Reading && !EndSeen(c, es)
    decreases |es|
  {
    hide CopyTurn, TurnTraffic, Then, Histories;
    var h := Histories(c);
    if es == [] {
      Both(h, h, h);
    } else {
      TurnIsTraffic(c, es[0]);
      if CopyTurn(c, es[0]).Go? {
        var d := CopyTurn(c, es[0]).copy;
        RunIsTraffic(d, es[1..]);
        Both(h, TurnTraffic(c, es[0]), RunTraffic(d, es[1..]));
      }
    }
  }

  /** The end of input is passed on as soon as everything read has been sent. */
  predicate Passed(c: Copy) {
    c.eof == Ended ==> c.input != []
  }

  lemma TurnPasses(c: Copy, e: Events)
    requires Exact(c) && Passed(c)
    ensures Passed(CopyTurn(c, e).copy)
  {
    hide Exact;
    if InHalf(c, e).Go? { OutHalfLeaves(InHalf(c, e).copy, c.output == [], e); }
  }

  lemma OutHalfLeaves(c: Copy, idle: bool, e: Events)
    ensures OutHalf(c, idle, e).copy.eof == c.eof && OutHalf(c, idle, e).copy.input == c.input
  {
  }

  lemma {:induction false} RunPasses(c: Copy, es: seq<Events>)
    requires Exact(c) && Passed(c)
    ensures Passed(CopyRun(c, es).copy)
    decreases |es|
  {
    hide CopyTurn, Exact, Passed;
    if es != [] {
      TurnExact(c, es[0]);
      TurnPasses(c, es[0]);
      if CopyTurn(c, es[0]).Go? { RunPasses(CopyTurn(c, es[0]).copy, es[1..]); }
    }
  }

  /** However a run stands or ends: what it holds to be read and written is what the descriptors gave and took, and
      the write side has been shut down exactly if the input has ended and the socket has taken all of it. */
  lemma RelaysReally(es: seq<Events>)
    ensures var (c, t) := (CopyRun(Start(), es).copy, RunTraffic(Start(), es));
            && Histories(c) == t
            && t.wroteSocket <= t.readIn && t.wroteOut <= t.readSocket
            && (c.shutdowns != [] <==> EndSeen(Start(), es) && t.wroteSocket == t.readIn)
  {
    RunIsTraffic(Start(), es);
    assert Then(Histories(Start()), RunTraffic(Start(), es)) == RunTraffic(Start(), es);
    RunExact(Start(), es);
    RunPasses(Start(), es);
    var c := CopyRun(Start(), es).copy;
    if c.wroteSocket == c.readIn { assert |c.readIn| == |c.wroteSocket| + |c.input|; }
    if c.input == [] { assert c.wroteSocket + [] == c.wroteSocket; }
  }

  // ---------- The program ----------

  datatype Result = Continue | Return0 | Return1(why: Reason)

  predicate Matches(s: Step, r: Result) {
    match s
    case Go(_) => r == Continue
    case Done(_) => r == Return0
    case Fail(why, _) => r == Return1(why)
  }

  class Relay {
    const input: array<byte>
    const output: array<byte>
    var ni: nat
    var no: nat
    var eof: Eof
    ghost var readIn: seq<byte>
    ghost var wroteSocket: seq<byte>
    ghost var readSocket: seq<byte>
    ghost var wroteOut: seq<byte>
    ghost var shutdowns: seq<nat>

    ghost predicate Valid()
      reads this
    {
      input.Length == output.Length == CHUNK && input != output && ni <= CHUNK && no <= CHUNK
    }

    ghost function View(): Copy
      requires Valid()
      reads this, input, output
    {
      Copy(eof, input[..ni], output[..no], readIn, wroteSocket, readSocket, wroteOut, shutdowns)
    }

    constructor ()
      ensures Valid() && fresh(input) && fresh(output) && View() == Start()
    {
      input := new byte[CHUNK];
      output := new byte[CHUNK];
      ni, no, eof := 0, 0, Reading;
      readIn, wroteSocket, readSocket, wroteOut, shutdowns := [], [], [], [], [];
    }

    method ReadInput(e: Events) returns (r: Result)
      requires Valid()
      modifies this`ni, this`eof, this`readIn, input
      ensures Valid() && Matches(FromInput(old(View()), e), r)
      ensures View() == FromInput(old(View()), e).copy
    {
      r := Continue;
      if eof == Reading && ni == 0 && e.inReady {
        match e.inGet
        case End => eof := Ended;
        case GetAgain =>
        case GetFailed => r := Return1(Io);
        case Read(bytes) =>
          ni := Least(|bytes|, CHUNK);
          CopyIn(input, 0, bytes[..ni]);
          readIn := readIn + bytes[..ni];
          assert input[..ni] == bytes[..ni];
      }
    }

    method WriteSocket(asked: bool, e: Events) returns (r: Result)
      requires Valid()
      modifies this`ni, this`wroteSocket, input
      ensures Valid() && Matches(ToSocket(old(View()), asked, e), r)
      ensures View() == ToSocket(old(View()), asked, e).copy
    {
      r := Continue;
      if asked && e.socketWritable {
        match e.socketPut
        case PutAgain =>
        case PutFailed => r := Return1(Io);
        case Wrote(n) =>
          if ni == 0 { return Return1(ZeroIo); }
          var k := Least(n, ni);
          wroteSocket := wroteSocket + input[..k];
          assert input[..ni][..k] == input[..k] && input[..ni][k..] == input[k..ni];
          MoveDown(input, k, ni);
          ni := ni - k;
      }
    }

    method ReadSocket(idle: bool, e: Events) returns (r: Result)
      requires Valid()
      modifies this`no, this`readSocket, output
      ensures Valid() && Matches(FromSocket(old(View()), idle, e), r)
      ensures View() == FromSocket(old(View()), idle, e).copy
    {
      r := Continue;
      if no == 0 && ((idle && e.socketReadable) || e.socketHangup) {
        match e.socketGet
        case End => r := Return0;
        case GetAgain =>
        case GetFailed => r := Return1(Io);
        case Read(bytes) =>
          no := Least(|bytes|, CHUNK);
          CopyIn(output, 0, bytes[..no]);
          readSocket := readSocket + bytes[..no];
          assert output[..no] == bytes[..no];
      }
    }

    method WriteOutput(asked: bool, e: Events) returns (r: Result)
      requires Valid()
      modifies this`no, this`wroteOut, output
      ensures Valid() && Matches(ToOutput(old(View()), asked, e), r)
      ensures View() == ToOutput(old(View()), asked, e).copy
    {
      r := Continue;
      if asked && e.outReady {
        match e.outPut
        case PutAgain =>
        case PutFailed => r := Return1(Io);
        case Wrote(n) =>
          if no == 0 { return Return1(ZeroIo); }
          var k := Least(n, no);
          wroteOut := wroteOut + output[..k];
          assert output[..no][..k] == output[..k] && output[..no][k..] == output[k..no];
          MoveDown(output, k, no);
          no := no - k;
      }
    }

    method PassIn(e: Events) returns (r: Result)
      requires Valid()
      modifies this`ni, this`eof, this`readIn, this`wroteSocket, this`shutdowns, input
      ensures Valid() && Matches(InHalf(old(View()), e), r)
      ensures View() == InHalf(old(View()), e).copy
    {
      var sending := ni != 0;
      r := ReadInput(e);
      if r != Continue { return; }
      r := WriteSocket(sending, e);
      if r != Continue { return; }
      if eof == Ended && ni == 0 {
        eof := ShutDown;
        shutdowns := shutdowns + [|wroteSocket|];
      }
    }

    /** One pass of the loop. */
    method Pass(e: Events) returns (r: Result)
      requires Valid()
      modifies this, input, output
      ensures Valid() && Matches(CopyTurn(old(View()), e), r)
      ensures View() == CopyTurn(old(View()), e).copy
    {
      var idle := no == 0;
      r := PassIn(e);
      if r != Continue { return; }
      r := ReadSocket(idle, e);
      if r != Continue { return; }
      r := WriteOutput(!idle, e);
      if r != Continue { return; }
      if e.error { r := Return1(Io); }
    }

    /** The loop, for as long as the environment keeps it going. */
    method ConnectStdio(es: seq<Events>) returns (r: Result)
      requires Valid()
      modifies this, input, output
      ensures Valid() && Matches(CopyRun(old(View()), es), r)
      ensures View() == CopyRun(old(View()), es).copy
    {
      r := Continue;
      var k := 0;
      while k < |es|
        invariant k <= |es| && Valid()
        invariant CopyRun(old(View()), es) == CopyRun(View(), es[k..])
      {
        r := Pass(es[k]);
        if r != Continue { return; }
        assert es[k..][1..] == es[k + 1..];
        k := k + 1;
      }
      r := Continue;
    }
  }
}
