/** The framed byte protocol spoken by the Nix bridge: `tag | id | length | payload`,
    both numbers big-endian, and the decoder of a whole byte stream. */
module Wire {
  import opened Octets

  const U32 := 0x1_0000_0000
  type u32 = x: int | 0 <= x < U32

  const LIMIT := 16
  const CHUNK := 16384
  const HEADER := 9
  const MAGIC: seq<byte> := [0x57, 0x52, 0x49, 0x58, 0x4E, 0x42, 0x30, 0x31]  // WRIXNB01

  const OPEN: byte := 1
  const DATA: byte := 2
  const CLOSE: byte := 3
  const ACK: byte := 4

  type Payload = p: seq<byte> | |p| <= CHUNK

  datatype Frame = Frame(tag: byte, id: u32, payload: Payload)

  function Be32(v: u32): (b: seq<byte>)
    ensures |b| == 4
    ensures FromBe32(b) == v
  {
    var (low, rest) := (v % 256, v / 256);
    var (next, top) := (rest % 256, rest / 256);
    [top / 256, top % 256, next, low]
  }

  function FromBe32(b: seq<byte>): u32
    requires |b| == 4
  {
    var b0: int, b1: int, b2: int, b3: int := b[0], b[1], b[2], b[3];
    ((b0 * 256 + b1) * 256 + b2) * 256 + b3
  }

  function Header(f: Frame): (h: seq<byte>)
    ensures |h| == HEADER
    ensures TagOf(h) == f.tag && IdOf(h) == f.id && LengthOf(h) == |f.payload|
  {
    var h := [f.tag] + Be32(f.id) + Be32(|f.payload|);
    assert h[1..5] == Be32(f.id) && h[5..9] == Be32(|f.payload|);
    h
  }

  function Encode(f: Frame): (e: seq<byte>)
    ensures HEADER <= |e| == HEADER + |f.payload| <= HEADER + CHUNK
  {
    Header(f) + f.payload
  }

  function EncodeAll(fs: seq<Frame>): seq<byte> {
    if fs == [] then [] else Encode(fs[0]) + EncodeAll(fs[1..])
  }

  // The header fields of a buffer that starts with a frame.

  function TagOf(s: seq<byte>): byte
    requires |s| >= HEADER
  {
    s[0]
  }

  function IdOf(s: seq<byte>): u32
    requires |s| >= HEADER
  {
    FromBe32(s[1..5])
  }

  function LengthOf(s: seq<byte>): u32
    requires |s| >= HEADER
  {
    FromBe32(s[5..9])
  }

  /** A buffer that starts with one complete frame. */
  predicate Complete(s: seq<byte>) {
    |s| >= HEADER && LengthOf(s) <= CHUNK && |s| >= HEADER + LengthOf(s)
  }

  function First(s: seq<byte>): Frame
    requires Complete(s)
  {
    Frame(TagOf(s), IdOf(s), s[HEADER..HEADER + LengthOf(s)])
  }

  /** The whole-stream decoder: all complete frames from the front, and what is left over. */
  function Decode(s: seq<byte>): (r: (seq<Frame>, seq<byte>))
    ensures !Complete(r.1)
  {
    if Complete(s) then
      var r := Decode(s[HEADER + LengthOf(s)..]);
      ([First(s)] + r.0, r.1)
    else
      ([], s)
  }

  lemma Be32Inverse(b: seq<byte>)
    requires |b| == 4
    ensures Be32(FromBe32(b)) == b
  {
    var b0: int, b1: int, b2: int, b3: int := b[0], b[1], b[2], b[3];
    DivRem(b0 * 256 + b1, b2);
    DivRem((b0 * 256 + b1) * 256 + b2, b3);
    DivRem(b0, b1);
    assert b == [b[0], b[1], b[2], b[3]];
  }

  /** Numbers travel most significant byte first. */
  lemma BigEndian(v: u32)
    ensures Be32(v) == [v / 0x100_0000, v / 0x1_0000 % 0x100, v / 0x100 % 0x100, v % 0x100]
  {
  }

  /** A frame is its tag, its id, the length of its payload, and its payload. */
  lemma FrameLayout(f: Frame)
    ensures var e := Encode(f);
            e[0] == f.tag && e[1..5] == Be32(f.id) && e[5..9] == Be32(|f.payload|) && e[9..] == f.payload
  {
    var h := [f.tag] + Be32(f.id) + Be32(|f.payload|);
    assert h[1..5] == Be32(f.id) && h[5..9] == Be32(|f.payload|);
    assert Encode(f)[..9] == h && Encode(f)[1..5] == h[1..5] && Encode(f)[5..9] == h[5..9];
  }

  /** One data frame, byte for byte, and the four tags. */
  lemma FrameBytes()
    ensures Encode(Frame(DATA, 0x0102_0304, [7])) == [2, 1, 2, 3, 4, 0, 0, 0, 1, 7]
    ensures (OPEN, DATA, CLOSE, ACK) == (1, 2, 3, 4)
  {
    var f := Frame(DATA, 0x0102_0304, [7]);
    BigEndian(0x0102_0304);
    BigEndian(1);
    FrameLayout(f);
    var e := Encode(f);
    assert e == [e[0]] + e[1..5] + e[5..9] + e[9..];
  }

  lemma DivRem(high: int, low: int)
    requires 0 <= low < 256
    ensures (high * 256 + low) / 256 == high && (high * 256 + low) % 256 == low
  {
  }

  /** A buffer determines its first frame, and the frame determines those bytes. */
  lemma FirstOfEncode(f: Frame, rest: seq<byte>)
    ensures Complete(Encode(f) + rest) && First(Encode(f) + rest) == f
    ensures (Encode(f) + rest)[|Encode(f)|..] == rest
  {
    var s := Encode(f) + rest;
    assert s[..HEADER] == Header(f);
    assert s[1..5] == Header(f)[1..5] && s[5..9] == Header(f)[5..9];
    assert s[HEADER..HEADER + |f.payload|] == f.payload;
  }

  lemma EncodeOfFirst(s: seq<byte>)
    requires Complete(s)
    ensures Encode(First(s)) == s[..HEADER + LengthOf(s)]
  {
    var f := First(s);
    Be32Inverse(s[1..5]);
    Be32Inverse(s[5..9]);
    assert s[..HEADER] == [s[0]] + s[1..5] + s[5..9] == Header(f);
  }

  lemma Associative(x: seq<byte>, y: seq<byte>, z: seq<byte>)
    ensures x + (y + z) == (x + y) + z
  {
  }

  lemma {:induction false} EncodeAllAppend(a: seq<Frame>, b: seq<Frame>)
    ensures EncodeAll(a + b) == EncodeAll(a) + EncodeAll(b)
  {
    if a == [] {
      assert a + b == b;
    } else {
      var (x, y, z) := (Encode(a[0]), EncodeAll(a[1..]), EncodeAll(b));
      calc {
        EncodeAll(a + b);
        { assert (a + b)[0] == a[0] && (a + b)[1..] == a[1..] + b; }
        x + EncodeAll(a[1..] + b);
        { EncodeAllAppend(a[1..], b); }
        x + (y + z);
        { Associative(x, y, z); }
        (x + y) + z;
      }
    }
  }

  lemma EncodeAllSnoc(a: seq<Frame>, f: Frame)
    ensures EncodeAll(a + [f]) == EncodeAll(a) + Encode(f)
  {
    EncodeAllAppend(a, [f]);
    assert EncodeAll([f]) == Encode(f) + [];
  }

  /** Nothing is lost: the decoded frames and the remainder spell the input. */
  lemma {:induction false} DecodeSound(s: seq<byte>)
    ensures EncodeAll(Decode(s).0) + Decode(s).1 == s
  {
    if Complete(s) {
      var t := s[HEADER + LengthOf(s)..];
      DecodeSound(t);
      EncodeOfFirst(s);
      assert Decode(s).0[1..] == Decode(t).0;
      assert s == s[..HEADER + LengthOf(s)] + t;
    }
  }

  /** Encoding then decoding returns the very frames, whatever incomplete tail follows. */
  lemma {:induction false} DecodeOfEncode(fs: seq<Frame>, rest: seq<byte>)
    requires !Complete(rest)
    ensures Decode(EncodeAll(fs) + rest) == (fs, rest)
  {
    if fs == [] {
      assert EncodeAll(fs) + rest == rest;
    } else {
      var tail := EncodeAll(fs[1..]) + rest;
      DecodeOfEncode(fs[1..], rest);
      assert EncodeAll(fs) + rest == Encode(fs[0]) + tail;
      FirstOfEncode(fs[0], tail);
      assert Decode(Encode(fs[0]) + tail) == ([fs[0]] + Decode(tail).0, Decode(tail).1);
      assert [fs[0]] + fs[1..] == fs;
    }
  }

  /** Decoding a prefix never misleads: later bytes only extend the decoded frames. */
  lemma {:induction false} DecodeAppend(s: seq<byte>, t: seq<byte>)
    ensures Decode(s + t) == (Decode(s).0 + Decode(Decode(s).1 + t).0, Decode(Decode(s).1 + t).1)
  {
    if Complete(s) {
      var n := HEADER + LengthOf(s);
      assert (s + t)[1..5] == s[1..5] && (s + t)[5..9] == s[5..9];
      assert (s + t)[HEADER..n] == s[HEADER..n];
      assert (s + t)[n..] == s[n..] + t;
      DecodeAppend(s[n..], t);
      assert Complete(s + t) && First(s + t) == First(s);
      assert Decode(s + t) == ([First(s)] + Decode(s[n..] + t).0, Decode(s[n..] + t).1);
      var a, b := Decode(s[n..]).0, Decode(Decode(s[n..]).1 + t).0;
      assert [First(s)] + (a + b) == ([First(s)] + a) + b;
    } else {
      assert Decode(s) == ([], s);
      var r := Decode(s + t);
      assert [] + r.0 == r.0;
    }
  }

  /** Received bytes that are a prefix of a peer's encoding decode to a prefix of its frames,
      and an unfinished header is the header of the next one. */
  lemma PrefixDecodes(received: seq<byte>, sent: seq<Frame>)
    requires received <= EncodeAll(sent)
    ensures var (fs, rest) := Decode(received);
            && fs <= sent
            && (|rest| >= HEADER ==> |fs| < |sent| && rest[..HEADER] == Header(sent[|fs|]))
  {
    var t := EncodeAll(sent)[|received|..];
    PrefixSplit(received, EncodeAll(sent));
    DecodeExtends(received, t, sent);
    if |Decode(received).1| >= HEADER {
      HeaderAhead(Decode(received).1, t);
    }
    FrontOf(Decode(received).0, Decode(Decode(received).1 + t).0, sent);
  }

  lemma FrontOf(front: seq<Frame>, more: seq<Frame>, all: seq<Frame>)
    requires all == front + more
    ensures front <= all
    ensures more != [] ==> |front| < |all| && all[|front|] == more[0]
  {
  }

  lemma PrefixSplit(a: seq<byte>, b: seq<byte>)
    requires a <= b
    ensures a + b[|a|..] == b
  {
  }

  lemma DecodeExtends(received: seq<byte>, t: seq<byte>, sent: seq<Frame>)
    requires received + t == EncodeAll(sent)
    ensures var (fs, rest) := Decode(received);
            sent == fs + Decode(rest + t).0 && Decode(rest + t).1 == []
  {
    assert EncodeAll(sent) + [] == EncodeAll(sent);
    DecodeOfEncode(sent, []);
    DecodeAppend(received, t);
  }

  /** An unfinished header already determines the header of the frame that completes it. */
  lemma HeaderAhead(rest: seq<byte>, t: seq<byte>)
    requires |rest| >= HEADER
    requires Decode(rest + t).1 == []
    ensures Decode(rest + t).0 != [] && rest[..HEADER] == Header(Decode(rest + t).0[0])
  {
    var s := rest + t;
    assert Complete(s);
    EncodeOfFirst(s);
    assert Encode(First(s))[..HEADER] == Header(First(s));
    assert s[..HEADER] == s[..HEADER + LengthOf(s)][..HEADER];
  }
}
