/** The yamux wire format: a twelve byte big-endian header, followed by `length` payload bytes
    for data frames only.  `Parse` is what the receive loop makes of a byte stream. */
module YamuxFraming {

  type byte = x: int | 0 <= x < 0x100
  type uint16 = x: int | 0 <= x < 0x1_0000
  type uint32 = x: int | 0 <= x < 0x1_0000_0000

  const PROTO_VERSION: byte := 0
  const TYPE_DATA: byte := 0
  const TYPE_WINDOW_UPDATE: byte := 1
  const TYPE_GO_AWAY: byte := 3
  const HEADER_SIZE := 12

  const FLAG_SYN: uint16 := 1
  const FLAG_ACK: uint16 := 2
  const FLAG_FIN: uint16 := 4
  const FLAG_RST: uint16 := 8

  /** `flags & bit == bit` for a single bit. */
  predicate HasFlag(flags: uint16, bit: uint16)
    requires bit != 0
  {
    flags / bit % 2 == 1
  }

  // ---------------------------------------------------------------- big-endian integers

  function Uint16(hi: byte, lo: byte): uint16 { hi as int * 0x100 + lo as int }

  function Uint32(a: byte, b: byte, c: byte, d: byte): uint32 {
    Uint16(a, b) as int * 0x1_0000 + Uint16(c, d) as int
  }

  /** Byte `k` of `x`, counted from the least significant one. */
  function ByteOf(x: uint32, k: nat): byte
    requires k < 4
  {
    match k
    case 0 => x % 0x100
    case 1 => x / 0x100 % 0x100
    case 2 => x / 0x1_0000 % 0x100
    case _ => x / 0x100_0000
  }

  lemma Uint16RoundTrip(x: uint16)
    ensures Uint16(ByteOf(x, 1), ByteOf(x, 0)) == x
  {
    var y := x / 0x100;
    assert x == y * 0x100 + ByteOf(x, 0) && ByteOf(x, 1) == y;
  }

  lemma Uint32RoundTrip(x: uint32)
    ensures Uint32(ByteOf(x, 3), ByteOf(x, 2), ByteOf(x, 1), ByteOf(x, 0)) == x
  {
    var y, z := x / 0x100, x / 0x1_0000;
    assert x == y * 0x100 + ByteOf(x, 0);
    assert y == z * 0x100 + ByteOf(x, 1) by { assert y / 0x100 == z; }
    assert z == ByteOf(x, 3) * 0x100 + ByteOf(x, 2) by { assert z / 0x100 == x / 0x100_0000; }
  }

  lemma DivideBack(high: nat, low: byte)
    ensures (high * 0x100 + low) / 0x100 == high && (high * 0x100 + low) % 0x100 == low
  {
  }

  lemma DivideTwice(x: nat)
    ensures x / 0x1_0000 == x / 0x100 / 0x100 && x / 0x100_0000 == x / 0x100 / 0x100 / 0x100
  {
  }

  lemma Uint32Canonical(a: byte, b: byte, c: byte, d: byte)
    ensures var x := Uint32(a, b, c, d);
            ByteOf(x, 3) == a && ByteOf(x, 2) == b && ByteOf(x, 1) == c && ByteOf(x, 0) == d
  {
    var z: nat := a as int * 0x100 + b;
    var y: nat := z * 0x100 + c;
    var x := Uint32(a, b, c, d);
    assert x == y * 0x100 + d;
    DivideBack(y, d);
    DivideBack(z, c);
    DivideBack(a, b);
    DivideTwice(x);
  }

  // ---------------------------------------------------------------- headers

  datatype Header = Header(msgType: byte, flags: uint16, streamId: uint32, length: uint32)

  function HeaderBytes(h: Header): (b: seq<byte>)
    ensures |b| == HEADER_SIZE
  {
    seq(HEADER_SIZE, (i: nat) requires i < HEADER_SIZE => HeaderByte(h, i))
  }

  /** Version, type, flags, stream id and length, each with its most significant byte first. */
  function HeaderByte(h: Header, i: nat): byte
    requires i < HEADER_SIZE
  {
    if i == 0 then PROTO_VERSION
    else if i == 1 then h.msgType
    else if i < 4 then ByteOf(h.flags, 3 - i)
    else if i < 8 then ByteOf(h.streamId, 7 - i)
    else ByteOf(h.length, 11 - i)
  }

  lemma HeaderLayout(h: Header)
    ensures HeaderBytes(h) ==
            [PROTO_VERSION, h.msgType, ByteOf(h.flags, 1), ByteOf(h.flags, 0),
             ByteOf(h.streamId, 3), ByteOf(h.streamId, 2), ByteOf(h.streamId, 1), ByteOf(h.streamId, 0),
             ByteOf(h.length, 3), ByteOf(h.length, 2), ByteOf(h.length, 1), ByteOf(h.length, 0)]
  {
  }

  /** The field accessors, read together. */
  function HeaderOf(b: seq<byte>): Header
    requires |b| >= HEADER_SIZE
  {
    Header(b[1], Uint16(b[2], b[3]), Uint32(b[4], b[5], b[6], b[7]), Uint32(b[8], b[9], b[10], b[11]))
  }

  /** The twelve bytes, whatever follows them. */
  lemma HeaderAt(h: Header, rest: seq<byte>)
    ensures var b := HeaderBytes(h) + rest;
            && b[0] == PROTO_VERSION && b[1] == h.msgType
            && b[2] == ByteOf(h.flags, 1) && b[3] == ByteOf(h.flags, 0)
            && b[4] == ByteOf(h.streamId, 3) && b[5] == ByteOf(h.streamId, 2)
            && b[6] == ByteOf(h.streamId, 1) && b[7] == ByteOf(h.streamId, 0)
            && b[8] == ByteOf(h.length, 3) && b[9] == ByteOf(h.length, 2)
            && b[10] == ByteOf(h.length, 1) && b[11] == ByteOf(h.length, 0)
  {
    HeaderLayout(h);
  }

  lemma HeaderRoundTrip(h: Header, rest: seq<byte>)
    ensures HeaderOf(HeaderBytes(h) + rest) == h
    ensures (HeaderBytes(h) + rest)[0] == PROTO_VERSION && (HeaderBytes(h) + rest)[1] == h.msgType
  {
    HeaderAt(h, rest);
    Uint16RoundTrip(h.flags);
    Uint32RoundTrip(h.streamId);
    Uint32RoundTrip(h.length);
  }

  lemma HeaderCanonical(b: seq<byte>)
    requires |b| >= HEADER_SIZE && b[0] == PROTO_VERSION
    ensures HeaderBytes(HeaderOf(b)) == b[..HEADER_SIZE]
  {
    Uint32Canonical(0, 0, b[2], b[3]);
    Uint32Canonical(b[4], b[5], b[6], b[7]);
    Uint32Canonical(b[8], b[9], b[10], b[11]);
  }

  /** Writes a header in place, as senders do into their reused header buffer. */
  method Encode(h: array<byte>, msgType: byte, flags: uint16, streamId: uint32, length: uint32)
    requires h.Length == HEADER_SIZE
    modifies h
    ensures h[..] == HeaderBytes(Header(msgType, flags, streamId, length))
    ensures HeaderOf(h[..]) == Header(msgType, flags, streamId, length)
  {
    h[0], h[1] := PROTO_VERSION, msgType;
    h[2], h[3] := ByteOf(flags, 1), ByteOf(flags, 0);
    h[4], h[5], h[6], h[7] := ByteOf(streamId, 3), ByteOf(streamId, 2), ByteOf(streamId, 1), ByteOf(streamId, 0);
    h[8], h[9], h[10], h[11] := ByteOf(length, 3), ByteOf(length, 2), ByteOf(length, 1), ByteOf(length, 0);
    ghost var hdr := Header(msgType, flags, streamId, length);
    HeaderLayout(hdr);
    HeaderRoundTrip(hdr, []);
    assert h[..] == HeaderBytes(hdr) + [];
  }

  // ---------------------------------------------------------------- frames

  datatype Frame = Frame(header: Header, body: seq<byte>)

  predicate IsData(f: Frame) { f.header.msgType == TYPE_DATA }

  /** How many payload bytes follow a header on the wire. */
  function PayloadLength(h: Header): uint32 {
    if h.msgType == TYPE_DATA then h.length else 0
  }

  predicate WellFormed(f: Frame) {
    f.header.msgType <= TYPE_GO_AWAY && |f.body| == PayloadLength(f.header)
  }

  function Serialize(f: Frame): seq<byte> {
    HeaderBytes(f.header) + f.body
  }

  function SerializeAll(fs: seq<Frame>): seq<byte> {
    if fs == [] then [] else Serialize(fs[0]) + SerializeAll(fs[1..])
  }

  /** Why the receive loop stopped reading. */
  datatype Ending = CleanEof | UnexpectedEof | InvalidVersion | InvalidMsgType

  datatype Reading = Reading(frames: seq<Frame>, ending: Ending)

  function Min(a: int, b: int): int { if a < b then a else b }

  datatype Next = Stop(ending: Ending) | Got(frame: Frame, rest: seq<byte>)

  /** One turn of the receive loop: read a header, check it, read its payload.  A payload cut
      short by the end of the stream is delivered as far as it goes: neither io.Copy from a
      limited reader nor the drain of a missing stream reports it, and the next header read
      then meets the end. */
  function NextFrame(b: seq<byte>): (n: Next)
    ensures n.Got? ==> |n.rest| < |b| && n.rest == b[|b| - |n.rest|..]
  {
    if b == [] then Stop(CleanEof)
    else if |b| < HEADER_SIZE then Stop(UnexpectedEof)
    else if b[0] != PROTO_VERSION then Stop(InvalidVersion)
    else if b[1] > TYPE_GO_AWAY then Stop(InvalidMsgType)
    else
      var h := HeaderOf(b);
      var end := Min(HEADER_SIZE + PayloadLength(h), |b|);
      Got(Frame(h, b[HEADER_SIZE..end]), b[end..])
  }

  /** The frames the receive loop hands to its handlers, and why it stopped. */
  function Parse(b: seq<byte>): Reading {
    match NextFrame(b)
    case Stop(ending) => Reading([], ending)
    case Got(f, rest) => Prepend(f, Parse(rest))
  }

  /** Where the receive loop stops: the bytes that do not begin another frame. */
  function Left(b: seq<byte>): seq<byte> {
    match NextFrame(b)
    case Stop(_) => b
    case Got(_, rest) => Left(rest)
  }

  function Prepend(f: Frame, r: Reading): Reading {
    Reading([f] + r.frames, r.ending)
  }

  /** The same reading, with frames put in front of it. */
  function PrependAll(fs: seq<Frame>, r: Reading): Reading {
    Reading(fs + r.frames, r.ending)
  }

  lemma PrependAllAppend(fs: seq<Frame>, f: Frame, r: Reading)
    ensures PrependAll(fs, Prepend(f, r)) == PrependAll(fs + [f], r)
  {
    assert fs + ([f] + r.frames) == fs + [f] + r.frames;
  }

  /** After `frames` the loop stands at `rest`.  (The quantifier keeps the recursive definitions
      folded.) */
  ghost predicate Standing(conn: seq<byte>, rest: seq<byte>, frames: seq<Frame>) {
    forall c, r :: c == conn && r == rest ==> Parse(c) == PrependAll(frames, Parse(r)) && Left(c) == Left(r)
  }

  lemma Stand(conn: seq<byte>, rest: seq<byte>, frames: seq<Frame>)
    requires Parse(conn) == PrependAll(frames, Parse(rest)) && Left(conn) == Left(rest)
    ensures Standing(conn, rest, frames)
  {
  }

  /** A turn of the loop moves one frame from the bytes to the frames. */
  lemma Advance(conn: seq<byte>, rest: seq<byte>, frames: seq<Frame>)
    requires Standing(conn, rest, frames) && NextFrame(rest).Got?
    ensures Standing(conn, NextFrame(rest).rest, frames + [NextFrame(rest).frame])
  {
    var n := NextFrame(rest);
    assert Parse(conn) == PrependAll(frames, Parse(rest));
    ParseStep(rest);
    PrependAllAppend(frames, n.frame, Parse(n.rest));
    Stand(conn, n.rest, frames + [n.frame]);
  }

  lemma Halt(conn: seq<byte>, rest: seq<byte>, frames: seq<Frame>)
    requires Standing(conn, rest, frames) && NextFrame(rest).Stop?
    ensures Parse(conn) == Reading(frames, NextFrame(rest).ending) && Left(conn) == rest
  {
    assert Parse(conn) == PrependAll(frames, Parse(rest));
  }

  /** The receive loop over the bytes of a connection that is then closed. */
  method RecvLoop(conn: seq<byte>) returns (frames: seq<Frame>, ending: Ending, left: seq<byte>)
    ensures Reading(frames, ending) == Parse(conn) && left == Left(conn)
  {
    frames, left := [], conn;
    Stand(conn, conn, []);
    while true
      invariant Standing(conn, left, frames)
      decreases |left|
    {
      var n := NextFrame(left);
      if n.Stop? {
        Halt(conn, left, frames);
        return frames, n.ending, left;
      }
      Advance(conn, left, frames);
      frames, left := frames + [n.frame], n.rest;
    }
  }

  // ---------------------------------------------------------------- the reader stays aligned

  lemma NextOfSerialized(f: Frame, rest: seq<byte>)
    requires WellFormed(f)
    ensures NextFrame(Serialize(f) + rest) == Got(f, rest)
  {
    HeaderRoundTrip(f.header, f.body + rest);
    Associative(HeaderBytes(f.header), f.body, rest);
    Sliced(HeaderBytes(f.header), f.body, rest);
  }

  lemma Sliced(head: seq<byte>, body: seq<byte>, rest: seq<byte>)
    ensures (head + body + rest)[|head|..|head| + |body|] == body
    ensures (head + body + rest)[|head| + |body|..] == rest
  {
  }

  lemma Associative(a: seq<byte>, b: seq<byte>, c: seq<byte>)
    ensures a + b + c == a + (b + c)
  {
  }

  lemma NextOfSerializedAll(fs: seq<Frame>, rest: seq<byte>)
    requires fs != [] && WellFormed(fs[0])
    ensures NextFrame(SerializeAll(fs) + rest) == Got(fs[0], SerializeAll(fs[1..]) + rest)
  {
    var tail := SerializeAll(fs[1..]);
    NextOfSerialized(fs[0], tail + rest);
    Associative(Serialize(fs[0]), tail, rest);
  }

  lemma ParseStep(b: seq<byte>)
    requires NextFrame(b).Got?
    ensures Parse(b) == Prepend(NextFrame(b).frame, Parse(NextFrame(b).rest)) && Left(b) == Left(NextFrame(b).rest)
  {
  }

  lemma PrependAllCons(fs: seq<Frame>, r: Reading)
    requires fs != []
    ensures Prepend(fs[0], PrependAll(fs[1..], r)) == PrependAll(fs, r)
  {
    assert [fs[0]] + (fs[1..] + r.frames) == fs + r.frames;
  }

  /** Any well-formed frame sequence is read back exactly, and whatever follows it is read
      as if it stood alone: no frame is ever started inside another one's payload. */
  lemma {:induction false} ParseAfterFrames(fs: seq<Frame>, rest: seq<byte>)
    requires forall f :: f in fs ==> WellFormed(f)
    ensures Parse(SerializeAll(fs) + rest) == PrependAll(fs, Parse(rest))
  {
    if fs == [] {
      assert SerializeAll(fs) + rest == rest;
      assert [] + Parse(rest).frames == Parse(rest).frames;
    } else {
      ParseAfterFrames(fs[1..], rest);
      NextOfSerializedAll(fs, rest);
      ParseStep(SerializeAll(fs) + rest);
      PrependAllCons(fs, Parse(rest));
    }
  }

  lemma FramingRoundTrip(fs: seq<Frame>)
    requires forall f :: f in fs ==> WellFormed(f)
    ensures Parse(SerializeAll(fs)) == Reading(fs, CleanEof)
  {
    ParseAfterFrames(fs, []);
    assert SerializeAll(fs) + [] == SerializeAll(fs);
  }

  /** The wire format is unambiguous. */
  lemma FramingInjective(fs: seq<Frame>, gs: seq<Frame>)
    requires forall f :: f in fs ==> WellFormed(f)
    requires forall g :: g in gs ==> WellFormed(g)
    requires SerializeAll(fs) == SerializeAll(gs)
    ensures fs == gs
  {
    FramingRoundTrip(fs);
    FramingRoundTrip(gs);
  }

  lemma Rejoined(b: seq<byte>, end: int)
    requires HEADER_SIZE <= end <= |b|
    ensures b[..HEADER_SIZE] + b[HEADER_SIZE..end] + b[end..] == b
  {
    assert b[..HEADER_SIZE] + b[HEADER_SIZE..end] == b[..end];
  }

  lemma NextIsCanonical(b: seq<byte>)
    requires NextFrame(b).Got?
    ensures Serialize(NextFrame(b).frame) + NextFrame(b).rest == b
    ensures WellFormed(NextFrame(b).frame) || NextFrame(b).rest == []
  {
    HeaderCanonical(b);
    Rejoined(b, Min(HEADER_SIZE + PayloadLength(HeaderOf(b)), |b|));
  }

  /** Whole frames, except that the connection may end inside the last one's payload. */
  predicate WholeButLast(fs: seq<Frame>, left: seq<byte>) {
    fs != [] ==> (WellFormed(fs[0]) || (|fs| == 1 && left == [])) && WholeButLast(fs[1..], left)
  }

  /** Conversely, whatever the bytes: the frames read from them and the bytes left over are, put
      together again, exactly those bytes; what is left begins no frame for the reason the loop
      gives; and only a last frame can be cut. */
  lemma {:induction false} ReadingIsCanonical(b: seq<byte>)
    ensures SerializeAll(Parse(b).frames) + Left(b) == b
    ensures NextFrame(Left(b)) == Stop(Parse(b).ending)
    ensures WholeButLast(Parse(b).frames, Left(b))
    decreases |b|
  {
    match NextFrame(b) {
      case Stop(_) =>
        assert [] + b == b;
      case Got(f, rest) =>
        var fs := Parse(b).frames;
        assert fs[0] == f && fs[1..] == Parse(rest).frames;
        ReadingIsCanonical(rest);
        NextIsCanonical(b);
        Associative(Serialize(f), SerializeAll(fs[1..]), Left(rest));
        if rest == [] {
          assert Parse(rest) == Reading([], CleanEof) && Left(rest) == [];
        }
    }
  }

  // ---------------------------------------------------------------- per-stream payload

  predicate DataFor(f: Frame, id: uint32) {
    IsData(f) && f.header.streamId == id
  }

  /** The payload carried for one stream, in order. */
  function Payload(fs: seq<Frame>, id: uint32): seq<byte> {
    if fs == [] then []
    else (if DataFor(fs[0], id) then fs[0].body else []) + Payload(fs[1..], id)
  }

  lemma PayloadPrepend(f: Frame, fs: seq<Frame>, id: uint32)
    ensures Payload([f] + fs, id) == (if DataFor(f, id) then f.body else []) + Payload(fs, id)
  {
    assert ([f] + fs)[1..] == fs;
  }

  /** A cut inside a frame, past its header, delivers the front of its payload. */
  lemma NextOfCutFrame(f: Frame, tail: seq<byte>, k: nat)
    requires WellFormed(f) && HEADER_SIZE <= k < |Serialize(f)|
    ensures NextFrame((Serialize(f) + tail)[..k]) == Got(Frame(f.header, f.body[..k - HEADER_SIZE]), [])
  {
    var front := f.body[..k - HEADER_SIZE];
    HeaderRoundTrip(f.header, front);
    CutInside(HeaderBytes(f.header), f.body, tail, k);
    AfterHead(HeaderBytes(f.header), front);
  }

  lemma CutInside(head: seq<byte>, body: seq<byte>, tail: seq<byte>, k: nat)
    requires |head| <= k <= |head| + |body|
    ensures (head + body + tail)[..k] == head + body[..k - |head|]
  {
  }

  lemma AfterHead(head: seq<byte>, front: seq<byte>)
    ensures (head + front)[|head|..|head + front|] == front && (head + front)[|head + front|..] == []
  {
  }

  lemma CutBehind(first: seq<byte>, tail: seq<byte>, k: nat)
    requires |first| <= k <= |first| + |tail|
    ensures (first + tail)[..k] == first + tail[..k - |first|]
  {
  }

  /** Cutting the connection anywhere loses only a suffix: for every stream, what the reader
      delivered is a prefix of what was sent, and the cut is never mistaken for a bad frame. */
  lemma {:induction false} CutStreamDeliversPrefix(fs: seq<Frame>, k: nat, id: uint32)
    requires forall f :: f in fs ==> WellFormed(f)
    requires k <= |SerializeAll(fs)|
    ensures var cut := Parse(SerializeAll(fs)[..k]);
            && Payload(cut.frames, id) <= Payload(fs, id)
            && cut.ending in {CleanEof, UnexpectedEof}
  {
    if fs != [] {
      CutFirstFrame(fs, k, id);
      if |Serialize(fs[0])| <= k {
        CutStreamDeliversPrefix(fs[1..], k - |Serialize(fs[0])|, id);
      }
    }
  }

  /** The step of the induction: a cut behind the first frame leaves that frame whole. */
  lemma CutFirstFrame(fs: seq<Frame>, k: nat, id: uint32)
    requires fs != [] && WellFormed(fs[0]) && k <= |SerializeAll(fs)|
    ensures var size, cut := |Serialize(fs[0])|, Parse(SerializeAll(fs)[..k]);
            if size <= k then
              var after := Parse(SerializeAll(fs[1..])[..k - size]);
              && Payload(cut.frames, id) == (if DataFor(fs[0], id) then fs[0].body else []) + Payload(after.frames, id)
              && cut.ending == after.ending
            else
              && Payload(cut.frames, id) <= Payload(fs, id)
              && cut.ending in {CleanEof, UnexpectedEof}
  {
    var f, tail := fs[0], SerializeAll(fs[1..]);
    var b, size := SerializeAll(fs), |Serialize(f)|;
    if size <= k {
      CutBehind(Serialize(f), tail, k);
      NextOfSerialized(f, tail[..k - size]);
      PayloadPrepend(f, Parse(tail[..k - size]).frames, id);
    } else if HEADER_SIZE <= k {
      NextOfCutFrame(f, tail, k);
      var cut := Frame(f.header, f.body[..k - HEADER_SIZE]);
      assert Parse([]) == Reading([], CleanEof);
      PayloadPrepend(cut, [], id);
    } else {
      assert NextFrame(b[..k]).Stop?;
    }
  }
}
