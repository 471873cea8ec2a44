/** One stream between two endpoints over FIFO links: every interleaving of the writer, the
    reader, Close, the window updates and the receive loops at both ends.  The window credit is
    conserved, no byte is lost or reordered, and no protocol error can be provoked. */
module YamuxLink {
  import opened YamuxFraming
  import opened YamuxStream

  /** Live exactly while the session's `streams` map holds the stream. */
  datatype Status = Absent | Live | Gone

  /** Where the one writer of a stream stands inside `write`. */
  datatype Writer = Idle | Checked | Ready(window: uint32) | Sent(n: uint32)

  /** A stream object at one endpoint.  The fields from `acked` on record history: an ACK was sent
      or, by the opener, processed; Close took effect; a FIN, or an RST, was processed; bytes were
      sent after the end's own FIN; credit that arrived after the stream was unregistered; bytes
      accepted from the writer and bytes given to the reader. */
  datatype End = End(
    opener: bool, max: uint32, status: Status, s: State, writer: Writer, owes: bool, closing: Closing,
    acked: bool, closed: bool, finSeen: bool, rstSeen: bool, late: bool, missed: nat, written: seq<byte>, read: seq<byte>)

  function FreshEnd(opener: bool, max: uint32): End {
    End(opener, max, Absent, NewState(Init), Idle, false, NoFin, false, false, false, false, false, 0, [], [])
  }

  /** An ACK is among the frames. */
  predicate Acks(fs: seq<Frame>) { fs != [] && HasFlag(fs[0].header.flags, FLAG_ACK) }

  /** The end closed and its FIN is on its way. */
  predicate FinSent(e: End) { e.closed && e.closing.NoFin? }

  /** What has reached the stream object: read by its reader or waiting for it. */
  function Arrived(e: End): seq<byte> { e.read + e.s.recvBuf }

  // ---------------------------------------------------------------- what an endpoint does

  datatype Act =
    | Open | CheckWrite | LoadWindow | SendChunk(b: seq<byte>) | FinishWrite
    | ReadSome(limit: nat) | UpdateWindow | Close | SendFin

  predicate CanAct(e: End, act: Act) {
    match act
    case Open => e.opener && e.status.Absent?
    case CheckWrite => !e.status.Absent? && e.writer.Idle? && !e.s.phase.Init? && MayWrite(e.s.phase)
    case LoadWindow => e.writer.Checked?
    case SendChunk(_) => e.writer.Ready?
    case FinishWrite => e.writer.Sent?
    case ReadSome(_) => !e.status.Absent? && !e.s.phase.Reset? && e.s.recvBuf != []
    case UpdateWindow => !e.status.Absent? && e.owes
    case Close => !e.status.Absent? && !e.s.phase.Init? && e.closing.NoFin?
    case SendFin => !e.closing.NoFin?
  }

  datatype Acted = Acted(end: End, frames: seq<Frame>)

  function OpenEnd(e: End, id: uint32): Acted {
    var u := WindowUpdate(NewState(Init), id, e.max);
    Acted(e.(status := Live, s := u.state), u.frames)
  }

  function SendEnd(e: End, id: uint32, b: seq<byte>): Acted
    requires e.writer.Ready?
  {
    ChunkLeavesWholeMultiples(e.writer.window, b);
    var n := ChunkSize(e.writer.window, b);
    var (flags, phase) := SendFlags(e.s.phase);
    var fs := [Data(flags, id, b[..n])];
    Acted(e.(s := e.s.(phase := phase), writer := Sent(n), acked := e.acked || Acks(fs),
             written := e.written + b[..n], late := e.late || (FinSent(e) && n > 0)), fs)
  }

  function ReadEndOf(e: End, limit: nat): Acted {
    var n := Min(limit, |e.s.recvBuf|);
    Acted(e.(s := e.s.(recvBuf := e.s.recvBuf[n..]), read := e.read + e.s.recvBuf[..n], owes := true), [])
  }

  function UpdateEnd(e: End, id: uint32): Acted {
    var u := WindowUpdate(e.s, id, e.max);
    Acted(e.(s := u.state, owes := false, acked := e.acked || Acks(u.frames)), u.frames)
  }

  function CloseEnd(e: End): Acted
    requires !e.s.phase.Init?
  {
    var (phase, closing) := CloseFrom(e.s.phase);
    Acted(e.(s := e.s.(phase := phase), closing := closing, closed := e.closed || !closing.NoFin?), [])
  }

  function FinEnd(e: End, id: uint32): Acted {
    var (flags, phase) := SendFlags(e.s.phase);
    var fs := [Control(flags + FLAG_FIN, id, 0)];
    Acted(e.(s := e.s.(phase := phase), closing := NoFin, status := if e.closing.FullClose? then Gone else e.status,
             acked := e.acked || Acks(fs)), fs)
  }

  /** One atomic step of a stream's goroutines, with the frames it queues for sending. */
  function Perform(e: End, id: uint32, act: Act): Acted
    requires CanAct(e, act)
  {
    match act
    case Open => OpenEnd(e, id)
    case CheckWrite => Acted(e.(writer := Checked), [])
    case LoadWindow =>
      Acted(e.(writer := if e.s.sendWindow == 0 then Idle else Ready(e.s.sendWindow)), [])
    case SendChunk(b) => SendEnd(e, id, b)
    case FinishWrite =>
      Acted(e.(s := e.s.(sendWindow := Wrap(e.s.sendWindow - e.writer.n)), writer := Idle), [])
    case ReadSome(limit) => ReadEndOf(e, limit)
    case UpdateWindow => UpdateEnd(e, id)
    case Close => CloseEnd(e)
    case SendFin => FinEnd(e, id)
  }

  /** An attempt of `write` that nothing interrupts: the four acts together send one chunk and
      deduct it, as one attempt of the stream object does. */
  function Attempt(e: End, id: uint32, b: seq<byte>): Acted
    requires CanAct(e, CheckWrite) && e.s.sendWindow > 0
  {
    var r := Perform(Perform(Perform(e, id, CheckWrite).end, id, LoadWindow).end, id, SendChunk(b));
    Acted(Perform(r.end, id, FinishWrite).end, r.frames)
  }

  lemma AttemptIsOneChunk(e: End, id: uint32, b: seq<byte>)
    requires CanAct(e, CheckWrite) && e.s.sendWindow > 0
    ensures var r, n, (flags, p) := Attempt(e, id, b), ChunkSize(e.s.sendWindow, b), SendFlags(e.s.phase);
            && n <= |b| && r.frames == [Data(flags, id, b[..n])]
            && r.end.s == e.s.(phase := p, sendWindow := Wrap(e.s.sendWindow - n))
            && r.end.written == e.written + b[..n] && r.end.writer == e.writer
  {
    ChunkLeavesWholeMultiples(e.s.sendWindow, b);
  }

  datatype Handled = Handled(end: End, frames: seq<Frame>) | SessionError

  /** A frame with SYN: refused with RST (backlog full or going away), a duplicate, or accepted. */
  function Incoming(e: End, id: uint32, accept: bool): Handled {
    if !accept then
      Handled(if e.status.Absent? then e.(status := Gone) else e, [Control(FLAG_RST, id, 0)])
    else if e.status.Live? then SessionError
    else Handled(FreshEnd(e.opener, e.max).(status := Live, s := NewState(SYNReceived), owes := true), [])
  }

  /** The rest of the handler: frames for a stream that is not registered are dropped. */
  function Dispatch(e: End, f: Frame): Handled {
    if !e.status.Live? then
      Handled(if IsData(f) then e else e.(missed := e.missed + f.header.length), [])
    else
      match Receive(e.s, f)
      case ProtocolError => SessionError
      case Received(s, unregister) =>
        Handled(e.(s := s, status := if unregister then Gone else Live,
                   acked := e.acked || (e.opener && HasFlag(f.header.flags, FLAG_ACK)),
                   finSeen := e.finSeen || HasFlag(f.header.flags, FLAG_FIN),
                   rstSeen := e.rstSeen || HasFlag(f.header.flags, FLAG_RST)), [])
  }

  /** handleStreamMessage, seen from the stream the frame names. */
  function Handle(e: End, id: uint32, f: Frame, accept: bool): Handled {
    if HasFlag(f.header.flags, FLAG_SYN) then
      match Incoming(e, id, accept)
      case SessionError => SessionError
      case Handled(e1, frames) =>
        match Dispatch(e1, f)
        case SessionError => SessionError
        case Handled(e2, _) => Handled(e2, frames)
    else Dispatch(e, f)
  }

  // ---------------------------------------------------------------- the two ends together

  /** `out` is what `me` has queued or put on the wire and `peer` has not yet received. */
  datatype Link = Link(id: uint32, me: End, peer: End, out: seq<Frame>, inb: seq<Frame>)

  function Flip(l: Link): Link { Link(l.id, l.peer, l.me, l.inb, l.out) }

  function ActMe(l: Link, act: Act): Link
    requires CanAct(l.me, act)
  {
    var r := Perform(l.me, l.id, act);
    l.(me := r.end, out := l.out + r.frames)
  }

  datatype Delivered = Delivered(link: Link) | Broken

  function ReceiveMe(l: Link, accept: bool): Delivered
    requires l.inb != []
  {
    match Handle(l.me, l.id, l.inb[0], accept)
    case SessionError => Broken
    case Handled(e, frames) => Delivered(l.(me := e, inb := l.inb[1..], out := l.out + frames))
  }

  // ---------------------------------------------------------------- quantities in transit

  function PayloadOf(f: Frame): seq<byte> { if IsData(f) then f.body else [] }

  function Bytes(q: seq<Frame>): seq<byte> {
    if q == [] then [] else PayloadOf(q[0]) + Bytes(q[1..])
  }

  function CreditOf(f: Frame): nat { if IsData(f) then 0 else f.header.length }

  function Credit(q: seq<Frame>): nat {
    if q == [] then 0 else CreditOf(q[0]) + Credit(q[1..])
  }

  function Bit(b: bool): nat { if b then 1 else 0 }

  function FinOf(f: Frame): nat { Bit(HasFlag(f.header.flags, FLAG_FIN)) }

  function Fins(q: seq<Frame>): nat {
    if q == [] then 0 else FinOf(q[0]) + Fins(q[1..])
  }

  lemma {:induction false} BytesAppend(q: seq<Frame>, f: Frame)
    ensures Bytes(q + [f]) == Bytes(q) + PayloadOf(f)
  {
    if q == [] {
      assert q + [f] == [f] && [f][1..] == [];
      assert [] + PayloadOf(f) == PayloadOf(f) == PayloadOf(f) + [];
    } else {
      BytesAppend(q[1..], f);
      assert (q + [f])[0] == q[0] && (q + [f])[1..] == q[1..] + [f];
      assert PayloadOf(q[0]) + (Bytes(q[1..]) + PayloadOf(f)) == PayloadOf(q[0]) + Bytes(q[1..]) + PayloadOf(f);
    }
  }

  lemma {:induction false} CreditAppend(q: seq<Frame>, f: Frame)
    ensures Credit(q + [f]) == Credit(q) + CreditOf(f)
    ensures Fins(q + [f]) == Fins(q) + FinOf(f)
  {
    if q == [] {
      assert q + [f] == [f] && [f][1..] == [];
    } else {
      CreditAppend(q[1..], f);
      assert (q + [f])[0] == q[0] && (q + [f])[1..] == q[1..] + [f];
    }
  }

  lemma QueueAppend(q: seq<Frame>, f: Frame)
    ensures Bytes(q + [f]) == Bytes(q) + PayloadOf(f)
    ensures Credit(q + [f]) == Credit(q) + CreditOf(f)
    ensures Fins(q + [f]) == Fins(q) + FinOf(f)
  {
    BytesAppend(q, f);
    CreditAppend(q, f);
  }

  // ---------------------------------------------------------------- the invariant

  function Pending(e: End): uint32 { if e.writer.Sent? then e.writer.n else 0 }

  /** What the receiver can still take beyond what is already on its way to it or granted to
      its sender but not yet delivered. */
  function Available(r: End, q: seq<Frame>, c: seq<Frame>): int {
    r.s.recvWindow - |Bytes(q)| - Credit(c)
  }

  /** Credit of one direction: `q` carries data from `s` to `r` and `c` carries credit back. */
  ghost predicate CreditConserved(s: End, r: End, q: seq<Frame>, c: seq<Frame>) {
    var free := Available(r, q, c) - s.missed;
    && 0 <= free
    && s.s.sendWindow == Wrap(free + Pending(s))
    && (s.writer.Ready? ==> s.writer.window <= free)
  }

  /** Bytes of one direction: none is lost, duplicated or reordered. */
  ghost predicate Transparent(s: End, r: End, q: seq<Frame>) {
    s.written == Arrived(r) + Bytes(q)
  }

  /** No bytes follow a FIN. */
  ghost predicate FinLast(q: seq<Frame>) {
    q != [] ==> if FinOf(q[0]) > 0 then Bytes(q[1..]) == [] else FinLast(q[1..])
  }

  /** A receiver that processed the FIN of a sender that sent nothing after it has got everything,
      registered or not. */
  ghost predicate EofComplete(s: End, r: End, q: seq<Frame>) {
    && (Fins(q) > 0 || r.finSeen ==> FinSent(s))
    && (!s.late ==> FinLast(q))
    && (!s.late && r.finSeen ==> Bytes(q) == [] && Arrived(r) == s.written)
  }

  ghost predicate FinOnce(s: End, r: End, q: seq<Frame>) {
    Fins(q) + Bit(r.finSeen) + Bit(!s.closing.NoFin?) == Bit(s.closed)
  }

  ghost predicate Direction(s: End, r: End, q: seq<Frame>, c: seq<Frame>) {
    && (r.status.Gone? || (CreditConserved(s, r, q, c) && Transparent(s, r, q) && FinOnce(s, r, q)))
    && Arrived(r) <= s.written && EofComplete(s, r, q)
  }

  predicate IsSyn(f: Frame) { HasFlag(f.header.flags, FLAG_SYN) }

  ghost predicate FrameOk(f: Frame, id: uint32) {
    && WellFormed(f) && f.header.streamId == id
    && (IsData(f) || f.header.msgType == TYPE_WINDOW_UPDATE)
    && (f.header.flags == 0 || f.header.flags == FLAG_ACK
        || (!IsData(f) && (f.header.flags == FLAG_SYN || f.header.flags == FLAG_FIN || f.header.flags == FLAG_RST)))
  }

  ghost predicate QueueOk(q: seq<Frame>, id: uint32) {
    forall f :: f in q ==> FrameOk(f, id)
  }

  ghost predicate NoSyn(q: seq<Frame>) {
    forall f :: f in q ==> !IsSyn(f)
  }

  /** The phase that the history of a stream object amounts to. */
  function PhaseOf(e: End): Phase {
    if e.rstSeen then Reset
    else if e.closed && e.finSeen then Closed
    else if e.closed then LocalClose
    else if e.finSeen then RemoteClose
    else if e.acked then Established
    else if e.opener then SYNSent else SYNReceived
  }

  /** A stream object that was ever registered is in the phase its history amounts to, and it is
      unregistered exactly by a reset, or once both ends closed, unless its own FIN, sent last, is
      still to go out. */
  ghost predicate Lifecycle(e: End) {
    && e.s.phase == PhaseOf(e)
    && (e.status.Gone? <==> e.rstSeen || (e.closed && e.finSeen && !e.closing.FullClose?))
    && (e.closing.FullClose? ==> e.finSeen)
  }

  /** What holds of an endpoint by itself. */
  ghost predicate EndOk(e: End) {
    && INITIAL_WINDOW <= e.max
    && e.s.recvWindow + |e.s.recvBuf| <= e.max
    && (e.status.Absent? ==> e == FreshEnd(e.opener, e.max))
    && (!e.status.Absent? && !e.s.phase.Init? && !e.owes ==> e.max - |e.s.recvBuf| - e.s.recvWindow < e.max / 2)
    && (e.status.Gone? || e.missed == 0)
    && (e.s.phase.Init? ==> e.s.recvBuf == [] && !e.owes && !e.acked && !e.closed && !e.finSeen && !e.rstSeen)
    && (e.status.Live? ==> !e.s.phase.Init?)
    && (!e.s.phase.Init? ==> Lifecycle(e))
    && (!e.closing.NoFin? ==> e.closed)
    && (e.writer.Sent? || e.writer.Ready? || e.writer.Checked? ==> !e.s.phase.Init?)
    && (e.writer.Ready? ==> e.writer.window > 0)
  }

  /** SYN is the first frame of a stream, sent once, by the opener. */
  ghost predicate SynFirst(o: End, a: End, q: seq<Frame>, c: seq<Frame>) {
    && o.opener && !a.opener
    && NoSyn(c)
    && (o.status.Absent? ==> a.status.Absent? && q == [])
    && (a.status.Absent? ==> c == [] && (!o.status.Absent? ==> q != [] && IsSyn(q[0]) && NoSyn(q[1..])))
    && (!a.status.Absent? ==> NoSyn(q))
  }

  ghost predicate Sound(l: Link) {
    && EndOk(l.me) && EndOk(l.peer)
    && QueueOk(l.out, l.id) && QueueOk(l.inb, l.id)
    && Direction(l.me, l.peer, l.out, l.inb)
    && Direction(l.peer, l.me, l.inb, l.out)
    && (SynFirst(l.me, l.peer, l.out, l.inb) || SynFirst(l.peer, l.me, l.inb, l.out))
  }

  lemma SoundFlips(l: Link)
    ensures Sound(Flip(l)) <==> Sound(l)
  {
  }

  lemma SoundInitially(id: uint32, myMax: uint32, peerMax: uint32, iOpen: bool)
    requires INITIAL_WINDOW <= myMax && INITIAL_WINDOW <= peerMax
    ensures Sound(Link(id, FreshEnd(iOpen, myMax), FreshEnd(!iOpen, peerMax), [], []))
  {
  }

  // ---------------------------------------------------------------- local steps

  lemma QueueOne(f: Frame)
    ensures Bytes([f]) == PayloadOf(f) && Credit([f]) == CreditOf(f) && Fins([f]) == FinOf(f)
  {
    QueueAppend([], f);
    assert [] + [f] == [f];
  }

  /** What a local step changes, as balances: bytes and credit leave an endpoint only in frames. */
  ghost predicate Effect(e: End, e': End, frames: seq<Frame>) {
    && |frames| <= 1
    && e'.opener == e.opener && e'.max == e.max && e'.missed == e.missed && e'.finSeen == e.finSeen
    && e'.written == e.written + Bytes(frames) && Arrived(e') == Arrived(e)
    && (Fins(frames) > 0 ==> FinSent(e') && Bytes(frames) == []) && (FinSent(e) ==> FinSent(e'))
    && e'.late == (e.late || (FinSent(e) && Bytes(frames) != []))
    && e'.s.recvWindow == e.s.recvWindow + Credit(frames)
    && e'.s.sendWindow == Wrap(e.s.sendWindow + Pending(e') - Pending(e) - |Bytes(frames)|)
    && |Bytes(frames)| <= (if e.writer.Ready? then e.writer.window else 0)
    && (e'.writer.Ready? ==> e'.writer == e.writer || (e.writer.Checked? && e'.writer.window == e.s.sendWindow))
    && (e.writer.Ready? && frames != [] && IsData(frames[0]) ==> !e'.writer.Ready?)
    && (frames != [] && !IsData(frames[0]) ==> e'.writer == e.writer)
    && Fins(frames) + Bit(!e'.closing.NoFin?) + Bit(e.closed) == Bit(!e.closing.NoFin?) + Bit(e'.closed)
    && (e.status.Gone? ==> e'.status.Gone?)
  }

  ghost predicate StepOk(e: End, r: Acted, id: uint32) {
    EndOk(r.end) && !r.end.status.Absent? && QueueOk(r.frames, id) && Effect(e, r.end, r.frames)
  }

  lemma OpenOk(e: End, id: uint32)
    requires EndOk(e) && CanAct(e, Open)
    ensures StepOk(e, OpenEnd(e, id), id)
    ensures var fs := OpenEnd(e, id).frames; fs != [] && IsSyn(fs[0])
  {
    DeltaExact(NewState(Init), e.max);
    QueueOne(OpenEnd(e, id).frames[0]);
  }

  lemma SendOk(e: End, id: uint32, b: seq<byte>)
    requires EndOk(e) && e.writer.Ready?
    ensures StepOk(e, SendEnd(e, id, b), id) && NoSyn(SendEnd(e, id, b).frames)
  {
    ChunkLeavesWholeMultiples(e.writer.window, b);
    QueueOne(SendEnd(e, id, b).frames[0]);
  }

  lemma ReadSplit(read: seq<byte>, buf: seq<byte>, n: nat)
    requires n <= |buf|
    ensures read + buf[..n] + buf[n..] == read + buf
  {
    assert buf[..n] + buf[n..] == buf;
    Joined(read, buf[..n], buf[n..]);
  }

  lemma ReadOk(e: End, id: uint32, limit: nat)
    requires EndOk(e) && CanAct(e, ReadSome(limit))
    ensures StepOk(e, ReadEndOf(e, limit), id) && NoSyn(ReadEndOf(e, limit).frames)
  {
    ReadSplit(e.read, e.s.recvBuf, Min(limit, |e.s.recvBuf|));
  }

  /** An update carries what it adds to the receive window, which stays within the maximum. */
  lemma UpdateFrames(e: End, id: uint32)
    requires EndOk(e) && CanAct(e, UpdateWindow) && !e.s.phase.Init?
    ensures var r := UpdateEnd(e, id);
            && |r.frames| <= 1 && Bytes(r.frames) == [] && Fins(r.frames) == 0
            && r.end.s.recvWindow == e.s.recvWindow + Credit(r.frames)
            && r.end.s.recvWindow + |e.s.recvBuf| <= e.max
            && (e.max - |e.s.recvBuf| - r.end.s.recvWindow < e.max / 2)
  {
    DeltaExact(e.s, e.max);
    var fs := UpdateEnd(e, id).frames;
    if fs != [] {
      QueueOne(fs[0]);
    }
  }

  lemma UpdateFramesOk(e: End, id: uint32)
    requires EndOk(e) && CanAct(e, UpdateWindow) && !e.s.phase.Init?
    ensures QueueOk(UpdateEnd(e, id).frames, id) && NoSyn(UpdateEnd(e, id).frames)
  {
  }

  lemma UpdateEndOk(e: End, id: uint32)
    requires EndOk(e) && CanAct(e, UpdateWindow) && !e.s.phase.Init?
    ensures EndOk(UpdateEnd(e, id).end)
  {
    UpdateFrames(e, id);
  }

  lemma UpdateOk(e: End, id: uint32)
    requires EndOk(e) && CanAct(e, UpdateWindow) && !e.s.phase.Init?
    ensures StepOk(e, UpdateEnd(e, id), id) && NoSyn(UpdateEnd(e, id).frames)
  {
    UpdateFrames(e, id);
    UpdateFramesOk(e, id);
    UpdateEndOk(e, id);
  }

  lemma CloseOk(e: End, id: uint32)
    requires EndOk(e) && CanAct(e, Close)
    ensures StepOk(e, CloseEnd(e), id) && NoSyn(CloseEnd(e).frames)
  {
  }

  lemma FinOk(e: End, id: uint32)
    requires EndOk(e) && CanAct(e, SendFin)
    ensures StepOk(e, FinEnd(e, id), id) && NoSyn(FinEnd(e, id).frames)
  {
    QueueOne(FinEnd(e, id).frames[0]);
  }

  lemma AppendFew(q: seq<Frame>, fs: seq<Frame>)
    requires |fs| <= 1
    ensures Bytes(q + fs) == Bytes(q) + Bytes(fs)
    ensures Credit(q + fs) == Credit(q) + Credit(fs)
    ensures Fins(q + fs) == Fins(q) + Fins(fs)
  {
    if fs == [] {
      assert q + fs == q;
    } else {
      QueueAppend(q, fs[0]);
      QueueOne(fs[0]);
      assert fs == [fs[0]];
    }
  }

  /** The acting end as the sender of a direction. */
  lemma EffectOnSender(e: End, e': End, fs: seq<Frame>, r: End, q: seq<Frame>, c: seq<Frame>)
    requires Effect(e, e', fs) && r.s.recvWindow <= r.max
    requires Direction(e, r, q, c)
    ensures Direction(e', r, q + fs, c)
  {
    EffectOnEof(e, e', fs, r, q);
    if !r.status.Gone? {
      EffectOnCredit(e, e', fs, r, q, c);
      EffectOnBytes(e, e', fs, r, q);
      AppendFew(q, fs);
    }
  }

  lemma {:induction false} FinLastAppend(q: seq<Frame>, fs: seq<Frame>)
    requires |fs| <= 1 && FinLast(q) && (Fins(q) == 0 || Bytes(fs) == [])
    ensures FinLast(q + fs)
    decreases |q|
  {
    if q == [] {
      assert q + fs == fs;
    } else {
      assert (q + fs)[1..] == q[1..] + fs;
      AppendFew(q[1..], fs);
      if FinOf(q[0]) == 0 {
        FinLastAppend(q[1..], fs);
      }
    }
  }

  lemma {:induction false} NoBytesNoneLate(q: seq<Frame>)
    requires Bytes(q) == []
    ensures FinLast(q)
    decreases |q|
  {
    if q != [] {
      NoBytesNoneLate(q[1..]);
    }
  }

  lemma EffectOnEof(e: End, e': End, fs: seq<Frame>, r: End, q: seq<Frame>)
    requires Effect(e, e', fs) && EofComplete(e, r, q) && Arrived(r) <= e.written
    ensures EofComplete(e', r, q + fs) && Arrived(r) <= e'.written
  {
    AppendFew(q, fs);
    if !e'.late {
      FinLastAppend(q, fs);
    }
  }

  lemma EffectOnBytes(e: End, e': End, fs: seq<Frame>, r: End, q: seq<Frame>)
    requires |fs| <= 1 && e'.written == e.written + Bytes(fs)
    requires Transparent(e, r, q)
    ensures Transparent(e', r, q + fs)
  {
    AppendFew(q, fs);
    Joined(Arrived(r), Bytes(q), Bytes(fs));
  }

  lemma Joined(a: seq<byte>, b: seq<byte>, c: seq<byte>)
    ensures (a + b) + c == a + (b + c)
  {
  }

  lemma EffectOnCredit(e: End, e': End, fs: seq<Frame>, r: End, q: seq<Frame>, c: seq<Frame>)
    requires Effect(e, e', fs) && r.s.recvWindow <= r.max && CreditConserved(e, r, q, c)
    ensures CreditConserved(e', r, q + fs, c)
  {
    AvailableAfter(r, q, fs, c);
    CreditAfter(e.s.sendWindow, Available(r, q, c) - e.missed, Pending(e), |Bytes(fs)|, Pending(e'));
  }

  lemma AvailableAfter(r: End, q: seq<Frame>, fs: seq<Frame>, c: seq<Frame>)
    requires |fs| <= 1
    ensures Available(r, q + fs, c) == Available(r, q, c) - |Bytes(fs)|
  {
    AppendFew(q, fs);
  }

  lemma CreditAfter(window: uint32, free: int, pending: uint32, n: nat, pending': uint32)
    requires window == Wrap(free + pending)
    ensures Wrap(window + pending' - pending - n) == Wrap(free - n + pending')
  {
    WrapAdd(free + pending, pending' - pending - n);
    assert free + pending + (pending' - pending - n) == free - n + pending';
  }

  /** The acting end as the receiver of a direction. */
  lemma EffectOnReceiver(s: End, e: End, e': End, fs: seq<Frame>, q: seq<Frame>, c: seq<Frame>)
    requires Effect(e, e', fs) && Direction(s, e, q, c)
    ensures Direction(s, e', q, c + fs)
  {
    AppendFew(c, fs);
  }

  lemma SynFirstKept(l: Link, e: End, fs: seq<Frame>)
    requires SynFirst(l.me, l.peer, l.out, l.inb) || SynFirst(l.peer, l.me, l.inb, l.out)
    requires !l.me.status.Absent? && !e.status.Absent? && e.opener == l.me.opener && NoSyn(fs)
    ensures SynFirst(e, l.peer, l.out + fs, l.inb) || SynFirst(l.peer, e, l.inb, l.out + fs)
  {
    if l.out != [] {
      assert (l.out + fs)[1..] == l.out[1..] + fs;
    }
  }

  lemma OpenKeeps(l: Link)
    requires Sound(l) && CanAct(l.me, Open)
    ensures Sound(ActMe(l, Open))
  {
    var r := OpenEnd(l.me, l.id);
    OpenOk(l.me, l.id);
    EffectOnSender(l.me, r.end, r.frames, l.peer, l.out, l.inb);
    EffectOnReceiver(l.peer, l.me, r.end, r.frames, l.inb, l.out);
    assert l.out + r.frames == r.frames;
  }

  lemma StepKeeps(l: Link, r: Acted)
    requires Sound(l) && !l.me.status.Absent? && StepOk(l.me, r, l.id) && NoSyn(r.frames)
    ensures Sound(l.(me := r.end, out := l.out + r.frames))
  {
    EffectOnSender(l.me, r.end, r.frames, l.peer, l.out, l.inb);
    EffectOnReceiver(l.peer, l.me, r.end, r.frames, l.inb, l.out);
    SynFirstKept(l, r.end, r.frames);
  }

  lemma SendKeeps(l: Link, b: seq<byte>)
    requires Sound(l) && CanAct(l.me, SendChunk(b))
    ensures Sound(ActMe(l, SendChunk(b)))
  {
    SendOk(l.me, l.id, b);
    StepKeeps(l, SendEnd(l.me, l.id, b));
  }

  lemma ReadKeeps(l: Link, limit: nat)
    requires Sound(l) && CanAct(l.me, ReadSome(limit))
    ensures Sound(ActMe(l, ReadSome(limit)))
  {
    ReadOk(l.me, l.id, limit);
    StepKeeps(l, ReadEndOf(l.me, limit));
  }

  lemma UpdateKeeps(l: Link)
    requires Sound(l) && CanAct(l.me, UpdateWindow)
    ensures Sound(ActMe(l, UpdateWindow))
  {
    UpdateOk(l.me, l.id);
    StepKeeps(l, UpdateEnd(l.me, l.id));
  }

  lemma CloseKeeps(l: Link)
    requires Sound(l) && CanAct(l.me, Close)
    ensures Sound(ActMe(l, Close))
  {
    CloseOk(l.me, l.id);
    StepKeeps(l, CloseEnd(l.me));
  }

  lemma FinKeeps(l: Link)
    requires Sound(l) && CanAct(l.me, SendFin)
    ensures Sound(ActMe(l, SendFin))
  {
    FinOk(l.me, l.id);
    StepKeeps(l, FinEnd(l.me, l.id));
  }

  lemma LoadOk(e: End, id: uint32)
    requires EndOk(e) && CanAct(e, LoadWindow)
    ensures StepOk(e, Perform(e, id, LoadWindow), id)
  {
  }

  lemma FinishOk(e: End, id: uint32)
    requires EndOk(e) && CanAct(e, FinishWrite)
    ensures StepOk(e, Perform(e, id, FinishWrite), id)
  {
  }

  lemma WriterOk(e: End, id: uint32, act: Act)
    requires EndOk(e) && CanAct(e, act) && (act.CheckWrite? || act.LoadWindow? || act.FinishWrite?)
    ensures StepOk(e, Perform(e, id, act), id) && Perform(e, id, act).frames == []
  {
    if act.LoadWindow? {
      LoadOk(e, id);
    } else if act.FinishWrite? {
      FinishOk(e, id);
    }
  }

  lemma WriterKeeps(l: Link, act: Act)
    requires Sound(l) && CanAct(l.me, act) && (act.CheckWrite? || act.LoadWindow? || act.FinishWrite?)
    ensures Sound(ActMe(l, act))
  {
    WriterOk(l.me, l.id, act);
    var r := Perform(l.me, l.id, act);
    AbsentOnlyOpens(l.me, act);
    StepKeeps(l, r);
  }

  lemma AbsentOnlyOpens(e: End, act: Act)
    requires EndOk(e) && CanAct(e, act) && !act.Open?
    ensures !e.status.Absent?
  {
  }

  lemma ActKeepsSound(l: Link, act: Act)
    requires Sound(l) && CanAct(l.me, act)
    ensures Sound(ActMe(l, act))
  {
    match act
    case Open => OpenKeeps(l);
    case SendChunk(b) => SendKeeps(l, b);
    case ReadSome(n) => ReadKeeps(l, n);
    case UpdateWindow => UpdateKeeps(l);
    case Close => CloseKeeps(l);
    case SendFin => FinKeeps(l);
    case _ => WriterKeeps(l, act);
  }

  // ---------------------------------------------------------------- receiving

  /** What processing frame `f` changes at the end that received it. */
  ghost predicate Taken(e: End, e': End, f: Frame) {
    && e'.opener == e.opener && e'.max == e.max && !e'.status.Absent?
    && e'.written == e.written && e'.writer == e.writer && e'.closing == e.closing && e'.closed == e.closed && e'.late == e.late
    && Arrived(e') == Arrived(e) + (if e.status.Gone? then [] else PayloadOf(f))
    && (e'.finSeen <==> e.finSeen || (!e.status.Gone? && FinOf(f) > 0))
    && e.missed <= e'.missed <= e.missed + CreditOf(f)
    && (!e'.status.Gone? ==> e'.missed == e.missed)
    && e'.s.sendWindow == Wrap(e.s.sendWindow + CreditOf(f) - (e'.missed - e.missed))
    && (e'.status.Live? ==>
          && !e.status.Gone?
          && e'.s.recvWindow == e.s.recvWindow - |PayloadOf(f)|
          && Bit(e'.finSeen) == Bit(e.finSeen) + FinOf(f))
  }

  lemma DispatchDataOk(e: End, f: Frame, id: uint32)
    requires EndOk(e) && e.status.Live? && FrameOk(f, id) && !IsSyn(f) && IsData(f)
    requires |PayloadOf(f)| <= e.s.recvWindow && FinOf(f) + Bit(e.finSeen) <= 1
    ensures Dispatch(e, f).Handled?
    ensures EndOk(Dispatch(e, f).end) && Taken(e, Dispatch(e, f).end, f)
  {
    Joined(e.read, e.s.recvBuf, f.body);
  }

  lemma DispatchUpdateOk(e: End, f: Frame, id: uint32)
    requires EndOk(e) && e.status.Live? && FrameOk(f, id) && !IsSyn(f) && !IsData(f)
    requires FinOf(f) + Bit(e.finSeen) <= 1
    ensures Dispatch(e, f).Handled?
    ensures EndOk(Dispatch(e, f).end) && Taken(e, Dispatch(e, f).end, f)
  {
  }

  /** No conforming peer can make a registered stream report an error: the receive window is
      never exceeded and a FIN is never unexpected. */
  lemma DispatchOk(e: End, f: Frame, id: uint32)
    requires EndOk(e) && e.status.Live? && FrameOk(f, id) && !IsSyn(f)
    requires |PayloadOf(f)| <= e.s.recvWindow
    requires FinOf(f) + Bit(e.finSeen) <= 1
    ensures Dispatch(e, f).Handled?
    ensures EndOk(Dispatch(e, f).end) && Taken(e, Dispatch(e, f).end, f)
  {
    if IsData(f) {
      DispatchDataOk(e, f, id);
    } else {
      DispatchUpdateOk(e, f, id);
    }
  }

  lemma DropDataOk(e: End, f: Frame, id: uint32)
    requires EndOk(e) && e.status.Gone? && FrameOk(f, id) && IsData(f)
    ensures Dispatch(e, f) == Handled(e, []) && Taken(e, e, f)
  {
    WrapSmall(e.s.sendWindow);
  }

  lemma DropControlOk(e: End, f: Frame, id: uint32)
    requires EndOk(e) && e.status.Gone? && FrameOk(f, id) && !IsData(f)
    ensures var e' := e.(missed := e.missed + f.header.length);
            Dispatch(e, f) == Handled(e', []) && EndOk(e') && Taken(e, e', f)
  {
    WrapSmall(e.s.sendWindow);
  }

  lemma DropOk(e: End, f: Frame, id: uint32)
    requires EndOk(e) && e.status.Gone? && FrameOk(f, id)
    ensures Dispatch(e, f).Handled? && EndOk(Dispatch(e, f).end) && Taken(e, Dispatch(e, f).end, f)
  {
    if IsData(f) {
      DropDataOk(e, f, id);
    } else {
      DropControlOk(e, f, id);
    }
  }

  /** Frames that carry nothing. */
  ghost predicate Weightless(fs: seq<Frame>) {
    |fs| <= 1 && Bytes(fs) == [] && Credit(fs) == 0 && Fins(fs) == 0
  }

  lemma RefusedOk(e: End, id: uint32, f: Frame)
    requires EndOk(e) && e.status.Absent? && !e.opener && FrameOk(f, id) && IsSyn(f)
    ensures var h := Handle(e, id, f, false);
            && h.Handled? && EndOk(h.end) && Taken(e, h.end, f)
            && QueueOk(h.frames, id) && NoSyn(h.frames) && Weightless(h.frames)
  {
    QueueOne(Control(FLAG_RST, id, 0));
  }

  lemma AcceptedOk(e: End, id: uint32, f: Frame)
    requires EndOk(e) && e.status.Absent? && !e.opener && FrameOk(f, id) && IsSyn(f)
    ensures var h := Handle(e, id, f, true);
            h.Handled? && EndOk(h.end) && Taken(e, h.end, f) && h.frames == []
  {
  }

  lemma SynOk(e: End, id: uint32, f: Frame, accept: bool)
    requires EndOk(e) && e.status.Absent? && !e.opener && FrameOk(f, id) && IsSyn(f)
    ensures var h := Handle(e, id, f, accept);
            && h.Handled? && EndOk(h.end) && Taken(e, h.end, f)
            && QueueOk(h.frames, id) && NoSyn(h.frames) && Weightless(h.frames)
  {
    if accept {
      AcceptedOk(e, id, f);
    } else {
      RefusedOk(e, id, f);
    }
  }

  lemma TakenAsSender(e: End, e': End, f: Frame, r: End, q: seq<Frame>, c: seq<Frame>)
    requires c != [] && c[0] == f && Taken(e, e', f)
    requires Direction(e, r, q, c)
    ensures Direction(e', r, q, c[1..])
  {
    if !r.status.Gone? {
      var free := Available(r, q, c) - e.missed;
      var free' := Available(r, q, c[1..]) - e'.missed;
      assert free' == free + CreditOf(f) - (e'.missed - e.missed);
      WrapAdd(free + Pending(e), free' - free);
    }
  }

  lemma TakenAsReceiver(s: End, e: End, e': End, f: Frame, q: seq<Frame>, c: seq<Frame>)
    requires q != [] && q[0] == f && Taken(e, e', f) && (FinOf(f) > 0 ==> PayloadOf(f) == [])
    requires Direction(s, e, q, c)
    ensures Direction(s, e', q[1..], c)
  {
    TakenOnEof(s, e, e', f, q);
    if e'.status.Live? {
      TakenBytes(s, e, e', f, q);
      assert Available(e', q[1..], c) == Available(e, q, c);
    }
  }

  lemma TakenOnEof(s: End, e: End, e': End, f: Frame, q: seq<Frame>)
    requires q != [] && q[0] == f && Taken(e, e', f) && (FinOf(f) > 0 ==> PayloadOf(f) == [])
    requires (e.status.Gone? || Transparent(s, e, q)) && Arrived(e) <= s.written && EofComplete(s, e, q)
    ensures EofComplete(s, e', q[1..]) && Arrived(e') <= s.written
  {
    if !e.status.Gone? {
      TakenBytes(s, e, e', f, q);
    }
    if !s.late && FinOf(f) > 0 {
      NoBytesNoneLate(q[1..]);
    }
  }

  lemma TakenBytes(s: End, e: End, e': End, f: Frame, q: seq<Frame>)
    requires q != [] && q[0] == f && Arrived(e') == Arrived(e) + PayloadOf(f)
    requires Transparent(s, e, q)
    ensures Transparent(s, e', q[1..])
  {
    Joined(Arrived(e), PayloadOf(f), Bytes(q[1..]));
  }

  lemma EmptyFramesKeep(s: End, r: End, q: seq<Frame>, c: seq<Frame>, fs: seq<Frame>)
    requires Weightless(fs) && Direction(s, r, q, c)
    ensures Direction(s, r, q + fs, c)
  {
    AppendFew(q, fs);
    assert Bytes(q + fs) == Bytes(q);
    if !s.late {
      FinLastAppend(q, fs);
    }
  }

  lemma EmptyFramesBack(s: End, r: End, q: seq<Frame>, c: seq<Frame>, fs: seq<Frame>)
    requires Weightless(fs) && Direction(s, r, q, c)
    ensures Direction(s, r, q, c + fs)
  {
    AppendFew(c, fs);
  }

  lemma FinCarriesNothing(f: Frame, id: uint32)
    requires FrameOk(f, id)
    ensures FinOf(f) > 0 ==> PayloadOf(f) == []
  {
  }

  lemma HandleOk(l: Link, accept: bool)
    requires Sound(l) && l.inb != []
    ensures var h := Handle(l.me, l.id, l.inb[0], accept);
            && h.Handled? && EndOk(h.end) && Taken(l.me, h.end, l.inb[0])
            && QueueOk(h.frames, l.id) && NoSyn(h.frames) && Weightless(h.frames)
  {
    var f := l.inb[0];
    if l.me.status.Absent? {
      SynOk(l.me, l.id, f, accept);
    } else if l.me.status.Gone? {
      DropOk(l.me, f, l.id);
    } else {
      DispatchOk(l.me, f, l.id);
    }
  }

  lemma ReceiveDirections(l: Link, e: End, frames: seq<Frame>)
    requires Sound(l) && l.inb != [] && Taken(l.me, e, l.inb[0]) && Weightless(frames)
    ensures Direction(e, l.peer, l.out + frames, l.inb[1..])
    ensures Direction(l.peer, e, l.inb[1..], l.out + frames)
  {
    FinCarriesNothing(l.inb[0], l.id);
    TakenAsSender(l.me, e, l.inb[0], l.peer, l.out, l.inb);
    TakenAsReceiver(l.peer, l.me, e, l.inb[0], l.inb, l.out);
    EmptyFramesKeep(e, l.peer, l.out, l.inb[1..], frames);
    EmptyFramesBack(l.peer, e, l.inb[1..], l.out, frames);
  }

  lemma ReceiveKeepsSound(l: Link, accept: bool)
    requires Sound(l) && l.inb != []
    ensures ReceiveMe(l, accept).Delivered? && Sound(ReceiveMe(l, accept).link)
  {
    HandleOk(l, accept);
    var h := Handle(l.me, l.id, l.inb[0], accept);
    ReceiveDirections(l, h.end, h.frames);
  }

  // ---------------------------------------------------------------- opening, refusing and resetting

  /** How many of the frames carry the flag. */
  function Marked(q: seq<Frame>, flag: uint16): nat
    requires flag != 0
  {
    if q == [] then 0 else Bit(HasFlag(q[0].header.flags, flag)) + Marked(q[1..], flag)
  }

  lemma {:induction false} MarkedAppend(q: seq<Frame>, fs: seq<Frame>, flag: uint16)
    requires flag != 0 && |fs| <= 1
    ensures Marked(q + fs, flag) == Marked(q, flag) + Marked(fs, flag)
    decreases |q|
  {
    if q == [] {
      assert q + fs == fs;
    } else {
      MarkedAppend(q[1..], fs, flag);
      assert (q + fs)[0] == q[0] && (q + fs)[1..] == q[1..] + fs;
    }
  }

  lemma MarkedOne(f: Frame, flag: uint16)
    requires flag != 0
    ensures Marked([f], flag) == Bit(HasFlag(f.header.flags, flag))
  {
    assert [f][1..] == [];
  }

  /** Its SYN was refused, so the stream was never registered. */
  predicate Refused(e: End) { e.status.Gone? && e.s.phase.Init? }

  /** The opener learns, once, what became of its SYN: an ACK if the stream was accepted and its
      acceptor has sent something, an RST if it was refused, and neither otherwise. */
  ghost predicate Handshake(o: End, a: End, q: seq<Frame>, c: seq<Frame>) {
    && o.opener && !a.opener && !Refused(o)
    && Marked(q, FLAG_ACK) == 0 && Marked(q, FLAG_RST) == 0 && !a.rstSeen
    && (o.acked ==> a.acked) && (o.rstSeen ==> Refused(a))
    && (!o.status.Gone? ==>
          Marked(c, FLAG_ACK) + Bit(o.acked) == Bit(a.acked) && Marked(c, FLAG_RST) == Bit(Refused(a)))
  }

  ghost predicate Shaken(l: Link) {
    Handshake(l.me, l.peer, l.out, l.inb) || Handshake(l.peer, l.me, l.inb, l.out)
  }

  /** What a local step tells the peer of the handshake. */
  ghost predicate Signals(e: End, e': End, fs: seq<Frame>) {
    && |fs| <= 1 && e'.opener == e.opener && e'.rstSeen == e.rstSeen && Marked(fs, FLAG_RST) == 0
    && (Refused(e') <==> Refused(e)) && (e.status.Gone? ==> e'.status.Gone?)
    && (if e.opener then Marked(fs, FLAG_ACK) == 0 && e'.acked == e.acked
        else Marked(fs, FLAG_ACK) + Bit(e.acked) == Bit(e'.acked))
  }

  lemma MarkedFew(fs: seq<Frame>, flag: uint16)
    requires flag != 0 && |fs| <= 1
    ensures Marked(fs, flag) == Bit(fs != [] && HasFlag(fs[0].header.flags, flag))
  {
    if fs != [] {
      MarkedOne(fs[0], flag);
      assert fs == [fs[0]];
    }
  }

  lemma FramesSignal(e: End, r: Acted)
    requires |r.frames| <= 1 && r.end.opener == e.opener && r.end.rstSeen == e.rstSeen
    requires (Refused(r.end) <==> Refused(e)) && (e.status.Gone? ==> r.end.status.Gone?)
    requires r.frames != [] ==> !HasFlag(r.frames[0].header.flags, FLAG_RST)
    requires Acks(r.frames) ==> !e.opener && !e.acked
    requires r.end.acked <==> e.acked || Acks(r.frames)
    ensures Signals(e, r.end, r.frames)
  {
    MarkedFew(r.frames, FLAG_ACK);
    MarkedFew(r.frames, FLAG_RST);
  }

  lemma OpenSignals(e: End, id: uint32)
    requires EndOk(e) && CanAct(e, Open)
    ensures Signals(e, OpenEnd(e, id).end, OpenEnd(e, id).frames)
  {
    FramesSignal(e, OpenEnd(e, id));
  }

  lemma SendSignals(e: End, id: uint32, b: seq<byte>)
    requires EndOk(e) && e.writer.Ready?
    ensures Signals(e, SendEnd(e, id, b).end, SendEnd(e, id, b).frames)
  {
    FramesSignal(e, SendEnd(e, id, b));
  }

  lemma UpdateSignals(e: End, id: uint32)
    requires EndOk(e) && CanAct(e, UpdateWindow)
    ensures Signals(e, UpdateEnd(e, id).end, UpdateEnd(e, id).frames)
  {
    FramesSignal(e, UpdateEnd(e, id));
  }

  lemma FinSignals(e: End, id: uint32)
    requires EndOk(e) && CanAct(e, SendFin)
    ensures Signals(e, FinEnd(e, id).end, FinEnd(e, id).frames)
  {
    FramesSignal(e, FinEnd(e, id));
  }

  lemma CloseSignals(e: End)
    requires EndOk(e) && CanAct(e, Close)
    ensures Signals(e, CloseEnd(e).end, CloseEnd(e).frames)
  {
  }

  lemma QuietSignals(e: End, id: uint32, act: Act)
    requires EndOk(e) && CanAct(e, act) && (act.CheckWrite? || act.LoadWindow? || act.FinishWrite? || act.ReadSome?)
    ensures Signals(e, Perform(e, id, act).end, Perform(e, id, act).frames)
  {
  }

  lemma ActSignals(e: End, id: uint32, act: Act)
    requires EndOk(e) && CanAct(e, act)
    ensures Signals(e, Perform(e, id, act).end, Perform(e, id, act).frames)
  {
    match act
    case Open => OpenSignals(e, id);
    case SendChunk(b) => SendSignals(e, id, b);
    case UpdateWindow => UpdateSignals(e, id);
    case SendFin => FinSignals(e, id);
    case Close => CloseSignals(e);
    case _ => QuietSignals(e, id, act);
  }

  lemma SignalsShake(l: Link, e: End, fs: seq<Frame>)
    requires Shaken(l) && Signals(l.me, e, fs)
    ensures Shaken(l.(me := e, out := l.out + fs))
  {
    MarkedAppend(l.out, fs, FLAG_ACK);
    MarkedAppend(l.out, fs, FLAG_RST);
  }

  /** What a received frame tells of the handshake, and what is answered. */
  ghost predicate Told(e: End, e': End, f: Frame, fs: seq<Frame>) {
    && |fs| <= 1 && e'.opener == e.opener && Marked(fs, FLAG_ACK) == 0
    && (e.status.Gone? ==> e'.status.Gone? && e'.acked == e.acked && e'.rstSeen == e.rstSeen)
    && (e'.acked <==> e.acked || (e.opener && !e.status.Gone? && HasFlag(f.header.flags, FLAG_ACK)))
    && (e'.rstSeen <==> e.rstSeen || (!e.status.Gone? && HasFlag(f.header.flags, FLAG_RST)))
    && (if e.opener then fs == [] && (e'.rstSeen ==> e'.status.Gone?) && (Refused(e') <==> Refused(e))
        else Marked(fs, FLAG_RST) + Bit(Refused(e)) == Bit(Refused(e')))
  }

  lemma DispatchTold(e: End, f: Frame, id: uint32)
    requires EndOk(e) && !e.status.Absent? && FrameOk(f, id) && Dispatch(e, f).Handled? && EndOk(Dispatch(e, f).end)
    ensures Told(e, Dispatch(e, f).end, f, [])
  {
  }

  lemma SynTold(e: End, f: Frame, id: uint32, accept: bool)
    requires EndOk(e) && e.status.Absent? && !e.opener && FrameOk(f, id) && IsSyn(f) && Handle(e, id, f, accept).Handled?
    ensures Told(e, Handle(e, id, f, accept).end, f, Handle(e, id, f, accept).frames)
  {
    MarkedOne(Control(FLAG_RST, id, 0), FLAG_RST);
    MarkedOne(Control(FLAG_RST, id, 0), FLAG_ACK);
  }

  lemma NoLateSyn(l: Link)
    requires Sound(l) && !l.me.status.Absent? && l.inb != []
    ensures !IsSyn(l.inb[0])
  {
    assert l.inb[0] in l.inb;
  }

  lemma HandleTold(l: Link, accept: bool)
    requires Sound(l) && l.inb != [] && Handle(l.me, l.id, l.inb[0], accept).Handled?
    requires EndOk(Handle(l.me, l.id, l.inb[0], accept).end)
    ensures Told(l.me, Handle(l.me, l.id, l.inb[0], accept).end, l.inb[0], Handle(l.me, l.id, l.inb[0], accept).frames)
  {
    if l.me.status.Absent? {
      SynTold(l.me, l.inb[0], l.id, accept);
    } else {
      NoLateSyn(l);
      DispatchTold(l.me, l.inb[0], l.id);
    }
  }

  lemma ToldShakes(l: Link, e: End, fs: seq<Frame>)
    requires Shaken(l) && l.inb != [] && Told(l.me, e, l.inb[0], fs)
    ensures Shaken(l.(me := e, inb := l.inb[1..], out := l.out + fs))
  {
    MarkedAppend(l.out, fs, FLAG_ACK);
    MarkedAppend(l.out, fs, FLAG_RST);
  }

  // ---------------------------------------------------------------- every step

  ghost predicate Inv(l: Link) { Sound(l) && Shaken(l) }

  lemma InvFlips(l: Link)
    ensures Inv(Flip(l)) <==> Inv(l)
  {
    SoundFlips(l);
  }

  lemma InvInitially(id: uint32, myMax: uint32, peerMax: uint32, iOpen: bool)
    requires INITIAL_WINDOW <= myMax && INITIAL_WINDOW <= peerMax
    ensures Inv(Link(id, FreshEnd(iOpen, myMax), FreshEnd(!iOpen, peerMax), [], []))
  {
    SoundInitially(id, myMax, peerMax, iOpen);
  }

  /** Every local step of either end keeps the invariant. */
  lemma ActKeeps(l: Link, act: Act)
    requires Inv(l) && CanAct(l.me, act)
    ensures Inv(ActMe(l, act))
  {
    ActKeepsSound(l, act);
    ActSignals(l.me, l.id, act);
    SignalsShake(l, Perform(l.me, l.id, act).end, Perform(l.me, l.id, act).frames);
  }

  /** Receiving never breaks the session and keeps the invariant, whatever is refused. */
  lemma ReceiveKeeps(l: Link, accept: bool)
    requires Inv(l) && l.inb != []
    ensures ReceiveMe(l, accept).Delivered? && Inv(ReceiveMe(l, accept).link)
  {
    ReceiveKeepsSound(l, accept);
    HandleTold(l, accept);
    var h := Handle(l.me, l.id, l.inb[0], accept);
    ToldShakes(l, h.end, h.frames);
  }

  // ---------------------------------------------------------------- what the invariant means

  lemma WindowOfSum(window: uint32, free: nat, pending: nat, peer: uint32, transit: int)
    requires window == Wrap(free + pending) && free + transit == peer
    requires pending == 0 ==> free < MODULUS
    ensures Wrap(window + transit - pending) == peer
    ensures pending == 0 ==> window + transit == peer
  {
    WrapAdd(free + pending, transit - pending);
    assert free + pending + (transit - pending) == peer;
  }

  lemma BalanceOf(s: End, r: End, q: seq<Frame>, c: seq<Frame>)
    requires CreditConserved(s, r, q, c) && s.missed == 0
    ensures var total := s.s.sendWindow + |Bytes(q)| + Credit(c) - Pending(s);
            && Wrap(total) == r.s.recvWindow
            && (Pending(s) == 0 ==> total == r.s.recvWindow)
    ensures |Bytes(q)| + Credit(c) <= r.s.recvWindow
  {
    var free := Available(r, q, c);
    WindowOfSum(s.s.sendWindow, free, Pending(s), r.s.recvWindow, |Bytes(q)| + Credit(c));
  }

  /** With no write half done, the sender's window, the bytes on their way and the credit on
      its way back add up to the receiver's window, which with the buffer stays below the
      receiver's maximum; during a write the same holds modulo 2^32. */
  lemma WindowsBalance(l: Link)
    requires Inv(l) && !l.me.status.Gone? && !l.peer.status.Gone?
    ensures var total := l.me.s.sendWindow + |Bytes(l.out)| + Credit(l.inb) - Pending(l.me);
            && Wrap(total) == l.peer.s.recvWindow
            && (!l.me.writer.Sent? ==> total == l.peer.s.recvWindow)
    ensures l.peer.s.recvWindow + |l.peer.s.recvBuf| <= l.peer.max
    ensures |Bytes(l.out)| + Credit(l.inb) <= l.peer.s.recvWindow
  {
    BalanceOf(l.me, l.peer, l.out, l.inb);
  }

  /** A reader that emptied its buffer and has sent the update it owes leaves the writer more
      than half of the maximum window once nothing is in transit, so a blocked writer always
      gets to proceed. */
  lemma NoCreditDeadlock(l: Link)
    requires Inv(l) && !l.me.status.Gone? && l.peer.status.Live?
    requires l.peer.s.recvBuf == [] && !l.peer.owes
    requires Bytes(l.out) == [] && Credit(l.inb) == 0 && !l.me.writer.Sent?
    ensures 2 * l.me.s.sendWindow > l.peer.max
  {
    WindowsBalance(l);
  }

  /** What the writer handed over is what the reader got, then what is buffered, then what is
      still on its way. */
  lemma StreamIsTransparent(l: Link)
    requires Inv(l)
    ensures !l.peer.status.Gone? ==> l.me.written == Arrived(l.peer) + Bytes(l.out)
    ensures l.peer.read <= Arrived(l.peer) <= l.me.written
    ensures l.peer.finSeen && !l.me.late ==> Arrived(l.peer) == l.me.written
  {
  }

  /** Once both ends have closed and no FIN is left to send or deliver, neither session still
      holds the stream: the close handshake leaks nothing. */
  lemma ClosedStreamIsReleased(l: Link)
    requires Inv(l) && l.me.closed && l.peer.closed
    requires l.me.closing.NoFin? && l.peer.closing.NoFin? && Fins(l.out) == 0 && Fins(l.inb) == 0
    ensures !l.me.status.Live? && !l.peer.status.Live?
  {
    InvFlips(l);
  }

  /** A stream can be written to exactly while it is neither closed here nor reset, registered or
      not: that the peer closed does not matter. */
  lemma WritableExactly(l: Link)
    requires Inv(l) && l.me.writer.Idle? && !l.me.status.Absent? && !Refused(l.me)
    ensures CanAct(l.me, CheckWrite) <==> !l.me.closed && !l.me.rstSeen
  {
  }

  lemma ChunkCarriesBytes(l: Link, b: seq<byte>)
    requires Inv(l) && CanAct(l.me, SendChunk(b)) && |b| % MODULUS != 0
    ensures |ActMe(l, SendChunk(b)).me.written| > |l.me.written|
  {
    ChunkProgress(l.me.writer.window, b);
    ChunkLeavesWholeMultiples(l.me.writer.window, b);
  }

  /** A writer that passed its checks goes on exactly under an open window; so no data frame is empty
      unless its length was cut to nothing. */
  lemma SendsUnderOpenWindow(l: Link, b: seq<byte>)
    requires Inv(l)
    ensures CanAct(l.me, LoadWindow) ==> (ActMe(l, LoadWindow).me.writer.Ready? <==> l.me.s.sendWindow > 0)
    ensures CanAct(l.me, SendChunk(b)) && |b| % MODULUS != 0 ==> |ActMe(l, SendChunk(b)).me.written| > |l.me.written|
  {
    if CanAct(l.me, SendChunk(b)) && |b| % MODULUS != 0 {
      ChunkCarriesBytes(l, b);
    }
  }

  /** Close leaves the stream closed, and a FIN on its way unless it was closed before, or reset. */
  lemma CloseCloses(l: Link)
    requires Inv(l) && CanAct(l.me, Close)
    ensures var e := ActMe(l, Close).me;
            && (e.closed || e.rstSeen)
            && (!l.me.closed && !l.me.rstSeen ==> !e.closing.NoFin?)
  {
  }

  /** A stream whose peer reset it is unregistered and can be neither read nor written; only an
      opener is ever reset, and only if its stream was refused. */
  lemma ResetEnds(l: Link)
    requires Inv(l) && l.me.rstSeen
    ensures l.me.status.Gone? && l.me.s.phase.Reset? && l.me.opener && Refused(l.peer)
    ensures !CanAct(l.me, CheckWrite) && forall limit: nat :: !CanAct(l.me, ReadSome(limit))
  {
  }

  /** The opener of a refused stream was reset, or the RST is on its way to it. */
  lemma RefusalArrives(l: Link)
    requires Inv(l) && Refused(l.peer)
    ensures l.me.rstSeen || (l.me.status.Live? && Marked(l.inb, FLAG_RST) == 1)
  {
  }
}
