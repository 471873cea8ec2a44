/** One yamux stream: what its fields mean and what every operation does to them.  Frames it
    hands to the session's send channel are collected, in order, in `sent`. */
module YamuxStream {
  import opened YamuxFraming

  const MODULUS := 0x1_0000_0000
  const INITIAL_WINDOW: uint32 := 0x4_0000

  /** uint32 arithmetic. */
  function Wrap(x: int): uint32 { x % MODULUS }

  datatype Phase =
    | Init | SYNSent | SYNReceived | Established | LocalClose | RemoteClose | Closed | Reset

  /** The protocol fields of a stream, as a value. */
  datatype State = State(phase: Phase, sendWindow: uint32, recvWindow: uint32, recvBuf: seq<byte>)

  function NewState(phase: Phase): State {
    State(phase, INITIAL_WINDOW, INITIAL_WINDOW, [])
  }

  // ---------------------------------------------------------------- specification

  /** The flags the next frame must carry, and the phase once it does. */
  function SendFlags(p: Phase): (uint16, Phase) {
    match p
    case Init => (FLAG_SYN, SYNSent)
    case SYNReceived => (FLAG_ACK, Established)
    case _ => (0, p)
  }

  function Control(flags: uint16, id: uint32, delta: uint32): Frame {
    Frame(Header(TYPE_WINDOW_UPDATE, flags, id, delta), [])
  }

  function Data(flags: uint16, id: uint32, body: seq<byte>): Frame
    requires |body| < MODULUS
  {
    Frame(Header(TYPE_DATA, flags, id, |body|), body)
  }

  /** `(max - bufLen) - recvWindow` in uint32. */
  function WindowDelta(s: State, max: uint32): uint32 {
    Wrap(Wrap(max - Wrap(|s.recvBuf|)) - s.recvWindow)
  }

  datatype Sending = Sending(state: State, frames: seq<Frame>)

  function WindowUpdate(s: State, id: uint32, max: uint32): Sending {
    var delta := WindowDelta(s, max);
    var (flags, phase) := SendFlags(s.phase);
    if delta < max / 2 && flags == 0 then Sending(s, [])
    else Sending(s.(phase := phase, recvWindow := Wrap(s.recvWindow + delta)), [Control(flags, id, delta)])
  }

  lemma WrapSmall(x: int)
    requires 0 <= x < MODULUS
    ensures Wrap(x) == x
  {
  }

  /** Window plus buffer never exceeding the maximum is exactly what keeps the uint32
      subtraction from wrapping. */
  lemma DeltaExact(s: State, max: uint32)
    requires |s.recvBuf| < MODULUS
    ensures s.recvWindow + |s.recvBuf| <= max <==> WindowDelta(s, max) + s.recvWindow + |s.recvBuf| == max
    ensures s.recvWindow + |s.recvBuf| <= max ==> Wrap(s.recvWindow + WindowDelta(s, max)) == max - |s.recvBuf|
  {
    WrapSmall(|s.recvBuf|);
    if s.recvWindow + |s.recvBuf| <= max {
      WrapSmall(max - |s.recvBuf|);
      WrapSmall(max - |s.recvBuf| - s.recvWindow);
    }
  }

  /** An update goes out exactly if a flag is due or half of the maximum window is free and not
      granted, and it grants all that is free. */
  lemma UpdateIsWorthwhile(s: State, id: uint32, max: uint32)
    requires s.recvWindow + |s.recvBuf| <= max
    ensures var free, u := max - |s.recvBuf| - s.recvWindow, WindowUpdate(s, id, max);
            && (u.frames == [] <==> free < max / 2 && !s.phase.Init? && !s.phase.SYNReceived?)
            && (u.frames == [] ==> u.state == s)
            && (u.frames != [] ==>
                  && |u.frames| == 1 && u.frames[0].header.msgType == TYPE_WINDOW_UPDATE && u.frames[0].body == []
                  && u.frames[0].header.streamId == id && u.frames[0].header.length == free
                  && u.state.recvWindow == s.recvWindow + free && u.state.recvBuf == s.recvBuf && u.state.sendWindow == s.sendWindow)
  {
    DeltaExact(s, max);
  }

  datatype Flagged = Flagged(phase: Phase, unregister: bool) | UnexpectedFlag

  function ProcessFin(p: Phase): Flagged {
    match p
    case SYNSent | SYNReceived | Established => Flagged(RemoteClose, false)
    case LocalClose => Flagged(Closed, true)
    case _ => UnexpectedFlag
  }

  function ProcessFlags(p: Phase, flags: uint16): Flagged {
    var p1 := if HasFlag(flags, FLAG_ACK) && p == SYNSent then Established else p;
    var r := if HasFlag(flags, FLAG_FIN) then ProcessFin(p1) else Flagged(p1, false);
    if r.Flagged? && HasFlag(flags, FLAG_RST) then Flagged(Reset, true) else r
  }

  datatype Receipt = Received(state: State, unregister: bool) | ProtocolError

  /** A data or window update frame for a registered stream. */
  function Receive(s: State, f: Frame): Receipt {
    match ProcessFlags(s.phase, f.header.flags)
    case UnexpectedFlag => ProtocolError
    case Flagged(phase, unregister) =>
      var t := s.(phase := phase);
      if !IsData(f) then Received(t.(sendWindow := Wrap(t.sendWindow + f.header.length)), unregister)
      else if f.header.length == 0 then Received(t, unregister)
      else if f.header.length > t.recvWindow then ProtocolError
      else Received(t.(recvBuf := t.recvBuf + f.body, recvWindow := Wrap(t.recvWindow - |f.body|)), unregister)
  }

  /** What Close leads to: nothing, a FIN, or a FIN followed by unregistering the stream. */
  datatype Closing = NoFin | HalfClose | FullClose

  function CloseFrom(p: Phase): (Phase, Closing)
    requires p != Init
  {
    match p
    case SYNSent | SYNReceived | Established => (LocalClose, HalfClose)
    case RemoteClose => (Closed, FullClose)
    case _ => (p, NoFin)
  }

  predicate MayWrite(p: Phase) { !p.LocalClose? && !p.Closed? && !p.Reset? }

  /** How much of `b` one call of `write` puts in a frame: the length is cut to 32 bits first. */
  function ChunkSize(window: uint32, b: seq<byte>): uint32 {
    Min(window, Wrap(|b|))
  }

  function Sum(ns: seq<uint32>): nat {
    if ns == [] then 0 else ns[0] as int + Sum(ns[1..])
  }

  lemma {:induction false} SumAppend(ns: seq<uint32>, n: uint32)
    ensures Sum(ns + [n]) == Sum(ns) + n
  {
    if ns != [] {
      SumAppend(ns[1..], n);
      assert (ns + [n])[1..] == ns[1..] + [n];
    }
  }

  /** The window after some credit arrived and `total` bytes were deducted, in any order. */
  function Balance(window: uint32, before: seq<uint32>, during: seq<uint32>, total: nat): uint32 {
    Wrap(window + Sum(before) + Sum(during) - total)
  }

  lemma BalanceStep(window: uint32, before: seq<uint32>, during: seq<uint32>, total: nat, i: nat, n: nat)
    requires i < |before| == |during|
    ensures Balance(window, before[..i + 1], during[..i + 1], total + n) ==
            Wrap(Wrap(Balance(window, before[..i], during[..i], total) + before[i]) + during[i] - n)
  {
    assert before[..i + 1] == before[..i] + [before[i]] && during[..i + 1] == during[..i] + [during[i]];
    SumAppend(before[..i], before[i]);
    SumAppend(during[..i], during[i]);
    var x := window + Sum(before[..i]) + Sum(during[..i]) - total;
    WrapAdd(x, before[i] as int);
    WrapAdd(x + before[i], during[i] - n);
  }

  lemma WrapAdd(x: int, y: int)
    ensures Wrap(Wrap(x) + y) == Wrap(x + y)
  {
    assert x == x / MODULUS * MODULUS + Wrap(x);
    var q := x / MODULUS;
    assert (Wrap(x) + y + q * MODULUS) % MODULUS == (Wrap(x) + y) % MODULUS;
  }

  lemma {:induction false} PayloadConcat(fs: seq<Frame>, gs: seq<Frame>, id: uint32)
    ensures Payload(fs + gs, id) == Payload(fs, id) + Payload(gs, id)
  {
    if fs == [] {
      assert fs + gs == gs;
    } else {
      var body := if DataFor(fs[0], id) then fs[0].body else [];
      PayloadConcat(fs[1..], gs, id);
      assert (fs + gs)[0] == fs[0] && (fs + gs)[1..] == fs[1..] + gs;
      assert body + (Payload(fs[1..], id) + Payload(gs, id)) == body + Payload(fs[1..], id) + Payload(gs, id);
    }
  }

  /** The frames are well formed, belong to stream `id` and carry exactly `bytes`. */
  ghost predicate Carries(fs: seq<Frame>, id: uint32, bytes: seq<byte>) {
    && (forall f :: f in fs ==> WellFormed(f) && DataFor(f, id))
    && Payload(fs, id) == bytes
  }

  lemma CarriesOne(flags: uint16, id: uint32, chunk: seq<byte>)
    requires |chunk| < MODULUS
    ensures Carries([Data(flags, id, chunk)], id, chunk)
  {
    PayloadPrepend(Data(flags, id, chunk), [], id);
  }

  /** `later` is `earlier` and then frames carrying exactly `bytes`. */
  ghost predicate Extends(earlier: seq<Frame>, later: seq<Frame>, id: uint32, bytes: seq<byte>) {
    earlier <= later && Carries(later[|earlier|..], id, bytes)
  }

  lemma ExtendsOne(fs: seq<Frame>, flags: uint16, id: uint32, body: seq<byte>)
    requires |body| < MODULUS
    ensures Extends(fs, fs + [Data(flags, id, body)], id, body)
  {
    CarriesOne(flags, id, body);
    assert (fs + [Data(flags, id, body)])[|fs|..] == [Data(flags, id, body)];
  }

  lemma ExtendsNothing(fs: seq<Frame>, id: uint32)
    ensures Extends(fs, fs, id, [])
  {
  }

  lemma TailOfTails(fs: seq<Frame>, gs: seq<Frame>, hs: seq<Frame>)
    requires fs <= gs <= hs
    ensures hs[|fs|..] == gs[|fs|..] + hs[|gs|..]
  {
    assert hs == gs + hs[|gs|..];
  }

  lemma ExtendsMore(fs: seq<Frame>, gs: seq<Frame>, hs: seq<Frame>, id: uint32, b: seq<byte>, total: nat, n: nat)
    requires total + n <= |b|
    requires Extends(fs, gs, id, b[..total]) && Extends(gs, hs, id, b[total..][..n])
    ensures Extends(fs, hs, id, b[..total + n])
  {
    PayloadConcat(gs[|fs|..], hs[|gs|..], id);
    TailOfTails(fs, gs, hs);
    assert b[..total + n] == b[..total] + b[total..][..n];
  }

  // ---------------------------------------------------------------- the stream object

  datatype WriteEnd = Complete | StreamClosed | ConnectionReset | Timeout

  datatype ReadEnd = ReadBytes(b: seq<byte>) | Eof | ReadReset | WouldBlock

  /** After some attempts: the first `total` bytes are in frames, and the window is what updates
      and deductions leave. */
  ghost predicate Wrote(id: uint32, b: seq<byte>, before: seq<uint32>, during: seq<uint32>, start: seq<Frame>, sent: seq<Frame>,
                        window: uint32, left: uint32, total: nat, attempts: nat) {
    && total <= |b| && attempts <= |before| == |during|
    && Extends(start, sent, id, b[..total])
    && left == Balance(window, before[..attempts], during[..attempts], total)
    && (|b| >= MODULUS ==> |b| - total >= MODULUS)
  }

  lemma WroteMore(id: uint32, b: seq<byte>, before: seq<uint32>, during: seq<uint32>, start: seq<Frame>, soFar: seq<Frame>,
                  sent: seq<Frame>, window: uint32, left: uint32, total: nat, attempts: nat, n: uint32)
    requires Wrote(id, b, before, during, start, soFar, window, left, total, attempts) && attempts < |before|
    requires n <= |b| - total && Extends(soFar, sent, id, b[total..][..n]) && (|b| - total >= MODULUS ==> |b| - total - n >= MODULUS)
    ensures Wrote(id, b, before, during, start, sent, window, Wrap(Wrap(left + before[attempts]) + during[attempts] - n), total + n, attempts + 1)
  {
    BalanceStep(window, before, during, total, attempts, n);
    ExtendsMore(start, soFar, sent, id, b, total, n);
  }

  /** Only the first frame changes the phase, and nothing is sent from a phase that may not write. */
  predicate Progressed(start: Phase, now: Phase, total: nat) {
    (now == start || now == SendFlags(start).1) && (MayWrite(start) || total == 0)
  }

  lemma ProgressedMore(start: Phase, before: Phase, now: Phase, total: nat, n: nat)
    requires Progressed(start, before, total) && MayWrite(before) && (now == before || now == SendFlags(before).1)
    ensures Progressed(start, now, total + n)
  {
  }

  /** What other goroutines do to the phase meanwhile. */
  datatype Event = Quiet | ClosedHere | PeerClosed | PeerReset

  function Disturbed(p: Phase, e: Event): Phase {
    match e
    case Quiet => p
    case ClosedHere => if p == Init then p else CloseFrom(p).0
    case PeerClosed => if ProcessFin(p).Flagged? then ProcessFin(p).phase else p
    case PeerReset => Reset
  }

  /** A close here and a reset end a write, a close by the peer does not. */
  lemma EventsStop(p: Phase)
    ensures p != Init ==> !MayWrite(Disturbed(p, ClosedHere))
    ensures Disturbed(p, PeerReset).Reset? && !MayWrite(Disturbed(p, PeerReset))
    ensures MayWrite(p) ==> MayWrite(Disturbed(p, PeerClosed)) && (p != Init ==> Disturbed(p, PeerClosed).RemoteClose?)
    ensures p.LocalClose? ==> Disturbed(p, PeerClosed).Closed?
  {
  }

  /** Around one attempt: before its check of the phase, and between the check and the send. */
  datatype Events = Events(first: Event, then_: Event)

  predicate AllQuiet(events: seq<Events>) {
    forall i :: 0 <= i < |events| ==> events[i] == Events(Quiet, Quiet)
  }

  class Stream {
    const id: uint32
    const max: uint32
    var phase: Phase
    var sendWindow: uint32
    var recvWindow: uint32
    var recvBuf: seq<byte>
    var sent: seq<Frame>

    function View(): State
      reads this
    {
      State(phase, sendWindow, recvWindow, recvBuf)
    }

    constructor (id: uint32, max: uint32, phase: Phase)
      ensures this.id == id && this.max == max
      ensures View() == NewState(phase) && sent == []
    {
      this.id, this.max, this.phase := id, max, phase;
      sendWindow, recvWindow, recvBuf, sent := INITIAL_WINDOW, INITIAL_WINDOW, [], [];
    }

    method TakeSendFlags() returns (flags: uint16)
      modifies this`phase
      ensures (flags, phase) == SendFlags(old(phase))
      ensures old(phase).Init? ==> flags == FLAG_SYN && phase.SYNSent?
      ensures old(phase).SYNReceived? ==> flags == FLAG_ACK && phase.Established?
      ensures !old(phase).Init? && !old(phase).SYNReceived? ==> flags == 0 && phase == old(phase)
    {
      flags := 0;
      if phase == Init {
        flags, phase := FLAG_SYN, SYNSent;
      } else if phase == SYNReceived {
        flags, phase := FLAG_ACK, Established;
      }
    }

    method SendWindowUpdate()
      modifies this
      ensures var r := WindowUpdate(old(View()), id, max);
              View() == r.state && sent == old(sent) + r.frames
    {
      var delta := Wrap(Wrap(max - Wrap(|recvBuf|)) - recvWindow);
      var flags := TakeSendFlags();
      if delta < max / 2 && flags == 0 {
        return;
      }
      recvWindow := Wrap(recvWindow + delta);
      sent := sent + [Control(flags, id, delta)];
    }

    /** One read that does not wait: it is followed by a window update when bytes were taken. */
    method Read(limit: nat) returns (r: ReadEnd)
      modifies this
      ensures r.ReadBytes? ==>
                && 0 < |old(recvBuf)| && |r.b| == Min(limit, |old(recvBuf)|)
                && old(recvBuf) == r.b + recvBuf
                && var u := WindowUpdate(old(View()).(recvBuf := recvBuf), id, max);
                   View() == u.state && sent == old(sent) + u.frames
      ensures !r.ReadBytes? ==> View() == old(View()) && sent == old(sent)
      ensures r.Eof? <==> recvBuf == [] && (old(phase).RemoteClose? || old(phase).Closed?) && !r.ReadBytes?
      ensures r.ReadReset? <==> old(phase).Reset?
      ensures r.WouldBlock? ==> recvBuf == []
    {
      match phase {
        case RemoteClose =>
          if recvBuf == [] { return Eof; }
        case Closed =>
          if recvBuf == [] { return Eof; }
        case Reset =>
          return ReadReset;
        case _ =>
      }
      if recvBuf == [] {
        return WouldBlock;
      }
      var n := Min(limit, |recvBuf|);
      r := ReadBytes(recvBuf[..n]);
      recvBuf := recvBuf[n..];
      SendWindowUpdate();
    }

    /** One attempt of `write`: `before` arrives while it waits for the window to open; the frame
        goes out first, `during` is what the peer adds meanwhile, and only then the window is
        reduced by what was sent. */
    method WriteChunk(b: seq<byte>, before: uint32, during: uint32) returns (n: uint32)
      modifies this
      ensures n <= |b| && (|b| >= MODULUS ==> |b| - n >= MODULUS)
      ensures n < |b| < MODULUS ==> sendWindow == during
      ensures var window := Wrap(old(sendWindow) + before);
              var (flags, p) := SendFlags(old(phase));
              if window == 0 then n == 0 && phase == old(phase) && sent == old(sent)
              else n == ChunkSize(window, b) && phase == p && sent == old(sent) + [Data(flags, id, b[..n])]
      ensures Extends(old(sent), sent, id, b[..n]) && (phase == old(phase) || phase == SendFlags(old(phase)).1)
      ensures sendWindow == Wrap(Wrap(old(sendWindow) + before) + during - n)
      ensures recvWindow == old(recvWindow) && recvBuf == old(recvBuf)
    {
      n := 0;
      ExtendsNothing(sent, id);
      assert b[..0] == [];
      sendWindow := Wrap(sendWindow + before);
      var window := sendWindow;
      if window != 0 {
        var flags := TakeSendFlags();
        n := ChunkSize(window, b);
        ChunkLeavesWholeMultiples(window, b);
        ExtendsOne(sent, flags, id, b[..n]);
        sent := sent + [Data(flags, id, b[..n])];
      }
      sendWindow := Wrap(sendWindow + during);
      sendWindow := Wrap(sendWindow - n);
      Deducted(window, during, n);
      ChunkShort(window, b);
    }

    /** One turn of `write`: the phase is checked, and a chunk goes out unless it forbids that. */
    method Attempt(b: seq<byte>, before: uint32, during: uint32, events: Events) returns (n: uint32, closed: bool)
      modifies this
      ensures n <= |b| && (|b| >= MODULUS ==> |b| - n >= MODULUS)
      ensures closed <==> !MayWrite(Disturbed(old(phase), events.first))
      ensures closed ==> n == 0 && sent == old(sent) && sendWindow == old(sendWindow) && phase == Disturbed(old(phase), events.first)
      ensures !closed ==> sendWindow == Wrap(Wrap(old(sendWindow) + before) + during - n)
      ensures !closed && n < |b| < MODULUS ==> sendWindow == during
      ensures Extends(old(sent), sent, id, b[..n])
      ensures !closed ==> var p := Disturbed(Disturbed(old(phase), events.first), events.then_); phase == p || phase == SendFlags(p).1
      ensures recvWindow == old(recvWindow) && recvBuf == old(recvBuf)
    {
      phase := Disturbed(phase, events.first);
      closed := !MayWrite(phase);
      if closed {
        ExtendsNothing(sent, id);
        assert b[..0] == [];
        return 0, true;
      }
      phase := Disturbed(phase, events.then_);
      n := WriteChunk(b, before, during);
    }

    /** One turn of the loop in Write. */
    method Turn(b: seq<byte>, before: seq<uint32>, during: seq<uint32>, events: seq<Events>, total: nat, attempts: nat,
                ghost start: seq<Frame>, ghost window: uint32, ghost first: Phase) returns (n: uint32, closed: bool)
      requires attempts < |before| == |during| == |events| && total < |b|
      requires Wrote(id, b, before, during, start, sent, window, sendWindow, total, attempts)
      requires AllQuiet(events) ==> Progressed(first, phase, total)
      modifies this
      ensures closed ==> n == 0 && !MayWrite(phase) && Wrote(id, b, before, during, start, sent, window, sendWindow, total, attempts)
      ensures closed ==> sent == old(sent) && (attempts > 0 ==> sendWindow == old(sendWindow))
      ensures AllQuiet(events) && !MayWrite(old(phase)) ==> closed && phase == old(phase)
      ensures !closed ==> !events[attempts].first.PeerReset?
      ensures !closed && old(phase) != Init ==> phase != Init && !events[attempts].first.ClosedHere?
      ensures !closed ==> n <= |b| - total && Wrote(id, b, before, during, start, sent, window, sendWindow, total + n, attempts + 1)
      ensures !closed && total + n < |b| < MODULUS ==> sendWindow == during[attempts]
      ensures AllQuiet(events) ==> Progressed(first, phase, total + n) && (closed ==> total == 0)
      ensures recvWindow == old(recvWindow) && recvBuf == old(recvBuf)
    {
      ghost var soFar, left, state := sent, sendWindow, phase;
      EventsStop(phase);
      n, closed := Attempt(b[total..], before[attempts], during[attempts], events[attempts]);
      if !closed {
        WroteMore(id, b, before, during, start, soFar, sent, window, left, total, attempts, n);
        if AllQuiet(events) {
          ProgressedMore(first, state, phase, total, n);
        }
      }
    }

    /** Writes `b` chunk by chunk.  Before attempt `i` the peer's updates have added `before[i]` to
        the window, and `during[i]` more arrives between handing a chunk to the sender and
        deducting it; `events[i]` is what closes and resets do around it, and a close here or a reset
        before an attempt ends the write there; the write deadline passes when there is no attempt
        left to wait for.  A short buffer is left unfinished only if all
        credit granted before the last attempt was used up. */
    method Write(b: seq<byte>, before: seq<uint32>, during: seq<uint32>, events: seq<Events>)
      returns (total: nat, attempts: nat, end: WriteEnd)
      requires |before| == |during| == |events|
      modifies this
      ensures total <= |b| && attempts <= |before|
      ensures end.Complete? <==> total == |b|
      ensures end.Timeout? ==> attempts == |before|
      ensures end.Timeout? && attempts > 0 && |b| < MODULUS ==> sendWindow == during[attempts - 1]
      ensures end.StreamClosed? ==> phase.LocalClose? || phase.Closed?
      ensures end.ConnectionReset? ==> phase.Reset?
      ensures |b| >= MODULUS ==> !end.Complete?
      ensures Extends(old(sent), sent, id, b[..total])
      ensures sendWindow == Balance(old(sendWindow), before[..attempts], during[..attempts], total)
      ensures AllQuiet(events) ==> Progressed(old(phase), phase, total) && (end.StreamClosed? || end.ConnectionReset? ==> total == 0)
      ensures forall i :: 0 <= i < attempts ==> !events[i].first.PeerReset?
      ensures old(phase) != Init ==> forall i :: 0 <= i < attempts ==> !events[i].first.ClosedHere?
      ensures AllQuiet(events) && b != [] && old(phase).Reset? ==> end.ConnectionReset? && sent == old(sent)
      ensures AllQuiet(events) && b != [] && (old(phase).LocalClose? || old(phase).Closed?) ==> end.StreamClosed? && sent == old(sent)
      ensures recvWindow == old(recvWindow) && recvBuf == old(recvBuf)
    {
      total, attempts := 0, 0;
      while total < |b|
        invariant Wrote(id, b, before, during, old(sent), sent, old(sendWindow), sendWindow, total, attempts)
        invariant AllQuiet(events) ==> Progressed(old(phase), phase, total)
        invariant attempts > 0 && total < |b| < MODULUS ==> sendWindow == during[attempts - 1]
        invariant AllQuiet(events) && !MayWrite(old(phase)) ==> phase == old(phase) && sent == old(sent)
        invariant forall i :: 0 <= i < attempts ==> !events[i].first.PeerReset?
        invariant old(phase) != Init ==> phase != Init && forall i :: 0 <= i < attempts ==> !events[i].first.ClosedHere?
        invariant recvWindow == old(recvWindow) && recvBuf == old(recvBuf)
        decreases |before| - attempts
      {
        if attempts == |before| {
          return total, attempts, if MayWrite(phase) then Timeout else if phase == Reset then ConnectionReset else StreamClosed;
        }
        var n, closed := Turn(b, before, during, events, total, attempts, old(sent), old(sendWindow), old(phase));
        if closed {
          return total, attempts, if phase == Reset then ConnectionReset else StreamClosed;
        }
        total, attempts := total + n, attempts + 1;
      }
      assert b[..total] == b;
      end := Complete;
    }

    method CloseStream() returns (closing: Closing)
      requires phase != Init
      modifies this`phase
      ensures (phase, closing) == CloseFrom(old(phase))
      ensures old(phase) in [SYNSent, SYNReceived, Established] ==> phase.LocalClose? && closing.HalfClose?
      ensures old(phase).RemoteClose? ==> phase.Closed? && closing.FullClose?
      ensures old(phase) in [LocalClose, Closed, Reset] ==> phase == old(phase) && closing.NoFin?
    {
      closing := NoFin;
      match phase {
        case SYNSent => phase, closing := LocalClose, HalfClose;
        case SYNReceived => phase, closing := LocalClose, HalfClose;
        case Established => phase, closing := LocalClose, HalfClose;
        case RemoteClose => phase, closing := Closed, FullClose;
        case _ =>
      }
    }

    method SendClose()
      modifies this
      ensures var (flags, p) := SendFlags(old(phase));
              View() == old(View()).(phase := p) && sent == old(sent) + [Control(flags + FLAG_FIN, id, 0)]
    {
      var flags := TakeSendFlags();
      sent := sent + [Control(flags + FLAG_FIN, id, 0)];
    }

    method HandleFlags(flags: uint16) returns (ok: bool, unregister: bool)
      modifies this`phase
      ensures var r := ProcessFlags(old(phase), flags);
              ok == r.Flagged? && (ok ==> r == Flagged(phase, unregister))
      ensures ok <==> HasFlag(flags, FLAG_FIN) ==> old(phase) in [SYNSent, SYNReceived, Established, LocalClose]
      ensures ok && HasFlag(flags, FLAG_RST) ==> phase.Reset? && unregister
      ensures ok && !HasFlag(flags, FLAG_RST) && HasFlag(flags, FLAG_FIN) ==>
                if old(phase).LocalClose? then phase.Closed? && unregister else phase.RemoteClose? && !unregister
      ensures ok && !HasFlag(flags, FLAG_RST) && !HasFlag(flags, FLAG_FIN) ==>
                !unregister && phase == if HasFlag(flags, FLAG_ACK) && old(phase).SYNSent? then Established else old(phase)
    {
      ok, unregister := true, false;
      if HasFlag(flags, FLAG_ACK) {
        if phase == SYNSent {
          phase := Established;
        }
      }
      if HasFlag(flags, FLAG_FIN) {
        match phase {
          case SYNSent => phase := RemoteClose;
          case SYNReceived => phase := RemoteClose;
          case Established => phase := RemoteClose;
          case LocalClose => phase, unregister := Closed, true;
          case _ => return false, false;
        }
      }
      if HasFlag(flags, FLAG_RST) {
        phase, unregister := Reset, true;
      }
    }

    method IncrSendWindow(hdr: Header) returns (ok: bool, unregister: bool)
      requires hdr.msgType != TYPE_DATA
      modifies this
      ensures var r := Receive(old(View()), Frame(hdr, []));
              sent == old(sent) && ok == r.Received? && (ok ==> r == Received(View(), unregister))
      ensures sendWindow == if ok then Wrap(old(sendWindow) + hdr.length) else old(sendWindow)
    {
      ok, unregister := HandleFlags(hdr.flags);
      if ok {
        sendWindow := Wrap(sendWindow + hdr.length);
      }
    }

    method ReadData(hdr: Header, body: seq<byte>) returns (ok: bool, unregister: bool)
      requires hdr.msgType == TYPE_DATA
      modifies this
      ensures var r := Receive(old(View()), Frame(hdr, body));
              sent == old(sent) && ok == r.Received? && (ok ==> r == Received(View(), unregister))
      ensures hdr.length > old(recvWindow) ==> !ok
      ensures hdr.length <= old(recvWindow) && !HasFlag(hdr.flags, FLAG_FIN) ==> ok
      ensures ok && hdr.length > 0 ==> recvBuf == old(recvBuf) + body && recvWindow == Wrap(old(recvWindow) - |body|)
      ensures !ok || hdr.length == 0 ==> recvBuf == old(recvBuf) && recvWindow == old(recvWindow)
    {
      ok, unregister := HandleFlags(hdr.flags);
      if !ok || hdr.length == 0 {
        return;
      }
      if hdr.length > recvWindow {
        return false, unregister;
      }
      recvBuf := recvBuf + body;
      recvWindow := Wrap(recvWindow - |body|);
    }
  }

  // ---------------------------------------------------------------- write progress

  lemma Deducted(window: uint32, during: uint32, n: uint32)
    ensures Wrap(Wrap(window + during) - n) == Wrap(window + during - n)
    ensures n == window ==> Wrap(window + during - n) == during
  {
    WrapAdd(window + during, -(n as int));
  }

  /** A chunk that leaves something of a short buffer uses the whole window. */
  lemma ChunkShort(window: uint32, b: seq<byte>)
    ensures |b| < MODULUS && ChunkSize(window, b) < |b| ==> ChunkSize(window, b) == window
  {
  }

  /** One chunk never crosses a multiple of 2^32 bytes still to be written. */
  lemma ChunkLeavesWholeMultiples(window: uint32, b: seq<byte>)
    ensures ChunkSize(window, b) <= |b|
    ensures |b| >= MODULUS ==> |b| - ChunkSize(window, b) >= MODULUS
  {
    assert |b| == |b| / MODULUS * MODULUS + Wrap(|b|);
  }

  /** A non-empty rest makes progress under an open window exactly when its length is not a
      multiple of 2^32; for such a length `Write` keeps sending empty frames. */
  lemma ChunkProgress(window: uint32, b: seq<byte>)
    requires window > 0 && b != []
    ensures ChunkSize(window, b) > 0 <==> |b| % MODULUS != 0
    ensures |b| < MODULUS ==> ChunkSize(window, b) == Min(window, |b|) > 0
  {
  }
}
