/** Many streams over one connection.  Every frame names its stream; a session step projects to
    a step of that one stream and to nothing for all others, so each stream behaves as if it had
    the connection to itself. */
module YamuxSession {
  import opened YamuxFraming
  import opened YamuxStream
  import opened YamuxLink

  const LAST_STREAM_ID := 0xFFFF_FFFE

  /** One session: `ends` holds every stream object it has had, registered or not. */
  datatype Peer = Peer(client: bool, max: uint32, nextId: nat, ends: map<uint32, End>)

  function NewPeer(client: bool, max: uint32): Peer {
    Peer(client, max, if client then 1 else 2, map[])
  }

  /** Odd stream ids belong to the client. */
  predicate Opens(p: Peer, id: uint32) { (id % 2 == 1) == p.client }

  function EndOf(p: Peer, id: uint32): End {
    if id in p.ends then p.ends[id] else FreshEnd(Opens(p, id), p.max)
  }

  datatype Outcome = Next(peer: Peer, frames: seq<Frame>) | Down

  /** OpenStream, once ids are left. */
  function OpenNext(p: Peer): Outcome
    requires p.nextId < LAST_STREAM_ID
  {
    var id: uint32 := p.nextId;
    var r := OpenEnd(FreshEnd(true, p.max), id);
    Next(p.(nextId := p.nextId + 2, ends := p.ends[id := r.end]), r.frames)
  }

  function ActOn(p: Peer, id: uint32, act: Act): Outcome
    requires CanAct(EndOf(p, id), act)
  {
    var r := Perform(EndOf(p, id), id, act);
    Next(p.(ends := p.ends[id := r.end]), r.frames)
  }

  /** handleStreamMessage. */
  function HandleFrame(p: Peer, f: Frame, accept: bool): Outcome {
    var id := f.header.streamId;
    match Handle(EndOf(p, id), id, f, accept)
    case SessionError => Down
    case Handled(e, frames) => Next(p.(ends := p.ends[id := e]), frames)
  }

  /** The session object: its stream table, its id counter and its send channel. */
  class Session {
    const client: bool
    const max: uint32
    var nextStreamId: nat
    var streams: map<uint32, End>
    var sendCh: seq<Frame>

    function View(): Peer
      reads this
    {
      Peer(client, max, nextStreamId, streams)
    }

    constructor (client: bool, max: uint32)
      ensures View() == NewPeer(client, max) && sendCh == []
      ensures this.client == client && this.max == max
    {
      this.client, this.max := client, max;
      nextStreamId, streams, sendCh := if client then 1 else 2, map[], [];
    }

    method OpenStream() returns (ok: bool, id: uint32)
      modifies this
      ensures ok <==> old(nextStreamId) < LAST_STREAM_ID
      ensures ok ==> id == old(nextStreamId) && old(sendCh) <= sendCh
      ensures ok ==> OpenNext(old(View())) == Next(View(), sendCh[|old(sendCh)|..])
      ensures ok ==> nextStreamId == old(nextStreamId) + 2 && id in streams && streams[id].status.Live?
      ensures ok && INITIAL_WINDOW <= max ==> sendCh == old(sendCh) + [Control(FLAG_SYN, id, max - INITIAL_WINDOW)]
      ensures !ok ==> View() == old(View()) && sendCh == old(sendCh)
    {
      if nextStreamId >= LAST_STREAM_ID {
        return false, 0;
      }
      ok, id := true, nextStreamId;
      nextStreamId := nextStreamId + 2;
      var r := OpenEnd(FreshEnd(true, max), id);
      if INITIAL_WINDOW <= max {
        DeltaExact(NewState(Init), max);
      }
      streams := streams[id := r.end];
      sendCh := sendCh + r.frames;
    }

    /** A SYN either registers a new stream or answers with RST; it fails on a duplicate. */
    method IncomingStream(id: uint32, accept: bool) returns (ok: bool)
      modifies this
      ensures match Incoming(EndOf(old(View()), id), id, accept)
              case SessionError => !ok && View() == old(View()) && sendCh == old(sendCh)
              case Handled(e, frames) =>
                ok && View() == old(View()).(ends := old(streams)[id := e]) && sendCh == old(sendCh) + frames
      ensures ok <==> accept && id in old(streams) ==> !old(streams)[id].status.Live?
      ensures ok ==> id in streams && sendCh == old(sendCh) + if accept then [] else [Control(FLAG_RST, id, 0)]
      ensures accept && ok ==> streams[id].status.Live? && streams[id].s == NewState(SYNReceived) && streams[id].owes
      ensures !accept && id !in old(streams) ==> Refused(streams[id])
    {
      var e := if id in streams then streams[id] else FreshEnd((id % 2 == 1) == client, max);
      ok := true;
      if !accept {
        streams := streams[id := if e.status.Absent? then e.(status := Gone) else e];
        sendCh := sendCh + [Control(FLAG_RST, id, 0)];
        return;
      }
      if e.status.Live? {
        return false;
      }
      streams := streams[id := FreshEnd(e.opener, e.max).(status := Live, s := NewState(SYNReceived), owes := true)];
    }

    method HandleStreamMessage(f: Frame, accept: bool) returns (ok: bool)
      modifies this
      ensures match HandleFrame(old(View()), f, accept)
              case Down => !ok
              case Next(p, frames) => ok && View() == p && sendCh == old(sendCh) + frames
    {
      var id := f.header.streamId;
      if HasFlag(f.header.flags, FLAG_SYN) {
        ok := IncomingStream(id, accept);
        if !ok {
          return;
        }
      }
      var e := if id in streams then streams[id] else FreshEnd((id % 2 == 1) == client, max);
      match Dispatch(e, f) {
        case SessionError =>
          ok := false;
        case Handled(e', _) =>
          ok := true;
          streams := streams[id := e'];
      }
    }
  }

  // ---------------------------------------------------------------- two sessions, one connection

  datatype Net = Net(a: Peer, b: Peer, ab: seq<Frame>, ba: seq<Frame>)

  function Mirror(n: Net): Net { Net(n.b, n.a, n.ba, n.ab) }

  datatype What = OpenStream | Local(id: uint32, act: Act) | Recv(accept: bool)

  datatype Move = Move(byA: bool, what: What)

  predicate May(n: Net, what: What) {
    match what
    case OpenStream => n.a.nextId < LAST_STREAM_ID
    case Local(id, act) => !act.Open? && CanAct(EndOf(n.a, id), act)
    case Recv(_) => n.ba != []
  }

  datatype Result = Went(net: Net) | Failed

  function MoveA(n: Net, what: What): Result
    requires May(n, what)
  {
    var o := match what
             case OpenStream => OpenNext(n.a)
             case Local(id, act) => ActOn(n.a, id, act)
             case Recv(accept) => HandleFrame(n.a, n.ba[0], accept);
    match o
    case Down => Failed
    case Next(p, frames) => Went(Net(p, n.b, n.ab + frames, if what.Recv? then n.ba[1..] else n.ba))
  }

  /** Any schedule of moves at both ends; a move that is not possible is skipped. */
  function Execute(n: Net, moves: seq<Move>): Result
    decreases |moves|
  {
    if moves == [] then Went(n)
    else
      var m := moves[0];
      var n0 := if m.byA then n else Mirror(n);
      if !May(n0, m.what) then Execute(n, moves[1..])
      else
        match MoveA(n0, m.what)
        case Failed => Failed
        case Went(n1) => Execute(if m.byA then n1 else Mirror(n1), moves[1..])
  }

  // ---------------------------------------------------------------- projection to one stream

  function Only(q: seq<Frame>, id: uint32): seq<Frame> {
    if q == [] then []
    else (if q[0].header.streamId == id then [q[0]] else []) + Only(q[1..], id)
  }

  function Project(n: Net, id: uint32): Link {
    Link(id, EndOf(n.a, id), EndOf(n.b, id), Only(n.ab, id), Only(n.ba, id))
  }

  lemma OnlyCons(f: Frame, rest: seq<Frame>, id: uint32)
    ensures Only([f] + rest, id) == (if f.header.streamId == id then [f] else []) + Only(rest, id)
  {
    assert ([f] + rest)[0] == f && ([f] + rest)[1..] == rest;
  }

  lemma {:induction false} OnlyConcat(q: seq<Frame>, fs: seq<Frame>, id: uint32)
    ensures Only(q + fs, id) == Only(q, id) + Only(fs, id)
    decreases |q|
  {
    if q == [] {
      assert q + fs == fs;
    } else {
      var own := if q[0].header.streamId == id then [q[0]] else [];
      OnlyConcat(q[1..], fs, id);
      OnlyCons(q[0], q[1..], id);
      OnlyCons(q[0], q[1..] + fs, id);
      assert q == [q[0]] + q[1..] && q + fs == [q[0]] + (q[1..] + fs);
      assert own + (Only(q[1..], id) + Only(fs, id)) == (own + Only(q[1..], id)) + Only(fs, id);
    }
  }

  lemma {:induction false} OnlyOwn(fs: seq<Frame>, id: uint32, j: uint32)
    requires forall f :: f in fs ==> f.header.streamId == j
    ensures Only(fs, id) == if id == j then fs else []
  {
    if fs != [] {
      OnlyOwn(fs[1..], id, j);
    }
  }

  lemma {:induction false} OnlyPayload(q: seq<Frame>, id: uint32)
    ensures Payload(q, id) == Bytes(Only(q, id))
  {
    if q != [] {
      OnlyPayload(q[1..], id);
      var rest := Only(q[1..], id);
      if q[0].header.streamId == id {
        assert ([q[0]] + rest)[1..] == rest;
      } else {
        assert [] + rest == rest;
      }
    }
  }

  ghost predicate IdsAhead(p: Peer) {
    forall id: uint32 :: Opens(p, id) && p.nextId <= id ==> EndOf(p, id).status.Absent?
  }

  ghost predicate PeerOk(p: Peer) {
    && INITIAL_WINDOW <= p.max && IdsAhead(p)
    && (p.nextId % 2 == 1) == p.client
    && (forall id: uint32 :: EndOf(p, id).opener == Opens(p, id) && EndOf(p, id).max == p.max)
  }

  ghost predicate NetInv(n: Net) {
    && PeerOk(n.a) && PeerOk(n.b) && n.a.client != n.b.client
    && (forall id: uint32 :: Inv(Project(n, id)))
  }

  // ---------------------------------------------------------------- every move projects

  /** The frames of one stream, appended to a queue, reach that stream's projection only. */
  lemma QueueProjects(q: seq<Frame>, fs: seq<Frame>, id: uint32, j: uint32)
    requires QueueOk(fs, j)
    ensures Only(q + fs, id) == if id == j then Only(q, id) + fs else Only(q, id)
  {
    OnlyConcat(q, fs, id);
    OnlyOwn(fs, id, j);
    assert Only(q, id) + [] == Only(q, id);
  }

  lemma FreshProjection(n: Net, id: uint32)
    requires NetInv(n) && n.a.nextId == id
    ensures EndOf(n.a, id) == FreshEnd(true, n.a.max) && Inv(Project(n, id))
  {
    assert Opens(n.a, id);
    assert EndOk(Project(n, id).me);
  }

  /** The one stream a move concerns. */
  function Subject(n: Net, what: What): uint32
    requires May(n, what)
  {
    match what
    case OpenStream => n.a.nextId
    case Local(id, _) => id
    case Recv(_) => n.ba[0].header.streamId
  }

  lemma EndOfUpdated(p: Peer, nextId: nat, j: uint32, e: End, id: uint32)
    ensures EndOf(p.(nextId := nextId, ends := p.ends[j := e]), id) == if id == j then e else EndOf(p, id)
  {
  }

  lemma OpenFrames(max: uint32, j: uint32)
    requires INITIAL_WINDOW <= max
    ensures QueueOk(OpenEnd(FreshEnd(true, max), j).frames, j)
  {
    OpenOk(FreshEnd(true, max), j);
  }

  lemma OpenGoes(n: Net)
    requires May(n, OpenStream)
    ensures var j: uint32 := n.a.nextId; var r := OpenEnd(FreshEnd(true, n.a.max), j);
            MoveA(n, OpenStream) ==
              Went(Net(n.a.(nextId := n.a.nextId + 2, ends := n.a.ends[j := r.end]), n.b, n.ab + r.frames, n.ba))
  {
  }

  lemma OpenProjects(n: Net, id: uint32)
    requires NetInv(n) && May(n, OpenStream)
    ensures MoveA(n, OpenStream).Went?
    ensures var l, l' := Project(n, id), Project(MoveA(n, OpenStream).net, id);
            if id != n.a.nextId then l' == l else CanAct(l.me, Open) && l' == ActMe(l, Open)
  {
    var j: uint32 := n.a.nextId;
    OpenGoes(n);
    FreshProjection(n, j);
    OpenFrames(n.a.max, j);
    var r := OpenEnd(FreshEnd(true, n.a.max), j);
    EndOfUpdated(n.a, n.a.nextId + 2, j, r.end, id);
    QueueProjects(n.ab, r.frames, id, j);
  }

  lemma LocalProjects(n: Net, j: uint32, act: Act, id: uint32)
    requires NetInv(n) && May(n, Local(j, act))
    ensures MoveA(n, Local(j, act)).Went?
    ensures var l, l' := Project(n, id), Project(MoveA(n, Local(j, act)).net, id);
            if id != j then l' == l else l' == ActMe(l, act)
  {
    var l := Project(n, j);
    assert Inv(l);
    ActFramesOk(l, act);
    QueueProjects(n.ab, Perform(l.me, j, act).frames, id, j);
  }

  /** A move at `a` is a move of one stream's link and leaves every other stream untouched. */
  lemma MoveProjects(n: Net, what: What, id: uint32)
    requires NetInv(n) && May(n, what)
    ensures MoveA(n, what).Went?
    ensures var l, l' := Project(n, id), Project(MoveA(n, what).net, id);
            if id != Subject(n, what) then l' == l
            else match what
                 case OpenStream => CanAct(l.me, Open) && l' == ActMe(l, Open)
                 case Local(_, act) => l' == ActMe(l, act)
                 case Recv(accept) => l.inb != [] && ReceiveMe(l, accept) == Delivered(l')
  {
    match what
    case OpenStream => OpenProjects(n, id);
    case Local(j, act) => LocalProjects(n, j, act, id);
    case Recv(accept) => ReceiveProjects(n, accept, id);
  }

  lemma ReceiveProjects(n: Net, accept: bool, id: uint32)
    requires NetInv(n) && n.ba != []
    ensures MoveA(n, Recv(accept)).Went?
    ensures var l, l' := Project(n, id), Project(MoveA(n, Recv(accept)).net, id);
            if id != n.ba[0].header.streamId then l' == l
            else l.inb != [] && ReceiveMe(l, accept) == Delivered(l')
  {
    var j := n.ba[0].header.streamId;
    var l := Project(n, j);
    assert Inv(l);
    HandleOk(l, accept);
    AfterReceive(n, Handle(l.me, j, n.ba[0], accept).end, Handle(l.me, j, n.ba[0], accept).frames, id);
  }

  lemma AfterReceive(n: Net, e: End, frames: seq<Frame>, id: uint32)
    requires n.ba != [] && QueueOk(frames, n.ba[0].header.streamId)
    ensures var j := n.ba[0].header.streamId;
            var n' := Net(n.a.(ends := n.a.ends[j := e]), n.b, n.ab + frames, n.ba[1..]);
            var l := Project(n, id);
            if id != j then Project(n', id) == l
            else l.inb != [] && l.inb[0] == n.ba[0] && Project(n', id) == Link(id, e, l.peer, l.out + frames, l.inb[1..])
  {
    QueueProjects(n.ab, frames, id, n.ba[0].header.streamId);
    var rest := Only(n.ba[1..], id);
    assert [] + rest == rest && ([n.ba[0]] + rest)[1..] == rest;
  }

  lemma ActFramesOk(l: Link, act: Act)
    requires Inv(l) && CanAct(l.me, act)
    ensures QueueOk(Perform(l.me, l.id, act).frames, l.id)
  {
    ActKeeps(l, act);
    var fs := Perform(l.me, l.id, act).frames;
    forall f | f in fs
      ensures FrameOk(f, l.id)
    {
      assert f in ActMe(l, act).out;
    }
  }

  // ---------------------------------------------------------------- all runs

  lemma RolesKept(e: End, id: uint32, act: Act)
    requires EndOk(e) && CanAct(e, act) && !act.Open?
    ensures !e.status.Absent?
    ensures Perform(e, id, act).end.opener == e.opener && Perform(e, id, act).end.max == e.max
  {
  }

  /** Replacing one stream object, with ids only moving forward. */
  lemma PeerUpdated(p: Peer, id: uint32, e: End, nextId: nat)
    requires PeerOk(p) && e.opener == Opens(p, id) && e.max == p.max
    requires p.nextId <= nextId && nextId % 2 == p.nextId % 2
    requires Opens(p, id) && nextId <= id ==> e.status.Absent?
    ensures PeerOk(p.(nextId := nextId, ends := p.ends[id := e]))
  {
    var p' := p.(nextId := nextId, ends := p.ends[id := e]);
    forall i: uint32
      ensures EndOf(p', i) == if i == id then e else EndOf(p, i)
      ensures Opens(p', i) == Opens(p, i)
    {
    }
  }

  lemma PeerOpens(n: Net)
    requires NetInv(n) && May(n, OpenStream)
    ensures OpenNext(n.a).Next? && PeerOk(OpenNext(n.a).peer)
  {
    var id: uint32 := n.a.nextId;
    var e := FreshEnd(true, n.a.max);
    FreshProjection(n, id);
    OpenOk(e, id);
    PeerUpdated(n.a, id, OpenEnd(e, id).end, n.a.nextId + 2);
  }

  lemma PeerActs(n: Net, id: uint32, act: Act)
    requires NetInv(n) && May(n, Local(id, act))
    ensures PeerOk(ActOn(n.a, id, act).peer)
  {
    var e := EndOf(n.a, id);
    assert Inv(Project(n, id));
    RolesKept(e, id, act);
    PeerUpdated(n.a, id, Perform(e, id, act).end, n.a.nextId);
  }

  lemma PeerReceives(n: Net, accept: bool)
    requires NetInv(n) && n.ba != []
    ensures HandleFrame(n.a, n.ba[0], accept).Next? && PeerOk(HandleFrame(n.a, n.ba[0], accept).peer)
  {
    var id := n.ba[0].header.streamId;
    var l := Project(n, id);
    assert Inv(l);
    HandleOk(l, accept);
    NoFrameFromNowhere(n);
    PeerUpdated(n.a, id, Handle(l.me, id, n.ba[0], accept).end, n.a.nextId);
  }

  /** No frame arrives for a stream of one's own that was not opened yet. */
  lemma NoFrameFromNowhere(n: Net)
    requires NetInv(n) && n.ba != []
    ensures var id := n.ba[0].header.streamId; Opens(n.a, id) ==> id < n.a.nextId
  {
    var id := n.ba[0].header.streamId;
    assert Inv(Project(n, id));
    assert Only(n.ba, id) != [];
  }

  lemma PeerKept(n: Net, what: What)
    requires NetInv(n) && May(n, what) && MoveA(n, what).Went?
    ensures PeerOk(MoveA(n, what).net.a) && MoveA(n, what).net.a.client == n.a.client
    ensures MoveA(n, what).net.b == n.b
  {
    match what
    case OpenStream => PeerOpens(n);
    case Local(id, act) => PeerActs(n, id, act);
    case Recv(accept) => PeerReceives(n, accept);
  }

  lemma MoveKeeps(n: Net, what: What)
    requires NetInv(n) && May(n, what)
    ensures MoveA(n, what).Went? && NetInv(MoveA(n, what).net)
  {
    var j := Subject(n, what);
    MoveProjects(n, what, j);
    PeerKept(n, what);
    var n' := MoveA(n, what).net;
    forall id: uint32
      ensures Inv(Project(n', id))
    {
      MoveProjects(n, what, id);
      assert Inv(Project(n, id));
      if id == j {
        match what
        case OpenStream => ActKeeps(Project(n, j), Open);
        case Local(_, act) => ActKeeps(Project(n, j), act);
        case Recv(accept) => ReceiveKeeps(Project(n, j), accept);
      }
    }
  }

  lemma MirrorKeeps(n: Net)
    requires NetInv(n)
    ensures NetInv(Mirror(n))
  {
    forall id: uint32
      ensures Inv(Project(Mirror(n), id))
    {
      assert Inv(Project(n, id));
      assert Project(Mirror(n), id) == Flip(Project(n, id));
    }
  }

  function Connected(clientMax: uint32, serverMax: uint32): Net {
    Net(NewPeer(true, clientMax), NewPeer(false, serverMax), [], [])
  }

  lemma ConnectedOk(clientMax: uint32, serverMax: uint32)
    requires INITIAL_WINDOW <= clientMax && INITIAL_WINDOW <= serverMax
    ensures NetInv(Connected(clientMax, serverMax))
  {
    forall id: uint32
      ensures Inv(Project(Connected(clientMax, serverMax), id))
    {
      InvInitially(id, clientMax, serverMax, id % 2 == 1);
    }
  }

  lemma {:induction false} ExecuteKeeps(n: Net, moves: seq<Move>)
    requires NetInv(n)
    ensures Execute(n, moves).Went? && NetInv(Execute(n, moves).net)
    decreases |moves|
  {
    if moves != [] {
      var m := moves[0];
      if !m.byA {
        MirrorKeeps(n);
      }
      var n0 := if m.byA then n else Mirror(n);
      if !May(n0, m.what) {
        ExecuteKeeps(n, moves[1..]);
      } else {
        MoveKeeps(n0, m.what);
        var n1 := MoveA(n0, m.what).net;
        if !m.byA {
          MirrorKeeps(n1);
        }
        ExecuteKeeps(if m.byA then n1 else Mirror(n1), moves[1..]);
      }
    }
  }

  /** Two conforming sessions, whatever their window sizes, never bring the connection down:
      no window is exceeded, no FIN is unexpected, no stream is declared twice. */
  lemma SessionsNeverFail(clientMax: uint32, serverMax: uint32, moves: seq<Move>)
    requires INITIAL_WINDOW <= clientMax && INITIAL_WINDOW <= serverMax
    ensures Execute(Connected(clientMax, serverMax), moves).Went?
    ensures NetInv(Execute(Connected(clientMax, serverMax), moves).net)
  {
    ConnectedOk(clientMax, serverMax);
    ExecuteKeeps(Connected(clientMax, serverMax), moves);
  }

  /** Where a run of two conforming sessions ends up. */
  function Run(clientMax: uint32, serverMax: uint32, moves: seq<Move>): Net
    requires INITIAL_WINDOW <= clientMax && INITIAL_WINDOW <= serverMax
  {
    SessionsNeverFail(clientMax, serverMax, moves);
    Execute(Connected(clientMax, serverMax), moves).net
  }

  /** In every run, for every stream, registered or not: what `b` has received, read or not, is a
      prefix of what was written at `a`; while the stream is registered at `b` the rest is that
      stream's payload in transit; and the same the other way. */
  lemma MultiplexingIsTransparent(clientMax: uint32, serverMax: uint32, moves: seq<Move>, id: uint32)
    requires INITIAL_WINDOW <= clientMax && INITIAL_WINDOW <= serverMax
    ensures var n := Run(clientMax, serverMax, moves);
            var a, b := EndOf(n.a, id), EndOf(n.b, id);
            && b.read <= Arrived(b) <= a.written && a.read <= Arrived(a) <= b.written
            && (!b.status.Gone? ==> a.written == Arrived(b) + Payload(n.ab, id))
            && (!a.status.Gone? ==> b.written == Arrived(a) + Payload(n.ba, id))
  {
    SessionsNeverFail(clientMax, serverMax, moves);
    var n := Run(clientMax, serverMax, moves);
    var l := Project(n, id);
    assert Inv(l);
    InvFlips(l);
    StreamIsTransparent(l);
    StreamIsTransparent(Flip(l));
    OnlyPayload(n.ab, id);
    OnlyPayload(n.ba, id);
  }

  /** In every run, a stream object that has seen the FIN of a peer that sent no bytes after it has
      got all the peer wrote, however much of it its reader has still to read. */
  lemma EndOfFileIsComplete(clientMax: uint32, serverMax: uint32, moves: seq<Move>, id: uint32)
    requires INITIAL_WINDOW <= clientMax && INITIAL_WINDOW <= serverMax
    ensures var n := Run(clientMax, serverMax, moves);
            var a, b := EndOf(n.a, id), EndOf(n.b, id);
            && (b.finSeen && !a.late ==> Arrived(b) == a.written)
            && (a.finSeen && !b.late ==> Arrived(a) == b.written)
  {
    SessionsNeverFail(clientMax, serverMax, moves);
    var l := Project(Run(clientMax, serverMax, moves), id);
    assert Inv(l);
    InvFlips(l);
    StreamIsTransparent(l);
    StreamIsTransparent(Flip(l));
  }

  /** In every run, exactly when: a registered stream that has seen the FIN has got all its peer wrote
      if and only if none of its payload is in transit. */
  lemma EndOfFileIsCompleteWhen(clientMax: uint32, serverMax: uint32, moves: seq<Move>, id: uint32)
    requires INITIAL_WINDOW <= clientMax && INITIAL_WINDOW <= serverMax
    ensures var n := Run(clientMax, serverMax, moves);
            var a, b := EndOf(n.a, id), EndOf(n.b, id);
            && (b.finSeen && !b.status.Gone? ==> (Arrived(b) == a.written <==> Payload(n.ab, id) == []))
            && (a.finSeen && !a.status.Gone? ==> (Arrived(a) == b.written <==> Payload(n.ba, id) == []))
            && (b.finSeen && !a.late && !b.status.Gone? ==> Payload(n.ab, id) == [])
            && (a.finSeen && !b.late && !a.status.Gone? ==> Payload(n.ba, id) == [])
  {
    MultiplexingIsTransparent(clientMax, serverMax, moves, id);
    EndOfFileIsComplete(clientMax, serverMax, moves, id);
  }

  /** The sender's window less what is queued but not yet deducted, the data on its way and the
      credit on its way back make up the receiver's window. */
  ghost predicate Balanced(s: End, r: End, data: seq<Frame>, back: seq<Frame>, id: uint32) {
    var total := s.s.sendWindow - Pending(s) + |Payload(data, id)| + Credit(Only(back, id));
    Wrap(total) == r.s.recvWindow && (!s.writer.Sent? ==> total == r.s.recvWindow)
  }

  lemma StreamBalances(n: Net, id: uint32)
    requires Inv(Project(n, id)) && !EndOf(n.a, id).status.Gone? && !EndOf(n.b, id).status.Gone?
    ensures var a, b := EndOf(n.a, id), EndOf(n.b, id);
            Balanced(a, b, n.ab, n.ba, id) && b.s.recvWindow + |b.s.recvBuf| <= b.max
  {
    OnlyPayload(n.ab, id);
    WindowsBalance(Project(n, id));
  }

  /** In every run the credit of every open stream adds up, in both directions: exactly unless a
      chunk was just sent, and modulo 2^32 while it has not been deducted. */
  lemma CreditIsConserved(clientMax: uint32, serverMax: uint32, moves: seq<Move>, id: uint32)
    requires INITIAL_WINDOW <= clientMax && INITIAL_WINDOW <= serverMax
    ensures var n := Run(clientMax, serverMax, moves);
            var a, b := EndOf(n.a, id), EndOf(n.b, id);
            !a.status.Gone? && !b.status.Gone? ==>
              && Balanced(a, b, n.ab, n.ba, id) && Balanced(b, a, n.ba, n.ab, id)
              && a.s.recvWindow + |a.s.recvBuf| <= a.max && b.s.recvWindow + |b.s.recvBuf| <= b.max
  {
    SessionsNeverFail(clientMax, serverMax, moves);
    var n := Run(clientMax, serverMax, moves);
    var l := Project(n, id);
    InvFlips(l);
    assert Project(Mirror(n), id) == Flip(l);
    if !l.me.status.Gone? && !l.peer.status.Gone? {
      StreamBalances(n, id);
      StreamBalances(Mirror(n), id);
    }
  }

  /** A reader of the stream that emptied its buffer and sent the update it owes, with nothing of
      the stream in transit to or from it. */
  ghost predicate Drained(reader: End, writer: End, data: seq<Frame>, back: seq<Frame>, id: uint32) {
    && reader.status.Live? && !writer.status.Gone? && reader.s.recvBuf == [] && !reader.owes
    && Payload(data, id) == [] && Credit(Only(back, id)) == 0 && !writer.writer.Sent?
  }

  /** In every run, whatever the other streams do, a writer whose reader has drained has more than
      half of the reader's window: credit never deadlocks, in either direction. */
  lemma CreditNeverDeadlocks(clientMax: uint32, serverMax: uint32, moves: seq<Move>, id: uint32)
    requires INITIAL_WINDOW <= clientMax && INITIAL_WINDOW <= serverMax
    ensures var n := Run(clientMax, serverMax, moves);
            var a, b := EndOf(n.a, id), EndOf(n.b, id);
            && (Drained(b, a, n.ab, n.ba, id) ==> 2 * a.s.sendWindow > b.max)
            && (Drained(a, b, n.ba, n.ab, id) ==> 2 * b.s.sendWindow > a.max)
  {
    SessionsNeverFail(clientMax, serverMax, moves);
    var n := Run(clientMax, serverMax, moves);
    var l := Project(n, id);
    assert Inv(l);
    InvFlips(l);
    OnlyPayload(n.ab, id);
    OnlyPayload(n.ba, id);
    if Drained(l.peer, l.me, n.ab, n.ba, id) {
      NoCreditDeadlock(l);
    }
    if Drained(l.me, l.peer, n.ba, n.ab, id) {
      NoCreditDeadlock(Flip(l));
    }
  }

  /** In every run, the phase of a stream object, and whether it is registered, is what its history
      amounts to: which ends closed, and whether it was confirmed or reset. */
  lemma PhaseIsHistory(clientMax: uint32, serverMax: uint32, moves: seq<Move>, id: uint32)
    requires INITIAL_WINDOW <= clientMax && INITIAL_WINDOW <= serverMax
    ensures var n := Run(clientMax, serverMax, moves);
            var a, b := EndOf(n.a, id), EndOf(n.b, id);
            && (if a.status.Absent? || Refused(a) then a.s.phase.Init? else Lifecycle(a))
            && (if b.status.Absent? || Refused(b) then b.s.phase.Init? else Lifecycle(b))
  {
    SessionsNeverFail(clientMax, serverMax, moves);
    assert Inv(Project(Run(clientMax, serverMax, moves), id));
  }

  /** In every run, a stream that processed an RST is unregistered, in the reset phase, and takes
      neither reads nor writes from then on; it was refused by its peer.  And a refused stream is
      reset at its opener as soon as the one RST in transit arrives. */
  lemma ResetsAreRefusals(clientMax: uint32, serverMax: uint32, moves: seq<Move>, id: uint32)
    requires INITIAL_WINDOW <= clientMax && INITIAL_WINDOW <= serverMax
    ensures var n := Run(clientMax, serverMax, moves);
            ResetFor(EndOf(n.a, id), EndOf(n.b, id), Only(n.ba, id)) && ResetFor(EndOf(n.b, id), EndOf(n.a, id), Only(n.ab, id))
  {
    SessionsNeverFail(clientMax, serverMax, moves);
    var l := Project(Run(clientMax, serverMax, moves), id);
    assert Inv(l);
    InvFlips(l);
    LinkResets(l);
    LinkResets(Flip(l));
  }

  ghost predicate ResetFor(e: End, peer: End, inb: seq<Frame>) {
    && (e.rstSeen ==> e.status.Gone? && e.s.phase.Reset? && e.opener && Refused(peer))
    && (e.rstSeen ==> !CanAct(e, CheckWrite) && forall limit: nat :: !CanAct(e, ReadSome(limit)))
    && (Refused(peer) ==> e.rstSeen || (e.status.Live? && Marked(inb, FLAG_RST) == 1))
  }

  lemma LinkResets(l: Link)
    requires Inv(l)
    ensures ResetFor(l.me, l.peer, l.inb)
  {
    if l.me.rstSeen {
      ResetEnds(l);
    }
    if Refused(l.peer) {
      RefusalArrives(l);
    }
  }

  /** In every run, an opener is confirmed only if its stream was accepted; and once no ACK is in
      transit to an opener that is still registered, both ends agree on it. */
  lemma ConfirmationsAreTrue(clientMax: uint32, serverMax: uint32, moves: seq<Move>, id: uint32)
    requires INITIAL_WINDOW <= clientMax && INITIAL_WINDOW <= serverMax
    ensures var n := Run(clientMax, serverMax, moves);
            var a, b := EndOf(n.a, id), EndOf(n.b, id);
            if a.opener then ConfirmedBy(a, b, Only(n.ba, id)) else ConfirmedBy(b, a, Only(n.ab, id))
  {
    SessionsNeverFail(clientMax, serverMax, moves);
    assert Inv(Project(Run(clientMax, serverMax, moves), id));
  }

  ghost predicate ConfirmedBy(opener: End, acceptor: End, inb: seq<Frame>) {
    && (opener.acked ==> acceptor.acked)
    && (!opener.status.Gone? && Marked(inb, FLAG_ACK) == 0 ==> (opener.acked <==> acceptor.acked))
  }

  /** Both ends closed, and no FIN is left to send or to deliver. */
  ghost predicate ClosedBoth(a: End, b: End, ab: seq<Frame>, ba: seq<Frame>) {
    a.closed && b.closed && a.closing.NoFin? && b.closing.NoFin? && Fins(ab) == 0 && Fins(ba) == 0
  }

  /** In every run, a stream that both ends closed and whose FINs were delivered is held by
      neither session any more. */
  lemma ClosedStreamsAreReleased(clientMax: uint32, serverMax: uint32, moves: seq<Move>, id: uint32)
    requires INITIAL_WINDOW <= clientMax && INITIAL_WINDOW <= serverMax
    ensures var n := Run(clientMax, serverMax, moves);
            var a, b := EndOf(n.a, id), EndOf(n.b, id);
            ClosedBoth(a, b, Only(n.ab, id), Only(n.ba, id)) ==> !a.status.Live? && !b.status.Live?
  {
    SessionsNeverFail(clientMax, serverMax, moves);
    var n := Run(clientMax, serverMax, moves);
    var l := Project(n, id);
    assert Inv(l);
    if ClosedBoth(l.me, l.peer, l.out, l.inb) {
      ClosedStreamIsReleased(l);
    }
  }

  lemma {:induction false} OnlyHas(q: seq<Frame>, f: Frame)
    requires f in q
    ensures f in Only(q, f.header.streamId)
  {
    if q[0] != f {
      OnlyHas(q[1..], f);
    }
  }

  /** If the connection dies with only `k` bytes of what is in transit delivered, every reader
      still ends with a prefix of what was written to its stream. */
  lemma CutConnectionGivesPrefix(clientMax: uint32, serverMax: uint32, moves: seq<Move>, id: uint32, k: nat)
    requires INITIAL_WINDOW <= clientMax && INITIAL_WINDOW <= serverMax
    requires k <= |SerializeAll(Run(clientMax, serverMax, moves).ab)|
    ensures var n := Run(clientMax, serverMax, moves);
            var a, b := EndOf(n.a, id), EndOf(n.b, id);
            var late := Payload(Parse(SerializeAll(n.ab)[..k]).frames, id);
            if b.status.Gone? then Arrived(b) <= a.written else Arrived(b) + late <= a.written
  {
    SessionsNeverFail(clientMax, serverMax, moves);
    var n := Run(clientMax, serverMax, moves);
    forall f | f in n.ab
      ensures WellFormed(f)
    {
      OnlyHas(n.ab, f);
      assert Inv(Project(n, f.header.streamId));
    }
    CutStreamDeliversPrefix(n.ab, k, id);
    MultiplexingIsTransparent(clientMax, serverMax, moves, id);
  }

  // ---------------------------------------------------------------- bytes after the FIN

  const ONE: uint32 := 1
  const LATE: seq<byte> := [7]

  /** A writer passes its checks; the stream is closed and its FIN goes out; the peer closes too;
      then the chunk goes out and is dropped. */
  function LateWrite(): seq<Move> {
    [Move(true, What.OpenStream), Move(false, Recv(true)), Move(true, Local(ONE, CheckWrite)), Move(true, Local(ONE, LoadWindow)),
     Move(true, Local(ONE, Close)), Move(true, Local(ONE, SendFin)), Move(false, Recv(true)), Move(false, Local(ONE, Close)),
     Move(false, Local(ONE, SendFin)), Move(true, Local(ONE, SendChunk(LATE))), Move(false, Recv(true))]
  }

  function With(a: End, b: End, ab: seq<Frame>, ba: seq<Frame>): Net {
    Net(Peer(true, INITIAL_WINDOW, 3, map[ONE := a]), Peer(false, INITIAL_WINDOW, 2, map[ONE := b]), ab, ba)
  }

  /** The states along that run. */
  function LateNets(): seq<Net> {
    var a := FreshEnd(true, INITIAL_WINDOW).(status := Live, s := NewState(SYNSent));
    var b := FreshEnd(false, INITIAL_WINDOW);
    var b1 := b.(status := Live, s := NewState(SYNReceived), owes := true);
    var a2 := a.(writer := Ready(INITIAL_WINDOW), s := NewState(LocalClose), closed := true);
    var b2 := b1.(s := NewState(RemoteClose), finSeen := true);
    var b3 := b2.(s := NewState(Closed), closed := true);
    var fin, chunk := Control(FLAG_FIN, ONE, 0), Data(0, ONE, LATE);
    var late := a2.(writer := Sent(1), written := LATE, late := true);
    [Connected(INITIAL_WINDOW, INITIAL_WINDOW),
     Net(Peer(true, INITIAL_WINDOW, 3, map[ONE := a]), NewPeer(false, INITIAL_WINDOW), [Control(FLAG_SYN, ONE, 0)], []),
     With(a, b1, [], []), With(a.(writer := Checked), b1, [], []), With(a.(writer := Ready(INITIAL_WINDOW)), b1, [], []),
     With(a2.(closing := HalfClose), b1, [], []), With(a2, b1, [fin], []), With(a2, b2, [], []),
     With(a2, b3.(closing := FullClose), [], []), With(a2, b3.(status := Gone), [], [fin]),
     With(late, b3.(status := Gone), [chunk], [fin]), With(late, b3.(status := Gone), [], [fin])]
  }

  /** The move is possible and leads from one state to the other. */
  ghost predicate Leads(n: Net, m: Move, n': Net) {
    if m.byA then May(n, m.what) && MoveA(n, m.what) == Went(n')
    else May(Mirror(n), m.what) && MoveA(Mirror(n), m.what) == Went(Mirror(n'))
  }

  lemma LateOpens()
    ensures Leads(LateNets()[0], LateWrite()[0], LateNets()[1])
  {
  }

  lemma LateIsAccepted()
    ensures Leads(LateNets()[1], LateWrite()[1], LateNets()[2])
  {
  }

  lemma LateIsChecked(i: nat)
    requires 2 <= i < 4
    ensures Leads(LateNets()[i], LateWrite()[i], LateNets()[i + 1])
  {
  }

  lemma LateCloses()
    ensures Leads(LateNets()[4], LateWrite()[4], LateNets()[5])
  {
  }

  lemma LateFinIsSent()
    ensures Leads(LateNets()[5], LateWrite()[5], LateNets()[6])
  {
  }

  lemma LateFinArrives()
    ensures Leads(LateNets()[6], LateWrite()[6], LateNets()[7])
  {
  }

  lemma LatePeerCloses()
    ensures Leads(LateNets()[7], LateWrite()[7], LateNets()[8])
  {
  }

  lemma LatePeerSendsFin()
    ensures Leads(LateNets()[8], LateWrite()[8], LateNets()[9])
  {
  }

  lemma LateSends()
    ensures Leads(LateNets()[9], LateWrite()[9], LateNets()[10])
  {
    assert LATE[..1] == LATE && [] + LATE == LATE;
  }

  lemma LateIsDropped()
    ensures Leads(LateNets()[10], LateWrite()[10], LateNets()[11])
  {
  }

  lemma LateOpening(i: nat)
    requires i < 4
    ensures Leads(LateNets()[i], LateWrite()[i], LateNets()[i + 1])
  {
    match i
    case 0 => LateOpens();
    case 1 => LateIsAccepted();
    case _ => LateIsChecked(i);
  }

  lemma LateClosing(i: nat)
    requires 4 <= i < 8
    ensures Leads(LateNets()[i], LateWrite()[i], LateNets()[i + 1])
  {
    match i
    case 4 => LateCloses();
    case 5 => LateFinIsSent();
    case 6 => LateFinArrives();
    case _ => LatePeerCloses();
  }

  lemma LateEnding(i: nat)
    requires 8 <= i < 11
    ensures Leads(LateNets()[i], LateWrite()[i], LateNets()[i + 1])
  {
    match i
    case 8 => LatePeerSendsFin();
    case 9 => LateSends();
    case _ => LateIsDropped();
  }

  /** Moves that are all possible when their turn comes. */
  lemma {:induction false} Schedule(nets: seq<Net>, moves: seq<Move>, i: nat)
    requires |nets| == |moves| + 1 && i <= |moves|
    requires forall j :: 0 <= j < |moves| ==> Leads(nets[j], moves[j], nets[j + 1])
    ensures Execute(nets[i], moves[i..]) == Went(nets[|moves|])
    decreases |moves| - i
  {
    if i < |moves| {
      assert Leads(nets[i], moves[i], nets[i + 1]);
      assert moves[i..][0] == moves[i] && moves[i..][1..] == moves[i + 1..];
      assert Mirror(Mirror(nets[i + 1])) == nets[i + 1];
      Schedule(nets, moves, i + 1);
    }
  }

  /** Bytes accepted by a write that overlaps a close never reach a peer that closed as well, and
      whose reader saw a regular end of file. */
  lemma LateWriteIsLost()
    ensures var n := Run(INITIAL_WINDOW, INITIAL_WINDOW, LateWrite());
            var a, b := EndOf(n.a, ONE), EndOf(n.b, ONE);
            && a.late && b.finSeen && Payload(n.ab, ONE) == []
            && a.written == LATE && Arrived(b) == []
  {
    forall i | 0 <= i < 11
      ensures Leads(LateNets()[i], LateWrite()[i], LateNets()[i + 1])
    {
      if i < 4 {
        LateOpening(i);
      } else if i < 8 {
        LateClosing(i);
      } else {
        LateEnding(i);
      }
    }
    Schedule(LateNets(), LateWrite(), 0);
    assert LateWrite()[0..] == LateWrite();
    SessionsNeverFail(INITIAL_WINDOW, INITIAL_WINDOW, LateWrite());
  }

  /** An end of file means that everything arrived, in all runs, if no bytes are sent after the FIN,
      and that condition cannot be dropped: without it some run loses bytes.  So a caller must not
      close a stream while it still writes to it. */
  lemma EndOfFileIsCompleteExactly(lateAllowed: bool)
    ensures (forall clientMax: uint32, serverMax: uint32, moves, id: uint32 :: INITIAL_WINDOW <= clientMax && INITIAL_WINDOW <= serverMax ==>
               CompleteAtEof(Run(clientMax, serverMax, moves), id, lateAllowed)) <==> !lateAllowed
  {
    if lateAllowed {
      LateWriteIsLost();
      assert !CompleteAtEof(Run(INITIAL_WINDOW, INITIAL_WINDOW, LateWrite()), ONE, true);
    } else {
      forall clientMax: uint32, serverMax: uint32, moves, id: uint32 | INITIAL_WINDOW <= clientMax && INITIAL_WINDOW <= serverMax
        ensures CompleteAtEof(Run(clientMax, serverMax, moves), id, false)
      {
        EndOfFileIsComplete(clientMax, serverMax, moves, id);
      }
    }
  }

  /** Whoever saw a FIN got everything, unless the peer sent bytes after it and that is allowed for. */
  ghost predicate CompleteAtEof(n: Net, id: uint32, lateAllowed: bool) {
    var a, b := EndOf(n.a, id), EndOf(n.b, id);
    && (b.finSeen && (lateAllowed || !a.late) ==> Arrived(b) == a.written)
    && (a.finSeen && (lateAllowed || !b.late) ==> Arrived(a) == b.written)
  }
}
