/**
The same two endpoints over transports that behave: each leg carries frames in order, and a leg
that ends uncleanly is followed by a resume handshake processed before the next leg starts. What
the handshake loses, its retries, an attach the client never hears of, and a request that arrives
only after a later one succeeded are all modelled. A leg cut in a way the receiver takes for a clean
end is studied apart, in `Cuts`.
*/
module Legs {
  import opened Bytes
  import opened Layers
  import opened Endpoints

  datatype Frame = FData(off: nat, bytes: seq<Byte>) | FAck(n: nat)

  /**
  What ended the session: `errReplayGap`, `errBadAck`, a resume this side refused, or a late resume
  request the server refused.
  */
  datatype Fault = NoFault | GapFault | BadAckFault | Refused(refuser: Side) | LateRefused

  /**
  One side: its endpoint, whether its legs run, whether its sender is past `nextOut`'s check for
  pending replay and not back yet, the frames in flight to it, handshake done.
  */
  datatype Half = Half(ep: Endpoint, up: bool, looking: bool, inbox: seq<Frame>, ready: bool, overflowed: bool)

  datatype System = System(
    client: Half,
    server: Half,
    requests: set<nat>,
    responses: set<nat>,
    late: set<nat>,                 // requests of earlier handshakes that may still arrive
    fault: Fault)
  {
    ghost predicate InRange() {
      client.ep.layer.Valid() && server.ep.layer.Valid()
    }

    /** Neither end loses what it wrote, accepted or confirmed. */
    ghost predicate GrowsInto(later: System) {
      client.ep.GrowsInto(later.client.ep) && server.ep.GrowsInto(later.server.ep)
    }

    function At(side: Side): Half {
      if side.Client? then client else server
    }

    function Put(side: Side, h: Half): System {
      if side.Client? then this.(client := h) else this.(server := h)
    }
  }

  datatype LegEvent =
    | AppWrite(side: Side, p: seq<Byte>)
    | FindNothingPending(side: Side)  // first critical section of nextOut
    | TakeBytes(side: Side, n: nat)
    | TakeNothing(side: Side)       // a timeout, an interrupt or the end of the pipe
    | NumberAndSend(side: Side)
    | ResendFrom(side: Side, room: nat)
    | SendAck(side: Side)
    | ReceiveFrame(side: Side)
    | Rollover(side: Side)          // a clean end: everything sent was consumed, reopen
    | Stop(side: Side)              // the transport failed and this side's handlers have left
    | AskResume                     // the client posts its offset
    | ServeResume(r: nat)           // the server answers a request
    | AcceptResume(r: nat)          // the client hears the answer
    | LateResume(r: nat)            // the server, its handlers kicked, answers an old request
    | LostAttach                    // the server attaches a transport the client gives up on
    | Start                         // the next legs, both ends
  {
    predicate OfSender() {
      NumberAndSend? || ResendFrom? || SendAck?
    }

    /** Steps of one side that the other does not notice. */
    predicate Alone() {
      AppWrite? || FindNothingPending? || TakeBytes? || TakeNothing? || Rollover?
    }

    predicate OfHandshake() {
      AskResume? || ServeResume? || AcceptResume? || LateResume? || LostAttach? || Start?
    }
  }

  function InitLegs(clientMax: int, serverMax: int): System {
    System(Half(NewEndpoint(clientMax), true, false, [], false, false),
           Half(NewEndpoint(serverMax), true, false, [], false, false), {}, {}, {}, NoFault)
  }

  function SendTo(s: System, side: Side, me: Half, f: Frame): System {
    var peer := s.At(side.Peer());
    s.Put(side, me).Put(side.Peer(), peer.(inbox := peer.inbox + [f]))
  }

  /** A leg opens: `resetAck`, and nothing in flight. */
  function Opened(h: Half): (r: Half)
    requires h.ep.layer.Valid()
    ensures r.ep.layer.Valid() && h.ep.GrowsInto(r.ep)
  {
    h.(ep := h.ep.(layer := h.ep.layer.ResetAck()), up := true, ready := false, inbox := [])
  }

  /** A running receiver takes the next frame of its leg. */
  function Hear(me: Half): (r: (Half, Fault))
    requires me.ep.layer.Valid() && me.inbox != []
    ensures r.0.ep.layer.Valid() && me.ep.GrowsInto(r.0.ep)
  {
    match me.inbox[0]
    case FData(off, bytes) =>
      var (e, res) := me.ep.Receive(off, bytes);
      (me.(ep := e, inbox := me.inbox[1..]), if res == Gap then GapFault else NoFault)
    case FAck(n) =>
      var (e, ok) := me.ep.Ack(n);
      (me.(ep := e, inbox := me.inbox[1..]), if ok then NoFault else BadAckFault)
  }

  function Receive(s: System, side: Side): (r: System)
    requires s.InRange() && s.At(side).inbox != []
    ensures r.InRange() && s.GrowsInto(r)
  {
    var (me, fault) := Hear(s.At(side));
    s.Put(side, me).(fault := fault)
  }

  /** What a sender does and the frame it puts on its leg, if the event is enabled. */
  function Say(me: Half, e: LegEvent): (r: Option<(Half, Frame)>)
    requires me.ep.layer.Valid() && e.OfSender()
    ensures r.Some? ==> r.value.0.ep.layer.Valid() && me.ep.GrowsInto(r.value.0.ep)
  {
    if !me.up then None
    else if e.NumberAndSend? then
      if me.ep.hand == [] then None else
      var (x, off, data) := me.ep.Number();
      Some((me.(ep := x, looking := false, overflowed := me.overflowed || x.layer.broken), FData(off, data)))
    else if e.ResendFrom? then
      if me.looking || !me.ep.layer.HasPending() then None else
      var (x, off, data) := me.ep.SendReplay(e.room);
      Some((me.(ep := x), FData(off, data)))
    else
      var (l, due) := me.ep.layer.TakeAck();
      if due.None? then None else Some((me.(ep := me.ep.(layer := l)), FAck(due.value)))
  }

  function Send(s: System, e: LegEvent): (r: System)
    requires s.InRange() && e.OfSender()
    ensures r.InRange() && s.GrowsInto(r)
  {
    var said := Say(s.At(e.side), e);
    if said.None? then s else SendTo(s, e.side, said.value.0, said.value.1)
  }

  function Shake(s: System, e: LegEvent): (r: System)
    requires s.InRange() && e.OfHandshake()
    ensures r.InRange() && s.GrowsInto(r)
  {
    match e
    case AskResume =>
      if s.client.up then s else s.(requests := s.requests + {s.client.ep.layer.recv})
    case ServeResume(r) =>
      if s.server.up || r !in s.requests then s else
      var (x, ok) := s.server.ep.Resume(r, true);
      var s' := s.(server := s.server.(ep := x, inbox := [], ready := ok));
      if ok then s'.(responses := s.responses + {x.layer.recv}) else s'.(fault := Refused(Server))
    case AcceptResume(r) =>
      if s.client.up || r !in s.responses then s else
      var (x, ok) := s.client.ep.Resume(r, false);
      var s' := s.(client := s.client.(ep := x, ready := ok));
      if ok then s' else s'.(fault := Refused(Client))
    case LateResume(r) =>
      if s.server.up || r !in s.late then s else
      var (x, ok) := s.server.ep.Resume(r, true);
      s.(server := s.server.(ep := x, inbox := []), fault := if ok then NoFault else LateRefused)
    case LostAttach =>
      if s.client.up || s.server.up || !s.server.ready then s
      else s.(server := Opened(s.server))
    case Start =>
      if s.client.up || s.server.up || !s.client.ready || !s.server.ready then s
      else s.(client := Opened(s.client), server := Opened(s.server),
              requests := {}, responses := {}, late := s.late + s.requests)
  }

  /** A side writing, in the first and second sections of `nextOut`, and rolling a drained leg over. */
  function Alone(me: Half, e: LegEvent, drained: bool): (r: Half)
    requires me.ep.layer.Valid() && e.Alone()
    ensures r.ep.layer.Valid() && me.ep.GrowsInto(r.ep)
  {
    match e
    case AppWrite(_, p) => me.(ep := me.ep.Write(p))
    case FindNothingPending(_) => if me.up && !me.ep.layer.HasPending() then me.(looking := true) else me
    case TakeBytes(_, n) => if me.looking && me.ep.CanTake(n) then me.(ep := me.ep.Take(n)) else me
    case TakeNothing(_) => if me.ep.hand == [] then me.(looking := false) else me
    case Rollover(_) =>
      if me.up && !me.looking && drained then me.(ep := me.ep.(layer := me.ep.layer.ResetAck())) else me
  }

  /** Steps of one side on its own, receiving and stopping among them. */
  function Own(s: System, e: LegEvent): (r: System)
    requires s.InRange() && !e.OfSender() && !e.OfHandshake()
    ensures r.InRange() && s.GrowsInto(r)
  {
    var side, me := e.side, s.At(e.side);
    if e.ReceiveFrame? then
      if me.up && me.inbox != [] then Receive(s, side) else s
    else if e.Stop? then
      if me.up && !me.looking then s.Put(side, me.(up := false, inbox := [])) else s
    else s.Put(side, Alone(me, e, s.At(side.Peer()).inbox == []))
  }

  function LegStep(s: System, e: LegEvent): (r: System)
    requires s.InRange()
    ensures r.InRange() && s.GrowsInto(r)
  {
    if s.fault != NoFault then s
    else if e.OfSender() then Send(s, e)
    else if e.OfHandshake() then Shake(s, e)
    else Own(s, e)
  }

  function RunLegs(s: System, events: seq<LegEvent>): (r: System)
    requires s.InRange()
    ensures r.InRange()
  {
    if events == [] then s else LegStep(RunLegs(s, events[..|events| - 1]), events[|events| - 1])
  }

  // ---- frames in flight ----

  /** Where a receiver standing at `at` will stand once it has consumed `q`. */
  ghost function End(q: seq<Frame>, at: nat): nat {
    if q == [] then at
    else var before := End(q[..|q| - 1], at);
         var f := q[|q| - 1];
         if f.FData? then Max(before, f.off + |f.bytes|) else before
  }

  /** No frame of `q` starts past where the receiver will stand when it gets there. */
  ghost predicate NoHole(q: seq<Frame>, at: nat) {
    forall i :: 0 <= i < |q| && q[i].FData? ==> q[i].off <= End(q[..i], at)
  }

  lemma EndSnoc(q: seq<Frame>, f: Frame, at: nat)
    ensures End(q + [f], at) == (if f.FData? then Max(End(q, at), f.off + |f.bytes|) else End(q, at))
    ensures NoHole(q, at) && (f.FData? ==> f.off <= End(q, at)) ==> NoHole(q + [f], at)
  {
    var q' := q + [f];
    assert q'[..|q|] == q;
    forall i | NoHole(q, at) && (f.FData? ==> f.off <= End(q, at)) && 0 <= i < |q'| && q'[i].FData?
      ensures q'[i].off <= End(q'[..i], at)
    {
      if i < |q| {
        assert q'[..i] == q[..i];
      }
    }
  }

  /** Consuming the head first or last leaves the receiver at the same place. */
  lemma {:induction false} EndTail(q: seq<Frame>, at: nat)
    requires q != []
    ensures End(q, at) == End(q[1..], End(q[..1], at))
    decreases |q|
  {
    var last := |q| - 1;
    if last == 0 {
      assert q[..1] == q;
    } else {
      EndTail(q[..last], at);
      assert q[..last][1..] == q[1..][..last - 1];
      assert q[..last][..1] == q[..1];
    }
  }

  lemma NoHoleTail(q: seq<Frame>, at: nat)
    requires q != [] && NoHole(q, at)
    ensures NoHole(q[1..], End(q[..1], at))
    ensures q[0].FData? ==> q[0].off <= at
  {
    var q' := q[1..];
    assert q[..0] == [];
    forall i | 0 <= i < |q'| && q'[i].FData?
      ensures q'[i].off <= End(q'[..i], End(q[..1], at))
    {
      EndTail(q[..i + 1], at);
      assert q[..i + 1][1..] == q'[..i];
      assert q[..i + 1][..1] == q[..1];
      assert q'[i] == q[i + 1];
    }
  }

  lemma EndOne(f: Frame, at: nat)
    ensures End([f], at) == (if f.FData? then Max(at, f.off + |f.bytes|) else at)
  {
    assert [f][..0] == [];
  }

  lemma {:induction false} EndAtLeast(q: seq<Frame>, at: nat)
    ensures at <= End(q, at)
    decreases |q|
  {
    if q != [] {
      EndAtLeast(q[..|q| - 1], at);
    }
  }

  // ---- the invariant ----

  ghost predicate FrameOk(from: Endpoint, f: Frame) {
    match f
    case FData(off, bytes) => Honest(from, off, bytes)
    case FAck(n) => n <= from.layer.recv
  }

  ghost predicate FramesOk(from: Endpoint, q: seq<Frame>) {
    forall f :: f in q ==> FrameOk(from, f)
  }

  /** The direction from `x` to `y`: nothing in flight, and nothing about to be sent, leaves a hole. */
  ghost predicate Flow(x: Half, y: Half) {
    && FramesOk(x.ep, y.inbox)
    && (y.up ==> NoHole(y.inbox, y.ep.layer.recv))
    && (y.up && x.up ==> x.ep.layer.cursor <= End(y.inbox, y.ep.layer.recv))
    && SenderOk(x)
    && !y.ep.inClosed
  }

  /** A sender past its check still has nothing to replay, and only overflow breaks a layer. */
  ghost predicate SenderOk(x: Half) {
    && (x.ep.hand != [] ==> x.looking)
    && (x.looking ==> x.up && x.ep.layer.cursor == x.ep.layer.send)
    && (x.ep.layer.broken <==> x.overflowed)
  }

  /** What a half-done handshake may rely on. */
  ghost predicate Shaking(s: System) {
    var c, v := s.client, s.server;
    && (forall r :: r in s.requests ==> r == c.ep.layer.recv)
    && (forall r :: r in s.responses ==> r == v.ep.layer.recv)
    && (s.responses != {} ==> v.inbox == [])
    && (c.up ==> s.requests == {} && s.responses == {} && !c.ready && !v.ready)
    && (c.ready ==> s.responses != {} && c.ep.layer.cursor == v.ep.layer.recv)
    && (v.ready ==> !v.up && v.ep.layer.cursor == c.ep.layer.recv)
    && (v.ready && !v.overflowed ==> v.ep.layer.acked == c.ep.layer.recv)
    && (forall r :: r in s.late ==> r <= c.ep.layer.recv)
  }

  ghost predicate Sound(s: System) {
    && Paired(s.client.ep, s.server.ep)
    && Flow(s.client, s.server)
    && Flow(s.server, s.client)
    && Shaking(s)
  }

  ghost predicate LegInv(s: System) {
    && s.InRange()
    && (s.fault == NoFault ==> Sound(s))
    && s.fault != GapFault && s.fault != BadAckFault
    && (s.fault.Refused? ==> s.At(s.fault.refuser).overflowed)
  }

  // ---- every event keeps it ----

  lemma FramesGrow(x: Endpoint, x': Endpoint, q: seq<Frame>)
    requires x.GrowsInto(x') && x'.Inv() && FramesOk(x, q)
    ensures FramesOk(x', q)
  {
    forall f | f in q ensures FrameOk(x', f) {
      assert FrameOk(x, f);
      if f.FData? {
        assert x'.written[f.off..f.off + |f.bytes|] == x.written[f.off..f.off + |f.bytes|];
      }
    }
  }

  /** What a running sender may become while it emits `f`. */
  ghost predicate Emits(x: Half, x': Half, f: Frame) {
    && x.ep.GrowsInto(x'.ep) && x'.ep.Inv() && FrameOk(x'.ep, f)
    && x.up && x' == x.(ep := x'.ep, looking := x'.looking, overflowed := x'.overflowed)
    && SenderOk(x')
    && x'.ep.layer.recv == x.ep.layer.recv && x'.ep.inClosed == x.ep.inClosed
    && (f.FData? ==> f.off == x.ep.layer.cursor && f.off + |f.bytes| == x'.ep.layer.cursor)
    && (f.FAck? ==> x'.ep.layer.cursor == x.ep.layer.cursor)
  }

  lemma EmitForward(x: Half, x': Half, y: Half, f: Frame)
    requires Flow(x, y) && Emits(x, x', f)
    ensures Flow(x', y.(inbox := y.inbox + [f]))
  {
    FramesGrow(x.ep, x'.ep, y.inbox);
    EndSnoc(y.inbox, f, y.ep.layer.recv);
  }

  lemma EmitBackward(x: Half, x': Half, y: Half, f: Frame)
    requires Flow(y, x) && Emits(x, x', f)
    ensures Flow(y.(inbox := y.inbox + [f]), x')
  {
  }

  lemma SendToSound(s: System, side: Side, me: Half, f: Frame)
    requires Sound(s) && Emits(s.At(side), me, f) && Paired(me.ep, s.At(side.Peer()).ep)
    ensures Sound(SendTo(s, side, me, f))
  {
    EmitForward(s.At(side), me, s.At(side.Peer()), f);
    EmitBackward(s.At(side), me, s.At(side.Peer()), f);
  }

  lemma SayEmits(x: Half, y: Endpoint, e: LegEvent)
    requires Paired(x.ep, y) && SenderOk(x) && e.OfSender() && Say(x, e).Some?
    ensures var (x', f) := Say(x, e).value;
            Emits(x, x', f) && Paired(x'.ep, y)
  {
    if e.NumberAndSend? {
      PairedNumber(x.ep, y);
      NumberInv(x.ep);
    } else if e.ResendFrom? {
      PairedSendReplay(x.ep, y, e.room);
      SendReplayInv(x.ep, e.room);
    } else {
      PairedLocal(x.ep, y, x.ep.layer.TakeAck().0);
    }
  }

  lemma SendInv(s: System, e: LegEvent)
    requires s.fault == NoFault && s.InRange() && Sound(s)
    requires e.OfSender()
    ensures Sound(Send(s, e)) && Send(s, e).fault == NoFault
  {
    var me, peer := s.At(e.side), s.At(e.side.Peer());
    PairedSym(s.client.ep, s.server.ep);
    hide Say;
    if Say(me, e).Some? {
      SayEmits(me, peer.ep, e);
      SendToSound(s, e.side, Say(me, e).value.0, Say(me, e).value.1);
    }
  }

  /** What a running receiver may become by consuming the head of its inbox. */
  ghost predicate Consumes(x: Half, y: Half, e: Endpoint) {
    && y.up && y.inbox != []
    && y.ep.GrowsInto(e) && e.Inv() && e.hand == y.ep.hand && e.inClosed == y.ep.inClosed
    && e.layer.broken == y.ep.layer.broken && e.layer.send == y.ep.layer.send
    && e.layer.cursor <= Max(y.ep.layer.cursor, x.ep.layer.recv)
    && y.ep.layer.cursor <= e.layer.cursor <= e.layer.send
  }

  /** Consuming the head of a running inbox: the receiver moves to where the head leaves it. */
  lemma ConsumeFlow(x: Half, y: Half, e: Endpoint)
    requires Flow(x, y) && Consumes(x, y, e)
    requires e.layer.recv == End(y.inbox[..1], y.ep.layer.recv)
    ensures Flow(x, y.(ep := e, inbox := y.inbox[1..]))
  {
    NoHoleTail(y.inbox, y.ep.layer.recv);
    EndTail(y.inbox, y.ep.layer.recv);
  }

  /** And what it sends itself still leaves no hole, even if an ack moved its cursor. */
  lemma ConsumeBackFlow(x: Half, y: Half, e: Endpoint)
    requires Flow(y, x) && Consumes(x, y, e)
    ensures Flow(y.(ep := e, inbox := y.inbox[1..]), x)
  {
    FramesGrow(y.ep, e, x.inbox);
    EndAtLeast(x.inbox, x.ep.layer.recv);
  }

  lemma ConsumeSound(s: System, side: Side, e: Endpoint)
    requires Sound(s) && Paired(e, s.At(side.Peer()).ep)
    requires var y := s.At(side);
             && y.up && y.inbox != [] && y.ep.GrowsInto(e)
             && Flow(s.At(side.Peer()), y.(ep := e, inbox := y.inbox[1..]))
             && Flow(y.(ep := e, inbox := y.inbox[1..]), s.At(side.Peer()))
             && (side.Server? ==> e.layer.recv == y.ep.layer.recv || s.responses == {})
    ensures Sound(s.Put(side, s.At(side).(ep := e, inbox := s.At(side).inbox[1..])))
  {
  }

  /** A frame that leaves no hole moves the receive offset to its end, and nothing else. */
  lemma ReceiveShape(y: Endpoint, off: nat, bytes: seq<Byte>)
    requires y.layer.Valid() && !y.inClosed && off <= y.layer.recv
    ensures var (e, res) := y.Receive(off, bytes);
            && res != Gap
            && e == y.(accepted := e.accepted, layer := y.layer.(recv := Max(y.layer.recv, off + |bytes|)))
  {
  }

  /** A frame that leaves no hole is consumed without complaint. */
  lemma ConsumeData(x: Half, y: Half)
    requires Paired(y.ep, x.ep) && Flow(x, y) && y.up && y.inbox != [] && y.inbox[0].FData?
    ensures var f := y.inbox[0];
            var (e, res) := y.ep.Receive(f.off, f.bytes);
            && res != Gap && Paired(e, x.ep) && Consumes(x, y, e)
            && Flow(x, y.(ep := e, inbox := y.inbox[1..]))
  {
    var f := y.inbox[0];
    assert FrameOk(x.ep, f);
    NoHoleTail(y.inbox, y.ep.layer.recv);
    assert y.inbox[..1] == [f];
    EndOne(f, y.ep.layer.recv);
    ReceiveShape(y.ep, f.off, f.bytes);
    PairedReceive(y.ep, x.ep, f.off, f.bytes);
    ConsumeFlow(x, y, y.ep.Receive(f.off, f.bytes).0);
  }

  /** So is an ack, hole or no hole. */
  lemma ConsumeAck(x: Half, y: Half)
    requires Paired(y.ep, x.ep) && FramesOk(x.ep, y.inbox) && y.up && y.inbox != [] && y.inbox[0].FAck?
    ensures var (e, ok) := y.ep.Ack(y.inbox[0].n);
            && ok && Paired(e, x.ep) && Consumes(x, y, e) && e.layer.recv == y.ep.layer.recv
            && (Flow(x, y) ==> Flow(x, y.(ep := e, inbox := y.inbox[1..])))
  {
    var f := y.inbox[0];
    assert FrameOk(x.ep, f);
    assert y.inbox[..1] == [f];
    EndOne(f, y.ep.layer.recv);
    PairedAck(y.ep, x.ep, f.n);
    if Flow(x, y) {
      ConsumeFlow(x, y, y.ep.Ack(f.n).0);
    }
  }

  lemma ReceiveInv(s: System, side: Side)
    requires s.fault == NoFault && s.InRange() && Sound(s)
    requires s.At(side).up && s.At(side).inbox != []
    ensures Sound(Receive(s, side)) && Receive(s, side).fault == NoFault
  {
    var y, x := s.At(side), s.At(side.Peer());
    assert FramesOk(x.ep, y.inbox);
    hide Flow;
    PairedSym(s.client.ep, s.server.ep);
    match y.inbox[0]
    case FData(off, bytes) =>
      ConsumeData(x, y);
      ConsumeBackFlow(x, y, y.ep.Receive(off, bytes).0);
      ConsumeSound(s, side, y.ep.Receive(off, bytes).0);
    case FAck(n) =>
      ConsumeAck(x, y);
      ConsumeBackFlow(x, y, y.ep.Ack(n).0);
      ConsumeSound(s, side, y.ep.Ack(n).0);
  }

  lemma ServeResumeInv(s: System, r: nat)
    requires s.fault == NoFault && s.InRange() && Sound(s)
    requires !s.server.up && r in s.requests
    ensures LegInv(Shake(s, ServeResume(r)))
  {
    PairedResume(s.server.ep, s.client.ep, r, true);
    var (x, ok) := s.server.ep.Resume(r, true);
    if ok {
      FramesGrow(s.server.ep, x, s.client.inbox);
    }
  }

  lemma AcceptResumeInv(s: System, r: nat)
    requires s.fault == NoFault && s.InRange() && Sound(s)
    requires !s.client.up && r in s.responses
    ensures LegInv(Shake(s, AcceptResume(r)))
  {
    PairedResume(s.client.ep, s.server.ep, r, false);
    var (x, ok) := s.client.ep.Resume(r, false);
    if ok {
      FramesGrow(s.client.ep, x, s.server.inbox);
    }
  }

  lemma LateResumeInv(s: System, r: nat)
    requires s.fault == NoFault && s.InRange() && Sound(s)
    requires !s.server.up && r in s.late
    ensures LegInv(Shake(s, LateResume(r)))
  {
    PairedResume(s.server.ep, s.client.ep, r, true);
    var (x, ok) := s.server.ep.Resume(r, true);
    if ok {
      FramesGrow(s.server.ep, x, s.client.inbox);
    }
  }

  lemma OpenedInv(s: System, side: Side)
    requires Sound(s)
    ensures Paired(Opened(s.At(side)).ep, s.At(side.Peer()).ep)
    ensures s.At(side).ep.GrowsInto(Opened(s.At(side)).ep) && Opened(s.At(side)).ep.Inv()
  {
    PairedLocal(s.At(side).ep, s.At(side.Peer()).ep, s.At(side).ep.layer.ResetAck());
  }

  lemma LostAttachInv(s: System)
    requires s.fault == NoFault && s.InRange() && Sound(s)
    requires !s.client.up && !s.server.up && s.server.ready
    ensures Sound(s.(server := Opened(s.server)))
  {
    OpenedInv(s, Server);
    FramesGrow(s.server.ep, Opened(s.server).ep, s.client.inbox);
  }

  lemma StartInv(s: System)
    requires s.fault == NoFault && s.InRange() && Sound(s)
    requires !s.client.up && !s.server.up && s.client.ready && s.server.ready
    ensures Sound(Shake(s, Start))
  {
    OpenedInv(s, Server);
    PairedSym(Opened(s.server).ep, s.client.ep);
    PairedLocal(s.client.ep, Opened(s.server).ep, s.client.ep.layer.ResetAck());
  }

  lemma ShakeInv(s: System, e: LegEvent)
    requires s.fault == NoFault && s.InRange() && Sound(s) && e.OfHandshake()
    ensures LegInv(Shake(s, e))
  {
    if e.ServeResume? {
      if !s.server.up && e.r in s.requests { ServeResumeInv(s, e.r); }
    } else if e.AcceptResume? {
      if !s.client.up && e.r in s.responses { AcceptResumeInv(s, e.r); }
    } else if e.LateResume? {
      if !s.server.up && e.r in s.late { LateResumeInv(s, e.r); }
    } else if e.LostAttach? {
      if !s.client.up && !s.server.up && s.server.ready { LostAttachInv(s); }
    } else if e.Start? {
      if !s.client.up && !s.server.up && s.client.ready && s.server.ready { StartInv(s); }
    }
  }

  /** A half changed without moving its cursor, its receive offset or its fate. */
  ghost predicate Quietly(h: Half, h': Half) {
    && h' == h.(ep := h'.ep, looking := h'.looking) && h.ep.GrowsInto(h'.ep) && SenderOk(h')
    && h'.ep.layer == h.ep.layer.(lastAck := h'.ep.layer.lastAck) && h'.ep.inClosed == h.ep.inClosed
  }

  lemma AloneQuietly(me: Half, peer: Endpoint, e: LegEvent, drained: bool)
    requires Paired(me.ep, peer) && SenderOk(me) && e.Alone()
    ensures Quietly(me, Alone(me, e, drained)) && Paired(Alone(me, e, drained).ep, peer)
  {
    assert me.ep.layer.Valid();
    hide Paired, Endpoint.Inv;
    if e.AppWrite? {
      PairedWrite(me.ep, peer, e.p);
    } else if e.TakeBytes? {
      if me.looking && me.ep.CanTake(e.n) { PairedTake(me.ep, peer, e.n); }
    } else if e.Rollover? {
      PairedLocal(me.ep, peer, me.ep.layer.ResetAck());
    }
  }

  lemma QuietSound(s: System, side: Side, h: Half)
    requires Sound(s) && Paired(h.ep, s.At(side.Peer()).ep) && Quietly(s.At(side), h)
    ensures Sound(s.Put(side, h))
  {
    FramesGrow(s.At(side).ep, h.ep, s.At(side.Peer()).inbox);
  }

  lemma StopInv(s: System, side: Side)
    requires s.fault == NoFault && s.InRange() && Sound(s) && s.At(side).up && !s.At(side).looking
    ensures Sound(s.Put(side, s.At(side).(up := false, inbox := [])))
  {
  }

  lemma OwnInv(s: System, e: LegEvent)
    requires s.fault == NoFault && s.InRange() && Sound(s) && !e.OfSender() && !e.OfHandshake()
    ensures Sound(Own(s, e)) && Own(s, e).fault == NoFault
  {
    var side, me, peer := e.side, s.At(e.side), s.At(e.side.Peer());
    assert SenderOk(me) && Paired(me.ep, peer.ep) by { PairedSym(me.ep, peer.ep); }
    hide Sound, Receive, Alone, Paired, Quietly;
    if e.Alone() {
      AloneQuietly(me, peer.ep, e, peer.inbox == []);
      QuietSound(s, side, Alone(me, e, peer.inbox == []));
    } else if e.Stop? {
      if me.up && !me.looking { StopInv(s, side); }
    } else {
      if me.up && me.inbox != [] { ReceiveInv(s, side); }
    }
  }

  lemma {:induction false} LegStepInv(s: System, e: LegEvent)
    requires LegInv(s)
    ensures LegInv(LegStep(s, e))
  {
    hide Sound, Own, Send, Shake;
    if s.fault == NoFault {
      if e.OfSender() {
        SendInv(s, e);
      } else if e.OfHandshake() {
        ShakeInv(s, e);
      } else {
        OwnInv(s, e);
      }
    }
  }

  lemma {:induction false} RunLegsInv(s: System, events: seq<LegEvent>)
    requires LegInv(s)
    ensures LegInv(RunLegs(s, events))
  {
    if events != [] {
      RunLegsInv(s, events[..|events| - 1]);
      LegStepInv(RunLegs(s, events[..|events| - 1]), events[|events| - 1]);
    }
  }

  /**
  No false break. Over legs that deliver in order, with every unclean leg change covered by a
  handshake that finishes before the next leg, no run reports a gap or an impossible ack, however
  acks move the cursor in the middle of a replay; a resume is refused only by a side whose own
  replay buffer overflowed, unless it is a request that arrives after a later one succeeded. If
  neither overflows and no such request is refused, nothing fails and both stay resumable.
  */
  lemma {:induction false} NoFalseBreak(clientMax: int, serverMax: int, events: seq<LegEvent>)
    ensures var s := RunLegs(InitLegs(clientMax, serverMax), events);
            && s.fault != GapFault && s.fault != BadAckFault
            && (s.fault.Refused? ==> s.At(s.fault.refuser).overflowed)
            && (!s.client.overflowed && !s.server.overflowed && s.fault != LateRefused
                ==> s.fault == NoFault && !s.client.ep.layer.broken && !s.server.ep.layer.broken)
  {
    RunLegsInv(InitLegs(clientMax, serverMax), events);
  }

  /**
  `nextOut` never numbers past bytes it still has to replay: from its check until it is back, acks
  and receipts in between notwithstanding, everything numbered has been sent.
  */
  lemma {:induction false} NumberingSkipsNothing(clientMax: int, serverMax: int, events: seq<LegEvent>, side: Side)
    ensures var s := RunLegs(InitLegs(clientMax, serverMax), events);
            s.fault == NoFault && (s.At(side).looking || s.At(side).ep.hand != [])
            ==> s.At(side).ep.layer.cursor == s.At(side).ep.layer.send && !s.At(side).ep.layer.HasPending()
  {
    RunLegsInv(InitLegs(clientMax, serverMax), events);
  }

  /**
  Nothing is left behind. In every reachable state without a fault, with both sides running, when
  the sender has nothing in its pipe, in hand or to replay and nothing is in flight, the receiver's
  application has everything its peer wrote, overflowed or not, whatever legs, acks, rollovers and
  handshakes led there.
  */
  lemma {:induction false} QuiescentDelivered(clientMax: int, serverMax: int, events: seq<LegEvent>, side: Side)
    ensures var s := RunLegs(InitLegs(clientMax, serverMax), events);
            var x, y := s.At(side), s.At(side.Peer());
            s.fault == NoFault && x.up && y.up && y.inbox == []
            && x.ep.pipe == [] && x.ep.hand == [] && !x.ep.layer.HasPending()
            ==> y.ep.accepted == x.ep.written
  {
    RunLegsInv(InitLegs(clientMax, serverMax), events);
    var x := RunLegs(InitLegs(clientMax, serverMax), events).At(side);
    assert x.ep.written[..|x.ep.written|] == x.ep.written;
  }

  /** One more event of a run under construction. */
  lemma Grow(s0: System, events: seq<LegEvent>, s: System, e: LegEvent)
    returns (events': seq<LegEvent>, s': System)
    requires s0.InRange() && RunLegs(s0, events) == s
    ensures events' == events + [e] && s' == LegStep(s, e) == RunLegs(s0, events')
  {
    events', s' := events + [e], LegStep(s, e);
    assert events'[..|events|] == events;
  }
}
