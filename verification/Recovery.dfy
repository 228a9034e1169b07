/**
Recoverability: from any reachable pair of unbroken endpoints, however much was lost, one resume
handshake followed by a loss-free leg delivers everything written so far.
*/
module Recovery {
  import opened Bytes
  import Layers
  import opened Endpoints
  import opened EndToEnd

  /** One `nextOut` with a buffer of `room` bytes whose frame reaches the peer. */
  function SendOne(s: State, side: Side, room: nat): seq<Event>
    requires s.InRange()
  {
    var x := s.At(side);
    if x.layer.HasPending() then
      var (_, off, data) := x.SendReplay(room);
      [SendReplay(side, room), Deliver(Data(side, off, data))]
    else if x.pipe != [] then
      var n := Min(room, |x.pipe|);
      [Take(side, n), Number(side), Deliver(Data(side, x.layer.send, x.pipe[..n]))]
    else []
  }

  /** The sender starts exactly where the receiver stands and no sender is mid-`nextOut`. */
  ghost predicate InStep(s: State, side: Side) {
    var x, y := s.At(side), s.At(side.Peer());
    x.hand == [] && !y.inClosed && x.layer.cursor == y.layer.recv
  }

  /** Everything a leg in one direction leaves alone. */
  ghost predicate SameOtherwise(s: State, s': State, side: Side) {
    var x, x', y, y' := s.At(side), s'.At(side), s.At(side.Peer()), s'.At(side.Peer());
    && x'.written == x.written && x'.hand == x.hand && x'.accepted == x.accepted
    && x'.layer.recv == x.layer.recv && x'.inClosed == x.inClosed
    && y' == y.(accepted := y'.accepted, layer := y.layer.(recv := y'.layer.recv))
  }

  lemma {:induction false} RunTwo(s: State, a: Event, b: Event)
    requires s.InRange()
    ensures Run(s, [a, b]) == Step(Step(s, a), b)
  {
    hide Step;
    RunThen(s, [], a);
    assert [] + [a] == [a] && [a] + [b] == [a, b];
    RunThen(s, [a], b);
  }

  lemma {:induction false} RunThree(s: State, a: Event, b: Event, c: Event)
    requires s.InRange()
    ensures Run(s, [a, b, c]) == Step(Step(Step(s, a), b), c)
  {
    hide Step;
    RunTwo(s, a, b);
    assert [a, b] + [c] == [a, b, c];
    RunThen(s, [a, b], c);
  }

  lemma {:induction false} RunConcat(s: State, a: seq<Event>, b: seq<Event>)
    requires s.InRange()
    ensures Run(s, a + b) == Run(Run(s, a), b)
  {
    if b == [] {
      assert a + b == a;
    } else {
      var b' := b[..|b| - 1];
      assert (a + b)[..|a + b| - 1] == a + b';
      RunConcat(s, a, b');
    }
  }

  /** Delivering a frame that starts where the receiver stands advances it by the whole frame. */
  lemma DeliverInStep(s: State, side: Side, off: nat, data: seq<Byte>)
    requires Inv(s) && Data(side, off, data) in s.net
    requires !s.At(side.Peer()).inClosed && off == s.At(side.Peer()).layer.recv
    ensures var s' := Step(s, Deliver(Data(side, off, data)));
            var y := s.At(side.Peer());
            && Inv(s')
            && s'.At(side) == s.At(side)
            && s'.At(side.Peer()) == y.(accepted := y.accepted + data,
                                        layer := y.layer.(recv := off + |data|))
  {
    hide Step;
    StepDeliver(s, Data(side, off, data));
    StepInv(s, Deliver(Data(side, off, data)));
    assert data[0..] == data;
    assert data == [] ==> s.At(side.Peer()).accepted + data == s.At(side.Peer()).accepted;
  }

  /** A sender moved past one frame, and the frame arrives: the two are in step again. */
  lemma FrameArrives(s: State, s1: State, side: Side, data: seq<Byte>)
    requires Inv(s1) && InStep(s, side) && SameOtherwise(s, s1, side) && s1.At(side.Peer()) == s.At(side.Peer())
    requires data != [] && s1.At(side).layer.cursor == s.At(side).layer.cursor + |data|
    requires Data(side, s.At(side).layer.cursor, data) in s1.net
    ensures var s' := Step(s1, Deliver(Data(side, s.At(side).layer.cursor, data)));
            && Inv(s') && InStep(s', side) && SameOtherwise(s, s', side)
            && s.At(side).layer.cursor < s'.At(side).layer.cursor
  {
    hide Step, Inv;
    DeliverInStep(s1, side, s.At(side).layer.cursor, data);
  }

  lemma SendOneReplay(s: State, side: Side, room: nat)
    requires Inv(s) && InStep(s, side) && room > 0
    requires s.At(side).layer.HasPending()
    ensures var s' := Run(s, SendOne(s, side, room));
            && Inv(s') && InStep(s', side) && SameOtherwise(s, s', side)
            && s.At(side).layer.cursor < s'.At(side).layer.cursor
  {
    hide Step, Run;
    var (x', off, data) := s.At(side).SendReplay(room);
    SendReplayInv(s.At(side), room);
    StepOf(s, SendReplay(side, room));
    StepInv(s, SendReplay(side, room));
    FrameArrives(s, Step(s, SendReplay(side, room)), side, data);
    RunTwo(s, SendReplay(side, room), Deliver(Data(side, off, data)));
  }

  /** Taking bytes from the pipe and numbering them puts them on the network as one frame. */
  lemma TakeNumber(s: State, side: Side, n: nat)
    requires Inv(s) && InStep(s, side) && 0 < n <= |s.At(side).pipe|
    ensures var x := s.At(side);
            var s' := Step(Step(s, Take(side, n)), Number(side));
            && Inv(s')
            && SameOtherwise(s, s', side) && s'.At(side.Peer()) == s.At(side.Peer())
            && s'.At(side).layer.cursor == x.layer.send + n
            && Data(side, x.layer.send, x.pipe[..n]) in s'.net
  {
    hide Step;
    StepOf(s, Take(side, n));
    StepInv(s, Take(side, n));
    NumberInv(s.At(side).Take(n));
    StepOf(Step(s, Take(side, n)), Number(side));
    StepInv(Step(s, Take(side, n)), Number(side));
  }

  lemma SendOneNew(s: State, side: Side, room: nat)
    requires Inv(s) && InStep(s, side) && room > 0
    requires !s.At(side).layer.HasPending() && s.At(side).pipe != []
    ensures var s' := Run(s, SendOne(s, side, room));
            && Inv(s') && InStep(s', side) && SameOtherwise(s, s', side)
            && s.At(side).layer.cursor < s'.At(side).layer.cursor
  {
    var x := s.At(side);
    var n := Min(room, |x.pipe|);
    assert s.InRange() && x.layer.cursor == x.layer.send;
    assert SendOne(s, side, room) == [Take(side, n), Number(side), Deliver(Data(side, x.layer.send, x.pipe[..n]))];
    hide Step, Run, Inv, InStep, SameOtherwise, SendOne, Endpoint.Take, Endpoint.Number;
    TakeNumber(s, side, n);
    FrameArrives(s, Step(Step(s, Take(side, n)), Number(side)), side, x.pipe[..n]);
    RunThree(s, Take(side, n), Number(side), Deliver(Data(side, x.layer.send, x.pipe[..n])));
  }

  lemma SendOneAdvances(s: State, side: Side, room: nat)
    requires Inv(s) && InStep(s, side) && room > 0
    requires s.At(side).layer.cursor < |s.At(side).written|
    ensures var s' := Run(s, SendOne(s, side, room));
            && Inv(s') && InStep(s', side) && SameOtherwise(s, s', side)
            && s.At(side).layer.cursor < s'.At(side).layer.cursor
    ensures |SendOne(s, side, room)| <= 3
  {
    if s.At(side).layer.HasPending() {
      SendOneReplay(s, side, room);
    } else {
      assert s.At(side).pipe != [];
      SendOneNew(s, side, room);
    }
  }

  ghost predicate Positive(size: nat -> nat) {
    forall k :: size(k) > 0
  }

  /** A leg: `nextOut` after `nextOut`, the k-th with a buffer of `size(k)` bytes, nothing lost. */
  ghost function Leg(s: State, side: Side, size: nat -> nat, k: nat): seq<Event>
    requires Inv(s) && InStep(s, side) && Positive(size)
    decreases |s.At(side).written| - s.At(side).layer.cursor
  {
    if s.At(side).layer.cursor == |s.At(side).written| then []
    else
      SendOneAdvances(s, side, size(k));
      var one := SendOne(s, side, size(k));
      one + Leg(Run(s, one), side, size, k + 1)
  }

  lemma {:induction false} LegDelivers(s: State, side: Side, size: nat -> nat, k: nat)
    requires Inv(s) && InStep(s, side) && Positive(size)
    ensures var s' := Run(s, Leg(s, side, size, k));
            && Inv(s') && SameOtherwise(s, s', side)
            && s'.At(side.Peer()).accepted == s.At(side).written
    ensures |Leg(s, side, size, k)| <= 3 * (|s.At(side).written| - s.At(side).layer.cursor)
    decreases |s.At(side).written| - s.At(side).layer.cursor
  {
    var x := s.At(side);
    if x.layer.cursor == |x.written| {
      assert x.written[..|x.written|] == x.written;
    } else {
      SendOneAdvances(s, side, size(k));
      var one := SendOne(s, side, size(k));
      LegDelivers(Run(s, one), side, size, k + 1);
      RunConcat(s, one, Leg(Run(s, one), side, size, k + 1));
    }
  }

  /** The exchange `ResumeHandler` and `resume` perform: each side tells the other what it has. */
  function Handshake(s: State): seq<Event> {
    [SayHello(Client), Deliver(Hello(Client, s.client.layer.recv))]
    + [SayHello(Server), Deliver(Hello(Server, s.server.layer.recv))]
  }

  /** An unbroken side accepts a fresh hello and starts over exactly where its peer stands. */
  lemma ResumeUnbroken(y: Endpoint, x: Endpoint, byServer: bool)
    requires Paired(y, x) && !y.layer.broken
    ensures var y' := y.Resume(x.layer.recv, byServer).0;
            && y' == y.(layer := y'.layer)
            && !y'.layer.broken && y'.layer.cursor == y'.layer.acked == x.layer.recv
            && y'.layer.recv == y.layer.recv && y'.layer.send == y.layer.send
  {
    PairedResume(y, x, x.layer.recv, byServer);
  }

  lemma ShakeOne(s: State, side: Side)
    requires Inv(s) && !s.At(side.Peer()).layer.broken
    ensures var r := s.At(side).layer.recv;
            var s' := Run(s, [SayHello(side), Deliver(Hello(side, r))]);
            var y, y' := s.At(side.Peer()), s'.At(side.Peer());
            && Inv(s')
            && s'.At(side) == s.At(side)
            && y' == y.(layer := y'.layer)
            && !y'.layer.broken && y'.layer.cursor == y'.layer.acked == r
            && y'.layer.recv == y.layer.recv && y'.layer.send == y.layer.send
  {
    hide Run, Step;
    var r := s.At(side).layer.recv;
    var s1 := Step(s, SayHello(side));
    StepOf(s, SayHello(side));
    StepInv(s, SayHello(side));
    PairedSym(s.client, s.server);
    ResumeUnbroken(s.At(side.Peer()), s.At(side), side.Client?);
    StepDeliver(s1, Hello(side, r));
    StepInv(s1, Deliver(Hello(side, r)));
    RunTwo(s, SayHello(side), Deliver(Hello(side, r)));
  }

  lemma HandshakeInStep(s: State)
    requires Inv(s) && !s.client.layer.broken && !s.server.layer.broken
    requires s.client.hand == s.server.hand == [] && !s.client.inClosed && !s.server.inClosed
    ensures var s' := Run(s, Handshake(s));
            && Inv(s') && InStep(s', Client) && InStep(s', Server)
            && !s'.client.layer.broken && !s'.server.layer.broken
            && s'.client.written == s.client.written && s'.server.written == s.server.written
  {
    ShakeOne(s, Client);
    var a := [SayHello(Client), Deliver(Hello(Client, s.client.layer.recv))];
    var b := [SayHello(Server), Deliver(Hello(Server, s.server.layer.recv))];
    ShakeOne(Run(s, a), Server);
    RunConcat(s, a, b);
  }

  /** The handshake and then a loss-free leg each way. */
  ghost function Recover(s: State, down: nat -> nat, up: nat -> nat): seq<Event>
    requires Inv(s) && !s.client.layer.broken && !s.server.layer.broken
    requires s.client.hand == s.server.hand == [] && !s.client.inClosed && !s.server.inClosed
    requires Positive(down) && Positive(up)
  {
    HandshakeInStep(s);
    var s1 := Run(s, Handshake(s));
    var leg1 := Leg(s1, Server, down, 0);
    LegDelivers(s1, Server, down, 0);
    Handshake(s) + leg1 + Leg(Run(s1, leg1), Client, up, 0)
  }

  /**
  Recoverability. From every reachable state with neither layer broken, no sender inside `nextOut`
  and both applications still reading, a handshake and a loss-free leg each way hand each
  application everything the other has written, in finitely many steps, for every choice of
  non-empty buffer sizes, whether or not the replay bound is passed on the way.
  */
  lemma {:induction false} Recoverability(clientMax: int, serverMax: int, events: seq<Event>,
                                          down: nat -> nat, up: nat -> nat)
    requires var s := Run(Init(clientMax, serverMax), events);
             && !s.client.layer.broken && !s.server.layer.broken
             && s.client.hand == s.server.hand == [] && !s.client.inClosed && !s.server.inClosed
    requires Positive(down) && Positive(up)
    ensures var s := Run(Init(clientMax, serverMax), events);
            && Inv(s)
            && var s' := Run(s, Recover(s, down, up));
            && s'.client.accepted == s'.server.written == s.server.written
            && s'.server.accepted == s'.client.written == s.client.written
            && |Recover(s, down, up)|
               <= 4 + 3 * (|s.server.written| - s.client.layer.recv)
                    + 3 * (|s.client.written| - s.server.layer.recv)
  {
    RunInv(Init(clientMax, serverMax), events);
    var s := Run(Init(clientMax, serverMax), events);
    HandshakeInStep(s);
    var s1 := Run(s, Handshake(s));
    var leg1 := Leg(s1, Server, down, 0);
    LegDelivers(s1, Server, down, 0);
    var s2 := Run(s1, leg1);
    var leg2 := Leg(s2, Client, up, 0);
    LegDelivers(s2, Client, up, 0);
    RunConcat(s, Handshake(s), leg1);
    RunConcat(s, Handshake(s) + leg1, leg2);
    RecvAfterHandshake(s);
  }

  lemma {:induction false} RecvAfterHandshake(s: State)
    requires Inv(s) && !s.client.layer.broken && !s.server.layer.broken
    ensures var s' := Run(s, Handshake(s));
            s'.client.layer.recv == s.client.layer.recv && s'.server.layer.recv == s.server.layer.recv
  {
    ShakeOne(s, Client);
    var a := [SayHello(Client), Deliver(Hello(Client, s.client.layer.recv))];
    ShakeOne(Run(s, a), Server);
    RunConcat(s, a, [SayHello(Server), Deliver(Hello(Server, s.server.layer.recv))]);
  }

  // ---- acks and closed readers ----

  lemma AckedBy(y: Endpoint, x: Endpoint)
    requires Paired(y, x) && !y.layer.broken
    ensures var y' := Hear(y, Ack(Client, x.layer.recv));
            && !y'.layer.broken && y'.layer.acked == x.layer.recv <= y.layer.send <= |y.written|
            && y'.layer.replay == y.written[x.layer.recv..y.layer.send]
    ensures Hear(y, Ack(Client, x.layer.recv)) == Hear(y, Ack(Server, x.layer.recv))
  {
    Layers.AckRepresents(y.layer, y.written[..y.layer.send], x.layer.recv);
    assert y.written[..y.layer.send][x.layer.recv..] == y.written[x.layer.recv..y.layer.send];
  }

  /**
  An ack that arrives releases. Reported on a batch request, or given by a leg that has just opened,
  what a side has received is what its peer, if unbroken, knows it has when the message is heard,
  and the peer then retains exactly the rest.
  */
  lemma {:induction false} AcksRelease(s: State, side: Side)
    requires Inv(s) && !s.At(side.Peer()).layer.broken
    ensures var r := s.At(side).layer.recv;
            Released(Run(s, [ReportRecv(side), Deliver(Ack(side, r))]), side, r)
            && (r > 0 ==> Released(Run(Step(s, ResetAck(side)), [TakeAck(side), Deliver(Ack(side, r))]), side, r))
  {
    var r := s.At(side).layer.recv;
    GivesAck(s, side, ReportRecv(side));
    StepOf(s, ResetAck(side));
    StepInv(s, ResetAck(side));
    hide Step, Run, Released, Inv;
    if r > 0 {
      GivesAck(Step(s, ResetAck(side)), side, TakeAck(side));
    }
  }

  /** The peer of `side` has heard that it has `r` bytes. */
  ghost predicate Released(s: State, side: Side, r: nat) {
    var y := s.At(side.Peer());
    !y.layer.broken && y.layer.acked == r <= y.layer.send <= |y.written| && y.layer.replay == y.written[r..y.layer.send]
  }

  lemma GivesAck(s: State, side: Side, e: Event)
    requires Inv(s) && !s.At(side.Peer()).layer.broken
    requires e == ReportRecv(side) || (e == TakeAck(side) && s.At(side).layer.lastAck != s.At(side).layer.recv)
    ensures var r := s.At(side).layer.recv;
            s.InRange() && Released(Run(s, [e, Deliver(Ack(side, r))]), side, r)
  {
    var r := s.At(side).layer.recv;
    InvRange(s);
    ActAcks(s.At(side), side, e);
    hide Act, Released, Run;
    StepOf(s, e);
    StepInv(s, e);
    var s1 := Step(s, e);
    InvRange(s1);
    hide Step, Inv, Paired;
    StepDeliver(s1, Ack(side, r));
    AckedBy(s1.At(side.Peer()), s1.At(side));
    RunTwo(s, e, Deliver(Ack(side, r)));
    HeardIsReleased(Step(s1, Deliver(Ack(side, r))), s1.At(side.Peer()), side, r);
  }

  lemma InvRange(s: State)
    requires Inv(s)
    ensures s.InRange() && Paired(s.client, s.server) && Paired(s.server, s.client)
  {
    PairedSym(s.client, s.server);
  }

  lemma ActAcks(x: Endpoint, side: Side, e: Event)
    requires x.layer.Valid()
    requires e == ReportRecv(side) || (e == TakeAck(side) && x.layer.lastAck != x.layer.recv)
    ensures Act(x, e).1 == Some(Ack(side, x.layer.recv)) && Act(x, e).0.layer.recv == x.layer.recv
  {
  }

  lemma HeardIsReleased(s: State, y: Endpoint, side: Side, r: nat)
    requires y.layer.Valid() && s.At(side.Peer()) == Hear(y, Ack(side, r))
    requires var y' := Hear(y, Ack(side, r));
             && !y'.layer.broken && y'.layer.acked == r <= y.layer.send <= |y.written|
             && y'.layer.replay == y.written[r..y.layer.send]
    ensures Released(s, side, r)
  {
  }

  lemma ClosedStep(s: State, e: Event, side: Side)
    requires s.InRange() && s.At(side).inClosed
    ensures var x' := Step(s, e).At(side);
            x'.inClosed && x'.accepted == s.At(side).accepted && x'.layer.recv == s.At(side).layer.recv
  {
    assert s.At(side).accepted + [] == s.At(side).accepted;
    hide Step;
    if !e.Deliver? {
      StepOf(s, e);
    } else if e.m in s.net {
      StepDeliver(s, e.m);
    } else {
      StepUnsent(s, e.m);
    }
  }

  /** An application that stops reading is handed nothing more, over any run. */
  lemma {:induction false} ClosedHearsNothing(s: State, events: seq<Event>, side: Side)
    requires s.InRange()
    ensures var s1 := Step(s, CloseIn(side));
            var x' := Run(s1, events).At(side);
            x'.accepted == s.At(side).accepted && x'.layer.recv == s.At(side).layer.recv && x'.inClosed
  {
    if events == [] {
      StepOf(s, CloseIn(side));
    } else {
      hide Step;
      ClosedHearsNothing(s, events[..|events| - 1], side);
      ClosedStep(Run(Step(s, CloseIn(side)), events[..|events| - 1]), events[|events| - 1], side);
    }
  }
}
