/**
A leg cut where its reader cannot tell it from a clean end: at a frame boundary, or after a frame's
header and before its first payload byte, `doStreamPoll` sees `io.EOF` and opens the next poll with
no handshake. Whatever the old leg still carried is lost, and its sender goes on from its cursor.
*/
module Cuts {
  import opened Bytes
  import opened Endpoints
  import opened Legs
  import LateResumes

  /** Both sides run and the leg towards `side` can end: its sender is not inside `nextOut`. */
  predicate CanCut(s: System, side: Side) {
    s.fault == NoFault && s.At(side).up && s.At(side.Peer()).up && !s.At(side.Peer()).looking
  }

  /** The leg towards `side` is cut and taken for finished; the next one opens with `resetAck`. */
  function Cut(s: System, side: Side): (r: System)
    requires s.InRange()
    ensures r.InRange()
  {
    var x, y := s.At(side.Peer()), s.At(side);
    s.Put(side, y.(inbox := [])).Put(side.Peer(), x.(ep := x.ep.(layer := x.ep.layer.ResetAck())))
  }

  /** The guard: the sender stands past what the receiver has once nothing is in flight any more. */
  predicate Loses(s: System, side: Side) {
    s.At(side.Peer()).ep.layer.cursor > s.At(side).ep.layer.recv
  }

  /**
  Everything in flight to `y`, and everything `x` will send if it still runs, starts past `y`; the
  way back is sound.
  */
  ghost predicate Gapped(x: Half, y: Half) {
    && y.up && Paired(x.ep, y.ep) && Flow(y, x)
    && FramesOk(x.ep, y.inbox) && SenderOk(x) && !y.ep.inClosed
    && (x.up ==> x.ep.layer.cursor > y.ep.layer.recv) && Past(y.inbox, y.ep.layer.recv)
  }

  /** No fault and no handshake half done; what was asked is what the client has. */
  ghost predicate NoHandshake(s: System) {
    && s.fault == NoFault && s.responses == {} && !s.client.ready && !s.server.ready
    && (s.client.up ==> s.requests == {})
    && (forall r :: r in s.requests ==> r == s.client.ep.layer.recv)
    && (forall r :: r in s.late ==> r <= s.client.ep.layer.recv)
  }

  ghost predicate Holed(s: System, side: Side) {
    Gapped(s.At(side.Peer()), s.At(side)) && NoHandshake(s)
  }

  ghost predicate Past(q: seq<Frame>, at: nat) {
    forall f :: f in q && f.FData? ==> f.off > at
  }

  /** The step at which the receiver meets a data frame. */
  predicate MeetsData(s: System, side: Side, e: LegEvent) {
    s.fault == NoFault && e == ReceiveFrame(side) && s.At(side).inbox != [] && s.At(side).inbox[0].FData?
  }

  lemma CutPaired(s: System, side: Side)
    requires s.InRange() && Sound(s)
    ensures Paired(Cut(s, side).client.ep, Cut(s, side).server.ep)
    ensures Paired(Cut(s, side).server.ep, Cut(s, side).client.ep)
  {
    var x, y := s.At(side.Peer()), s.At(side);
    assert Paired(s.client.ep, s.server.ep);
    hide Sound, Paired;
    PairedSym(x.ep, y.ep);
    PairedLocal(x.ep, y.ep, x.ep.layer.ResetAck());
    PairedSym(x.ep.(layer := x.ep.layer.ResetAck()), y.ep);
  }

  lemma CutSound(s: System, side: Side)
    requires s.InRange() && Sound(s) && CanCut(s, side) && !Loses(s, side)
    ensures Sound(Cut(s, side))
  {
    CutPaired(s, side);
    hide Paired;
  }

  lemma CutHoles(s: System, side: Side)
    requires s.InRange() && Sound(s) && CanCut(s, side) && Loses(s, side)
    ensures Holed(Cut(s, side), side)
  {
    CutPaired(s, side);
    CutGaps(s.At(side.Peer()), s.At(side));
    hide Paired, Gapped, Flow;
  }

  lemma CutGaps(x: Half, y: Half)
    requires x.ep.layer.Valid() && Flow(x, y) && Flow(y, x) && x.up && y.up && x.ep.layer.cursor > y.ep.layer.recv
    requires Paired(x.ep.(layer := x.ep.layer.ResetAck()), y.ep)
    ensures Gapped(x.(ep := x.ep.(layer := x.ep.layer.ResetAck())), y.(inbox := []))
  {
    hide Paired;
  }

  // ---- what the two halves may do ----

  lemma SenderSays(x: Half, x': Half, y: Half, f: Frame)
    requires Gapped(x, y) && Emits(x, x', f) && Paired(x'.ep, y.ep)
    ensures Gapped(x', y.(inbox := y.inbox + [f]))
  {
    EmitBackward(x, x', y, f);
    FramesGrow(x.ep, x'.ep, y.inbox);
    hide Paired, Flow;
  }

  lemma ReceiverSays(x: Half, y: Half, y': Half, f: Frame)
    requires Gapped(x, y) && Emits(y, y', f) && Paired(y'.ep, x.ep)
    ensures Gapped(x.(inbox := x.inbox + [f]), y')
  {
    EmitForward(y, y', x, f);
    PairedSym(x.ep, y'.ep);
    hide Paired, Flow;
  }

  lemma SenderConsumes(x: Half, y: Half, e: Endpoint)
    requires Gapped(x, y) && Consumes(y, x, e) && Paired(e, y.ep)
    requires Flow(y, x.(ep := e, inbox := x.inbox[1..]))
    ensures Gapped(x.(ep := e, inbox := x.inbox[1..]), y)
  {
    FramesGrow(x.ep, e, y.inbox);
    hide Paired, Flow;
  }

  lemma ReceiverAcked(x: Half, y: Half)
    requires Gapped(x, y) && y.inbox != [] && y.inbox[0].FAck?
    ensures var (e, ok) := y.ep.Ack(y.inbox[0].n);
            ok && Gapped(x, y.(ep := e, inbox := y.inbox[1..])) && e.layer.recv == y.ep.layer.recv
  {
    PairedSym(x.ep, y.ep);
    ConsumeAck(x, y);
    var e := y.ep.Ack(y.inbox[0].n).0;
    ConsumeBackFlow(x, y, e);
    PairedSym(x.ep, e);
    hide Paired, Flow;
  }

  lemma SenderQuiet(x: Half, x': Half, y: Half)
    requires Gapped(x, y) && Quietly(x, x') && Paired(x'.ep, y.ep)
    ensures Gapped(x', y)
  {
    FramesGrow(x.ep, x'.ep, y.inbox);
  }

  lemma ReceiverQuiet(x: Half, y: Half, y': Half)
    requires Gapped(x, y) && Quietly(y, y') && Paired(y'.ep, x.ep)
    ensures Gapped(x, y')
  {
    PairedSym(x.ep, y'.ep);
    FramesGrow(y.ep, y'.ep, x.inbox);
  }

  // ---- the same of the system ----

  /** Changing the halves in the middle of no handshake; a client that stands still has received nothing. */
  lemma StillNoHandshake(s: System, s': System)
    requires NoHandshake(s) && s' == s.(client := s'.client, server := s'.server)
    requires !s'.client.ready && !s'.server.ready && (s'.client.up ==> s.client.up)
    requires s.client.ep.layer.recv <= s'.client.ep.layer.recv
    requires s.client.up || s.client.ep.layer.recv == s'.client.ep.layer.recv
    ensures NoHandshake(s')
  {
  }

  lemma HoledFacts(s: System, side: Side, who: Side)
    requires Holed(s, side)
    ensures s.InRange() && s.fault == NoFault && s.At(side).up && !s.client.ready && !s.server.ready
    ensures SenderOk(s.At(who)) && Paired(s.At(who).ep, s.At(who.Peer()).ep)
  {
    PairedSym(s.client.ep, s.server.ep);
  }

  /** The hole stays, and the sender runs if it ran. */
  ghost predicate StaysHoled(s: System, s': System, side: Side) {
    Holed(s', side) && s'.At(side.Peer()).up == s.At(side.Peer()).up
  }

  lemma SenderSpeaks(s: System, side: Side, x': Half, f: Frame)
    requires Holed(s, side) && Emits(s.At(side.Peer()), x', f) && Paired(x'.ep, s.At(side).ep)
    ensures StaysHoled(s, SendTo(s, side.Peer(), x', f), side)
  {
    SenderSays(s.At(side.Peer()), x', s.At(side), f);
    hide Gapped, Paired, SenderOk, Endpoint.Inv, FrameOk;
    StillNoHandshake(s, SendTo(s, side.Peer(), x', f));
  }

  lemma ReceiverSpeaks(s: System, side: Side, y': Half, f: Frame)
    requires Holed(s, side) && Emits(s.At(side), y', f) && Paired(y'.ep, s.At(side.Peer()).ep)
    ensures StaysHoled(s, SendTo(s, side, y', f), side)
  {
    ReceiverSays(s.At(side.Peer()), s.At(side), y', f);
    hide Gapped, Paired, SenderOk, Endpoint.Inv, FrameOk;
    StillNoHandshake(s, SendTo(s, side, y', f));
  }

  lemma Speaks(s: System, side: Side, e: LegEvent)
    requires Holed(s, side) && e.OfSender()
    ensures s.InRange() && StaysHoled(s, Send(s, e), side)
  {
    HoledFacts(s, side, e.side);
    assert StaysHoled(s, s, side);
    var said := Say(s.At(e.side), e);
    if said.Some? {
      SayEmits(s.At(e.side), s.At(e.side.Peer()).ep, e);
    }
    hide *;
    SendIs(s, e);
    if said.Some? {
      if e.side == side {
        ReceiverSpeaks(s, side, said.value.0, said.value.1);
      } else {
        Peers(e.side, side);
        SenderSpeaks(s, side, said.value.0, said.value.1);
      }
    }
  }

  lemma SendIs(s: System, e: LegEvent)
    requires s.InRange() && e.OfSender()
    ensures var said := Say(s.At(e.side), e);
            Send(s, e) == if said.None? then s else SendTo(s, e.side, said.value.0, said.value.1)
  {
    hide Say;
  }

  lemma Peers(a: Side, b: Side)
    ensures a != b ==> a == b.Peer() && b == a.Peer()
  {
  }

  lemma SenderHears(s: System, side: Side)
    requires Holed(s, side) && s.At(side.Peer()).up && s.At(side.Peer()).inbox != []
    ensures Holed(Receive(s, side.Peer()), side)
  {
    var x, y := s.At(side.Peer()), s.At(side);
    var f := x.inbox[0];
    if f.FData? {
      ConsumeData(y, x);
      SenderConsumes(x, y, x.ep.Receive(f.off, f.bytes).0);
    } else {
      ConsumeAck(y, x);
      SenderConsumes(x, y, x.ep.Ack(f.n).0);
    }
    hide Gapped;
  }

  lemma ReceiverHears(s: System, side: Side)
    requires Holed(s, side) && s.At(side).inbox != []
    ensures if s.At(side).inbox[0].FData? then Receive(s, side).fault == GapFault else Holed(Receive(s, side), side)
  {
    var x, y := s.At(side.Peer()), s.At(side);
    assert y.inbox[0] in y.inbox;
    if y.inbox[0].FAck? {
      ReceiverAcked(x, y);
      hide Gapped;
    }
  }

  lemma QuietHoled(s: System, side: Side, who: Side, h: Half)
    requires Holed(s, side) && Paired(h.ep, s.At(who.Peer()).ep) && Quietly(s.At(who), h)
    ensures StaysHoled(s, s.Put(who, h), side)
  {
    hide Paired, Gapped;
    if who == side {
      ReceiverQuiet(s.At(who.Peer()), s.At(who), h);
    } else {
      SenderQuiet(s.At(who), h, s.At(who.Peer()));
    }
  }

  lemma OwnHoled(s: System, side: Side, e: LegEvent)
    requires Holed(s, side) && e.Alone()
    ensures s.InRange() && StaysHoled(s, Own(s, e), side)
  {
    var me, peer := s.At(e.side), s.At(e.side.Peer());
    HoledFacts(s, side, e.side);
    hide Holed, StaysHoled, Alone, Paired, SenderOk, Quietly;
    AloneQuietly(me, peer.ep, e, peer.inbox == []);
    QuietHoled(s, side, e.side, Alone(me, e, peer.inbox == []));
  }

  /** The sender's handlers leave; what it sent is still on its way. */
  lemma SenderStops(s: System, side: Side)
    requires Holed(s, side)
    ensures s.InRange() && HoledNext(s, side, Stop(side.Peer()), Own(s, Stop(side.Peer())))
  {
    assert s.InRange();
    hide Paired;
  }

  /** While the receiver runs no handshake starts; only a late request may find the server alone. */
  lemma HandshakeHoled(s: System, side: Side, e: LegEvent)
    requires Holed(s, side) && e.OfHandshake()
    ensures s.InRange() && HoledNext(s, side, e, Shake(s, e))
  {
    if e.LateResume? && !s.server.up && e.r in s.late {
      PairedResume(s.server.ep, s.client.ep, e.r, true);
    }
  }

  /**
  Until the receiver stops, the hole stays and the first data frame met is a gap; the one other
  thing that can end the session is a late resume request, once the sender has stopped.
  */
  lemma {:induction false} HoledStep(s: System, side: Side, e: LegEvent)
    requires Holed(s, side) && e != Stop(side)
    ensures s.InRange() && HoledNext(s, side, e, LegStep(s, e))
  {
    HoledFacts(s, side, side);
    OneOf(e);
    assert LegStep(s, e) == if e.OfSender() then Send(s, e) else if e.OfHandshake() then Shake(s, e) else Own(s, e);
    assert e.Stop? ==> e == Stop(side.Peer());
    hide *;
    if e.OfSender() {
      Speaks(s, side, e);
      NextIfStays(s, side, e, Send(s, e));
    } else if e.OfHandshake() {
      HandshakeHoled(s, side, e);
    } else if e.ReceiveFrame? {
      HearStep(s, side, e);
    } else if e.Stop? {
      SenderStops(s, side);
    } else {
      OwnHoled(s, side, e);
      NextIfStays(s, side, e, Own(s, e));
    }
  }

  ghost predicate HoledNext(s: System, side: Side, e: LegEvent, s': System) {
    if MeetsData(s, side, e) then s'.fault == GapFault
    else
      && (Holed(s', side) || (s'.fault == LateRefused && !s.At(side.Peer()).up))
      && (s.At(side.Peer()).up && e != Stop(side.Peer()) ==> s'.At(side.Peer()).up)
  }

  lemma NextIfStays(s: System, side: Side, e: LegEvent, s': System)
    requires StaysHoled(s, s', side) && !e.ReceiveFrame?
    ensures HoledNext(s, side, e, s')
  {
    hide Holed;
  }

  lemma OneOf(e: LegEvent)
    ensures e.OfSender() || e.OfHandshake() || e.ReceiveFrame? || e.Stop? || e.Alone()
    ensures e.OfSender() || e.OfHandshake() || e.Alone() ==> !e.ReceiveFrame? && !e.Stop?
  {
  }

  lemma HearStep(s: System, side: Side, e: LegEvent)
    requires Holed(s, side) && e.ReceiveFrame?
    ensures s.InRange() && HoledNext(s, side, e, Own(s, e))
  {
    if s.At(e.side).up && s.At(e.side).inbox != [] {
      if e.side == side {
        ReceiverHears(s, side);
      } else {
        SenderHears(s, side);
      }
    }
  }

  /** A receiver that stops before it meets a data frame forgets the hole: a handshake follows. */
  lemma StopHeals(s: System, side: Side)
    requires Holed(s, side) && !s.At(side).looking
    ensures Sound(LegStep(s, Stop(side)))
  {
    PairedSym(s.client.ep, s.server.ep);
  }

  ghost predicate Met(s: System, side: Side, more: seq<LegEvent>)
    requires s.InRange()
  {
    exists i: nat :: MetAt(s, side, more, i)
  }

  predicate MetAt(s: System, side: Side, more: seq<LegEvent>, i: nat)
    requires s.InRange()
  {
    i < |more| && MeetsData(RunLegs(s, more[..i]), side, more[i])
  }

  lemma MetAtEarlier(s: System, side: Side, more: seq<LegEvent>, i: nat)
    requires s.InRange() && i < |more| - 1
    ensures MetAt(s, side, more, i) <==> MetAt(s, side, more[..|more| - 1], i)
  {
    hide RunLegs, MeetsData;
    assert more[..|more| - 1][..i] == more[..i];
  }

  lemma MetSplits(s: System, side: Side, more: seq<LegEvent>)
    requires s.InRange() && more != []
    ensures var n := |more| - 1;
            Met(s, side, more) <==> Met(s, side, more[..n]) || MeetsData(RunLegs(s, more[..n]), side, more[n])
  {
    var n := |more| - 1;
    assert MetAt(s, side, more, n) <==> MeetsData(RunLegs(s, more[..n]), side, more[n]);
    assert forall i: nat :: MetAt(s, side, more, i) ==> i <= n;
    assert forall i: nat :: MetAt(s, side, more[..n], i) ==> i < n;
    hide MetAt, MeetsData, RunLegs;
    forall i: nat | i < n ensures MetAt(s, side, more, i) <==> MetAt(s, side, more[..n], i) {
      MetAtEarlier(s, side, more, i);
    }
    if Met(s, side, more) {
      var i: nat :| MetAt(s, side, more, i);
    }
    if Met(s, side, more[..n]) {
      var i: nat :| MetAt(s, side, more[..n], i);
      assert MetAt(s, side, more, i);
    }
  }

  lemma FaultStays(s: System, e: LegEvent)
    requires s.InRange() && s.fault != NoFault
    ensures LegStep(s, e) == s
  {
  }

  lemma {:induction false} HoledRun(s: System, side: Side, more: seq<LegEvent>)
    requires s.InRange() && Holed(s, side) && Stop(side) !in more
    ensures var t := RunLegs(s, more);
            && (t.fault == GapFault <==> Met(s, side, more))
            && (t.fault == GapFault || t.fault == LateRefused || Holed(t, side))
            && (s.At(side.Peer()).up && Stop(side.Peer()) !in more && t.fault != GapFault
                ==> Holed(t, side) && t.At(side.Peer()).up)
  {
    if more == [] {
      assert !Met(s, side, more);
    } else {
      var shorter, e := more[..|more| - 1], more[|more| - 1];
      var t := RunLegs(s, shorter);
      assert RunLegs(s, more) == LegStep(t, e);
      assert e in more && forall x <- shorter :: x in more;
      assert MeetsData(t, side, e) ==> t.fault == NoFault;
      hide LegStep, RunLegs, Holed, MeetsData, Met;
      HoledRun(s, side, shorter);
      MetSplits(s, side, more);
      if t.fault != NoFault {
        FaultStays(t, e);
        if Holed(t, side) { HoledFacts(t, side, side); }
      } else {
        HoledStep(t, side, e);
        if Holed(LegStep(t, e), side) { HoledFacts(LegStep(t, e), side, side); }
      }
    }
  }

  /**
  Exactly when a cut taken for a clean end ends the session. If the receiver has everything the
  sender has sent, nothing does: whatever follows, no run reports a gap or an impossible ack. If
  not, as long as the receiver does not stop there is a gap if and only if it meets another data
  frame, whether or not the sender stops; the only other fault is a late resume request, and only
  after the sender stopped. If the receiver stops before it meets one, the handshake that follows
  repairs the hole and again no run reports a gap.
  */
  lemma {:induction false} CutExactly(clientMax: int, serverMax: int, events: seq<LegEvent>, side: Side,
                                      more: seq<LegEvent>, rest: seq<LegEvent>)
    requires CanCut(RunLegs(InitLegs(clientMax, serverMax), events), side)
    requires Stop(side) !in more
    ensures var s := RunLegs(InitLegs(clientMax, serverMax), events);
            var t := RunLegs(Cut(s, side), more);
            if !Loses(s, side) then NoFalseFault(RunLegs(Cut(s, side), rest))
            else
              && t.fault in {NoFault, GapFault, LateRefused}
              && (t.fault == GapFault <==> Met(Cut(s, side), side, more))
              && (t.fault == LateRefused ==> Stop(side.Peer()) in more)
              && (t.fault == NoFault && !t.At(side).looking ==> NoFalseFault(RunLegs(LegStep(t, Stop(side)), rest)))
  {
    var s := RunLegs(InitLegs(clientMax, serverMax), events);
    RunLegsInv(InitLegs(clientMax, serverMax), events);
    hide RunLegs, LegStep, Met;
    if !Loses(s, side) {
      CutSound(s, side);
      RunLegsInv(Cut(s, side), rest);
    } else {
      CutHoles(s, side);
      HoledRun(Cut(s, side), side, more);
      var t := RunLegs(Cut(s, side), more);
      if t.fault == NoFault && !t.At(side).looking {
        StopHeals(t, side);
        StopFault(t, side);
        RunLegsInv(LegStep(t, Stop(side)), rest);
      }
    }
  }

  // ---- and it does end it ----

  /** A cut leg with nothing in flight and a sender about to call `nextOut`. */
  ghost predicate Silent(s: System, side: Side) {
    var x := s.At(side.Peer());
    Holed(s, side) && s.At(side).inbox == [] && x.up && !x.looking && x.ep.hand == []
  }

  lemma CutIsSilent(s: System, side: Side)
    requires s.InRange() && Sound(s) && CanCut(s, side) && Loses(s, side)
    ensures Silent(Cut(s, side), side)
  {
    CutHoles(s, side);
    hide Holed, Paired;
  }

  /** What a step of one side does to the two halves. */
  lemma AloneStep(s: System, e: LegEvent)
    requires s.InRange() && s.fault == NoFault && e.Alone()
    ensures var s' := LegStep(s, e);
            && s'.At(e.side) == Alone(s.At(e.side), e, s.At(e.side.Peer()).inbox == [])
            && s'.At(e.side.Peer()) == s.At(e.side.Peer())
  {
    hide Alone, Send, Shake, Receive;
  }

  lemma SayStep(s: System, e: LegEvent)
    requires s.InRange() && s.fault == NoFault && e.OfSender() && Say(s.At(e.side), e).Some?
    ensures var s' := LegStep(s, e);
            var (me, f) := Say(s.At(e.side), e).value;
            && s'.fault == NoFault && s'.At(e.side) == me
            && s'.At(e.side.Peer()) == s.At(e.side.Peer()).(inbox := s.At(e.side.Peer()).inbox + [f])
  {
    hide Say, Shake, Own;
  }

  lemma SaysData(x: Half, side: Side)
    requires x.ep.layer.Valid() && x.up
    ensures x.ep.hand != [] ==> var said := Say(x, NumberAndSend(side)); said.Some? && said.value.1.FData?
    ensures !x.looking && x.ep.layer.HasPending() ==>
              var said := Say(x, ResendFrom(side, 1)); said.Some? && said.value.1.FData?
  {
  }

  lemma ResendIsHeard(s: System, side: Side)
    requires Silent(s, side) && s.At(side.Peer()).ep.layer.HasPending()
    ensures s.InRange()
    ensures var s' := LegStep(s, ResendFrom(side.Peer(), 1));
            Holed(s', side) && MeetsData(s', side, ReceiveFrame(side))
  {
    HoledFacts(s, side, side.Peer());
    SaysData(s.At(side.Peer()), side.Peer());
    hide LegStep, Say, Holed, Paired, Endpoint.GrowsInto;
    HoledStep(s, side, ResendFrom(side.Peer(), 1));
    SayStep(s, ResendFrom(side.Peer(), 1));
  }

  lemma WriteStaysSilent(s: System, side: Side, p: seq<Byte>)
    requires Silent(s, side)
    ensures s.InRange()
    ensures var s' := LegStep(s, AppWrite(side.Peer(), p));
            && Silent(s', side)
            && s'.At(side.Peer()).ep == s.At(side.Peer()).ep.Write(p)
  {
    HoledFacts(s, side, side.Peer());
    hide LegStep, Holed, Paired;
    HoledStep(s, side, AppWrite(side.Peer(), p));
    AloneStep(s, AppWrite(side.Peer(), p));
  }

  /** The sender has found nothing to replay, then taken a byte. */
  ghost predicate Took(s: System, side: Side, n: nat) {
    var x := s.At(side.Peer());
    Holed(s, side) && s.At(side).inbox == [] && x.up && x.looking && |x.ep.hand| == n
  }

  lemma FindStep(s: System, side: Side)
    requires Silent(s, side) && !s.At(side.Peer()).ep.layer.HasPending()
    ensures s.InRange()
    ensures var s' := LegStep(s, FindNothingPending(side.Peer()));
            Took(s', side, 0) && s'.At(side.Peer()).ep == s.At(side.Peer()).ep
  {
    HoledFacts(s, side, side.Peer());
    hide LegStep, Holed, Paired;
    HoledStep(s, side, FindNothingPending(side.Peer()));
    AloneStep(s, FindNothingPending(side.Peer()));
  }

  lemma TakesOne(x: Half, side: Side, drained: bool)
    requires x.ep.layer.Valid() && x.looking && x.ep.hand == [] && x.ep.pipe != []
    ensures var x' := Alone(x, TakeBytes(side, 1), drained);
            x'.up == x.up && x'.looking && |x'.ep.hand| == 1
  {
  }

  lemma TakeStep(s: System, side: Side)
    requires Took(s, side, 0) && s.At(side.Peer()).ep.pipe != []
    ensures s.InRange()
    ensures Took(LegStep(s, TakeBytes(side.Peer(), 1)), side, 1)
  {
    HoledFacts(s, side, side.Peer());
    TakesOne(s.At(side.Peer()), side.Peer(), s.At(side).inbox == []);
    hide LegStep, Alone, Holed, Paired, Endpoint.GrowsInto;
    HoledStep(s, side, TakeBytes(side.Peer(), 1));
    AloneStep(s, TakeBytes(side.Peer(), 1));
  }

  lemma NumberIsHeard(s: System, side: Side)
    requires Took(s, side, 1)
    ensures s.InRange()
    ensures var s' := LegStep(s, NumberAndSend(side.Peer()));
            Holed(s', side) && MeetsData(s', side, ReceiveFrame(side))
  {
    HoledFacts(s, side, side.Peer());
    SaysData(s.At(side.Peer()), side.Peer());
    hide LegStep, Say, Holed, Paired, Endpoint.GrowsInto;
    HoledStep(s, side, NumberAndSend(side.Peer()));
    SayStep(s, NumberAndSend(side.Peer()));
  }

  ghost predicate StopFree(more: seq<LegEvent>) {
    forall e <- more :: !e.Stop?
  }

  /** One more event, none of which stops a leg. */
  lemma GoOn(s0: System, more: seq<LegEvent>, s: System, e: LegEvent)
    returns (more': seq<LegEvent>, s': System)
    requires s0.InRange() && RunLegs(s0, more) == s && StopFree(more) && !e.Stop?
    ensures s' == LegStep(s, e) == RunLegs(s0, more') && StopFree(more')
  {
    more', s' := Grow(s0, more, s, e);
  }

  lemma {:induction false} ResendEnds(s0: System, side: Side) returns (more: seq<LegEvent>)
    requires s0.InRange() && Silent(s0, side) && s0.At(side.Peer()).ep.layer.HasPending()
    ensures StopFree(more)
    ensures RunLegs(s0, more).fault == GapFault
  {
    assert RunLegs(s0, []) == s0 && StopFree([]);
    hide RunLegs, LegStep, StopFree, Silent, Holed, MeetsData;
    var t;
    ResendIsHeard(s0, side);
    more, t := GoOn(s0, [], s0, ResendFrom(side.Peer(), 1));
    HoledStep(t, side, ReceiveFrame(side));
    more, t := GoOn(s0, more, t, ReceiveFrame(side));
  }

  lemma {:induction false} ByteTaken(s0: System, side: Side)
    requires s0.InRange() && Silent(s0, side) && !s0.At(side.Peer()).ep.layer.HasPending()
    ensures var s2 := LegStep(LegStep(s0, AppWrite(side.Peer(), [7])), FindNothingPending(side.Peer()));
            Took(LegStep(s2, TakeBytes(side.Peer(), 1)), side, 1)
  {
    hide LegStep, Silent, Holed, Took;
    WriteStaysSilent(s0, side, [7]);
    var s1 := LegStep(s0, AppWrite(side.Peer(), [7]));
    FindStep(s1, side);
    TakeStep(LegStep(s1, FindNothingPending(side.Peer())), side);
  }

  lemma {:induction false} WriteEnds(s0: System, side: Side) returns (more: seq<LegEvent>)
    requires s0.InRange() && Silent(s0, side) && !s0.At(side.Peer()).ep.layer.HasPending()
    ensures StopFree(more)
    ensures RunLegs(s0, more).fault == GapFault
  {
    assert RunLegs(s0, []) == s0 && StopFree([]);
    hide RunLegs, LegStep, StopFree, Silent, Holed, Took, MeetsData;
    var t;
    ByteTaken(s0, side);
    more, t := GoOn(s0, [], s0, AppWrite(side.Peer(), [7]));
    more, t := GoOn(s0, more, t, FindNothingPending(side.Peer()));
    more, t := GoOn(s0, more, t, TakeBytes(side.Peer(), 1));
    NumberIsHeard(t, side);
    more, t := GoOn(s0, more, t, NumberAndSend(side.Peer()));
    HoledStep(t, side, ReceiveFrame(side));
    more, t := GoOn(s0, more, t, ReceiveFrame(side));
  }

  /** From any reachable state, a cut that loses something can be followed by the gap it causes. */
  lemma {:induction false} LosingCutEnds(s: System, side: Side) returns (more: seq<LegEvent>)
    requires LegInv(s) && CanCut(s, side) && Loses(s, side)
    ensures StopFree(more)
    ensures RunLegs(Cut(s, side), more).fault == GapFault
  {
    CutIsSilent(s, side);
    hide LegInv, Silent, RunLegs, Cut;
    var s0 := Cut(s, side);
    if s0.At(side.Peer()).ep.layer.HasPending() {
      more := ResendEnds(s0, side);
    } else {
      more := WriteEnds(s0, side);
    }
  }

  /** A cut that loses something is reachable: one byte sent and not yet received. */
  lemma LosingCutReachable() returns (events: seq<LegEvent>)
    ensures var s := RunLegs(InitLegs(0, 0), events);
            CanCut(s, Client) && Loses(s, Client)
  {
    var s0, b := InitLegs(0, 0), [7];
    var s;
    LateResumes.SendSteps(b, {});
    assert LateResumes.AfterStart({}) == s0 && RunLegs(s0, []) == s0;
    hide RunLegs, LegStep;
    events, s := Grow(s0, [], s0, AppWrite(Server, b));
    events, s := Grow(s0, events, s, FindNothingPending(Server));
    events, s := Grow(s0, events, s, TakeBytes(Server, 1));
    events, s := Grow(s0, events, s, NumberAndSend(Server));
    assert s == LateResumes.AfterSending(b, {});
  }

  /** In any reachable state: a cut is harmless, whatever follows, if and only if nothing is lost. */
  lemma {:induction false} CutHarmlessIff(clientMax: int, serverMax: int, events: seq<LegEvent>, side: Side)
    requires CanCut(RunLegs(InitLegs(clientMax, serverMax), events), side)
    ensures var s := RunLegs(InitLegs(clientMax, serverMax), events);
            (forall rest :: NoFalseFault(RunLegs(Cut(s, side), rest))) <==> !Loses(s, side)
  {
    var s := RunLegs(InitLegs(clientMax, serverMax), events);
    RunLegsInv(InitLegs(clientMax, serverMax), events);
    if Loses(s, side) {
      var more := LosingCutEnds(s, side);
      assert !NoFalseFault(RunLegs(Cut(s, side), more));
    } else {
      forall rest ensures NoFalseFault(RunLegs(Cut(s, side), rest)) {
        CutExactly(clientMax, serverMax, events, side, [], rest);
      }
    }
  }

  lemma StopFault(s: System, side: Side)
    requires s.InRange()
    ensures LegStep(s, Stop(side)).fault == s.fault
  {
  }

  ghost predicate NoFalseFault(s: System) {
    s.fault != GapFault && s.fault != BadAckFault
  }
}
