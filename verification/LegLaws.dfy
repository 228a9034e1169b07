/**
What the legs owe their users beyond not breaking: a replay buffer overflows exactly when the bytes
unacknowledged pass its bound, and an ack reaches the peer for everything received.
*/
module LegLaws {
  import opened Bytes
  import opened Layers
  import opened Endpoints
  import opened Legs

  // ---- overflow ----

  /** Numbering what the sender holds would leave more than the bound unacknowledged. */
  predicate PassesBound(s: System, e: LegEvent, side: Side) {
    var x := s.At(side);
    && s.fault == NoFault && e == NumberAndSend(side) && x.up && x.ep.hand != []
    && x.ep.layer.send + |x.ep.hand| - x.ep.layer.acked > x.ep.layer.maxReplay
  }

  lemma SayOverflows(x: Half, e: LegEvent)
    requires x.ep.layer.Valid() && SenderOk(x) && e.OfSender() && Say(x, e).Some?
    ensures var x' := Say(x, e).value.0;
            && (x'.overflowed
                <==> x.overflowed
                     || (e.NumberAndSend? && x.ep.layer.send + |x.ep.hand| - x.ep.layer.acked > x.ep.layer.maxReplay))
  {
    NumberBreaksExactly(x.ep.layer, x.ep.hand);
    hide Layer.Number;
  }

  lemma SaysNothing(x: Half, e: LegEvent)
    requires x.ep.layer.Valid() && e.OfSender() && Say(x, e).None?
    ensures e.NumberAndSend? ==> !x.up || x.ep.hand == []
  {
  }

  /** Whatever is not a send leaves the flag alone. */
  lemma OtherwiseSame(s: System, e: LegEvent, side: Side)
    requires s.InRange() && !e.OfSender()
    ensures e.OfHandshake() ==> Shake(s, e).At(side).overflowed == s.At(side).overflowed
    ensures !e.OfHandshake() ==> Own(s, e).At(side).overflowed == s.At(side).overflowed
  {
    hide Endpoint.Receive, Endpoint.Ack, Endpoint.Resume, Layer.ResetAck;
  }

  lemma {:induction false} OverflowStep(s: System, e: LegEvent, side: Side)
    requires LegInv(s)
    ensures var x, x' := s.At(side), LegStep(s, e).At(side);
            && x'.ep.layer.maxReplay == x.ep.layer.maxReplay
            && (x'.overflowed <==> x.overflowed || PassesBound(s, e, side))
  {
    if s.fault != NoFault {
      assert LegStep(s, e) == s;
    } else if !e.OfSender() {
      OtherwiseSame(s, e, side);
      hide Shake, Own;
    } else {
      assert SenderOk(s.At(e.side));
      SendOverflows(s, e, side);
    }
    assert s.GrowsInto(LegStep(s, e));
    hide Send, Shake, Own, LegInv;
  }

  lemma SendOverflows(s: System, e: LegEvent, side: Side)
    requires s.InRange() && s.fault == NoFault && e.OfSender() && SenderOk(s.At(e.side))
    ensures Send(s, e).At(side).overflowed <==> s.At(side).overflowed || PassesBound(s, e, side)
  {
    var me := s.At(e.side);
    hide Say, SenderOk;
    if Say(me, e).Some? {
      SayOverflows(me, e);
      SayRuns(me, e);
    } else {
      SaysNothing(me, e);
    }
  }

  lemma SayRuns(x: Half, e: LegEvent)
    requires x.ep.layer.Valid() && e.OfSender() && Say(x, e).Some?
    ensures x.up && (e.NumberAndSend? ==> x.ep.hand != [])
  {
  }

  predicate PassedAt(s: System, events: seq<LegEvent>, side: Side, i: nat)
    requires s.InRange()
  {
    i < |events| && PassesBound(RunLegs(s, events[..i]), events[i], side)
  }

  ghost predicate EverPassed(s: System, events: seq<LegEvent>, side: Side)
    requires s.InRange()
  {
    exists i: nat :: PassedAt(s, events, side, i)
  }

  lemma PassedEarlier(s: System, events: seq<LegEvent>, side: Side, i: nat)
    requires s.InRange() && i < |events| - 1
    ensures PassedAt(s, events, side, i) <==> PassedAt(s, events[..|events| - 1], side, i)
  {
    hide RunLegs, PassesBound;
    assert events[..|events| - 1][..i] == events[..i];
  }

  lemma PassedSplits(s: System, events: seq<LegEvent>, side: Side)
    requires s.InRange() && events != []
    ensures var n := |events| - 1;
            EverPassed(s, events, side)
            <==> EverPassed(s, events[..n], side) || PassesBound(RunLegs(s, events[..n]), events[n], side)
  {
    hide PassesBound, RunLegs;
    var n := |events| - 1;
    assert PassedAt(s, events, side, n) <==> PassesBound(RunLegs(s, events[..n]), events[n], side);
    assert forall i: nat :: PassedAt(s, events, side, i) ==> i <= n;
    assert forall i: nat :: PassedAt(s, events[..n], side, i) ==> i < n;
    hide PassedAt;
    forall i: nat | i < n ensures PassedAt(s, events, side, i) <==> PassedAt(s, events[..n], side, i) {
      PassedEarlier(s, events, side, i);
    }
    if EverPassed(s, events, side) {
      var i: nat :| PassedAt(s, events, side, i);
    }
    if EverPassed(s, events[..n], side) {
      var i: nat :| PassedAt(s, events[..n], side, i);
      assert PassedAt(s, events, side, i);
    }
  }

  lemma {:induction false} OverflowRun(s: System, events: seq<LegEvent>, side: Side)
    requires LegInv(s)
    ensures var x, x' := s.At(side), RunLegs(s, events).At(side);
            && x'.ep.layer.maxReplay == x.ep.layer.maxReplay
            && (x'.overflowed <==> x.overflowed || EverPassed(s, events, side))
  {
    if events == [] {
      assert !EverPassed(s, events, side);
    } else {
      var shorter := events[..|events| - 1];
      assert RunLegs(s, events) == LegStep(RunLegs(s, shorter), events[|events| - 1]);
      hide RunLegs, LegStep, LegInv, EverPassed, PassesBound;
      OverflowRun(s, shorter, side);
      RunLegsInv(s, shorter);
      PassedSplits(s, events, side);
      OverflowStep(RunLegs(s, shorter), events[|events| - 1], side);
    }
  }

  /** The bound a side was configured with. */
  function Bound(max: int): nat {
    if max > 0 then max else 16777216
  }

  /**
  A layer of the run is broken by its own doing exactly when at some numbering the bytes sent and
  not acknowledged passed its configured bound.
  */
  lemma {:induction false} OverflowExactly(clientMax: int, serverMax: int, events: seq<LegEvent>, side: Side)
    ensures var s0 := InitLegs(clientMax, serverMax);
            var x := RunLegs(s0, events).At(side);
            && x.ep.layer.maxReplay == Bound(if side.Client? then clientMax else serverMax)
            && (x.overflowed <==> EverPassed(s0, events, side))
  {
    NewLayerBound(clientMax);
    NewLayerBound(serverMax);
    RunLegsInv(InitLegs(clientMax, serverMax), []);
    OverflowRun(InitLegs(clientMax, serverMax), events, side);
  }

  lemma WrittenGrows(s: System, events: seq<LegEvent>, i: nat, side: Side)
    requires LegInv(s) && i <= |events|
    ensures |RunLegs(s, events[..i]).At(side).ep.written| <= |RunLegs(s, events).At(side).ep.written|
    decreases |events| - i
  {
    if i == |events| {
      assert events[..i] == events;
    } else {
      WrittenGrows(s, events, i + 1, side);
      assert events[..i + 1][..i] == events[..i];
      RunLegsInv(s, events[..i]);
      WriteStep(RunLegs(s, events[..i]), events[i], side);
    }
  }

  lemma WriteStep(s: System, e: LegEvent, side: Side)
    requires s.InRange()
    ensures |s.At(side).ep.written| <= |LegStep(s, e).At(side).ep.written|
  {
    hide LegStep;
  }

  /**
  So a session on which neither side ever writes more than its bound is never refused a resume for
  overflow and never broken: nothing ends it but a late request.
  */
  lemma {:induction false} WithinBoundNeverRefused(clientMax: int, serverMax: int, events: seq<LegEvent>)
    requires var s := RunLegs(InitLegs(clientMax, serverMax), events);
             |s.client.ep.written| <= Bound(clientMax) && |s.server.ep.written| <= Bound(serverMax)
    ensures var s := RunLegs(InitLegs(clientMax, serverMax), events);
            && (s.fault == NoFault || s.fault == LateRefused)
            && (s.fault == NoFault ==> !s.client.ep.layer.broken && !s.server.ep.layer.broken)
  {
    NeverPasses(clientMax, serverMax, events, Client);
    NeverPasses(clientMax, serverMax, events, Server);
    NoFalseBreak(clientMax, serverMax, events);
  }

  lemma NeverPasses(clientMax: int, serverMax: int, events: seq<LegEvent>, side: Side)
    requires var s := RunLegs(InitLegs(clientMax, serverMax), events);
             |s.At(side).ep.written| <= Bound(if side.Client? then clientMax else serverMax)
    ensures !RunLegs(InitLegs(clientMax, serverMax), events).At(side).overflowed
  {
    var s0 := InitLegs(clientMax, serverMax);
    RunLegsInv(s0, []);
    OverflowExactly(clientMax, serverMax, events, side);
    if EverPassed(s0, events, side) {
      var i: nat :| PassedAt(s0, events, side, i);
      WrittenGrows(s0, events, i, side);
      RunLegsInv(s0, events[..i]);
      OverflowExactly(clientMax, serverMax, events[..i], side);
      HeldIsWritten(RunLegs(s0, events[..i]), side);
    }
  }

  lemma HeldIsWritten(s: System, side: Side)
    requires LegInv(s) && s.fault == NoFault
    ensures var x := s.At(side).ep; x.layer.send + |x.hand| <= |x.written|
  {
    var x := s.At(side).ep;
    assert x.Inv();
    assert |x.hand + x.pipe| == |x.written| - x.layer.send;
  }

  // ---- acks ----

  /** How much a sender that has `at` acknowledged will have once it has consumed `q`. */
  ghost function AckEnd(q: seq<Frame>, at: nat): nat {
    if q == [] then at
    else
      var before, f := AckEnd(q[..|q| - 1], at), q[|q| - 1];
      if f.FAck? then Max(before, f.n) else before
  }

  lemma AckEndSnoc(q: seq<Frame>, f: Frame, at: nat)
    ensures AckEnd(q + [f], at) == if f.FAck? then Max(AckEnd(q, at), f.n) else AckEnd(q, at)
  {
    assert (q + [f])[..|q|] == q;
  }

  lemma {:induction false} AckEndMonotone(q: seq<Frame>, a: nat, b: nat)
    requires a <= b
    ensures AckEnd(q, a) <= AckEnd(q, b)
    decreases |q|
  {
    if q != [] {
      AckEndMonotone(q[..|q| - 1], a, b);
    }
  }

  lemma {:induction false} AckEndTail(q: seq<Frame>, at: nat)
    requires q != []
    ensures AckEnd(q, at) == AckEnd(q[1..], if q[0].FAck? then Max(at, q[0].n) else at)
    decreases |q|
  {
    var last := |q| - 1;
    if last == 0 {
      assert q[..0] == [];
    } else {
      AckEndTail(q[..last], at);
      assert q[..last][1..] == q[1..][..last - 1];
    }
  }

  /** Whatever `y` has said it acknowledged, `x` knows or is about to hear. */
  ghost predicate AckOk(x: Half, y: Half) {
    x.up && y.up && !x.ep.layer.broken ==> y.ep.layer.lastAck <= AckEnd(x.inbox, x.ep.layer.acked)
  }

  ghost predicate AcksOk(s: System) {
    s.fault == NoFault ==> AckOk(s.client, s.server) && AckOk(s.server, s.client)
  }

  lemma SayAcks(x: Half, e: LegEvent)
    requires x.ep.layer.Valid() && e.OfSender() && Say(x, e).Some?
    ensures var (x', f) := Say(x, e).value;
            && x'.up == x.up && x'.inbox == x.inbox
            && x'.ep.layer.lastAck == if f.FAck? then f.n else x.ep.layer.lastAck
  {
    NumberBreaksExactly(x.ep.layer, x.ep.hand);
  }

  lemma SaysKeepAcks(x: Half, x': Half, y: Half, f: Frame)
    requires AckOk(x, y) && AckOk(y, x) && x.ep.GrowsInto(x'.ep) && x'.up == x.up && x'.inbox == x.inbox
    requires x'.ep.layer.lastAck == if f.FAck? then f.n else x.ep.layer.lastAck
    ensures AckOk(x', y.(inbox := y.inbox + [f])) && AckOk(y.(inbox := y.inbox + [f]), x')
  {
    hide AckEnd;
    AckEndSnoc(y.inbox, f, y.ep.layer.acked);
    AckEndMonotone(x.inbox, x.ep.layer.acked, x'.ep.layer.acked);
  }

  lemma HearAcks(y: Half)
    requires y.ep.Inv() && y.inbox != [] && Hear(y).1 == NoFault
    ensures var y', f := Hear(y).0, y.inbox[0];
            && y'.up == y.up && y'.inbox == y.inbox[1..] && y'.ep.layer.lastAck == y.ep.layer.lastAck
            && (!y'.ep.layer.broken ==>
                  y'.ep.layer.acked == if f.FAck? then Max(y.ep.layer.acked, f.n) else y.ep.layer.acked)
  {
    if y.inbox[0].FAck? {
      AckRepresents(y.ep.layer, y.ep.written[..y.ep.layer.send], y.inbox[0].n);
    }
  }

  lemma HearKeepsAcks(x: Half, y: Half)
    requires AckOk(x, y) && AckOk(y, x) && y.ep.Inv() && y.inbox != [] && Hear(y).1 == NoFault
    ensures AckOk(x, Hear(y).0) && AckOk(Hear(y).0, x)
  {
    HearAcks(y);
    AckEndTail(y.inbox, y.ep.layer.acked);
    hide Hear;
  }

  lemma QuietKeepsAcks(x: Half, h: Half, h': Half)
    requires AckOk(x, h) && AckOk(h, x) && Quietly(h, h') && h'.ep.layer.lastAck <= h.ep.layer.lastAck
    ensures AckOk(x, h') && AckOk(h', x)
  {
  }

  lemma AloneAcks(me: Half, e: LegEvent, drained: bool)
    requires me.ep.layer.Valid() && e.Alone()
    ensures Alone(me, e, drained).ep.layer.lastAck <= me.ep.layer.lastAck
  {
  }

  lemma ShakeKeepsAcks(s: System, e: LegEvent)
    requires s.InRange() && AcksOk(s) && s.fault == NoFault && e.OfHandshake()
    ensures AcksOk(Shake(s, e))
  {
    hide Endpoint.Resume, AckEnd;
  }

  lemma SendKeepsAcks(s: System, e: LegEvent)
    requires s.InRange() && AcksOk(s) && s.fault == NoFault && e.OfSender()
    ensures AcksOk(Send(s, e))
  {
    var me, peer := s.At(e.side), s.At(e.side.Peer());
    assert AckOk(me, peer) && AckOk(peer, me);
    hide Say, AckOk;
    if Say(me, e).Some? {
      SayAcks(me, e);
      SaysKeepAcks(me, Say(me, e).value.0, peer, Say(me, e).value.1);
    }
  }

  lemma PutKeepsAcks(s: System, side: Side, h: Half, fault: Fault)
    requires fault == NoFault ==> AckOk(h, s.At(side.Peer())) && AckOk(s.At(side.Peer()), h)
    ensures AcksOk(s.Put(side, h).(fault := fault))
  {
    hide AckOk;
  }

  lemma HalfFacts(s: System, side: Side)
    requires LegInv(s) && AcksOk(s) && s.fault == NoFault
    ensures var x, y := s.At(side), s.At(side.Peer());
            x.ep.Inv() && Paired(x.ep, y.ep) && SenderOk(x) && AckOk(x, y) && AckOk(y, x)
  {
    PairedSym(s.client.ep, s.server.ep);
    hide AckOk;
  }

  lemma OwnKeepsAcks(s: System, e: LegEvent)
    requires LegInv(s) && AcksOk(s) && s.fault == NoFault && !e.OfSender() && !e.OfHandshake()
    ensures AcksOk(Own(s, e))
  {
    var side, me, peer := e.side, s.At(e.side), s.At(e.side.Peer());
    HalfFacts(s, side);
    var stopped := me.(up := false, inbox := []);
    assert AckOk(stopped, peer) && AckOk(peer, stopped);
    assert Own(s, e) == if e.Alone() then s.Put(side, Alone(me, e, peer.inbox == []))
                        else if e.Stop? then if me.up && !me.looking then s.Put(side, stopped) else s
                        else if me.up && me.inbox != [] then s.Put(side, Hear(me).0).(fault := Hear(me).1) else s;
    assert forall h :: s.Put(side, h) == s.Put(side, h).(fault := NoFault);
    hide *;
    if e.Alone() {
      AloneQuietly(me, peer.ep, e, peer.inbox == []);
      AloneAcks(me, e, peer.inbox == []);
      QuietKeepsAcks(peer, me, Alone(me, e, peer.inbox == []));
      PutKeepsAcks(s, side, Alone(me, e, peer.inbox == []), NoFault);
    } else if e.Stop? {
      PutKeepsAcks(s, side, stopped, NoFault);
    } else if me.up && me.inbox != [] {
      if Hear(me).1 == NoFault {
        HearKeepsAcks(peer, me);
      }
      PutKeepsAcks(s, side, Hear(me).0, Hear(me).1);
    }
  }

  lemma {:induction false} AcksStep(s: System, e: LegEvent)
    requires LegInv(s) && AcksOk(s)
    ensures AcksOk(LegStep(s, e))
  {
    assert s.InRange();
    if s.fault == NoFault {
      if e.OfSender() {
        SendKeepsAcks(s, e);
      } else if e.OfHandshake() {
        ShakeKeepsAcks(s, e);
      } else {
        OwnKeepsAcks(s, e);
      }
    }
    hide LegInv, AcksOk, Send, Shake, Own;
  }

  lemma {:induction false} AcksRun(s: System, events: seq<LegEvent>)
    requires LegInv(s) && AcksOk(s)
    ensures AcksOk(RunLegs(s, events))
  {
    if events != [] {
      hide LegInv, AcksOk, LegStep;
      AcksRun(s, events[..|events| - 1]);
      RunLegsInv(s, events[..|events| - 1]);
      AcksStep(RunLegs(s, events[..|events| - 1]), events[|events| - 1]);
    }
  }

  /**
  Acks catch up. In every reachable state without a fault and with both sides running, once the
  receiver has no ack left to give and the sender none left to hear, an unbroken sender knows
  exactly what the receiver has and retains exactly the bytes it has not.
  */
  lemma {:induction false} AcksCatchUp(clientMax: int, serverMax: int, events: seq<LegEvent>, side: Side)
    ensures var s := RunLegs(InitLegs(clientMax, serverMax), events);
            var x, y := s.At(side), s.At(side.Peer());
            s.fault == NoFault && x.up && y.up && !x.ep.layer.broken && x.inbox == []
            && y.ep.layer.Valid() && Say(y, SendAck(side.Peer())).None?
            ==> && x.ep.layer.acked == y.ep.layer.recv <= x.ep.layer.send <= |x.ep.written|
                && x.ep.layer.replay == x.ep.written[y.ep.layer.recv..x.ep.layer.send]
  {
    var s0 := InitLegs(clientMax, serverMax);
    RunLegsInv(s0, []);
    assert AcksOk(s0);
    RunLegsInv(s0, events);
    AcksRun(s0, events);
    var s := RunLegs(s0, events);
    hide RunLegs;
    var x, y := s.At(side), s.At(side.Peer());
    if s.fault == NoFault && x.up && y.up && !x.ep.layer.broken && x.inbox == [] && Say(y, SendAck(side.Peer())).None? {
      assert AckOk(x, y);
      PairedSym(x.ep, y.ep);
      assert Paired(x.ep, y.ep);
    }
  }

  /**
  An attach the client never hears of opens the server's legs alone; they can be stopped again, and
  the server then answers the next resume request as if they had never been.
  */
  lemma AttachUnheard(s: System, r: nat)
    requires s.InRange() && s.fault == NoFault && !s.client.up && !s.server.up && s.server.ready
    requires r in s.requests && !s.server.looking
    ensures var s1 := LegStep(s, LostAttach);
            var s2 := LegStep(s1, Stop(Server));
            && s1.server.up && !s1.client.up && !s2.server.up && s2.client == s.client && s2.requests == s.requests
            && LegStep(s2, ServeResume(r)).server.ep.layer.cursor == LegStep(s, ServeResume(r)).server.ep.layer.cursor
            && LegStep(s2, ServeResume(r)).fault == LegStep(s, ServeResume(r)).fault
  {
    hide Send;
  }

  /** A leg that rolls over, or opens after a handshake, acknowledges again all that was received. */
  lemma FreshLegsAck(me: Half, side: Side)
    requires me.ep.layer.Valid() && me.ep.layer.recv > 0
    ensures var rolled := Alone(me, Rollover(side), true);
            me.up && !me.looking ==>
              var said := Say(rolled, SendAck(side)); said.Some? && said.value.1 == FAck(me.ep.layer.recv)
    ensures var said := Say(Opened(me), SendAck(side)); said.Some? && said.value.1 == FAck(me.ep.layer.recv)
  {
  }
}
