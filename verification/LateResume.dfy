/**
A resume request that arrives after a later one has succeeded: exactly when it ends the session,
and a run in which it does.
*/
module LateResumes {
  import opened Bytes
  import opened Endpoints
  import opened Legs

  /**
  In any reachable state, a step makes a late request break the session if and only if it is the
  server's answer to one, its own handlers gone, and the server's replay has overflowed or the
  client has confirmed more than the request says. The server's layer is broken by it.
  */
  lemma {:induction false} LateResumeExactly(clientMax: int, serverMax: int, events: seq<LegEvent>, e: LegEvent)
    requires RunLegs(InitLegs(clientMax, serverMax), events).fault == NoFault
    ensures var s := RunLegs(InitLegs(clientMax, serverMax), events);
            && (LegStep(s, e).fault == LateRefused
                <==> e.LateResume? && e.r in s.late && !s.server.up
                     && (s.server.overflowed || e.r < s.server.ep.layer.acked))
            && (LegStep(s, e).fault == LateRefused ==> LegStep(s, e).server.ep.layer.broken)
  {
    var s := RunLegs(InitLegs(clientMax, serverMax), events);
    RunLegsInv(InitLegs(clientMax, serverMax), events);
    hide RunLegs, InitLegs;
    if e.LateResume? {
      LateOutcome(s, e.r);
    } else {
      OnlyLate(s, e);
    }
  }

  lemma LateOutcome(s: System, r: nat)
    requires LegInv(s) && s.fault == NoFault
    ensures var s' := LegStep(s, LateResume(r));
            && (s'.fault == LateRefused
                <==> r in s.late && !s.server.up && (s.server.overflowed || r < s.server.ep.layer.acked))
            && (s'.fault == LateRefused ==> s'.server.ep.layer.broken)
  {
    if r in s.late && !s.server.up {
      assert s.server.ep.layer.broken <==> s.server.overflowed;
      PairedSym(s.client.ep, s.server.ep);
      PairedResume(s.server.ep, s.client.ep, r, true);
    }
  }

  lemma OnlyLate(s: System, e: LegEvent)
    requires s.InRange() && s.fault == NoFault && !e.LateResume?
    ensures LegStep(s, e).fault != LateRefused
  {
    hide Say;
  }

  // The states of the run below, and the steps between them.

  function AfterAsking(): System {
    var s0 := InitLegs(0, 0);
    s0.(client := s0.client.(up := false), server := s0.server.(up := false), requests := {0})
  }

  function AfterServing(): System {
    var s := AfterAsking();
    s.(server := s.server.(ready := true), responses := {0})
  }

  function AfterAccepting(): System {
    var s := AfterServing();
    s.(client := s.client.(ready := true))
  }

  function AfterStart(late: set<nat>): System {
    InitLegs(0, 0).(late := late)
  }

  function AfterSending(b: seq<Byte>, late: set<nat>): System
    requires |b| == 1
  {
    var s, n := AfterStart(late), NewEndpoint(0);
    s.(client := s.client.(inbox := [FData(0, b)]),
       server := s.server.(ep := n.(written := b, layer := n.layer.(send := 1, cursor := 1, replay := b))))
  }

  function AfterReceiving(b: seq<Byte>): System
    requires |b| == 1
  {
    var s, n := AfterSending(b, {0}), NewEndpoint(0);
    s.(client := s.client.(ep := n.(accepted := b, layer := n.layer.(recv := 1)), inbox := []))
  }

  lemma AskSteps()
    ensures LegStep(LegStep(LegStep(InitLegs(0, 0), Stop(Client)), Stop(Server)), AskResume) == AfterAsking()
    ensures LegStep(AfterAsking(), AskResume) == AfterAsking()
  {
  }

  lemma ServeStep()
    ensures LegStep(AfterAsking(), ServeResume(0)) == AfterServing()
  {
    hide Send, Own;
  }

  lemma AcceptStep()
    ensures LegStep(AfterServing(), AcceptResume(0)) == AfterAccepting()
  {
    hide Send, Own;
  }

  lemma StartStep()
    ensures LegStep(AfterAccepting(), Start) == AfterStart({0})
  {
    hide Send, Own;
  }

  function AfterTaking(b: seq<Byte>, late: set<nat>): System
    requires |b| == 1
  {
    var s, n := AfterStart(late), NewEndpoint(0);
    s.(server := s.server.(ep := n.(written := b, hand := b), looking := true))
  }

  function AfterWriting(b: seq<Byte>, late: set<nat>): System {
    var s, n := AfterStart(late), NewEndpoint(0);
    s.(server := s.server.(ep := n.(written := b, pipe := b)))
  }

  lemma WriteStep(b: seq<Byte>, late: set<nat>)
    ensures LegStep(AfterStart(late), AppWrite(Server, b)) == AfterWriting(b, late)
  {
    hide Shake, Receive, Send;
    assert [] + b == b;
  }

  lemma TakeSteps(b: seq<Byte>, late: set<nat>)
    requires |b| == 1
    ensures var s := LegStep(LegStep(AfterStart(late), AppWrite(Server, b)), FindNothingPending(Server));
            LegStep(s, TakeBytes(Server, 1)) == AfterTaking(b, late)
  {
    WriteStep(b, late);
    hide Shake, Receive, Send;
    assert b[..1] == b && b[1..] == [];
  }

  lemma SendSteps(b: seq<Byte>, late: set<nat>)
    requires |b| == 1
    ensures var s := LegStep(LegStep(AfterStart(late), AppWrite(Server, b)), FindNothingPending(Server));
            LegStep(LegStep(s, TakeBytes(Server, 1)), NumberAndSend(Server)) == AfterSending(b, late)
  {
    TakeSteps(b, late);
    hide Shake, Own;
    assert [] + b == b;
  }

  lemma ReceiveStep(b: seq<Byte>)
    requires |b| == 1
    ensures LegStep(AfterSending(b, {0}), ReceiveFrame(Client)) == AfterReceiving(b)
  {
    hide Shake, Send;
    assert [] + b == b[0..] == b;
  }

  lemma AckSteps(b: seq<Byte>)
    requires |b| == 1
    ensures var s := LegStep(LegStep(AfterReceiving(b), SendAck(Client)), ReceiveFrame(Server));
            && s.late == {0} && s.fault == NoFault && s.server.up && !s.server.looking
            && s.server.ep.layer.acked == 1 && !s.server.ep.layer.broken
            && !s.server.overflowed && !s.client.overflowed
  {
    hide Shake;
    var s := LegStep(AfterReceiving(b), SendAck(Client));
    assert s.server == AfterSending(b, {0}).server.(inbox := [FAck(1)]) && s.fault == NoFault;
  }

  lemma LateSteps(s: System)
    requires s.InRange() && s.late == {0} && s.fault == NoFault && s.server.up && !s.server.looking
    requires s.server.ep.layer.acked == 1
    ensures var s' := LegStep(LegStep(s, Stop(Server)), LateResume(0));
            && s'.fault == LateRefused && s'.server.ep.layer.broken
            && s'.client.overflowed == s.client.overflowed && s'.server.overflowed == s.server.overflowed
  {
    hide Send;
  }

  /**
  Such a run exists with nothing overflowing and every message honest. The client posts its offset,
  hears nothing, posts it again and is heard; a byte is sent, received and confirmed on the new
  legs; then the first request arrives.
  */
  lemma LateResumeBreaks() returns (events: seq<LegEvent>)
    ensures var s := RunLegs(InitLegs(0, 0), events);
            && s.fault == LateRefused && s.server.ep.layer.broken
            && !s.client.overflowed && !s.server.overflowed
  {
    var s0, b := InitLegs(0, 0), [7];
    var s;
    AskSteps();
    ServeStep();
    AcceptStep();
    StartStep();
    SendSteps(b, {0});
    ReceiveStep(b);
    AckSteps(b);
    assert RunLegs(s0, []) == s0;
    hide RunLegs, LegStep, InitLegs;
    hide AfterAsking, AfterServing, AfterAccepting, AfterStart, AfterSending, AfterReceiving;
    events, s := Grow(s0, [], s0, Stop(Client));
    events, s := Grow(s0, events, s, Stop(Server));
    events, s := Grow(s0, events, s, AskResume);
    events, s := Grow(s0, events, s, AskResume);
    events, s := Grow(s0, events, s, ServeResume(0));
    events, s := Grow(s0, events, s, AcceptResume(0));
    events, s := Grow(s0, events, s, Start);
    events, s := Grow(s0, events, s, AppWrite(Server, b));
    events, s := Grow(s0, events, s, FindNothingPending(Server));
    events, s := Grow(s0, events, s, TakeBytes(Server, 1));
    events, s := Grow(s0, events, s, NumberAndSend(Server));
    events, s := Grow(s0, events, s, ReceiveFrame(Client));
    events, s := Grow(s0, events, s, SendAck(Client));
    events, s := Grow(s0, events, s, ReceiveFrame(Server));
    LateSteps(s);
    events, s := Grow(s0, events, s, Stop(Server));
    events, s := Grow(s0, events, s, LateResume(0));
  }
}
