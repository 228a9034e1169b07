/**
The two views of the server joined: its handlers and resumes, interleaved at lock granularity, drive
the sending side of the endpoint that `EndToEnd` runs against a client over an arbitrary network.
`EndToEnd` lets one sender at a time hold bytes; here nothing is assumed of the handlers, and what
they do is shown to be a run of it.
*/
module ServerRuns {
  import opened Bytes
  import opened Layers
  import opened Endpoints
  import opened Attachments
  import H = Handlers
  import N = EndToEnd

  /** The handlers' side of the server, and the protocol with the same server in it. */
  datatype Joint = Joint(handlers: H.State, net: N.State) {
    ghost predicate InRange() {
      handlers.layer.Valid() && net.InRange()
    }
  }

  /** A section of a handler, a resume or the application; or anything else that happens. */
  datatype JointEvent = Section(s: H.Event) | Elsewhere(n: N.Event)

  /** Acks and resume requests the server hears are ones the client sent. */
  predicate Sent(t: N.State, e: H.Event) {
    && (e.Ack? ==> N.Ack(Client, e.n) in t.net)
    && (e.ResumeOut? ==> N.Hello(Client, e.r) in t.net)
  }

  /** What a section of `nextOut` or `rewindToAcked` is to the protocol, if it does anything. */
  function SendImage(s: H.State, e: H.Event): Option<N.Event>
    requires e.InSending()
  {
    if !s.Is(e.id) || s.handlers[e.id].kind.OnlyUp? then None else
    var h := s.handlers[e.id];
    match e
    case Resend(_, room) =>
      if h.phase.Working? && s.layer.HasPending() then Some(N.SendReplay(Server, room)) else None
    case Check(_) => None
    case Take(_, n) => if h.phase.Reading? && 0 < n <= |s.pipe| then Some(N.Take(Server, n)) else None
    case TakeNothing(_) => None
    case Number(_) => if h.phase.Holding? then Some(N.Number(Server)) else None
    case Rewind(_) => if h.kind.OnlyDown? && h.phase.Working? then Some(N.Rewind(Server)) else None
  }

  function Image(s: H.State, e: H.Event): Option<N.Event> {
    if e.InSending() then SendImage(s, e)
    else if e.AppWrite? then Some(N.Write(Server, e.p))
    else if e.Ack? then Some(N.Deliver(N.Ack(Client, e.n)))
    else if e.Break? then Some(N.GiveUp(Server))
    else if e.ResumeOut? && s.resume.Quiet? then Some(N.Deliver(N.Hello(Client, e.r)))
    else None
  }

  /** The protocol's names for what only the handlers do here. */
  predicate OfHandlers(e: N.Event) {
    if e.Deliver? then e.m.from.Client? && !e.m.Data?
    else e.side.Server? && (e.Write? || e.Take? || e.Number? || e.SendReplay? || e.Rewind? || e.GiveUp?)
  }

  /** The server is handed data past what it has received. */
  predicate Gaps(t: N.State, e: N.Event) {
    e.Deliver? && e.m in t.net && e.m.from.Client? && e.m.Data? && e.m.off > t.server.layer.recv
  }

  /** A step; data that leaves a gap breaks the layer the handlers share. */
  function JointStep(j: Joint, e: JointEvent): (r: Joint)
    requires j.InRange()
    ensures r.InRange()
  {
    match e
    case Section(s) =>
      if !Sent(j.net, s) then j else
      var image := Image(j.handlers, s);
      Joint(H.Step(j.handlers, s), if image.None? then j.net else N.Step(j.net, image.value))
    case Elsewhere(n) =>
      if OfHandlers(n) then j else
      Joint(if Gaps(j.net, n) then H.Step(j.handlers, H.Break) else j.handlers, N.Step(j.net, n))
  }

  function JointInit(clientMax: int, serverMax: int): (j: Joint)
    ensures j.InRange()
  {
    Joint(H.Init(serverMax), N.Init(clientMax, serverMax))
  }

  function JointRun(j: Joint, events: seq<JointEvent>): (r: Joint)
    requires j.InRange()
    ensures r.InRange()
  {
    if events == [] then j else JointStep(JointRun(j, events[..|events| - 1]), events[|events| - 1])
  }

  // ---- the two agree ----

  /** Two layers that differ at most in what they have received. */
  ghost predicate SameSending(a: Layer, b: Layer) {
    b == a.(recv := b.recv, lastAck := b.lastAck)
  }

  ghost predicate Agree(s: H.State, x: Endpoint) {
    SameSending(s.layer, x.layer) && s.pipe == x.pipe && s.written == x.written
  }

  ghost predicate JointInv(j: Joint) {
    H.Inv(j.handlers) && N.Inv(j.net) && Agree(j.handlers, j.net.server)
  }

  lemma Middle(a: seq<Byte>, m: seq<Byte>, m': seq<Byte>, c: seq<Byte>, w: seq<Byte>)
    requires a + m + c == w && m' + c == w[|a|..]
    ensures m == m' && a == w[..|a|]
  {
    assert w == a + (m + c);
    assert w[|a|..] == m + c;
    assert m == (m + c)[..|m|] && m' == (m' + c)[..|m'|];
  }

  /** Bytes some handler holds are the bytes the protocol's server has in hand. */
  lemma HandIsHeld(s: H.State, x: Endpoint)
    requires H.Inv(s) && x.Inv() && Agree(s, x)
    ensures x.hand == H.Held(s) && s.numbered == s.written[..s.layer.send]
  {
    assert H.BytesOk(s) && |s.numbered| == s.layer.send;
    hide H.Inv, H.Held;
    Middle(s.numbered, H.Held(s), x.hand, s.pipe, s.written);
  }

  /** What a section of the handlers does to the protocol's server. */
  function Effect(x: Endpoint, image: Option<N.Event>): Endpoint
    requires x.layer.Valid()
  {
    if image.None? then x
    else if image.value.Deliver? then N.Hear(x, image.value.m)
    else N.Act(x, image.value).0
  }

  lemma NumberSame(a: Layer, b: Layer, data: seq<Byte>)
    requires a.Valid() && b.Valid() && SameSending(a, b)
    ensures SameSending(a.Number(data).0, b.Number(data).0)
  {
  }

  lemma OtherSame(a: Layer, b: Layer, room: nat, n: nat)
    requires a.Valid() && b.Valid() && SameSending(a, b)
    ensures a.HasPending() <==> b.HasPending()
    ensures a.HasPending() ==> SameSending(a.SendReplay(room).0, b.SendReplay(room).0)
    ensures SameSending(a.RewindToAcked(), b.RewindToAcked()) && SameSending(a.MarkBroken(), b.MarkBroken())
    ensures SameSending(a.Ack(n).0, b.Ack(n).0)
    ensures SameSending(a.ResumeOut(n).0, b.ResumeOut(n).0) && a.ResumeOut(n).1 == b.ResumeOut(n).1
  {
  }

  /** A handler that takes bytes owns the down slot, so no one holds any. */
  lemma TakeAgrees(s: H.State, x: Endpoint, id: Id, n: nat)
    requires H.Inv(s) && x.Inv() && Agree(s, x) && s.Is(id) && s.handlers[id].phase.Reading? && 0 < n <= |s.pipe|
    ensures Agree(s.(pipe := s.pipe[n..]), N.Act(x, N.Take(Server, n)).0)
  {
    H.HolderOwnsDown(s, id);
    HandIsHeld(s, x);
  }

  /** And whoever numbers bytes numbers the ones in hand. */
  lemma NumberAgrees(s: H.State, x: Endpoint, id: Id)
    requires H.Inv(s) && x.Inv() && Agree(s, x) && s.Is(id) && s.handlers[id].phase.Holding?
    ensures Agree(s.(layer := s.layer.Number(s.handlers[id].phase.bytes).0), N.Act(x, N.Number(Server)).0)
  {
    H.HolderOwnsDown(s, id);
    HandIsHeld(s, x);
    NumberSame(s.layer, x.layer, x.hand);
    hide Layer.Number;
  }

  lemma ReplayAgrees(s: H.State, x: Endpoint, room: nat)
    requires s.layer.Valid() && x.Inv() && Agree(s, x)
    ensures s.layer.HasPending() ==>
              Agree(s.(layer := s.layer.SendReplay(room).0), N.Act(x, N.SendReplay(Server, room)).0)
    ensures Agree(s.(layer := s.layer.RewindToAcked()), N.Act(x, N.Rewind(Server)).0)
  {
    OtherSame(s.layer, x.layer, room, 0);
    hide Layer.SendReplay, Layer.RewindToAcked;
  }

  lemma SendAgrees(s: H.State, x: Endpoint, e: H.Event)
    requires H.Inv(s) && x.Inv() && Agree(s, x) && e.InSending()
    ensures Agree(H.SendStep(s, e), Effect(x, SendImage(s, e)))
  {
    assert s.layer.Valid() && x.layer.Valid();
    ReplayAgrees(s, x, if e.Resend? then e.room else 0);
    hide H.Inv, Endpoint.Inv, N.Act, Layer.SendReplay, Layer.RewindToAcked, Layer.Number, SameSending;
    if s.Is(e.id) && !s.handlers[e.id].kind.OnlyUp? {
      if e.Take? && s.handlers[e.id].phase.Reading? && 0 < e.n <= |s.pipe| {
        TakeAgrees(s, x, e.id, e.n);
      } else if e.Number? && s.handlers[e.id].phase.Holding? {
        NumberAgrees(s, x, e.id);
      }
    }
  }

  /** Sections outside `nextOut` that touch the layer or the pipe. */
  lemma HearAgrees(s: H.State, x: Endpoint, n: nat)
    requires s.layer.Valid() && x.layer.Valid() && Agree(s, x)
    ensures Agree(s.(layer := s.layer.Ack(n).0), N.Hear(x, N.Ack(Client, n)))
    ensures var (l, ok) := s.layer.ResumeOut(n);
            Agree(s.(layer := if ok then l else l.MarkBroken()), N.Hear(x, N.Hello(Client, n)))
  {
    OtherSame(s.layer, x.layer, 0, n);
    OtherSame(s.layer.ResumeOut(n).0, x.layer.ResumeOut(n).0, 0, 0);
    hide Layer.Ack, Layer.ResumeOut, Layer.MarkBroken;
  }

  lemma WriteAgrees(s: H.State, x: Endpoint, p: seq<Byte>)
    requires s.layer.Valid() && x.layer.Valid() && Agree(s, x)
    ensures Agree(s.(written := s.written + p, pipe := s.pipe + p), N.Act(x, N.Write(Server, p)).0)
    ensures Agree(s.(layer := s.layer.MarkBroken()), N.Act(x, N.GiveUp(Server)).0)
  {
    OtherSame(s.layer, x.layer, 0, 0);
    hide Layer.MarkBroken;
  }

  lemma LayerAgrees(s: H.State, x: Endpoint, e: H.Event)
    requires s.layer.Valid() && x.layer.Valid() && Agree(s, x)
    requires e.AppWrite? || e.Ack? || e.Break? || e.ResumeOut?
    ensures Agree(H.Step(s, e), Effect(x, Image(s, e)))
  {
    hide Agree, N.Act, N.Hear, Layer.Ack, Layer.ResumeOut, Layer.MarkBroken;
    hide H.AttachStep, H.BodyStep, H.SendStep, Layer.Valid, Layer.Precedes;
    if e.Ack? {
      HearAgrees(s, x, e.n);
    } else if e.ResumeOut? {
      HearAgrees(s, x, e.r);
    } else {
      WriteAgrees(s, x, if e.AppWrite? then e.p else []);
    }
  }

  /** Everything else is the handlers' own business. */
  lemma OtherAgrees(s: H.State, e: H.Event)
    requires s.layer.Valid() && !e.InSending()
    requires !e.AppWrite? && !e.Ack? && !e.Break? && !e.ResumeOut?
    ensures var s' := H.Step(s, e);
            s'.layer == s.layer && s'.pipe == s.pipe && s'.written == s.written
  {
  }

  lemma EffectAgrees(s: H.State, x: Endpoint, e: H.Event)
    requires H.Inv(s) && x.Inv() && Agree(s, x)
    ensures s.layer.Valid() && Agree(H.Step(s, e), Effect(x, Image(s, e)))
  {
    assert s.layer.Valid();
    hide H.Inv, Effect;
    if e.InSending() {
      SendAgrees(s, x, e);
    } else if e.AppWrite? || e.Ack? || e.Break? || e.ResumeOut? {
      LayerAgrees(s, x, e);
    } else {
      OtherAgrees(s, e);
      assert Effect(x, None) == x by { NoEffect(x); }
    }
  }

  lemma NoEffect(x: Endpoint)
    requires x.layer.Valid()
    ensures Effect(x, None) == x
  {
  }

  /** In the protocol, an image happens to the server alone. */
  lemma ImageStep(t: N.State, s: H.State, e: H.Event)
    requires t.InRange() && Sent(t, e) && Image(s, e).Some?
    ensures N.Step(t, Image(s, e).value).server == Effect(t.server, Image(s, e))
  {
    hide N.Step, N.Act, N.Hear;
    var n := Image(s, e).value;
    if n.Deliver? {
      N.StepDeliver(t, n.m);
    } else {
      N.StepOf(t, n);
    }
  }

  lemma ServerOk(t: N.State)
    requires N.Inv(t)
    ensures t.InRange() && t.server.Inv()
  {
  }

  lemma SectionInv(j: Joint, e: H.Event)
    requires JointInv(j)
    ensures j.InRange() && JointInv(JointStep(j, Section(e)))
  {
    var s, t := j.handlers, j.net;
    ServerOk(t);
    assert s.layer.Valid();
    hide H.Inv, H.Step, N.Inv, N.Step, Image, Effect, Sent, Agree, Endpoint.Inv;
    if Sent(t, e) {
      H.StepInv(s, e);
      EffectAgrees(s, t.server, e);
      if Image(s, e).Some? {
        N.StepInv(t, Image(s, e).value);
        ImageStep(t, s, e);
      } else {
        NoEffect(t.server);
      }
    }
  }

  /** What happens elsewhere leaves the server's sending side alone, or breaks it. */
  lemma ElsewhereServer(t: N.State, e: N.Event)
    requires t.InRange() && !OfHandlers(e)
    ensures var x, x' := t.server, N.Step(t, e).server;
            && x'.pipe == x.pipe && x'.written == x.written
            && SameSending(if Gaps(t, e) then x.layer.MarkBroken() else x.layer, x'.layer)
  {
    if !e.Deliver? {
      N.StepOf(t, e);
    } else if e.m in t.net {
      N.StepDeliver(t, e.m);
    }
    hide N.Step;
  }

  lemma ElsewhereInv(j: Joint, e: N.Event)
    requires JointInv(j)
    ensures j.InRange() && JointInv(JointStep(j, Elsewhere(e)))
  {
    var s, t := j.handlers, j.net;
    ServerOk(t);
    assert s.layer.Valid();
    BreakStep(s);
    hide *;
    if !OfHandlers(e) {
      N.StepInv(t, e);
      H.StepInv(s, H.Break);
      ElsewhereAgrees(s, t, e);
    }
    JointElsewhere(j, e);
  }

  lemma ElsewhereAgrees(s: H.State, t: N.State, e: N.Event)
    requires s.layer.Valid() && t.InRange() && Agree(s, t.server) && !OfHandlers(e)
    ensures Agree(if Gaps(t, e) then H.Step(s, H.Break) else s, N.Step(t, e).server)
  {
    ElsewhereServer(t, e);
    OtherSame(s.layer, t.server.layer, 0, 0);
    BreakStep(s);
    hide H.Step, N.Step, Layer.MarkBroken, OfHandlers, Gaps;
  }

  lemma JointElsewhere(j: Joint, e: N.Event)
    requires JointInv(j) && j.InRange()
    requires !OfHandlers(e) ==>
               && N.Inv(N.Step(j.net, e)) && H.Inv(H.Step(j.handlers, H.Break))
               && Agree(if Gaps(j.net, e) then H.Step(j.handlers, H.Break) else j.handlers, N.Step(j.net, e).server)
    ensures JointInv(JointStep(j, Elsewhere(e)))
  {
    hide H.Inv, H.Step, N.Inv, N.Step, Agree, Gaps, OfHandlers;
  }

  lemma BreakStep(s: H.State)
    requires s.layer.Valid()
    ensures H.Step(s, H.Break) == s.(layer := s.layer.MarkBroken())
  {
  }

  lemma {:induction false} JointRunInv(j: Joint, events: seq<JointEvent>)
    requires JointInv(j)
    ensures j.InRange() && JointInv(JointRun(j, events))
  {
    assert j.InRange();
    if events != [] {
      hide JointInv, JointStep;
      JointRunInv(j, events[..|events| - 1]);
      match events[|events| - 1]
      case Section(e) => SectionInv(JointRun(j, events[..|events| - 1]), e);
      case Elsewhere(e) => ElsewhereInv(JointRun(j, events[..|events| - 1]), e);
    }
  }

  // ---- the theorem ----

  lemma {:induction false} Projections(clientMax: int, serverMax: int, events: seq<JointEvent>)
    returns (hs: seq<H.Event>, ns: seq<N.Event>)
    ensures var j := JointRun(JointInit(clientMax, serverMax), events);
            && j.handlers == H.Run(H.Init(serverMax), hs)
            && j.net == N.Run(N.Init(clientMax, serverMax), ns)
  {
    if events == [] {
      hs, ns := [], [];
    } else {
      hs, ns := Projections(clientMax, serverMax, events[..|events| - 1]);
      var j, e := JointRun(JointInit(clientMax, serverMax), events[..|events| - 1]), events[|events| - 1];
      var s0, t0 := H.Init(serverMax), N.Init(clientMax, serverMax);
      if e.Section? && Sent(j.net, e.s) {
        RunOn(s0, hs, e.s);
        hs := hs + [e.s];
        if Image(j.handlers, e.s).Some? {
          N.RunThen(t0, ns, Image(j.handlers, e.s).value);
          ns := ns + [Image(j.handlers, e.s).value];
        }
      } else if e.Elsewhere? && !OfHandlers(e.n) {
        N.RunThen(t0, ns, e.n);
        ns := ns + [e.n];
        if Gaps(j.net, e.n) {
          RunOn(s0, hs, H.Break);
          hs := hs + [H.Break];
        }
      }
    }
  }

  lemma RunOn(s: H.State, events: seq<H.Event>, e: H.Event)
    requires s.layer.Valid()
    ensures H.Run(s, events + [e]) == H.Step(H.Run(s, events), e)
  {
    assert (events + [e])[..|events|] == events;
  }

  /**
  The handlers implement the protocol's server. However claims, kicks, resumes, replays, rewinds,
  breaks and the two sections of `nextOut` of any number of handlers interleave, with acks and
  resume requests the client really sent, the run is a run of the handlers and at once a run of the
  protocol over an arbitrary network with the same pipe, bytes written, sending layer and bytes in
  hand; so the client's application has exactly the first bytes the server's application wrote.
  */
  lemma {:induction false} HandlersImplementServer(clientMax: int, serverMax: int, events: seq<JointEvent>)
    returns (hs: seq<H.Event>, ns: seq<N.Event>)
    ensures var s, t := H.Run(H.Init(serverMax), hs), N.Run(N.Init(clientMax, serverMax), ns);
            && JointRun(JointInit(clientMax, serverMax), events) == Joint(s, t)
            && Agree(s, t.server) && t.server.hand == H.Held(s)
            && s.layer.send <= |s.written| && s.numbered == s.written[..s.layer.send]
            && t.client.layer.recv <= |s.written| && t.client.accepted == s.written[..t.client.layer.recv]
  {
    hs, ns := Projections(clientMax, serverMax, events);
    H.RunInv(H.Init(serverMax), []);
    var j0 := JointInit(clientMax, serverMax);
    assert JointInv(j0);
    JointRunInv(j0, events);
    var j := JointRun(j0, events);
    hide JointRun, H.Run, N.Run;
    ServerOk(j.net);
    HandIsHeld(j.handlers, j.net.server);
    hide H.Inv, H.Held;
  }
}
