/**
Two endpoints over a network that may lose, duplicate, delay and reorder anything: every message
ever sent stays in a set from which any one may be delivered at any time, any number of times.
*/
module EndToEnd {
  import opened Bytes
  import opened Endpoints

  datatype Msg =
    | Data(from: Side, off: nat, bytes: seq<Byte>)
    | Ack(from: Side, n: nat)
    | Hello(from: Side, recv: nat)   // a resume request or response: "I have this many bytes"

  datatype State = State(client: Endpoint, server: Endpoint, net: set<Msg>) {
    /** No index in the code would be out of range. */
    ghost predicate InRange() {
      client.layer.Valid() && server.layer.Valid()
    }

    function At(side: Side): Endpoint {
      if side.Client? then client else server
    }

    function Put(side: Side, e: Endpoint): State {
      if side.Client? then this.(client := e) else this.(server := e)
    }

    function Post(m: Msg): State {
      this.(net := net + {m})
    }
  }

  datatype Event =
    | Write(side: Side, p: seq<Byte>)
    | Take(side: Side, n: nat)
    | Number(side: Side)
    | SendReplay(side: Side, room: nat)
    | TakeAck(side: Side)
    | ReportRecv(side: Side)          // recvOffsetNow put on a batch request or response
    | ResetAck(side: Side)
    | SayHello(side: Side)
    | Rewind(side: Side)
    | GiveUp(side: Side)              // markBroken, from any cause
    | CloseIn(side: Side)
    | Deliver(m: Msg)

  function Init(clientMax: int, serverMax: int): State {
    State(NewEndpoint(clientMax), NewEndpoint(serverMax), {})
  }

  /** A side's own critical section, and the message it puts on the network, if any. */
  function Act(me: Endpoint, e: Event): (r: (Endpoint, Option<Msg>))
    requires !e.Deliver? && me.layer.Valid()
    ensures r.0.layer.Valid() && me.GrowsInto(r.0)
  {
    match e
    case Write(_, p) => (me.Write(p), None)
    case Take(_, n) => if me.CanTake(n) then (me.Take(n), None) else (me, None)
    case Number(side) =>
      if me.hand == [] then (me, None) else
      var (me', off, data) := me.Number();
      (me', Some(Data(side, off, data)))
    case SendReplay(side, room) =>
      if !me.layer.HasPending() then (me, None) else
      var (me', off, data) := me.SendReplay(room);
      (me', Some(Data(side, off, data)))
    case TakeAck(side) =>
      var (l, due) := me.layer.TakeAck();
      (me.(layer := l), if due.None? then None else Some(Ack(side, due.value)))
    case ReportRecv(side) => (me, Some(Ack(side, me.layer.recv)))
    case SayHello(side) => (me, Some(Hello(side, me.layer.recv)))
    case ResetAck(_) => (me.(layer := me.layer.ResetAck()), None)
    case Rewind(_) => (me.(layer := me.layer.RewindToAcked()), None)
    case GiveUp(_) => (me.(layer := me.layer.MarkBroken()), None)
    case CloseIn(_) => (me.(inClosed := true), None)
  }

  /** A side handles a message of its peer's. */
  function Hear(me: Endpoint, m: Msg): (r: Endpoint)
    requires me.layer.Valid()
    ensures r.layer.Valid() && me.GrowsInto(r)
  {
    match m
    case Data(_, off, bytes) => me.Receive(off, bytes).0
    case Ack(_, n) => me.Ack(n).0
    case Hello(from, r) => me.Resume(r, from.Client?).0
  }

  /** One step; an event that is not enabled changes nothing. */
  function Step(s: State, e: Event): (r: State)
    requires s.InRange()
    ensures r.InRange()
    ensures s.client.GrowsInto(r.client) && s.server.GrowsInto(r.server)
  {
    if e.Deliver? then
      if e.m !in s.net then s
      else s.Put(e.m.from.Peer(), Hear(s.At(e.m.from.Peer()), e.m))
    else
      var (me, m) := Act(s.At(e.side), e);
      var s' := s.Put(e.side, me);
      if m.None? then s' else s'.Post(m.value)
  }

  // ---- one step keeps the invariant ----

  /** What an honest message says of its sender stays true as the sender goes on. */
  ghost predicate MsgOk(from: Endpoint, m: Msg) {
    match m
    case Data(_, off, bytes) => Honest(from, off, bytes)
    case Ack(_, n) => n <= from.layer.recv
    case Hello(_, r) => r <= from.layer.recv
  }

  ghost predicate Inv(s: State) {
    && Paired(s.client, s.server)
    && (forall m :: m in s.net ==> MsgOk(s.At(m.from), m))
  }

  lemma MsgStaysOk(x: Endpoint, x': Endpoint, m: Msg)
    requires MsgOk(x, m) && x.GrowsInto(x') && x'.Inv()
    ensures MsgOk(x', m)
  {
    if m.Data? {
      assert x'.written[m.off..m.off + |m.bytes|] == x.written[m.off..m.off + |m.bytes|];
    }
  }

  /** Whatever a side does on its own, it still pairs with its peer and says only what is true. */
  lemma ActPaired(x: Endpoint, y: Endpoint, e: Event)
    requires Paired(x, y) && !e.Deliver?
    ensures var (x', m) := Act(x, e);
            Paired(x', y) && (m.Some? ==> m.value.from == e.side && MsgOk(x', m.value))
  {
    match e
    case Write(_, p) => PairedWrite(x, y, p);
    case Take(_, n) => if x.CanTake(n) { PairedTake(x, y, n); }
    case Number(_) => if x.hand != [] { PairedNumber(x, y); }
    case SendReplay(_, room) => if x.layer.HasPending() { PairedSendReplay(x, y, room); }
    case TakeAck(_) => PairedLocal(x, y, x.layer.TakeAck().0);
    case ResetAck(_) => PairedLocal(x, y, x.layer.ResetAck());
    case Rewind(_) => PairedLocal(x, y, x.layer.RewindToAcked());
    case GiveUp(_) => PairedLocal(x, y, x.layer.MarkBroken());
    case ReportRecv(_) =>
    case SayHello(_) =>
    case CloseIn(_) =>
  }

  /** Whatever honest message of its peer's a side hears, however late or often, they still pair. */
  lemma HearPaired(x: Endpoint, y: Endpoint, m: Msg)
    requires Paired(x, y) && MsgOk(y, m)
    ensures Paired(Hear(x, m), y)
  {
    match m
    case Data(_, off, bytes) => PairedReceive(x, y, off, bytes);
    case Ack(_, n) => PairedAck(x, y, n);
    case Hello(from, r) => PairedResume(x, y, r, from.Client?);
  }

  /** One side goes on, saying at most one true thing, and still pairs with the other. */
  lemma GoesOn(s: State, side: Side, x': Endpoint, said: Option<Msg>)
    requires Inv(s) && s.At(side).GrowsInto(x') && Paired(x', s.At(side.Peer()))
    requires said.Some? ==> said.value.from == side && MsgOk(x', said.value)
    ensures var s' := s.Put(side, x'); Inv(if said.None? then s' else s'.Post(said.value))
  {
    hide MsgOk;
    PairedSym(x', s.At(side.Peer()));
    var s' := if said.None? then s.Put(side, x') else s.Put(side, x').Post(said.value);
    forall m | m in s'.net ensures MsgOk(s'.At(m.from), m) {
      if m in s.net && m.from == side {
        MsgStaysOk(s.At(side), x', m);
      }
    }
  }

  lemma {:induction false} StepInv(s: State, e: Event)
    requires Inv(s)
    ensures Inv(Step(s, e))
  {
    assert s.InRange();
    PairedSym(s.client, s.server);
    hide Act, Hear, Paired, MsgOk, Endpoint.GrowsInto;
    if !e.Deliver? {
      ActPaired(s.At(e.side), s.At(e.side.Peer()), e);
      GoesOn(s, e.side, Act(s.At(e.side), e).0, Act(s.At(e.side), e).1);
    } else if e.m in s.net {
      var side := e.m.from.Peer();
      HearPaired(s.At(side), s.At(e.m.from), e.m);
      GoesOn(s, side, Hear(s.At(side), e.m), None);
    }
  }

  /** What a step of one side does to the state. */
  lemma StepOf(s: State, e: Event)
    requires s.InRange() && !e.Deliver?
    ensures var (me, m) := Act(s.At(e.side), e);
            var s' := Step(s, e);
            && s'.At(e.side) == me && s'.At(e.side.Peer()) == s.At(e.side.Peer())
            && s'.net == s.net + (if m.Some? then {m.value} else {})
  {
    hide Act;
  }

  /** What delivering a message that was sent does to the state. */
  lemma StepDeliver(s: State, m: Msg)
    requires s.InRange() && m in s.net
    ensures var s' := Step(s, Deliver(m));
            && s'.At(m.from.Peer()) == Hear(s.At(m.from.Peer()), m) && s'.At(m.from) == s.At(m.from)
            && s'.net == s.net
  {
    hide Hear;
  }

  lemma StepUnsent(s: State, m: Msg)
    requires s.InRange() && m !in s.net
    ensures Step(s, Deliver(m)) == s
  {
  }

  // ---- runs ----

  /** The state after a run. */
  function Run(s: State, events: seq<Event>): (r: State)
    requires s.InRange()
    ensures r.InRange()
  {
    if events == [] then s else Step(Run(s, events[..|events| - 1]), events[|events| - 1])
  }

  lemma {:induction false} RunInv(s: State, events: seq<Event>)
    requires Inv(s)
    ensures Inv(Run(s, events))
  {
    if events != [] {
      RunInv(s, events[..|events| - 1]);
      StepInv(Run(s, events[..|events| - 1]), events[|events| - 1]);
    }
  }

  /**
  End-to-end safety. In every run, whatever the network does and whichever side has given up on
  resuming, each application has been handed exactly the first `recv` bytes its peer wrote.
  */
  lemma {:induction false} EndToEndSafety(clientMax: int, serverMax: int, events: seq<Event>)
    ensures var s := Run(Init(clientMax, serverMax), events);
            && s.server.layer.recv <= |s.client.written|
            && s.server.accepted == s.client.written[..s.server.layer.recv]
            && s.client.layer.recv <= |s.server.written|
            && s.client.accepted == s.server.written[..s.client.layer.recv]
  {
    RunInv(Init(clientMax, serverMax), events);
  }

  /**
  Conservation and representation. In every reachable state the three send offsets are ordered,
  an unbroken layer retains exactly the numbered bytes that are not acked, never more than its
  bound, and acked prefix, retained bytes, bytes in hand and pipe together are everything written.
  A broken layer retains nothing.
  */
  lemma {:induction false} Conservation(clientMax: int, serverMax: int, events: seq<Event>, side: Side)
    ensures var e := Run(Init(clientMax, serverMax), events).At(side);
            var l := e.layer;
            && l.acked <= l.cursor <= l.send <= |e.written|
            && (!l.broken ==> e.written[..l.acked] + l.replay + e.hand + e.pipe == e.written)
            && (!l.broken ==> l.replay == e.written[l.acked..l.send])
            && (l.broken ==> l.replay == [] && l.cursor == l.send
                             && e.written[..l.send] + e.hand + e.pipe == e.written)
            && |l.replay| <= l.maxReplay
            && l.lastAck <= l.recv
  {
    RunInv(Init(clientMax, serverMax), events);
    EndpointConservation(Run(Init(clientMax, serverMax), events).At(side));
  }

  /** Broken is absorbing, and offsets the peer has confirmed never go back, over any further run. */
  lemma {:induction false} RunMonotone(s: State, events: seq<Event>, side: Side)
    requires s.InRange()
    ensures s.At(side).GrowsInto(Run(s, events).At(side))
  {
    if events != [] {
      RunMonotone(s, events[..|events| - 1], side);
    }
  }

  // ---- the one honest message that can hurt: a stale resume ----

  /**
  When a resume request or response from a reachable state's network is processed, however late,
  it is refused exactly when the layer is already broken or the peer has since acknowledged past
  it; it can never name bytes that were not sent. Any other stale resume only rewinds.
  */
  lemma {:induction false} StaleResumeExact(clientMax: int, serverMax: int, events: seq<Event>, m: Msg)
    requires m.Hello?
    requires m in Run(Init(clientMax, serverMax), events).net
    ensures var s := Run(Init(clientMax, serverMax), events);
            var l := s.At(m.from.Peer()).layer;
            && (l.ResumeOut(m.recv).1 <==> !l.broken && l.acked <= m.recv)
            && (l.ResumeOut(m.recv).1 ==> !Step(s, Deliver(m)).At(m.from.Peer()).layer.broken)
            && (!l.ResumeOut(m.recv).1 && m.from.Client? ==> Step(s, Deliver(m)).server.layer.broken)
  {
    var s := Run(Init(clientMax, serverMax), events);
    RunInv(Init(clientMax, serverMax), events);
    assert MsgOk(s.At(m.from), m);
    PairedResume(s.At(m.from.Peer()), s.At(m.from), m.recv, m.from.Peer().Server?);
  }

  lemma RunThen(s: State, events: seq<Event>, e: Event)
    requires s.InRange()
    ensures Run(s, events + [e]) == Step(Run(s, events), e)
  {
    assert (events + [e])[..|events|] == events;
  }
}
