/**
Batch downloads: a client that polls serially, a server whose poll handler runs section by section,
and acks from uploads landing in between. Responses may be lost, requests may be stale or repeated,
and no handshake is needed between polls.
*/
module BatchPoll {
  import opened Bytes
  import opened Layers
  import opened Endpoints

  /** Where the attached poll handler is in `pollBatchResumable`. */
  datatype Stage =
    | NoPoll
    | Attached(id: nat)
    | Acked(id: nat)
    | Rewound(id: nat)
    | Reading(id: nat)   // inside nextOut, nothing was pending, waiting on the pipe
    | Holding(id: nat)   // bytes taken from the pipe, not numbered
  {
    predicate Past() {
      Acked? || Rewound? || Reading? || Holding?
    }
  }

  /** A data response, with the server's acked offset and state and the client's offset at its numbering. */
  datatype Response = Response(off: nat, bytes: seq<Byte>, ackedThen: nat, recvThen: nat, wasBroken: bool)

  datatype State = State(
    server: Endpoint,
    client: Endpoint,
    polls: map<nat, nat>,          // the ack each poll request carries
    stage: Stage,
    responses: map<nat, Response>,
    current: Option<nat>,          // the one request the client is listening to
    reported: set<nat>)            // receive offsets the client has put on uploads and resumes
  {
    ghost predicate InRange() {
      server.layer.Valid() && client.layer.Valid()
    }
  }

  datatype Event =
    | AppWrite(p: seq<Byte>)
    | Issue(id: nat)
    | Abandon                      // timeout, lost response, broken body
    | Report
    | UploadAck(n: nat)
    | ServeResume(n: nat)
    | Attach(id: nat)
    | ApplyAck
    | Rewind
    | Resend(room: nat)
    | Check                        // nextOut finds nothing pending
    | Take(n: nat)
    | Number
    | Leave                        // idle, cancelled or kicked: no data response
    | Accept
  {
    predicate OfClient() {
      Issue? || Abandon? || Report? || Accept?
    }

    predicate OfNextOut() {
      Resend? || Check? || Take? || Number?
    }
  }

  function Init(clientMax: int, serverMax: int): State {
    State(NewEndpoint(serverMax), NewEndpoint(clientMax), map[], NoPoll, map[], None, {})
  }

  function Answer(s: State, id: nat, server: Endpoint, off: nat, bytes: seq<Byte>): State {
    s.(server := server, stage := NoPoll,
       responses := s.responses[id := Response(off, bytes, s.server.layer.acked, s.client.layer.recv,
                                               s.server.layer.broken)])
  }

  function ClientStep(s: State, e: Event): (r: State)
    requires e.OfClient() && s.InRange()
    ensures r.InRange()
  {
    match e
    case Issue(id) =>
      if s.current.Some? || id in s.polls then s
      else s.(polls := s.polls[id := s.client.layer.recv], current := Some(id))
    case Abandon => s.(current := None)
    case Report => s.(reported := s.reported + {s.client.layer.recv})
    case Accept =>
      if s.current.None? || s.current.value !in s.responses then s else
      var resp := s.responses[s.current.value];
      s.(client := s.client.Receive(resp.off, resp.bytes).0, current := None)
  }

  function NextOutStep(s: State, e: Event): (r: State)
    requires e.OfNextOut() && s.InRange()
    ensures r.InRange()
  {
    match e
    case Resend(room) =>
      if !s.stage.Rewound? || room == 0 || !s.server.layer.HasPending() then s else
      var (x, off, bytes) := s.server.SendReplay(room);
      Answer(s, s.stage.id, x, off, bytes)
    case Check =>
      if s.stage.Rewound? && !s.server.layer.HasPending() then s.(stage := Reading(s.stage.id)) else s
    case Take(n) =>
      if s.stage.Reading? && s.server.CanTake(n)
      then s.(server := s.server.Take(n), stage := Holding(s.stage.id)) else s
    case Number =>
      if !s.stage.Holding? then s else
      var (x, off, bytes) := s.server.Number();
      Answer(s, s.stage.id, x, off, bytes)
  }

  function Step(s: State, e: Event): (r: State)
    requires s.InRange()
    ensures r.InRange()
  {
    if e.OfClient() then ClientStep(s, e)
    else if e.OfNextOut() then NextOutStep(s, e)
    else
      match e
      case AppWrite(p) => s.(server := s.server.Write(p))
      case UploadAck(n) => if n in s.reported then s.(server := s.server.Ack(n).0) else s
      case ServeResume(n) =>
        if n in s.reported && s.stage.NoPoll? then s.(server := s.server.Resume(n, true).0) else s
      case Attach(id) => if s.stage.NoPoll? && id in s.polls then s.(stage := Attached(id)) else s
      case ApplyAck =>
        if s.stage.Attached? && s.stage.id in s.polls
        then s.(server := s.server.Ack(s.polls[s.stage.id]).0, stage := Acked(s.stage.id)) else s
      case Rewind =>
        if s.stage.Acked?
        then s.(server := s.server.(layer := s.server.layer.RewindToAcked()), stage := Rewound(s.stage.id)) else s
      case Leave => if s.stage.Holding? then s else s.(stage := NoPoll)
  }

  function Run(s: State, events: seq<Event>): (r: State)
    requires s.InRange()
    ensures r.InRange()
  {
    if events == [] then s else Step(Run(s, events[..|events| - 1]), events[|events| - 1])
  }

  // ---- the invariant ----

  ghost predicate RequestsOk(s: State) {
    && (forall id :: id in s.polls ==> s.polls[id] <= s.client.layer.recv)
    && (forall n :: n in s.reported ==> n <= s.client.layer.recv)
    && (s.current.Some? ==> s.current.value in s.polls && s.polls[s.current.value] == s.client.layer.recv)
    && s.responses.Keys <= s.polls.Keys
  }

  /** Once its ack is applied, the attached poll never sees the acked offset below it. */
  ghost predicate StageOk(s: State) {
    var l := s.server.layer;
    && (!s.stage.NoPoll? ==> s.stage.id in s.polls)
    && (s.stage.Past() && !l.broken ==> s.polls[s.stage.id] <= l.acked)
    && (s.stage.Rewound? && !l.broken ==> l.cursor == l.acked)
    && ((s.stage.Reading? || s.stage.Holding?) && !l.broken ==> l.acked == l.send)
    && (s.server.hand != [] <==> s.stage.Holding?)
  }

  ghost predicate ResponseOk(s: State, id: nat, r: Response) {
    && Honest(s.server, r.off, r.bytes) && r.bytes != []
    && (!r.wasBroken ==> r.off == r.ackedThen <= r.recvThen <= s.client.layer.recv)
    && (!r.wasBroken && s.current == Some(id) ==> r.off == s.client.layer.recv)
  }

  ghost predicate ResponsesOk(s: State) {
    forall id :: id in s.responses ==> ResponseOk(s, id, s.responses[id])
  }

  ghost predicate Inv(s: State) {
    && Paired(s.server, s.client)
    && !s.client.inClosed
    && RequestsOk(s) && StageOk(s) && ResponsesOk(s)
  }

  // ---- every event keeps it ----

  lemma ResponsesGrow(s: State, s': State)
    requires ResponsesOk(s) && s'.responses == s.responses
    requires s.server.GrowsInto(s'.server) && s'.server.Inv()
    requires s.client.layer.recv <= s'.client.layer.recv
    requires s'.current == None || (s'.current == s.current && s'.client == s.client)
             || (s'.current.Some? && s'.current.value !in s'.responses && s'.client == s.client)
    ensures ResponsesOk(s')
  {
    forall id | id in s'.responses ensures ResponseOk(s', id, s'.responses[id]) {
      var r := s.responses[id];
      assert ResponseOk(s, id, r);
      assert s'.server.written[r.off..r.off + |r.bytes|] == s.server.written[r.off..r.off + |r.bytes|];
    }
  }

  /** A change to the server alone that keeps the poll's stage sound. */
  lemma ServerInv(s: State, s': State)
    requires Inv(s) && s' == s.(server := s'.server, stage := s'.stage)
    requires s.server.GrowsInto(s'.server) && Paired(s'.server, s.client) && StageOk(s')
    ensures Inv(s')
  {
    ResponsesGrow(s, s');
  }

  lemma AcceptInv(s: State, id: nat)
    requires Inv(s) && s.current == Some(id) && id in s.responses
    ensures Inv(ClientStep(s, Accept))
  {
    var resp, s' := s.responses[id], ClientStep(s, Accept);
    assert ResponseOk(s, id, resp);
    PairedSym(s.server, s.client);
    PairedReceive(s.client, s.server, resp.off, resp.bytes);
    PairedSym(s'.server, s'.client);
    ResponsesGrow(s, s');
  }

  lemma ClientInv(s: State, e: Event)
    requires Inv(s) && e.OfClient()
    ensures Inv(ClientStep(s, e))
  {
    if e.Accept? {
      if s.current.Some? && s.current.value in s.responses { AcceptInv(s, s.current.value); }
    } else {
      ResponsesGrow(s, ClientStep(s, e));
    }
  }

  /** Recording an honest response that starts at the acked offset. */
  lemma AnswerInv(s: State, x: Endpoint, off: nat, bytes: seq<Byte>)
    requires Inv(s) && (s.stage.Rewound? || s.stage.Holding?)
    requires s.server.GrowsInto(x) && Paired(x, s.client) && x.hand == []
    requires Honest(x, off, bytes) && bytes != []
    requires !s.server.layer.broken ==> off == s.server.layer.acked
    ensures Inv(Answer(s, s.stage.id, x, off, bytes))
  {
    var id := s.stage.id;
    var s' := Answer(s, id, x, off, bytes);
    ResponsesGrow(s, s.(server := x));
    forall k | k in s'.responses ensures ResponseOk(s', k, s'.responses[k]) {
      if k != id {
        assert ResponseOk(s.(server := x), k, s.responses[k]);
      }
    }
  }

  lemma NextOutInv(s: State, e: Event)
    requires Inv(s) && e.OfNextOut()
    ensures Inv(NextOutStep(s, e))
  {
    match e
    case Resend(room) =>
      if s.stage.Rewound? && room > 0 && s.server.layer.HasPending() {
        PairedSendReplay(s.server, s.client, room);
        SendReplayInv(s.server, room);
        var (x, off, bytes) := s.server.SendReplay(room);
        AnswerInv(s, x, off, bytes);
      }
    case Check => ServerInv(s, NextOutStep(s, e));
    case Take(n) =>
      if s.stage.Reading? && s.server.CanTake(n) {
        PairedTake(s.server, s.client, n);
        ServerInv(s, NextOutStep(s, e));
      }
    case Number =>
      if s.stage.Holding? {
        PairedNumber(s.server, s.client);
        NumberInv(s.server);
        var (x, off, bytes) := s.server.Number();
        AnswerInv(s, x, off, bytes);
      }
  }

  lemma WriteInv(s: State, p: seq<Byte>)
    requires Inv(s)
    ensures Inv(s.(server := s.server.Write(p)))
  {
    PairedWrite(s.server, s.client, p);
    ServerInv(s, s.(server := s.server.Write(p)));
  }

  /** An honest ack, on an upload or on the attached poll itself. */
  lemma AckInv(s: State, n: nat)
    requires Inv(s) && n <= s.client.layer.recv
    ensures Inv(s.(server := s.server.Ack(n).0))
    ensures s.stage.Attached? && s.polls[s.stage.id] == n ==>
              Inv(s.(server := s.server.Ack(n).0, stage := Acked(s.stage.id)))
  {
    PairedAck(s.server, s.client, n);
    var s' := s.(server := s.server.Ack(n).0);
    ServerInv(s, s');
    if s.stage.Attached? && s.polls[s.stage.id] == n {
      ServerInv(s, s'.(stage := Acked(s.stage.id)));
    }
  }

  lemma ResumeInv(s: State, n: nat)
    requires Inv(s) && n <= s.client.layer.recv && s.stage.NoPoll?
    ensures Inv(s.(server := s.server.Resume(n, true).0))
  {
    PairedResume(s.server, s.client, n, true);
    ServerInv(s, s.(server := s.server.Resume(n, true).0));
  }

  lemma RewindInv(s: State)
    requires Inv(s) && s.stage.Acked?
    ensures Inv(s.(server := s.server.(layer := s.server.layer.RewindToAcked()), stage := Rewound(s.stage.id)))
  {
    PairedLocal(s.server, s.client, s.server.layer.RewindToAcked());
    ServerInv(s, s.(server := s.server.(layer := s.server.layer.RewindToAcked()), stage := Rewound(s.stage.id)));
  }

  /** The handler comes and goes. */
  lemma StageInv(s: State, stage: Stage)
    requires Inv(s) && !s.stage.Holding?
    requires stage == NoPoll || (s.stage.NoPoll? && stage.Attached? && stage.id in s.polls)
    ensures Inv(s.(stage := stage))
  {
    ServerInv(s, s.(stage := stage));
  }

  lemma {:induction false} ServerSideInv(s: State, e: Event)
    requires Inv(s) && !e.OfClient() && !e.OfNextOut()
    ensures Inv(Step(s, e))
  {
    assert RequestsOk(s) && s.InRange();
    hide Inv;
    match e
    case AppWrite(p) => WriteInv(s, p);
    case UploadAck(n) => if n in s.reported { AckInv(s, n); }
    case ServeResume(n) => if n in s.reported && s.stage.NoPoll? { ResumeInv(s, n); }
    case Attach(id) => if s.stage.NoPoll? && id in s.polls { StageInv(s, Attached(id)); }
    case ApplyAck => if s.stage.Attached? && s.stage.id in s.polls { AckInv(s, s.polls[s.stage.id]); }
    case Rewind => if s.stage.Acked? { RewindInv(s); }
    case Leave => if !s.stage.Holding? { StageInv(s, NoPoll); }
  }

  lemma {:induction false} StepInv(s: State, e: Event)
    requires Inv(s)
    ensures Inv(Step(s, e))
  {
    if e.OfClient() {
      ClientInv(s, e);
    } else if e.OfNextOut() {
      NextOutInv(s, e);
    } else {
      ServerSideInv(s, e);
    }
  }

  lemma {:induction false} RunInv(s: State, events: seq<Event>)
    requires Inv(s)
    ensures Inv(Run(s, events))
  {
    if events != [] {
      RunInv(s, events[..|events| - 1]);
      StepInv(Run(s, events[..|events| - 1]), events[|events| - 1]);
    }
  }

  /**
  Serial batch polls need no handshake. In every run, every data response a then unbroken server
  ever made starts at its acked offset of that moment, which is no more than the client had; and
  the response to the request the client is listening to starts exactly where the client stands,
  so accepting it never reports a gap or a duplicate and extends the stream by its full length.
  */
  lemma {:induction false} SerialPolls(clientMax: int, serverMax: int, events: seq<Event>, id: nat)
    requires id in Run(Init(clientMax, serverMax), events).responses
    requires !Run(Init(clientMax, serverMax), events).responses[id].wasBroken
    ensures var s := Run(Init(clientMax, serverMax), events);
            var r := s.responses[id];
            && r.off == r.ackedThen <= r.recvThen
            && (s.current == Some(id) ==>
                  && r.off == s.client.layer.recv
                  && s.client.Receive(r.off, r.bytes).1 == Accepted
                  && Step(s, Accept).client.layer.recv == s.client.layer.recv + |r.bytes|
                  && Step(s, Accept).client.accepted == s.client.accepted + r.bytes
                  && Step(s, Accept).client.accepted <= s.server.written)
  {
    var s0 := Init(clientMax, serverMax);
    RunInv(s0, events);
    var s := Run(s0, events);
    var r := s.responses[id];
    assert ResponseOk(s, id, r);
    if s.current == Some(id) {
      assert r.bytes[0..] == r.bytes;
      ClientInv(s, Accept);
    }
  }

  // ---- a poll delivers ----

  lemma {:induction false} RunAppend(s: State, a: seq<Event>, b: seq<Event>)
    requires s.InRange()
    ensures Run(s, a + b) == Run(Run(s, a), b)
  {
    if b == [] {
      assert a + b == a;
    } else {
      hide Step;
      assert (a + b)[..|a + b| - 1] == a + b[..|b| - 1];
      RunAppend(s, a, b[..|b| - 1]);
    }
  }

  /** One more event of a run under construction that keeps the invariant. */
  lemma Grow(s0: State, events: seq<Event>, s: State, e: Event) returns (events': seq<Event>, s': State)
    requires s0.InRange() && Run(s0, events) == s && Inv(s)
    ensures events' == events + [e] && s' == Step(s, e) == Run(s0, events') && Inv(s')
  {
    events', s' := events + [e], Step(s, e);
    assert events'[..|events|] == events;
    StepInv(s, e);
  }

  /** On the way of a poll of the client's, nothing heard or written since `s0`. */
  ghost predicate Midway(s0: State, s: State, stage: Stage, id: nat) {
    && Inv(s) && s.stage == stage && s.current == Some(id) && !s.server.layer.broken
    && s.client == s0.client && s.server.written == s0.server.written
  }

  lemma IssueSteps(s: State, id: nat)
    requires Inv(s) && s.stage.NoPoll? && s.current.None? && id !in s.polls && !s.server.layer.broken
    ensures s.InRange() && Midway(s, Step(Step(s, Issue(id)), Attach(id)), Attached(id), id)
  {
    StepInv(s, Issue(id));
    StepInv(Step(s, Issue(id)), Attach(id));
    hide Inv;
  }

  lemma AckStep(s0: State, s: State, id: nat)
    requires Midway(s0, s, Attached(id), id)
    ensures s.InRange() && Midway(s0, Step(s, ApplyAck), Acked(id), id)
  {
    StepInv(s, ApplyAck);
    AckRepresents(s.server.layer, s.server.written[..s.server.layer.send], s.polls[id]);
    PairedAck(s.server, s.client, s.polls[id]);
    hide Inv, Paired, Layer.Ack;
  }

  lemma RewindStep(s0: State, s: State, id: nat)
    requires Midway(s0, s, Acked(id), id)
    ensures s.InRange() && Midway(s0, Step(s, Rewind), Rewound(id), id)
  {
    StepInv(s, Rewind);
    hide Inv;
  }

  lemma CheckStep(s0: State, s: State, id: nat)
    requires Midway(s0, s, Rewound(id), id) && !s.server.layer.HasPending()
    requires s.client.layer.recv < |s.server.written|
    ensures s.InRange() && Midway(s0, Step(s, Check), Reading(id), id)
    ensures s.server.hand == [] && s.server.pipe != [] && Step(s, Check).server == s.server
  {
    StepInv(s, Check);
    assert s.server.Inv() && s.server.layer.send <= s.client.layer.recv;
    hide Inv;
  }

  lemma TakeStep(s0: State, s: State, id: nat, n: nat)
    requires Midway(s0, s, Reading(id), id) && s.server.hand == [] && 0 < n <= |s.server.pipe|
    ensures s.InRange() && Midway(s0, Step(s, Take(n)), Holding(id), id)
  {
    StepInv(s, Take(n));
    hide Inv;
  }

  /** The answer is made, and made by an unbroken server. */
  ghost predicate Answered(s0: State, s: State, id: nat) {
    && Inv(s) && s.stage == NoPoll && s.current == Some(id) && s.client == s0.client
    && s.server.written == s0.server.written && id in s.responses && !s.responses[id].wasBroken
  }

  lemma NumberStep(s0: State, s: State, id: nat)
    requires Midway(s0, s, Holding(id), id)
    ensures s.InRange() && Answered(s0, Step(s, Number), id)
  {
    StepInv(s, Number);
    hide Inv;
  }

  lemma ResendStep(s0: State, s: State, id: nat, room: nat)
    requires Midway(s0, s, Rewound(id), id) && s.server.layer.HasPending() && room > 0
    ensures s.InRange() && Answered(s0, Step(s, Resend(room)), id)
  {
    StepInv(s, Resend(room));
    hide Inv;
  }

  lemma Ranged(s: State)
    requires Inv(s)
    ensures s.InRange() && Run(s, []) == s
  {
  }

  /** A poll issued and attached comes to the point where it sends. */
  lemma {:induction false} PollReaches(s: State, id: nat) returns (events: seq<Event>, s': State)
    requires Inv(s) && s.stage.NoPoll? && s.current.None? && id !in s.polls && !s.server.layer.broken
    ensures s.InRange() && Run(s, events) == s' && Midway(s, s', Rewound(id), id)
  {
    Ranged(s);
    IssueSteps(s, id);
    AckStep(s, Step(Step(s, Issue(id)), Attach(id)), id);
    RewindStep(s, Step(Step(Step(s, Issue(id)), Attach(id)), ApplyAck), id);
    hide *;
    events, s' := Grow(s, [], s, Issue(id));
    events, s' := Grow(s, events, s', Attach(id));
    events, s' := Grow(s, events, s', ApplyAck);
    events, s' := Grow(s, events, s', Rewind);
  }

  /** With bytes the client lacks, it answers with some of them. */
  lemma {:induction false} PollAnswers(s0: State, s: State, id: nat, room: nat)
    returns (events: seq<Event>, s': State)
    requires Midway(s0, s, Rewound(id), id) && room > 0 && s.client.layer.recv < |s.server.written|
    ensures s.InRange() && Run(s, events) == s' && Answered(s0, s', id)
  {
    assert Inv(s);
    Ranged(s);
    hide *;
    if s.server.layer.HasPending() {
      ResendStep(s0, s, id, room);
      events, s' := Grow(s, [], s, Resend(room));
    } else {
      CheckStep(s0, s, id);
      var n := Min(room, |s.server.pipe|);
      assert 0 < n <= |s.server.pipe| by { MinOf(room, |s.server.pipe|); }
      TakeStep(s0, Step(s, Check), id, n);
      NumberStep(s0, Step(Step(s, Check), Take(n)), id);
      events, s' := Grow(s, [], s, Check);
      events, s' := Grow(s, events, s', Take(n));
      events, s' := Grow(s, events, s', Number);
    }
  }

  lemma MinOf(a: nat, b: nat)
    requires a > 0 && b > 0
    ensures 0 < Min(a, b) <= b
  {
  }

  /**
  A poll delivers. From any reachable state with the server unbroken, no poll attached and none
  outstanding, a fresh poll whose answer is heard hands the client bytes it lacked, if there are
  any, in order and whether they were sent before or not.
  */
  lemma {:induction false} PollDelivers(s: State, id: nat, room: nat) returns (events: seq<Event>)
    requires Inv(s) && s.stage.NoPoll? && s.current.None? && id !in s.polls && !s.server.layer.broken
    requires room > 0 && s.client.layer.recv < |s.server.written|
    ensures s.InRange() && Inv(Run(s, events)) && Run(s, events).stage == NoPoll && Run(s, events).current == None
    ensures var c := Run(s, events).client;
            c.layer.recv > s.client.layer.recv && c.accepted <= s.server.written && |c.accepted| == c.layer.recv
  {
    var more, s1, s2, s3;
    events, s1 := PollReaches(s, id);
    assert s1.client == s.client && s1.server.written == s.server.written;
    more, s2 := PollAnswers(s, s1, id, room);
    HeardAnswer(s2, id);
    assert Inv(s2) && s2.client == s.client && s2.server.written == s.server.written && s2.stage == NoPoll;
    hide *;
    RunAppend(s, events, more);
    events := events + more;
    events, s3 := Grow(s, events, s2, Accept);
  }

  lemma HeardAnswer(s: State, id: nat)
    requires Inv(s) && s.current == Some(id) && id in s.responses && !s.responses[id].wasBroken
    ensures var s' := Step(s, Accept);
            && s'.client.layer.recv > s.client.layer.recv && s'.current == None && s'.stage == s.stage
            && s'.client.accepted <= s.server.written && |s'.client.accepted| == s'.client.layer.recv
  {
    assert ResponseOk(s, id, s.responses[id]);
    AcceptInv(s, id);
  }
}
