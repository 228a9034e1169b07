/**
The non-resumable client's upload queue: any number of writers, one flag, and a flusher goroutine
that drains the queue in bounded requests. Every event is one locked section, one request, or the
end of a wait.
*/
module Flushers {
  import opened Bytes

  datatype Phase =
    | Starting                      // inside the coalesce window
    | Ready                         // about to lock and take the queue
    | Sending(rest: seq<Byte>)
    | Failing                       // a send failed or the connection closed; about to clear the flag

  datatype State = State(
    queue: seq<Byte>,
    flightOn: bool,
    live: map<nat, Phase>,
    maxSendChunk: nat,
    written: seq<Byte>,
    posted: seq<seq<Byte>>,
    dropped: nat)                   // bytes in hand when a send failed

  datatype Event =
    | Write(p: seq<Byte>, id: nat)  // id names the goroutine this write starts, if it starts one
    | WindowOver(id: nat)
    | Cancel(id: nat)
    | Grab(id: nat)
    | Post(id: nat)
    | FailPost(id: nat)
    | ClearFlight(id: nat)

  /** The server's limit is authoritative: the client may only clamp down. */
  function Init(wantedChunk: nat, maxSendBytes: nat): State {
    State([], false, map[], Min(wantedChunk, maxSendBytes), [], [], 0)
  }

  function Flusher(s: State, e: Event): State
    requires !e.Write?
  {
    if e.id !in s.live then s else
    var ph := s.live[e.id];
    match e
    case WindowOver(id) => if ph.Starting? then s.(live := s.live[id := Ready]) else s
    case Cancel(id) => if ph.Starting? then s.(live := s.live[id := Failing]) else s
    case Grab(id) =>
      if !ph.Ready? then s
      else if s.queue == [] then s.(flightOn := false, live := s.live - {id})
      else s.(queue := [], live := s.live[id := Sending(s.queue)])
    case Post(id) =>
      if !ph.Sending? then s else
      var n := Min(|ph.rest|, s.maxSendChunk);
      s.(posted := s.posted + [ph.rest[..n]],
         live := s.live[id := if ph.rest[n..] == [] then Ready else Sending(ph.rest[n..])])
    case FailPost(id) =>
      if ph.Sending? then s.(live := s.live[id := Failing], dropped := s.dropped + |ph.rest|) else s
    case ClearFlight(id) =>
      if ph.Failing? then s.(flightOn := false, live := s.live - {id}) else s
  }

  function Step(s: State, e: Event): State {
    if !e.Write? then Flusher(s, e)
    else if e.p == [] then s
    else
      var s' := s.(queue := s.queue + e.p, written := s.written + e.p);
      if s.flightOn then s' else s'.(flightOn := true, live := s.live[e.id := Starting])
  }

  function Run(s: State, events: seq<Event>): State {
    if events == [] then s else Step(Run(s, events[..|events| - 1]), events[|events| - 1])
  }

  function Flat(bodies: seq<seq<Byte>>): seq<Byte> {
    if bodies == [] then [] else Flat(bodies[..|bodies| - 1]) + bodies[|bodies| - 1]
  }

  /** The bytes some live flusher has taken and not posted. */
  ghost function InHand(s: State): seq<Byte> {
    if exists id :: id in s.live && s.live[id].Sending?
    then var id :| id in s.live && s.live[id].Sending?; s.live[id].rest
    else []
  }

  // ---- the invariant ----

  ghost predicate Inv(s: State) {
    && (forall a, b :: a in s.live && b in s.live ==> a == b)
    && (s.flightOn <==> s.live != map[])
    && (forall id :: id in s.live && s.live[id].Sending? ==> s.live[id].rest != [])
    && (forall b <- s.posted :: 0 < |b| <= s.maxSendChunk)
    && |Flat(s.posted)| + |InHand(s)| + |s.queue| + s.dropped == |s.written|
    && (s.dropped == 0 ==> Flat(s.posted) + InHand(s) + s.queue == s.written)
    && s.maxSendChunk > 0
  }

  /** Whatever is queued has a flusher that is there. */
  ghost predicate Attended(s: State) {
    s.queue != [] ==> s.live != map[]
  }

  /** A flusher that gave up clears the flag over bytes queued behind its back. */
  predicate Strands(s: State, e: Event) {
    e.ClearFlight? && e.id in s.live && s.live[e.id].Failing? && s.queue != []
  }

  predicate IsWrite(e: Event) {
    e.Write? && e.p != []
  }

  lemma HandIs(s: State, id: nat)
    requires forall a, b :: a in s.live && b in s.live ==> a == b
    requires id in s.live
    ensures InHand(s) == if s.live[id].Sending? then s.live[id].rest else []
  {
  }

  lemma WriteInv(s: State, e: Event)
    requires Inv(s) && e.Write?
    ensures Inv(Step(s, e))
  {
    var s' := Step(s, e);
    if s' != s {
      if s.flightOn {
        var id :| id in s.live;
        HandIs(s, id);
        HandIs(s', id);
      } else {
        HandIs(s', e.id);
      }
      assert Flat(s.posted) + InHand(s) + (s.queue + e.p) == Flat(s.posted) + InHand(s) + s.queue + e.p;
    }
  }

  lemma {:induction false} PostInv(s: State, id: nat)
    requires Inv(s) && id in s.live && s.live[id].Sending?
    ensures Inv(Step(s, Post(id)))
  {
    var rest, s' := s.live[id].rest, Step(s, Post(id));
    var n := Min(|rest|, s.maxSendChunk);
    HandIs(s, id);
    HandIs(s', id);
    FlatAppend(s.posted, rest[..n]);
    Regroup(Flat(s.posted), rest, n);
    assert InHand(s') == rest[n..];
  }

  lemma FlatAppend(bodies: seq<seq<Byte>>, b: seq<Byte>)
    ensures Flat(bodies + [b]) == Flat(bodies) + b
  {
    assert (bodies + [b])[..|bodies|] == bodies;
  }

  lemma Regroup(done: seq<Byte>, rest: seq<Byte>, n: nat)
    requires n <= |rest|
    ensures (done + rest[..n]) + rest[n..] == done + rest
  {
    assert rest == rest[..n] + rest[n..];
  }

  lemma Assoc(a: seq<Byte>, b: seq<Byte>, c: seq<Byte>)
    ensures (a + b) + c == a + (b + c)
  {
  }

  lemma {:induction false} FlusherInv(s: State, e: Event)
    requires Inv(s) && !e.Write?
    ensures Inv(Step(s, e))
  {
    if e.id in s.live {
      var s' := Step(s, e);
      HandIs(s, e.id);
      if e.Post? && s.live[e.id].Sending? {
        PostInv(s, e.id);
      } else if e.id in s'.live {
        HandIs(s', e.id);
      } else {
        assert s'.live == map[];
      }
    }
  }

  lemma {:induction false} StepInv(s: State, e: Event)
    requires Inv(s)
    ensures Inv(Step(s, e))
  {
    if e.Write? {
      WriteInv(s, e);
    } else {
      FlusherInv(s, e);
    }
  }

  lemma {:induction false} RunInv(s: State, events: seq<Event>)
    requires Inv(s)
    ensures Inv(Run(s, events))
  {
    if events != [] {
      var shorter := events[..|events| - 1];
      RunInv(s, shorter);
      StepInv(Run(s, shorter), events[|events| - 1]);
    }
  }

  /**
  In every interleaving, failures included, at most one flusher is live, the flag says exactly
  whether one is, and no request body is empty or over the server's limit. Posted bodies, the chunk
  in hand and the queue are everything written, in order, exactly as long as no failed send has
  dropped a chunk.
  */
  lemma {:induction false} FlusherCorrect(wantedChunk: nat, maxSendBytes: nat, events: seq<Event>)
    requires wantedChunk > 0 && maxSendBytes > 0
    ensures var s := Run(Init(wantedChunk, maxSendBytes), events);
            && (forall a, b :: a in s.live && b in s.live ==> a == b)
            && (s.flightOn <==> s.live != map[])
            && (forall b <- s.posted :: 0 < |b| <= maxSendBytes)
            && (Flat(s.posted) + InHand(s) + s.queue == s.written <==> s.dropped == 0)
            && s.maxSendChunk == if wantedChunk < maxSendBytes then wantedChunk else maxSendBytes
  {
    hide Run, Step;
    RunInv(Init(wantedChunk, maxSendBytes), events);
    RunChunk(Init(wantedChunk, maxSendBytes), events);
  }

  /**
  Queued bytes do not always have a flusher. One step takes it from them exactly when it is the
  last act of a flusher that gave up and bytes are queued, and gives them one again exactly when it
  is a non-empty write.
  */
  lemma {:induction false} AttendedStep(s: State, e: Event)
    requires Inv(s)
    ensures Attended(Step(s, e)) <==> if Attended(s) then !Strands(s, e) else IsWrite(e)
  {
    if e.Write? {
      if IsWrite(e) && !s.flightOn {
        assert e.id in Step(s, e).live;
      }
    } else if e.id !in s.live {
      assert Step(s, e) == s;
    } else if e.id !in Step(s, e).live {
      assert Step(s, e).live == map[];
    } else {
      assert Step(s, e).live != map[];
    }
  }

  /** At `events[i]` of the run a flusher left queued bytes behind, and nothing was written since. */
  ghost predicate StrandedSince(s: State, events: seq<Event>, i: nat) {
    && i < |events| && Strands(Run(s, events[..i]), events[i])
    && forall j :: i < j < |events| ==> !IsWrite(events[j])
  }

  lemma StrandedSplits(s: State, events: seq<Event>, i: nat)
    requires events != [] && i < |events|
    ensures var n := |events| - 1;
            StrandedSince(s, events, i)
            <==> if i == n then Strands(Run(s, events[..n]), events[n])
                 else StrandedSince(s, events[..n], i) && !IsWrite(events[n])
  {
    hide Run, Strands, IsWrite;
    var n := |events| - 1;
    if i < n {
      assert events[..n][..i] == events[..i];
      if StrandedSince(s, events, i) {
        assert forall j :: i < j < n ==> events[..n][j] == events[j];
      }
      if StrandedSince(s, events[..n], i) {
        assert forall j :: i < j < n ==> events[j] == events[..n][j];
      }
    }
  }

  /**
  Over whole runs: bytes are queued with no flusher if and only if a flusher that gave up cleared
  the flag over them at some point and nothing has been written since.
  */
  lemma {:induction false} UnattendedExactly(wantedChunk: nat, maxSendBytes: nat, events: seq<Event>)
    requires wantedChunk > 0 && maxSendBytes > 0
    ensures var s := Init(wantedChunk, maxSendBytes);
            !Attended(Run(s, events)) <==> exists i: nat :: StrandedSince(s, events, i)
  {
    if events != [] {
      var s, n := Init(wantedChunk, maxSendBytes), |events| - 1;
      var shorter := events[..n];
      UnattendedExactly(wantedChunk, maxSendBytes, shorter);
      assert Inv(s);
      RunInv(s, shorter);
      AttendedStep(Run(s, shorter), events[n]);
      assert Run(s, events) == Step(Run(s, shorter), events[n]);
      assert Strands(Run(s, shorter), events[n]) ==> Attended(Run(s, shorter));
      assert forall i: nat :: StrandedSince(s, events, i) ==> i < |events|;
      assert forall i: nat :: StrandedSince(s, shorter, i) ==> i < n;
      hide Run, Step, Attended, Strands, IsWrite, StrandedSince;
      forall i: nat | i < |events|
        ensures StrandedSince(s, events, i)
                <==> if i == n then Strands(Run(s, shorter), events[n])
                     else StrandedSince(s, shorter, i) && !IsWrite(events[n])
      {
        StrandedSplits(s, events, i);
      }
      if !Attended(Run(s, events)) {
        if Attended(Run(s, shorter)) {
          assert StrandedSince(s, events, n);
        } else {
          var i :| StrandedSince(s, shorter, i);
          assert StrandedSince(s, events, i);
        }
      }
    }
  }

  lemma {:induction false} RunChunk(s: State, events: seq<Event>)
    ensures Run(s, events).maxSendChunk == s.maxSendChunk
  {
    if events != [] {
      RunChunk(s, events[..|events| - 1]);
    }
  }

  function NextOf(ph: Phase, id: nat): Event
    requires !ph.Failing?
  {
    match ph
    case Starting => WindowOver(id)
    case Ready => Grab(id)
    case Sending(_) => Post(id)
  }

  /** A turn takes all that is queued, and a request all that fits it. */
  lemma TurnsAndRequestsAreFull(s: State, id: nat)
    requires Inv(s) && id in s.live
    ensures s.live[id].Ready? && s.queue != [] ==>
              Step(s, Grab(id)).live[id] == Sending(s.queue) && Step(s, Grab(id)).queue == []
    ensures s.live[id].Sending? ==>
              var posted := Step(s, Post(id)).posted;
              && posted != [] && posted[..|posted| - 1] == s.posted && posted[|posted| - 1] <= s.live[id].rest
              && (|posted[|posted| - 1]| == s.maxSendChunk || posted[|posted| - 1] == s.live[id].rest)
  {
    if s.live[id].Sending? {
      var rest := s.live[id].rest;
      assert rest[..|rest|] == rest;
    }
  }

  /** Requests and turns left: each byte may cost a request, a batch of them a turn, a window one more. */
  ghost function Work(s: State, id: nat): nat
    requires id in s.live
  {
    3 * (|InHand(s)| + |s.queue|) + |s.queue|
    + match s.live[id] case Starting => 2 case Ready => 1 case _ => 0
  }

  /** One step of a flusher left to itself moves bytes on or brings it nearer its end. */
  lemma DrainStep(s: State, id: nat)
    requires Inv(s) && id in s.live && !s.live[id].Failing?
    ensures var s' := Step(s, NextOf(s.live[id], id));
            if id in s'.live then
              && !s'.live[id].Failing?
              && Flat(s'.posted) + (InHand(s') + s'.queue) == Flat(s.posted) + (InHand(s) + s.queue)
              && Work(s', id) < Work(s, id)
            else s'.live == map[] && s'.queue == s.queue == InHand(s) == [] && s'.posted == s.posted
  {
    hide Run;
    var s' := Step(s, NextOf(s.live[id], id));
    HandIs(s, id);
    if id in s'.live {
      HandIs(s', id);
      if s.live[id].Sending? {
        var rest := s.live[id].rest;
        var n := Min(|rest|, s.maxSendChunk);
        FlatAppend(s.posted, rest[..n]);
        PostedStays(Flat(s.posted), rest, n, s.queue);
      } else if s.live[id].Ready? {
        assert [] + s.queue == s.queue + [];
      }
    } else {
      assert s'.live == map[];
    }
  }

  /**
  Left to itself, a flusher that has not given up posts what it holds and what is queued, in order,
  and ends, whatever was dropped before it.
  */
  lemma {:induction false} Drains(s: State, id: nat) returns (events: seq<Event>)
    requires Inv(s) && id in s.live && !s.live[id].Failing?
    ensures Inv(Run(s, events)) && Run(s, events).live == map[] && Run(s, events).queue == []
    ensures Flat(Run(s, events).posted) == Flat(s.posted) + (InHand(s) + s.queue)
    decreases Work(s, id)
  {
    var e := NextOf(s.live[id], id);
    var s' := Step(s, e);
    StepInv(s, e);
    DrainStep(s, id);
    hide Step, Inv, Flat, InHand, Run, Work, NextOf;
    if id in s'.live {
      var more := Drains(s', id);
      events := [e] + more;
      RunFirst(s, e, more);
    } else {
      events := [e];
      RunOne(s, e);
      assert Flat(s.posted) + ([] + []) == Flat(s.posted);
    }
  }

  lemma RunOne(s: State, e: Event)
    ensures Run(s, [e]) == Step(s, e)
  {
    assert [e][..0] == [];
  }

  lemma PostedStays(done: seq<Byte>, rest: seq<Byte>, n: nat, queue: seq<Byte>)
    requires n <= |rest|
    ensures (done + rest[..n]) + (rest[n..] + queue) == done + (rest + queue)
  {
  }

  lemma {:induction false} RunFirst(s: State, e: Event, more: seq<Event>)
    ensures Run(s, [e] + more) == Run(Step(s, e), more)
    decreases |more|
  {
    if more == [] {
      assert [e] + more == [e];
      assert [e][..0] == [];
    } else {
      var last := |more| - 1;
      assert ([e] + more)[..last + 1] == [e] + more[..last];
      RunFirst(s, e, more[..last]);
    }
  }

  /** A flusher cancelled in its window posts nothing, keeps the queue and lets the next write start another. */
  lemma CancelGivesUp(s: State, id: nat)
    requires Inv(s) && id in s.live && s.live[id].Starting?
    ensures Step(Step(s, Cancel(id)), ClearFlight(id)) == s.(flightOn := false, live := map[])
  {
    assert s.live - {id} == map[];
    assert s.live[id := Failing] - {id} == map[];
  }

  /** A failed send can strand bytes: they are queued and no flusher is live to take them. */
  lemma FailureStrands(p: Byte, q: Byte)
    ensures var s := Run(Init(1, 1),
                         [Write([p], 0), WindowOver(0), Grab(0), FailPost(0), Write([q], 1), ClearFlight(0)]);
            s.queue == [q] && s.live == map[] && !s.flightOn && s.dropped == 1
  {
    hide Step;
    var s := Init(1, 1);
    var e1, e2, e3, e4, e5, e6 := Write([p], 0), WindowOver(0), Grab(0), FailPost(0), Write([q], 1), ClearFlight(0);
    StrandingSteps(p, q);
    RunPair(s, e1, e2, [e3, e4, e5, e6]);
    RunPair(Step(Step(s, e1), e2), e3, e4, [e5, e6]);
    RunPair(Step(Step(Step(Step(s, e1), e2), e3), e4), e5, e6, []);
    assert [e1, e2] + [e3, e4, e5, e6] == [e1, e2, e3, e4, e5, e6];
    assert [e3, e4] + [e5, e6] == [e3, e4, e5, e6];
    assert [e5, e6] + [] == [e5, e6];
  }

  lemma RunPair(s: State, a: Event, b: Event, more: seq<Event>)
    ensures Run(s, [a, b] + more) == Run(Step(Step(s, a), b), more)
  {
    hide Step;
    assert [a, b] + more == [a] + ([b] + more);
    RunFirst(s, a, [b] + more);
    RunFirst(Step(s, a), b, more);
  }

  lemma StrandingSteps(p: Byte, q: Byte)
    ensures var s2 := Step(Step(Init(1, 1), Write([p], 0)), WindowOver(0));
            var s4 := Step(Step(s2, Grab(0)), FailPost(0));
            Step(Step(s4, Write([q], 1)), ClearFlight(0)) == State([q], false, map[], 1, [p, q], [], 1)
  {
    hide Run;
    var s2 := Step(Step(Init(1, 1), Write([p], 0)), WindowOver(0));
    assert s2 == State([p], true, map[0 := Ready], 1, [p], [], 0);
    var s4 := Step(Step(s2, Grab(0)), FailPost(0));
    assert s4 == State([], true, map[0 := Failing], 1, [p], [], 1);
    assert Step(s4, Write([q], 1)) == State([q], true, map[0 := Failing], 1, [p, q], [], 1);
  }

  // ---- the loop itself ----

  class UploadQueue {
    var writeBuf: seq<Byte>
    var writeFlightOn: bool
    const maxSendChunk: nat

    constructor (wantedChunk: nat, maxSendBytes: nat)
      ensures writeBuf == [] && !writeFlightOn && maxSendChunk == Min(wantedChunk, maxSendBytes)
    {
      writeBuf, writeFlightOn := [], false;
      maxSendChunk := Min(wantedChunk, maxSendBytes);
    }

    /** `Write`; true when the caller must start a flusher. */
    method Write(p: seq<Byte>) returns (start: bool)
      modifies this
      ensures writeBuf == old(writeBuf) + p
      ensures p == [] ==> !start && writeFlightOn == old(writeFlightOn)
      ensures p != [] ==> writeFlightOn && start == !old(writeFlightOn)
    {
      if p == [] {
        return false;
      }
      writeBuf := writeBuf + p;
      start := !writeFlightOn;
      writeFlightOn := true;
    }

    /**
    Post one buffer in chunks, while `arrivals` from `first` on are written, one per request; the
    request after `good` of them fails, and what it and the rest held is lost.
    */
    method SendAll(buf: seq<Byte>, arrivals: seq<seq<Byte>>, first: nat, good: nat)
      returns (bodies: seq<seq<Byte>>, next: nat, lost: seq<Byte>)
      requires writeFlightOn && maxSendChunk > 0 && first <= |arrivals|
      modifies this
      ensures writeFlightOn && first <= next <= |arrivals|
      ensures Flat(bodies) + lost == buf && Bounded(bodies, maxSendChunk)
      ensures writeBuf == old(writeBuf) + Flat(arrivals[first..next])
      ensures |bodies| <= good && (lost != [] ==> |bodies| == good)
      ensures forall i :: 0 <= i < |bodies| && (i < |bodies| - 1 || lost != []) ==> |bodies[i]| == maxSendChunk
    {
      bodies, next, lost := [], first, buf;
      assert arrivals[first..first] == [] && Flat([]) == [];
      hide Flat;
      while |lost| > 0
        invariant writeFlightOn && first <= next <= |arrivals|
        invariant Flat(bodies) + lost == buf && |bodies| <= good
        invariant forall b <- bodies :: 0 < |b| <= maxSendChunk
        invariant forall i :: 0 <= i < |bodies| && (i < |bodies| - 1 || lost != []) ==> |bodies[i]| == maxSendChunk
        invariant writeBuf == old(writeBuf) + Flat(arrivals[first..next])
        decreases |lost|
      {
        if next < |arrivals| {
          FlatSlices(arrivals, first, next);
          Assoc(old(writeBuf), Flat(arrivals[first..next]), arrivals[next]);
          var _ := Write(arrivals[next]);
          next := next + 1;
        }
        if |bodies| == good {
          return;
        }
        var n := Min(|lost|, maxSendChunk);
        FlatAppend(bodies, lost[..n]);
        Regroup(Flat(bodies), lost, n);
        bodies := bodies + [lost[..n]];
        lost := lost[n..];
      }
    }

    /** Writes that land while the flusher waits out its coalesce window. */
    method Window(arrivals: seq<seq<Byte>>, early: nat)
      requires writeFlightOn && early <= |arrivals|
      modifies this
      ensures writeFlightOn && writeBuf == old(writeBuf) + Flat(arrivals[..early])
    {
      var k := 0;
      assert arrivals[..0] == [] && Flat([]) == [];
      hide Flat;
      while k < early
        invariant 0 <= k <= early && writeFlightOn && writeBuf == old(writeBuf) + Flat(arrivals[..k])
      {
        FlatSlices(arrivals, 0, k);
        assert arrivals[0..k] == arrivals[..k] && arrivals[0..k + 1] == arrivals[..k + 1];
        Assoc(old(writeBuf), Flat(arrivals[..k]), arrivals[k]);
        var _ := Write(arrivals[k]);
        k := k + 1;
      }
    }

    /**
    `flushLoop`: the first `early` elements of `arrivals` are written during its window, the next ones
    each while a request is in flight, and the request after `good` of them fails. However it ends
    the flag is cleared, and what it posted within the limit, then what it lost, then what is still
    queued are what was queued and arrived, in order. If nothing failed and it was not cancelled in
    its window, nothing is queued either.
    */
    method FlushLoop(arrivals: seq<seq<Byte>>, early: nat, cancelled: bool, good: nat)
      returns (bodies: seq<seq<Byte>>, used: nat, lost: seq<Byte>)
      requires writeFlightOn && maxSendChunk > 0 && early <= |arrivals|
      modifies this
      ensures !writeFlightOn && early <= used <= |arrivals|
      ensures Accounted(bodies, lost, writeBuf, old(writeBuf), arrivals, used)
      ensures Bounded(bodies, maxSendChunk)
      ensures |bodies| <= good && (lost != [] ==> |bodies| == good)
      ensures cancelled ==> bodies == [] && lost == [] && used == early
      ensures !cancelled && lost == [] ==> writeBuf == []
    {
      bodies, used, lost := [], early, [];
      hide Flat, Accounted, Bounded;
      Window(arrivals, early);
      AccountedStart(old(writeBuf), arrivals, early, maxSendChunk);
      if cancelled {
        writeFlightOn := false;
        return;
      }
      while |writeBuf| > 0
        invariant early <= used <= |arrivals| && writeFlightOn && lost == [] && |bodies| <= good
        invariant Accounted(bodies, [], writeBuf, old(writeBuf), arrivals, used)
        invariant Bounded(bodies, maxSendChunk)
        decreases |arrivals| - used, |writeBuf|
      {
        var buf := writeBuf;
        writeBuf := [];
        var sent, next;
        sent, next, lost := SendAll(buf, arrivals, used, good - |bodies|);
        assert writeBuf == Flat(arrivals[used..next]);
        Settle(bodies, sent, lost, buf, arrivals, used, next, old(writeBuf));
        BoundedConcat(bodies, sent, maxSendChunk);
        bodies, used := bodies + sent, next;
        if lost != [] {
          writeFlightOn := false;
          return;
        }
      }
      writeFlightOn := false;
    }
  }

  /** What was posted, then what was lost, then what is queued are what was queued and arrived. */
  ghost predicate Accounted(bodies: seq<seq<Byte>>, lost: seq<Byte>, queue: seq<Byte>,
                            start: seq<Byte>, arrivals: seq<seq<Byte>>, used: nat)
    requires used <= |arrivals|
  {
    Flat(bodies) + (lost + queue) == start + Flat(arrivals[..used])
  }

  ghost predicate Bounded(bodies: seq<seq<Byte>>, max: nat) {
    forall b <- bodies :: 0 < |b| <= max
  }

  lemma BoundedConcat(a: seq<seq<Byte>>, b: seq<seq<Byte>>, max: nat)
    requires Bounded(a, max) && Bounded(b, max)
    ensures Bounded(a + b, max)
  {
  }

  lemma Settle(bodies: seq<seq<Byte>>, sent: seq<seq<Byte>>, lost: seq<Byte>, buf: seq<Byte>,
               arrivals: seq<seq<Byte>>, used: nat, next: nat, start: seq<Byte>)
    requires used <= next <= |arrivals|
    requires Accounted(bodies, [], buf, start, arrivals, used) && Flat(sent) + lost == buf
    ensures Accounted(bodies + sent, lost, Flat(arrivals[used..next]), start, arrivals, next)
    ensures used == next ==> Flat(arrivals[used..next]) == []
  {
    hide Flat;
    FlatConcat(bodies, sent);
    FlatPrefixes(arrivals, used, next);
    Reassociate(Flat(bodies), Flat(sent), lost, Flat(arrivals[used..next]));
    Assoc(start, Flat(arrivals[..used]), Flat(arrivals[used..next]));
    assert [] + buf == buf;
  }

  lemma Reassociate(a: seq<Byte>, b: seq<Byte>, c: seq<Byte>, d: seq<Byte>)
    ensures (a + b) + (c + d) == (a + (b + c)) + d
  {
  }

  lemma AccountedStart(start: seq<Byte>, arrivals: seq<seq<Byte>>, early: nat, max: nat)
    requires early <= |arrivals|
    ensures Accounted([], [], start + Flat(arrivals[..early]), start, arrivals, early) && Bounded([], max)
  {
    var queued := start + Flat(arrivals[..early]);
    assert Flat([]) == [] && [] + ([] + queued) == queued;
  }

  lemma {:induction false} FlatConcat(a: seq<seq<Byte>>, b: seq<seq<Byte>>)
    ensures Flat(a + b) == Flat(a) + Flat(b)
    decreases |b|
  {
    if b == [] {
      assert a + b == a;
    } else {
      var last := |b| - 1;
      FlatConcat(a, b[..last]);
      assert a + b == (a + b[..last]) + [b[last]];
      FlatAppend(a + b[..last], b[last]);
      Assoc(Flat(a), Flat(b[..last]), b[last]);
    }
  }

  lemma FlatPrefixes(q: seq<seq<Byte>>, j: nat, k: nat)
    requires j <= k <= |q|
    ensures Flat(q[..k]) == Flat(q[..j]) + Flat(q[j..k])
    ensures j == k ==> Flat(q[j..k]) == []
  {
    assert q[..k] == q[..j] + q[j..k];
    FlatConcat(q[..j], q[j..k]);
  }

  lemma FlatSlices(q: seq<seq<Byte>>, i: nat, j: nat)
    requires i <= j < |q|
    ensures Flat(q[i..j + 1]) == Flat(q[i..j]) + q[j]
  {
    assert q[i..j + 1] == q[i..j] + [q[j]];
    FlatAppend(q[i..j], q[j]);
  }
}
