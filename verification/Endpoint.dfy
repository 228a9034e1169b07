/**
One end of a resumable session: the byte layer, the two pipes around it and the bytes a sender
has taken from the outgoing pipe but not numbered yet (`nextOut` releases its lock in between).
`written` and `accepted` are histories: what the local application wrote, and what was handed to it.
*/
module Endpoints {
  import opened Bytes
  import opened Layers

  datatype Side = Client | Server {
    function Peer(): Side {
      if Client? then Server else Client
    }
  }

  datatype Endpoint = Endpoint(
    written: seq<Byte>,
    pipe: seq<Byte>,
    hand: seq<Byte>,
    layer: Layer,
    accepted: seq<Byte>,
    inClosed: bool)
  {
    /** Acked prefix, retained bytes, bytes in hand and pipe together are everything written. */
    ghost predicate Inv() {
      && layer.send <= |written|
      && hand + pipe == written[layer.send..]
      && layer.Represents(written[..layer.send])
      && |accepted| == layer.recv
    }

    /** What a step may do to an endpoint without invalidating anything it has sent or accepted. */
    ghost predicate GrowsInto(later: Endpoint) {
      && written <= later.written
      && accepted <= later.accepted
      && layer.Precedes(later.layer)
    }

    /** `Write` on the outgoing pipe. */
    function Write(p: seq<Byte>): (r: Endpoint)
      ensures GrowsInto(r)
    {
      this.(written := written + p, pipe := pipe + p)
    }

    predicate CanTake(n: nat) {
      hand == [] && 0 < n <= |pipe|
    }

    function Take(n: nat): (r: Endpoint)
      requires CanTake(n)
      ensures GrowsInto(r)
    {
      this.(hand := pipe[..n], pipe := pipe[n..])
    }

    /** Number the bytes in hand; the result is the frame that leaves. */
    function Number(): (r: (Endpoint, nat, seq<Byte>))
      requires layer.Valid()
      ensures r.0.layer.Valid() && GrowsInto(r.0)
    {
      var (l, off) := layer.Number(hand);
      (this.(layer := l, hand := []), off, hand)
    }

    function SendReplay(room: nat): (r: (Endpoint, nat, seq<Byte>))
      requires layer.Valid() && layer.HasPending()
      ensures r.0.layer.Valid() && GrowsInto(r.0)
    {
      var (l, off, data) := layer.SendReplay(room);
      (this.(layer := l), off, data)
    }

    function Receive(off: nat, p: seq<Byte>): (r: (Endpoint, RecvResult))
      requires layer.Valid()
      ensures r.0.layer.Valid() && GrowsInto(r.0)
    {
      var (l, res, novel) := layer.RecvIn(off, p, inClosed);
      (this.(layer := l, accepted := accepted + novel), res)
    }

    function Ack(n: nat): (r: (Endpoint, bool))
      requires layer.Valid()
      ensures r.0.layer.Valid() && GrowsInto(r.0)
    {
      var (l, ok) := layer.Ack(n);
      (this.(layer := l), ok)
    }

    /** `resumeOut` and, when the handler that asked for it is the server's, `markBroken` on refusal. */
    function Resume(peerRecv: nat, markOnRefusal: bool): (r: (Endpoint, bool))
      requires layer.Valid()
      ensures r.0.layer.Valid() && GrowsInto(r.0)
    {
      var (l, ok) := layer.ResumeOut(peerRecv);
      (this.(layer := if !ok && markOnRefusal then l.MarkBroken() else l), ok)
    }
  }

  function NewEndpoint(maxReplay: int): (e: Endpoint)
    ensures e.Inv()
  {
    Endpoint([], [], [], NewLayer(maxReplay), [], false)
  }

  /** A frame is honest when it carries the bytes its sender's application wrote at its offset. */
  ghost predicate Honest(e: Endpoint, off: nat, data: seq<Byte>) {
    off + |data| <= e.layer.send <= |e.written| && data == e.written[off..off + |data|]
  }

  // ---- every operation keeps the invariant, and never disturbs what was written ----

  lemma WriteInv(e: Endpoint, p: seq<Byte>)
    requires e.Inv()
    ensures e.Write(p).Inv()
  {
    var e' := e.Write(p);
    assert e'.written[..e.layer.send] == e.written[..e.layer.send];
    assert e'.written[e.layer.send..] == e.written[e.layer.send..] + p;
    assert e.hand + (e.pipe + p) == (e.hand + e.pipe) + p;
  }

  lemma TakeInv(e: Endpoint, n: nat)
    requires e.Inv() && e.CanTake(n)
    ensures e.Take(n).Inv()
  {
    assert e.pipe[..n] + e.pipe[n..] == e.pipe;
  }

  lemma SplitAfter(w: seq<Byte>, k: nat, h: seq<Byte>, p: seq<Byte>)
    requires k <= |w| && h + p == w[k..]
    ensures k + |h| <= |w|
    ensures w[..k + |h|] == w[..k] + h
    ensures w[k..k + |h|] == h
    ensures w[k + |h|..] == p
  {
    assert w == w[..k] + (h + p);
  }

  lemma NumberInv(e: Endpoint)
    requires e.Inv() && e.hand != []
    ensures var (e', off, data) := e.Number();
            && e'.Inv() && Honest(e', off, data) && e'.layer.Valid()
            && off == e.layer.send && e'.layer.send == off + |data|
  {
    NumberRepresents(e.layer, e.written[..e.layer.send], e.hand);
    SplitAfter(e.written, e.layer.send, e.hand, e.pipe);
  }

  lemma SendReplayInv(e: Endpoint, room: nat)
    requires e.Inv() && e.layer.HasPending()
    ensures var (e', off, data) := e.SendReplay(room);
            e'.Inv() && Honest(e', off, data) && off == e.layer.cursor
            && (room > 0 ==> data != [])
  {
    SendReplayRepresents(e.layer, e.written[..e.layer.send], room);
  }

  /** Accepting an honest frame extends what was accepted along what the peer wrote. */
  lemma ReceiveHonest(e: Endpoint, peer: Endpoint, off: nat, p: seq<Byte>)
    requires e.Inv() && Honest(peer, off, p)
    requires e.layer.recv <= peer.layer.send
    requires e.accepted == peer.written[..e.layer.recv]
    ensures var e' := e.Receive(off, p).0;
            && e'.Inv()
            && e'.layer.recv <= peer.layer.send
            && e'.accepted == peer.written[..e'.layer.recv]
  {
    var (e', res) := e.Receive(off, p);
    if res == Accepted {
      var r := e.layer.recv;
      assert p[r - off..] == peer.written[r..off + |p|];
      assert peer.written[..r] + peer.written[r..off + |p|] == peer.written[..off + |p|];
    }
  }

  lemma AckInv(e: Endpoint, n: nat)
    requires e.Inv()
    ensures e.Ack(n).0.Inv()
  {
    AckRepresents(e.layer, e.written[..e.layer.send], n);
  }

  lemma ResumeInv(e: Endpoint, r: nat, mark: bool)
    requires e.Inv()
    ensures e.Resume(r, mark).0.Inv()
  {
    ResumeOutRepresents(e.layer, e.written[..e.layer.send], r);
  }

  lemma EndpointConservation(e: Endpoint)
    requires e.Inv()
    ensures var l := e.layer;
            && l.acked <= l.cursor <= l.send <= |e.written|
            && (!l.broken ==> e.written[..l.acked] + l.replay + e.hand + e.pipe == e.written)
            && (!l.broken ==> l.replay == e.written[l.acked..l.send])
            && (l.broken ==> l.replay == [] && l.cursor == l.send
                             && e.written[..l.send] + e.hand + e.pipe == e.written)
            && |l.replay| <= l.maxReplay
            && l.lastAck <= l.recv
  {
    var l := e.layer;
    assert e.written == e.written[..l.send] + (e.hand + e.pipe);
    if !l.broken {
      assert e.written[..l.send] == e.written[..l.acked] + l.replay;
    }
  }

  // ---- two endpoints facing each other ----

  /** `y` has accepted exactly the first `recv` bytes that `x` wrote, and `x` counts no more acked. */
  ghost predicate DeliveredPrefix(x: Endpoint, y: Endpoint) {
    && y.layer.recv <= x.layer.send <= |x.written|
    && y.accepted == x.written[..y.layer.recv]
    && (!x.layer.broken ==> x.layer.acked <= y.layer.recv)
  }

  ghost predicate Paired(x: Endpoint, y: Endpoint) {
    && x.Inv()
    && y.Inv()
    && DeliveredPrefix(x, y)
    && DeliveredPrefix(y, x)
  }

  lemma PairedSym(x: Endpoint, y: Endpoint)
    ensures Paired(x, y) <==> Paired(y, x)
  {
  }

  lemma PairedWrite(x: Endpoint, y: Endpoint, p: seq<Byte>)
    requires Paired(x, y)
    ensures Paired(x.Write(p), y)
  {
    WriteInv(x, p);
    assert x.Write(p).written[..y.layer.recv] == x.written[..y.layer.recv];
  }

  lemma PairedTake(x: Endpoint, y: Endpoint, n: nat)
    requires Paired(x, y) && x.CanTake(n)
    ensures Paired(x.Take(n), y)
  {
    TakeInv(x, n);
  }

  lemma PairedNumber(x: Endpoint, y: Endpoint)
    requires Paired(x, y) && x.hand != []
    ensures var (x', off, data) := x.Number();
            Paired(x', y) && Honest(x', off, data)
  {
    NumberInv(x);
  }

  lemma PairedSendReplay(x: Endpoint, y: Endpoint, room: nat)
    requires Paired(x, y) && x.layer.HasPending()
    ensures var (x', off, data) := x.SendReplay(room);
            Paired(x', y) && Honest(x', off, data)
  {
    SendReplayInv(x, room);
  }

  lemma PairedReceive(x: Endpoint, y: Endpoint, off: nat, p: seq<Byte>)
    requires Paired(x, y) && Honest(y, off, p)
    ensures Paired(x.Receive(off, p).0, y)
  {
    ReceiveHonest(x, y, off, p);
  }

  lemma PairedAck(x: Endpoint, y: Endpoint, n: nat)
    requires Paired(x, y) && n <= y.layer.recv
    ensures Paired(x.Ack(n).0, y) && x.Ack(n).1
  {
    AckInv(x, n);
  }

  lemma PairedResume(x: Endpoint, y: Endpoint, r: nat, mark: bool)
    requires Paired(x, y) && r <= y.layer.recv
    ensures Paired(x.Resume(r, mark).0, y)
    ensures x.Resume(r, mark).1 <==> !x.layer.broken && x.layer.acked <= r
  {
    ResumeInv(x, r, mark);
  }

  /** The layer steps that neither send, receive nor learn anything from the peer. */
  lemma PairedLocal(x: Endpoint, y: Endpoint, l: Layer)
    requires Paired(x, y)
    requires l in {x.layer.TakeAck().0, x.layer.ResetAck(), x.layer.RewindToAcked(), x.layer.MarkBroken()}
    ensures Paired(x.(layer := l), y) && x.GrowsInto(x.(layer := l))
    ensures l.recv == x.layer.recv
  {
  }

  /**
  A fresh leg opens with an ack the peer may have missed: resetting and taking it reports everything
  received, and once it arrives the peer retains exactly the bytes this side lacks.
  */
  lemma FreshLegAck(x: Endpoint, y: Endpoint)
    requires Paired(x, y) && !x.layer.broken && y.layer.recv > 0
    ensures y.layer.ResetAck().TakeAck().1 == Some(y.layer.recv)
    ensures y.layer.ResetAck().TakeAck().0.TakeAck().1 == None
    ensures x.Ack(y.layer.recv).0.layer.replay == x.written[y.layer.recv..x.layer.send]
  {
    AckInv(x, y.layer.recv);
    EndpointConservation(x.Ack(y.layer.recv).0);
  }
}
