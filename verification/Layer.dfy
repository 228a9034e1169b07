/**
The byte layer of a resumable session as a value: the offsets, the replay buffer and the
transition each critical section of `reliable` performs on them. `Reliables` proves that the
in-place class makes exactly these transitions; the protocol modules run two of these values
against each other.
*/
module Layers {
  import opened Bytes

  const DEFAULT_MAX_REPLAY: nat := 16 * 1024 * 1024

  /** What `recvIn` reports: accepted, already had it, `errReplayGap`, or `io.ErrClosedPipe`. */
  datatype RecvResult = Accepted | Duplicate | Gap | PipeClosed

  datatype Layer = Layer(
    send: nat,
    acked: nat,
    cursor: nat,
    replay: seq<Byte>,
    maxReplay: nat,
    broken: bool,
    recv: nat,
    lastAck: nat)
  {
    /** The shape that every slice and every unsigned subtraction in the code relies on. */
    ghost predicate Valid() {
      && acked <= cursor <= send
      && |replay| == (if broken then 0 else send - acked)
      && (broken ==> cursor == send)
      && |replay| <= maxReplay
      && lastAck <= recv
    }

    /** `hist` is every byte numbered so far; an unbroken layer retains exactly its unacked part. */
    ghost predicate Represents(hist: seq<Byte>) {
      && Valid()
      && |hist| == send
      && (!broken ==> replay == hist[acked..])
    }

    /** Peer-visible progress never goes back. */
    ghost predicate Precedes(later: Layer) {
      && acked <= later.acked
      && recv <= later.recv
      && send <= later.send
      && (broken ==> later.broken)
      && maxReplay == later.maxReplay
    }

    /** The attached transport still has retained bytes to send. */
    predicate HasPending() {
      !broken && cursor < send
    }

    function MarkBroken(): (r: Layer)
      requires Valid()
      ensures r.Valid() && r.broken && Precedes(r)
    {
      this.(broken := true, replay := [], acked := send, cursor := send)
    }

    /** First critical section of `nextOut`: copy at most `room` retained bytes from the cursor on. */
    function SendReplay(room: nat): (r: (Layer, nat, seq<Byte>))
      requires Valid() && HasPending()
      ensures r.0.Valid() && Precedes(r.0)
      ensures r.1 + |r.2| == r.0.cursor
    {
      var start := cursor - acked;
      var n := Min(room, |replay| - start);
      (this.(cursor := cursor + n), cursor, replay[start..start + n])
    }

    /** Second critical section of `nextOut`: number bytes already taken from the pipe. */
    function Number(data: seq<Byte>): (r: (Layer, nat))
      requires Valid()
      ensures r.0.Valid() && Precedes(r.0)
      ensures r.1 + |data| == r.0.cursor == r.0.send
    {
      var numbered := this.(send := send + |data|, cursor := send + |data|,
                            replay := if broken then [] else replay + data);
      (if !broken && |numbered.replay| > maxReplay
       then numbered.(broken := true, replay := [], acked := numbered.send)
       else numbered,
       send)
    }

    /** `recvIn`, with the part of `p` it hands to the application. */
    function RecvIn(off: nat, p: seq<Byte>, closed: bool): (r: (Layer, RecvResult, seq<Byte>))
      requires Valid()
      ensures r.0.Valid() && Precedes(r.0)
      ensures r.0.recv == recv + |r.2|
      ensures r.1.Accepted? <==> r.2 != []
      ensures r.1 == Gap <==> off > recv
      ensures r.1 == Duplicate <==> off + |p| <= recv
      ensures r.1 == PipeClosed <==> off <= recv < off + |p| && closed
      ensures r.0.broken <==> broken || r.1 == Gap
      ensures r.1 != Gap ==> r.0 == this.(recv := r.0.recv)
      ensures r.1.Accepted? ==> off <= recv <= off + |p| && p[..recv - off] + r.2 == p && r.0.recv == off + |p|
    {
      if off > recv then (MarkBroken(), Gap, [])
      else if off + |p| <= recv then (this, Duplicate, [])
      else if closed then (this, PipeClosed, [])
      else
        var novel := p[recv - off..];
        (this.(recv := recv + |novel|), Accepted, novel)
    }

    /** `ack`; the flag is false for `errBadAck`. */
    function Ack(n: nat): (r: (Layer, bool))
      requires Valid()
      ensures r.0.Valid() && Precedes(r.0)
    {
      if n > send then (MarkBroken(), false)
      else if broken || n <= acked then (this, true)
      else (this.(replay := replay[n - acked..], acked := n, cursor := Max(cursor, n)), true)
    }

    /** `resumeOut`; the flag is false for a refusal, which changes nothing. */
    function ResumeOut(peerRecv: nat): (r: (Layer, bool))
      requires Valid()
      ensures r.0.Valid() && Precedes(r.0)
    {
      if broken || peerRecv < acked || peerRecv > send then (this, false)
      else (this.(replay := replay[peerRecv - acked..], acked := peerRecv, cursor := peerRecv), true)
    }

    function RewindToAcked(): (r: Layer)
      requires Valid()
      ensures r.Valid() && Precedes(r)
    {
      if broken then this else this.(cursor := acked)
    }

    function TakeAck(): (r: (Layer, Option<nat>))
      requires Valid()
      ensures r.0.Valid() && Precedes(r.0)
    {
      if recv == lastAck then (this, None) else (this.(lastAck := recv), Some(recv))
    }

    function ResetAck(): (r: Layer)
      requires Valid()
      ensures r.Valid() && Precedes(r)
    {
      this.(lastAck := 0)
    }
  }

  function NewLayer(maxReplay: int): (l: Layer)
    ensures l.Represents([])
  {
    Layer(0, 0, 0, [], if maxReplay <= 0 then DEFAULT_MAX_REPLAY else maxReplay, false, 0, 0)
  }

  // ---- what each transition does to the history it represents ----

  lemma NumberRepresents(l: Layer, hist: seq<Byte>, data: seq<Byte>)
    requires l.Represents(hist)
    ensures l.Number(data).0.Represents(hist + data)
  {
    assert !l.broken ==> (hist + data)[l.acked..] == hist[l.acked..] + data;
  }

  /**
  Numbering breaks an unbroken layer exactly when what it would retain passes its bound; otherwise
  nothing but the new bytes is added, and either way the frame starts where numbering stood.
  */
  lemma NumberBreaksExactly(l: Layer, data: seq<Byte>)
    requires l.Valid()
    ensures var (l', off) := l.Number(data);
            && off == l.send && l'.send == l'.cursor == l.send + |data| && l'.recv == l.recv
            && l'.maxReplay == l.maxReplay
            && (!l.broken ==> (l'.broken <==> l.send - l.acked + |data| > l.maxReplay))
            && (l.broken ==> l'.broken)
            && (!l'.broken ==> l'.acked == l.acked && l'.replay == l.replay + data)
            && (l'.broken && !l.broken ==> l'.acked == l'.send)
  {
  }

  /** Replay fills the room it is given: it sends short only when nothing pending is left. */
  lemma SendReplayRepresents(l: Layer, hist: seq<Byte>, room: nat)
    requires l.Represents(hist) && l.HasPending()
    ensures var (l', off, data) := l.SendReplay(room);
            && l'.Represents(hist) && off == l.cursor && data == hist[off..off + |data|]
            && |data| <= room && (|data| == room || !l'.HasPending()) && (room > 0 ==> data != [])
            && l'.cursor == off + |data| && l'.acked == l.acked && l'.recv == l.recv
  {
  }

  /** A broken layer retains nothing, owes nothing and still counts what it receives. */
  lemma MarkBrokenOwesNothing(l: Layer)
    requires l.Valid()
    ensures var l' := l.MarkBroken();
            && l'.broken && l'.replay == [] && l'.acked == l'.cursor == l'.send == l.send
            && l'.recv == l.recv && l'.lastAck == l.lastAck
  {
  }

  /** A new layer keeps up to the bound it is given, or 16 MiB when given none. */
  lemma NewLayerBound(maxReplay: int)
    ensures maxReplay > 0 ==> NewLayer(maxReplay).maxReplay == maxReplay
    ensures maxReplay <= 0 ==> NewLayer(maxReplay).maxReplay == 16777216
  {
  }

  /**
  An ack is refused exactly when it is of bytes never sent. A good one releases what it covers and
  never makes the sender repeat a byte it covers.
  */
  lemma AckRepresents(l: Layer, hist: seq<Byte>, n: nat)
    requires l.Represents(hist)
    ensures l.Ack(n).0.Represents(hist)
    ensures var (l', ok) := l.Ack(n);
            && (ok <==> n <= l.send) && (l'.broken <==> l.broken || !ok)
            && (!l'.broken ==> l'.acked == Max(l.acked, n) && l'.cursor == Max(l.cursor, n))
            && l'.send == l.send && l'.recv == l.recv && (l.broken && ok ==> l' == l)
  {
    if !l.broken && l.acked < n <= l.send {
      assert hist[l.acked..][n - l.acked..] == hist[n..];
    }
  }

  lemma ResumeOutRepresents(l: Layer, hist: seq<Byte>, r: nat)
    requires l.Represents(hist)
    ensures l.ResumeOut(r).0.Represents(hist)
  {
    if !l.broken && l.acked <= r <= l.send {
      assert hist[l.acked..][r - l.acked..] == hist[r..];
    }
  }
}
