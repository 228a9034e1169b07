/**
The request handlers as they drive the in-place byte layer: a batch poll, a batch upload and a
resume on the server, and the client's side of a poll, each in the order the source runs it.
*/
module Exchanges {
  import opened Bytes
  import opened Layers
  import opened Pipes
  import opened Reliables

  datatype PollAnswer = BadAck | Gone | NoContent | Content(off: uint64, data: seq<Byte>)

  /** What the peer has of what `rs` has numbered: everything acked, nothing unsent. */
  ghost predicate PeerAt(rs: Reliable, recv: nat)
    reads rs
  {
    (rs.broken || rs.ackedOffset as nat <= recv) && recv <= rs.sendOffset as nat
  }

  /** Applying an ack and rewinding puts the cursor at the greater of the ack and what was acked. */
  lemma RewoundAt(l: Layer, ack: nat)
    requires l.Valid() && !l.broken && ack <= l.send
    ensures var l1 := l.Ack(ack).0.RewindToAcked();
            !l1.broken && l1.cursor == l1.acked == Max(ack, l.acked) && l1.send == l.send
  {
  }

  /** From there, whatever `nextOut` gives starts at the cursor and is what the history holds. */
  lemma NextOutFrom(l: Layer, hist: seq<Byte>, room: nat, out: Outcome)
    requires l.Represents(hist)
    requires !l.broken ==> l.cursor == l.acked
    ensures !l.broken && l.HasPending() ==>
              var (l', off, data) := l.SendReplay(room);
              && off == l.acked && |data| <= room && off + |data| <= |hist| && data == hist[off..off + |data|]
              && l'.acked == l.acked && l'.recv == l.recv && !l'.broken
    ensures !l.HasPending() && out.Got? ==>
              var (l', off) := l.Number(out.data);
              && off == |hist| && (!l.broken ==> off == l.acked)
              && (hist + out.data)[off..off + |out.data|] == out.data
              && (l'.broken || l'.acked == l.acked) && l'.recv == l.recv
  {
    if !l.broken && l.HasPending() {
      SendReplayRepresents(l, hist, room);
    }
  }

  /** The first half of a poll: apply the ack and, if it is good, put the cursor at what is acked. */
  method AckAndRewind(rs: Reliable, ack: uint64) returns (ok: bool)
    requires rs.Valid()
    modifies rs
    ensures rs.Valid() && unchanged(rs.outPipe)
    ensures rs.recvOffset == old(rs.recvOffset) && rs.sendOffset == old(rs.sendOffset)
    ensures ok <==> ack <= old(rs.sendOffset)
    ensures rs.broken <==> old(rs.broken) || !ok
    ensures ok && !rs.broken ==>
              rs.sentCursor == rs.ackedOffset && rs.ackedOffset as nat == Max(ack as nat, old(rs.ackedOffset) as nat)
  {
    ok := rs.Ack(ack);
    if ok {
      rs.RewindToAcked();
      if !old(rs.broken) {
        RewoundAt(old(rs.View()), ack as nat);
      }
    }
  }

  /** The second half: one `nextOut`, from a cursor that stands at what is acked. */
  method Answer(rs: Reliable, room: nat, env1: seq<Burst>, env2: seq<Burst>) returns (answer: PollAnswer)
    requires rs.Valid() && rs.sendOffset as int + room < U64
    requires !rs.broken ==> rs.sentCursor == rs.ackedOffset
    modifies rs, rs.outPipe
    ensures rs.Valid() && rs.recvOffset == old(rs.recvOffset) && answer != BadAck
    ensures old(rs.broken) ==> rs.broken
    ensures rs.broken || rs.ackedOffset == old(rs.ackedOffset)
    ensures answer.Content? ==> 0 < |answer.data| <= room && answer.off as nat + |answer.data| <= |rs.outPipe.taken|
    ensures answer.Content? && !old(rs.broken) ==>
              && answer.off == old(rs.ackedOffset)
              && answer.data == rs.outPipe.taken[answer.off as nat..answer.off as nat + |answer.data|]
    ensures answer == Gone ==> rs.outPipe.closed && rs.outPipe.buf == []
    ensures old(rs.outPipe.taken) <= rs.outPipe.taken
    ensures room > 0 && !old(rs.broken) && old(rs.ackedOffset) < old(rs.sendOffset) ==> answer.Content?
    ensures old(rs.broken) || old(rs.ackedOffset) == old(rs.sendOffset) ==>
              var out := ReadAvailable(old(rs.outPipe.View()), room, env1, env2).1;
              && (out.Got? && out.data != [] <==> answer.Content?) && (answer == Gone <==> out.Eof?)
              && (answer.Content? ==> answer.data == out.data)
  {
    ghost var l, hist, pipe := rs.View(), rs.outPipe.taken, rs.outPipe.View();
    ReadAvailableKeeps(pipe, room, env1, env2);
    NextOutFrom(l, hist, room, ReadAvailable(pipe, room, env1, env2).1);
    hide Pipes.ReadAvailable, Layer.SendReplay, Layer.Number, Layer.Represents, Layer.Valid;
    var r := rs.NextOut(room, env1, env2);
    match r
    case Nothing(out) => answer := if out.Eof? then Gone else NoContent;
    case Sent(off, data) => answer := if data == [] then NoContent else Content(off, data);
  }

  /**
  `pollBatchResumable`, receiving: apply the ack, rewind, send. From an unbroken layer a data answer
  starts exactly at the greater of the request's ack and what was acked before, and carries the
  bytes of the stream from there; an ack of bytes never sent is refused and breaks the layer.
  */
  method PollBatch(rs: Reliable, ack: uint64, room: nat, env1: seq<Burst>, env2: seq<Burst>)
    returns (answer: PollAnswer, upRecv: uint64)
    requires rs.Valid() && rs.sendOffset as int + room < U64
    modifies rs, rs.outPipe
    ensures rs.Valid() && upRecv == rs.recvOffset == old(rs.recvOffset)
    ensures ack > old(rs.sendOffset) <==> answer == BadAck
    ensures answer == BadAck ==> rs.broken
    ensures answer.Content? ==> 0 < |answer.data| <= room && answer.off as nat + |answer.data| <= |rs.outPipe.taken|
    ensures answer != BadAck && !old(rs.broken) ==>
              rs.broken || rs.ackedOffset as nat == Max(ack as nat, old(rs.ackedOffset) as nat)
    ensures answer.Content? && !old(rs.broken) ==>
              && answer.off as nat == Max(ack as nat, old(rs.ackedOffset) as nat)
              && answer.data == rs.outPipe.taken[answer.off as nat..answer.off as nat + |answer.data|]
    ensures answer == Gone ==> rs.outPipe.closed && rs.outPipe.buf == []
    ensures old(rs.outPipe.taken) <= rs.outPipe.taken
    // with bytes unacknowledged after the ack, or bytes the wait brought, there is an answer
    ensures room > 0 && !old(rs.broken) && old(rs.ackedOffset) < old(rs.sendOffset) && ack < old(rs.sendOffset) ==>
              answer.Content?
    ensures ack == old(rs.sendOffset) ==>
              var out := ReadAvailable(old(rs.outPipe.View()), room, env1, env2).1;
              && (out.Got? && out.data != [] <==> answer.Content?) && (answer == Gone <==> out.Eof?)
              && (answer.Content? ==> answer.data == out.data)
  {
    var ok := AckAndRewind(rs, ack);
    if !ok {
      return BadAck, rs.recvOffset;
    }
    answer := Answer(rs, room, env1, env2);
    upRecv := rs.recvOffset;
  }

  /** `pollBatchResumable`, sending: the ack first, then the whole body or nothing of it. */
  method UploadBatch(rs: Reliable, ack: uint64, off: uint64, data: seq<Byte>)
    returns (res: RecvResult, ok: bool, recv: uint64)
    requires rs.Valid() && rs.recvOffset as int + |data| < U64
    modifies rs, rs.inPipe, rs.outPipe
    ensures rs.Valid() && recv == rs.recvOffset
    ensures !ok <==> ack > old(rs.sendOffset)
    ensures ok && res == Accepted ==>
              && off <= old(rs.recvOffset) && rs.recvOffset as nat == off as nat + |data|
              && |data| >= (old(rs.recvOffset) - off) as nat
              && rs.inPipe.written == old(rs.inPipe.written) + data[(old(rs.recvOffset) - off) as nat..]
    ensures !ok || res != Accepted ==> rs.inPipe.written == old(rs.inPipe.written) && recv == old(rs.recvOffset)
    ensures !ok || res == Gap ==> rs.broken
    ensures ok && off <= old(rs.recvOffset) && old(rs.recvOffset) as nat < off as nat + |data| && !old(rs.inPipe.closed)
            <==> ok && res == Accepted
    ensures ok && off > old(rs.recvOffset) <==> ok && res == Gap
  {
    res := Duplicate;
    ok := rs.Ack(ack);
    if ok {
      res := rs.RecvIn(off, data);
    }
    recv := rs.recvOffset;
  }

  /**
  The offset exchange of `ResumeHandler`, every transport already gone: either the next transport
  replays exactly the numbered bytes from the client's offset on, or the layer is broken for good.
  */
  method AnswerResume(rs: Reliable, clientRecv: uint64) returns (ok: bool, serverRecv: uint64)
    requires rs.Valid()
    modifies rs
    ensures rs.Valid() && serverRecv == rs.recvOffset == old(rs.recvOffset)
    ensures ok <==> !old(rs.broken) && old(rs.ackedOffset) <= clientRecv <= old(rs.sendOffset)
    ensures ok ==> !rs.broken && rs.sentCursor == clientRecv && rs.replay == rs.outPipe.taken[clientRecv as nat..]
    ensures !ok ==> rs.broken && rs.replay == []
  {
    serverRecv := rs.recvOffset;
    ok := rs.ResumeOut(clientRecv);
    if !ok {
      rs.MarkBroken();
    }
  }

  /** `doBatchPoll`'s use of an answer that starts where the client stands. */
  method AcceptAnswer(rl: Reliable, off: uint64, data: seq<Byte>)
    requires rl.Valid() && !rl.inPipe.closed && off == rl.recvOffset && data != []
    requires rl.recvOffset as int + |data| < U64
    modifies rl, rl.inPipe, rl.outPipe
    ensures rl.Valid() && rl.recvOffset as nat == off as nat + |data|
    ensures rl.inPipe.written == old(rl.inPipe.written) + data && rl.broken == old(rl.broken)
  {
    assert data[0..] == data;
    var res := rl.RecvIn(off, data);
    assert res == Accepted;
  }

  /**
  One whole poll of a serial client against its server, the answer delivered or lost. Delivered, it
  starts where the client stands and is accepted in full; lost, the client is where it was. Either
  way the client has exactly a prefix of what the server has numbered, so the next poll may follow
  with no handshake.
  */
  method SerialPoll(server: Reliable, client: Reliable, room: nat, env1: seq<Burst>, env2: seq<Burst>, lost: bool)
    returns (answer: PollAnswer)
    requires {server, server.outPipe, server.inPipe} !! {client, client.outPipe, client.inPipe}
    requires server.Valid() && client.Valid() && !server.broken && !client.inPipe.closed
    requires server.sendOffset as int + room < U64 && client.recvOffset as int + room < U64
    requires PeerAt(server, client.recvOffset as nat)
    requires client.inPipe.written == server.outPipe.taken[..client.recvOffset as nat]
    modifies server, server.outPipe, client, client.inPipe, client.outPipe
    ensures server.Valid() && client.Valid() && PeerAt(server, client.recvOffset as nat)
    ensures client.inPipe.written == server.outPipe.taken[..client.recvOffset as nat]
    ensures answer != BadAck
    ensures answer.Content? ==> answer.off == old(client.recvOffset)
    ensures answer.Content? && !lost ==> client.inPipe.written == old(client.inPipe.written) + answer.data
    ensures !answer.Content? || lost ==> client.inPipe.written == old(client.inPipe.written)
    ensures room > 0 && old(client.recvOffset) < old(server.sendOffset) ==> answer.Content?
    ensures old(client.recvOffset) == old(server.sendOffset) ==>
              var out := ReadAvailable(old(server.outPipe.View()), room, env1, env2).1;
              (out.Got? && out.data != [] <==> answer.Content?) && (answer.Content? ==> answer.data == out.data)
  {
    hide Reliable.Valid, Reliable.View;
    ghost var before, stood := server.outPipe.taken, client.recvOffset as nat;
    StoodWithin(server, stood);
    var recv: uint64;
    answer, recv := PollBatch(server, client.recvOffset, room, env1, env2);
    StoodWithin(server, 0);
    assert server.outPipe.taken[..stood] == before[..stood];
    if answer.Content? && !lost {
      ghost var end := stood + |answer.data|;
      assert server.outPipe.taken[..stood] + answer.data == server.outPipe.taken[..end];
      AcceptAnswer(client, answer.off, answer.data);
    }
  }

  lemma StoodWithin(rs: Reliable, recv: nat)
    requires rs.Valid() && recv <= rs.sendOffset as nat
    ensures |rs.outPipe.taken| == rs.sendOffset as nat && recv <= |rs.outPipe.taken|
  {
  }
}
