/**
`reliable` as the source writes it: unsigned 64-bit offsets and a replay buffer updated in place,
between the pipe the local application writes and the pipe it reads. Every method makes exactly
one transition of `Layers.Layer` and keeps the numbered history equal to what was taken from the
outgoing pipe. Each subtraction, addition, cast and slice is checked to stay in range as long as
the totals of the session fit 64 bits, whatever offset a peer sends.
*/
module Reliables {
  import opened Bytes
  import opened Layers
  import opened Pipes

  const U64: int := 0x1_0000_0000_0000_0000

  newtype uint64 = x: int | 0 <= x < 0x1_0000_0000_0000_0000

  const ACK_EAGER_BYTES: nat := 128 * 1024

  /** `nextOut`'s results: bytes and their offset, or nothing and why. */
  datatype NextResult = Sent(off: uint64, data: seq<Byte>) | Nothing(out: Outcome)

  class Reliable {
    const outPipe: BufferedPipe
    const inPipe: BufferedPipe
    const maxReplay: nat
    var sendOffset: uint64
    var ackedOffset: uint64
    var sentCursor: uint64
    var replay: seq<Byte>
    var broken: bool
    var recvOffset: uint64
    var lastAck: uint64
    var ackEager: nat

    ghost function View(): (l: Layer)
      reads this
    {
      Layer(sendOffset as nat, ackedOffset as nat, sentCursor as nat, replay, maxReplay, broken,
            recvOffset as nat, lastAck as nat)
    }

    /** The history the layer represents is what was taken from `outPipe`; `recv` counts `inPipe`. */
    ghost predicate Valid()
      reads this, outPipe, inPipe
    {
      && outPipe != inPipe
      && outPipe.View().Valid() && inPipe.View().Valid()
      && View().Represents(outPipe.taken)
      && |inPipe.written| == recvOffset as nat
    }

    constructor (outPipe: BufferedPipe, inPipe: BufferedPipe, maxReplay: int)
      requires outPipe != inPipe && outPipe.View() == EMPTY && inPipe.View() == EMPTY
      ensures Valid() && View() == NewLayer(maxReplay)
      ensures this.outPipe == outPipe && this.inPipe == inPipe && ackEager == 131072
    {
      this.outPipe, this.inPipe := outPipe, inPipe;
      this.maxReplay := if maxReplay <= 0 then DEFAULT_MAX_REPLAY else maxReplay;
      sendOffset, ackedOffset, sentCursor, replay, broken := 0, 0, 0, [], false;
      recvOffset, lastAck, ackEager := 0, 0, ACK_EAGER_BYTES;
    }

    method MarkBroken()
      requires Valid()
      modifies this
      ensures Valid() && View() == old(View()).MarkBroken() && ackEager == old(ackEager)
    {
      broken := true;
      replay := [];
      ackedOffset := sendOffset;
      sentCursor := sendOffset;
    }

    /**
    `nextOut` with room for `room` bytes: pending replay first, otherwise what the pipe gives
    during the wait, numbered and retained.
    */
    method NextOut(room: nat, env1: seq<Burst>, env2: seq<Burst>) returns (r: NextResult)
      requires Valid() && sendOffset as int + room < U64
      modifies this, outPipe
      ensures Valid() && ackEager == old(ackEager)
      ensures old(View()).HasPending() ==>
                && outPipe.View() == old(outPipe.View())
                && r.Sent? && (View(), r.off as nat, r.data) == old(View()).SendReplay(room)
      ensures !old(View()).HasPending() ==>
                && var (p', out) := ReadAvailable(old(outPipe.View()), room, env1, env2);
                && outPipe.View() == p'
                && (r.Sent? <==> out.Got? && out.data != [])
                && (r.Sent? ==> r.data == out.data && (View(), r.off as nat) == old(View()).Number(r.data))
                && (!r.Sent? ==> View() == old(View()) && r == Nothing(out))
    {
      if !broken && sentCursor < sendOffset {
        var start := (sentCursor - ackedOffset) as int;
        var n := Min(room, |replay| - start);
        r := Sent(sentCursor, replay[start..start + n]);
        sentCursor := sentCursor + n as uint64;
        return;
      }

      ghost var pipeBefore := outPipe.View();
      ReadAvailableKeeps(pipeBefore, room, env1, env2);
      var out := outPipe.ReadAvailableNow(room, env1, env2);
      if !out.Got? || out.data == [] {
        assert outPipe.taken == pipeBefore.taken;
        return Nothing(out);
      }

      NumberRepresents(View(), pipeBefore.taken, out.data);
      r := Sent(sendOffset, out.data);
      Retain(out.data);
    }

    /** The second critical section of `nextOut`. */
    method Retain(data: seq<Byte>)
      requires View().Valid() && sendOffset as int + |data| < U64
      modifies this
      ensures View() == old(View()).Number(data).0 && ackEager == old(ackEager)
    {
      sendOffset := sendOffset + |data| as uint64;
      sentCursor := sendOffset;
      if !broken {
        replay := replay + data;
        if |replay| > maxReplay {
          broken := true;
          replay := [];
          ackedOffset := sendOffset;
          sentCursor := sendOffset;
        }
      }
    }

    /** `recvIn`: any offset at all may be claimed; only the session's own total must fit. */
    method RecvIn(off: uint64, p: seq<Byte>) returns (res: RecvResult)
      requires Valid() && recvOffset as int + |p| < U64
      modifies this, inPipe, outPipe
      ensures Valid() && ackEager == old(ackEager)
      ensures var (l, expected, novel) := old(View()).RecvIn(off as nat, p, old(inPipe.closed));
              && View() == l && res == expected
              && inPipe.View() == (if res == Accepted then old(inPipe.View()).Write(novel)
                                   else old(inPipe.View()))
      ensures outPipe.View() == (if res == Accepted && ackEager > 0
                                    && recvOffset as nat - lastAck as nat >= ackEager
                                 then old(outPipe.View()).After(Interrupt) else old(outPipe.View()))
    {
      if off > recvOffset {
        MarkBroken();
        return Gap;
      }
      if off + |p| as uint64 <= recvOffset {
        return Duplicate;
      }
      var novel := p[(recvOffset - off) as int..];
      AfterValid(inPipe.View(), Put(novel));
      var ok := inPipe.Write(novel);
      if !ok {
        return PipeClosed;
      }
      recvOffset := recvOffset + |novel| as uint64;
      if ackEager > 0 && (recvOffset - lastAck) as nat >= ackEager {
        outPipe.InterruptNow();
      }
      return Accepted;
    }

    method Ack(n: uint64) returns (ok: bool)
      requires Valid()
      modifies this
      ensures Valid() && (View(), ok) == old(View()).Ack(n as nat) && ackEager == old(ackEager)
    {
      AckRepresents(View(), outPipe.taken, n as nat);
      if n > sendOffset {
        MarkBroken();
        return false;
      }
      if broken || n <= ackedOffset {
        return true;
      }
      replay := replay[(n - ackedOffset) as int..];
      ackedOffset := n;
      if sentCursor < n {
        sentCursor := n;
      }
      return true;
    }

    method TakeAck() returns (due: Option<uint64>)
      requires Valid()
      modifies this
      ensures Valid() && ackEager == old(ackEager)
      ensures var (l, expected) := old(View()).TakeAck();
              View() == l && (due.Some? <==> expected.Some?)
              && (due.Some? ==> due.value as nat == expected.value)
    {
      if recvOffset == lastAck {
        return None;
      }
      lastAck := recvOffset;
      return Some(recvOffset);
    }

    method ResetAck()
      requires Valid()
      modifies this
      ensures Valid() && View() == old(View()).ResetAck() && ackEager == old(ackEager)
    {
      lastAck := 0;
    }

    method ResumeOut(peerRecv: uint64) returns (ok: bool)
      requires Valid()
      modifies this
      ensures Valid() && (View(), ok) == old(View()).ResumeOut(peerRecv as nat) && ackEager == old(ackEager)
    {
      ResumeOutRepresents(View(), outPipe.taken, peerRecv as nat);
      if broken || peerRecv < ackedOffset || peerRecv > sendOffset {
        return false;
      }
      replay := replay[(peerRecv - ackedOffset) as int..];
      ackedOffset := peerRecv;
      sentCursor := peerRecv;
      return true;
    }

    method RewindToAcked()
      requires Valid()
      modifies this
      ensures Valid() && View() == old(View()).RewindToAcked() && ackEager == old(ackEager)
    {
      if !broken {
        sentCursor := ackedOffset;
      }
    }

    /** What this end could still replay, were its transport to die now. */
    method Progress() returns (acked: uint64, recv: uint64)
      requires Valid()
      ensures acked as nat == View().acked && recv as nat == |inPipe.written|
      ensures !broken ==> acked as nat + |replay| == |outPipe.taken|
    {
      acked, recv := ackedOffset, recvOffset;
    }
  }
}
