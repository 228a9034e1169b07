/**
The wire format of stream-mode bodies: a type byte, a four-byte big-endian length and a payload,
with eight-byte big-endian offsets inside seq-data and ack payloads; and the tagged messages the
WebSocket transport uses instead. A reader sees a finite body that may end anywhere.
*/
module Frames {
  import opened Bytes

  const DATA: Byte := 1
  const HEARTBEAT: Byte := 2
  const END: Byte := 3
  const GONE: Byte := 4
  const ACK: Byte := 5
  const SEQ_DATA: Byte := 6

  const SEQ_HEADER: nat := 8
  const HEADER: nat := 5
  const U32: nat := 0x1_0000_0000
  const U64: nat := 0x1_0000_0000_0000_0000

  datatype Frame = Frame(typ: Byte, payload: seq<Byte>)

  // ---- big-endian numbers ----

  function PutUint(n: nat, width: nat): (b: seq<Byte>)
    ensures |b| == width
  {
    if width == 0 then [] else PutUint(n / 256, width - 1) + [(n % 256) as Byte]
  }

  function Uint(b: seq<Byte>): nat {
    if b == [] then 0 else 256 * Uint(b[..|b| - 1]) + b[|b| - 1] as nat
  }

  function Pow256(k: nat): nat {
    if k == 0 then 1 else 256 * Pow256(k - 1)
  }

  lemma {:induction false} UintPut(n: nat, width: nat)
    requires n < Pow256(width)
    ensures Uint(PutUint(n, width)) == n
  {
    if width > 0 {
      UintPut(n / 256, width - 1);
      var b := PutUint(n, width);
      assert b[..width - 1] == PutUint(n / 256, width - 1);
    }
  }

  lemma {:induction false} PutUintOf(b: seq<Byte>)
    ensures PutUint(Uint(b), |b|) == b && Uint(b) < Pow256(|b|)
  {
    if b != [] {
      PutUintOf(b[..|b| - 1]);
      assert b == b[..|b| - 1] + [b[|b| - 1]];
    }
  }

  lemma Widths()
    ensures Pow256(4) == U32 && Pow256(8) == U64
  {
    assert Pow256(2) == 65536;
    assert Pow256(4) == 256 * (256 * Pow256(2));
    assert Pow256(6) == 256 * (256 * Pow256(4));
    assert Pow256(8) == 256 * (256 * Pow256(6));
  }

  // ---- offsets and acks ----

  function EncodeOffset(n: nat): (b: seq<Byte>)
    requires n < U64
    ensures |b| == SEQ_HEADER
  {
    PutUint(n, SEQ_HEADER)
  }

  function DecodeAck(payload: seq<Byte>): Option<nat> {
    if |payload| != SEQ_HEADER then None else Some(Uint(payload))
  }

  function SplitSeq(payload: seq<Byte>): Option<(nat, seq<Byte>)> {
    if |payload| < SEQ_HEADER then None
    else Some((Uint(payload[..SEQ_HEADER]), payload[SEQ_HEADER..]))
  }

  /** Offsets survive both payload formats, and whatever parses is what the encoder would have made. */
  lemma OffsetRoundTrip(n: nat, data: seq<Byte>, payload: seq<Byte>)
    requires n < U64
    ensures DecodeAck(EncodeOffset(n)) == Some(n)
    ensures SplitSeq(EncodeOffset(n) + data) == Some((n, data))
    ensures DecodeAck(payload).Some? ==> DecodeAck(payload).value < U64
                                         && EncodeOffset(DecodeAck(payload).value) == payload
    ensures SplitSeq(payload).Some? ==>
              var (off, data) := SplitSeq(payload).value;
              off < U64 && EncodeOffset(off) + data == payload
  {
    Widths();
    UintPut(n, 8);
    assert (EncodeOffset(n) + data)[..SEQ_HEADER] == EncodeOffset(n);
    if |payload| >= SEQ_HEADER {
      PutUintOf(payload[..SEQ_HEADER]);
      assert payload == payload[..SEQ_HEADER] + payload[SEQ_HEADER..];
      assert |payload| == SEQ_HEADER ==> payload[..SEQ_HEADER] == payload;
    }
  }

  // ---- frames ----

  function EncodeFrame(f: Frame): (b: seq<Byte>)
    ensures |b| == HEADER + |f.payload|
  {
    [f.typ] + PutUint(|f.payload|, 4) + f.payload
  }

  /** `writeSeqFrame`: header, offset and data without building the payload first. */
  function EncodeSeqFrame(off: nat, data: seq<Byte>): seq<Byte>
    requires off < U64
  {
    [SEQ_DATA] + PutUint(SEQ_HEADER + |data|, 4) + PutUint(off, SEQ_HEADER) + data
  }

  function EncodeAll(fs: seq<Frame>): seq<Byte> {
    if fs == [] then [] else EncodeFrame(fs[0]) + EncodeAll(fs[1..])
  }

  /** The longest payload a reader bounded by `maxPayload` accepts for a type. */
  function Limit(typ: Byte, maxPayload: nat): nat {
    if typ == SEQ_DATA then maxPayload + SEQ_HEADER else if typ == ACK then SEQ_HEADER else maxPayload
  }

  predicate WellSized(f: Frame, maxPayload: nat) {
    |f.payload| < U32 && (f.payload == [] || |f.payload| <= Limit(f.typ, maxPayload))
  }

  /** What one `next` reports: a frame, `io.EOF`, `io.ErrUnexpectedEOF`, or a length over the bound. */
  datatype Next = Got(frame: Frame) | CleanEof | UnexpectedEof | TooLong

  /** `io.ReadFull` of `n > 0` bytes: nothing left at all is a clean end, too little is not. */
  datatype Full = Filled(bytes: seq<Byte>) | NoneLeft | CutShort

  function ReadFull(input: seq<Byte>, n: nat): Full {
    if n <= |input| then Filled(input[..n]) else if input == [] then NoneLeft else CutShort
  }

  function ReadFrame(input: seq<Byte>, maxPayload: nat): (r: (Next, seq<Byte>))
    ensures r.0.Got? ==> |r.1| < |input|
  {
    match ReadFull(input, HEADER)
    case NoneLeft => (CleanEof, [])
    case CutShort => (UnexpectedEof, [])
    case Filled(hdr) =>
      var typ, length, rest := hdr[0], Uint(hdr[1..]), input[HEADER..];
      if length == 0 then (Got(Frame(typ, [])), rest)
      else if length > Limit(typ, maxPayload) then (TooLong, rest)
      else
        match ReadFull(rest, length)
        case NoneLeft => (CleanEof, [])
        case CutShort => (UnexpectedEof, [])
        case Filled(payload) => (Got(Frame(typ, payload)), rest[length..])
  }

  /** Frames read until something else happens, what that was, and the input not consumed. */
  function ReadAll(input: seq<Byte>, maxPayload: nat): (r: (seq<Frame>, Next, seq<Byte>))
    decreases |input|
  {
    var (n, rest) := ReadFrame(input, maxPayload);
    if !n.Got? then ([], n, rest)
    else
      var (fs, end, left) := ReadAll(rest, maxPayload);
      ([n.frame] + fs, end, left)
  }

  class FrameReader {
    var input: seq<Byte>
    const maxPayload: nat

    constructor (input: seq<Byte>, maxPayload: nat)
      ensures this.input == input && this.maxPayload == maxPayload
    {
      this.input, this.maxPayload := input, maxPayload;
    }

    /** `io.ReadFull`: on a short read everything that was left is gone. */
    method Fill(n: nat) returns (r: Full)
      modifies this
      ensures r == ReadFull(old(input), n)
      ensures input == if r.Filled? then old(input)[n..] else []
    {
      if n <= |input| {
        r := Filled(input[..n]);
        input := input[n..];
      } else {
        r := if |input| == 0 then NoneLeft else CutShort;
        input := [];
      }
    }

    method NextFrame() returns (r: Next)
      modifies this
      ensures (r, input) == ReadFrame(old(input), maxPayload)
    {
      var hdr := Fill(HEADER);
      if !hdr.Filled? {
        return if hdr.NoneLeft? then CleanEof else UnexpectedEof;
      }
      var typ := hdr.bytes[0];
      var length := Uint(hdr.bytes[1..]);
      if length == 0 {
        return Got(Frame(typ, []));
      }
      var limit := maxPayload;
      if typ == SEQ_DATA {
        limit := limit + SEQ_HEADER;
      } else if typ == ACK {
        limit := SEQ_HEADER;
      }
      if length > limit {
        return TooLong;
      }
      var payload := Fill(length);
      if !payload.Filled? {
        return if payload.NoneLeft? then CleanEof else UnexpectedEof;
      }
      return Got(Frame(typ, payload.bytes));
    }
  }

  // ---- round trips and truncation ----

  /** Numbered data written in one go is the same frame as its payload written as a frame. */
  lemma SeqFrameIsFrame(off: nat, data: seq<Byte>)
    requires off < U64
    ensures EncodeSeqFrame(off, data) == EncodeFrame(Frame(SEQ_DATA, EncodeOffset(off) + data))
  {
    assert [SEQ_DATA] + PutUint(SEQ_HEADER + |data|, 4) + (EncodeOffset(off) + data)
        == [SEQ_DATA] + PutUint(SEQ_HEADER + |data|, 4) + EncodeOffset(off) + data;
  }

  lemma UintOfFour(b: seq<Byte>)
    requires |b| == 4
    ensures Uint(b) == 16777216 * (b[0] as nat) + 65536 * (b[1] as nat) + 256 * (b[2] as nat) + b[3] as nat
  {
    var b3, b2, b1 := b[..3], b[..3][..2], b[..3][..2][..1];
    assert b1[..0] == [];
    assert Uint(b1) == b[0] as nat;
    assert Uint(b2) == 256 * Uint(b1) + b[1] as nat;
    assert Uint(b3) == 256 * Uint(b2) + b[2] as nat;
  }

  lemma UintOfEight(b: seq<Byte>)
    requires |b| == 8
    ensures Uint(b) == 0x1_0000_0000 * Uint(b[..4]) + Uint(b[4..])
  {
    var b7, b6, b5 := b[..7], b[..6], b[..5];
    assert b7[..6] == b6 && b6[..5] == b5 && b5[..4] == b[..4];
    assert Uint(b5) == 256 * Uint(b[..4]) + b[4] as nat;
    assert Uint(b6) == 256 * Uint(b5) + b[5] as nat;
    assert Uint(b7) == 256 * Uint(b6) + b[6] as nat;
    UintOfFour(b[4..]);
  }

  /**
  The bytes on the wire: the type, the payload's length most significant byte first, the payload;
  an offset most significant byte first in eight; and the six types numbered one to six.
  */
  lemma WireLayout(f: Frame, off: nat, data: seq<Byte>)
    requires |f.payload| < U32 && off < U64
    ensures var b := EncodeFrame(f);
            && |b| == 5 + |f.payload| && b[0] == f.typ && b[5..] == f.payload
            && 16777216 * (b[1] as nat) + 65536 * (b[2] as nat) + 256 * (b[3] as nat) + b[4] as nat == |f.payload|
    ensures var b := EncodeOffset(off);
            && |b| == 8
            && off == 0x1_0000_0000 * (16777216 * (b[0] as nat) + 65536 * (b[1] as nat)
                                       + 256 * (b[2] as nat) + b[3] as nat)
                      + 16777216 * (b[4] as nat) + 65536 * (b[5] as nat) + 256 * (b[6] as nat) + b[7] as nat
    ensures WsEncodeSeq(off, data) == [6] + EncodeOffset(off) + data && EncodeSeqFrame(off, data)[0] == 6
    ensures [DATA, HEARTBEAT, END, GONE, ACK, SEQ_DATA] == [1, 2, 3, 4, 5, 6]
  {
    Widths();
    UintPut(|f.payload|, 4);
    UintPut(off, 8);
    var len, b := PutUint(|f.payload|, 4), EncodeOffset(off);
    UintOfFour(len);
    UintOfEight(b);
    UintOfFour(b[..4]);
    UintOfFour(b[4..]);
    hide PutUint, Uint, Pow256;
    assert EncodeFrame(f) == [f.typ] + len + f.payload;
    assert EncodeFrame(f)[5..] == f.payload;
  }

  /** A whole frame at the front of the input is read back, and nothing beyond it is touched. */
  lemma ReadWhole(f: Frame, tail: seq<Byte>, maxPayload: nat)
    requires WellSized(f, maxPayload)
    ensures ReadFrame(EncodeFrame(f) + tail, maxPayload) == (Got(f), tail)
  {
    var input, len := EncodeFrame(f) + tail, PutUint(|f.payload|, 4);
    Widths();
    UintPut(|f.payload|, 4);
    assert input[..HEADER] == [f.typ] + len;
    assert ([f.typ] + len)[1..] == len;
    assert input[HEADER..] == f.payload + tail;
    if f.payload != [] {
      assert (f.payload + tail)[..|f.payload|] == f.payload;
      assert (f.payload + tail)[|f.payload|..] == tail;
    } else {
      assert f.payload + tail == tail;
    }
  }

  /**
  What the resumable writers send is what the reader hands back: numbered data of up to the negotiated
  bound, though its offset takes the payload past it, and acks whatever the bound; plain and numbered
  data over the bound is refused before any of it is read.
  */
  lemma WriterToReader(off: nat, data: seq<Byte>, tail: seq<Byte>, maxPayload: nat)
    requires off < U64 && SEQ_HEADER + |data| < U32
    ensures |data| <= maxPayload ==>
              var (r, rest) := ReadFrame(EncodeSeqFrame(off, data) + tail, maxPayload);
              && r.Got? && r.frame.typ == SEQ_DATA && SplitSeq(r.frame.payload) == Some((off, data)) && rest == tail
    ensures var (r, rest) := ReadFrame(EncodeFrame(Frame(ACK, EncodeOffset(off))) + tail, maxPayload);
            r.Got? && r.frame.typ == ACK && DecodeAck(r.frame.payload) == Some(off) && rest == tail
    ensures |data| > maxPayload ==>
              && ReadFrame(EncodeSeqFrame(off, data) + tail, maxPayload).0 == TooLong
              && ReadFrame(EncodeFrame(Frame(DATA, data)) + tail, maxPayload).0 == TooLong
  {
    OffsetRoundTrip(off, data, []);
    SeqFrameIsFrame(off, data);
    var numbered := Frame(SEQ_DATA, EncodeOffset(off) + data);
    ReadWhole(Frame(ACK, EncodeOffset(off)), tail, maxPayload);
    if |data| <= maxPayload {
      ReadWhole(numbered, tail, maxPayload);
    } else {
      ReadOversized(numbered, tail, maxPayload);
      ReadOversized(Frame(DATA, data), tail, maxPayload);
    }
  }

  lemma ReadOversized(f: Frame, tail: seq<Byte>, maxPayload: nat)
    requires |f.payload| < U32 && |f.payload| > Limit(f.typ, maxPayload)
    ensures ReadFrame(EncodeFrame(f) + tail, maxPayload).0 == TooLong
  {
    var input, len := EncodeFrame(f) + tail, PutUint(|f.payload|, 4);
    Widths();
    UintPut(|f.payload|, 4);
    assert input[..HEADER] == [f.typ] + len;
    assert ([f.typ] + len)[1..] == len;
  }

  /** A frame cut short is reported as unexpected, unless the cut leaves nothing or exactly its header. */
  lemma ReadCut(f: Frame, k: nat, maxPayload: nat)
    requires WellSized(f, maxPayload) && k < |EncodeFrame(f)|
    ensures ReadFrame(EncodeFrame(f)[..k], maxPayload)
            == (if k == 0 || k == HEADER then CleanEof else UnexpectedEof, [])
  {
    var input, len := EncodeFrame(f)[..k], PutUint(|f.payload|, 4);
    if k >= HEADER {
      Widths();
      UintPut(|f.payload|, 4);
      assert input[..HEADER] == [f.typ] + len;
      assert ([f.typ] + len)[1..] == len;
      assert |input[HEADER..]| == k - HEADER;
    }
  }

  /** How many frames of `fs` end at or before byte `k` of their encoding. */
  function Whole(fs: seq<Frame>, k: nat): (n: nat)
    ensures n <= |fs|
  {
    if fs == [] || k < |EncodeFrame(fs[0])| then 0 else 1 + Whole(fs[1..], k - |EncodeFrame(fs[0])|)
  }

  /** How far byte `k` is past the last frame boundary at or before it. */
  function Past(fs: seq<Frame>, k: nat): nat {
    if fs == [] || k < |EncodeFrame(fs[0])| then k else Past(fs[1..], k - |EncodeFrame(fs[0])|)
  }

  /**
  Exact truncation behaviour. Cut the encoding of any list of well-sized frames anywhere: the
  reader returns exactly the frames that end before the cut, and then a clean end of file if and
  only if the cut is on a frame boundary or right after the header of a frame with a payload; every
  other cut is an unexpected end. With no cut this is the round trip.
  */
  lemma {:induction false} Truncation(fs: seq<Frame>, k: nat, maxPayload: nat)
    requires forall f <- fs :: WellSized(f, maxPayload)
    requires k <= |EncodeAll(fs)|
    ensures var (got, end, left) := ReadAll(EncodeAll(fs)[..k], maxPayload);
            && got == fs[..Whole(fs, k)]
            && end == (if Past(fs, k) == 0 || Past(fs, k) == HEADER then CleanEof else UnexpectedEof)
            && left == []
  {
    hide ReadAll, ReadFrame, EncodeAll, EncodeFrame, WellSized;
    if fs == [] || k < |EncodeFrame(fs[0])| {
      CutAtFirst(fs, k, maxPayload);
      assert fs[..0] == [];
    } else {
      var rest, k' := fs[1..], k - |EncodeFrame(fs[0])|;
      EncodeAllSize(fs);
      assert fs[0] in fs && forall f <- rest :: f in fs;
      assert [fs[0]] + rest == fs;
      Truncation(rest, k', maxPayload);
      FirstThenRest(fs[0], rest, k', maxPayload);
      assert fs[..Whole(rest, k') + 1] == [fs[0]] + rest[..Whole(rest, k')];
    }
  }

  lemma EncodeAllSize(fs: seq<Frame>)
    requires fs != []
    ensures |EncodeAll(fs)| == |EncodeFrame(fs[0])| + |EncodeAll(fs[1..])|
  {
  }

  lemma CutAtFirst(fs: seq<Frame>, k: nat, maxPayload: nat)
    requires forall f <- fs :: WellSized(f, maxPayload)
    requires k <= |EncodeAll(fs)| && (fs == [] || k < |EncodeFrame(fs[0])|)
    ensures ReadAll(EncodeAll(fs)[..k], maxPayload)
            == ([], if k == 0 || k == HEADER then CleanEof else UnexpectedEof, [])
  {
    if fs == [] {
      assert EncodeAll(fs)[..k] == [];
    } else {
      assert fs[0] in fs;
      assert EncodeAll(fs)[..k] == EncodeFrame(fs[0])[..k];
      ReadCut(fs[0], k, maxPayload);
    }
  }

  lemma FirstThenRest(f: Frame, rest: seq<Frame>, k: nat, maxPayload: nat)
    requires WellSized(f, maxPayload) && k <= |EncodeAll(rest)|
    ensures var (got, end, left) := ReadAll(EncodeAll(rest)[..k], maxPayload);
            ReadAll(EncodeAll([f] + rest)[..|EncodeFrame(f)| + k], maxPayload) == ([f] + got, end, left)
  {
    assert ([f] + rest)[1..] == rest;
    assert EncodeAll([f] + rest)[..|EncodeFrame(f)| + k] == EncodeFrame(f) + EncodeAll(rest)[..k];
    ReadWhole(f, EncodeAll(rest)[..k], maxPayload);
  }

  /** `Whole` and `Past` are what they say: the boundary before the cut, and the distance to it. */
  lemma {:induction false} CutPosition(fs: seq<Frame>, k: nat)
    requires k <= |EncodeAll(fs)|
    ensures k == |EncodeAll(fs[..Whole(fs, k)])| + Past(fs, k)
    ensures Past(fs, k) > 0 ==> Whole(fs, k) < |fs| && Past(fs, k) < |EncodeFrame(fs[Whole(fs, k)])|
  {
    hide EncodeFrame;
    if fs != [] && k >= |EncodeFrame(fs[0])| {
      var rest := fs[1..];
      CutPosition(rest, k - |EncodeFrame(fs[0])|);
      var n := Whole(rest, k - |EncodeFrame(fs[0])|);
      assert fs[..n + 1][1..] == rest[..n];
    } else {
      assert fs[..0] == [];
    }
  }

  /**
  The comment on `next` promises a clean end only at a frame boundary. It is not so: a body cut right
  after the header of a frame with a payload loses that frame and still ends cleanly.
  */
  lemma HeaderCutLooksClean(f: Frame, maxPayload: nat)
    requires WellSized(f, maxPayload) && f.payload != []
    ensures ReadAll(EncodeFrame(f)[..HEADER], maxPayload) == ([], CleanEof, [])
  {
    ReadCut(f, HEADER, maxPayload);
  }

  /** No frame is invented: whatever is read from any input at all re-encodes to what was consumed. */
  lemma {:induction false} ReadReencodes(input: seq<Byte>, maxPayload: nat)
    ensures EncodeAll(ReadAll(input, maxPayload).0) <= input
    ensures forall f <- ReadAll(input, maxPayload).0 :: WellSized(f, maxPayload)
    decreases |input|
  {
    var (n, rest) := ReadFrame(input, maxPayload);
    if n.Got? {
      ReadReencodes(rest, maxPayload);
      var len := input[1..HEADER];
      PutUintOf(len);
      Widths();
      assert input[..HEADER][1..] == len;
      assert EncodeFrame(n.frame) + rest == input;
      var fs := ReadAll(rest, maxPayload).0;
      assert ([n.frame] + fs)[1..] == fs;
      assert EncodeFrame(n.frame) + EncodeAll(fs) <= EncodeFrame(n.frame) + rest;
    }
  }

  // ---- WebSocket messages ----

  function WsEncode(typ: Byte, payload: seq<Byte>): seq<Byte> {
    [typ] + payload
  }

  function WsEncodeSeq(off: nat, data: seq<Byte>): seq<Byte>
    requires off < U64
  {
    [SEQ_DATA] + PutUint(off, SEQ_HEADER) + data
  }

  function WsDecode(msg: seq<Byte>): Option<Frame> {
    if msg == [] then None else Some(Frame(msg[0], msg[1..]))
  }

  /** Every message decodes to what was encoded, numbered data and acks included, and back. */
  lemma WsRoundTrip(typ: Byte, payload: seq<Byte>, off: nat, data: seq<Byte>, msg: seq<Byte>)
    requires off < U64
    ensures WsDecode(WsEncode(typ, payload)) == Some(Frame(typ, payload))
    ensures WsDecode(WsEncodeSeq(off, data)).Some?
            && WsDecode(WsEncodeSeq(off, data)).value.typ == SEQ_DATA
            && SplitSeq(WsDecode(WsEncodeSeq(off, data)).value.payload) == Some((off, data))
    ensures DecodeAck(WsDecode(WsEncode(ACK, EncodeOffset(off))).value.payload) == Some(off)
    ensures WsDecode(msg).Some? ==> WsEncode(WsDecode(msg).value.typ, WsDecode(msg).value.payload) == msg
  {
    OffsetRoundTrip(off, data, []);
    assert WsEncode(typ, payload)[1..] == payload;
    assert WsEncodeSeq(off, data)[1..] == EncodeOffset(off) + data;
    assert WsEncode(ACK, EncodeOffset(off))[1..] == EncodeOffset(off);
  }
}
