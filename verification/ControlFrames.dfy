/** The control FIFO: 9-byte frames, an opcode and a little-endian service id. */
module ControlFrames {
  import opened Types

  type byte = b: int | 0 <= b < 256

  const OP_STOP: byte := 0x41
  const OP_START: byte := 0x42
  const OP_RESTART: byte := 0x43
  const WIRE_COMMAND_SIZE: nat := 9

  datatype ControlCommand = ControlCommand(op: ControlOp, serviceId: nat)

  /** What one `read` of the FIFO yields. */
  datatype Reading =
    | Received(command: ControlCommand)
    | InvalidOp(opcode: byte)
    | PartialFrame(size: nat)
    | Nothing

  // ---------------------------------------------------------------- the writers' side

  function Opcode(op: ControlOp): byte {
    match op
    case Stop => OP_STOP
    case Start => OP_START
    case RestartOp => OP_RESTART
  }

  /** `n` as `size` bytes, least significant first. */
  function ToLittleEndian(n: nat, size: nat): (bytes: seq<byte>)
    ensures |bytes| == size
  {
    if size == 0 then [] else [n % 256] + ToLittleEndian(n / 256, size - 1)
  }

  /** `send_control_op`. */
  function Encode(c: ControlCommand): (frame: seq<byte>)
    ensures |frame| == WIRE_COMMAND_SIZE
  {
    [Opcode(c.op)] + ToLittleEndian(c.serviceId, 8)
  }

  // ---------------------------------------------------------------- the supervisor's side

  function FromLittleEndian(bytes: seq<byte>): nat {
    if bytes == [] then 0 else bytes[0] + 256 * FromLittleEndian(bytes[1..])
  }

  /** The outcome of a `read` that returned `chunk`. */
  function Decode(chunk: seq<byte>): Reading {
    if chunk == [] then Nothing
    else if |chunk| != WIRE_COMMAND_SIZE then PartialFrame(|chunk|)
    else
      var id := FromLittleEndian(chunk[1..9]);
      if chunk[0] == OP_STOP then Received(ControlCommand(Stop, id))
      else if chunk[0] == OP_START then Received(ControlCommand(Start, id))
      else if chunk[0] == OP_RESTART then Received(ControlCommand(RestartOp, id))
      else InvalidOp(chunk[0])
  }

  function Power256(size: nat): nat {
    if size == 0 then 1 else 256 * Power256(size - 1)
  }

  lemma {:induction false} LittleEndianRoundTrip(n: nat, size: nat)
    requires n < Power256(size)
    ensures FromLittleEndian(ToLittleEndian(n, size)) == n
  {
    if size > 0 {
      LittleEndianRoundTrip(n / 256, size - 1);
      assert ToLittleEndian(n, size)[1..] == ToLittleEndian(n / 256, size - 1);
    }
  }

  lemma {:induction false} LittleEndianInverse(bytes: seq<byte>)
    ensures FromLittleEndian(bytes) < Power256(|bytes|)
    ensures ToLittleEndian(FromLittleEndian(bytes), |bytes|) == bytes
  {
    if bytes != [] {
      LittleEndianInverse(bytes[1..]);
      var n := FromLittleEndian(bytes[1..]);
      assert (bytes[0] + 256 * n) / 256 == n && (bytes[0] + 256 * n) % 256 == bytes[0];
      assert bytes == [bytes[0]] + bytes[1..];
    }
  }

  lemma EightBytes()
    ensures Power256(8) == U64_MAX + 1
  {
    assert Power256(4) == 0x1_0000_0000;
    assert Power256(8) == 256 * (256 * (256 * (256 * Power256(4))));
  }

  /** Every 64-bit id survives the wire; the first byte is the number clients know the operation by. */
  lemma DecodeEncode(c: ControlCommand)
    requires c.serviceId <= 0xFFFF_FFFF_FFFF_FFFF
    ensures Decode(Encode(c)) == Received(c)
    ensures |Encode(c)| == 9
    ensures Encode(c)[0] == match c.op case Stop => 0x41 case Start => 0x42 case RestartOp => 0x43
  {
    EightBytes();
    LittleEndianRoundTrip(c.serviceId, 8);
    assert Encode(c)[1..9] == ToLittleEndian(c.serviceId, 8);
  }

  /** A frame that is accepted is the encoding of what it was taken for. */
  lemma EncodeDecode(frame: seq<byte>)
    requires Decode(frame).Received?
    ensures Encode(Decode(frame).command) == frame
    ensures Decode(frame).command.serviceId <= U64_MAX
  {
    EightBytes();
    LittleEndianInverse(frame[1..9]);
    assert frame == [frame[0]] + frame[1..9];
  }

  function ByteAt(b: seq<byte>, i: nat): int
    requires i < |b|
  {
    b[i]
  }

  lemma EightBytesSum(b: seq<byte>)
    requires |b| == 8
    ensures FromLittleEndian(b) == Sum4(b, 0) + 0x1_0000_0000 * Sum4(b, 4)
  {
    FourBytesSum(b);
    FourBytesSum(b[4..]);
    assert b[4..][4..] == [];
    assert Sum4(b[4..], 0) == Sum4(b, 4);
  }

  function Sum4(b: seq<byte>, i: nat): int
    requires i + 4 <= |b|
  {
    ByteAt(b, i) + 0x100 * ByteAt(b, i + 1) + 0x1_0000 * ByteAt(b, i + 2) + 0x100_0000 * ByteAt(b, i + 3)
  }

  lemma FourBytesSum(b: seq<byte>)
    requires |b| >= 4
    ensures FromLittleEndian(b) == Sum4(b, 0) + 0x1_0000_0000 * FromLittleEndian(b[4..])
  {
    assert b[1..][1..] == b[2..] && b[2..][1..] == b[3..] && b[3..][1..] == b[4..];
    assert FromLittleEndian(b) == ByteAt(b, 0) + 0x100 * FromLittleEndian(b[1..]);
    assert FromLittleEndian(b[1..]) == ByteAt(b, 1) + 0x100 * FromLittleEndian(b[2..]);
    assert FromLittleEndian(b[2..]) == ByteAt(b, 2) + 0x100 * FromLittleEndian(b[3..]);
    assert FromLittleEndian(b[3..]) == ByteAt(b, 3) + 0x100 * FromLittleEndian(b[4..]);
  }

  /** What a `read` of the FIFO is taken for, byte by byte. */
  ghost predicate ReadingSpelled(b: seq<byte>, r: Reading) {
    if |b| == 0 then r == Nothing
    else if |b| != 9 then r == PartialFrame(|b|)
    else if b[0] != 0x41 && b[0] != 0x42 && b[0] != 0x43 then r == InvalidOp(b[0])
    else
      && r.Received?
      && (r.command.op == Stop <==> b[0] == 0x41)
      && (r.command.op == Start <==> b[0] == 0x42)
      && (r.command.op == RestartOp <==> b[0] == 0x43)
      && r.command.serviceId ==
         ByteAt(b, 1) + 0x100 * ByteAt(b, 2) + 0x1_0000 * ByteAt(b, 3) + 0x100_0000 * ByteAt(b, 4)
         + 0x1_0000_0000 * ByteAt(b, 5) + 0x100_0000_0000 * ByteAt(b, 6)
         + 0x1_0000_0000_0000 * ByteAt(b, 7) + 0x100_0000_0000_0000 * ByteAt(b, 8)
  }

  /** The operation is the first byte, the id the other eight, least significant first; all else is refused. */
  lemma DecodeSpelled(b: seq<byte>)
    ensures ReadingSpelled(b, Decode(b))
  {
    if |b| == 9 {
      EightBytesSum(b[1..9]);
      assert Sum4(b[1..9], 0) == Sum4(b, 1) && Sum4(b[1..9], 4) == Sum4(b, 5);
    }
  }

  // ---------------------------------------------------------------- the stream

  predicate IsFrame(f: seq<byte>) {
    |f| == WIRE_COMMAND_SIZE
  }

  function Concat(frames: seq<seq<byte>>): seq<byte> {
    if frames == [] then [] else frames[0] + Concat(frames[1..])
  }

  lemma {:induction false} ConcatOneMore(frames: seq<seq<byte>>, f: seq<byte>)
    ensures Concat(frames + [f]) == Concat(frames) + f
  {
    if frames == [] {
      assert [f][1..] == [];
    } else {
      ConcatOneMore(frames[1..], f);
      assert (frames + [f])[1..] == frames[1..] + [f];
    }
  }

  /** What reading a FIFO that holds `stream` yields, read after read, until it is empty. */
  function Readings(stream: seq<byte>): seq<Reading>
    decreases |stream|
  {
    if stream == [] then []
    else
      var frame := FirstFrame(stream);
      [Decode(frame)] + Readings(stream[|frame|..])
  }

  /**
   Whole frames, valid or not, are read one for one and in order; a shorter rest is reported once,
   after them, with its size.
   */
  lemma {:induction false} FramesStayAligned(frames: seq<seq<byte>>, rest: seq<byte>)
    requires (forall f | f in frames :: IsFrame(f)) && |rest| < WIRE_COMMAND_SIZE
    ensures Readings(Concat(frames) + rest) ==
            seq(|frames|, i requires 0 <= i < |frames| => Decode(frames[i])) +
            if rest == [] then [] else [PartialFrame(|rest|)]
  {
    if frames == [] {
      assert Concat(frames) + rest == rest;
      if rest != [] {
        assert rest[..|rest|] == rest && Readings(rest[|rest|..]) == [];
      }
    } else {
      var stream := Concat(frames) + rest;
      assert IsFrame(frames[0]);
      FramesStayAligned(frames[1..], rest);
      assert FirstFrame(stream) == frames[0];
      assert stream[9..] == Concat(frames[1..]) + rest;
      assert seq(|frames|, i requires 0 <= i < |frames| => Decode(frames[i])) ==
             [Decode(frames[0])] + seq(|frames| - 1, i requires 0 <= i < |frames| - 1 => Decode(frames[1..][i]));
    }
  }

  /**
   The FIFO between writers and the supervisor. Writers put whole frames into it in one piece, at any
   time; the ghost fields say which frames were sent and how many of them have been read.
   */
  class ControlFifo {
    var bytes: seq<byte>
    ghost var sent: seq<seq<byte>>
    ghost var taken: nat

    constructor ()
      ensures Valid() && sent == [] && taken == 0
    {
      bytes := [];
      sent, taken := [], 0;
    }

    ghost predicate Valid()
      reads this
    {
      taken <= |sent| && (forall f | f in sent :: IsFrame(f)) && bytes == Concat(sent[taken..])
    }

    method Send(frame: seq<byte>)
      requires Valid() && IsFrame(frame)
      modifies this
      ensures Valid() && sent == old(sent) + [frame] && taken == old(taken)
    {
      ConcatOneMore(sent[taken..], frame);
      assert (sent + [frame])[taken..] == sent[taken..] + [frame];
      bytes := bytes + frame;
      sent := sent + [frame];
    }

    /** A `read` of at most `n` bytes. */
    method Read(n: nat) returns (chunk: seq<byte>)
      modifies `bytes
      ensures chunk == old(bytes)[..if |old(bytes)| < n then |old(bytes)| else n]
      ensures bytes == old(bytes)[|chunk|..]
    {
      chunk := bytes[..if |bytes| < n then |bytes| else n];
      bytes := bytes[|chunk|..];
    }

    /** `read_control_command`. Whole frames are read in the order they were sent, none split or lost. */
    method ReadControlCommand() returns (r: Reading)
      modifies this
      ensures r == Decode(FirstFrame(old(bytes))) && bytes == old(bytes)[|FirstFrame(old(bytes))|..]
      ensures old(Valid()) ==> Valid() && sent == old(sent)
      ensures old(Valid()) && old(taken) == |sent| ==> r == Nothing && taken == old(taken)
      ensures old(Valid()) && old(taken) < |sent| ==> r == Decode(sent[old(taken)]) && taken == old(taken) + 1
    {
      if Valid() && taken < |sent| {
        FirstIsFirst(sent[taken..]);
        assert sent[taken..][1..] == sent[taken + 1..];
        taken := taken + 1;
      }
      var chunk := Read(WIRE_COMMAND_SIZE);
      if |chunk| == WIRE_COMMAND_SIZE {
        var id := FromLittleEndian(chunk[1..9]);
        if chunk[0] == OP_STOP {
          r := Received(ControlCommand(Stop, id));
        } else if chunk[0] == OP_START {
          r := Received(ControlCommand(Start, id));
        } else if chunk[0] == OP_RESTART {
          r := Received(ControlCommand(RestartOp, id));
        } else {
          r := InvalidOp(chunk[0]);
        }
      } else if |chunk| == 0 {
        r := Nothing;
      } else {
        r := PartialFrame(|chunk|);
      }
    }
  }

  /** What one read takes from a FIFO that holds `stream`. */
  function FirstFrame(stream: seq<byte>): seq<byte> {
    stream[..if |stream| < WIRE_COMMAND_SIZE then |stream| else WIRE_COMMAND_SIZE]
  }

  lemma FirstIsFirst(frames: seq<seq<byte>>)
    requires frames != [] && forall f | f in frames :: IsFrame(f)
    ensures FirstFrame(Concat(frames)) == frames[0]
    ensures Concat(frames)[|frames[0]|..] == Concat(frames[1..])
  {
    assert IsFrame(frames[0]);
  }
}
