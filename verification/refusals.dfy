/** What the codec refuses, in numbers: which payloads are no message and why, and
    which messages are too long for a frame. */
module Refusals {
  import opened Words
  import opened Wire
  import opened Codec
  import opened FrameCodec

  /** The length field at offset `i`, low byte first. */
  function LengthAt(p: bytes, i: nat): nat
    requires i + 2 <= |p|
  {
    p[i] as int + 256 * p[i + 1] as int
  }

  /** A payload of type `t` ends before its last field does. */
  predicate IsShort(t: uint8, p: bytes) {
    if t in {0x10, 0x12, 0x20, 0xFE} then |p| < 4
    else if t in {0x11, 0x40, 0x41} then |p| < 2
    else if t in {0xFF, 0x54} then |p| < 1
    else if t in {0x70, 0x71} then |p| < 8
    else if t == 0x01 then |p| < 4 || |p| < 4 + LengthAt(p, 2)
    else if t == 0x02 then |p| < 1 || (p[0] <= 1 && |p| < 5)
    else if t == 0x30 then |p| < 3 || |p| < 3 + LengthAt(p, 1)
    else if t in {0x50, 0x51} then |p| < 2 || |p| < 2 + LengthAt(p, 0)
    else if t == 0x52 then |p| < 2 || |p| < 34 + LengthAt(p, 0)
    else false
  }

  predicate IsKnown(t: uint8) {
    t in {0x01, 0x02, 0x10, 0x11, 0x12, 0x20, 0x30, 0x40, 0x41, 0x50, 0x51, 0x52, 0x53, 0x54, 0x70, 0x71, 0xFE, 0xFF}
  }

  /** Why a payload is refused. */
  predicate RefusedFor(t: uint8, p: bytes, e: WireError) {
    match e
    case UnknownMsgType(b) => !IsKnown(t) && b == t
    case ShortBuffer => IsShort(t, p)
    case InvalidPayload => t == 0x02 && p != [] && p[0] > 1
    case InvalidUtf8 => t == 0x01 && !IsShort(t, p) && !ValidUtf8(p[4..4 + LengthAt(p, 2)])
    case PayloadTooLong(_, _) => false
  }

  lemma U16InNumbers(b: bytes)
    requires |b| == 2
    ensures U16(b) == b[0] as int + 256 * b[1] as int
  {
    assert b[1..][1..] == [];
    assert FromLe(b[1..]) == b[1] as int + 256 * FromLe([]);
  }

  /** Every refusal of a payload, and its reason, for all 256 type bytes. */
  lemma RefusedIff(t: uint8, p: bytes, e: WireError)
    ensures DecodePayload(t, p) == Err(e) <==> RefusedFor(t, p, e)
  {
    if t == 0x01 {
      HelloRefused(p, e);
    } else if t in {0x30, 0x50, 0x51, 0x52} {
      BlobRefused(t, p, e);
    }
  }

  lemma HelloRefused(p: bytes, e: WireError)
    ensures DecodePayload(0x01, p) == Err(e) <==> RefusedFor(0x01, p, e)
  {
    if |p| >= 4 {
      U16InNumbers(p[2..4]);
      assert p[2..][..2] == p[2..4] && p[2..][2..] == p[4..];
      var n := LengthAt(p, 2);
      if n <= |p[4..]| {
        assert p[4..][..n] == p[4..4 + n];
      }
    }
  }

  lemma BlobRefused(t: uint8, p: bytes, e: WireError)
    requires t in {0x30, 0x50, 0x51, 0x52}
    ensures DecodePayload(t, p) == Err(e) <==> RefusedFor(t, p, e)
  {
    var i := if t == 0x30 then 1 else 0;
    if |p| >= i + 2 {
      U16InNumbers(p[i..i + 2]);
      assert p[i..][..2] == p[i..i + 2] && p[i..][2..] == p[i + 2..];
    }
  }

  /** A buffer is refused exactly when its first frame is there in full and its
      payload is refused, for the same reason; it asks for more exactly when that
      frame is not there in full. */
  lemma FrameRefusedIff(b: bytes, e: WireError)
    ensures DecodeFrame(b) == Err(e) <==>
      |b| >= 3 && |b| >= 3 + LengthAt(b, 1) && RefusedFor(b[0], b[3..3 + LengthAt(b, 1)], e)
    ensures DecodeFrame(b) == Ok(None) <==> |b| < 3 || |b| < 3 + LengthAt(b, 1)
  {
    if |b| >= 3 {
      U16InNumbers(b[1..3]);
      var n := LengthAt(b, 1);
      if |b| >= 3 + n {
        RefusedIff(b[0], b[3..3 + n], e);
      }
    }
  }

  /** Which messages fit a frame, and the error for those that do not: the length
      of the payload, cut to 16 bits, and the limit. */
  lemma TooLongIff(m: Message)
    ensures Fits(m) <==> match m
      case Hello(_, name) => |name| <= 65531
      case ClipboardText(_, text) => |text| <= 65532
      case PairSpakeA(element) => |element| <= 65533
      case PairSpakeB(element) => |element| <= 65533
      case PairCertExchange(cert, _) => |cert| <= 65501
      case _ => true
    ensures !Fits(m) ==> TooLong(|Payload(m)|) == PayloadTooLong(65535, 65535)
  {
  }
}
