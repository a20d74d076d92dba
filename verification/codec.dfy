/** The frame format: little-endian fields, what a frame is, and what decoding
    a payload means. */
module Codec {
  import opened Words
  import opened Wire

  datatype WireError =
    | ShortBuffer
    | UnknownMsgType(b: uint8)
    | PayloadTooLong(len: uint16, max: uint16)
    | InvalidUtf8
    | InvalidPayload

  const HELLO: uint8 := 0x01
  const HELLO_ACK: uint8 := 0x02
  const MOUSE_MOVE_REL: uint8 := 0x10
  const MOUSE_BUTTON: uint8 := 0x11
  const MOUSE_WHEEL: uint8 := 0x12
  const KEY_EVENT: uint8 := 0x20
  const CLIPBOARD_TEXT: uint8 := 0x30
  const TAKE_CONTROL: uint8 := 0x40
  const RELEASE_CONTROL: uint8 := 0x41
  const PAIR_SPAKE_A: uint8 := 0x50
  const PAIR_SPAKE_B: uint8 := 0x51
  const PAIR_CERT_EXCHANGE: uint8 := 0x52
  const PAIR_ACCEPTED: uint8 := 0x53
  const PAIR_REJECTED: uint8 := 0x54
  const ECHO_PING: uint8 := 0x70
  const ECHO_PONG: uint8 := 0x71
  const HEARTBEAT: uint8 := 0xFE
  const BYE: uint8 := 0xFF

  // ----- little-endian integers -----

  function Pow256(n: nat): (r: nat)
    ensures r >= 1
  {
    if n == 0 then 1 else 256 * Pow256(n - 1)
  }

  /** The `n` low bytes of `v`, least significant first. */
  function Le(v: nat, n: nat): (r: bytes)
    ensures |r| == n
  {
    if n == 0 then [] else [v % 256] + Le(v / 256, n - 1)
  }

  function FromLe(b: bytes): (r: nat)
    ensures r < Pow256(|b|)
  {
    if b == [] then 0 else b[0] + 256 * FromLe(b[1..])
  }

  lemma {:induction false} LeInverse(v: nat, n: nat)
    requires v < Pow256(n)
    ensures FromLe(Le(v, n)) == v
  {
    if n > 0 {
      LeInverse(v / 256, n - 1);
      assert Le(v, n)[1..] == Le(v / 256, n - 1);
    }
  }

  lemma {:induction false} FromLeInverse(b: bytes)
    ensures Le(FromLe(b), |b|) == b
  {
    if b != [] {
      FromLeInverse(b[1..]);
      assert FromLe(b) % 256 == b[0] && FromLe(b) / 256 == FromLe(b[1..]);
      assert b == [b[0]] + b[1..];
    }
  }

  lemma Widths()
    ensures Pow256(1) == 0x100 && Pow256(2) == 0x1_0000 && Pow256(4) == 0x1_0000_0000
    ensures Pow256(8) == 0x1_0000_0000_0000_0000
  {
    assert Pow256(3) == 0x100_0000 && Pow256(5) == 0x100_0000_0000 && Pow256(6) == 0x1_0000_0000_0000
        && Pow256(7) == 0x100_0000_0000_0000;
  }

  /** Two's complement in 16 bits. */
  function Wrap16(v: int16): uint16 {
    if v < 0 then v + 0x1_0000 else v
  }

  function Unwrap16(v: uint16): int16 {
    if v >= 0x8000 then v - 0x1_0000 else v
  }

  // ----- frames -----

  function TypeByte(m: Message): uint8 {
    match m
    case Hello(_, _) => HELLO
    case HelloAck(_, _, _) => HELLO_ACK
    case MouseMoveRel(_, _) => MOUSE_MOVE_REL
    case MouseButton(_, _) => MOUSE_BUTTON
    case MouseWheel(_, _) => MOUSE_WHEEL
    case KeyEvent(_, _, _) => KEY_EVENT
    case ClipboardText(_, _) => CLIPBOARD_TEXT
    case TakeControl(_) => TAKE_CONTROL
    case ReleaseControl(_) => RELEASE_CONTROL
    case Heartbeat(_) => HEARTBEAT
    case Bye(_) => BYE
    case EchoPing(_) => ECHO_PING
    case EchoPong(_) => ECHO_PONG
    case PairSpakeA(_) => PAIR_SPAKE_A
    case PairSpakeB(_) => PAIR_SPAKE_B
    case PairCertExchange(_, _) => PAIR_CERT_EXCHANGE
    case PairAccepted => PAIR_ACCEPTED
    case PairRejected(_) => PAIR_REJECTED
  }

  /** A length in two bytes, then the bytes. */
  function Blob(b: bytes): (r: bytes)
    ensures |r| == 2 + |b|
  {
    Le(|b|, 2) + b
  }

  function Payload(m: Message): bytes {
    match m
    case Hello(version, name) => Le(version, 2) + Blob(name)
    case HelloAck(accepted, w, h) => [if accepted then 1 else 0] + (Le(w, 2) + Le(h, 2))
    case MouseMoveRel(dx, dy) => Le(Wrap16(dx), 2) + Le(Wrap16(dy), 2)
    case MouseButton(button, state) => [button] + [state]
    case MouseWheel(dx, dy) => Le(Wrap16(dx), 2) + Le(Wrap16(dy), 2)
    case KeyEvent(hid, state, modifiers) => Le(hid, 2) + ([state] + [modifiers])
    case ClipboardText(flags, text) => [flags] + Blob(text)
    case TakeControl(y) => Le(y, 2)
    case ReleaseControl(y) => Le(y, 2)
    case Heartbeat(n) => Le(n, 4)
    case Bye(reason) => [reason]
    case EchoPing(ts) => Le(ts, 8)
    case EchoPong(ts) => Le(ts, 8)
    case PairSpakeA(element) => Blob(element)
    case PairSpakeB(element) => Blob(element)
    case PairCertExchange(cert, hmac) => Blob(cert) + hmac
    case PairAccepted => []
    case PairRejected(reason) => [reason]
  }

  predicate Fits(m: Message) {
    |Payload(m)| <= MAX_PAYLOAD_LEN
  }

  /** Type byte, payload length, payload. */
  function Frame(m: Message): bytes {
    [TypeByte(m)] + (Le(|Payload(m)|, 2) + Payload(m))
  }

  // ----- reading -----

  type Read<T> = Result<(T, bytes), WireError>

  function TakeBytes(p: bytes, n: nat): Read<bytes> {
    if n <= |p| then Ok((p[..n], p[n..])) else Err(ShortBuffer)
  }

  function TakeU8(p: bytes): Read<uint8> {
    if p != [] then Ok((p[0], p[1..])) else Err(ShortBuffer)
  }

  function U16(b: bytes): uint16
    requires |b| == 2
  {
    Widths();
    FromLe(b)
  }

  function U32(b: bytes): uint32
    requires |b| == 4
  {
    Widths();
    FromLe(b)
  }

  function U64(b: bytes): uint64
    requires |b| == 8
  {
    Widths();
    FromLe(b)
  }

  function TakeU16(p: bytes): Read<uint16> {
    if 2 <= |p| then Ok((U16(p[..2]), p[2..])) else Err(ShortBuffer)
  }

  function TakeI16(p: bytes): Read<int16> {
    if 2 <= |p| then Ok((Unwrap16(U16(p[..2])), p[2..])) else Err(ShortBuffer)
  }

  function TakeU32(p: bytes): Read<uint32> {
    if 4 <= |p| then Ok((U32(p[..4]), p[4..])) else Err(ShortBuffer)
  }

  function TakeU64(p: bytes): Read<uint64> {
    if 8 <= |p| then Ok((U64(p[..8]), p[8..])) else Err(ShortBuffer)
  }

  /** A u16 length and that many bytes. */
  function TakeBlob(p: bytes): Read<bytes> {
    var (n, p1) :- TakeU16(p);
    TakeBytes(p1, n)
  }

  /** What the payload of a frame of type `t` decodes to. Bytes behind the last
      field are ignored. */
  function DecodePayload(t: uint8, p: bytes): Result<Message, WireError> {
    if t == HELLO then
      var (version, p1) :- TakeU16(p);
      var (name, _) :- TakeBlob(p1);
      if ValidUtf8(name) then Ok(Hello(version, name)) else Err(InvalidUtf8)
    else if t == HELLO_ACK then
      var (accepted, p1) :- TakeU8(p);
      if accepted > 1 then Err(InvalidPayload)
      else
        var (w, p2) :- TakeU16(p1);
        var (h, _) :- TakeU16(p2);
        Ok(HelloAck(accepted == 1, w, h))
    else if t == MOUSE_MOVE_REL then
      var (dx, p1) :- TakeI16(p);
      var (dy, _) :- TakeI16(p1);
      Ok(MouseMoveRel(dx, dy))
    else if t == MOUSE_BUTTON then
      var (button, p1) :- TakeU8(p);
      var (state, _) :- TakeU8(p1);
      Ok(MouseButton(button, state))
    else if t == MOUSE_WHEEL then
      var (dx, p1) :- TakeI16(p);
      var (dy, _) :- TakeI16(p1);
      Ok(MouseWheel(dx, dy))
    else if t == KEY_EVENT then
      var (hid, p1) :- TakeU16(p);
      var (state, p2) :- TakeU8(p1);
      var (modifiers, _) :- TakeU8(p2);
      Ok(KeyEvent(hid, state, modifiers))
    else if t == CLIPBOARD_TEXT then
      var (flags, p1) :- TakeU8(p);
      var (text, _) :- TakeBlob(p1);
      Ok(ClipboardText(flags, text))
    else if t == TAKE_CONTROL then
      var (y, _) :- TakeU16(p);
      Ok(TakeControl(y))
    else if t == RELEASE_CONTROL then
      var (y, _) :- TakeU16(p);
      Ok(ReleaseControl(y))
    else if t == HEARTBEAT then
      var (n, _) :- TakeU32(p);
      Ok(Heartbeat(n))
    else if t == BYE then
      var (reason, _) :- TakeU8(p);
      Ok(Bye(reason))
    else if t == ECHO_PING then
      var (ts, _) :- TakeU64(p);
      Ok(EchoPing(ts))
    else if t == ECHO_PONG then
      var (ts, _) :- TakeU64(p);
      Ok(EchoPong(ts))
    else if t == PAIR_SPAKE_A then
      var (element, _) :- TakeBlob(p);
      Ok(PairSpakeA(element))
    else if t == PAIR_SPAKE_B then
      var (element, _) :- TakeBlob(p);
      Ok(PairSpakeB(element))
    else if t == PAIR_CERT_EXCHANGE then
      var (cert, p1) :- TakeBlob(p);
      var (hmac, _) :- TakeBytes(p1, 32);
      Ok(PairCertExchange(cert, hmac))
    else if t == PAIR_ACCEPTED then
      Ok(PairAccepted)
    else if t == PAIR_REJECTED then
      var (reason, _) :- TakeU8(p);
      Ok(PairRejected(reason))
    else
      Err(UnknownMsgType(t))
  }

  /** One frame off the front of a buffer: `None` asks for more bytes. */
  function DecodeFrame(b: bytes): (r: Result<Option<(Message, bytes)>, WireError>)
    ensures r.Ok? && r.value.Some? ==> |r.value.value.1| < |b|
  {
    if |b| < FRAME_HEADER_LEN then Ok(None)
    else
      var len := U16(b[1..3]);
      if |b| < FRAME_HEADER_LEN + len then Ok(None)
      else
        var m :- DecodePayload(b[0], b[FRAME_HEADER_LEN..FRAME_HEADER_LEN + len]);
        Ok(Some((m, b[FRAME_HEADER_LEN + len..])))
  }
}
