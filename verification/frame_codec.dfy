/** The encoder appends to a buffer, the decoder consumes one, in place. */
module FrameCodec {
  import opened Words
  import opened Wire
  import opened Codec

  /** A byte buffer that grows at the back and is consumed from the front. */
  class Buffer {
    var data: bytes

    constructor ()
      ensures data == []
    {
      data := [];
    }

    method PutU8(v: uint8)
      modifies this
      ensures data == old(data) + [v]
    {
      data := data + [v];
    }

    method PutU16Le(v: uint16)
      modifies this
      ensures data == old(data) + Le(v, 2)
    {
      data := data + Le(v, 2);
    }

    method PutI16Le(v: int16)
      modifies this
      ensures data == old(data) + Le(Wrap16(v), 2)
    {
      data := data + Le(Wrap16(v), 2);
    }

    method PutU32Le(v: uint32)
      modifies this
      ensures data == old(data) + Le(v, 4)
    {
      data := data + Le(v, 4);
    }

    method PutU64Le(v: uint64)
      modifies this
      ensures data == old(data) + Le(v, 8)
    {
      data := data + Le(v, 8);
    }

    method PutSlice(b: bytes)
      modifies this
      ensures data == old(data) + b
    {
      data := data + b;
    }

    method Advance(n: nat)
      requires n <= |data|
      modifies this
      ensures data == old(data)[n..]
    {
      data := data[n..];
    }

    method Clear()
      modifies this
      ensures data == []
    {
      data := [];
    }
  }

  // ----- encoding -----

  /** The refusal of a payload of `len` bytes; its length field saturates. */
  function TooLong(len: nat): WireError {
    PayloadTooLong(if len <= 0xFFFF then len else 0xFFFF, MAX_PAYLOAD_LEN)
  }

  method CheckPayloadLen(len: nat) returns (r: Result<uint16, WireError>)
    ensures r == if len <= MAX_PAYLOAD_LEN then Ok(len) else Err(TooLong(len))
  {
    if len > MAX_PAYLOAD_LEN {
      r := Err(TooLong(len));
    } else {
      r := Ok(len);
    }
  }

  /** What one call of the encoder does to a buffer. */
  ghost predicate Encoded(m: Message, before: bytes, r: Result<(), WireError>, after: bytes) {
    if Fits(m) then r == Ok(()) && after == before + Frame(m)
    else r == Err(TooLong(|Payload(m)|)) && after == before
  }

  lemma Parts(d: bytes, t: uint8, n: uint16, a: bytes, b: bytes, c: bytes)
    ensures d + [t] + Le(n, 2) + a + b + c == d + ([t] + (Le(n, 2) + (a + (b + c))))
  {
  }

  lemma TwoParts(d: bytes, t: uint8, n: uint16, a: bytes, b: bytes)
    ensures d + [t] + Le(n, 2) + a + b == d + ([t] + (Le(n, 2) + (a + b)))
  {
  }

  lemma OnePart(d: bytes, t: uint8, n: uint16, a: bytes)
    ensures d + [t] + Le(n, 2) + a == d + ([t] + (Le(n, 2) + a))
  {
  }

  predicate IsText(m: Message) {
    m.Hello? || m.ClipboardText?
  }

  predicate IsBlob(m: Message) {
    m.PairSpakeA? || m.PairSpakeB? || m.PairCertExchange?
  }

  method EncodeText(m: Message, buf: Buffer) returns (r: Result<(), WireError>)
    requires IsText(m)
    modifies buf
    ensures Encoded(m, old(buf.data), r, buf.data)
  {
    ghost var d := buf.data;
    match m {
      case Hello(version, name) =>
        var len :- CheckPayloadLen(4 + |name|);
        buf.PutU8(HELLO);
        buf.PutU16Le(len);
        buf.PutU16Le(version);
        buf.PutU16Le(|name|);
        buf.PutSlice(name);
        Parts(d, HELLO, len, Le(version, 2), Le(|name|, 2), name);
      case ClipboardText(flags, text) =>
        var len :- CheckPayloadLen(3 + |text|);
        buf.PutU8(CLIPBOARD_TEXT);
        buf.PutU16Le(len);
        buf.PutU8(flags);
        buf.PutU16Le(|text|);
        buf.PutSlice(text);
        Parts(d, CLIPBOARD_TEXT, len, [flags], Le(|text|, 2), text);
    }
    return Ok(());
  }

  method EncodeBlob(m: Message, buf: Buffer) returns (r: Result<(), WireError>)
    requires IsBlob(m)
    modifies buf
    ensures Encoded(m, old(buf.data), r, buf.data)
  {
    ghost var d := buf.data;
    match m {
      case PairSpakeA(element) =>
        var len :- CheckPayloadLen(2 + |element|);
        buf.PutU8(PAIR_SPAKE_A);
        buf.PutU16Le(len);
        buf.PutU16Le(|element|);
        buf.PutSlice(element);
        TwoParts(d, PAIR_SPAKE_A, len, Le(|element|, 2), element);
      case PairSpakeB(element) =>
        var len :- CheckPayloadLen(2 + |element|);
        buf.PutU8(PAIR_SPAKE_B);
        buf.PutU16Le(len);
        buf.PutU16Le(|element|);
        buf.PutSlice(element);
        TwoParts(d, PAIR_SPAKE_B, len, Le(|element|, 2), element);
      case PairCertExchange(cert, hmac) =>
        var len :- CheckPayloadLen(2 + |cert| + 32);
        buf.PutU8(PAIR_CERT_EXCHANGE);
        buf.PutU16Le(len);
        buf.PutU16Le(|cert|);
        buf.PutSlice(cert);
        buf.PutSlice(hmac);
        Parts(d, PAIR_CERT_EXCHANGE, len, Le(|cert|, 2), cert, hmac);
        Assoc(Le(|cert|, 2), cert, hmac);
    }
    return Ok(());
  }

  method EncodeInput(m: Message, buf: Buffer)
    requires IsInput(m)
    modifies buf
    ensures buf.data == old(buf.data) + Frame(m)
  {
    ghost var d := buf.data;
    match m {
      case MouseMoveRel(dx, dy) =>
        buf.PutU8(MOUSE_MOVE_REL);
        buf.PutU16Le(4);
        buf.PutI16Le(dx);
        buf.PutI16Le(dy);
        TwoParts(d, MOUSE_MOVE_REL, 4, Le(Wrap16(dx), 2), Le(Wrap16(dy), 2));
      case MouseButton(button, state) =>
        buf.PutU8(MOUSE_BUTTON);
        buf.PutU16Le(2);
        buf.PutU8(button);
        buf.PutU8(state);
        TwoParts(d, MOUSE_BUTTON, 2, [button], [state]);
      case MouseWheel(dx, dy) =>
        buf.PutU8(MOUSE_WHEEL);
        buf.PutU16Le(4);
        buf.PutI16Le(dx);
        buf.PutI16Le(dy);
        TwoParts(d, MOUSE_WHEEL, 4, Le(Wrap16(dx), 2), Le(Wrap16(dy), 2));
      case KeyEvent(hid, state, modifiers) =>
        buf.PutU8(KEY_EVENT);
        buf.PutU16Le(4);
        buf.PutU16Le(hid);
        buf.PutU8(state);
        buf.PutU8(modifiers);
        Parts(d, KEY_EVENT, 4, Le(hid, 2), [state], [modifiers]);
    }
  }

  method EncodeControl(m: Message, buf: Buffer)
    requires !IsText(m) && !IsBlob(m) && !IsInput(m)
    modifies buf
    ensures buf.data == old(buf.data) + Frame(m)
  {
    ghost var d := buf.data;
    match m {
      case HelloAck(accepted, w, h) =>
        buf.PutU8(HELLO_ACK);
        buf.PutU16Le(5);
        buf.PutU8(if accepted then 1 else 0);
        buf.PutU16Le(w);
        buf.PutU16Le(h);
        Parts(d, HELLO_ACK, 5, [if accepted then 1 else 0], Le(w, 2), Le(h, 2));
      case TakeControl(y) =>
        buf.PutU8(TAKE_CONTROL);
        buf.PutU16Le(2);
        buf.PutU16Le(y);
        OnePart(d, TAKE_CONTROL, 2, Le(y, 2));
      case ReleaseControl(y) =>
        buf.PutU8(RELEASE_CONTROL);
        buf.PutU16Le(2);
        buf.PutU16Le(y);
        OnePart(d, RELEASE_CONTROL, 2, Le(y, 2));
      case Heartbeat(n) =>
        buf.PutU8(HEARTBEAT);
        buf.PutU16Le(4);
        buf.PutU32Le(n);
        OnePart(d, HEARTBEAT, 4, Le(n, 4));
      case Bye(reason) =>
        buf.PutU8(BYE);
        buf.PutU16Le(1);
        buf.PutU8(reason);
        OnePart(d, BYE, 1, [reason]);
      case EchoPing(ts) =>
        buf.PutU8(ECHO_PING);
        buf.PutU16Le(8);
        buf.PutU64Le(ts);
        OnePart(d, ECHO_PING, 8, Le(ts, 8));
      case EchoPong(ts) =>
        buf.PutU8(ECHO_PONG);
        buf.PutU16Le(8);
        buf.PutU64Le(ts);
        OnePart(d, ECHO_PONG, 8, Le(ts, 8));
      case PairAccepted =>
        buf.PutU8(PAIR_ACCEPTED);
        buf.PutU16Le(0);
        OnePart(d, PAIR_ACCEPTED, 0, []);
      case PairRejected(reason) =>
        buf.PutU8(PAIR_REJECTED);
        buf.PutU16Le(1);
        buf.PutU8(reason);
        OnePart(d, PAIR_REJECTED, 1, [reason]);
    }
  }

  /** Encoding appends one frame, or leaves the buffer alone, and that exactly
      when the payload does not fit its length field. */
  method EncodeFrame(m: Message, buf: Buffer) returns (r: Result<(), WireError>)
    modifies buf
    ensures Encoded(m, old(buf.data), r, buf.data)
  {
    if IsText(m) {
      r := EncodeText(m, buf);
    } else if IsBlob(m) {
      r := EncodeBlob(m, buf);
    } else if IsInput(m) {
      EncodeInput(m, buf);
      r := Ok(());
    } else {
      EncodeControl(m, buf);
      r := Ok(());
    }
  }

  // ----- decoding -----

  /** A read that succeeds moves past what it read; one that fails moves nothing. */
  ghost predicate Reads<T>(before: bytes, spec: Read<T>, r: Result<T, WireError>, after: bytes) {
    match spec
    case Ok((v, rest)) => r == Ok(v) && after == rest
    case Err(e) => r == Err(e) && after == before
  }

  /** Cursor over a payload. */
  class PayloadReader {
    const data: bytes
    var pos: nat

    ghost predicate Valid()
      reads this
    {
      pos <= |data|
    }

    ghost function Rest(): bytes
      reads this
      requires Valid()
    {
      data[pos..]
    }

    constructor (data: bytes)
      ensures Valid() && Rest() == data
    {
      this.data := data;
      pos := 0;
    }

    method ReadBytes(n: nat) returns (r: Result<bytes, WireError>)
      requires Valid()
      modifies this
      ensures Valid() && Reads(old(Rest()), TakeBytes(old(Rest()), n), r, Rest())
    {
      var end := pos + n;
      if end > |data| {
        return Err(ShortBuffer);
      }
      r := Ok(data[pos..end]);
      assert data[pos..end] == data[pos..][..n] && data[end..] == data[pos..][n..];
      pos := end;
    }

    method ReadU8() returns (r: Result<uint8, WireError>)
      requires Valid()
      modifies this
      ensures Valid() && Reads(old(Rest()), TakeU8(old(Rest())), r, Rest())
    {
      if pos >= |data| {
        return Err(ShortBuffer);
      }
      r := Ok(data[pos]);
      pos := pos + 1;
    }

    method ReadU16Le() returns (r: Result<uint16, WireError>)
      requires Valid()
      modifies this
      ensures Valid() && Reads(old(Rest()), TakeU16(old(Rest())), r, Rest())
    {
      var b :- ReadBytes(2);
      return Ok(U16(b));
    }

    method ReadI16Le() returns (r: Result<int16, WireError>)
      requires Valid()
      modifies this
      ensures Valid() && Reads(old(Rest()), TakeI16(old(Rest())), r, Rest())
    {
      var b :- ReadBytes(2);
      return Ok(Unwrap16(U16(b)));
    }

    method ReadU32Le() returns (r: Result<uint32, WireError>)
      requires Valid()
      modifies this
      ensures Valid() && Reads(old(Rest()), TakeU32(old(Rest())), r, Rest())
    {
      var b :- ReadBytes(4);
      return Ok(U32(b));
    }

    method ReadU64Le() returns (r: Result<uint64, WireError>)
      requires Valid()
      modifies this
      ensures Valid() && Reads(old(Rest()), TakeU64(old(Rest())), r, Rest())
    {
      var b :- ReadBytes(8);
      return Ok(U64(b));
    }
  }

  method DecodePayloadBytes(t: uint8, payload: bytes) returns (res: Result<Message, WireError>)
    ensures res == DecodePayload(t, payload)
  {
    var r := new PayloadReader(payload);
    if t == HELLO {
      var version :- r.ReadU16Le();
      var n :- r.ReadU16Le();
      var name :- r.ReadBytes(n);
      if !ValidUtf8(name) {
        return Err(InvalidUtf8);
      }
      return Ok(Hello(version, name));
    } else if t == HELLO_ACK {
      var accepted :- r.ReadU8();
      if accepted > 1 {
        return Err(InvalidPayload);
      }
      var w :- r.ReadU16Le();
      var h :- r.ReadU16Le();
      return Ok(HelloAck(accepted == 1, w, h));
    } else if t == MOUSE_MOVE_REL {
      var dx :- r.ReadI16Le();
      var dy :- r.ReadI16Le();
      return Ok(MouseMoveRel(dx, dy));
    } else if t == MOUSE_BUTTON {
      var button :- r.ReadU8();
      var state :- r.ReadU8();
      return Ok(MouseButton(button, state));
    } else if t == MOUSE_WHEEL {
      var dx :- r.ReadI16Le();
      var dy :- r.ReadI16Le();
      return Ok(MouseWheel(dx, dy));
    } else if t == KEY_EVENT {
      var hid :- r.ReadU16Le();
      var state :- r.ReadU8();
      var modifiers :- r.ReadU8();
      return Ok(KeyEvent(hid, state, modifiers));
    } else if t == CLIPBOARD_TEXT {
      var flags :- r.ReadU8();
      var n :- r.ReadU16Le();
      var text :- r.ReadBytes(n);
      return Ok(ClipboardText(flags, text));
    } else if t == TAKE_CONTROL {
      var y :- r.ReadU16Le();
      return Ok(TakeControl(y));
    } else if t == RELEASE_CONTROL {
      var y :- r.ReadU16Le();
      return Ok(ReleaseControl(y));
    } else if t == HEARTBEAT {
      var n :- r.ReadU32Le();
      return Ok(Heartbeat(n));
    } else if t == BYE {
      var reason :- r.ReadU8();
      return Ok(Bye(reason));
    } else if t == ECHO_PING {
      var ts :- r.ReadU64Le();
      return Ok(EchoPing(ts));
    } else if t == ECHO_PONG {
      var ts :- r.ReadU64Le();
      return Ok(EchoPong(ts));
    } else if t == PAIR_SPAKE_A {
      var n :- r.ReadU16Le();
      var element :- r.ReadBytes(n);
      return Ok(PairSpakeA(element));
    } else if t == PAIR_SPAKE_B {
      var n :- r.ReadU16Le();
      var element :- r.ReadBytes(n);
      return Ok(PairSpakeB(element));
    } else if t == PAIR_CERT_EXCHANGE {
      var n :- r.ReadU16Le();
      var cert :- r.ReadBytes(n);
      var hmac :- r.ReadBytes(32);
      return Ok(PairCertExchange(cert, hmac));
    } else if t == PAIR_ACCEPTED {
      return Ok(PairAccepted);
    } else if t == PAIR_REJECTED {
      var reason :- r.ReadU8();
      return Ok(PairRejected(reason));
    } else {
      return Err(UnknownMsgType(t));
    }
  }

  /** The buffer moves past a frame exactly when it decoded one. */
  method DecodeFrameFrom(buf: Buffer) returns (r: Result<Option<Message>, WireError>)
    modifies buf
    ensures match DecodeFrame(old(buf.data))
      case Ok(Some((m, rest))) => r == Ok(Some(m)) && buf.data == rest
      case Ok(None) => r == Ok(None) && buf.data == old(buf.data)
      case Err(e) => r == Err(e) && buf.data == old(buf.data)
  {
    if |buf.data| < FRAME_HEADER_LEN {
      return Ok(None);
    }
    var t := buf.data[0];
    var frameLen := FRAME_HEADER_LEN + U16(buf.data[1..3]);
    if |buf.data| < frameLen {
      return Ok(None);
    }
    var m :- DecodePayloadBytes(t, buf.data[FRAME_HEADER_LEN..frameLen]);
    buf.Advance(frameLen);
    return Ok(Some(m));
  }
}
