/** Encoding and decoding undo each other. */
module CodecProofs {
  import opened Words
  import opened Wire
  import opened Codec

  // ----- fields -----

  lemma ReadU16(v: uint16, rest: bytes)
    ensures TakeU16(Le(v, 2) + rest) == Ok((v, rest))
  {
    Widths();
    LeInverse(v, 2);
    assert (Le(v, 2) + rest)[..2] == Le(v, 2) && (Le(v, 2) + rest)[2..] == rest;
  }

  lemma ReadI16(v: int16, rest: bytes)
    ensures TakeI16(Le(Wrap16(v), 2) + rest) == Ok((v, rest))
  {
    ReadU16(Wrap16(v), rest);
  }

  lemma ReadU32(v: uint32, rest: bytes)
    ensures TakeU32(Le(v, 4) + rest) == Ok((v, rest))
  {
    Widths();
    LeInverse(v, 4);
    assert (Le(v, 4) + rest)[..4] == Le(v, 4) && (Le(v, 4) + rest)[4..] == rest;
  }

  lemma ReadU64(v: uint64, rest: bytes)
    ensures TakeU64(Le(v, 8) + rest) == Ok((v, rest))
  {
    Widths();
    LeInverse(v, 8);
    assert (Le(v, 8) + rest)[..8] == Le(v, 8) && (Le(v, 8) + rest)[8..] == rest;
  }

  lemma ReadU8(v: uint8, rest: bytes)
    ensures TakeU8([v] + rest) == Ok((v, rest))
  {
  }

  lemma ReadBytes(b: bytes, rest: bytes)
    ensures TakeBytes(b + rest, |b|) == Ok((b, rest))
  {
    assert (b + rest)[..|b|] == b && (b + rest)[|b|..] == rest;
  }

  lemma ReadBlob(b: bytes, rest: bytes)
    requires |b| <= 0xFFFF
    ensures TakeBlob(Blob(b) + rest) == Ok((b, rest))
  {
    Assoc(Le(|b|, 2), b, rest);
    ReadU16(|b|, b + rest);
    ReadBytes(b, rest);
  }

  lemma WasU16(p: bytes)
    requires TakeU16(p).Ok?
    ensures p == Le(TakeU16(p).value.0, 2) + TakeU16(p).value.1
  {
    FromLeInverse(p[..2]);
    assert p == p[..2] + p[2..];
  }

  lemma WasI16(p: bytes)
    requires TakeI16(p).Ok?
    ensures p == Le(Wrap16(TakeI16(p).value.0), 2) + TakeI16(p).value.1
  {
    WasU16(p);
  }

  lemma WasU32(p: bytes)
    requires TakeU32(p).Ok?
    ensures p == Le(TakeU32(p).value.0, 4) + TakeU32(p).value.1
  {
    FromLeInverse(p[..4]);
    assert p == p[..4] + p[4..];
  }

  lemma WasU64(p: bytes)
    requires TakeU64(p).Ok?
    ensures p == Le(TakeU64(p).value.0, 8) + TakeU64(p).value.1
  {
    FromLeInverse(p[..8]);
    assert p == p[..8] + p[8..];
  }

  lemma WasU8(p: bytes)
    requires TakeU8(p).Ok?
    ensures p == [TakeU8(p).value.0] + TakeU8(p).value.1
  {
  }

  lemma WasBlob(p: bytes)
    requires TakeBlob(p).Ok?
    ensures var (b, rest) := TakeBlob(p).value;
      |b| <= 0xFFFF && p == Blob(b) + rest
  {
    WasU16(p);
    var p1 := TakeU16(p).value.1;
    var n := TakeU16(p).value.0;
    assert p1 == p1[..n] + p1[n..];
    Assoc(Le(n, 2), p1[..n], p1[n..]);
  }

  // ----- payloads -----

  lemma OwnText(m: Message, rest: bytes)
    requires Fits(m) && (m.Hello? || m.ClipboardText?)
    ensures DecodePayload(TypeByte(m), Payload(m) + rest) == Ok(m)
  {
    if m.Hello? {
      Assoc(Le(m.protoVersion, 2), Blob(m.peerName), rest);
      ReadU16(m.protoVersion, Blob(m.peerName) + rest);
      ReadBlob(m.peerName, rest);
    } else {
      Assoc([m.chunkFlags], Blob(m.text), rest);
      ReadU8(m.chunkFlags, Blob(m.text) + rest);
      ReadBlob(m.text, rest);
    }
  }

  lemma OwnInput(m: Message, rest: bytes)
    requires m.MouseMoveRel? || m.MouseButton? || m.MouseWheel? || m.KeyEvent?
    ensures DecodePayload(TypeByte(m), Payload(m) + rest) == Ok(m)
  {
    if m.MouseButton? {
      assert Payload(m) + rest == [m.button] + ([m.state] + rest);
    } else if m.KeyEvent? {
      assert Payload(m) + rest == Le(m.hid, 2) + ([m.state] + ([m.modifiers] + rest));
      ReadU16(m.hid, [m.state] + ([m.modifiers] + rest));
      ReadU8(m.state, [m.modifiers] + rest);
      ReadU8(m.modifiers, rest);
    } else {
      assert Payload(m) + rest == Le(Wrap16(m.dx), 2) + (Le(Wrap16(m.dy), 2) + rest);
      ReadI16(m.dx, Le(Wrap16(m.dy), 2) + rest);
      ReadI16(m.dy, rest);
    }
  }

  lemma OwnAck(m: Message, rest: bytes)
    requires m.HelloAck?
    ensures DecodePayload(TypeByte(m), Payload(m) + rest) == Ok(m)
  {
    var flag: uint8 := if m.accepted then 1 else 0;
    var size := Le(m.screenW, 2) + (Le(m.screenH, 2) + rest);
    assert Payload(m) + rest == [flag] + size;
    ReadU8(flag, size);
    ReadU16(m.screenW, Le(m.screenH, 2) + rest);
    ReadU16(m.screenH, rest);
  }

  lemma OwnSmall(m: Message, rest: bytes)
    requires m.TakeControl? || m.ReleaseControl? || m.Bye? || m.PairAccepted? || m.PairRejected?
    ensures DecodePayload(TypeByte(m), Payload(m) + rest) == Ok(m)
  {
    if m.TakeControl? {
      ReadU16(m.entryY, rest);
    } else if m.ReleaseControl? {
      ReadU16(m.exitY, rest);
    } else if m.Bye? || m.PairRejected? {
      ReadU8(m.reason, rest);
    }
  }

  lemma OwnWide(m: Message, rest: bytes)
    requires m.Heartbeat? || m.EchoPing? || m.EchoPong?
    ensures DecodePayload(TypeByte(m), Payload(m) + rest) == Ok(m)
  {
    if m.Heartbeat? {
      ReadU32(m.seqNo, rest);
    } else {
      ReadU64(m.tsNs, rest);
    }
  }

  lemma OwnPairing(m: Message, rest: bytes)
    requires Fits(m) && (m.PairSpakeA? || m.PairSpakeB? || m.PairCertExchange?)
    ensures DecodePayload(TypeByte(m), Payload(m) + rest) == Ok(m)
  {
    if m.PairCertExchange? {
      Assoc(Blob(m.certDer), m.hmac, rest);
      ReadBlob(m.certDer, m.hmac + rest);
      ReadBytes(m.hmac, rest);
    } else {
      ReadBlob(m.element, rest);
    }
  }

  /** Decoding what was encoded, whatever follows it. */
  lemma DecodesOwnPayload(m: Message, rest: bytes)
    requires Fits(m)
    ensures DecodePayload(TypeByte(m), Payload(m) + rest) == Ok(m)
  {
    if m.Hello? || m.ClipboardText? {
      OwnText(m, rest);
    } else if m.MouseMoveRel? || m.MouseButton? || m.MouseWheel? || m.KeyEvent? {
      OwnInput(m, rest);
    } else if m.Heartbeat? || m.EchoPing? || m.EchoPong? {
      OwnWide(m, rest);
    } else if m.PairSpakeA? || m.PairSpakeB? || m.PairCertExchange? {
      OwnPairing(m, rest);
    } else if m.HelloAck? {
      OwnAck(m, rest);
    } else {
      OwnSmall(m, rest);
    }
  }

  lemma CanonicalSession(t: uint8, p: bytes) returns (rest: bytes)
    requires t == HELLO || t == HELLO_ACK || t == CLIPBOARD_TEXT
    requires DecodePayload(t, p).Ok?
    ensures var m := DecodePayload(t, p).value;
      TypeByte(m) == t && p == Payload(m) + rest
  {
    if t == HELLO {
      WasU16(p);
      var p1 := TakeU16(p).value.1;
      WasBlob(p1);
      rest := TakeBlob(p1).value.1;
      Assoc(Le(TakeU16(p).value.0, 2), Blob(TakeBlob(p1).value.0), rest);
    } else if t == HELLO_ACK {
      WasU8(p);
      var p1 := TakeU8(p).value.1;
      WasU16(p1);
      WasU16(TakeU16(p1).value.1);
      rest := TakeU16(TakeU16(p1).value.1).value.1;
    } else {
      WasU8(p);
      var p1 := TakeU8(p).value.1;
      WasBlob(p1);
      rest := TakeBlob(p1).value.1;
      Assoc([p[0]], Blob(TakeBlob(p1).value.0), rest);
    }
  }

  lemma CanonicalInput(t: uint8, p: bytes) returns (rest: bytes)
    requires t == MOUSE_MOVE_REL || t == MOUSE_BUTTON || t == MOUSE_WHEEL || t == KEY_EVENT
    requires DecodePayload(t, p).Ok?
    ensures var m := DecodePayload(t, p).value;
      TypeByte(m) == t && p == Payload(m) + rest
  {
    if t == MOUSE_BUTTON {
      WasU8(p);
      WasU8(p[1..]);
      rest := p[2..];
    } else if t == KEY_EVENT {
      WasU16(p);
      WasU8(p[2..]);
      WasU8(p[3..]);
      rest := p[4..];
    } else {
      WasI16(p);
      WasI16(p[2..]);
      rest := p[4..];
    }
  }

  lemma CanonicalScalar(t: uint8, p: bytes) returns (rest: bytes)
    requires t == TAKE_CONTROL || t == RELEASE_CONTROL || t == HEARTBEAT || t == BYE || t == ECHO_PING || t == ECHO_PONG
    requires DecodePayload(t, p).Ok?
    ensures var m := DecodePayload(t, p).value;
      TypeByte(m) == t && p == Payload(m) + rest
  {
    if t == TAKE_CONTROL || t == RELEASE_CONTROL {
      WasU16(p);
      rest := p[2..];
    } else if t == HEARTBEAT {
      WasU32(p);
      rest := p[4..];
    } else if t == BYE {
      WasU8(p);
      rest := p[1..];
    } else {
      WasU64(p);
      rest := p[8..];
    }
  }

  lemma CanonicalPairing(t: uint8, p: bytes) returns (rest: bytes)
    requires t == PAIR_SPAKE_A || t == PAIR_SPAKE_B || t == PAIR_CERT_EXCHANGE
      || t == PAIR_ACCEPTED || t == PAIR_REJECTED
    requires DecodePayload(t, p).Ok?
    ensures var m := DecodePayload(t, p).value;
      TypeByte(m) == t && p == Payload(m) + rest
  {
    if t == PAIR_SPAKE_A || t == PAIR_SPAKE_B {
      WasBlob(p);
      rest := TakeBlob(p).value.1;
    } else if t == PAIR_CERT_EXCHANGE {
      WasBlob(p);
      var (cert, p1) := TakeBlob(p).value;
      rest := p1[32..];
      assert p1 == p1[..32] + rest;
      Assoc(Blob(cert), p1[..32], rest);
    } else if t == PAIR_ACCEPTED {
      rest := p;
    } else {
      WasU8(p);
      rest := p[1..];
    }
  }

  /** Whatever decodes begins with the canonical payload of what it decodes to. */
  lemma DecodedIsCanonical(t: uint8, p: bytes)
    requires DecodePayload(t, p).Ok?
    ensures var m := DecodePayload(t, p).value;
      TypeByte(m) == t && Payload(m) <= p
  {
    var rest;
    if t == HELLO || t == HELLO_ACK || t == CLIPBOARD_TEXT {
      rest := CanonicalSession(t, p);
    } else if t == MOUSE_MOVE_REL || t == MOUSE_BUTTON || t == MOUSE_WHEEL || t == KEY_EVENT {
      rest := CanonicalInput(t, p);
    } else if t == TAKE_CONTROL || t == RELEASE_CONTROL || t == HEARTBEAT || t == BYE
      || t == ECHO_PING || t == ECHO_PONG {
      rest := CanonicalScalar(t, p);
    } else {
      rest := CanonicalPairing(t, p);
    }
  }

  /** The accepted language, exactly: a payload decodes to `m` if and only if
      the type byte is that of `m` and the payload starts with the encoding of
      `m`. */
  lemma DecodeIff(t: uint8, p: bytes, m: Message)
    requires |p| <= MAX_PAYLOAD_LEN
    ensures DecodePayload(t, p) == Ok(m) <==> TypeByte(m) == t && Payload(m) <= p
  {
    if TypeByte(m) == t && Payload(m) <= p {
      DecodesOwnPayload(m, p[|Payload(m)|..]);
      assert p == Payload(m) + p[|Payload(m)|..];
    }
    if DecodePayload(t, p) == Ok(m) {
      DecodedIsCanonical(t, p);
    }
  }
}
