/** The bytes of every frame, written out, independently of the functions that
    build and read them: type, length, then each field low byte first. */
module WireLayout {
  import opened Words
  import opened Wire
  import opened Codec

  function Low(v: uint16): uint8 {
    v % 0x100
  }

  function High(v: uint16): uint8 {
    v / 0x100
  }

  /** The two bytes of a signed field: its value modulo 2^16. */
  function Modular(v: int16): uint16 {
    v % 0x1_0000
  }

  lemma TwoBytes(v: uint16)
    ensures Le(v, 2) == [Low(v), High(v)]
  {
    assert Le(v, 2) == [v % 256] + Le(v / 256, 1);
    assert Le(v / 256, 1) == [v / 256 % 256] + Le(v / 256 / 256, 0);
  }

  lemma DivisionsChain(v: nat)
    ensures v / 256 / 256 == v / 0x1_0000
    ensures v / 256 / 256 / 256 == v / 0x100_0000
    ensures v / 256 / 256 / 256 / 256 == v / 0x1_0000_0000
  {
  }

  lemma FourLow(v: nat, n: nat)
    ensures Le(v, n + 4) ==
      [v % 256, v / 256 % 256, v / 256 / 256 % 256, v / 256 / 256 / 256 % 256] + Le(v / 256 / 256 / 256 / 256, n)
  {
    var a, b, c := v / 256, v / 256 / 256, v / 256 / 256 / 256;
    assert Le(v, n + 4) == [v % 256] + Le(a, n + 3);
    assert Le(a, n + 3) == [a % 256] + Le(b, n + 2);
    assert Le(b, n + 2) == [b % 256] + Le(c, n + 1);
  }

  lemma FourBytes(v: uint32)
    ensures Le(v, 4) == [v % 0x100, v / 0x100 % 0x100, v / 0x1_0000 % 0x100, v / 0x100_0000]
  {
    FourLow(v, 0);
    DivisionsChain(v);
  }

  lemma EightBytes(v: uint64)
    ensures Le(v, 8) ==
      [v % 0x100, v / 0x100 % 0x100, v / 0x1_0000 % 0x100, v / 0x100_0000 % 0x100] + Le(v / 0x1_0000_0000, 4)
  {
    FourLow(v, 4);
    DivisionsChain(v);
  }

  lemma Header(m: Message, p: bytes)
    requires Payload(m) == p && |p| <= 0xFFFF
    ensures Frame(m) == [TypeByte(m), Low(|p|), High(|p|)] + p
  {
    TwoBytes(|p|);
  }

  lemma MouseFrames(dx: int16, dy: int16, button: uint8, state: uint8)
    ensures var x, y := Modular(dx), Modular(dy);
      && Frame(MouseMoveRel(dx, dy)) == [0x10, 4, 0, Low(x), High(x), Low(y), High(y)]
      && Frame(MouseWheel(dx, dy)) == [0x12, 4, 0, Low(x), High(x), Low(y), High(y)]
      && Frame(MouseButton(button, state)) == [0x11, 2, 0, button, state]
  {
    var x, y := Modular(dx), Modular(dy);
    TwoBytes(x);
    TwoBytes(y);
    assert Wrap16(dx) == x && Wrap16(dy) == y;
    Header(MouseMoveRel(dx, dy), [Low(x), High(x), Low(y), High(y)]);
    Header(MouseWheel(dx, dy), [Low(x), High(x), Low(y), High(y)]);
    Header(MouseButton(button, state), [button, state]);
  }

  lemma KeyFrame(hid: uint16, state: uint8, modifiers: uint8)
    ensures Frame(KeyEvent(hid, state, modifiers)) == [0x20, 4, 0, Low(hid), High(hid), state, modifiers]
  {
    TwoBytes(hid);
    Header(KeyEvent(hid, state, modifiers), [Low(hid), High(hid), state, modifiers]);
  }

  lemma ControlFrames(y: uint16, reason: uint8)
    ensures Frame(TakeControl(y)) == [0x40, 2, 0, Low(y), High(y)]
    ensures Frame(ReleaseControl(y)) == [0x41, 2, 0, Low(y), High(y)]
    ensures Frame(Bye(reason)) == [0xFF, 1, 0, reason]
  {
    TwoBytes(y);
    Header(TakeControl(y), [Low(y), High(y)]);
    Header(ReleaseControl(y), [Low(y), High(y)]);
    Header(Bye(reason), [reason]);
  }

  lemma HeartbeatFrame(n: uint32)
    ensures Frame(Heartbeat(n)) == [0xFE, 4, 0, n % 0x100, n / 0x100 % 0x100, n / 0x1_0000 % 0x100, n / 0x100_0000]
  {
    FourBytes(n);
    Header(Heartbeat(n), Le(n, 4));
  }

  lemma EchoFrames(ts: uint64)
    ensures var h := ts / 0x1_0000_0000;
      var p := [ts % 0x100, ts / 0x100 % 0x100, ts / 0x1_0000 % 0x100, ts / 0x100_0000 % 0x100,
                h % 0x100, h / 0x100 % 0x100, h / 0x1_0000 % 0x100, h / 0x100_0000];
      && Frame(EchoPing(ts)) == [0x70, 8, 0] + p
      && Frame(EchoPong(ts)) == [0x71, 8, 0] + p
  {
    EightBytes(ts);
    FourBytes(ts / 0x1_0000_0000);
    Header(EchoPing(ts), Le(ts, 8));
    Header(EchoPong(ts), Le(ts, 8));
  }

  lemma HelloFrames(version: uint16, name: Utf8String, accepted: bool, w: uint16, h: uint16)
    requires 4 + |name| <= 0xFFFF
    ensures Frame(Hello(version, name)) ==
      [0x01, Low(4 + |name|), High(4 + |name|), Low(version), High(version), Low(|name|), High(|name|)] + name
    ensures Frame(HelloAck(accepted, w, h)) ==
      [0x02, 5, 0, if accepted then 1 else 0, Low(w), High(w), Low(h), High(h)]
  {
    TwoBytes(version);
    TwoBytes(|name|);
    Header(Hello(version, name), [Low(version), High(version), Low(|name|), High(|name|)] + name);
    TwoBytes(w);
    TwoBytes(h);
    Header(HelloAck(accepted, w, h), [if accepted then 1 else 0, Low(w), High(w), Low(h), High(h)]);
  }

  lemma ClipboardFrame(flags: uint8, text: bytes)
    requires 3 + |text| <= 0xFFFF
    ensures Frame(ClipboardText(flags, text)) ==
      [0x30, Low(3 + |text|), High(3 + |text|), flags, Low(|text|), High(|text|)] + text
  {
    TwoBytes(|text|);
    Header(ClipboardText(flags, text), [flags, Low(|text|), High(|text|)] + text);
  }

  lemma ElementFrames(element: bytes)
    requires 2 + |element| <= 0xFFFF
    ensures var n := 2 + |element|;
      && Frame(PairSpakeA(element)) == [0x50, Low(n), High(n)] + ([Low(|element|), High(|element|)] + element)
      && Frame(PairSpakeB(element)) == [0x51, Low(n), High(n)] + ([Low(|element|), High(|element|)] + element)
  {
    TwoBytes(|element|);
    var p := [Low(|element|), High(|element|)] + element;
    Header(PairSpakeA(element), p);
    Header(PairSpakeB(element), p);
  }

  lemma CertFrame(cert: bytes, hmac: Tag)
    requires 34 + |cert| <= 0xFFFF
    ensures var n := 34 + |cert|;
      Frame(PairCertExchange(cert, hmac)) == [0x52, Low(n), High(n), Low(|cert|), High(|cert|)] + cert + hmac
  {
    TwoBytes(|cert|);
    Header(PairCertExchange(cert, hmac), [Low(|cert|), High(|cert|)] + cert + hmac);
  }

  lemma VerdictFrames(reason: uint8)
    ensures Frame(PairAccepted) == [0x53, 0, 0]
    ensures Frame(PairRejected(reason)) == [0x54, 1, 0, reason]
  {
    Header(PairAccepted, []);
    Header(PairRejected(reason), [reason]);
  }
}
