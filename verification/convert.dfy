/** Translation between platform values and wire messages. */
module Convert {
  import opened Words
  import opened Wire
  import opened Platform
  import opened ModMap

  function ByteToButton(b: uint8): Option<Button> {
    if b == 0 then Some(Left)
    else if b == 1 then Some(Right)
    else if b == 2 then Some(Middle)
    else if b == 3 then Some(X1)
    else if b == 4 then Some(X2)
    else None
  }

  function ButtonToByte(b: Button): uint8 {
    match b
    case Left => 0
    case Right => 1
    case Middle => 2
    case X1 => 3
    case X2 => 4
  }

  function ByteToKeyState(b: uint8): Option<KeyState> {
    if b == KEY_UP then Some(Up) else if b == KEY_DOWN then Some(Down) else None
  }

  function KeyStateToByte(s: KeyState): uint8 {
    match s
    case Up => KEY_UP
    case Down => KEY_DOWN
  }

  /** `CursorAt` never reaches the wire. */
  function SourceEventToMessage(ev: SourceEvent): Option<Message> {
    match ev
    case MouseRel(dx, dy) => Some(MouseMoveRel(dx, dy))
    case MouseBtn(button, state) => Some(MouseButton(ButtonToByte(button), KeyStateToByte(state)))
    case Wheel(dx, dy) => Some(MouseWheel(dx, dy))
    case Key(hid, state, mods) => Some(KeyEvent(hid, KeyStateToByte(state), mods.ToWire()))
    case CursorAt(_, _) => None
  }

  function SourceEventToMessageRemapped(ev: SourceEvent, r: ModRemap): Option<Message> {
    match ev
    case Key(hid, state, mods) =>
      Some(KeyEvent(ApplyToHid(r, hid), KeyStateToByte(state), RemappedMask(r, mods).ToWire()))
    case other => SourceEventToMessage(other)
  }

  /** The executor's second stage: remap a message that is already on its way out. */
  function RemapKeyMessage(m: Message, r: ModRemap): Message {
    match m
    case KeyEvent(hid, state, modifiers) =>
      KeyEvent(ApplyToHid(r, hid), state, RemappedMask(r, ModMask.FromWire(modifiers)).ToWire())
    case other => other
  }

  /** A mask survives the wire up to its reserved bits. */
  lemma WireMaskRoundTrip(m: ModMask)
    ensures ModMask.FromWire(m.ToWire()) == ModMask(m.bits & 0x0F)
  {
    var low := m.bits & 0x0F;
    assert (low as int) as bv8 == low;
  }

  lemma ReservedBitsDoNotMatter(r: ModRemap, m: ModMask)
    ensures RemappedMask(r, ModMask(m.bits & 0x0F)) == RemappedMask(r, m)
  {
    var low := ModMask(m.bits & 0x0F);
    assert low.Contains(SHIFT) == m.Contains(SHIFT);
    assert low.Contains(CTRL) == m.Contains(CTRL);
    assert low.Contains(ALT) == m.Contains(ALT);
    assert low.Contains(META) == m.Contains(META);
  }

  /** The server converts first and remaps the message afterwards; on every
      event that is the one-stage conversion the documentation recommends. */
  lemma TwoStageRemapAgrees(ev: SourceEvent, r: ModRemap)
    ensures SourceEventToMessageRemapped(ev, r) ==
      match SourceEventToMessage(ev) { case Some(m) => Some(RemapKeyMessage(m, r)) case None => None }
  {
    if ev.Key? {
      WireMaskRoundTrip(ev.mods);
      ReservedBitsDoNotMatter(r, ev.mods);
    }
  }

  /** The sink calls an input message causes; unknown state or button bytes
      cause none. */
  function InputCalls(m: Message): seq<SinkCall> {
    match m
    case MouseMoveRel(dx, dy) => [RelCall(dx, dy)]
    case MouseButton(b, s) =>
      if ByteToButton(b).Some? && ByteToKeyState(s).Some?
      then [ButtonCall(ByteToButton(b).value, ByteToKeyState(s).value)] else []
    case MouseWheel(dx, dy) => [WheelCall(dx, dy)]
    case KeyEvent(hid, s, mods) =>
      if ByteToKeyState(s).Some? then [KeyCall(hid, ByteToKeyState(s).value, ModMask.FromWire(mods))] else []
    case _ => []
  }

  method ApplyKeyToSink(m: Message, sink: Sink) returns (handled: bool)
    modifies sink
    ensures handled == m.KeyEvent?
    ensures sink.calls == old(sink.calls) + if m.KeyEvent? then InputCalls(m) else []
  {
    match m
    case KeyEvent(hid, s, mods) =>
      match ByteToKeyState(s) {
        case Some(st) => sink.Call(KeyCall(hid, st, ModMask.FromWire(mods)));
        case None =>
      }
      return true;
    case _ =>
      return false;
  }

  method ApplyMouseToSink(m: Message, sink: Sink) returns (handled: bool)
    modifies sink
    ensures handled == IsMouseMessage(m)
    ensures sink.calls == old(sink.calls) + if IsMouseMessage(m) then InputCalls(m) else []
  {
    match m
    case MouseMoveRel(dx, dy) =>
      sink.Call(RelCall(dx, dy));
      return true;
    case MouseButton(b, s) =>
      if ByteToButton(b).Some? && ByteToKeyState(s).Some? {
        sink.Call(ButtonCall(ByteToButton(b).value, ByteToKeyState(s).value));
      }
      return true;
    case MouseWheel(dx, dy) =>
      sink.Call(WheelCall(dx, dy));
      return true;
    case _ =>
      return false;
  }

  /** What the server captured is what the client's sink is asked to do: no
      button, state or delta is exchanged on the way. */
  lemma EventReachesSink(ev: SourceEvent)
    requires !ev.CursorAt?
    ensures SourceEventToMessage(ev).Some?
    ensures InputCalls(SourceEventToMessage(ev).value) == [
      match ev
      case MouseRel(dx, dy) => RelCall(dx, dy)
      case MouseBtn(button, state) => ButtonCall(button, state)
      case Wheel(dx, dy) => WheelCall(dx, dy)
      case Key(hid, state, mods) => KeyCall(hid, state, ModMask(mods.bits & 0x0F))]
  {
    if ev.Key? {
      WireMaskRoundTrip(ev.mods);
    }
  }
}
