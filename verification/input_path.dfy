/** Captured input on its way from the Mac to the client's sink, in numbers: the
    remap, the bytes of the frames, and every call the client makes. */
module InputPath {
  import opened Words
  import opened Wire
  import opened Platform
  import opened ModMap
  import opened Convert
  import opened Codec
  import opened WireLayout
  import opened Edge
  import opened Brain
  import opened BrainRuns
  import opened Clipboard
  import opened ClipboardDelivery
  import opened Injector
  import opened CursorWatch

  // ----- the remap -----

  /** The remap touches the Option keys 0xE2 and 0xE6 and the Command keys 0xE3 and
      0xE7, each side for itself, and every other key keeps its code. */
  lemma RemapInNumbers(r: ModRemap, hid: uint16)
    ensures hid !in {0xE2, 0xE3, 0xE6, 0xE7} ==> ApplyToHid(r, hid) == hid
    ensures ApplyToHid(r, 0xE2) ==
      match r.option
      case ToCtrl => 0xE0
      case ToShift => 0xE1
      case ToAlt => 0xE2
      case ToMeta => 0xE3
      case Identity => 0xE2
    ensures ApplyToHid(r, 0xE6) ==
      match r.option
      case ToCtrl => 0xE4
      case ToShift => 0xE5
      case ToAlt => 0xE6
      case ToMeta => 0xE7
      case Identity => 0xE6
    ensures ApplyToHid(r, 0xE3) ==
      match r.cmd
      case ToCtrl => 0xE0
      case ToShift => 0xE1
      case ToAlt => 0xE2
      case ToMeta => 0xE3
      case Identity => 0xE3
    ensures ApplyToHid(r, 0xE7) ==
      match r.cmd
      case ToCtrl => 0xE4
      case ToShift => 0xE5
      case ToAlt => 0xE6
      case ToMeta => 0xE7
      case Identity => 0xE7
  {
  }

  /** The remapped modifier byte, bit by bit: Shift 1, Ctrl 2, Alt 4, Meta 8. */
  lemma MaskInNumbers(r: ModRemap, m: ModMask)
    ensures var out := RemappedMask(r, m).bits;
      var option, command := m.bits & 4 != 0, m.bits & 8 != 0;
      && (out & 1 != 0 <==> m.bits & 1 != 0 || (option && r.option.ToShift?) || (command && r.cmd.ToShift?))
      && (out & 2 != 0 <==> m.bits & 2 != 0 || (option && r.option.ToCtrl?) || (command && r.cmd.ToCtrl?))
      && (out & 4 != 0 <==> (option && (r.option.ToAlt? || r.option.Identity?)) || (command && r.cmd.ToAlt?))
      && (out & 8 != 0 <==> (option && r.option.ToMeta?) || (command && (r.cmd.ToMeta? || r.cmd.Identity?)))
      && out & 0xF0 == 0
  {
  }

  // ----- what goes out -----

  /** The sink call a captured event should cause at the peer. */
  function CallFor(r: ModRemap, ev: SourceEvent): SinkCall
    requires !ev.CursorAt?
  {
    match ev
    case MouseRel(dx, dy) => RelCall(dx, dy)
    case MouseBtn(button, state) => ButtonCall(button, state)
    case Wheel(dx, dy) => WheelCall(dx, dy)
    case Key(hid, state, mods) => KeyCall(ApplyToHid(r, hid), state, RemappedMask(r, mods))
  }

  /** The bytes of a forwarded key, button, motion or wheel event; the key code of
      anything but an Option or Command key is the one that was pressed. */
  lemma ForwardedBytes(s: Setup, ev: SourceEvent)
    requires !ev.CursorAt?
    ensures var f := Frame(Forwarded(s, ev));
      match ev
      case MouseRel(dx, dy) =>
        var x, y := Modular(dx), Modular(dy);
        f == [0x10, 4, 0, x % 256, x / 256, y % 256, y / 256]
      case Wheel(dx, dy) =>
        var x, y := Modular(dx), Modular(dy);
        f == [0x12, 4, 0, x % 256, x / 256, y % 256, y / 256]
      case MouseBtn(button, state) =>
        f == [0x11, 2, 0,
              match button { case Left => 0 case Right => 1 case Middle => 2 case X1 => 3 case X2 => 4 },
              if state.Down? then 1 else 0]
      case Key(hid, state, mods) =>
        && |f| == 7 && f[..3] == [0x20, 4, 0] && f[5] == (if state.Down? then 1 else 0)
        && f[6] == RemappedMask(s.remap, mods).bits as int
        && (hid !in {0xE2, 0xE3, 0xE6, 0xE7} ==> f[3] == hid % 256 && f[4] == hid / 256)
  {
    match ev
    case MouseRel(dx, dy) => MouseFrames(dx, dy, 0, 0);
    case Wheel(dx, dy) => MouseFrames(dx, dy, 0, 0);
    case MouseBtn(button, state) => MouseFrames(0, 0, ButtonToByte(button), KeyStateToByte(state));
    case Key(hid, state, mods) =>
      MaskSurvives(s.remap, mods);
      var m := Forwarded(s, ev);
      KeyFrame(m.hid, m.state, m.modifiers);
      RemapInNumbers(s.remap, hid);
  }

  lemma MaskSurvives(r: ModRemap, m: ModMask)
    ensures RemappedMask(r, ModMask.FromWire(m.ToWire())) == RemappedMask(r, m)
    ensures RemappedMask(r, m).ToWire() == RemappedMask(r, m).bits as int
    ensures ModMask.FromWire(RemappedMask(r, m).ToWire()) == RemappedMask(r, m)
  {
    WireMaskRoundTrip(m);
    ReservedBitsDoNotMatter(r, m);
    MaskInNumbers(r, m);
    var out := RemappedMask(r, m).bits;
    assert out & 0x0F == out;
    WireMaskRoundTrip(RemappedMask(r, m));
  }

  // ----- what the client does with any frames -----

  /** The calls one frame causes, in numbers; unknown buttons and states cause none. */
  function CallsOf(m: Message): seq<SinkCall> {
    match m
    case MouseMoveRel(dx, dy) => [RelCall(dx, dy)]
    case MouseButton(button, state) =>
      if button <= 4 && state <= 1 then [ButtonCall([Left, Right, Middle, X1, X2][button], [Up, Down][state])] else []
    case MouseWheel(dx, dy) => [WheelCall(dx, dy)]
    case KeyEvent(hid, state, mods) =>
      if state <= 1 then [KeyCall(hid, [Up, Down][state], ModMask((mods as bv8) & 0x0F))] else []
    case TakeControl(y) => [WarpCall(40, y)]
    case _ => []
  }

  function AllCallsOf(arrivals: seq<Arrival>): seq<SinkCall> {
    if arrivals == [] then []
    else AllCallsOf(arrivals[..|arrivals| - 1]) + CallsOf(arrivals[|arrivals| - 1].msg)
  }

  /** The latency replies: one per probe that met room, with its timestamp. */
  function RepliesTo(arrivals: seq<Arrival>): seq<Message> {
    if arrivals == [] then []
    else
      var a := arrivals[|arrivals| - 1];
      RepliesTo(arrivals[..|arrivals| - 1]) + if a.msg.EchoPing? && !a.full then [EchoPong(a.msg.tsNs)] else []
  }

  function MessagesOf(arrivals: seq<Arrival>): seq<Message> {
    if arrivals == [] then [] else MessagesOf(arrivals[..|arrivals| - 1]) + [arrivals[|arrivals| - 1].msg]
  }

  predicate HasTake(arrivals: seq<Arrival>) {
    exists i :: 0 <= i < |arrivals| && arrivals[i].msg.TakeControl?
  }

  /** Over any frames: every input frame and every TakeControl makes exactly its
      call, in order, and no other frame makes one; each probe is answered; a
      TakeControl activates; keys are tracked as the fold of the frames. */
  lemma {:induction false} FramesReachTheSink(hash: bytes -> Hash, c: Client, arrivals: seq<Arrival>)
    ensures var d := DispatchAll(hash, c, arrivals);
      && d.calls == c.calls + AllCallsOf(arrivals)
      && d.out == c.out + RepliesTo(arrivals)
      && (d.active <==> c.active || HasTake(arrivals))
      && d.held == FoldKeys(c.held, MessagesOf(arrivals))
  {
    if arrivals == [] {
      NothingAppended(c.calls);
      NothingAppended(c.out);
    } else {
      var front, a := arrivals[..|arrivals| - 1], arrivals[|arrivals| - 1];
      FramesReachTheSink(hash, c, front);
      var d := DispatchAll(hash, c, front);
      OneFrame(hash, d, a);
      FoldSnoc(c.held, MessagesOf(front), a.msg);
      assert arrivals == front + [a];
      Assoc(c.calls, AllCallsOf(front), CallsOf(a.msg));
      Assoc(c.out, RepliesTo(front), if a.msg.EchoPing? && !a.full then [EchoPong(a.msg.tsNs)] else []);
      assert HasTake(arrivals) <==> HasTake(front) || a.msg.TakeControl?;
    }
  }

  lemma OneFrame(hash: bytes -> Hash, c: Client, a: Arrival)
    ensures var d := DispatchOne(hash, c, a);
      && d.calls == c.calls + CallsOf(a.msg)
      && d.out == c.out + (if a.msg.EchoPing? && !a.full then [EchoPong(a.msg.tsNs)] else [])
      && (d.active <==> c.active || a.msg.TakeControl?)
      && d.held == TrackKey(c.held, a.msg)
  {
    NothingAppended(c.calls);
    NothingAppended(c.out);
  }

  /** `d` has written what the receiver `f` has completed since `c`, and remembers
      the last of it. */
  predicate HasWritten(hash: bytes -> Hash, c: Client, d: Client, f: Feed) {
    && d.assembly == f.assembly && d.clips == f.texts && |c.clips| <= |d.clips|
    && d.lastRemoteHash ==
         if |d.clips| == |c.clips| then c.lastRemoteHash else Some(hash(d.clips[|d.clips| - 1]))
  }

  lemma WritesOn(hash: bytes -> Hash, c: Client, d: Client, f: Feed, a: Arrival)
    requires HasWritten(hash, c, d, f) && !a.writeFails
    ensures HasWritten(hash, c, DispatchOne(hash, d, a), FeedOne(f, a.msg))
  {
  }

  /** The texts written are those the receiver completes, as long as each can be
      written, and the last of them is what the echo guard knows. */
  lemma {:induction false} TextsReachTheClipboard(hash: bytes -> Hash, c: Client, arrivals: seq<Arrival>)
    requires forall i :: 0 <= i < |arrivals| ==> !arrivals[i].writeFails
    ensures HasWritten(hash, c, DispatchAll(hash, c, arrivals),
                       FeedAll(Feed(c.assembly, c.clips, 0), MessagesOf(arrivals)))
  {
    if arrivals != [] {
      var front, a := arrivals[..|arrivals| - 1], arrivals[|arrivals| - 1];
      var start := Feed(c.assembly, c.clips, 0);
      TextsReachTheClipboard(hash, c, front);
      FeedSnoc(start, MessagesOf(front), a.msg);
      WritesOn(hash, c, DispatchAll(hash, c, front), FeedAll(start, MessagesOf(front)), a);
    }
  }

  lemma FeedSnoc(f: Feed, msgs: seq<Message>, m: Message)
    ensures FeedAll(f, msgs + [m]) == FeedOne(FeedAll(f, msgs), m)
  {
    assert (msgs + [m])[..|msgs|] == msgs;
  }

  /** A text that cannot be written changes neither clipboard nor guard. */
  lemma UnwritableTextIsDropped(hash: bytes -> Hash, c: Client, m: Message, full: bool)
    ensures var d := DispatchOne(hash, c, Arrival(m, full, true));
      && d.clips == c.clips && d.lastRemoteHash == c.lastRemoteHash
      && d.assembly == FeedOne(Feed(c.assembly, c.clips, 0), m).assembly
  {
  }

  // ----- from the tap to the sink -----

  lemma ForwardedCall(s: Setup, ev: SourceEvent)
    requires !ev.CursorAt?
    ensures CallsOf(Forwarded(s, ev)) == [CallFor(s.remap, ev)]
  {
    if ev.Key? {
      MaskSurvives(s.remap, ev.mods);
    }
  }

  function InputsOf(evs: seq<SourceEvent>, nowMs: uint64): seq<TimedInput> {
    if evs == [] then [] else InputsOf(evs[..|evs| - 1], nowMs) + [At(Source(evs[|evs| - 1]), nowMs)]
  }

  function CallsFor(r: ModRemap, evs: seq<SourceEvent>): seq<SinkCall>
    requires forall ev :: ev in evs ==> !ev.CursorAt?
  {
    if evs == [] then [] else CallsFor(r, evs[..|evs| - 1]) + [CallFor(r, evs[|evs| - 1])]
  }

  function ArrivalsOf(msgs: seq<Message>): seq<Arrival> {
    if msgs == [] then [] else ArrivalsOf(msgs[..|msgs| - 1]) + [Arrival(msgs[|msgs| - 1], false, false)]
  }

  /** Every captured event, in order, becomes exactly its call at the client: what
      the user does on the Mac in RemoteActive is done on the other machine. */
  lemma {:induction false} InputReachesTheSink(
      s: Setup, before: seq<TimedInput>, evs: seq<SourceEvent>, nowMs: uint64) returns (frames: seq<Message>)
    requires s.Ok() && Run(s, before).core.sm.state.RemoteActive?
    requires forall ev :: ev in evs ==> !ev.CursorAt?
    ensures var o := Run(s, before + InputsOf(evs, nowMs));
      && o.core.sm.state.RemoteActive?
      && o.sent == Run(s, before).sent + frames && o.sink == Run(s, before).sink
      && AllCallsOf(ArrivalsOf(frames)) == CallsFor(s.remap, evs)
  {
    frames := [];
    if evs == [] {
      assert before + InputsOf(evs, nowMs) == before;
      NothingAppended(Run(s, before).sent);
    } else {
      var front, ev := evs[..|evs| - 1], evs[|evs| - 1];
      var rest := InputReachesTheSink(s, before, front, nowMs);
      var inputs := before + InputsOf(front, nowMs);
      assert before + InputsOf(evs, nowMs) == inputs + [At(Source(ev), nowMs)];
      assert (inputs + [At(Source(ev), nowMs)])[..|inputs|] == inputs;
      RunBalanced(s, inputs);
      StepShape(s, Run(s, inputs).core, Source(ev), nowMs);
      frames := rest + [Forwarded(s, ev)];
      Assoc(Run(s, before).sent, rest, [Forwarded(s, ev)]);
      NothingAppended(Run(s, before).sink);
      assert (rest + [Forwarded(s, ev)])[..|rest|] == rest;
      ArrivalsSnoc(rest, Forwarded(s, ev));
      ForwardedCall(s, ev);
    }
  }

  lemma ArrivalsSnoc(msgs: seq<Message>, m: Message)
    ensures ArrivalsOf(msgs + [m]) == ArrivalsOf(msgs) + [Arrival(m, false, false)]
    ensures AllCallsOf(ArrivalsOf(msgs + [m])) == AllCallsOf(ArrivalsOf(msgs)) + CallsOf(m)
  {
    assert (msgs + [m])[..|msgs|] == msgs;
    var all := ArrivalsOf(msgs) + [Arrival(m, false, false)];
    assert all[..|all| - 1] == ArrivalsOf(msgs);
  }

  // ----- the heights -----

  /** A crossing at height `y` is announced at that height, cut to 16 bits. */
  lemma EntersAtTheHeight(s: Setup, c: Core, x: int32, y: int32, nowMs: uint64)
    requires s.Ok() && c.sm.cfg == s.cfg && c.held == {}
    requires IsEntry(s, c, Source(CursorAt(x, y)), nowMs)
    ensures BrainStep(s, c, Source(CursorAt(x, y)), nowMs).sent ==
      [TakeControl(if y < 0 then 0 else if y > 65535 then 65535 else y)]
  {
    StepShape(s, c, Source(CursorAt(x, y)), nowMs);
    assert y < 0 ==> ClampToUint16(y) == 0;
    assert y > 65535 ==> ClampToUint16(y) == 65535;
  }

  /** And the client puts its cursor there, 40 pixels from the left, and is active. */
  lemma TakesOverAtTheHeight(hash: bytes -> Hash, c: Client, y: uint16, full: bool, writeFails: bool)
    ensures DispatchOne(hash, c, Arrival(TakeControl(y), full, writeFails)) ==
      c.(calls := c.calls + [WarpCall(40, y)], active := true)
  {
  }

  /** The way back: a poll at height `y` says that height, and the server warps its
      cursor there, to the column left of its home display's right edge. */
  lemma ReturnsAtTheHeight(s: Setup, core: Core, c: Client, x: int32, y: uint16, nowMs: uint64)
    requires s.Ok() && core.sm.cfg == s.cfg && core.sm.state.RemoteActive?
    requires c.active && x <= 0
    ensures Watch(c, x, y, Accepted).out == c.out + [ReleaseControl(y)]
    ensures BrainStep(s, core, WireMessage(ReleaseControl(y)), nowMs).sink == [ShowCall, WarpCall(core.home - 1, y)]
  {
    StepShape(s, core, WireMessage(ReleaseControl(y)), nowMs);
  }
}
