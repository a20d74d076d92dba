/** The edge-crossing state machine: which side owns the cursor. */
module Edge {
  import opened Words
  import opened Wire
  import opened Platform
  import opened Convert

  datatype State = LocalActive | RemoteActive

  datatype EdgeConfig = EdgeConfig(
    localScreenW: uint32, localScreenH: uint32,
    remoteScreenW: uint32, remoteScreenH: uint32,
    thrashCooldownMs: uint32, backWarpPx: int32)

  datatype Action =
    | SendTakeControl(entryY: uint16)
    | SendReleaseControl(exitY: uint16)
    | WarpLocalCursor(x: int, y: int)
    | HideLocalCursor
    | ShowLocalCursor
    | StartSwallow
    | StopSwallow
    | SendMessage(msg: Message)

  /** The machine's fields as a value. */
  datatype Machine = Machine(state: State, cfg: EdgeConfig, lastTransitionMs: uint64, lastCursor: (int32, int32))

  function NewMachine(cfg: EdgeConfig): Machine {
    Machine(LocalActive, cfg, 0, (HalfTowardZero(AsInt32(cfg.localScreenW)), HalfTowardZero(AsInt32(cfg.localScreenH))))
  }

  /** Rust's `/ 2` on an `i32`. */
  function HalfTowardZero(v: int32): int32 {
    (v + if v >= 0 then 0 else 1) / 2
  }

  predicate CooldownElapsed(m: Machine, nowMs: uint64) {
    m.lastTransitionMs == 0 ||
    (if nowMs >= m.lastTransitionMs then nowMs - m.lastTransitionMs else 0) >= m.cfg.thrashCooldownMs
  }

  /** `x` at or past the configured right edge. */
  predicate AtEdge(m: Machine, x: int32) {
    x >= AsInt32(m.cfg.localScreenW)
  }

  predicate Crosses(m: Machine, ev: SourceEvent, nowMs: uint64) {
    m.state.LocalActive? && ev.CursorAt? && CooldownElapsed(m, nowMs) && AtEdge(m, ev.x)
  }

  function LocalStep(m: Machine, ev: SourceEvent, nowMs: uint64): (Machine, seq<Action>) {
    var m1 := if ev.CursorAt? then m.(lastCursor := (ev.x, ev.y)) else m;
    if Crosses(m, ev, nowMs) then
      (m1.(state := RemoteActive, lastTransitionMs := nowMs),
       [SendTakeControl(ClampToUint16(ev.y)),
        WarpLocalCursor(SaturatingSub(AsInt32(m.cfg.localScreenW), m.cfg.backWarpPx), ev.y),
        HideLocalCursor,
        StartSwallow])
    else if m.state.RemoteActive? && SourceEventToMessage(ev).Some? then
      (m1, [SendMessage(SourceEventToMessage(ev).value)])
    else
      (m1, [])
  }

  function WireStep(m: Machine, msg: Message, nowMs: uint64): (Machine, seq<Action>) {
    if msg.ReleaseControl? && m.state.RemoteActive? then
      (m.(state := LocalActive, lastTransitionMs := nowMs),
       [StopSwallow,
        ShowLocalCursor,
        WarpLocalCursor(SaturatingSub(AsInt32(m.cfg.localScreenW), 1), msg.exitY)])
    else
      (m, [])
  }

  // ----- the machine in numbers -----

  /** Everything a position report does in LocalActive, in numbers: with a screen
      narrower than 2^31 pixels it crosses exactly at or past the right edge once
      the cooldown has passed, and tells the peer the height, cut to 16 bits. */
  lemma CrossingInNumbers(m: Machine, x: int32, y: int32, nowMs: uint64)
    requires m.state.LocalActive? && m.cfg.localScreenW < 0x8000_0000
    ensures var back := m.cfg.localScreenW - m.cfg.backWarpPx;
      var (m', actions) := LocalStep(m, CursorAt(x, y), nowMs);
      && m'.lastCursor == (x, y) && m'.cfg == m.cfg
      && (m'.state.RemoteActive? <==>
            && x >= m.cfg.localScreenW
            && (m.lastTransitionMs == 0 || m.cfg.thrashCooldownMs == 0
                || nowMs >= m.lastTransitionMs + m.cfg.thrashCooldownMs))
      && (m'.state.LocalActive? ==> actions == [] && m'.lastTransitionMs == m.lastTransitionMs)
      && (m'.state.RemoteActive? ==>
            && m'.lastTransitionMs == nowMs
            && |actions| == 4 && actions[0].SendTakeControl?
            && actions[1] == WarpLocalCursor(if back > 0x7FFF_FFFF then 0x7FFF_FFFF else back, y)
            && actions[2..] == [HideLocalCursor, StartSwallow]
            && (0 <= y <= 65535 ==> actions[0].entryY == y)
            && (y < 0 ==> actions[0].entryY == 0)
            && (y > 65535 ==> actions[0].entryY == 65535))
  {
  }

  /** Everything a ReleaseControl does, in numbers. */
  lemma ReturnInNumbers(m: Machine, exitY: uint16, nowMs: uint64)
    requires m.cfg.localScreenW < 0x8000_0000
    ensures var (m', actions) := WireStep(m, ReleaseControl(exitY), nowMs);
      if m.state.LocalActive? then m' == m && actions == []
      else
        && m' == Machine(LocalActive, m.cfg, nowMs, m.lastCursor)
        && actions == [StopSwallow, ShowLocalCursor, WarpLocalCursor(m.cfg.localScreenW - 1, exitY)]
  {
  }

  /** A screen of at least 2^31 pixels has its edge at a negative coordinate. */
  lemma WrappedEdge(m: Machine, x: int32, y: int32, nowMs: uint64)
    requires m.state.LocalActive? && m.cfg.localScreenW >= 0x8000_0000 && m.lastTransitionMs == 0
    ensures LocalStep(m, CursorAt(x, y), nowMs).0.state.RemoteActive? <==> x >= m.cfg.localScreenW - 0x1_0000_0000
  {
  }

  /** The machine over a whole sequence of local events. */
  function LocalRun(m: Machine, evs: seq<SourceEvent>, nowMs: uint64): Machine {
    if evs == [] then m else LocalStep(LocalRun(m, evs[..|evs| - 1], nowMs), evs[|evs| - 1], nowMs).0
  }

  /** It remembers the last position reported, at first the middle of the screen. */
  lemma {:induction false} RemembersLastCursor(cfg: EdgeConfig, evs: seq<SourceEvent>, nowMs: uint64, i: nat)
    requires i <= |evs| && forall k :: i <= k < |evs| ==> !evs[k].CursorAt?
    requires i > 0 ==> evs[i - 1].CursorAt?
    ensures var c := LocalRun(NewMachine(cfg), evs, nowMs).lastCursor;
      if i > 0 then c == (evs[i - 1].x, evs[i - 1].y)
      else
        && (cfg.localScreenW < 0x8000_0000 ==> c.0 == cfg.localScreenW / 2)
        && (cfg.localScreenH < 0x8000_0000 ==> c.1 == cfg.localScreenH / 2)
        && (cfg.localScreenW >= 0x8000_0000 ==> c.0 == -((0x1_0000_0000 - cfg.localScreenW) / 2))
        && (cfg.localScreenH >= 0x8000_0000 ==> c.1 == -((0x1_0000_0000 - cfg.localScreenH) / 2))
  {
    if evs != [] && i < |evs| {
      RemembersLastCursor(cfg, evs[..|evs| - 1], nowMs, i);
    }
  }

  class StateMachine {
    var state: State
    const cfg: EdgeConfig
    var lastTransitionMs: uint64
    var lastCursor: (int32, int32)

    ghost function Value(): Machine
      reads this
    {
      Machine(state, cfg, lastTransitionMs, lastCursor)
    }

    constructor (cfg: EdgeConfig)
      ensures Value() == NewMachine(cfg)
    {
      this.cfg := cfg;
      state := LocalActive;
      lastTransitionMs := 0;
      lastCursor := (HalfTowardZero(AsInt32(cfg.localScreenW)), HalfTowardZero(AsInt32(cfg.localScreenH)));
    }

    method HasCooldownElapsed(nowMs: uint64) returns (r: bool)
      ensures r == CooldownElapsed(Value(), nowMs)
    {
      if lastTransitionMs == 0 {
        return true;
      }
      var since := if nowMs >= lastTransitionMs then nowMs - lastTransitionMs else 0;
      return since >= cfg.thrashCooldownMs;
    }

    method OnLocalEvent(ev: SourceEvent, nowMs: uint64) returns (actions: seq<Action>)
      modifies this
      ensures (Value(), actions) == LocalStep(old(Value()), ev, nowMs)
    {
      actions := [];
      match state
      case LocalActive =>
        if ev.CursorAt? {
          lastCursor := (ev.x, ev.y);
          var elapsed := HasCooldownElapsed(nowMs);
          if !elapsed {
            return;
          }
          if ev.x >= AsInt32(cfg.localScreenW) {
            var entryY := ClampToUint16(ev.y);
            var backX := SaturatingSub(AsInt32(cfg.localScreenW), cfg.backWarpPx);
            actions := actions + [SendTakeControl(entryY)];
            actions := actions + [WarpLocalCursor(backX, ev.y)];
            actions := actions + [HideLocalCursor];
            actions := actions + [StartSwallow];
            state := RemoteActive;
            lastTransitionMs := nowMs;
            assert actions == [SendTakeControl(entryY), WarpLocalCursor(backX, ev.y), HideLocalCursor, StartSwallow];
          }
        }
      case RemoteActive =>
        if ev.CursorAt? {
          lastCursor := (ev.x, ev.y);
        } else {
          var msg := SourceEventToMessage(ev);
          if msg.Some? {
            actions := [SendMessage(msg.value)];
          }
        }
    }

    method OnWireMessage(msg: Message, nowMs: uint64) returns (actions: seq<Action>)
      modifies this
      ensures (Value(), actions) == WireStep(old(Value()), msg, nowMs)
    {
      actions := [];
      if msg.ReleaseControl? {
        if state != RemoteActive {
          return;
        }
        var edgeX := SaturatingSub(AsInt32(cfg.localScreenW), 1);
        actions := actions + [StopSwallow];
        actions := actions + [ShowLocalCursor];
        actions := actions + [WarpLocalCursor(edgeX, msg.exitY)];
        state := LocalActive;
        lastTransitionMs := nowMs;
        assert actions == [StopSwallow, ShowLocalCursor, WarpLocalCursor(edgeX, msg.exitY)];
      }
    }
  }
}
