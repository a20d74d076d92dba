/** The server's edge brain: one input at a time through the coordinate
    rewriting, the state machine and the action executor. */
module Brain {
  import opened Words
  import opened Wire
  import opened Platform
  import opened ModMap
  import opened Convert
  import opened StuckKeys
  import opened Edge
  import opened Display
  import opened OutQueues

  datatype BrainInput = Source(ev: SourceEvent) | WireMessage(msg: Message)

  /** What is fixed for a session. `cfg.localScreenW` is the right edge of the
      whole arrangement, clamped into `1..=u16::MAX` when it is queried. */
  datatype Setup = Setup(displays: seq<DisplayRect>, cfg: EdgeConfig, remap: ModRemap) {
    predicate Ok() {
      1 <= cfg.localScreenW <= 0xFFFF
    }

    function GlobalRight(): int32
      requires Ok()
    {
      cfg.localScreenW
    }
  }

  datatype Core = Core(sm: Machine, held: set<uint16>, swallow: bool, home: int)

  /** A core together with what was enqueued to the peer and done to the local
      cursor since some starting point. */
  datatype Out = Out(core: Core, sent: seq<Message>, sink: seq<SinkCall>)

  function NewCore(s: Setup): Core
    requires s.Ok()
  {
    Core(NewMachine(s.cfg), {}, false, s.GlobalRight())
  }

  /** A cursor position at the right edge of its display is presented to the
      machine as a crossing, any other position on a display as x = 0. */
  function RewriteInput(s: Setup, home: int, input: BrainInput): (int, BrainInput)
    requires s.Ok()
  {
    if input.Source? && input.ev.CursorAt? then
      match DisplayContaining(s.displays, input.ev.x, input.ev.y)
      case Some(d) =>
        if input.ev.x >= d.RightPx() - 1
        then (d.RightPx(), Source(CursorAt(s.GlobalRight(), input.ev.y)))
        else (home, Source(CursorAt(0, input.ev.y)))
      case None => (home, input)
    else (home, input)
  }

  /** Warps are moved from the global right edge to the display the user came from. */
  function RewriteAction(s: Setup, home: int, a: Action): Action
    requires s.Ok()
  {
    if a.WarpLocalCursor? then WarpLocalCursor(home - (s.GlobalRight() - a.x), a.y) else a
  }

  function Releases(hids: seq<uint16>): (r: seq<Message>)
    ensures |r| == |hids|
  {
    seq(|hids|, i requires 0 <= i < |hids| => KeyEvent(hids[i], KEY_UP, 0))
  }

  ghost function Drained(o: Out): Out {
    o.(core := o.core.(held := {}), sent := o.sent + Releases(Ascending(o.core.held)))
  }

  ghost function Execute(s: Setup, o: Out, a: Action): Out {
    match a
    case SendTakeControl(y) => o.(sent := o.sent + [TakeControl(y)])
    case SendReleaseControl(y) => o.(sent := o.sent + [ReleaseControl(y)])
    case SendMessage(msg) =>
      var m := RemapKeyMessage(msg, s.remap);
      o.(core := o.core.(held := TrackKey(o.core.held, m)), sent := o.sent + [m])
    case WarpLocalCursor(x, y) => o.(sink := o.sink + [WarpCall(x, y)])
    case HideLocalCursor => o.(sink := o.sink + [HideCall])
    case ShowLocalCursor => o.(sink := o.sink + [ShowCall])
    case StartSwallow => var d := Drained(o); d.(core := d.core.(swallow := true))
    case StopSwallow => var d := Drained(o); d.(core := d.core.(swallow := false))
  }

  ghost function ExecuteAll(s: Setup, o: Out, actions: seq<Action>): Out
    requires s.Ok()
  {
    if actions == [] then o
    else
      var o1 := ExecuteAll(s, o, actions[..|actions| - 1]);
      Execute(s, o1, RewriteAction(s, o1.core.home, actions[|actions| - 1]))
  }

  function MachineStep(m: Machine, input: BrainInput, nowMs: uint64): (Machine, seq<Action>) {
    match input
    case Source(ev) => LocalStep(m, ev, nowMs)
    case WireMessage(msg) => WireStep(m, msg, nowMs)
  }

  /** One pass of the brain's receive loop. */
  ghost function BrainStep(s: Setup, c: Core, input: BrainInput, nowMs: uint64): Out
    requires s.Ok()
  {
    var (home, smInput) := RewriteInput(s, c.home, input);
    var (sm, actions) := MachineStep(c.sm, smInput, nowMs);
    ExecuteAll(s, Out(c.(sm := sm, home := home), [], []), actions)
  }

  class EdgeBrain {
    const setup: Setup
    const sm: StateMachine
    const held: HeldKeys
    const sink: Sink
    const queue: OutQueue
    var swallow: bool
    var home: int

    ghost predicate Valid()
      reads this, sm, held, queue
    {
      setup.Ok() && held.Valid() && queue.Valid() && sm.cfg == setup.cfg
    }

    ghost function Value(): Core
      reads this, sm, held
    {
      Core(sm.Value(), held.Contents(), swallow, home)
    }

    constructor (setup: Setup, lost: set<nat>)
      requires setup.Ok()
      ensures Valid() && fresh(sm) && fresh(held) && fresh(sink) && fresh(queue)
      ensures Value() == NewCore(setup) && queue.offered == [] && queue.lost == lost && sink.calls == []
    {
      this.setup := setup;
      sm := new StateMachine(setup.cfg);
      held := new HeldKeys();
      sink := new Sink();
      swallow := false;
      home := setup.GlobalRight();
      queue := new OutQueue(lost);
    }

    /** A send that finds the queue full or closed is dropped, and the brain
        never learns. */
    method Enqueue(m: Message)
      requires queue.Valid()
      modifies queue
      ensures queue.Valid() && queue.offered == old(queue.offered) + [m]
      ensures queue.frames == old(queue.frames) + if |old(queue.offered)| in queue.lost then [] else [m]
    {
      var _ := queue.TrySend(m);
    }

    method EnqueueReleases(hids: seq<uint16>)
      requires queue.Valid()
      modifies queue
      ensures queue.Valid() && queue.offered == old(queue.offered) + Releases(hids)
    {
      ghost var ups := Releases(hids);
      for i := 0 to |hids|
        invariant queue.Valid() && queue.offered == old(queue.offered) + ups[..i]
      {
        assert ups[..i + 1] == ups[..i] + [ups[i]];
        Enqueue(KeyEvent(hids[i], KEY_UP, 0));
      }
      assert ups[..|hids|] == ups;
    }

    method DrainHeldToPeer()
      requires Valid()
      modifies queue, held
      ensures Valid() && held.Contents() == {}
      ensures queue.offered == old(queue.offered) + Releases(Ascending(old(held.Contents())))
    {
      var hids := held.Drain();
      EnqueueReleases(hids);
    }

    /** The tracker sees the key code the peer will see. */
    method Forward(msg: Message)
      requires Valid()
      modifies queue, held
      ensures Valid()
      ensures var m := RemapKeyMessage(msg, setup.remap);
        held.Contents() == TrackKey(old(held.Contents()), m) && queue.offered == old(queue.offered) + [m]
    {
      var m := RemapKeyMessage(msg, setup.remap);
      if m.KeyEvent? {
        if m.state == KEY_DOWN {
          held.Insert(m.hid);
        } else if m.state == KEY_UP {
          held.Remove(m.hid);
        }
      }
      Enqueue(m);
    }

    method ExecuteAction(a: Action)
      requires Valid()
      modifies queue, this`swallow, held, sink
      ensures Valid()
      ensures var o := Execute(setup, Out(old(Value()), old(queue.offered), old(sink.calls)), a);
        Value() == o.core && queue.offered == o.sent && sink.calls == o.sink
    {
      match a
      case SendTakeControl(y) => Enqueue(TakeControl(y));
      case SendReleaseControl(y) => Enqueue(ReleaseControl(y));
      case SendMessage(msg) => Forward(msg);
      case WarpLocalCursor(x, y) => sink.Call(WarpCall(x, y));
      case HideLocalCursor => sink.Call(HideCall);
      case ShowLocalCursor => sink.Call(ShowCall);
      case StartSwallow =>
        DrainHeldToPeer();
        swallow := true;
      case StopSwallow =>
        DrainHeldToPeer();
        swallow := false;
    }

    method Rewrite(input: BrainInput) returns (smInput: BrainInput)
      requires Valid()
      modifies this`home
      ensures (home, smInput) == RewriteInput(setup, old(home), input)
    {
      smInput := input;
      if input.Source? && input.ev.CursorAt? {
        var found := DisplayContaining(setup.displays, input.ev.x, input.ev.y);
        if found.Some? {
          var right := found.value.RightPx();
          if input.ev.x >= right - 1 {
            home := right;
            smInput := Source(CursorAt(setup.GlobalRight(), input.ev.y));
          } else {
            smInput := Source(CursorAt(0, input.ev.y));
          }
        }
      }
    }

    method Perform(actions: seq<Action>)
      requires Valid()
      modifies queue, this`swallow, held, sink
      ensures Valid()
      ensures var o := ExecuteAll(setup, Out(old(Value()), old(queue.offered), old(sink.calls)), actions);
        Value() == o.core && queue.offered == o.sent && sink.calls == o.sink
    {
      ghost var start := Out(Value(), queue.offered, sink.calls);
      for i := 0 to |actions|
        invariant Valid()
        invariant Out(Value(), queue.offered, sink.calls) == ExecuteAll(setup, start, actions[..i])
      {
        var a := actions[i];
        if a.WarpLocalCursor? {
          var offset := setup.GlobalRight() - a.x;
          a := WarpLocalCursor(home - offset, a.y);
        }
        assert actions[..i + 1][..i] == actions[..i];
        ExecuteAction(a);
      }
      assert actions[..|actions|] == actions;
    }

    method Process(input: BrainInput, nowMs: uint64)
      requires Valid()
      modifies queue, this`swallow, this`home, sm, held, sink
      ensures Valid()
      ensures var o := BrainStep(setup, old(Value()), input, nowMs);
        && Value() == o.core
        && queue.offered == old(queue.offered) + o.sent
        && queue.frames == old(queue.frames) + SurvivorsFrom(|old(queue.offered)|, o.sent, queue.lost)
        && sink.calls == old(sink.calls) + o.sink
    {
      ghost var before := Value();
      var smInput := Rewrite(input);
      assert before.(home := home) == Value();
      var actions;
      match smInput {
        case Source(ev) => actions := sm.OnLocalEvent(ev, nowMs);
        case WireMessage(msg) => actions := sm.OnWireMessage(msg, nowMs);
      }
      assert (sm.Value(), actions) == MachineStep(before.sm, smInput, nowMs);
      assert Value() == before.(sm := sm.Value(), home := home);
      ExecuteAllAppends(setup, Out(Value(), [], []), queue.offered, sink.calls, actions);
      assert queue.offered + [] == queue.offered && sink.calls + [] == sink.calls;
      Perform(actions);
      SurvivorsConcat(old(queue.offered), BrainStep(setup, before, input, nowMs).sent, queue.lost);
    }
  }

  /** Executing actions only appends: what was logged before does not matter. */
  lemma {:induction false} ExecuteAllAppends(
      s: Setup, o: Out, sent: seq<Message>, sink: seq<SinkCall>, actions: seq<Action>)
    requires s.Ok()
    ensures var p := ExecuteAll(s, Out(o.core, sent + o.sent, sink + o.sink), actions);
      var q := ExecuteAll(s, o, actions);
      p == Out(q.core, sent + q.sent, sink + q.sink)
  {
    if actions != [] {
      var front := actions[..|actions| - 1];
      ExecuteAllAppends(s, o, sent, sink, front);
      var q := ExecuteAll(s, o, front);
      ExecuteAppends(s, q, sent, sink, RewriteAction(s, q.core.home, actions[|actions| - 1]));
    }
  }

  lemma ExecuteAppends(s: Setup, o: Out, sent: seq<Message>, sink: seq<SinkCall>, a: Action)
    ensures var p := Execute(s, Out(o.core, sent + o.sent, sink + o.sink), a);
      var q := Execute(s, o, a);
      p == Out(q.core, sent + q.sent, sink + q.sink)
  {
  }
}
