/** What the edge brain keeps over whole runs. */
module BrainRuns {
  import opened Words
  import opened Wire
  import opened Platform
  import opened ModMap
  import opened Convert
  import opened StuckKeys
  import opened Edge
  import opened Display
  import opened Brain

  datatype TimedInput = At(input: BrainInput, nowMs: uint64)

  /** The brain fed a whole input sequence from a fresh session. */
  ghost function Run(s: Setup, inputs: seq<TimedInput>): Out
    requires s.Ok()
  {
    if inputs == [] then Out(NewCore(s), [], [])
    else
      var o := Run(s, inputs[..|inputs| - 1]);
      var last := inputs[|inputs| - 1];
      var r := BrainStep(s, o.core, last.input, last.nowMs);
      Out(r.core, o.sent + r.sent, o.sink + r.sink)
  }

  // ----- one step -----

  /** How far left of the right edge the entry warp lands. */
  function BackOffset(s: Setup): int
    requires s.Ok()
  {
    s.GlobalRight() - SaturatingSub(s.GlobalRight(), s.cfg.backWarpPx)
  }

  predicate IsEntry(s: Setup, c: Core, input: BrainInput, nowMs: uint64)
    requires s.Ok()
  {
    var (_, i) := RewriteInput(s, c.home, input);
    i.Source? && Crosses(c.sm, i.ev, nowMs)
  }

  predicate IsReturn(c: Core, input: BrainInput) {
    c.sm.state.RemoteActive? && input.WireMessage? && input.msg.ReleaseControl?
  }

  predicate IsForward(c: Core, input: BrainInput) {
    c.sm.state.RemoteActive? && input.Source? && !input.ev.CursorAt?
  }

  function Forwarded(s: Setup, ev: SourceEvent): Message
    requires !ev.CursorAt?
  {
    RemapKeyMessage(SourceEventToMessage(ev).value, s.remap)
  }

  /** A position that is presented to the machine as a crossing. */
  predicate EdgePoint(s: Setup, x: int, y: int)
    requires s.Ok()
  {
    match DisplayContaining(s.displays, x, y)
    case Some(d) => x >= d.RightPx() - 1
    case None => x >= s.GlobalRight()
  }

  lemma EntryIff(s: Setup, c: Core, x: int32, y: int32, nowMs: uint64)
    requires s.Ok() && c.sm.cfg == s.cfg
    ensures IsEntry(s, c, Source(CursorAt(x, y)), nowMs) <==>
      c.sm.state.LocalActive? && CooldownElapsed(c.sm, nowMs) && EdgePoint(s, x, y)
  {
  }

  lemma ExecutePrefix(s: Setup, o: Out, a: seq<Action>, k: nat)
    requires s.Ok() && 0 < k <= |a|
    ensures var before := ExecuteAll(s, o, a[..k - 1]);
      ExecuteAll(s, o, a[..k]) == Execute(s, before, RewriteAction(s, before.core.home, a[k - 1]))
  {
    assert a[..k][..k - 1] == a[..k - 1];
  }

  lemma ExecuteFour(s: Setup, o: Out, a: seq<Action>)
    requires s.Ok()
    requires 1 <= |a| <= 4
    ensures var f := (p: Out, x: Action) => Execute(s, p, RewriteAction(s, p.core.home, x));
      var one := f(o, a[0]);
      ExecuteAll(s, o, a) ==
        if |a| == 1 then one
        else if |a| == 2 then f(one, a[1])
        else if |a| == 3 then f(f(one, a[1]), a[2])
        else f(f(f(one, a[1]), a[2]), a[3])
  {
    assert a[..0] == [] && a[..|a|] == a;
    ExecutePrefix(s, o, a, 1);
    if |a| >= 2 { ExecutePrefix(s, o, a, 2); }
    if |a| >= 3 { ExecutePrefix(s, o, a, 3); }
    if |a| >= 4 { ExecutePrefix(s, o, a, 4); }
  }

  predicate EntryShape(s: Setup, home: int, input: BrainInput, nowMs: uint64, o: Out)
    requires s.Ok() && input.Source? && input.ev.CursorAt?
  {
    && o.core.sm.state.RemoteActive? && o.core.swallow && o.core.held == {}
    && o.core.sm.lastTransitionMs == nowMs
    && o.sent == [TakeControl(ClampToUint16(input.ev.y))]
    && o.sink == [WarpCall(home - BackOffset(s), input.ev.y), HideCall]
  }

  ghost predicate ReturnShape(c: Core, input: BrainInput, nowMs: uint64, o: Out)
    requires IsReturn(c, input)
  {
    && o.core.sm.state.LocalActive? && !o.core.swallow && o.core.held == {}
    && o.core.sm.lastTransitionMs == nowMs
    && o.sent == Releases(Ascending(c.held))
    && o.sink == [ShowCall, WarpCall(c.home - 1, input.msg.exitY)]
  }

  predicate QuietShape(s: Setup, c: Core, input: BrainInput, o: Out) {
    && o.core.sm.state == c.sm.state && o.core.swallow == c.swallow
    && o.core.sm.lastTransitionMs == c.sm.lastTransitionMs
    && o.sink == []
    && if IsForward(c, input)
       then o.sent == [Forwarded(s, input.ev)] && o.core.held == TrackKey(c.held, Forwarded(s, input.ev))
       else o.sent == [] && o.core.held == c.held
  }

  /** Every brain step is one of four: an entry, a return, a forward, or nothing. */
  ghost predicate Shape(s: Setup, c: Core, input: BrainInput, nowMs: uint64, o: Out)
    requires s.Ok()
  {
    && o.core.home == RewriteInput(s, c.home, input).0
    && o.core.sm.cfg == s.cfg
    && if IsEntry(s, c, input, nowMs) then EntryShape(s, o.core.home, input, nowMs, o)
       else if IsReturn(c, input) then ReturnShape(c, input, nowMs, o)
       else QuietShape(s, c, input, o)
  }

  lemma EntryStep(s: Setup, c: Core, input: BrainInput, nowMs: uint64)
    requires s.Ok() && c.sm.cfg == s.cfg && c.held == {}
    requires IsEntry(s, c, input, nowMs)
    ensures Shape(s, c, input, nowMs, BrainStep(s, c, input, nowMs))
  {
    var (home, i) := RewriteInput(s, c.home, input);
    var (sm, actions) := LocalStep(c.sm, i.ev, nowMs);
    ExecuteFour(s, Out(c.(sm := sm, home := home), [], []), actions);
    assert Releases(Ascending({})) == [];
  }

  lemma ReturnActions(s: Setup, o: Out, x: int, y: int)
    requires s.Ok()
    ensures ExecuteAll(s, o, [StopSwallow, ShowLocalCursor, WarpLocalCursor(x, y)]) ==
      Out(o.core.(held := {}, swallow := false), o.sent + Releases(Ascending(o.core.held)),
          o.sink + [ShowCall] + [WarpCall(o.core.home - (s.GlobalRight() - x), y)])
  {
    ExecuteFour(s, o, [StopSwallow, ShowLocalCursor, WarpLocalCursor(x, y)]);
  }

  lemma ReturnStep(s: Setup, c: Core, input: BrainInput, nowMs: uint64)
    requires s.Ok() && c.sm.cfg == s.cfg
    requires IsReturn(c, input)
    ensures Shape(s, c, input, nowMs, BrainStep(s, c, input, nowMs))
  {
    var (sm, actions) := WireStep(c.sm, input.msg, nowMs);
    ReturnActions(s, Out(c.(sm := sm), [], []), SaturatingSub(AsInt32(s.cfg.localScreenW), 1), input.msg.exitY);
  }

  lemma QuietStep(s: Setup, c: Core, input: BrainInput, nowMs: uint64)
    requires s.Ok() && c.sm.cfg == s.cfg
    requires !IsEntry(s, c, input, nowMs) && !IsReturn(c, input)
    ensures Shape(s, c, input, nowMs, BrainStep(s, c, input, nowMs))
  {
    var (home, i) := RewriteInput(s, c.home, input);
    var (sm, actions) := MachineStep(c.sm, i, nowMs);
    if actions != [] {
      ExecuteFour(s, Out(c.(sm := sm, home := home), [], []), actions);
    }
  }

  lemma StepShape(s: Setup, c: Core, input: BrainInput, nowMs: uint64)
    requires s.Ok() && c.sm.cfg == s.cfg
    requires c.sm.state.LocalActive? ==> c.held == {}
    ensures Shape(s, c, input, nowMs, BrainStep(s, c, input, nowMs))
  {
    if IsEntry(s, c, input, nowMs) {
      EntryStep(s, c, input, nowMs);
    } else if IsReturn(c, input) {
      ReturnStep(s, c, input, nowMs);
    } else {
      QuietStep(s, c, input, nowMs);
    }
  }

  // ----- balance -----

  /** A right edge the home display may have. */
  predicate IsRightEdge(s: Setup, x: int)
    requires s.Ok()
  {
    x == s.GlobalRight() || exists d :: d in s.displays && d.RightPx() == x
  }

  /** The invariant of the brain: swallowing is exactly RemoteActive, and
      LocalActive holds no key. */
  predicate Balanced(s: Setup, c: Core)
    requires s.Ok()
  {
    && c.sm.cfg == s.cfg
    && c.swallow == c.sm.state.RemoteActive?
    && (c.sm.state.LocalActive? ==> c.held == {})
    && IsRightEdge(s, c.home)
  }

  function Hidden(c: Core): int {
    if c.sm.state.RemoteActive? then 1 else 0
  }

  lemma {:induction false} FoldReleases(held: set<uint16>, hids: seq<uint16>)
    ensures FoldKeys(held, Releases(hids)) == held - Elements(hids)
    decreases hids
  {
    if hids == [] {
      assert Releases(hids) == [];
    } else {
      assert Releases(hids)[0] == KeyEvent(hids[0], KEY_UP, 0);
      assert Releases(hids)[1..] == Releases(hids[1..]);
      FoldReleases(held - {hids[0]}, hids[1..]);
      assert hids == [hids[0]] + hids[1..];
      assert Elements(hids) == {hids[0]} + Elements(hids[1..]);
    }
  }

  lemma FoldOne(held: set<uint16>, m: Message)
    ensures FoldKeys(held, [m]) == TrackKey(held, m)
  {
    assert [m][1..] == [];
  }

  lemma HideBalanceTwo(a: SinkCall, b: SinkCall)
    ensures HideBalance([a, b]) == HideBalance([a]) + HideBalance([b])
  {
    assert [a, b] == [a] + [b];
    HideBalanceConcat([a], [b]);
  }

  /** What one step keeps, hides and tracks. */
  lemma StepEffect(s: Setup, c: Core, input: BrainInput, nowMs: uint64, o: Out)
    requires s.Ok() && Balanced(s, c) && Shape(s, c, input, nowMs, o)
    ensures Balanced(s, o.core)
    ensures HideBalance(o.sink) == Hidden(o.core) - Hidden(c)
    ensures o.core.held == FoldKeys(c.held, o.sent)
    ensures forall i :: 0 <= i < |o.sink| && o.sink[i].WarpCall? ==>
      IsRightEdge(s, o.sink[i].x + BackOffset(s)) || IsRightEdge(s, o.sink[i].x + 1)
  {
    FoldReleases(c.held, Ascending(c.held));
    if |o.sent| == 1 {
      FoldOne(c.held, o.sent[0]);
    }
    if |o.sink| == 2 {
      HideBalanceTwo(o.sink[0], o.sink[1]);
    }
  }

  /** What one action does, whatever was done before: it tracks exactly what it
      enqueues; both switches let go of every key that is held; and each of the
      others sends its frame or makes its cursor call and nothing else. */
  lemma ActionEffect(s: Setup, o: Out, a: Action)
    ensures var p := Execute(s, o, a);
      && o.sent <= p.sent && p.core.held == FoldKeys(o.core.held, p.sent[|o.sent|..])
      && p.core.sm == o.core.sm && p.core.home == o.core.home
      && p.core.swallow == (if a.StartSwallow? then true else if a.StopSwallow? then false else o.core.swallow)
      && (a.StartSwallow? || a.StopSwallow? ==> p.core.held == {} && p.sink == o.sink)
      && match a
         case SendTakeControl(y) => p.sent == o.sent + [TakeControl(y)] && p.sink == o.sink
         case SendReleaseControl(y) => p.sent == o.sent + [ReleaseControl(y)] && p.sink == o.sink
         case SendMessage(m) => |p.sent| == |o.sent| + 1 && p.sink == o.sink
         case WarpLocalCursor(x, y) => p.sent == o.sent && p.sink == o.sink + [WarpCall(x, y)]
         case HideLocalCursor => p.sent == o.sent && p.sink == o.sink + [HideCall]
         case ShowLocalCursor => p.sent == o.sent && p.sink == o.sink + [ShowCall]
         case _ => true
  {
    var p := Execute(s, o, a);
    var sent := p.sent[|o.sent|..];
    if a.StartSwallow? || a.StopSwallow? {
      assert sent == Releases(Ascending(o.core.held));
      FoldReleases(o.core.held, Ascending(o.core.held));
    } else if |sent| == 1 {
      assert sent == [sent[0]];
      FoldOne(o.core.held, sent[0]);
    } else {
      assert sent == [];
    }
  }

  /** Over every run: the swallow flag is exactly RemoteActive, the cursor is
      hidden once more than shown exactly in RemoteActive, nothing is held in
      LocalActive, the tracker is the fold of everything enqueued, and every
      warp lands `back_warp_px` or one pixel left of a display's right edge. */
  ghost predicate RunInv(s: Setup, o: Out)
    requires s.Ok()
  {
    && Balanced(s, o.core)
    && HideBalance(o.sink) == Hidden(o.core)
    && o.core.held == FoldKeys({}, o.sent)
    && forall i :: 0 <= i < |o.sink| && o.sink[i].WarpCall? ==>
      IsRightEdge(s, o.sink[i].x + BackOffset(s)) || IsRightEdge(s, o.sink[i].x + 1)
  }

  lemma RunInvStep(s: Setup, o: Out, input: BrainInput, nowMs: uint64, r: Out)
    requires s.Ok() && RunInv(s, o) && Shape(s, o.core, input, nowMs, r)
    ensures RunInv(s, Out(r.core, o.sent + r.sent, o.sink + r.sink))
  {
    StepEffect(s, o.core, input, nowMs, r);
    HideBalanceConcat(o.sink, r.sink);
    FoldConcat({}, o.sent, r.sent);
  }

  lemma {:induction false} RunBalanced(s: Setup, inputs: seq<TimedInput>)
    requires s.Ok()
    ensures RunInv(s, Run(s, inputs))
  {
    if inputs != [] {
      var front, last := inputs[..|inputs| - 1], inputs[|inputs| - 1];
      RunBalanced(s, front);
      var o := Run(s, front);
      StepShape(s, o.core, last.input, last.nowMs);
      RunInvStep(s, o, last.input, last.nowMs, BrainStep(s, o.core, last.input, last.nowMs));
    }
  }

  /** The cursor is decoupled from the mouse exactly in RemoteActive, over every
      run and whichever warps fail: the crossing warps before it hides, the return
      shows before it warps. */
  lemma {:induction false} DecoupledInRemote(s: Setup, inputs: seq<TimedInput>, failed: set<nat>)
    requires s.Ok()
    ensures Decoupled(Run(s, inputs).sink, failed) <==> Run(s, inputs).core.sm.state.RemoteActive?
  {
    if inputs != [] {
      var front, last := inputs[..|inputs| - 1], inputs[|inputs| - 1];
      DecoupledInRemote(s, front, failed);
      RunBalanced(s, front);
      var o := Run(s, front);
      StepShape(s, o.core, last.input, last.nowMs);
      StepDecouples(s, o, last.input, last.nowMs, BrainStep(s, o.core, last.input, last.nowMs), failed);
    }
  }

  lemma StepDecouples(s: Setup, o: Out, input: BrainInput, nowMs: uint64, r: Out, failed: set<nat>)
    requires s.Ok() && Shape(s, o.core, input, nowMs, r)
    requires Decoupled(o.sink, failed) <==> o.core.sm.state.RemoteActive?
    ensures Decoupled(o.sink + r.sink, failed) <==> r.core.sm.state.RemoteActive?
  {
    if r.sink == [] {
      assert o.sink + r.sink == o.sink;
    } else {
      assert o.sink + r.sink == (o.sink + [r.sink[0]]) + [r.sink[1]];
      DecoupledSnoc(o.sink, r.sink[0], failed);
      DecoupledSnoc(o.sink + [r.sink[0]], r.sink[1], failed);
    }
  }

  // ----- the grammar of the wire log -----

  /** One stay in RemoteActive: the entry position and what was forwarded. */
  datatype Segment = Segment(entryY: uint16, body: seq<Message>)

  predicate InputOnly(body: seq<Message>) {
    forall i :: 0 <= i < |body| ==> IsMouseMessage(body[i]) || body[i].KeyEvent?
  }

  function Opening(seg: Segment): seq<Message> {
    [TakeControl(seg.entryY)] + seg.body
  }

  ghost function Completed(seg: Segment): seq<Message> {
    Opening(seg) + Releases(Ascending(FoldKeys({}, seg.body)))
  }

  ghost function Flatten(segs: seq<Segment>): seq<Message> {
    if segs == [] then [] else Flatten(segs[..|segs| - 1]) + Completed(segs[|segs| - 1])
  }

  /** A log is completed segments, followed in RemoteActive by one open segment
      whose fold is the held set. A drain on entry that emitted anything would
      show up between two segments. */
  ghost predicate Parses(o: Out, segs: seq<Segment>, open: Option<Segment>) {
    && (open.Some? <==> o.core.sm.state.RemoteActive?)
    && (forall seg :: seg in segs ==> InputOnly(seg.body))
    && (open.Some? ==> InputOnly(open.value.body) && o.core.held == FoldKeys({}, open.value.body))
    && o.sent == Flatten(segs) + if open.Some? then Opening(open.value) else []
  }

  lemma FlattenSnoc(segs: seq<Segment>, seg: Segment)
    ensures Flatten(segs + [seg]) == (Flatten(segs) + Opening(seg)) + Releases(Ascending(FoldKeys({}, seg.body)))
  {
    assert (segs + [seg])[..|segs|] == segs;
    assert Flatten(segs) + Completed(seg) ==
      (Flatten(segs) + Opening(seg)) + Releases(Ascending(FoldKeys({}, seg.body)));
  }

  lemma ForwardedIsInput(s: Setup, ev: SourceEvent)
    requires !ev.CursorAt?
    ensures var m := Forwarded(s, ev); IsMouseMessage(m) || m.KeyEvent?
  {
  }

  lemma OpeningSnoc(seg: Segment, m: Message)
    ensures Opening(Segment(seg.entryY, seg.body + [m])) == Opening(seg) + [m]
  {
  }

  lemma ParseStep(s: Setup, o: Out, input: BrainInput, nowMs: uint64, r: Out, segs: seq<Segment>, open: Option<Segment>)
    returns (segs': seq<Segment>, open': Option<Segment>)
    requires s.Ok() && Balanced(s, o.core) && Shape(s, o.core, input, nowMs, r)
    requires Parses(o, segs, open)
    ensures Parses(Out(r.core, o.sent + r.sent, o.sink + r.sink), segs', open')
  {
    segs', open' := segs, open;
    if IsEntry(s, o.core, input, nowMs) {
      open' := Some(Segment(ClampToUint16(input.ev.y), []));
      assert Opening(open'.value) == r.sent;
    } else if IsReturn(o.core, input) {
      segs', open' := segs + [open.value], None;
      FlattenSnoc(segs, open.value);
    } else if IsForward(o.core, input) {
      var seg := open.value;
      var m := Forwarded(s, input.ev);
      FoldSnoc({}, seg.body, m);
      OpeningSnoc(seg, m);
      ForwardedIsInput(s, input.ev);
      open' := Some(Segment(seg.entryY, seg.body + [m]));
      assert o.sent + r.sent == Flatten(segs) + (Opening(seg) + [m]);
    } else {
      assert o.sent + r.sent == o.sent;
    }
  }

  lemma {:induction false} WireLogGrammar(s: Setup, inputs: seq<TimedInput>)
    returns (segs: seq<Segment>, open: Option<Segment>)
    requires s.Ok()
    ensures Parses(Run(s, inputs), segs, open)
  {
    segs, open := [], None;
    if inputs != [] {
      var front, last := inputs[..|inputs| - 1], inputs[|inputs| - 1];
      segs, open := WireLogGrammar(s, front);
      RunBalanced(s, front);
      var o := Run(s, front);
      StepShape(s, o.core, last.input, last.nowMs);
      segs, open := ParseStep(s, o, last.input, last.nowMs, BrainStep(s, o.core, last.input, last.nowMs), segs, open);
    }
  }

  /** A completed segment leaves no key down, and its releases are exactly the
      keys whose last event in the segment was a Down, each once, ascending. */
  lemma SegmentIsKeyBalanced(seg: Segment)
    ensures FoldKeys({}, Completed(seg)) == {}
    ensures var hids := Ascending(FoldKeys({}, seg.body));
      && StrictlyAscending(hids)
      && forall k: uint16 ::
        k in hids <==> exists i: nat :: LastKeyEventAt(seg.body, k, i) && seg.body[i].state == KEY_DOWN
  {
    var held := FoldKeys({}, seg.body);
    var hids := Ascending(held);
    FoldConcat({}, Opening(seg), Releases(hids));
    assert Opening(seg)[1..] == seg.body;
    FoldReleases(held, hids);
    forall k: uint16
      ensures k in hids <==> exists i: nat :: LastKeyEventAt(seg.body, k, i) && seg.body[i].state == KEY_DOWN
    {
      assert k in hids <==> k in Elements(hids);
      FoldMeaning({}, seg.body, k);
    }
  }

  // ----- keys under a folding remap -----

  function RemapAll(r: ModRemap, hist: seq<Message>): (out: seq<Message>)
    ensures |out| == |hist|
  {
    seq(|hist|, i requires 0 <= i < |hist| => RemapKeyMessage(hist[i], r))
  }

  predicate KeysOnly(hist: seq<Message>) {
    forall i :: 0 <= i < |hist| ==> hist[i].KeyEvent?
  }

  /** The source's own key events of the current RemoteActive stay, unmapped. */
  ghost function PeriodKeys(s: Setup, inputs: seq<TimedInput>): seq<Message>
    requires s.Ok()
  {
    if inputs == [] then []
    else
      var front, last := inputs[..|inputs| - 1], inputs[|inputs| - 1];
      var c := Run(s, front).core;
      if c.sm.state.LocalActive? || IsReturn(c, last.input) then []
      else if last.input.Source? && last.input.ev.Key? then
        PeriodKeys(s, front) + [SourceEventToMessage(last.input.ev).value]
      else PeriodKeys(s, front)
  }

  lemma RemapAllSnoc(r: ModRemap, hist: seq<Message>, m: Message)
    ensures RemapAll(r, hist + [m]) == RemapAll(r, hist) + [RemapKeyMessage(m, r)]
  {
  }

  lemma {:induction false} HeldIsRemappedPeriod(s: Setup, inputs: seq<TimedInput>)
    requires s.Ok()
    ensures KeysOnly(PeriodKeys(s, inputs))
    ensures Run(s, inputs).core.held == FoldKeys({}, RemapAll(s.remap, PeriodKeys(s, inputs)))
  {
    if inputs == [] {
      assert RemapAll(s.remap, []) == [];
    } else {
      var front, last := inputs[..|inputs| - 1], inputs[|inputs| - 1];
      HeldIsRemappedPeriod(s, front);
      RunBalanced(s, front);
      var c := Run(s, front).core;
      StepShape(s, c, last.input, last.nowMs);
      assert RemapAll(s.remap, []) == [];
      if c.sm.state.RemoteActive? && last.input.Source? && last.input.ev.Key? {
        var m := SourceEventToMessage(last.input.ev).value;
        RemapAllSnoc(s.remap, PeriodKeys(s, front), m);
        FoldSnoc({}, RemapAll(s.remap, PeriodKeys(s, front)), RemapKeyMessage(m, s.remap));
      }
    }
  }

  predicate Touched(hist: seq<Message>, k: uint16) {
    exists i :: 0 <= i < |hist| && hist[i].KeyEvent? && hist[i].hid == k
  }

  ghost predicate InjectiveOn(r: ModRemap, hist: seq<Message>) {
    forall a: uint16, b: uint16 | Touched(hist, a) && Touched(hist, b) ::
      ApplyToHid(r, a) == ApplyToHid(r, b) ==> a == b
  }

  lemma TouchedSnoc(hist: seq<Message>, m: Message, k: uint16)
    requires m.KeyEvent?
    ensures Touched(hist + [m], k) <==> Touched(hist, k) || k == m.hid
  {
    var all := hist + [m];
    assert all[|hist|] == m;
    if Touched(hist, k) {
      var i :| 0 <= i < |hist| && hist[i].KeyEvent? && hist[i].hid == k;
      assert all[i] == hist[i];
    }
  }

  /** One key event keeps the tracked keys inside the image of the pressed ones. */
  lemma ImageStep(r: ModRemap, tracked: set<uint16>, pressed: set<uint16>, m: Message)
    requires m.KeyEvent?
    requires tracked <= Image(r, pressed)
    ensures TrackKey(tracked, RemapKeyMessage(m, r)) <= Image(r, TrackKey(pressed, m))
  {
    var after := TrackKey(pressed, m);
    forall k | k in TrackKey(tracked, RemapKeyMessage(m, r))
      ensures k in Image(r, after)
    {
      if k == ApplyToHid(r, m.hid) && m.state == KEY_DOWN {
        assert m.hid in after;
      } else {
        var h :| h in pressed && ApplyToHid(r, h) == k;
        assert h in after;
      }
    }
  }

  lemma ImageStepExact(r: ModRemap, tracked: set<uint16>, pressed: set<uint16>, m: Message)
    requires m.KeyEvent?
    requires tracked == Image(r, pressed)
    requires forall h :: h in pressed && ApplyToHid(r, h) == ApplyToHid(r, m.hid) ==> h == m.hid
    ensures TrackKey(tracked, RemapKeyMessage(m, r)) == Image(r, TrackKey(pressed, m))
  {
    ImageStep(r, tracked, pressed, m);
    var after := TrackKey(pressed, m);
    forall k | k in Image(r, after)
      ensures k in TrackKey(tracked, RemapKeyMessage(m, r))
    {
      var h :| h in after && ApplyToHid(r, h) == k;
    }
  }

  lemma {:induction false} FoldUnderRemap(r: ModRemap, hist: seq<Message>)
    requires KeysOnly(hist)
    ensures forall k :: k in FoldKeys({}, hist) ==> Touched(hist, k)
    ensures FoldKeys({}, RemapAll(r, hist)) <= Image(r, FoldKeys({}, hist))
    ensures InjectiveOn(r, hist) ==> FoldKeys({}, RemapAll(r, hist)) == Image(r, FoldKeys({}, hist))
  {
    if hist == [] {
      assert RemapAll(r, hist) == [];
    } else {
      var n := |hist| - 1;
      var front, m := hist[..n], hist[n];
      assert hist == front + [m];
      FoldUnderRemap(r, front);
      FoldSnoc({}, front, m);
      RemapAllSnoc(r, front, m);
      FoldSnoc({}, RemapAll(r, front), RemapKeyMessage(m, r));
      forall k: uint16 ensures Touched(hist, k) <==> Touched(front, k) || k == m.hid {
        TouchedSnoc(front, m, k);
      }
      ImageStep(r, FoldKeys({}, RemapAll(r, front)), FoldKeys({}, front), m);
      if InjectiveOn(r, hist) {
        assert Touched(hist, m.hid);
        assert InjectiveOn(r, front);
        ImageStepExact(r, FoldKeys({}, RemapAll(r, front)), FoldKeys({}, front), m);
      }
    }
  }

  predicate IsFoldOf(r: ModRemap, m: Message, k: uint16) {
    m.KeyEvent? && ApplyToHid(r, m.hid) == k && (m.state == KEY_DOWN || m.state == KEY_UP)
  }

  /** Of all presses and releases of keys that `r` sends to `k`, the last is a press. */
  ghost predicate LastFoldIsDown(r: ModRemap, hist: seq<Message>, k: uint16) {
    exists i: nat ::
      && i < |hist| && IsFoldOf(r, hist[i], k) && hist[i].state == KEY_DOWN
      && forall j :: i < j < |hist| ==> !IsFoldOf(r, hist[j], k)
  }

  lemma TrackedIff(r: ModRemap, hist: seq<Message>, k: uint16)
    ensures k in FoldKeys({}, RemapAll(r, hist)) <==> LastFoldIsDown(r, hist, k)
  {
    var out := RemapAll(r, hist);
    FoldMeaning({}, out, k);
    assert forall i :: 0 <= i < |hist| ==> (IsKeyOf(out[i], k) <==> IsFoldOf(r, hist[i], k));
    if i: nat :| LastKeyEventAt(out, k, i) && out[i].state == KEY_DOWN {
      assert IsFoldOf(r, hist[i], k) && hist[i].state == KEY_DOWN;
    }
    if LastFoldIsDown(r, hist, k) {
      var i: nat :| i < |hist| && IsFoldOf(r, hist[i], k) && hist[i].state == KEY_DOWN
        && forall j :: i < j < |hist| ==> !IsFoldOf(r, hist[j], k);
      assert LastKeyEventAt(out, k, i) && out[i].state == KEY_DOWN;
    }
  }

  /** Tracking the remapped events loses none of the pressed keys. */
  ghost predicate LosesNoKey(r: ModRemap, hist: seq<Message>) {
    FoldKeys({}, RemapAll(r, hist)) == Image(r, FoldKeys({}, hist))
  }

  /** When that is so, for one history: every pressed key was pressed after the
      last release of any key folded with it. */
  lemma LosesNoKeyIff(r: ModRemap, hist: seq<Message>)
    requires KeysOnly(hist)
    ensures LosesNoKey(r, hist) <==>
      forall h :: h in FoldKeys({}, hist) ==> LastFoldIsDown(r, hist, ApplyToHid(r, h))
  {
    FoldUnderRemap(r, hist);
    var pressed, tracked := FoldKeys({}, hist), FoldKeys({}, RemapAll(r, hist));
    forall h | h in pressed
      ensures LastFoldIsDown(r, hist, ApplyToHid(r, h)) <==> ApplyToHid(r, h) in tracked
    {
      TrackedIff(r, hist, ApplyToHid(r, h));
    }
    if LosesNoKey(r, hist) {
      assert forall h :: h in pressed ==> ApplyToHid(r, h) in Image(r, pressed);
    }
  }

  function FoldedPair(a: uint16, b: uint16): seq<Message> {
    [KeyEvent(a, KEY_DOWN, 0), KeyEvent(b, KEY_DOWN, 0), KeyEvent(b, KEY_UP, 0)]
  }

  /** Two source keys with one wire key: releasing either releases both. */
  lemma FoldedPairLosesAKey(r: ModRemap, a: uint16, b: uint16)
    requires a != b && ApplyToHid(r, a) == ApplyToHid(r, b)
    ensures FoldKeys({}, FoldedPair(a, b)) == {a} && FoldKeys({}, RemapAll(r, FoldedPair(a, b))) == {}
    ensures !LosesNoKey(r, FoldedPair(a, b))
  {
    var hist := FoldedPair(a, b);
    var out := RemapAll(r, hist);
    FoldThree(hist[0], hist[1], hist[2]);
    FoldThree(out[0], out[1], out[2]);
    assert out == [out[0], out[1], out[2]];
    assert ApplyToHid(r, a) in Image(r, {a});
  }

  lemma FoldThree(x: Message, y: Message, z: Message)
    ensures FoldKeys({}, [x, y, z]) == TrackKey(TrackKey(TrackKey({}, x), y), z)
  {
    FoldOne({}, x);
    FoldSnoc({}, [x], y);
    FoldSnoc({}, [x, y], z);
    assert [x] + [y] == [x, y] && [x, y] + [z] == [x, y, z];
  }

  /** For a remap: no history loses a key exactly when the configured targets
      leave each modifier itself or swap the two. */
  lemma NeverLosesAKeyIff(r: ModRemap)
    ensures (forall hist | KeysOnly(hist) :: LosesNoKey(r, hist)) <==>
      || ((r.cmd.Identity? || r.cmd.ToMeta?) && (r.option.Identity? || r.option.ToAlt?))
      || (r.cmd.ToAlt? && r.option.ToMeta?)
  {
    InjectiveIff(r);
    if InjectiveRemap(r) {
      forall hist | KeysOnly(hist) ensures LosesNoKey(r, hist) {
        FoldUnderRemap(r, hist);
      }
    } else {
      var a: uint16, b: uint16 :| ApplyToHid(r, a) == ApplyToHid(r, b) && a != b;
      FoldedPairLosesAKey(r, a, b);
      assert KeysOnly(FoldedPair(a, b));
    }
  }

  /** No phantom keys: every key the server tracks for the peer is the remap of
      a key the user pressed and has not released during this stay; and all of
      those are tracked if and only if each was pressed after the last release
      of any key folded with it. */
  lemma NoPhantomKeys(s: Setup, inputs: seq<TimedInput>)
    requires s.Ok()
    ensures var o := Run(s, inputs);
      var hist := PeriodKeys(s, inputs);
      var pressed := FoldKeys({}, hist);
      && o.core.held <= Image(s.remap, pressed)
      && (o.core.held == Image(s.remap, pressed) <==>
            forall h :: h in pressed ==> LastFoldIsDown(s.remap, hist, ApplyToHid(s.remap, h)))
  {
    HeldIsRemappedPeriod(s, inputs);
    FoldUnderRemap(s.remap, PeriodKeys(s, inputs));
    LosesNoKeyIff(s.remap, PeriodKeys(s, inputs));
  }

  /** The user crosses at an edge, presses two keys and releases the second. */
  function FoldedPairInputs(x: int32, y: int32, a: uint16, b: uint16): seq<TimedInput> {
    [At(Source(CursorAt(x, y)), 1), At(Source(Key(a, Down, NO_MODS)), 2),
     At(Source(Key(b, Down, NO_MODS)), 3), At(Source(Key(b, Up, NO_MODS)), 4)]
  }

  lemma KeyInRemote(s: Setup, inputs: seq<TimedInput>, k: uint16, state: KeyState, nowMs: uint64)
    requires s.Ok() && Run(s, inputs).core.sm.state.RemoteActive?
    ensures var more := inputs + [At(Source(Key(k, state, NO_MODS)), nowMs)];
      && Run(s, more).core.sm.state.RemoteActive?
      && PeriodKeys(s, more) == PeriodKeys(s, inputs) + [KeyEvent(k, KeyStateToByte(state), 0)]
  {
    var more := inputs + [At(Source(Key(k, state, NO_MODS)), nowMs)];
    assert more[..|inputs|] == inputs;
    RunBalanced(s, inputs);
    StepShape(s, Run(s, inputs).core, more[|inputs|].input, nowMs);
  }

  lemma CrossAtEdge(s: Setup, x: int32, y: int32, nowMs: uint64)
    requires s.Ok() && EdgePoint(s, x, y)
    ensures var run := [At(Source(CursorAt(x, y)), nowMs)];
      && Run(s, run).core.sm.state.RemoteActive? && PeriodKeys(s, run) == []
      && Entries(s, run) == [nowMs] && Run(s, run).core.sm.lastTransitionMs == nowMs
  {
    var run := [At(Source(CursorAt(x, y)), nowMs)];
    assert run[..0] == [];
    EntryIff(s, NewCore(s), x, y, nowMs);
    RunBalanced(s, []);
    StepShape(s, NewCore(s), run[0].input, nowMs);
    assert Entries(s, []) == [];
  }

  /** On a Mac with a right edge, whatever its displays, a remap that folds two
      keys loses one of them in this run: it is down, and the peer's tracker is
      empty. */
  lemma FoldedPairInARun(s: Setup, x: int32, y: int32, a: uint16, b: uint16)
    requires s.Ok() && EdgePoint(s, x, y)
    requires a != b && ApplyToHid(s.remap, a) == ApplyToHid(s.remap, b)
    ensures var inputs := FoldedPairInputs(x, y, a, b);
      && FoldKeys({}, PeriodKeys(s, inputs)) == {a}
      && Run(s, inputs).core.held == {}
  {
    var i := FoldedPairInputs(x, y, a, b);
    CrossAtEdge(s, x, y, 1);
    KeyInRemote(s, [i[0]], a, Down, 2);
    assert [i[0]] + [i[1]] == [i[0], i[1]];
    KeyInRemote(s, [i[0], i[1]], b, Down, 3);
    assert [i[0], i[1]] + [i[2]] == [i[0], i[1], i[2]];
    KeyInRemote(s, [i[0], i[1], i[2]], b, Up, 4);
    assert [i[0], i[1], i[2]] + [i[3]] == i;
    assert PeriodKeys(s, i) == FoldedPair(a, b);
    FoldedPairLosesAKey(s.remap, a, b);
    HeldIsRemappedPeriod(s, i);
  }

  /** The server tracks every pressed key in every run exactly when its remap
      folds no two keys. */
  lemma TracksEveryKeyIff(s: Setup, x: int32, y: int32)
    requires s.Ok() && EdgePoint(s, x, y)
    ensures (forall inputs :: Run(s, inputs).core.held == Image(s.remap, FoldKeys({}, PeriodKeys(s, inputs)))) <==>
      InjectiveRemap(s.remap)
  {
    if InjectiveRemap(s.remap) {
      forall inputs ensures Run(s, inputs).core.held == Image(s.remap, FoldKeys({}, PeriodKeys(s, inputs))) {
        HeldIsRemappedPeriod(s, inputs);
        FoldUnderRemap(s.remap, PeriodKeys(s, inputs));
      }
    } else {
      var a: uint16, b: uint16 :| ApplyToHid(s.remap, a) == ApplyToHid(s.remap, b) && a != b;
      FoldedPairInARun(s, x, y, a, b);
      assert ApplyToHid(s.remap, a) in Image(s.remap, {a});
      assert Run(s, FoldedPairInputs(x, y, a, b)).core.held == {};
    }
  }

  /** The shipped remap does: after crossing, Cmd down, Ctrl down, Ctrl up, Cmd
      is still down and nothing is tracked. */
  lemma DefaultRemapLosesAKey(s: Setup, x: int32, y: int32)
    requires s.Ok() && EdgePoint(s, x, y) && s.remap == DEFAULT_REMAP
    ensures var inputs := FoldedPairInputs(x, y, LEFT_GUI, LEFT_CTRL);
      && FoldKeys({}, PeriodKeys(s, inputs)) == {LEFT_GUI}
      && Run(s, inputs).core.held == {}
  {
    FoldedPairInARun(s, x, y, LEFT_GUI, LEFT_CTRL);
  }

  // ----- crossing rate -----

  /** The times at which a run entered RemoteActive. */
  ghost function Entries(s: Setup, inputs: seq<TimedInput>): seq<uint64>
    requires s.Ok()
  {
    if inputs == [] then []
    else
      var front, last := inputs[..|inputs| - 1], inputs[|inputs| - 1];
      Entries(s, front) +
      if IsEntry(s, Run(s, front).core, last.input, last.nowMs) then [last.nowMs] else []
  }

  /** Millisecond readings of a monotonic clock that has left zero. */
  ghost predicate Timely(inputs: seq<TimedInput>) {
    && (forall i :: 0 <= i < |inputs| ==> inputs[i].nowMs > 0)
    && forall i, j :: 0 <= i < j < |inputs| ==> inputs[i].nowMs <= inputs[j].nowMs
  }

  ghost predicate Spaced(s: Setup, e: seq<uint64>, last: uint64) {
    && (e != [] ==> 0 < e[|e| - 1] <= last)
    && forall i :: 0 < i < |e| ==> e[i] - e[i - 1] >= s.cfg.thrashCooldownMs
  }

  lemma SpacedStep(s: Setup, c: Core, input: BrainInput, nowMs: uint64, o: Out, e: seq<uint64>)
    requires s.Ok() && Balanced(s, c) && Shape(s, c, input, nowMs, o)
    requires Spaced(s, e, c.sm.lastTransitionMs) && c.sm.lastTransitionMs <= nowMs && 0 < nowMs
    ensures Spaced(s, e + if IsEntry(s, c, input, nowMs) then [nowMs] else [], o.core.sm.lastTransitionMs)
    ensures o.core.sm.lastTransitionMs <= nowMs
  {
  }

  lemma {:induction false} EntriesSpaced(s: Setup, inputs: seq<TimedInput>)
    requires s.Ok() && Timely(inputs)
    ensures var t := Run(s, inputs).core.sm.lastTransitionMs;
      && Spaced(s, Entries(s, inputs), t)
      && (if inputs == [] then t == 0 else t <= inputs[|inputs| - 1].nowMs)
  {
    if inputs != [] {
      var front, last := inputs[..|inputs| - 1], inputs[|inputs| - 1];
      assert Timely(front);
      EntriesSpaced(s, front);
      RunBalanced(s, front);
      var c := Run(s, front).core;
      StepShape(s, c, last.input, last.nowMs);
      assert front != [] ==> front[|front| - 1].nowMs <= last.nowMs;
      SpacedStep(s, c, last.input, last.nowMs, BrainStep(s, c, last.input, last.nowMs), Entries(s, front));
    }
  }

  /** Over nondecreasing positive timestamps, `n` further entries after the
      `i`-th take at least `n` cooldowns. */
  lemma {:induction false} CrossingRate(s: Setup, inputs: seq<TimedInput>, i: nat, n: nat)
    requires s.Ok() && Timely(inputs)
    requires i + n < |Entries(s, inputs)|
    ensures n * s.cfg.thrashCooldownMs + Entries(s, inputs)[i] <= Entries(s, inputs)[i + n]
  {
    EntriesSpaced(s, inputs);
    if n > 0 {
      CrossingRate(s, inputs, i, n - 1);
      assert n * s.cfg.thrashCooldownMs == (n - 1) * s.cfg.thrashCooldownMs + s.cfg.thrashCooldownMs;
    }
  }

  /** Zero doubles as "no transition yet": in the first millisecond of a
      session the cooldown does not hold, whatever its length and wherever the
      edge is. */
  lemma CooldownOffAtZero(s: Setup, x: int32, y: int32)
    requires s.Ok() && EdgePoint(s, x, y)
    ensures var cross := At(Source(CursorAt(x, y)), 0);
      var back := At(WireMessage(ReleaseControl(0)), 0);
      Entries(s, [cross, back, cross]) == [0, 0]
  {
    var cross := At(Source(CursorAt(x, y)), 0);
    var back := At(WireMessage(ReleaseControl(0)), 0);
    CrossAtEdge(s, x, y, 0);
    assert [cross, back][..1] == [cross] && [cross, back, cross][..2] == [cross, back];
    RunBalanced(s, [cross]);
    StepShape(s, Run(s, [cross]).core, back.input, 0);
    assert Entries(s, [cross, back]) == [0];
    RunBalanced(s, [cross, back]);
    EntryIff(s, Run(s, [cross, back]).core, x, y, 0);
  }

  /** The last column of every display of a disjoint arrangement is such an edge. */
  lemma DisplaysHaveEdges(s: Setup, d: DisplayRect, y: int)
    requires s.Ok() && PairwiseDisjoint(s.displays) && d in s.displays && d.Contains(d.RightPx() - 1, y)
    ensures EdgePoint(s, d.RightPx() - 1, y)
  {
    FindsTheDisplay(s.displays, d, d.RightPx() - 1, y);
  }

  /** A report that would cross if there had been no transition, and comes within
      the cooldown of the last one, is dropped unless that was in millisecond 0. */
  lemma CooldownHoldsIff(s: Setup, c: Core, input: BrainInput, nowMs: uint64)
    requires s.Ok() && c.sm.cfg == s.cfg
    requires IsEntry(s, c.(sm := c.sm.(lastTransitionMs := 0)), input, nowMs)
    requires c.sm.lastTransitionMs <= nowMs < c.sm.lastTransitionMs + s.cfg.thrashCooldownMs
    ensures !IsEntry(s, c, input, nowMs) <==> c.sm.lastTransitionMs != 0
  {
  }

  // ----- geometry -----

  lemma RewriteOn(s: Setup, home: int, d: DisplayRect, x: int32, y: int32)
    requires s.Ok() && PairwiseDisjoint(s.displays) && d in s.displays && d.Contains(x, y)
    ensures RewriteInput(s, home, Source(CursorAt(x, y))) ==
      if x >= d.RightPx() - 1 then (d.RightPx(), Source(CursorAt(s.GlobalRight(), y)))
      else (home, Source(CursorAt(0, y)))
  {
    FindsTheDisplay(s.displays, d, x, y);
  }

  lemma InsideIsNoEntry(s: Setup, c: Core, d: DisplayRect, x: int32, y: int32, nowMs: uint64)
    requires s.Ok() && c.sm.cfg == s.cfg
    requires PairwiseDisjoint(s.displays) && d in s.displays && d.Contains(x, y) && x < d.RightPx() - 1
    ensures !IsEntry(s, c, Source(CursorAt(x, y)), nowMs)
  {
    RewriteOn(s, c.home, d, x, y);
  }

  /** Crossing at the right edge of a display warps the cursor to a point of
      the same display that no later state of the machine takes for a crossing,
      as soon as the display is wide enough to contain that point. */
  lemma BackWarpDoesNotRetrigger(
      s: Setup, c: Core, d: DisplayRect, x: int32, y: int32, nowMs: uint64, c': Core, laterMs: uint64)
    requires s.Ok() && Balanced(s, c) && Balanced(s, c')
    requires PairwiseDisjoint(s.displays) && d in s.displays && d.Contains(x, y)
    requires 2 <= s.cfg.backWarpPx && d.Contains(d.RightPx() - s.cfg.backWarpPx, y)
    requires d.RightPx() - s.cfg.backWarpPx >= -0x8000_0000
    requires IsEntry(s, c, Source(CursorAt(x, y)), nowMs)
    ensures var warped := d.RightPx() - s.cfg.backWarpPx;
      && BrainStep(s, c, Source(CursorAt(x, y)), nowMs).sink == [WarpCall(warped, y), HideCall]
      && !IsEntry(s, c', Source(CursorAt(warped, y)), laterMs)
  {
    RewriteOn(s, c.home, d, x, y);
    StepShape(s, c, Source(CursorAt(x, y)), nowMs);
    InsideIsNoEntry(s, c', d, d.RightPx() - s.cfg.backWarpPx, y, laterMs);
  }

  /** Which displays are: those wider than `back_warp_px`, and those as wide
      whose edges lie on whole pixels. */
  lemma WideDisplaysDoNotRetrigger(
      s: Setup, c: Core, d: DisplayRect, x: int32, y: int32, nowMs: uint64, c': Core, laterMs: uint64)
    requires s.Ok() && Balanced(s, c) && Balanced(s, c')
    requires PairwiseDisjoint(s.displays) && d in s.displays && d.Contains(x, y)
    requires var b := s.cfg.backWarpPx;
      && 2 <= b
      && (b as real + 1.0 <= d.width || (b as real <= d.width && d.Right() == d.Right().Floor as real))
    requires -2147483648.0 <= d.originX && d.Right() < 2147483648.0
    requires IsEntry(s, c, Source(CursorAt(x, y)), nowMs)
    ensures var warped := d.RightPx() - s.cfg.backWarpPx;
      && d.Contains(warped, y) && warped >= -0x8000_0000
      && BrainStep(s, c, Source(CursorAt(x, y)), nowMs).sink == [WarpCall(warped, y), HideCall]
      && !IsEntry(s, c', Source(CursorAt(warped, y)), laterMs)
  {
    WideEnough(d, s.cfg.backWarpPx, y);
    BackWarpDoesNotRetrigger(s, c, d, x, y, nowMs, c', laterMs);
  }

  /** The return warp does not have that protection: it parks the cursor one
      pixel from the edge, so the next position report there crosses again as
      soon as, and only when, the cooldown has passed and the peer's exit height
      is one at which that point is at an edge. */
  lemma ReturnWarpRetriggersAfterCooldown(s: Setup, c: Core, exitY: uint16, nowMs: uint64, laterMs: uint64)
    requires s.Ok() && Balanced(s, c) && c.sm.state.RemoteActive?
    requires -0x8000_0000 <= c.home - 1 < 0x8000_0000
    requires 0 < nowMs <= laterMs
    ensures var o := BrainStep(s, c, WireMessage(ReleaseControl(exitY)), nowMs);
      && o.sink == [ShowCall, WarpCall(c.home - 1, exitY)]
      && (IsEntry(s, o.core, Source(CursorAt(c.home - 1, exitY)), laterMs)
          <==> laterMs - nowMs >= s.cfg.thrashCooldownMs && EdgePoint(s, c.home - 1, exitY))
  {
    var input := WireMessage(ReleaseControl(exitY));
    StepShape(s, c, input, nowMs);
    EntryIff(s, BrainStep(s, c, input, nowMs).core, c.home - 1, exitY, laterMs);
  }

  // ----- where the cursor comes back -----

  /** A position at the right edge of the display it is on. */
  predicate AtRightEdgeOf(d: DisplayRect, x: int, y: int) {
    d.Contains(x, y) && x >= d.RightPx() - 1
  }

  /** The input reports the cursor at the right edge of some display. */
  ghost predicate ReportsAnEdge(s: Setup, input: BrainInput) {
    && input.Source? && input.ev.CursorAt?
    && exists d :: d in s.displays && AtRightEdgeOf(d, input.ev.x, input.ev.y)
  }

  /** The home display moves with a report at the right edge of a display, to that
      display, and with nothing else. */
  lemma HomeMoves(s: Setup, c: Core, input: BrainInput, nowMs: uint64)
    requires s.Ok() && c.sm.cfg == s.cfg && (c.sm.state.LocalActive? ==> c.held == {})
    ensures !ReportsAnEdge(s, input) ==> BrainStep(s, c, input, nowMs).core.home == c.home
    ensures PairwiseDisjoint(s.displays) && input.Source? && input.ev.CursorAt? ==>
      forall d :: d in s.displays && AtRightEdgeOf(d, input.ev.x, input.ev.y) ==>
        BrainStep(s, c, input, nowMs).core.home == d.RightPx()
  {
    StepShape(s, c, input, nowMs);
    if PairwiseDisjoint(s.displays) && input.Source? && input.ev.CursorAt? {
      forall d | d in s.displays && AtRightEdgeOf(d, input.ev.x, input.ev.y)
        ensures BrainStep(s, c, input, nowMs).core.home == d.RightPx()
      {
        FindsTheDisplay(s.displays, d, input.ev.x, input.ev.y);
      }
    }
  }

  /** An input that, while the peer has control, neither gives it back nor reports
      an edge. */
  ghost predicate IsAway(s: Setup, input: BrainInput) {
    !ReportsAnEdge(s, input) && !(input.WireMessage? && input.msg.ReleaseControl?)
  }

  ghost predicate StaysAway(s: Setup, stay: seq<TimedInput>) {
    forall i :: 0 <= i < |stay| ==> IsAway(s, stay[i].input)
  }

  lemma StepStaysAway(s: Setup, c: Core, input: BrainInput, nowMs: uint64)
    requires s.Ok() && Balanced(s, c) && c.sm.state.RemoteActive? && IsAway(s, input)
    ensures var c' := BrainStep(s, c, input, nowMs).core;
      Balanced(s, c') && c'.sm.state.RemoteActive? && c'.home == c.home
  {
    StepShape(s, c, input, nowMs);
    StepEffect(s, c, input, nowMs, BrainStep(s, c, input, nowMs));
    HomeMoves(s, c, input, nowMs);
  }

  lemma RunCoreSnoc(s: Setup, inputs: seq<TimedInput>, x: TimedInput)
    requires s.Ok()
    ensures Run(s, inputs + [x]).core == BrainStep(s, Run(s, inputs).core, x.input, x.nowMs).core
  {
    assert (inputs + [x])[..|inputs|] == inputs;
  }

  lemma {:induction false} HomeKept(s: Setup, before: seq<TimedInput>, stay: seq<TimedInput>)
    requires s.Ok() && StaysAway(s, stay)
    requires var c := Run(s, before).core; Balanced(s, c) && c.sm.state.RemoteActive?
    ensures var c := Run(s, before + stay).core;
      Balanced(s, c) && c.sm.state.RemoteActive? && c.home == Run(s, before).core.home
  {
    if stay == [] {
      assert before + stay == before;
    } else {
      var n := |stay| - 1;
      assert forall i :: 0 <= i < n ==> stay[..n][i] == stay[i];
      HomeKept(s, before, stay[..n]);
      assert before + stay == (before + stay[..n]) + [stay[n]];
      RunCoreSnoc(s, before + stay[..n], stay[n]);
      StepStaysAway(s, Run(s, before + stay[..n]).core, stay[n].input, stay[n].nowMs);
    }
  }

  /** The cursor comes back where it left: after a crossing at the right edge of a
      display, whatever happens during the stay, the return warps to the last
      column of that very display, at the height the peer names. */
  lemma ReturnsWhereItLeft(
      s: Setup, before: seq<TimedInput>, d: DisplayRect, x: int32, y: int32, nowMs: uint64,
      stay: seq<TimedInput>, exitY: uint16, laterMs: uint64)
    requires s.Ok() && PairwiseDisjoint(s.displays) && d in s.displays && AtRightEdgeOf(d, x, y)
    requires IsEntry(s, Run(s, before).core, Source(CursorAt(x, y)), nowMs) && StaysAway(s, stay)
    ensures var away := Run(s, before + [At(Source(CursorAt(x, y)), nowMs)] + stay);
      && away.core.sm.state.RemoteActive?
      && BrainStep(s, away.core, WireMessage(ReleaseControl(exitY)), laterMs).sink ==
           [ShowCall, WarpCall(d.RightPx() - 1, exitY)]
  {
    var cross := At(Source(CursorAt(x, y)), nowMs);
    LeavesFrom(s, before, d, x, y, nowMs);
    RunBalanced(s, before + [cross]);
    HomeKept(s, before + [cross], stay);
    StepShape(s, Run(s, before + [cross] + stay).core, WireMessage(ReleaseControl(exitY)), laterMs);
  }

  lemma LeavesFrom(s: Setup, before: seq<TimedInput>, d: DisplayRect, x: int32, y: int32, nowMs: uint64)
    requires s.Ok() && PairwiseDisjoint(s.displays) && d in s.displays && AtRightEdgeOf(d, x, y)
    requires IsEntry(s, Run(s, before).core, Source(CursorAt(x, y)), nowMs)
    ensures var c := Run(s, before + [At(Source(CursorAt(x, y)), nowMs)]).core;
      c.sm.state.RemoteActive? && c.home == d.RightPx()
  {
    var cross := At(Source(CursorAt(x, y)), nowMs);
    assert (before + [cross])[..|before|] == before;
    RunBalanced(s, before);
    StepShape(s, Run(s, before).core, cross.input, nowMs);
    HomeMoves(s, Run(s, before).core, cross.input, nowMs);
  }

  // ----- the end of a session -----

  datatype Session = Session(setup: Setup, inputs: seq<TimedInput>)

  ghost function AllCalls(sessions: seq<Session>): seq<SinkCall>
    requires forall x :: x in sessions ==> x.setup.Ok()
  {
    if sessions == [] then []
    else
      var last := sessions[|sessions| - 1];
      AllCalls(sessions[..|sessions| - 1]) + Run(last.setup, last.inputs).sink
  }

  ghost predicate EndsRemote(x: Session)
    requires x.setup.Ok()
  {
    Run(x.setup, x.inputs).core.sm.state.RemoteActive?
  }

  ghost function RemoteEnds(sessions: seq<Session>): nat
    requires forall x :: x in sessions ==> x.setup.Ok()
  {
    if sessions == [] then 0
    else RemoteEnds(sessions[..|sessions| - 1]) + if EndsRemote(sessions[|sessions| - 1]) then 1 else 0
  }

  /** Nothing shows the cursor when a session ends: over any number of sessions
      it has been hidden once more than shown for each that ended in
      RemoteActive, so it is visible exactly when none did. */
  lemma {:induction false} CursorAcrossSessions(sessions: seq<Session>)
    requires forall x :: x in sessions ==> x.setup.Ok()
    ensures HideBalance(AllCalls(sessions)) == RemoteEnds(sessions)
    ensures RemoteEnds(sessions) == 0 <==> forall x :: x in sessions ==> !EndsRemote(x)
  {
    if sessions != [] {
      var front, last := sessions[..|sessions| - 1], sessions[|sessions| - 1];
      assert sessions == front + [last];
      CursorAcrossSessions(front);
      RunBalanced(last.setup, last.inputs);
      HideBalanceConcat(AllCalls(front), Run(last.setup, last.inputs).sink);
      assert forall x :: x in sessions <==> x in front || x == last;
    }
  }
}
