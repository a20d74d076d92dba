/** What a disconnect drain can miss while the brain runs on beside it: concrete
    runs, from a crossing at any edge of any Mac and for any key. */
module DrainRuns {
  import opened Words
  import opened Wire
  import opened Platform
  import opened ModMap
  import opened Convert
  import opened StuckKeys
  import opened Edge
  import opened Brain
  import opened BrainRuns
  import opened Injector
  import opened Handoff
  import opened SessionEnd

  function Press(k: uint16): Step {
    LocalEvent(Key(k, Down, NO_MODS), 2)
  }

  function Crossing(x: int32, y: int32): seq<Step> {
    [LocalEvent(CursorAt(x, y), 1)] + [BrainActs(false)] + [BrainActs(false)]
  }

  /** The brain idle in RemoteActive. */
  predicate Ready(env: Env, sys: System)
    requires env.setup.Ok()
  {
    && sys.core.sm.state.RemoteActive? && sys.core.swallow && sys.core.sm.cfg == env.setup.cfg
    && IsRightEdge(env.setup, sys.core.home)
    && sys.pending == [] && sys.calls == []
  }

  lemma CrossesOver(env: Env, x: int32, y: int32)
    requires env.setup.Ok() && EdgePoint(env.setup, x, y)
    ensures var sys := RunAll(env, Crossing(x, y));
      && Ready(env, sys) && sys.core.held == {} && Undrained(sys)
      && sys.s2c == [TakeControl(ClampToUint16(y))] && sys.client == NEW_CLIENT && !sys.leaving && sys.watching
  {
    var sys, cross := Init(env), LocalEvent(CursorAt(x, y), 1);
    NothingAppended<Step>([cross]);
    RunFromSnoc(env, sys, [], cross);
    RunFromSnoc(env, sys, [cross], BrainActs(false));
    RunFromSnoc(env, sys, [cross] + [BrainActs(false)], BrainActs(false));
    EntryIff(env.setup, sys.core, x, y, 1);
    StepShape(env.setup, sys.core, Source(CursorAt(x, y)), 1);
    StepEffect(env.setup, sys.core, Source(CursorAt(x, y)), 1,
               BrainStep(env.setup, sys.core, Source(CursorAt(x, y)), 1));
    var turn := Next(env, sys, cross);
    assert |turn.pending| == 1 && turn.core.held == {} && Undrained(turn);
    Acts(env, turn);
    NothingAppended(turn.pending);
    assert RunAll(env, Crossing(x, y)) == Act(Act(turn, false), false);
  }

  lemma Acts(env: Env, sys: System)
    requires env.setup.Ok() && |sys.pending| == 1
    ensures Next(env, sys, BrainActs(false)) == sys.(pending := [], s2c := sys.s2c + sys.pending)
  {
    assert sys.pending == [sys.pending[0]] && sys.pending[1..] == [];
  }

  /** A press is tracked at once and its frame still to be enqueued. */
  lemma Presses(env: Env, sys: System, k: uint16)
    requires env.setup.Ok() && Ready(env, sys)
    ensures var sys' := Next(env, sys, Press(k));
      var h := ApplyToHid(env.setup.remap, k);
      && Ready(env, sys'.(pending := []))
      && |sys'.pending| == 1 && Unsent(sys') == {h}
      && sys'.core.held == sys.core.held + {h} && sys'.drain == sys.drain
      && sys'.late == sys.late - {h} && sys'.orphans == sys.orphans - {h}
  {
    var h := ApplyToHid(env.setup.remap, k);
    var input := Source(Key(k, Down, NO_MODS));
    var o := BrainStep(env.setup, sys.core, input, 2);
    StepShape(env.setup, sys.core, input, 2);
    var m := o.sent[0];
    assert o.sent == [m] && m.KeyEvent? && m.hid == h && m.state == KEY_DOWN;
    FoldOne({}, m);
    assert KeysNamed([m]) == {h} by { assert m in [m]; }
  }

  lemma AscendingOne(k: uint16)
    ensures Ascending({k}) == [k]
  {
    var s := Ascending({k});
    assert k in Elements(s);
    forall i | 0 <= i < |s| ensures s[i] == k {
      assert s[i] in Elements(s);
    }
  }

  lemma Drains(env: Env, sys: System, h: uint16)
    requires env.setup.Ok() && sys.drain == [] && sys.core.held == {h}
    ensures Next(env, sys, DrainStarts) == sys.(core := sys.core.(held := {}), drain := [h])
  {
    AscendingOne(h);
  }

  /** Nothing in such a run is lost, so what arrives is known. */
  lemma ArrivesAs(env: Env, steps: seq<Step>)
    requires env.setup.Ok()
    requires forall i :: 0 <= i < |steps| ==>
      steps[i].LocalEvent? || steps[i] == BrainActs(false) || steps[i].DrainStarts? || steps[i].DrainSends?
    ensures var sys := RunAll(env, steps);
      sys.drain == [] ==> Arrived(sys) == (sys.core.held - sys.late) + sys.orphans
  {
    DisconnectDrainReleasesAll(env, steps);
  }

  /** A press behind the drain: nothing was held when it began and nothing is left
      of it, yet the client ends up holding the key. */
  lemma PressBehindTheDrain(env: Env, x: int32, y: int32, k: uint16)
    requires env.setup.Ok() && EdgePoint(env.setup, x, y)
    ensures var end := RunAll(env, Crossing(x, y) + [DrainStarts] + [Press(k)] + [BrainActs(false)]);
      && end.drain == [] && !Busy(end)
      && Arrived(end) == end.core.held == {ApplyToHid(env.setup.remap, k)}
  {
    CrossesOver(env, x, y);
    var a := Crossing(x, y) + [DrainStarts];
    RunFromSnoc(env, Init(env), Crossing(x, y), DrainStarts);
    var sys := RunAll(env, a);
    NoElements(Ascending({}));
    Presses(env, sys, k);
    RunFromSnoc(env, Init(env), a, Press(k));
    Acts(env, RunAll(env, a + [Press(k)]));
    RunFromSnoc(env, Init(env), a + [Press(k)], BrainActs(false));
    ArrivesAs(env, a + [Press(k)] + [BrainActs(false)]);
  }

  lemma NoElements(s: seq<uint16>)
    ensures Elements(s) == {} ==> s == []
  {
    if s != [] {
      assert s[0] in Elements(s);
    }
  }

  /** A key goes down and the drain takes it, before or after the brain has
      enqueued the press. */
  function Taken(x: int32, y: int32, k: uint16, sent: bool): seq<Step> {
    Crossing(x, y) + [Press(k)] + (if sent then [BrainActs(false)] else []) + [DrainStarts]
  }

  lemma PressedAndTaken(env: Env, x: int32, y: int32, k: uint16, sent: bool)
    requires env.setup.Ok() && EdgePoint(env.setup, x, y)
    ensures var h := ApplyToHid(env.setup.remap, k);
      var sys := RunAll(env, Taken(x, y, k, sent));
      && sys.core.held == {} && sys.drain == [h] && sys.late == {} && sys.orphans == {}
      && Ready(env, sys.(pending := []))
      && if sent then sys.pending == [] else |sys.pending| == 1 && Unsent(sys) == {h}
  {
    var h := ApplyToHid(env.setup.remap, k);
    CrossesOver(env, x, y);
    var a := Crossing(x, y) + [Press(k)];
    RunFromSnoc(env, Init(env), Crossing(x, y), Press(k));
    Presses(env, RunAll(env, Crossing(x, y)), k);
    var b := a + if sent then [BrainActs(false)] else [];
    if sent {
      RunFromSnoc(env, Init(env), a, BrainActs(false));
      Acts(env, RunAll(env, a));
    } else {
      NothingAppended(a);
    }
    RunFromSnoc(env, Init(env), b, DrainStarts);
    Drains(env, RunAll(env, b), h);
  }

  function PressedAgain(x: int32, y: int32, k: uint16): seq<Step> {
    Taken(x, y, k, true) + [Press(k)] + [BrainActs(false)]
  }

  lemma IsPressedAgain(env: Env, x: int32, y: int32, k: uint16)
    requires env.setup.Ok() && EdgePoint(env.setup, x, y)
    ensures var h := ApplyToHid(env.setup.remap, k);
      var sys := RunAll(env, PressedAgain(x, y, k));
      Ready(env, sys) && sys.core.held == {h} && sys.drain == [h] && sys.late == {} && sys.orphans == {}
  {
    PressedAndTaken(env, x, y, k, true);
    var taken := Taken(x, y, k, true);
    Presses(env, RunAll(env, taken), k);
    RunFromSnoc(env, Init(env), taken, Press(k));
    Acts(env, RunAll(env, taken + [Press(k)]));
    RunFromSnoc(env, Init(env), taken + [Press(k)], BrainActs(false));
  }

  /** A late release: the key was down, and is pressed again before the drain
      pushes its release, which lets go of a key the user holds. */
  lemma LateRelease(env: Env, x: int32, y: int32, k: uint16)
    requires env.setup.Ok() && EdgePoint(env.setup, x, y)
    ensures var h := ApplyToHid(env.setup.remap, k);
      var end := RunAll(env, PressedAgain(x, y, k) + [DrainSends]);
      && end.drain == [] && !Busy(end)
      && Arrived(end) == {} && end.core.held == {h} && end.late == {h}
  {
    IsPressedAgain(env, x, y, k);
    RunFromSnoc(env, Init(env), PressedAgain(x, y, k), DrainSends);
    ArrivesAs(env, PressedAgain(x, y, k) + [DrainSends]);
  }

  /** An orphan: the drain takes a key that is tracked, and pushes its release,
      before the brain enqueues the press. The client holds a key that nothing
      tracks. */
  lemma ReleaseOvertakesPress(env: Env, x: int32, y: int32, k: uint16)
    requires env.setup.Ok() && EdgePoint(env.setup, x, y)
    ensures var end := RunAll(env, Taken(x, y, k, false) + [DrainSends] + [BrainActs(false)]);
      && end.drain == [] && !Busy(end)
      && end.core.held == {} && Arrived(end) == {ApplyToHid(env.setup.remap, k)}
  {
    PressedAndTaken(env, x, y, k, false);
    var taken := Taken(x, y, k, false);
    RunFromSnoc(env, Init(env), taken, DrainSends);
    Acts(env, RunAll(env, taken + [DrainSends]));
    RunFromSnoc(env, Init(env), taken + [DrainSends], BrainActs(false));
    ArrivesAs(env, taken + [DrainSends] + [BrainActs(false)]);
  }
}
