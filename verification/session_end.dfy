/** The end of a session: what a disconnect drain releases while the brain goes
    on beside it, and what the client's own drain releases. */
module SessionEnd {
  import opened Words
  import opened Wire
  import opened Platform
  import opened ModMap
  import opened Convert
  import opened StuckKeys
  import opened Edge
  import opened Brain
  import opened BrainRuns
  import opened Injector
  import opened Handoff

  /** Once a disconnect drain has pushed its releases, the keys the client will
      hold are exactly those the server still tracks, which were pressed since,
      less those whose drained release came after the new press; and those whose
      drained release came before the press it was to undo. */
  lemma DisconnectDrainReleasesAll(env: Env, steps: seq<Step>)
    requires env.setup.Ok() && NothingLost(steps)
    ensures var sys := RunAll(env, steps);
      sys.drain == [] ==>
        && Arrived(sys) == (sys.core.held - sys.late) + sys.orphans
        && (Arrived(sys) == {} <==> sys.core.held <= sys.late && sys.orphans == {})
  {
    KeysMirrored(env, steps);
    var sys := RunAll(env, steps);
    if sys.drain == [] {
      forall k: uint16 ensures k in Arrived(sys) <==> k in (sys.core.held - sys.late) + sys.orphans {
        assert MirroredAt(sys, k);
      }
      assert Arrived(sys) == (sys.core.held - sys.late) + sys.orphans;
      if Arrived(sys) == {} {
        assert forall k :: k in sys.core.held && k !in sys.late ==> k in Arrived(sys);
      }
    }
  }

  // ----- when a drain orphans a key -----

  /** No press of a key a drain is about to release is on its way, unless the user
      has pressed the key since the drain began. */
  predicate NoneCaught(sys: System) {
    forall k :: k in sys.drain ==> k !in Unsent(sys) || k in sys.core.held
  }

  lemma TurnCatchesNone(env: Env, sys: System, input: BrainInput, nowMs: uint64)
    requires env.setup.Ok() && Balanced(env.setup, sys.core)
    ensures NoneCaught(BrainTurn(env, sys, input, nowMs))
    ensures BrainTurn(env, sys, input, nowMs).orphans <= sys.orphans
  {
    var o := BrainStep(env.setup, sys.core, input, nowMs);
    StepShape(env.setup, sys.core, input, nowMs);
    StepEffect(env.setup, sys.core, input, nowMs, o);
    assert Plain(o.sent);
    forall k: uint16 | k in FoldKeys({}, o.sent) ensures k in o.core.held {
      NamedKeys({}, sys.core.held, o.sent, k);
    }
  }

  lemma ReadCatchesNone(env: Env, sys: System, nowMs: uint64, full: bool)
    requires env.setup.Ok() && Safe(env, sys) && NoneCaught(sys) && sys.client.out != []
    ensures NoneCaught(Read(env, sys, nowMs, full)) && Read(env, sys, nowMs, full).orphans <= sys.orphans
  {
    var m := sys.client.out[0];
    if m.ReleaseControl? && !full && !Busy(sys) {
      TurnCatchesNone(env, sys.(client := sys.client.(out := sys.client.out[1..])), WireMessage(m), nowMs);
    }
  }

  lemma ActCatchesNone(sys: System, full: bool)
    requires NoneCaught(sys) && Plain(sys.pending)
    ensures NoneCaught(Act(sys, full))
  {
    if sys.pending != [] {
      forall k: uint16 | k in FoldKeys({}, sys.pending[1..]) ensures k in FoldKeys({}, sys.pending) {
        RestFits(sys.pending, k);
        NamedKeys({}, {}, sys.pending[1..], k);
      }
    }
  }

  lemma StartCatchesNone(env: Env, sys: System)
    requires env.setup.Ok() && NoneCaught(sys) && Unsent(sys) !! sys.core.held
    ensures NoneCaught(Next(env, sys, DrainStarts))
  {
    if sys.drain == [] {
      forall k | k in Ascending(sys.core.held) ensures k !in Unsent(sys) {
        assert k in Elements(Ascending(sys.core.held));
        assert k in sys.core.held;
      }
    }
  }

  lemma PushCatchesNone(env: Env, sys: System)
    requires env.setup.Ok() && NoneCaught(sys)
    ensures NoneCaught(Next(env, sys, DrainSends)) && Next(env, sys, DrainSends).orphans <= sys.orphans
  {
    if sys.drain != [] {
      assert sys.drain[0] in sys.drain;
    }
  }

  lemma StepCatchesNone(env: Env, sys: System, step: Step)
    requires env.setup.Ok() && Safe(env, sys) && NoneCaught(sys)
    requires step.DrainStarts? ==> Unsent(sys) !! sys.core.held
    ensures NoneCaught(Next(env, sys, step)) && Next(env, sys, step).orphans <= sys.orphans
  {
    match step
    case LocalEvent(ev, nowMs) =>
      if !Busy(sys) {
        TurnCatchesNone(env, sys, Source(ev), nowMs);
      }
    case BrainActs(full) => ActCatchesNone(sys, full);
    case ServerReads(nowMs, full) =>
      if sys.client.out != [] {
        ReadCatchesNone(env, sys, nowMs, full);
      }
    case DrainStarts => StartCatchesNone(env, sys);
    case DrainSends => PushCatchesNone(env, sys);
    case _ =>
  }

  lemma {:induction false} RunCatchesNone(env: Env, sys: System, steps: seq<Step>)
    requires env.setup.Ok() && Safe(env, sys) && NoneCaught(sys) && NoDrain(steps)
    ensures var end := RunFrom(env, sys, steps); Safe(env, end) && NoneCaught(end) && end.orphans <= sys.orphans
  {
    if steps != [] {
      var front := steps[..|steps| - 1];
      RunCatchesNone(env, sys, front);
      StepKeepsSafe(env, RunFrom(env, sys, front), steps[|steps| - 1]);
      StepCatchesNone(env, RunFrom(env, sys, front), steps[|steps| - 1]);
    }
  }

  function Pushes(n: nat): (steps: seq<Step>)
    ensures |steps| == n && NoDrain(steps)
  {
    if n == 0 then [] else Pushes(n - 1) + [DrainSends]
  }

  ghost predicate PushedTo(sys: System, n: nat, end: System) {
    && n <= |sys.drain| && end.core == sys.core && end.pending == sys.pending && end.client == sys.client
    && end.s2c == sys.s2c + Releases(sys.drain[..n]) && end.drain == sys.drain[n..]
  }

  lemma ReleasesSnoc(hids: seq<uint16>, n: nat)
    requires n < |hids|
    ensures Releases(hids[..n + 1]) == Releases(hids[..n]) + [UpOf(hids[n])]
    ensures hids[n..] == [hids[n]] + hids[n + 1..]
  {
  }

  lemma PushesOne(env: Env, sys: System, n: nat, x: System)
    requires env.setup.Ok() && PushedTo(sys, n, x) && n < |sys.drain|
    ensures PushedTo(sys, n + 1, Next(env, x, DrainSends))
  {
    ReleasesSnoc(sys.drain, n);
    Assoc(sys.s2c, Releases(sys.drain[..n]), [UpOf(sys.drain[n])]);
    assert x.drain[0] == sys.drain[n] && x.drain[1..] == sys.drain[n + 1..];
  }

  lemma {:induction false} PushSoFar(env: Env, sys: System, n: nat)
    requires env.setup.Ok() && n <= |sys.drain|
    ensures PushedTo(sys, n, RunFrom(env, sys, Pushes(n)))
  {
    if n == 0 {
      assert sys.drain[..0] == [] && Releases([]) == [] && sys.drain[0..] == sys.drain;
      NothingAppended(sys.s2c);
    } else {
      PushSoFar(env, sys, n - 1);
      RunFromSnoc(env, sys, Pushes(n - 1), DrainSends);
      PushesOne(env, sys, n - 1, RunFrom(env, sys, Pushes(n - 1)));
    }
  }

  /** A drain that takes a key while the frame of its press is still with the
      brain, and pushes the release before that frame, orphans the key. */
  lemma CaughtIsOrphaned(env: Env, sys: System, k: uint16) returns (steps: seq<Step>)
    requires env.setup.Ok() && sys.drain == [] && k in Unsent(sys) && k in sys.core.held
    ensures NoDrain(steps) && k in RunFrom(env, Next(env, sys, DrainStarts), steps).orphans
  {
    var begun := Next(env, sys, DrainStarts);
    assert k in Elements(begun.drain);
    var i :| 0 <= i < |begun.drain| && begun.drain[i] == k;
    PushSoFar(env, begun, i);
    var x := RunFrom(env, begun, Pushes(i));
    steps := Pushes(i + 1);
    RunFromSnoc(env, begun, Pushes(i), DrainSends);
    OrphanedNow(env, x, k);
  }

  lemma OrphanedNow(env: Env, sys: System, k: uint16)
    requires env.setup.Ok() && sys.drain != [] && sys.drain[0] == k && k in Unsent(sys) && k !in sys.core.held
    ensures k in Next(env, sys, DrainSends).orphans
  {
  }

  /** Exactly when a drain that starts now orphans nothing, whatever either
      program does from then on and whatever is dropped: when the brain has no
      press tracked whose frame it has still to enqueue. */
  lemma OrphansNoneIff(env: Env, sys: System)
    requires env.setup.Ok() && Safe(env, sys) && sys.drain == []
    ensures Unsent(sys) !! sys.core.held <==>
      forall steps :: NoDrain(steps) ==> RunFrom(env, Next(env, sys, DrainStarts), steps).orphans <= sys.orphans
  {
    var begun := Next(env, sys, DrainStarts);
    if Unsent(sys) !! sys.core.held {
      StepKeepsSafe(env, sys, DrainStarts);
      StepCatchesNone(env, sys, DrainStarts);
      forall steps | NoDrain(steps) ensures RunFrom(env, begun, steps).orphans <= sys.orphans {
        RunCatchesNone(env, begun, steps);
      }
    } else {
      var k :| k in Unsent(sys) && k in sys.core.held;
      var steps := CaughtIsOrphaned(env, sys, k);
      assert k !in sys.orphans;
    }
  }

  /** In a run whose drains all start between a press and the next, no key is
      ever orphaned. */
  lemma {:induction false} OrphansNone(env: Env, steps: seq<Step>)
    requires env.setup.Ok()
    requires forall i :: 0 <= i < |steps| && steps[i].DrainStarts? ==>
      var sys := RunAll(env, steps[..i]); Unsent(sys) !! sys.core.held
    ensures NoneCaught(RunAll(env, steps)) && RunAll(env, steps).orphans == {}
  {
    if steps != [] {
      var front := steps[..|steps| - 1];
      assert forall i :: 0 <= i < |front| ==> front[..i] == steps[..i] && front[i] == steps[i];
      OrphansNone(env, front);
      OneOwner(env, front);
      StepCatchesNone(env, RunAll(env, front), steps[|steps| - 1]);
    }
  }

  // ----- a drain that gives up -----

  /** A drain that nothing interferes with, given up after `n` releases, leaves
      the client with exactly the keys whose turn had not come, and those whose
      press the brain had yet to enqueue. */
  lemma CutDrainLeaves(env: Env, steps: seq<Step>, n: nat)
    requires env.setup.Ok() && NothingLost(steps) && NoDrain(steps)
    requires n <= |Ascending(RunAll(env, steps).core.held)|
    ensures var sys := RunAll(env, steps);
      var hids := Ascending(sys.core.held);
      var end := RunFrom(env, Next(env, sys, DrainStarts), Pushes(n) + [DrainStops]);
      && Arrived(end) == Elements(hids[n..]) + Unsent(sys)
      && (Arrived(end) == {} <==> n == |hids| && Unsent(sys) == {})
  {
    KeysMirrored(env, steps);
    MirrorIsEqual(env, steps);
    DrainIdle(env, steps);
    var sys := RunAll(env, steps);
    GivesUp(env, sys, n);
    ReleasedBefore(sys, Ascending(sys.core.held), n);
    RestOf(Ascending(sys.core.held), n);
  }

  lemma Starts(env: Env, sys: System)
    requires env.setup.Ok() && sys.drain == []
    ensures Next(env, sys, DrainStarts) == sys.(core := sys.core.(held := {}), drain := Ascending(sys.core.held))
  {
  }

  lemma Stops(env: Env, sys: System)
    requires env.setup.Ok()
    ensures Next(env, sys, DrainStops) == sys.(drain := [])
  {
  }

  lemma GivesUp(env: Env, sys: System, n: nat)
    requires env.setup.Ok() && sys.drain == [] && n <= |Ascending(sys.core.held)|
    ensures var sent := sys.s2c + Releases(Ascending(sys.core.held)[..n]);
      Arrived(RunFrom(env, Next(env, sys, DrainStarts), Pushes(n) + [DrainStops])) ==
        FoldKeys(sys.client.held, sent + sys.pending)
  {
    var begun := sys.(core := sys.core.(held := {}), drain := Ascending(sys.core.held));
    PushSoFar(env, begun, n);
    var x := RunFrom(env, begun, Pushes(n));
    Starts(env, sys);
    Stops(env, x);
    RunFromSnoc(env, begun, Pushes(n), DrainStops);
  }

  lemma ReleasedBefore(sys: System, hids: seq<uint16>, n: nat)
    requires Plain(sys.pending) && PendingFits(sys) && Arrived(sys) == sys.core.held
    requires StrictlyAscending(hids) && Elements(hids) == sys.core.held && n <= |hids|
    ensures FoldKeys(sys.client.held, (sys.s2c + Releases(hids[..n])) + sys.pending) ==
      Elements(hids[n..]) + Unsent(sys)
  {
    var before := FoldKeys(sys.client.held, sys.s2c);
    var after := before - Elements(hids[..n]);
    FoldConcat(sys.client.held, sys.s2c, sys.pending);
    FoldConcat(sys.client.held, sys.s2c, Releases(hids[..n]));
    FoldReleases(before, hids[..n]);
    FoldConcat(sys.client.held, sys.s2c + Releases(hids[..n]), sys.pending);
    RestOf(hids, n);
    forall k: uint16 ensures k in FoldKeys(after, sys.pending) <==> k in Elements(hids[n..]) + Unsent(sys) {
      NamedKeys(after, {}, sys.pending, k);
      NamedKeys(before, {}, sys.pending, k);
      NamedKeys({}, {}, sys.pending, k);
    }
  }

  lemma RestOf(hids: seq<uint16>, n: nat)
    requires StrictlyAscending(hids) && n <= |hids|
    ensures Elements(hids) - Elements(hids[..n]) == Elements(hids[n..])
    ensures Elements(hids[n..]) == {} <==> n == |hids|
  {
    assert hids == hids[..n] + hids[n..];
    assert forall j :: n <= j < |hids| ==> hids[j] !in hids[..n];
    assert forall k :: k in hids <==> k in hids[..n] || k in hids[n..];
    if n < |hids| {
      assert hids[n..][0] in Elements(hids[n..]);
    }
  }

  /** If the client goes away instead, at any moment and whatever was dropped
      before, its own drain leaves no key down. */
  lemma ExitDrainReleasesAll(env: Env, steps: seq<Step>)
    requires env.setup.Ok()
    ensures KeysDown(Dropped(RunAll(env, steps).client).calls) == {}
  {
    OneOwner(env, steps);
    var c := RunAll(env, steps).client;
    UpCallsRelease(c.calls, Ascending(c.held));
  }
}
