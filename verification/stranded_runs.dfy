/** Two ways to strand the user with no frame dropped: concrete runs, from a
    crossing at any edge of any Mac. */
module StrandedRuns {
  import opened Words
  import opened Wire
  import opened Platform
  import opened StuckKeys
  import opened Edge
  import opened Brain
  import opened BrainRuns
  import opened Injector
  import opened CursorWatch
  import opened Handoff
  import opened Liveness
  import opened DrainRuns

  const READ := ClientReads(false, false)

  /** The crossing has reached the client. */
  lemma TakesOver(env: Env, x: int32, y: int32)
    requires env.setup.Ok() && EdgePoint(env.setup, x, y)
    ensures var sys := RunAll(env, Crossing(x, y) + [READ]);
      && Ready(env, sys) && sys.core.held == {} && sys.s2c == []
      && sys.client.active && sys.client.out == [] && !sys.leaving && sys.watching
  {
    CrossesOver(env, x, y);
    RunFromSnoc(env, Init(env), Crossing(x, y), READ);
  }

  /** The watcher meets a closed queue and ends: the client goes on driving, and no
      continuation brings control back. */
  lemma ClosedQueueStrands(env: Env, x: int32, y: int32)
    requires env.setup.Ok() && EdgePoint(env.setup, x, y)
    ensures var sys := RunAll(env, Crossing(x, y) + [READ] + [WatcherTick(0, 0, Closed)]);
      Drives(sys) && Stranded(env, sys)
  {
    TakesOver(env, x, y);
    RunFromSnoc(env, Init(env), Crossing(x, y) + [READ], WatcherTick(0, 0, Closed));
    OneOwner(env, Crossing(x, y) + [READ] + [WatcherTick(0, 0, Closed)]);
  }

  /** The watcher gives control back, and has yet to clear the active flag. */
  function GivenBack(x: int32, y: int32): seq<Step> {
    Crossing(x, y) + [READ] + [WatcherTick(0, 0, Accepted)]
  }

  lemma IsGivenBack(env: Env, x: int32, y: int32)
    requires env.setup.Ok() && EdgePoint(env.setup, x, y)
    ensures var sys := RunAll(env, GivenBack(x, y));
      && Ready(env, sys) && sys.core.held == {} && sys.s2c == []
      && sys.client.out == [ReleaseControl(0)] && sys.leaving && sys.watching
  {
    TakesOver(env, x, y);
    RunFromSnoc(env, Init(env), Crossing(x, y) + [READ], WatcherTick(0, 0, Accepted));
  }

  /** The server takes it. */
  function Returned(x: int32, y: int32): seq<Step> {
    GivenBack(x, y) + [ServerReads(1, false)] + [BrainActs(false)]
  }

  lemma Returns(env: Env, sys: System)
    requires env.setup.Ok() && Ready(env, sys) && sys.core.held == {} && sys.client.out == [ReleaseControl(0)]
    ensures var sys' := Next(env, sys, ServerReads(1, false));
      && Balanced(env.setup, sys'.core) && sys'.core.sm.state.LocalActive? && sys'.core.sm.lastTransitionMs == 1
      && sys'.pending == [] && sys'.s2c == sys.s2c && sys'.leaving == sys.leaving
  {
    var o := BrainStep(env.setup, sys.core, WireMessage(ReleaseControl(0)), 1);
    StepShape(env.setup, sys.core, WireMessage(ReleaseControl(0)), 1);
    StepEffect(env.setup, sys.core, WireMessage(ReleaseControl(0)), 1, o);
    NoElements(Ascending({}));
  }

  lemma IsReturned(env: Env, x: int32, y: int32)
    requires env.setup.Ok() && EdgePoint(env.setup, x, y)
    ensures var sys := RunAll(env, Returned(x, y));
      && Balanced(env.setup, sys.core) && sys.core.sm.state.LocalActive? && sys.core.sm.lastTransitionMs == 1
      && !Busy(sys) && sys.s2c == [] && sys.leaving
  {
    IsGivenBack(env, x, y);
    RunFromSnoc(env, Init(env), GivenBack(x, y), ServerReads(1, false));
    RunFromSnoc(env, Init(env), GivenBack(x, y) + [ServerReads(1, false)], BrainActs(false));
    Returns(env, RunAll(env, GivenBack(x, y)));
  }

  /** And the user crosses again after the cooldown. */
  function CrossedAgain(x: int32, y: int32, again: uint64): seq<Step> {
    Returned(x, y) + [LocalEvent(CursorAt(x, y), again)] + [BrainActs(false)]
  }

  lemma Enters(env: Env, sys: System, x: int32, y: int32, again: uint64)
    requires env.setup.Ok() && Balanced(env.setup, sys.core) && !Busy(sys) && EdgePoint(env.setup, x, y)
    requires sys.core.sm.state.LocalActive? && CooldownElapsed(sys.core.sm, again)
    ensures var sys' := Next(env, sys, LocalEvent(CursorAt(x, y), again));
      sys'.pending == [TakeControl(ClampToUint16(y))] && sys'.s2c == sys.s2c && sys'.leaving == sys.leaving
  {
    EntryIff(env.setup, sys.core, x, y, again);
    StepShape(env.setup, sys.core, Source(CursorAt(x, y)), again);
  }

  lemma IsCrossedAgain(env: Env, x: int32, y: int32, again: uint64)
    requires env.setup.Ok() && EdgePoint(env.setup, x, y)
    requires 1 <= again && again - 1 >= env.setup.cfg.thrashCooldownMs
    ensures var sys := RunAll(env, CrossedAgain(x, y, again)); sys.leaving && sys.s2c == [TakeControl(ClampToUint16(y))]
  {
    IsReturned(env, x, y);
    var sys := RunAll(env, Returned(x, y));
    var cross := LocalEvent(CursorAt(x, y), again);
    RunFromSnoc(env, Init(env), Returned(x, y), cross);
    RunFromSnoc(env, Init(env), Returned(x, y) + [cross], BrainActs(false));
    Enters(env, sys, x, y, again);
    Acts(env, Next(env, sys, cross));
    NothingAppended([TakeControl(ClampToUint16(y))]);
  }

  lemma NoneDropped(x: int32, y: int32, again: uint64)
    ensures NothingLost(CrossedAgain(x, y, again) + [READ])
  {
  }

  /** Crossing, back, and across again before the watcher clears the flag it should
      have cleared: nothing is dropped, but the second TakeControl is undone, and
      no continuation brings control back. */
  lemma UndoneWithoutADrop(env: Env, x: int32, y: int32, again: uint64)
    requires env.setup.Ok() && EdgePoint(env.setup, x, y)
    requires 1 <= again && again - 1 >= env.setup.cfg.thrashCooldownMs
    ensures NothingLost(CrossedAgain(x, y, again) + [READ])
    ensures Undone(RunAll(env, CrossedAgain(x, y, again)), READ)
    ensures Stranded(env, RunAll(env, CrossedAgain(x, y, again) + [READ]))
  {
    IsCrossedAgain(env, x, y, again);
    NoneDropped(x, y, again);
    OneOwner(env, CrossedAgain(x, y, again));
    UndoneStrands(env, RunAll(env, CrossedAgain(x, y, again)), READ);
    RunFromSnoc(env, Init(env), CrossedAgain(x, y, again), READ);
  }
}
