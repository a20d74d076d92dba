/** Control always finds its way back: ranking, liveness under fair
    scheduling, and exactly when a dropped frame strands the user. */
module Liveness {
  import opened Words
  import opened Wire
  import opened Platform
  import opened StuckKeys
  import opened Edge
  import opened Brain
  import opened BrainRuns
  import opened Injector
  import opened CursorWatch
  import opened Handoff
  import opened OutQueues

  predicate Remote(sys: System) {
    sys.core.sm.state.RemoteActive?
  }

  function FirstTake(msgs: seq<Message>): nat {
    if msgs == [] || msgs[0].TakeControl? then 0 else 1 + FirstTake(msgs[1..])
  }

  function FirstGive(msgs: seq<Message>): nat {
    if msgs == [] || msgs[0].ReleaseControl? then 0 else 1 + FirstGive(msgs[1..])
  }

  /** Where the token is: 4 with the brain, about to be enqueued, 3 on its way to
      the client, 2 at the client, 1 on its way back, 0 with the Mac. */
  function Phase(sys: System): nat {
    if !Remote(sys) then 0
    else if Takes(sys.pending) > 0 then 4
    else if Takes(sys.s2c) > 0 then 3
    else if Drives(sys) then 2
    else 1
  }

  /** How many frames are ahead of the token in its queue. */
  function Ahead(sys: System): nat {
    match Phase(sys)
    case 4 => FirstTake(sys.pending)
    case 3 => FirstTake(sys.s2c)
    case 1 => FirstGive(sys.client.out)
    case _ => 0
  }

  predicate RankLess(p: nat, a: nat, p': nat, a': nat) {
    p < p' || (p == p' && a < a')
  }

  predicate SeesLeftEdge(step: Step) {
    step.WatcherTick? && step.x <= LEFT_EDGE_THRESHOLD
  }

  /** The next frame for the server is one its reader has to hand to the brain,
      which is in the middle of a turn. */
  predicate Waits(sys: System) {
    Busy(sys) && sys.client.out != [] && sys.client.out[0].ReleaseControl?
  }

  /** The step that moves the token on from where it is. */
  predicate Helpful(sys: System, step: Step) {
    match Phase(sys)
    case 4 => step.BrainActs?
    case 3 => step.ClientReads?
    case 2 => SeesLeftEdge(step)
    case 1 => step.ServerReads? && !Waits(sys)
    case _ => false
  }

  predicate SameRank(sys: System, sys': System) {
    Phase(sys') == Phase(sys) && Ahead(sys') == Ahead(sys)
  }

  predicate LowerRank(sys: System, sys': System) {
    RankLess(Phase(sys'), Ahead(sys'), Phase(sys), Ahead(sys))
  }

  predicate NotHigher(sys: System, sys': System) {
    SameRank(sys, sys') || LowerRank(sys, sys')
  }

  lemma RankFallsOn(a: System, b: System, c: System)
    requires NotHigher(a, b) && NotHigher(b, c)
    ensures NotHigher(a, c)
  {
  }

  lemma {:induction false} FirstTakeAppend(a: seq<Message>, b: seq<Message>)
    requires Takes(a) > 0
    ensures FirstTake(a + b) == FirstTake(a)
  {
    assert (a + b)[1..] == a[1..] + b;
    if !a[0].TakeControl? {
      FirstTakeAppend(a[1..], b);
    }
  }

  lemma {:induction false} FirstGiveAppend(a: seq<Message>, b: seq<Message>)
    requires Gives(a) > 0
    ensures FirstGive(a + b) == FirstGive(a)
  {
    assert (a + b)[1..] == a[1..] + b;
    if !a[0].ReleaseControl? {
      FirstGiveAppend(a[1..], b);
    }
  }

  /** The token exists and the watcher runs; nothing else about the run matters
      for progress. */
  ghost predicate Live(env: Env, sys: System)
    requires env.setup.Ok()
  {
    Safe(env, sys) && Tokens(sys) == Hidden(sys.core) && sys.watching
  }

  lemma PushRank(sys: System, m: Message)
    requires !m.TakeControl?
    ensures SameRank(sys, sys.(s2c := sys.s2c + [m]))
  {
    TakesOne(m);
    TakesConcat(sys.s2c, [m]);
    if Takes(sys.s2c) > 0 {
      FirstTakeAppend(sys.s2c, [m]);
    }
  }

  lemma ReplyRank(sys: System, m: Message)
    requires !m.ReleaseControl?
    ensures Phase(sys) == 1 ==> Gives(sys.client.out) > 0
    requires Remote(sys) ==> Tokens(sys) == 1
    ensures SameRank(sys, sys.(client := sys.client.(out := sys.client.out + [m])))
  {
    if Gives(sys.client.out) > 0 {
      FirstGiveAppend(sys.client.out, [m]);
    }
  }

  /** A turn of the brain that begins in RemoteActive leaves the token where it is,
      unless it is the return, which ends RemoteActive. */
  lemma TurnRank(env: Env, sys: System, input: BrainInput, nowMs: uint64)
    requires env.setup.Ok() && Balanced(env.setup, sys.core) && !Busy(sys) && Remote(sys)
    ensures var sys' := BrainTurn(env, sys, input, nowMs);
      if IsReturn(sys.core, input) then !Remote(sys') else SameRank(sys, sys')
  {
    var o := BrainStep(env.setup, sys.core, input, nowMs);
    StepShape(env.setup, sys.core, input, nowMs);
    TurnTakes(env.setup, sys.core, input, nowMs, o);
  }

  lemma ActRank(env: Env, sys: System)
    requires env.setup.Ok() && Live(env, sys) && Remote(sys)
    ensures if Phase(sys) == 4 then LowerRank(sys, Act(sys, false)) else SameRank(sys, Act(sys, false))
  {
    if sys.pending != [] {
      var m := sys.pending[0];
      TakesOne(m);
      TakesConcat(sys.s2c, [m]);
      if !m.TakeControl? {
        PushRank(sys, m);
      }
    }
  }

  lemma ReadRank(env: Env, sys: System, nowMs: uint64)
    requires env.setup.Ok() && Live(env, sys) && Remote(sys) && sys.client.out != []
    ensures var sys' := Read(env, sys, nowMs, false);
      if Phase(sys) == 1 && !Waits(sys) then LowerRank(sys, sys') else SameRank(sys, sys')
  {
    var m := sys.client.out[0];
    var rest := sys.(client := sys.client.(out := sys.client.out[1..]));
    if m.ReleaseControl? {
      if !Busy(sys) {
        TurnRank(env, rest, WireMessage(m), nowMs);
      }
    } else if m.EchoPing? {
      PushRank(rest, EchoPong(m.tsNs));
    }
  }

  lemma ClientReadRank(env: Env, sys: System, full: bool, writeFails: bool)
    requires env.setup.Ok() && Live(env, sys) && Remote(sys) && sys.s2c != [] && !Overwritten(sys)
    ensures var sys' := Next(env, sys, ClientReads(full, writeFails));
      if Phase(sys) == 3 then LowerRank(sys, sys') else SameRank(sys, sys')
  {
    var m := sys.s2c[0];
    DispatchTokens(env.hash, sys.client, Arrival(m, full, writeFails));
    if m.EchoPing? && Gives(sys.client.out) > 0 {
      FirstGiveAppend(sys.client.out, [EchoPong(m.tsNs)]);
    }
  }

  lemma TickRank(env: Env, sys: System, x: int32, y: int32)
    requires env.setup.Ok() && Live(env, sys) && Remote(sys)
    ensures var sys' := Tick(sys, x, y, Accepted);
      if Phase(sys) == 2 && x <= LEFT_EDGE_THRESHOLD then Phase(sys') == 1 else SameRank(sys, sys')
  {
  }

  /** No stranding, step by step: in RemoteActive the rank (phase of the token,
      frames ahead of it) falls with every helpful step and rises with none. */
  lemma RankFalls(env: Env, sys: System, step: Step)
    requires env.setup.Ok() && Live(env, sys) && Remote(sys) && Lossless(step) && !Undone(sys, step)
    ensures var sys' := Next(env, sys, step);
      Live(env, sys') && if Helpful(sys, step) then LowerRank(sys, sys') else SameRank(sys, sys')
    ensures Phase(sys) > 0
  {
    StepKeepsLive(env, sys, step);
    match step
    case LocalEvent(ev, nowMs) =>
      if !Busy(sys) {
        TurnRank(env, sys, Source(ev), nowMs);
      }
    case BrainActs(full) => ActRank(env, sys);
    case ServerReads(nowMs, full) =>
      if sys.client.out != [] {
        ReadRank(env, sys, nowMs);
      }
    case ClientReads(full, writeFails) =>
      if sys.s2c != [] {
        ClientReadRank(env, sys, full, writeFails);
      }
    case WatcherTick(x, y, _) => TickRank(env, sys, x, y);
    case WatcherClears =>
    case ServerOther(m) =>
      if IsOther(m) {
        PushRank(sys, m);
      }
    case ClientOther(m) =>
      if IsOther(m) {
        ReplyRank(sys, m);
      }
    case DrainStarts =>
    case DrainSends =>
      if sys.drain != [] {
        PushRank(sys, UpOf(sys.drain[0]));
      }
  }

  lemma StepKeepsLive(env: Env, sys: System, step: Step)
    requires env.setup.Ok() && Live(env, sys) && Lossless(step) && !Undone(sys, step)
    ensures Live(env, Next(env, sys, step))
  {
    StepKeepsSafe(env, sys, step);
    TokenLossIff(env, sys, step);
  }

  // ----- liveness -----

  ghost predicate Follows(env: Env, st: nat -> System, act: nat -> Step, n: nat)
    requires env.setup.Ok()
  {
    Lossless(act(n)) && st(n + 1) == Next(env, st(n), act(n))
  }

  /** An infinite run that drops nothing. */
  ghost predicate IsTrace(env: Env, st: nat -> System, act: nat -> Step)
    requires env.setup.Ok()
  {
    Live(env, st(0)) && forall n: nat :: Follows(env, st, act, n)
  }

  ghost predicate UndoneAt(st: nat -> System, act: nat -> Step, n: nat) {
    Undone(st(n), act(n))
  }

  /** No TakeControl is undone in it. */
  ghost predicate NoneUndone(st: nat -> System, act: nat -> Step) {
    forall n: nat :: !UndoneAt(st, act, n)
  }

  ghost predicate BrainActsAfter(act: nat -> Step, n: nat) {
    exists m: nat :: n <= m && act(m).BrainActs?
  }

  ghost predicate ClientReadsAfter(act: nat -> Step, n: nat) {
    exists m: nat :: n <= m && act(m).ClientReads?
  }

  /** The server's reader comes round while it need not wait for the brain. */
  ghost predicate ServerReadsAfter(st: nat -> System, act: nat -> Step, n: nat) {
    exists m: nat :: n <= m && act(m).ServerReads? && !Waits(st(m))
  }

  ghost predicate SeesLeftEdgeAfter(act: nat -> Step, n: nat) {
    exists m: nat :: n <= m && SeesLeftEdge(act(m))
  }

  /** The brain and both readers keep being scheduled and the watcher keeps finding
      the cursor at the left edge. */
  ghost predicate Fair(st: nat -> System, act: nat -> Step) {
    forall n: nat ::
      BrainActsAfter(act, n) && ClientReadsAfter(act, n) && ServerReadsAfter(st, act, n) && SeesLeftEdgeAfter(act, n)
  }

  lemma {:induction false} TraceLive(env: Env, st: nat -> System, act: nat -> Step, n: nat)
    requires env.setup.Ok() && IsTrace(env, st, act)
    requires forall i: nat :: i < n ==> !UndoneAt(st, act, i)
    ensures Live(env, st(n))
  {
    if n > 0 {
      TraceLive(env, st, act, n - 1);
      assert Follows(env, st, act, n - 1) && !UndoneAt(st, act, n - 1);
      StepKeepsLive(env, st(n - 1), act(n - 1));
    }
  }

  lemma TraceRank(env: Env, st: nat -> System, act: nat -> Step, n: nat)
    requires env.setup.Ok() && IsTrace(env, st, act) && NoneUndone(st, act) && Remote(st(n))
    ensures NotHigher(st(n), st(n + 1)) && Phase(st(n)) > 0
    ensures Helpful(st(n), act(n)) ==> LowerRank(st(n), st(n + 1))
  {
    TraceLive(env, st, act, n);
    assert Follows(env, st, act, n) && !UndoneAt(st, act, n);
    RankFalls(env, st(n), act(n));
  }

  /** From `n` the rank has not risen at `k`, unless the Mac got control in between. */
  lemma {:induction false} RankAt(env: Env, st: nat -> System, act: nat -> Step, n: nat, k: nat)
    returns (back: Option<nat>)
    requires env.setup.Ok() && IsTrace(env, st, act) && NoneUndone(st, act) && n <= k
    ensures back.Some? ==> n <= back.value && !Remote(st(back.value))
    ensures back.None? ==> Remote(st(k))
    ensures back.None? ==> NotHigher(st(n), st(k))
    decreases k - n
  {
    if n == k {
      back := if Remote(st(n)) then None else Some(n);
    } else {
      back := RankAt(env, st, act, n, k - 1);
      if back.None? {
        TraceRank(env, st, act, k - 1);
        RankFallsOn(st(n), st(k - 1), st(k));
        if !Remote(st(k)) {
          back := Some(k);
        }
      }
    }
  }

  /** Liveness: on every fair run without drops in which no TakeControl is undone,
      from every moment on the Mac gets control back, whatever the cooldown and
      whatever else is sent. */
  lemma {:induction false} ControlReturns(env: Env, st: nat -> System, act: nat -> Step, n: nat)
    returns (m: nat)
    requires env.setup.Ok() && IsTrace(env, st, act) && NoneUndone(st, act) && Fair(st, act)
    ensures n <= m && !Remote(st(m))
    decreases Phase(st(n)), Ahead(st(n))
  {
    if !Remote(st(n)) {
      return n;
    }
    TraceRank(env, st, act, n);
    var k: nat;
    assert BrainActsAfter(act, n) && ClientReadsAfter(act, n) && ServerReadsAfter(st, act, n);
    assert SeesLeftEdgeAfter(act, n);
    if Phase(st(n)) == 4 {
      k :| n <= k && act(k).BrainActs?;
    } else if Phase(st(n)) == 3 {
      k :| n <= k && act(k).ClientReads?;
    } else if Phase(st(n)) == 2 {
      k :| n <= k && SeesLeftEdge(act(k));
    } else {
      k :| n <= k && act(k).ServerReads? && !Waits(st(k));
    }
    var back := RankAt(env, st, act, n, k);
    if back.Some? {
      return back.value;
    }
    TraceRank(env, st, act, k);
    m := ControlReturns(env, st, act, k + 1);
  }

  // ----- a lost token -----

  /** The token is gone, or, with the watcher ended, will never leave the client. */
  ghost predicate Stranded(env: Env, sys: System)
    requires env.setup.Ok()
  {
    Safe(env, sys) && Remote(sys) && Gives(sys.client.out) == 0 && (Tokens(sys) == 1 ==> !sys.watching)
  }

  lemma StrandedTurn(env: Env, sys: System, input: BrainInput, nowMs: uint64)
    requires env.setup.Ok() && Balanced(env.setup, sys.core) && Remote(sys) && !IsReturn(sys.core, input)
    ensures var sys' := BrainTurn(env, sys, input, nowMs);
      Remote(sys') && sys'.client == sys.client && sys'.watching == sys.watching
  {
    StepShape(env.setup, sys.core, input, nowMs);
  }

  lemma StrandedRead(env: Env, sys: System, nowMs: uint64, full: bool)
    requires env.setup.Ok() && Stranded(env, sys) && sys.client.out != []
    ensures var sys' := Read(env, sys, nowMs, full);
      Remote(sys') && Gives(sys'.client.out) == 0 && sys'.watching == sys.watching
  {
  }

  lemma StrandedStep(env: Env, sys: System, step: Step)
    requires env.setup.Ok() && Stranded(env, sys)
    ensures Stranded(env, Next(env, sys, step))
  {
    StepKeepsSafe(env, sys, step);
    TokenLossIff(env, sys, step);
    match step
    case LocalEvent(ev, nowMs) =>
      if !Busy(sys) {
        StrandedTurn(env, sys, Source(ev), nowMs);
      }
    case ServerReads(nowMs, full) =>
      if sys.client.out != [] {
        StrandedRead(env, sys, nowMs, full);
      }
    case ClientReads(full, writeFails) =>
      if sys.s2c != [] {
        DispatchTokens(env.hash, sys.client, Arrival(sys.s2c[0], full, writeFails));
      }
    case ClientOther(m) =>
      GivesConcat(sys.client.out, [m]);
      TakesOne(m);
    case _ =>
  }

  lemma {:induction false} StrandedForever(env: Env, sys: System, steps: seq<Step>)
    requires env.setup.Ok() && Stranded(env, sys)
    ensures Stranded(env, RunFrom(env, sys, steps))
  {
    if steps != [] {
      StrandedForever(env, sys, steps[..|steps| - 1]);
      StrandedStep(env, RunFrom(env, sys, steps[..|steps| - 1]), steps[|steps| - 1]);
    }
  }

  /** Undoing a TakeControl strands the user. */
  lemma UndoneStrands(env: Env, sys: System, step: Step)
    requires env.setup.Ok() && Safe(env, sys) && Undone(sys, step)
    ensures Stranded(env, Next(env, sys, step))
  {
    StepKeepsSafe(env, sys, step);
    TokenLossIff(env, sys, step);
    DispatchTokens(env.hash, sys.client, Arrival(sys.s2c[0], step.full, step.writeFails));
  }

  lemma {:induction false} StrandedOn(env: Env, st: nat -> System, act: nat -> Step, n: nat, m: nat)
    requires env.setup.Ok() && IsTrace(env, st, act) && n <= m && Stranded(env, st(n))
    ensures Stranded(env, st(m))
    decreases m - n
  {
    if n < m {
      StrandedOn(env, st, act, n, m - 1);
      assert Follows(env, st, act, m - 1);
      StrandedStep(env, st(m - 1), act(m - 1));
    }
  }

  /** From `n` on the Mac gets control. */
  ghost predicate ReturnsFrom(st: nat -> System, n: nat) {
    exists m: nat :: n <= m && !Remote(st(m))
  }

  lemma UndoneForGood(env: Env, st: nat -> System, act: nat -> Step, n: nat)
    requires env.setup.Ok() && IsTrace(env, st, act) && UndoneAt(st, act, n)
    requires forall i: nat :: i < n ==> !UndoneAt(st, act, i)
    ensures !ReturnsFrom(st, n + 1)
  {
    TraceLive(env, st, act, n);
    assert Follows(env, st, act, n);
    UndoneStrands(env, st(n), act(n));
    forall m: nat | n + 1 <= m ensures Remote(st(m)) {
      StrandedOn(env, st, act, n + 1, m);
    }
  }

  lemma {:induction false} NeverUndone(env: Env, st: nat -> System, act: nat -> Step, n: nat)
    requires env.setup.Ok() && IsTrace(env, st, act) && forall i: nat :: ReturnsFrom(st, i)
    ensures forall i: nat :: i < n ==> !UndoneAt(st, act, i)
  {
    if n > 0 {
      NeverUndone(env, st, act, n - 1);
      assert ReturnsFrom(st, n);
      if UndoneAt(st, act, n - 1) {
        UndoneForGood(env, st, act, n - 1);
      }
    }
  }

  /** Exactly when: on a fair run without drops the Mac gets control back from
      every moment on if and only if no TakeControl is undone. */
  lemma ControlReturnsIff(env: Env, st: nat -> System, act: nat -> Step)
    requires env.setup.Ok() && IsTrace(env, st, act) && Fair(st, act)
    ensures (forall n: nat :: ReturnsFrom(st, n)) <==> NoneUndone(st, act)
  {
    if NoneUndone(st, act) {
      forall n: nat ensures ReturnsFrom(st, n) {
        var m := ControlReturns(env, st, act, n);
      }
    } else if forall n: nat :: ReturnsFrom(st, n) {
      var n: nat :| UndoneAt(st, act, n);
      NeverUndone(env, st, act, n + 1);
    }
  }

  lemma RunFromOne(env: Env, sys: System, step: Step)
    requires env.setup.Ok()
    ensures RunFrom(env, sys, [step]) == Next(env, sys, step)
  {
    assert [step][..0] == [] && RunFrom(env, sys, []) == sys;
  }

  /** One lost frame is enough: crossing at an edge while the queue is full. */
  lemma StrandedIsReachable(env: Env, x: int32, y: int32, nowMs: uint64)
    requires env.setup.Ok() && EdgePoint(env.setup, x, y)
    ensures Stranded(env, RunAll(env, [LocalEvent(CursorAt(x, y), nowMs)] + [BrainActs(true)]))
  {
    var cross := LocalEvent(CursorAt(x, y), nowMs);
    var sys := Init(env);
    RunFromConcat(env, sys, [cross], [BrainActs(true)]);
    RunFromOne(env, sys, cross);
    OneOwner(env, []);
    OneOwner(env, [cross] + [BrainActs(true)]);
    EntryIff(env.setup, sys.core, x, y, nowMs);
    StepShape(env.setup, sys.core, Source(CursorAt(x, y)), nowMs);
    RunFromOne(env, Next(env, sys, cross), BrainActs(true));
    TakesOne(TakeControl(ClampToUint16(y)));
  }

  /** What has to be finished before the next step home. */
  function Chores(sys: System): nat {
    |sys.pending| + (if sys.calls != [] then 1 else 0) + if sys.leaving then 1 else 0
  }

  /** A way home, built along the rank. */
  lemma {:induction false} WayHome(env: Env, sys: System) returns (steps: seq<Step>)
    requires env.setup.Ok() && (Remote(sys) ==> Live(env, sys))
    ensures !Remote(RunFrom(env, sys, steps))
    decreases Phase(sys), Ahead(sys), Chores(sys)
  {
    if !Remote(sys) {
      return [];
    }
    var step :=
      if sys.leaving then WatcherClears
      else if Busy(sys) then BrainActs(false)
      else if Phase(sys) == 3 then ClientReads(false, false)
      else if Phase(sys) == 2 then WatcherTick(0, 0, Accepted)
      else ServerReads(0, false);
    RankFalls(env, sys, step);
    var rest := WayHome(env, Next(env, sys, step));
    RunFromConcat(env, sys, [step], rest);
    RunFromOne(env, sys, step);
    steps := [step] + rest;
  }

  /** With the watcher ended, a token on its way back still gets there. */
  lemma {:induction false} LastWayHome(env: Env, sys: System) returns (steps: seq<Step>)
    requires env.setup.Ok() && Safe(env, sys) && Gives(sys.client.out) > 0
    ensures !Remote(RunFrom(env, sys, steps))
    decreases Remote(sys), FirstGive(sys.client.out), Chores(sys)
  {
    if !Remote(sys) {
      return [];
    }
    var step := if Busy(sys) then BrainActs(false) else ServerReads(0, false);
    StepKeepsSafe(env, sys, step);
    LastStep(env, sys, step);
    var sys' := Next(env, sys, step);
    var rest := [];
    if Remote(sys') {
      rest := LastWayHome(env, sys');
    }
    RunFromConcat(env, sys, [step], rest);
    RunFromOne(env, sys, step);
    steps := [step] + rest;
  }

  lemma LastStep(env: Env, sys: System, step: Step)
    requires env.setup.Ok() && Safe(env, sys) && Gives(sys.client.out) > 0 && Remote(sys)
    requires step == if Busy(sys) then BrainActs(false) else ServerReads(0, false)
    ensures var sys' := Next(env, sys, step);
      Remote(sys') ==>
        && Gives(sys'.client.out) > 0 && FirstGive(sys'.client.out) <= FirstGive(sys.client.out)
        && (FirstGive(sys'.client.out) == FirstGive(sys.client.out) ==> Chores(sys') < Chores(sys))
  {
    if !Busy(sys) && sys.client.out[0].ReleaseControl? {
      var rest := sys.(client := sys.client.(out := sys.client.out[1..]));
      TurnRank(env, rest, WireMessage(sys.client.out[0]), 0);
    }
  }

  /** In any run, drops included: the Mac can still get control back if and only
      if it has control, or control is on its way back, or the token is elsewhere
      and the watcher still runs. */
  lemma CanReturnIffTokenLeft(env: Env, history: seq<Step>)
    requires env.setup.Ok()
    ensures var sys := RunAll(env, history);
      (exists steps :: !Remote(RunFrom(env, sys, steps))) <==>
        !Remote(sys) || Gives(sys.client.out) == 1 || (Tokens(sys) == 1 && sys.watching)
  {
    OneOwner(env, history);
    var sys := RunAll(env, history);
    if !Remote(sys) || (Tokens(sys) == 1 && sys.watching) {
      var steps := WayHome(env, sys);
    } else if Gives(sys.client.out) == 1 {
      var steps := LastWayHome(env, sys);
    } else {
      forall steps ensures Remote(RunFrom(env, sys, steps)) {
        StrandedForever(env, sys, steps);
      }
    }
  }

  // ----- dropped releases -----

  /** Of a drain's releases the surviving ones take effect, and no others. */
  lemma {:induction false} SurvivingReleases(held: set<uint16>, hids: seq<uint16>, lost: set<nat>, k: uint16)
    ensures k in FoldKeys(held, Survivors(Releases(hids), lost)) <==>
      k in held && forall i: nat :: i < |hids| && i !in lost ==> hids[i] != k
  {
    if hids != [] {
      var n: nat := |hids| - 1;
      var kept := Survivors(Releases(hids[..n]), lost);
      assert Releases(hids)[..n] == Releases(hids[..n]);
      SurvivingReleases(held, hids[..n], lost, k);
      FoldSnoc(held, kept, UpOf(hids[n]));
      NothingAppended(kept);
      assert forall i: nat :: i < n ==> hids[..n][i] == hids[i];
    }
  }

  /** A drain leaves nothing held exactly when none of its releases is lost. */
  lemma DrainIsCompleteIff(held: set<uint16>, lost: set<nat>)
    ensures FoldKeys(held, Survivors(Releases(Ascending(held)), lost)) == {} <==>
      forall i: nat :: i < |Ascending(held)| ==> i !in lost
  {
    var hids := Ascending(held);
    var left := FoldKeys(held, Survivors(Releases(hids), lost));
    forall k: uint16 ensures k in left <==> k in held && forall i: nat :: i < |hids| && i !in lost ==> hids[i] != k {
      SurvivingReleases(held, hids, lost, k);
    }
    if forall i: nat :: i < |hids| ==> i !in lost {
      NoneLost(Releases(hids), lost);
      FoldReleases(held, hids);
    } else {
      var i: nat :| i < |hids| && i in lost;
      assert hids[i] in Elements(hids);
      assert hids[i] in left;
    }
  }
}
