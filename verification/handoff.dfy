/** Both programs and the two streams between them: who owns the cursor, and
    which keys are down where. */
module Handoff {
  import opened Words
  import opened Wire
  import opened Platform
  import opened Convert
  import opened StuckKeys
  import opened Edge
  import opened Brain
  import opened BrainRuns
  import opened Clipboard
  import opened Injector
  import opened CursorWatch

  /** Both programs between two atomic actions.

      The server: a turn of the brain takes effect on `core` at once, in the
      tracker's lock; `pending` are the frames it still has to enqueue one by one,
      and `calls` the cursor calls that end it, after which `swallow` and `hidden`
      (hides minus shows) have caught up with `core`. A disconnect drain takes the
      held keys in the same lock; `drain` are the releases it still has to push.
      `late` are keys whose drained release went out after the user had pressed
      them again, `orphans` keys whose drained release went out before the press
      it was to undo.

      `s2c` is everything between the server's outbound queue and the client's
      dispatcher, `client.out` everything on its way back.

      The client: `leaving` while the watcher has sent ReleaseControl but not yet
      cleared the active flag, `watching` until it meets a closed queue. */
  datatype System = System(
    core: Core, pending: seq<Message>, calls: seq<SinkCall>, swallow: bool, hidden: int,
    drain: seq<uint16>, late: set<uint16>, orphans: set<uint16>,
    s2c: seq<Message>, client: Client, leaving: bool, watching: bool)

  datatype Env = Env(setup: Setup, hash: bytes -> Hash)

  /** One scheduling decision. `full` says that a send meets a full bounded
      queue, which drops the message being sent. The disconnect drain takes the
      held keys at once and pushes their releases one by one while the brain goes
      on; it may give up before it is through. */
  datatype Step =
    | LocalEvent(ev: SourceEvent, nowMs: uint64)
    | BrainActs(full: bool)
    | ServerReads(nowMs: uint64, full: bool)
    | ClientReads(full: bool, writeFails: bool)
    | WatcherTick(x: int32, y: int32, outcome: SendOutcome)
    | WatcherClears
    | ServerOther(m: Message)
    | ClientOther(m: Message)
    | DrainStarts
    | DrainSends
    | DrainStops

  /** No control or key frame is dropped in this step. */
  predicate Lossless(step: Step) {
    match step
    case BrainActs(full) => !full
    case ServerReads(_, full) => !full
    case WatcherTick(_, _, outcome) => outcome.Accepted?
    case DrainStops => false
    case _ => true
  }

  /** What heartbeats, latency probes and the clipboard put on the wire. */
  predicate IsOther(m: Message) {
    m.Heartbeat? || m.EchoPing? || m.EchoPong? || m.ClipboardText?
  }

  ghost function Init(env: Env): System
    requires env.setup.Ok()
  {
    System(NewCore(env.setup), [], [], false, 0, [], {}, {}, [], NEW_CLIENT, false, true)
  }

  /** The brain is in the middle of a turn and takes no further input. */
  predicate Busy(sys: System) {
    sys.pending != [] || sys.calls != []
  }

  /** The brain begins to handle one input. */
  ghost function BrainTurn(env: Env, sys: System, input: BrainInput, nowMs: uint64): System
    requires env.setup.Ok()
  {
    StartTurn(sys, BrainStep(env.setup, sys.core, input, nowMs))
  }

  function StartTurn(sys: System, o: Out): System {
    sys.(core := o.core, pending := o.sent, calls := o.sink,
         late := sys.late - KeysNamed(o.sent), orphans := sys.orphans - KeysNamed(o.sent))
  }

  function KeysNamed(msgs: seq<Message>): set<uint16> {
    set m | m in msgs && m.KeyEvent? :: m.hid
  }

  function UpOf(hid: uint16): Message {
    KeyEvent(hid, KEY_UP, 0)
  }

  /** The presses the brain has tracked and not yet enqueued. */
  function Unsent(sys: System): set<uint16> {
    FoldKeys({}, sys.pending)
  }

  /** The brain enqueues the next frame of its turn, or ends it. */
  function Act(sys: System, full: bool): System {
    if sys.pending == [] then
      sys.(calls := [], swallow := sys.core.swallow, hidden := sys.hidden + HideBalance(sys.calls))
    else
      sys.(pending := sys.pending[1..], s2c := if full then sys.s2c else sys.s2c + [sys.pending[0]])
  }

  /** The drain pushes the release of `k`. */
  function PushRelease(sys: System, k: uint16): System {
    sys.(s2c := sys.s2c + [UpOf(k)],
         late := if k in sys.core.held && k !in Unsent(sys) then sys.late + {k} else sys.late,
         orphans := if k in Unsent(sys) && k !in sys.core.held then sys.orphans + {k} else sys.orphans - {k})
  }

  function Tick(sys: System, x: int32, y: int32, outcome: SendOutcome): System {
    if sys.leaving || !sys.watching || !Leaves(sys.client, x) then sys
    else if outcome.Closed? then sys.(watching := false)
    else sys.(client := GivesBack(sys.client, y, outcome), leaving := true)
  }

  /** The server's reader hands a ReleaseControl to the brain, which takes it
      when it is not busy, and answers latency probes itself. */
  ghost function Read(env: Env, sys: System, nowMs: uint64, full: bool): System
    requires env.setup.Ok() && sys.client.out != []
  {
    var m := sys.client.out[0];
    var rest := sys.(client := sys.client.(out := sys.client.out[1..]));
    if m.ReleaseControl? then
      if full then rest else if Busy(sys) then sys else BrainTurn(env, rest, WireMessage(m), nowMs)
    else if m.EchoPing? && !full then rest.(s2c := rest.s2c + [EchoPong(m.tsNs)])
    else rest
  }

  /** The next state; a step that is not possible leaves the state alone. */
  ghost function Next(env: Env, sys: System, step: Step): System
    requires env.setup.Ok()
  {
    match step
    case LocalEvent(ev, nowMs) => if Busy(sys) then sys else BrainTurn(env, sys, Source(ev), nowMs)
    case BrainActs(full) => Act(sys, full)
    case ServerReads(nowMs, full) => if sys.client.out == [] then sys else Read(env, sys, nowMs, full)
    case ClientReads(full, writeFails) =>
      if sys.s2c == [] then sys
      else
        sys.(s2c := sys.s2c[1..],
             client := DispatchOne(env.hash, sys.client, Arrival(sys.s2c[0], full, writeFails)))
    case WatcherTick(x, y, outcome) => Tick(sys, x, y, outcome)
    case WatcherClears =>
      if sys.leaving then sys.(client := sys.client.(active := false), leaving := false) else sys
    case ServerOther(m) => if IsOther(m) then sys.(s2c := sys.s2c + [m]) else sys
    case ClientOther(m) => if IsOther(m) then sys.(client := sys.client.(out := sys.client.out + [m])) else sys
    case DrainStarts =>
      if sys.drain != [] then sys
      else sys.(core := sys.core.(held := {}), drain := Ascending(sys.core.held))
    case DrainSends => if sys.drain == [] then sys else PushRelease(sys, sys.drain[0]).(drain := sys.drain[1..])
    case DrainStops => sys.(drain := [])
  }

  ghost function RunFrom(env: Env, sys: System, steps: seq<Step>): System
    requires env.setup.Ok()
  {
    if steps == [] then sys
    else Next(env, RunFrom(env, sys, steps[..|steps| - 1]), steps[|steps| - 1])
  }

  ghost function RunAll(env: Env, steps: seq<Step>): System
    requires env.setup.Ok()
  {
    RunFrom(env, Init(env), steps)
  }

  lemma RunFromSnoc(env: Env, sys: System, steps: seq<Step>, step: Step)
    requires env.setup.Ok()
    ensures RunFrom(env, sys, steps + [step]) == Next(env, RunFrom(env, sys, steps), step)
  {
    assert (steps + [step])[..|steps|] == steps;
  }

  lemma {:induction false} RunFromConcat(env: Env, sys: System, a: seq<Step>, b: seq<Step>)
    requires env.setup.Ok()
    ensures RunFrom(env, sys, a + b) == RunFrom(env, RunFrom(env, sys, a), b)
  {
    if b == [] {
      assert a + b == a;
    } else {
      assert (a + b)[..|a + b| - 1] == a + b[..|b| - 1];
      RunFromConcat(env, sys, a, b[..|b| - 1]);
    }
  }

  /** A latency probe that comes to the front of either stream is taken off it and
      answered on the other with its timestamp, if there is room, ahead of anything
      sent later. */
  lemma ProbesAreAnswered(env: Env, sys: System, ts: uint64, nowMs: uint64, full: bool, writeFails: bool)
    requires env.setup.Ok()
    ensures sys.s2c != [] && sys.s2c[0] == EchoPing(ts) ==>
      var sys' := Next(env, sys, ClientReads(full, writeFails));
      && sys'.s2c == sys.s2c[1..]
      && sys'.client == sys.client.(out := sys.client.out + if full then [] else [EchoPong(ts)])
    ensures sys.client.out != [] && sys.client.out[0] == EchoPing(ts) ==>
      var sys' := Next(env, sys, ServerReads(nowMs, full));
      && sys'.client == sys.client.(out := sys.client.out[1..])
      && sys'.s2c == sys.s2c + if full then [] else [EchoPong(ts)]
  {
    NothingAppended(sys.s2c);
    NothingAppended(sys.client.out);
  }

  /** Heartbeats, probes and clipboard frames go out behind what was sent before. */
  lemma OthersGoOut(env: Env, sys: System, m: Message)
    requires env.setup.Ok() && IsOther(m)
    ensures Next(env, sys, ServerOther(m)) == sys.(s2c := sys.s2c + [m])
    ensures Next(env, sys, ClientOther(m)) == sys.(client := sys.client.(out := sys.client.out + [m]))
  {
  }

  // ----- the control token -----

  function Takes(msgs: seq<Message>): nat {
    if msgs == [] then 0 else (if msgs[0].TakeControl? then 1 else 0) + Takes(msgs[1..])
  }

  function Gives(msgs: seq<Message>): nat {
    if msgs == [] then 0 else (if msgs[0].ReleaseControl? then 1 else 0) + Gives(msgs[1..])
  }

  /** The client is active and its watcher is not on its way out. */
  predicate Drives(sys: System) {
    sys.client.active && !sys.leaving
  }

  /** TakeControl frames on their way, the client's active flag, ReleaseControl
      frames in flight. */
  function Tokens(sys: System): nat {
    Takes(sys.pending) + Takes(sys.s2c) + (if Drives(sys) then 1 else 0) + Gives(sys.client.out)
  }

  lemma {:induction false} TakesConcat(a: seq<Message>, b: seq<Message>)
    ensures Takes(a + b) == Takes(a) + Takes(b)
  {
    if a == [] {
      assert a + b == b;
    } else {
      assert (a + b)[1..] == a[1..] + b;
      TakesConcat(a[1..], b);
    }
  }

  lemma {:induction false} GivesConcat(a: seq<Message>, b: seq<Message>)
    ensures Gives(a + b) == Gives(a) + Gives(b)
  {
    if a == [] {
      assert a + b == b;
    } else {
      assert (a + b)[1..] == a[1..] + b;
      GivesConcat(a[1..], b);
    }
  }

  lemma TakesOne(m: Message)
    ensures Takes([m]) == if m.TakeControl? then 1 else 0
    ensures Gives([m]) == if m.ReleaseControl? then 1 else 0
  {
    assert [m][1..] == [];
  }

  lemma {:induction false} NoTakes(msgs: seq<Message>)
    requires forall i :: 0 <= i < |msgs| ==> !msgs[i].TakeControl?
    ensures Takes(msgs) == 0
  {
    if msgs != [] {
      NoTakes(msgs[1..]);
    }
  }

  /** A turn of the brain creates a token exactly on entry. */
  lemma TurnTakes(s: Setup, c: Core, input: BrainInput, nowMs: uint64, o: Out)
    requires s.Ok() && Shape(s, c, input, nowMs, o)
    ensures Takes(o.sent) == if IsEntry(s, c, input, nowMs) then 1 else 0
  {
    if IsEntry(s, c, input, nowMs) {
      TakesOne(o.sent[0]);
    } else {
      NoTakes(o.sent);
    }
  }

  // ----- what holds in every run, whatever the queues drop -----

  /** Key frames say Down or Up. */
  predicate Plain(msgs: seq<Message>) {
    forall i :: 0 <= i < |msgs| && msgs[i].KeyEvent? ==> msgs[i].state == KEY_DOWN || msgs[i].state == KEY_UP
  }

  /** A key the brain still has a frame for is not late; and unless that frame is
      a press, it is neither tracked nor orphaned. No orphan is tracked. */
  ghost predicate PendingFits(sys: System) {
    && (forall k: uint16 :: k in KeysNamed(sys.pending) ==>
          k !in sys.late && (k in Unsent(sys) || (k !in sys.core.held && k !in sys.orphans)))
    && (forall k: uint16 :: k in sys.orphans ==> k !in sys.core.held)
  }

  /** A drain pushes each key once; one that is still to come is no orphan, and if
      it is tracked, it was pressed again and is not late. */
  ghost predicate DrainFits(sys: System) {
    && StrictlyAscending(sys.drain)
    && forall k: uint16 :: k in sys.drain ==> k !in sys.orphans && (k in sys.core.held ==> k !in sys.late)
  }

  ghost predicate Safe(env: Env, sys: System)
    requires env.setup.Ok()
  {
    && Balanced(env.setup, sys.core)
    && sys.hidden + HideBalance(sys.calls) == Hidden(sys.core)
    && (sys.calls == [] ==> sys.swallow == sys.core.swallow)
    && KeysDown(sys.client.calls) == sys.client.held
    && Tokens(sys) <= Hidden(sys.core)
    && Plain(sys.pending) && PendingFits(sys) && DrainFits(sys)
  }

  /** What messages settle about each key they name, and leave about the others. */
  lemma {:induction false} NamedKeys(a: set<uint16>, b: set<uint16>, msgs: seq<Message>, k: uint16)
    requires Plain(msgs)
    ensures k in KeysNamed(msgs) ==> (k in FoldKeys(a, msgs) <==> k in FoldKeys(b, msgs))
    ensures k !in KeysNamed(msgs) ==> (k in FoldKeys(a, msgs) <==> k in a)
  {
    FoldMeaning(a, msgs, k);
    FoldMeaning(b, msgs, k);
    if k in KeysNamed(msgs) {
      var m :| m in msgs && m.KeyEvent? && m.hid == k;
      var i :| 0 <= i < |msgs| && msgs[i] == m;
      assert IsKeyOf(msgs[i], k);
    } else {
      forall i | 0 <= i < |msgs| ensures !IsKeyOf(msgs[i], k) {
        assert msgs[i] in msgs;
      }
    }
  }

  lemma TurnFits(s: Setup, sys: System, input: BrainInput, nowMs: uint64, o: Out)
    requires s.Ok() && Balanced(s, sys.core) && Shape(s, sys.core, input, nowMs, o)
    requires (forall k: uint16 :: k in sys.orphans ==> k !in sys.core.held) && DrainFits(sys)
    ensures Plain(o.sent) && PendingFits(StartTurn(sys, o)) && DrainFits(StartTurn(sys, o))
  {
    StepEffect(s, sys.core, input, nowMs, o);
    forall k: uint16
      ensures k in KeysNamed(o.sent) ==> (k in FoldKeys({}, o.sent) <==> k in o.core.held)
      ensures k !in KeysNamed(o.sent) ==> (k in sys.core.held <==> k in o.core.held)
    {
      NamedKeys({}, sys.core.held, o.sent, k);
      NamedKeys(sys.core.held, {}, o.sent, k);
    }
  }

  lemma TurnKeepsSafe(env: Env, sys: System, input: BrainInput, nowMs: uint64, spent: nat)
    requires env.setup.Ok() && !Busy(sys)
    requires Balanced(env.setup, sys.core) && sys.hidden == Hidden(sys.core) && sys.swallow == sys.core.swallow
    requires KeysDown(sys.client.calls) == sys.client.held
    requires Tokens(sys) + spent <= Hidden(sys.core) && PendingFits(sys) && DrainFits(sys)
    requires spent == if IsReturn(sys.core, input) then 1 else 0
    ensures Safe(env, BrainTurn(env, sys, input, nowMs))
  {
    StepShape(env.setup, sys.core, input, nowMs);
    SafeInTurn(env, sys, input, nowMs, spent, BrainStep(env.setup, sys.core, input, nowMs));
  }

  lemma SafeInTurn(env: Env, sys: System, input: BrainInput, nowMs: uint64, spent: nat, o: Out)
    requires env.setup.Ok() && !Busy(sys)
    requires Balanced(env.setup, sys.core) && sys.hidden == Hidden(sys.core) && sys.swallow == sys.core.swallow
    requires KeysDown(sys.client.calls) == sys.client.held
    requires Tokens(sys) + spent <= Hidden(sys.core) && PendingFits(sys) && DrainFits(sys)
    requires spent == if IsReturn(sys.core, input) then 1 else 0
    requires Shape(env.setup, sys.core, input, nowMs, o)
    ensures Safe(env, StartTurn(sys, o))
  {
    StepEffect(env.setup, sys.core, input, nowMs, o);
    TurnTakes(env.setup, sys.core, input, nowMs, o);
    TurnFits(env.setup, sys, input, nowMs, o);
  }

  lemma ActKeepsTokens(sys: System, full: bool)
    ensures Tokens(Act(sys, full)) ==
      Tokens(sys) - if full && sys.pending != [] && sys.pending[0].TakeControl? then 1 else 0
  {
    if sys.pending != [] {
      TakesConcat(sys.s2c, [sys.pending[0]]);
      TakesOne(sys.pending[0]);
    }
  }

  /** What the rest of the pending frames says about a key they still name. */
  lemma RestFits(pending: seq<Message>, k: uint16)
    requires pending != [] && Plain(pending)
    ensures Plain(pending[1..])
    ensures k in KeysNamed(pending[1..]) ==> k in KeysNamed(pending)
    ensures k in KeysNamed(pending[1..]) ==> (k in FoldKeys({}, pending[1..]) <==> k in FoldKeys({}, pending))
  {
    NamedKeys({}, TrackKey({}, pending[0]), pending[1..], k);
  }

  lemma ActKeepsSafe(env: Env, sys: System, full: bool)
    requires env.setup.Ok() && Safe(env, sys)
    ensures Safe(env, Act(sys, full))
  {
    ActKeepsTokens(sys, full);
    if sys.pending != [] {
      forall k: uint16
        ensures Plain(sys.pending[1..])
        ensures k in KeysNamed(sys.pending[1..]) ==>
          k in KeysNamed(sys.pending) && (k in FoldKeys({}, sys.pending[1..]) <==> k in FoldKeys({}, sys.pending))
      {
        RestFits(sys.pending, k);
      }
    }
  }

  lemma ReadKeepsSafe(env: Env, sys: System, nowMs: uint64, full: bool)
    requires env.setup.Ok() && Safe(env, sys) && sys.client.out != []
    ensures Safe(env, Read(env, sys, nowMs, full))
  {
    var m := sys.client.out[0];
    var rest := sys.(client := sys.client.(out := sys.client.out[1..]));
    if m.ReleaseControl? && !full && !Busy(sys) {
      TurnKeepsSafe(env, rest, WireMessage(m), nowMs, 1);
    } else if m.EchoPing? {
      TakesConcat(rest.s2c, [EchoPong(m.tsNs)]);
      TakesOne(EchoPong(m.tsNs));
    }
  }

  lemma ClientReadKeepsSafe(env: Env, sys: System, full: bool, writeFails: bool)
    requires env.setup.Ok() && Safe(env, sys) && sys.s2c != []
    ensures Safe(env, Next(env, sys, ClientReads(full, writeFails)))
  {
    var m := sys.s2c[0];
    DispatchKeepsTrack(env.hash, sys.client, Arrival(m, full, writeFails));
    if m.EchoPing? {
      GivesConcat(sys.client.out, [EchoPong(m.tsNs)]);
      TakesOne(EchoPong(m.tsNs));
    }
  }

  lemma DrainStepFits(env: Env, sys: System, step: Step)
    requires env.setup.Ok() && PendingFits(sys) && DrainFits(sys)
    requires step.DrainStarts? || step.DrainSends?
    ensures PendingFits(Next(env, sys, step)) && DrainFits(Next(env, sys, step))
  {
    if step.DrainStarts? {
      assert forall k :: k in Ascending(sys.core.held) <==> k in Elements(Ascending(sys.core.held));
    } else if sys.drain != [] {
      TailMembers(sys.drain);
    }
  }

  lemma DrainStepKeepsSafe(env: Env, sys: System, step: Step)
    requires env.setup.Ok() && Safe(env, sys)
    requires step.DrainStarts? || step.DrainSends?
    ensures Safe(env, Next(env, sys, step))
  {
    DrainStepFits(env, sys, step);
    if step.DrainSends? && sys.drain != [] {
      TakesConcat(sys.s2c, [UpOf(sys.drain[0])]);
      TakesOne(UpOf(sys.drain[0]));
    }
  }

  lemma TickKeepsSafe(env: Env, sys: System, x: int32, y: int32, outcome: SendOutcome)
    requires env.setup.Ok() && Safe(env, sys)
    ensures Safe(env, Tick(sys, x, y, outcome))
  {
    GivesConcat(sys.client.out, [ReleaseControl(ClampToUint16(y))]);
    TakesOne(ReleaseControl(ClampToUint16(y)));
  }

  lemma OtherKeepsSafe(env: Env, sys: System, m: Message)
    requires env.setup.Ok() && Safe(env, sys)
    ensures IsOther(m) ==> Safe(env, sys.(s2c := sys.s2c + [m]))
    ensures IsOther(m) ==> Safe(env, sys.(client := sys.client.(out := sys.client.out + [m])))
  {
    TakesConcat(sys.s2c, [m]);
    GivesConcat(sys.client.out, [m]);
    TakesOne(m);
  }

  lemma StepKeepsSafe(env: Env, sys: System, step: Step)
    requires env.setup.Ok() && Safe(env, sys)
    ensures Safe(env, Next(env, sys, step))
  {
    match step
    case LocalEvent(ev, nowMs) =>
      if !Busy(sys) {
        TurnKeepsSafe(env, sys, Source(ev), nowMs, 0);
      }
    case BrainActs(full) => ActKeepsSafe(env, sys, full);
    case ServerReads(nowMs, full) =>
      if sys.client.out != [] {
        ReadKeepsSafe(env, sys, nowMs, full);
      }
    case ClientReads(full, writeFails) =>
      if sys.s2c != [] {
        ClientReadKeepsSafe(env, sys, full, writeFails);
      }
    case WatcherTick(x, y, outcome) => TickKeepsSafe(env, sys, x, y, outcome);
    case WatcherClears =>
    case ServerOther(m) => OtherKeepsSafe(env, sys, m);
    case ClientOther(m) => OtherKeepsSafe(env, sys, m);
    case DrainStarts => DrainStepKeepsSafe(env, sys, step);
    case DrainSends => DrainStepKeepsSafe(env, sys, step);
    case DrainStops =>
  }

  /** In every run, even one whose queues drop messages: one owner at a time.
      There is at most one token, none in LocalActive; so the client drives only
      while the server is in RemoteActive, and, once the brain has finished the
      turn that got it there, swallows the Mac's input with its cursor hidden. */
  lemma {:induction false} OneOwner(env: Env, steps: seq<Step>)
    requires env.setup.Ok()
    ensures Safe(env, RunAll(env, steps))
    ensures var sys := RunAll(env, steps);
      Drives(sys) ==>
        && sys.core.sm.state.RemoteActive?
        && Takes(sys.pending) == 0 && Takes(sys.s2c) == 0 && Gives(sys.client.out) == 0
        && (sys.calls == [] ==> sys.swallow && sys.hidden == 1)
  {
    if steps != [] {
      OneOwner(env, steps[..|steps| - 1]);
      StepKeepsSafe(env, RunAll(env, steps[..|steps| - 1]), steps[|steps| - 1]);
    } else {
      assert KeysDown([]) == {};
    }
  }

  // ----- the keys down at the client -----

  /** The client's tracker once everything on its way has arrived. */
  function Arrived(sys: System): set<uint16> {
    FoldKeys(sys.client.held, sys.s2c + sys.pending)
  }

  /** The server's tracker without the keys a late release has let go, and with
      the keys that a release came too early for. */
  predicate Expected(sys: System, k: uint16) {
    (k in sys.core.held && k !in sys.late) || k in sys.orphans
  }

  /** What is expected will be down at the client, and what will be down there is
      expected, unless a drained release for it is still to come. */
  predicate MirroredAt(sys: System, k: uint16) {
    && (Expected(sys, k) ==> k in Arrived(sys))
    && (k in Arrived(sys) ==> Expected(sys, k) || k in sys.drain)
  }

  /** The step loses what the client should learn about `k`. Either it drops a
      frame that no later one overrules and that would have changed whether the
      client holds `k`, and no drained release settles `k` anyway, unless the user
      has pressed it again. Or a drain gives up on the release of `k`, which will
      be down at the client and is no longer tracked. */
  predicate LosesKey(sys: System, step: Step, k: uint16) {
    match step
    case BrainActs(full) =>
      && full && sys.pending != [] && k !in KeysNamed(sys.pending[1..])
      && (k in sys.drain ==> k in sys.core.held)
      && var before := FoldKeys(sys.client.held, sys.s2c);
      !(k in before <==> k in TrackKey(before, sys.pending[0]))
    case DrainStops => k in sys.drain && k in Arrived(sys) && k !in sys.core.held
    case _ => false
  }

  lemma TurnMirrors(env: Env, sys: System, input: BrainInput, nowMs: uint64, k: uint16)
    requires env.setup.Ok() && Balanced(env.setup, sys.core) && !Busy(sys) && MirroredAt(sys, k)
    requires PendingFits(sys) && DrainFits(sys)
    ensures MirroredAt(BrainTurn(env, sys, input, nowMs), k)
  {
    var o := BrainStep(env.setup, sys.core, input, nowMs);
    StepShape(env.setup, sys.core, input, nowMs);
    StepEffect(env.setup, sys.core, input, nowMs, o);
    TurnFits(env.setup, sys, input, nowMs, o);
    NothingAppended(sys.s2c);
    FoldConcat(sys.client.held, sys.s2c, o.sent);
    NamedKeys(Arrived(sys), sys.core.held, o.sent, k);
    NamedKeys(sys.core.held, sys.core.held, o.sent, k);
  }

  lemma ActMirrors(env: Env, sys: System, full: bool, k: uint16)
    requires env.setup.Ok() && Safe(env, sys) && MirroredAt(sys, k)
    ensures MirroredAt(Act(sys, full), k) <==> !LosesKey(sys, BrainActs(full), k)
  {
    if sys.pending != [] {
      var m, rest := sys.pending[0], sys.pending[1..];
      var before := FoldKeys(sys.client.held, sys.s2c);
      assert sys.pending == [m] + rest;
      assert sys.s2c + sys.pending == (sys.s2c + [m]) + rest;
      FoldConcat(sys.client.held, sys.s2c, rest);
      FoldConcat(sys.client.held, sys.s2c + [m], rest);
      FoldSnoc(sys.client.held, sys.s2c, m);
      RestFits(sys.pending, k);
      NamedKeys(before, TrackKey(before, m), rest, k);
      NamedKeys(TrackKey(before, m), before, rest, k);
    }
  }

  /** A message that is no key event does not disturb the mirror. */
  lemma OtherMirrors(sys: System, m: Message)
    requires !m.KeyEvent?
    ensures Arrived(sys.(s2c := sys.s2c + [m])) == Arrived(sys)
  {
    FoldSnoc(sys.client.held, sys.s2c, m);
    FoldConcat(sys.client.held, sys.s2c, sys.pending);
    FoldConcat(sys.client.held, sys.s2c + [m], sys.pending);
  }

  lemma ReadMirrors(env: Env, sys: System, nowMs: uint64, full: bool, k: uint16)
    requires env.setup.Ok() && Safe(env, sys) && MirroredAt(sys, k) && sys.client.out != []
    ensures MirroredAt(Read(env, sys, nowMs, full), k)
  {
    var m := sys.client.out[0];
    var rest := sys.(client := sys.client.(out := sys.client.out[1..]));
    if m.ReleaseControl? && !full && !Busy(sys) {
      TurnMirrors(env, rest, WireMessage(m), nowMs, k);
    } else if m.EchoPing? {
      OtherMirrors(rest, EchoPong(m.tsNs));
    }
  }

  lemma ClientReadMirrors(env: Env, sys: System, full: bool, writeFails: bool)
    requires env.setup.Ok() && sys.s2c != []
    ensures var sys' := Next(env, sys, ClientReads(full, writeFails));
      && Arrived(sys') == Arrived(sys) && sys'.core == sys.core
      && sys'.late == sys.late && sys'.orphans == sys.orphans && sys'.drain == sys.drain
  {
    assert (sys.s2c + sys.pending)[0] == sys.s2c[0];
    assert (sys.s2c + sys.pending)[1..] == sys.s2c[1..] + sys.pending;
  }

  lemma PushMirrors(env: Env, sys: System, j: uint16, k: uint16)
    requires env.setup.Ok() && Safe(env, sys)
    ensures var sys' := PushRelease(sys, j);
      if k == j then k in Arrived(sys') <==> Expected(sys', k)
      else (k in Arrived(sys') <==> k in Arrived(sys)) && (Expected(sys', k) <==> Expected(sys, k))
  {
    var before := FoldKeys(sys.client.held, sys.s2c);
    FoldSnoc(sys.client.held, sys.s2c, UpOf(j));
    FoldConcat(sys.client.held, sys.s2c, sys.pending);
    FoldConcat(sys.client.held, sys.s2c + [UpOf(j)], sys.pending);
    NamedKeys(before - {j}, {}, sys.pending, k);
    NamedKeys(before, {}, sys.pending, k);
    NamedKeys({}, {}, sys.pending, k);
  }

  lemma DrainStepMirrors(env: Env, sys: System, step: Step, k: uint16)
    requires env.setup.Ok() && Safe(env, sys) && MirroredAt(sys, k)
    requires step.DrainStarts? || step.DrainSends? || step.DrainStops?
    ensures MirroredAt(Next(env, sys, step), k) <==> !LosesKey(sys, step, k)
  {
    if step.DrainStarts? {
      assert k in Elements(Ascending(sys.core.held)) <==> k in Ascending(sys.core.held);
    } else if step.DrainSends? && sys.drain != [] {
      PushMirrors(env, sys, sys.drain[0], k);
      assert sys.drain == [sys.drain[0]] + sys.drain[1..];
    }
  }

  /** What neither sends a key frame nor touches the tracker leaves the mirror alone. */
  lemma PlainStepMirrors(env: Env, sys: System, step: Step, k: uint16)
    requires env.setup.Ok() && MirroredAt(sys, k)
    requires step.WatcherTick? || step.WatcherClears? || step.ServerOther? || step.ClientOther?
    ensures MirroredAt(Next(env, sys, step), k)
  {
    if step.ServerOther? && IsOther(step.m) {
      OtherMirrors(sys, step.m);
    }
  }

  /** Key by key and step by step: the mirror of `k` survives a step exactly when
      the step does not lose what the client should learn about `k`. */
  lemma KeyLossIff(env: Env, sys: System, step: Step, k: uint16)
    requires env.setup.Ok() && Safe(env, sys) && MirroredAt(sys, k)
    ensures MirroredAt(Next(env, sys, step), k) <==> !LosesKey(sys, step, k)
  {
    match step
    case LocalEvent(ev, nowMs) =>
      if !Busy(sys) {
        TurnMirrors(env, sys, Source(ev), nowMs, k);
      }
    case BrainActs(full) => ActMirrors(env, sys, full, k);
    case ServerReads(nowMs, full) =>
      if sys.client.out != [] {
        ReadMirrors(env, sys, nowMs, full, k);
      }
    case ClientReads(full, writeFails) =>
      if sys.s2c != [] {
        ClientReadMirrors(env, sys, full, writeFails);
      }
    case DrainStarts => DrainStepMirrors(env, sys, step, k);
    case DrainSends => DrainStepMirrors(env, sys, step, k);
    case DrainStops => DrainStepMirrors(env, sys, step, k);
    case _ => PlainStepMirrors(env, sys, step, k);
  }

  /** No step of a run loses what the client should learn about `k`. */
  ghost predicate KeepsKey(env: Env, steps: seq<Step>, k: uint16)
    requires env.setup.Ok()
  {
    forall i :: 0 <= i < |steps| ==> !LosesKey(RunAll(env, steps[..i]), steps[i], k)
  }

  /** So whatever else is dropped, such a key is down at the client, once all has
      arrived, exactly as expected. */
  lemma {:induction false} KeyMirrored(env: Env, steps: seq<Step>, k: uint16)
    requires env.setup.Ok() && KeepsKey(env, steps, k)
    ensures MirroredAt(RunAll(env, steps), k)
  {
    if steps != [] {
      var front := steps[..|steps| - 1];
      assert forall i :: 0 <= i < |front| ==> front[..i] == steps[..i] && front[i] == steps[i];
      KeyMirrored(env, front, k);
      OneOwner(env, front);
      KeyLossIff(env, RunAll(env, front), steps[|steps| - 1], k);
    } else {
      NothingAppended<Message>([]);
    }
  }

  // ----- what holds as long as nothing was dropped -----

  ghost predicate Mirrored(sys: System) {
    forall k: uint16 :: MirroredAt(sys, k)
  }

  ghost predicate Faithful(env: Env, sys: System)
    requires env.setup.Ok()
  {
    Safe(env, sys) && sys.watching && Mirrored(sys)
  }

  lemma StepKeepsFaithful(env: Env, sys: System, step: Step)
    requires env.setup.Ok() && Faithful(env, sys) && Lossless(step)
    ensures Faithful(env, Next(env, sys, step))
  {
    StepKeepsSafe(env, sys, step);
    forall k: uint16 ensures MirroredAt(Next(env, sys, step), k) {
      KeyLossIff(env, sys, step, k);
    }
  }

  predicate NothingLost(steps: seq<Step>) {
    forall i :: 0 <= i < |steps| ==> Lossless(steps[i])
  }

  predicate NoDrain(steps: seq<Step>) {
    forall i :: 0 <= i < |steps| ==> !steps[i].DrainStarts?
  }

  predicate Undrained(sys: System) {
    sys.drain == [] && sys.late == {} && sys.orphans == {}
  }

  lemma StaysUndrained(env: Env, sys: System, step: Step)
    requires env.setup.Ok() && Undrained(sys) && !step.DrainStarts?
    ensures Undrained(Next(env, sys, step))
  {
  }

  lemma {:induction false} DrainIdle(env: Env, steps: seq<Step>)
    requires env.setup.Ok() && NoDrain(steps)
    ensures Undrained(RunAll(env, steps))
  {
    if steps != [] {
      DrainIdle(env, steps[..|steps| - 1]);
      StaysUndrained(env, RunAll(env, steps[..|steps| - 1]), steps[|steps| - 1]);
    }
  }

  /** In every run without a drop the client's keys are the expected ones, even
      while a disconnect drain is under way. */
  lemma {:induction false} KeysMirrored(env: Env, steps: seq<Step>)
    requires env.setup.Ok() && NothingLost(steps)
    ensures Faithful(env, RunAll(env, steps))
  {
    if steps != [] {
      KeysMirrored(env, steps[..|steps| - 1]);
      StepKeepsFaithful(env, RunAll(env, steps[..|steps| - 1]), steps[|steps| - 1]);
    } else {
      OneOwner(env, steps);
      NothingAppended<Message>([]);
    }
  }

  /** Before a drain has started they are the server's. */
  lemma MirrorIsEqual(env: Env, steps: seq<Step>)
    requires env.setup.Ok() && NothingLost(steps) && NoDrain(steps)
    ensures Arrived(RunAll(env, steps)) == RunAll(env, steps).core.held
  {
    KeysMirrored(env, steps);
    DrainIdle(env, steps);
    var sys := RunAll(env, steps);
    forall k: uint16 ensures k in Arrived(sys) <==> k in sys.core.held {
      assert MirroredAt(sys, k);
    }
  }

  // ----- the account of the token -----

  lemma TurnKeepsTokens(env: Env, sys: System, input: BrainInput, nowMs: uint64)
    requires env.setup.Ok() && Balanced(env.setup, sys.core) && sys.pending == []
    ensures var sys' := BrainTurn(env, sys, input, nowMs);
      && Tokens(sys') == Tokens(sys) + (if IsEntry(env.setup, sys.core, input, nowMs) then 1 else 0)
      && Hidden(sys'.core) == Hidden(sys.core)
           + (if IsEntry(env.setup, sys.core, input, nowMs) then 1 else 0)
           - (if IsReturn(sys.core, input) then 1 else 0)
  {
    var o := BrainStep(env.setup, sys.core, input, nowMs);
    StepShape(env.setup, sys.core, input, nowMs);
    TurnTakes(env.setup, sys.core, input, nowMs, o);
  }

  /** The client handles a TakeControl that the watcher, on its way out, is about
      to undo. */
  predicate Overwritten(sys: System) {
    sys.leaving && sys.s2c != [] && sys.s2c[0].TakeControl?
  }

  predicate Undone(sys: System, step: Step) {
    step.ClientReads? && Overwritten(sys)
  }

  /** Does this step drop the control token? */
  predicate DropsToken(sys: System, step: Step) {
    match step
    case BrainActs(full) => full && sys.pending != [] && sys.pending[0].TakeControl?
    case ServerReads(_, full) => full && sys.client.out != [] && sys.client.out[0].ReleaseControl?
    case ClientReads(_, _) => Undone(sys, step)
    case WatcherTick(x, _, outcome) => sys.watching && outcome.Full? && Drives(sys) && x <= LEFT_EDGE_THRESHOLD
    case _ => false
  }

  lemma ReadTokens(env: Env, sys: System, nowMs: uint64, full: bool)
    requires env.setup.Ok() && Safe(env, sys) && sys.client.out != []
    ensures var sys' := Read(env, sys, nowMs, full);
      Hidden(sys'.core) - Tokens(sys') ==
        Hidden(sys.core) - Tokens(sys) + if DropsToken(sys, ServerReads(nowMs, full)) then 1 else 0
  {
    var m := sys.client.out[0];
    var rest := sys.(client := sys.client.(out := sys.client.out[1..]));
    if m.ReleaseControl? && !full && !Busy(sys) {
      TurnKeepsTokens(env, rest, WireMessage(m), nowMs);
    } else if m.EchoPing? {
      TakesConcat(rest.s2c, [EchoPong(m.tsNs)]);
      TakesOne(EchoPong(m.tsNs));
    }
  }

  lemma DispatchTokens(hash: bytes -> Hash, c: Client, a: Arrival)
    ensures DispatchOne(hash, c, a).active == (c.active || a.msg.TakeControl?)
    ensures Gives(DispatchOne(hash, c, a).out) == Gives(c.out)
  {
    if a.msg.EchoPing? {
      GivesConcat(c.out, [EchoPong(a.msg.tsNs)]);
      TakesOne(EchoPong(a.msg.tsNs));
    }
  }

  lemma ClientReadTokens(env: Env, sys: System, full: bool, writeFails: bool)
    requires env.setup.Ok() && Safe(env, sys) && sys.s2c != []
    ensures var sys' := Next(env, sys, ClientReads(full, writeFails));
      && sys'.core == sys.core
      && Tokens(sys') == Tokens(sys) - if Overwritten(sys) then 1 else 0
  {
    DispatchTokens(env.hash, sys.client, Arrival(sys.s2c[0], full, writeFails));
    assert sys.s2c[0].TakeControl? ==> Takes(sys.s2c) > 0 && Hidden(sys.core) <= 1;
  }

  lemma TickTokens(sys: System, x: int32, y: int32, outcome: SendOutcome)
    ensures Tokens(Tick(sys, x, y, outcome)) ==
      Tokens(sys) - if DropsToken(sys, WatcherTick(x, y, outcome)) then 1 else 0
  {
    GivesConcat(sys.client.out, [ReleaseControl(ClampToUint16(y))]);
    TakesOne(ReleaseControl(ClampToUint16(y)));
  }

  lemma OtherTokens(env: Env, sys: System, step: Step)
    requires env.setup.Ok()
    requires step.WatcherClears? || step.ServerOther? || step.ClientOther?
      || step.DrainStarts? || step.DrainSends? || step.DrainStops?
    ensures var sys' := Next(env, sys, step); Hidden(sys'.core) == Hidden(sys.core) && Tokens(sys') == Tokens(sys)
  {
    if step.ServerOther? {
      TakesConcat(sys.s2c, [step.m]);
      TakesOne(step.m);
    } else if step.ClientOther? {
      GivesConcat(sys.client.out, [step.m]);
      TakesOne(step.m);
    } else if step.DrainSends? && sys.drain != [] {
      TakesConcat(sys.s2c, [UpOf(sys.drain[0])]);
      TakesOne(UpOf(sys.drain[0]));
    }
  }

  /** The account of the token: a step loses it exactly when it drops a control
      frame, or handles a TakeControl that the watcher is about to undo. */
  lemma TokenLossIff(env: Env, sys: System, step: Step)
    requires env.setup.Ok() && Safe(env, sys)
    ensures var sys' := Next(env, sys, step);
      Hidden(sys'.core) - Tokens(sys') == Hidden(sys.core) - Tokens(sys) + if DropsToken(sys, step) then 1 else 0
  {
    match step
    case LocalEvent(ev, nowMs) =>
      if !Busy(sys) {
        TurnKeepsTokens(env, sys, Source(ev), nowMs);
      }
    case BrainActs(full) => ActKeepsTokens(sys, full);
    case ServerReads(nowMs, full) =>
      if sys.client.out != [] {
        ReadTokens(env, sys, nowMs, full);
      }
    case ClientReads(full, writeFails) =>
      if sys.s2c != [] {
        ClientReadTokens(env, sys, full, writeFails);
      }
    case WatcherTick(x, y, outcome) => TickTokens(sys, x, y, outcome);
    case _ => OtherTokens(env, sys, step);
  }

  ghost predicate DropsAt(env: Env, steps: seq<Step>, i: nat)
    requires env.setup.Ok() && i < |steps|
  {
    DropsToken(RunAll(env, steps[..i]), steps[i])
  }

  /** No step of a run drops the token. */
  ghost predicate KeepsToken(env: Env, steps: seq<Step>)
    requires env.setup.Ok()
  {
    forall i: nat :: i < |steps| ==> !DropsAt(env, steps, i)
  }

  lemma DropsAtFront(env: Env, steps: seq<Step>, i: nat)
    requires env.setup.Ok() && i < |steps| - 1
    ensures DropsAt(env, steps[..|steps| - 1], i) <==> DropsAt(env, steps, i)
  {
    assert steps[..|steps| - 1][..i] == steps[..i];
  }

  lemma KeepsTokenSnoc(env: Env, steps: seq<Step>)
    requires env.setup.Ok() && steps != []
    ensures var front := steps[..|steps| - 1];
      KeepsToken(env, steps) <==> KeepsToken(env, front) && !DropsToken(RunAll(env, front), steps[|steps| - 1])
  {
    var front := steps[..|steps| - 1];
    forall i: nat | i < |front| ensures DropsAt(env, front, i) <==> DropsAt(env, steps, i) {
      DropsAtFront(env, steps, i);
    }
    assert DropsAt(env, steps, |steps| - 1) <==> DropsToken(RunAll(env, front), steps[|steps| - 1]);
  }

  /** So over every run, drops included: there is a token in RemoteActive and none
      in LocalActive, if and only if no step dropped it; once lost, it is lost for
      good. */
  lemma {:induction false} TokenConservedIff(env: Env, steps: seq<Step>)
    requires env.setup.Ok()
    ensures var sys := RunAll(env, steps); Tokens(sys) == Hidden(sys.core) <==> KeepsToken(env, steps)
  {
    if steps != [] {
      var front := steps[..|steps| - 1];
      TokenConservedIff(env, front);
      OneOwner(env, front);
      OneOwner(env, steps);
      TokenLossIff(env, RunAll(env, front), steps[|steps| - 1]);
      KeepsTokenSnoc(env, steps);
    }
  }

  /** In every run without a drop: the client's keys are the expected ones, and
      the token is conserved if and only if no TakeControl was undone. */
  lemma TokenAndMirror(env: Env, steps: seq<Step>)
    requires env.setup.Ok() && NothingLost(steps)
    ensures var sys := RunAll(env, steps);
      && Faithful(env, sys)
      && (Tokens(sys) == Hidden(sys.core) <==>
          forall i :: 0 <= i < |steps| ==> !Undone(RunAll(env, steps[..i]), steps[i]))
  {
    KeysMirrored(env, steps);
    TokenConservedIff(env, steps);
    forall i: nat | i < |steps|
      ensures DropsAt(env, steps, i) <==> Undone(RunAll(env, steps[..i]), steps[i])
    {
      assert Lossless(steps[i]);
    }
  }

  /** No stuck keys after any number of crossings: with the Mac in control and
      everything arrived, no key is down at the client's sink but orphans and
      those whose release a disconnect drain is still about to push; so none
      unless there was such a drain. */
  lemma NoStuckKeys(env: Env, steps: seq<Step>)
    requires env.setup.Ok() && NothingLost(steps)
    ensures var sys := RunAll(env, steps);
      sys.core.sm.state.LocalActive? && sys.s2c == [] && sys.pending == [] ==>
        && !Drives(sys) && sys.client.held == KeysDown(sys.client.calls)
        && (forall k :: k in KeysDown(sys.client.calls) ==> k in sys.drain || k in sys.orphans)
        && (sys.drain == [] ==> KeysDown(sys.client.calls) == sys.orphans)
        && (NoDrain(steps) ==> KeysDown(sys.client.calls) == {})
  {
    KeysMirrored(env, steps);
    var sys := RunAll(env, steps);
    if sys.core.sm.state.LocalActive? && sys.s2c == [] && sys.pending == [] {
      HeldAtRest(env, sys);
    }
    if NoDrain(steps) {
      DrainIdle(env, steps);
    }
  }

  lemma HeldAtRest(env: Env, sys: System)
    requires env.setup.Ok() && Faithful(env, sys)
    requires sys.core.sm.state.LocalActive? && sys.s2c == [] && sys.pending == []
    ensures forall k :: k in sys.client.held ==> k in sys.drain || k in sys.orphans
    ensures sys.drain == [] ==> sys.client.held == sys.orphans
  {
    NothingAppended<Message>([]);
    forall k: uint16 ensures k in sys.drain || (k in sys.client.held <==> k in sys.orphans) {
      assert MirroredAt(sys, k);
    }
  }
}
