/** What two machines that forward each other's clipboards send: how often one
    copy, where every payload comes from, and when they come to rest. */
module EchoLedger {
  import opened Words
  import opened Clipboard
  import opened Echo

  lemma {:induction false} OwnEventsSnoc(hash: Text -> Hash, g: Option<Hash>, es: seq<Event>, e: Event)
    ensures OwnEvents(hash, g, es + [e]) == OwnEvents(hash, g, es) + OwnEvents(hash, g, [e])
  {
    if es == [] {
      assert [] + [e] == [e];
    } else {
      assert (es + [e])[1..] == es[1..] + [e];
      OwnEventsSnoc(hash, g, es[1..], e);
    }
  }

  lemma OwnEvent(hash: Text -> Hash, g: Option<Hash>, e: Event)
    ensures OwnEvents(hash, g, [e]) == if e.remote || IsEcho(hash, g, e.text) then 0 else 1
  {
    assert [e][1..] == [];
  }

  // ----- one copy -----

  /** Reporting neither adds to what is waiting nor takes from it. */
  lemma ReportKeepsWaiting(hash: Text -> Hash, p: Peer, g: Option<Hash>)
    ensures Waiting(hash, Look(p), g) == Waiting(hash, p, g)
    ensures Waiting(hash, Poll(p), g) == Waiting(hash, p, g)
  {
    if p.clip.Some? {
      OwnEventsSnoc(hash, g, p.events, p.clip.value);
      OwnEvent(hash, g, p.clip.value);
    }
  }

  /** A check sends what it takes from what is waiting. */
  lemma CheckKeepsWaiting(hash: Text -> Hash, p: Peer, sent: seq<Event>)
    ensures var (q, es) := Check(hash, p);
      Waiting(hash, q, q.guard) + OwnEvents(hash, None, es + sent) ==
        Waiting(hash, p, p.guard) + OwnEvents(hash, None, sent)
  {
    var (q, es) := Check(hash, p);
    if es == [] {
      assert es + sent == sent;
    } else {
      assert (es + sent)[1..] == sent;
    }
  }

  lemma {:induction false} ForwardsAtMost(hash: Text -> Hash, p: Peer, ls: seq<Local>)
    ensures OwnEvents(hash, None, Forwarded(hash, p, ls)) <= Waiting(hash, p, p.guard)
    decreases ls
  {
    if ls != [] {
      ReportKeepsWaiting(hash, p, p.guard);
      match ls[0]
      case LookOnce => ForwardsAtMost(hash, Look(p), ls[1..]);
      case PollOnce => ForwardsAtMost(hash, Poll(p), ls[1..]);
      case CheckOnce =>
        CheckKeepsWaiting(hash, p, Forwarded(hash, Check(hash, p).0, ls[1..]));
        ForwardsAtMost(hash, Check(hash, p).0, ls[1..]);
    }
  }

  /** What a poll in progress is worth, if anything is left to report after it. */
  function PollWork(p: Peer): nat {
    if p.looked == Some(true) then 2 else if p.looked.Some? && p.changes > 0 then 1 else 0
  }

  /** Reporting everything and checking every report sends all of it. */
  lemma {:induction false} ForwardsAll(hash: Text -> Hash, p: Peer) returns (ls: seq<Local>)
    ensures OwnEvents(hash, None, Forwarded(hash, p, ls)) == Waiting(hash, p, p.guard)
    decreases 3 * p.changes + PollWork(p) + |p.events|
  {
    ReportKeepsWaiting(hash, p, p.guard);
    if p.events != [] {
      var rest := ForwardsAll(hash, Check(hash, p).0);
      CheckKeepsWaiting(hash, p, Forwarded(hash, Check(hash, p).0, rest));
      ls := [CheckOnce] + rest;
      assert ls[1..] == rest;
    } else if Due(p) == 0 {
      ls := [];
    } else if p.platform.Mac? && p.looked.None? {
      var rest := ForwardsAll(hash, Look(p));
      ls := [LookOnce] + rest;
      assert ls[1..] == rest;
    } else {
      var rest := ForwardsAll(hash, Poll(p));
      ls := [PollOnce] + rest;
      assert ls[1..] == rest;
    }
  }

  /** A text the user copies now adds at most one payload as long as nothing is
      received: it is an echo itself, or no report of an earlier change will show
      it, or those reports would have caused payloads anyway. */
  predicate OnceByOwnLoops(hash: Text -> Hash, p: Peer, t: Text) {
    || IsEcho(hash, p.guard, t)
    || Overtaken(p) == 0
    || (OwnText(p) && !Echoes(hash, p, p.clip.value))
  }

  /** However the machine's own two loops are scheduled, with the guard as it is,
      exactly then. */
  lemma OnceByOwnLoopsIff(hash: Text -> Hash, p: Peer, t: Text)
    ensures OnceByOwnLoops(hash, p, t) <==>
      forall ls :: OwnEvents(hash, None, Forwarded(hash, UserCopy(p, Some(t)), ls)) <= Waiting(hash, p, p.guard) + 1
  {
    var q := UserCopy(p, Some(t));
    if OnceByOwnLoops(hash, p, t) {
      forall ls ensures OwnEvents(hash, None, Forwarded(hash, q, ls)) <= Waiting(hash, p, p.guard) + 1 {
        ForwardsAtMost(hash, q, ls);
      }
    } else {
      var ls := ForwardsAll(hash, q);
    }
  }

  // ----- one copy, and whatever is received meanwhile -----

  /** What can happen at a machine: its own loops, and either half of receiving
      any text. */
  datatype Doing = Loop(l: Local) | TakesIn(t: Text) | FinishesIn

  function Do(hash: Text -> Hash, p: Peer, d: Doing): (Peer, seq<Event>) {
    match d
    case Loop(LookOnce) => (Look(p), [])
    case Loop(PollOnce) => (Poll(p), [])
    case Loop(CheckOnce) => Check(hash, p)
    case TakesIn(t) => (if p.half.None? then Take(hash, p, t) else p, [])
    case FinishesIn => (if p.half.Some? then Finish(hash, p) else p, [])
  }

  function SentBy(hash: Text -> Hash, p: Peer, ds: seq<Doing>): seq<Event>
    decreases ds
  {
    if ds == [] then [] else Do(hash, p, ds[0]).1 + SentBy(hash, Do(hash, p, ds[0]).0, ds[1..])
  }

  lemma CheckSpends(hash: Text -> Hash, p: Peer, sent: seq<Event>)
    ensures var (q, es) := Check(hash, p);
      Waiting(hash, q, None) + OwnEvents(hash, None, es + sent) <= Waiting(hash, p, None) + OwnEvents(hash, None, sent)
  {
    var (q, es) := Check(hash, p);
    if es == [] {
      assert es + sent == sent;
    } else {
      assert (es + sent)[1..] == sent;
    }
  }

  lemma ReceiveSpends(hash: Text -> Hash, p: Peer, t: Text)
    ensures Waiting(hash, Take(hash, p, t), None) <= Waiting(hash, p, None)
    ensures p.half.Some? ==> Waiting(hash, Finish(hash, p), None) <= Waiting(hash, p, None)
  {
  }

  /** Nothing but a copy adds to what a machine could still send. */
  lemma DoingSpends(hash: Text -> Hash, p: Peer, d: Doing, sent: seq<Event>)
    ensures var (q, es) := Do(hash, p, d);
      Waiting(hash, q, None) + OwnEvents(hash, None, es + sent) <= Waiting(hash, p, None) + OwnEvents(hash, None, sent)
  {
    assert [] + sent == sent;
    match d
    case Loop(CheckOnce) => CheckSpends(hash, p, sent);
    case Loop(_) => ReportKeepsWaiting(hash, p, None);
    case TakesIn(t) => ReceiveSpends(hash, p, t);
    case FinishesIn => ReceiveSpends(hash, p, []);
  }

  lemma {:induction false} SendsAtMost(hash: Text -> Hash, p: Peer, ds: seq<Doing>)
    ensures OwnEvents(hash, None, SentBy(hash, p, ds)) <= Waiting(hash, p, None)
    decreases ds
  {
    if ds != [] {
      var q := Do(hash, p, ds[0]).0;
      SendsAtMost(hash, q, ds[1..]);
      DoingSpends(hash, p, ds[0], SentBy(hash, q, ds[1..]));
    }
  }

  lemma DoFirst(hash: Text -> Hash, p: Peer, d: Doing, ds: seq<Doing>)
    ensures SentBy(hash, p, [d] + ds) == Do(hash, p, d).1 + SentBy(hash, Do(hash, p, d).0, ds)
  {
    assert ([d] + ds)[1..] == ds;
  }

  /** Receiving a text whole, after what is half way in. */
  function TakenWhole(hash: Text -> Hash, p: Peer, t: Text): Peer {
    Do(hash, Do(hash, Do(hash, p, FinishesIn).0, TakesIn(t)).0, FinishesIn).0
  }

  lemma TakesWhole(hash: Text -> Hash, p: Peer, t: Text, ds: seq<Doing>)
    ensures SentBy(hash, p, [FinishesIn] + ([TakesIn(t)] + ([FinishesIn] + ds))) ==
      SentBy(hash, TakenWhole(hash, p, t), ds)
    ensures TakenWhole(hash, p, t).guard == Some(hash(t)) && TakenWhole(hash, p, t).events == p.events
    ensures !OwnText(TakenWhole(hash, p, t))
  {
    var p1 := Do(hash, p, FinishesIn).0;
    var p2 := Do(hash, p1, TakesIn(t)).0;
    DoFirst(hash, p, FinishesIn, [TakesIn(t)] + ([FinishesIn] + ds));
    DoFirst(hash, p1, TakesIn(t), [FinishesIn] + ds);
    DoFirst(hash, p2, FinishesIn, ds);
  }

  /** With everything reported, each own text goes out in its turn, after a text of
      another hash has come in if need be. */
  lemma {:induction false} ChecksSendAll(hash: Text -> Hash, p: Peer, u: Text, v: Text) returns (ds: seq<Doing>)
    requires hash(u) != hash(v) && (!OwnText(p) || Due(p) == 0)
    ensures OwnEvents(hash, None, SentBy(hash, p, ds)) == OwnEvents(hash, None, p.events)
    decreases |p.events|
  {
    if p.events == [] {
      return [];
    }
    var echo, t := Echoes(hash, p, p.events[0]), if p.guard == Some(hash(u)) then v else u;
    var q := if echo then TakenWhole(hash, p, t) else p;
    TakesWhole(hash, p, t, []);
    var (q', es) := Check(hash, q);
    var rest := ChecksSendAll(hash, q', u, v);
    ds := [Loop(CheckOnce)] + rest;
    DoFirst(hash, q, Loop(CheckOnce), rest);
    assert es == [p.events[0]] && (es + SentBy(hash, q', rest))[1..] == SentBy(hash, q', rest);
    if echo {
      TakesWhole(hash, p, t, ds);
      ds := [FinishesIn] + ([TakesIn(t)] + ([FinishesIn] + ds));
    }
  }

  /** Reporting everything first, a machine can be made to send all its own texts. */
  lemma {:induction false} SendsAll(hash: Text -> Hash, p: Peer, u: Text, v: Text) returns (ds: seq<Doing>)
    requires hash(u) != hash(v)
    ensures OwnEvents(hash, None, SentBy(hash, p, ds)) == Waiting(hash, p, None)
    decreases 3 * p.changes + PollWork(p)
  {
    ReportKeepsWaiting(hash, p, None);
    if Due(p) == 0 {
      ds := ChecksSendAll(hash, p, u, v);
    } else {
      var l := if p.platform.Mac? && p.looked.None? then LookOnce else PollOnce;
      var q := Do(hash, p, Loop(l)).0;
      var rest := SendsAll(hash, q, u, v);
      DoFirst(hash, p, Loop(l), rest);
      assert [] + SentBy(hash, q, rest) == SentBy(hash, q, rest);
      ds := [Loop(l)] + rest;
    }
  }

  /** The further payloads a text copied now can cause: one for each report of an
      earlier change that will show it, unless those showed an own text before. */
  function Repeated(p: Peer): nat {
    if OwnText(p) then 0 else Overtaken(p)
  }

  /** Under every continuation, receives included, a copy adds at most one to the
      payloads its machine could still send, if and only if no report of an
      earlier change will show it, or those reports were of an own text already.
      All it takes of the hash is that it tells some two texts apart. */
  lemma CopySentOnceIff(hash: Text -> Hash, p: Peer, t: Text, u: Text, v: Text)
    requires hash(u) != hash(v)
    ensures Overtaken(p) == 0 || OwnText(p) <==>
      forall ds :: OwnEvents(hash, None, SentBy(hash, UserCopy(p, Some(t)), ds)) <= Waiting(hash, p, None) + 1
  {
    var q := UserCopy(p, Some(t));
    if Overtaken(p) == 0 || OwnText(p) {
      forall ds ensures OwnEvents(hash, None, SentBy(hash, q, ds)) <= Waiting(hash, p, None) + 1 {
        SendsAtMost(hash, q, ds);
      }
    } else {
      var ds := SendsAll(hash, q, u, v);
    }
  }

  // ----- where every payload comes from -----

  /** The texts the users copied. */
  function UserCopies(ms: seq<Move>): nat {
    if ms == [] then 0
    else
      var m := ms[|ms| - 1];
      UserCopies(ms[..|ms| - 1]) + if m.Copies? && m.t.Some? then 1 else 0
  }

  /** The further reports of those copies. */
  function Repeats(hash: Text -> Hash, n: Net, ms: seq<Move>): nat {
    if ms == [] then 0
    else
      var front, m := ms[..|ms| - 1], ms[|ms| - 1];
      Repeats(hash, n, front) + if m.Copies? && m.t.Some? then Repeated(Run(hash, n, front).At(m.s)) else 0
  }

  /** The payloads of own texts that both machines could still send. */
  function Owed(hash: Text -> Hash, n: Net): nat {
    Waiting(hash, n.a, None) + Waiting(hash, n.b, None)
  }

  /** A move sends, or leaves to be sent, no more than was there before; only a
      copy adds itself and its repeats, and only a peer's text bounces. */
  predicate Balances(hash: Text -> Hash, n: Net, m: Move) {
    var n' := Next(hash, n, m);
    n'.sends + Owed(hash, n') + n.bounced <= n.sends + Owed(hash, n) + n'.bounced
      + if m.Copies? && m.t.Some? then 1 + Repeated(n.At(m.s)) else 0
  }

  lemma CheckBalances(hash: Text -> Hash, n: Net, s: Side)
    ensures Balances(hash, n, Checks(s))
  {
    var (q, es) := Check(hash, n.At(s));
    CheckSpends(hash, n.At(s), []);
    assert es + [] == es;
    if es != [] {
      OwnEvent(hash, None, es[0]);
      assert es == [es[0]];
    }
  }

  lemma ReceiveBalances(hash: Text -> Hash, n: Net, s: Side)
    ensures Balances(hash, n, Takes(s)) && Balances(hash, n, Finishes(s))
  {
    ReceiveSpends(hash, n.At(s), if n.Inbox(s) == [] then [] else n.Inbox(s)[0]);
  }

  lemma MoveBalances(hash: Text -> Hash, n: Net, m: Move)
    ensures Balances(hash, n, m)
  {
    match m
    case Copies(_, _) =>
    case Looks(s) => ReportKeepsWaiting(hash, n.At(s), None);
    case Polls(s) => ReportKeepsWaiting(hash, n.At(s), None);
    case Checks(s) => CheckBalances(hash, n, s);
    case Takes(s) => ReceiveBalances(hash, n, s);
    case Finishes(s) => ReceiveBalances(hash, n, s);
  }

  /** In every run of every pair of machines: the payloads sent, and those that
      could still be sent, are no more than the texts the users copied, their
      further reports, and the texts bounced back. */
  lemma {:induction false} EveryPayloadHasASource(hash: Text -> Hash, a: Platform, b: Platform, ms: seq<Move>)
    ensures var n := Run(hash, Start(a, b), ms);
      n.sends + Owed(hash, n) <= UserCopies(ms) + Repeats(hash, Start(a, b), ms) + n.bounced
  {
    if ms == [] {
      NothingOwed(hash, Idle(a));
      NothingOwed(hash, Idle(b));
    } else {
      EveryPayloadHasASource(hash, a, b, ms[..|ms| - 1]);
      MoveBalances(hash, Run(hash, Start(a, b), ms[..|ms| - 1]), ms[|ms| - 1]);
    }
  }

  lemma NothingOwed(hash: Text -> Hash, p: Peer)
    requires p.events == [] && Due(p) == 0
    ensures Waiting(hash, p, None) == 0
  {
  }

  /** No ping-pong between a Mac and a Windows machine, or any other pair: when
      every move is prompt, nothing bounces, and never more payloads are sent than
      texts copied and reported again, under any interleaving and for any hash
      function. */
  lemma SendsAtMostCopies(hash: Text -> Hash, a: Platform, b: Platform, ms: seq<Move>)
    requires AllPrompt(hash, Start(a, b), ms)
    ensures var n := Run(hash, Start(a, b), ms);
      n.bounced == 0 && n.sends <= UserCopies(ms) + Repeats(hash, Start(a, b), ms)
  {
    NothingBounces(hash, Start(a, b), ms);
    EveryPayloadHasASource(hash, a, b, ms);
  }

  // ----- coming to rest -----

  /** A move that makes progress; a poll of a clipboard that did not change is
      none. */
  predicate Effective(n: Net, m: Move) {
    var p := n.At(m.s);
    match m
    case Copies(_, _) => false
    case Looks(_) => p.platform.Mac? && p.looked.None? && p.changes > 0
    case Polls(_) => if p.platform.Mac? then PollWork(p) > 0 else p.changes > 0
    case Checks(_) => p.events != []
    case Takes(s) => n.Inbox(s) != [] && p.half.None?
    case Finishes(_) => p.half.Some?
  }

  /** What is left to do: every effective step uses some of it up. */
  function Work(hash: Text -> Hash, n: Net): nat {
    PeerWork(hash, n.a) + PeerWork(hash, n.b) + 6 * |n.ab| + 6 * |n.ba|
  }

  function PeerWork(hash: Text -> Hash, p: Peer): nat {
    6 * Waiting(hash, p, None) + 3 * p.changes + |p.events|
    + (if p.platform.Mac? then PollWork(p) else 0)
    + if p.half.None? then 0 else if p.platform.Mac? then 5 else 1
  }

  lemma LookFalls(hash: Text -> Hash, p: Peer)
    ensures p.platform.Mac? && p.looked.None? && p.changes > 0 ==> PeerWork(hash, Look(p)) < PeerWork(hash, p)
    ensures (if p.platform.Mac? then PollWork(p) > 0 else p.changes > 0) ==> PeerWork(hash, Poll(p)) < PeerWork(hash, p)
  {
    ReportKeepsWaiting(hash, p, None);
  }

  lemma CheckFalls(hash: Text -> Hash, p: Peer)
    requires p.events != []
    ensures var (q, es) := Check(hash, p);
      |es| <= 1 && (OnlyOwn(es) ==> PeerWork(hash, q) + 6 * |es| < PeerWork(hash, p))
  {
  }

  lemma ReceiveFalls(hash: Text -> Hash, p: Peer, t: Text)
    ensures p.half.None? ==> PeerWork(hash, Take(hash, p, t)) < PeerWork(hash, p) + 6
    ensures p.half.Some? ==> PeerWork(hash, Finish(hash, p)) < PeerWork(hash, p)
  {
  }

  lemma EffectiveFalls(hash: Text -> Hash, n: Net, m: Move)
    requires Effective(n, m) && (m.Checks? ==> OnlyOwn(Check(hash, n.At(m.s)).1))
    ensures Work(hash, Next(hash, n, m)) < Work(hash, n)
  {
    var p := n.At(m.s);
    match m
    case Looks(s) => LookFalls(hash, p);
    case Polls(s) => LookFalls(hash, p);
    case Checks(s) => CheckFalls(hash, p);
    case Takes(s) => ReceiveFalls(hash, p, n.Inbox(s)[0]);
    case Finishes(s) => ReceiveFalls(hash, p, p.half.value);
  }

  lemma WorkFalls(hash: Text -> Hash, n: Net, m: Move)
    requires BothGuarded(hash, n) && Prompt(hash, n, m) && Effective(n, m)
    ensures Work(hash, Next(hash, n, m)) < Work(hash, n)
  {
    assert m.Checks? ==> OnlyOwn(Check(hash, n.At(m.s)).1);
    EffectiveFalls(hash, n, m);
  }

  /** Quiescence: once the users stop, at most `Work` further effective prompt
      steps are possible, and when none is left nothing is pending anywhere. */
  lemma {:induction false} Quiesces(hash: Text -> Hash, n: Net, ms: seq<Move>)
    requires BothGuarded(hash, n) && AllPrompt(hash, n, ms)
    requires forall i :: 0 <= i < |ms| ==> Effective(Run(hash, n, ms[..i]), ms[i])
    ensures |ms| + Work(hash, Run(hash, n, ms)) <= Work(hash, n)
    ensures var end := Run(hash, n, ms);
      (forall m :: !Effective(end, m)) <==> Work(hash, end) == 0
  {
    if ms != [] {
      var front := ms[..|ms| - 1];
      assert forall i :: 0 <= i < |front| ==> front[..i] == ms[..i] && front[i] == ms[i];
      Quiesces(hash, n, front);
      NothingBounces(hash, n, front);
      WorkFalls(hash, Run(hash, n, front), ms[|ms| - 1]);
    }
    DoneIff(hash, Run(hash, n, ms));
  }

  lemma DoneIff(hash: Text -> Hash, n: Net)
    ensures (forall m :: !Effective(n, m)) <==> Work(hash, n) == 0
  {
    if Work(hash, n) != 0 {
      var m :=
        if n.a.half.Some? then Finishes(A)
        else if n.b.half.Some? then Finishes(B)
        else if n.ab != [] then Takes(B)
        else if n.ba != [] then Takes(A)
        else if n.a.events != [] then Checks(A)
        else if n.b.events != [] then Checks(B)
        else if Due(n.a) > 0 then (if Effective(n, Looks(A)) then Looks(A) else Polls(A))
        else if Effective(n, Looks(B)) then Looks(B)
        else Polls(B);
      assert Effective(n, m);
    }
  }

  // ----- polling with checking, and receiving, in one go -----

  /** The coarser steps of machines that check a change as soon as they report it
      and take a text in without interruption. */
  datatype Act = Copy(s: Side, t: Option<Text>) | PollAndCheck(s: Side) | Receive(s: Side)

  function Play(hash: Text -> Hash, n: Net, a: Act): Net {
    match a
    case Copy(s, t) => Next(hash, n, Copies(s, t))
    case PollAndCheck(s) => Next(hash, Next(hash, Next(hash, n, Looks(s)), Polls(s)), Checks(s))
    case Receive(s) => Next(hash, Next(hash, n, Takes(s)), Finishes(s))
  }

  function PlayAll(hash: Text -> Hash, n: Net, acts: seq<Act>): Net {
    if acts == [] then n else Play(hash, PlayAll(hash, n, acts[..|acts| - 1]), acts[|acts| - 1])
  }

  /** The moves that an act, or a sequence of acts, is made of. */
  function MovesOf(a: Act): seq<Move> {
    match a
    case Copy(s, t) => [Copies(s, t)]
    case PollAndCheck(s) => [Looks(s)] + [Polls(s)] + [Checks(s)]
    case Receive(s) => [Takes(s)] + [Finishes(s)]
  }

  function Moves(acts: seq<Act>): seq<Move> {
    if acts == [] then [] else Moves(acts[..|acts| - 1]) + MovesOf(acts[|acts| - 1])
  }

  /** The texts the users copied, counted by their acts. */
  function Copied(acts: seq<Act>): nat {
    if acts == [] then 0
    else
      var x := acts[|acts| - 1];
      Copied(acts[..|acts| - 1]) + if x.Copy? && x.t.Some? then 1 else 0
  }

  predicate CanPlay(n: Net, a: Act) {
    match a
    case Copy(_, _) => false
    case PollAndCheck(s) => n.At(s).changes > 0
    case Receive(s) => n.Inbox(s) != []
  }

  predicate IsSettled(hash: Text -> Hash, p: Peer) {
    && p.events == [] && p.half.None? && p.looked.None?
    && (p.changes > 0 && p.clip.Some? && p.clip.value.remote ==> Echoes(hash, p, p.clip.value))
  }

  predicate Settled(hash: Text -> Hash, n: Net) {
    IsSettled(hash, n.a) && IsSettled(hash, n.b)
  }

  lemma CopySettled(hash: Text -> Hash, n: Net, s: Side, t: Option<Text>)
    requires Settled(hash, n)
    ensures Settled(hash, Play(hash, n, Copy(s, t))) && Play(hash, n, Copy(s, t)).bounced == n.bounced
  {
  }

  lemma ReceiveSettled(hash: Text -> Hash, n: Net, s: Side)
    requires Settled(hash, n)
    ensures var n' := Play(hash, n, Receive(s));
      Settled(hash, n') && n'.bounced == n.bounced && (n.Inbox(s) != [] ==> Work(hash, n') < Work(hash, n))
  {
  }

  lemma PollAndCheckOne(hash: Text -> Hash, p: Peer)
    requires IsSettled(hash, p)
    ensures var (q, es) := Check(hash, Poll(Look(p)));
      && IsSettled(hash, q) && OnlyOwn(es) && |es| <= 1
      && (p.changes > 0 ==> PeerWork(hash, q) + 6 * |es| < PeerWork(hash, p))
  {
    LookFalls(hash, p);
    LookFalls(hash, Look(p));
    if Poll(Look(p)).events != [] {
      CheckFalls(hash, Poll(Look(p)));
    }
  }

  lemma PollAndCheckSettled(hash: Text -> Hash, n: Net, s: Side)
    requires Settled(hash, n)
    ensures var n' := Play(hash, n, PollAndCheck(s));
      Settled(hash, n') && n'.bounced == n.bounced && (n.At(s).changes > 0 ==> Work(hash, n') < Work(hash, n))
  {
    PollAndCheckOne(hash, n.At(s));
  }

  lemma PlayKeepsSettled(hash: Text -> Hash, n: Net, a: Act)
    requires Settled(hash, n)
    ensures Settled(hash, Play(hash, n, a)) && Play(hash, n, a).bounced == n.bounced
    ensures CanPlay(n, a) ==> Work(hash, Play(hash, n, a)) < Work(hash, n)
  {
    match a
    case Copy(s, t) => CopySettled(hash, n, s, t);
    case Receive(s) => ReceiveSettled(hash, n, s);
    case PollAndCheck(s) => PollAndCheckSettled(hash, n, s);
  }

  lemma {:induction false} StaysSettled(hash: Text -> Hash, n: Net, acts: seq<Act>)
    requires Settled(hash, n)
    ensures Settled(hash, PlayAll(hash, n, acts)) && PlayAll(hash, n, acts).bounced == n.bounced
  {
    if acts != [] {
      StaysSettled(hash, n, acts[..|acts| - 1]);
      PlayKeepsSettled(hash, PlayAll(hash, n, acts[..|acts| - 1]), acts[|acts| - 1]);
    }
  }

  lemma LedgerSnoc(hash: Text -> Hash, n: Net, ms: seq<Move>, m: Move)
    ensures UserCopies(ms + [m]) == UserCopies(ms) + if m.Copies? && m.t.Some? then 1 else 0
    ensures Repeats(hash, n, ms + [m]) ==
      Repeats(hash, n, ms) + if m.Copies? && m.t.Some? then Repeated(Run(hash, n, ms).At(m.s)) else 0
    ensures Run(hash, n, ms + [m]) == Next(hash, Run(hash, n, ms), m)
  {
    assert (ms + [m])[..|ms|] == ms;
  }

  /** An act is its moves, and only a copy counts. */
  lemma ActLedger(hash: Text -> Hash, n: Net, ms: seq<Move>, x: Act)
    ensures Run(hash, n, ms + MovesOf(x)) == Play(hash, Run(hash, n, ms), x)
    ensures UserCopies(ms + MovesOf(x)) == UserCopies(ms) + if x.Copy? && x.t.Some? then 1 else 0
    ensures Repeats(hash, n, ms + MovesOf(x)) ==
      Repeats(hash, n, ms) + if x.Copy? && x.t.Some? then Repeated(Run(hash, n, ms).At(x.s)) else 0
  {
    match x
    case Copy(s, t) => LedgerSnoc(hash, n, ms, Copies(s, t));
    case PollAndCheck(s) =>
      assert ms + MovesOf(x) == ((ms + [Looks(s)]) + [Polls(s)]) + [Checks(s)];
      LedgerSnoc(hash, n, ms, Looks(s));
      LedgerSnoc(hash, n, ms + [Looks(s)], Polls(s));
      LedgerSnoc(hash, n, (ms + [Looks(s)]) + [Polls(s)], Checks(s));
    case Receive(s) =>
      assert ms + MovesOf(x) == (ms + [Takes(s)]) + [Finishes(s)];
      LedgerSnoc(hash, n, ms, Takes(s));
      LedgerSnoc(hash, n, ms + [Takes(s)], Finishes(s));
  }

  lemma NextKeepsPlatforms(hash: Text -> Hash, n: Net, m: Move)
    ensures Next(hash, n, m).a.platform == n.a.platform && Next(hash, n, m).b.platform == n.b.platform
  {
  }

  lemma PlayKeepsPlatforms(hash: Text -> Hash, n: Net, x: Act)
    ensures Play(hash, n, x).a.platform == n.a.platform && Play(hash, n, x).b.platform == n.b.platform
  {
    match x
    case Copy(s, t) => NextKeepsPlatforms(hash, n, Copies(s, t));
    case PollAndCheck(s) =>
      NextKeepsPlatforms(hash, n, Looks(s));
      NextKeepsPlatforms(hash, Next(hash, n, Looks(s)), Polls(s));
      NextKeepsPlatforms(hash, Next(hash, Next(hash, n, Looks(s)), Polls(s)), Checks(s));
    case Receive(s) =>
      NextKeepsPlatforms(hash, n, Takes(s));
      NextKeepsPlatforms(hash, Next(hash, n, Takes(s)), Finishes(s));
  }

  lemma {:induction false} ActsLedger(hash: Text -> Hash, n: Net, acts: seq<Act>)
    ensures Run(hash, n, Moves(acts)) == PlayAll(hash, n, acts) && UserCopies(Moves(acts)) == Copied(acts)
  {
    if acts != [] {
      ActsLedger(hash, n, acts[..|acts| - 1]);
      ActLedger(hash, n, Moves(acts[..|acts| - 1]), acts[|acts| - 1]);
    }
  }

  predicate BothMacs(n: Net) {
    n.a.platform.Mac? && n.b.platform.Mac?
  }

  /** Between atomic acts no poll of a Mac is half way, so its copies do not repeat. */
  lemma {:induction false} MacsRepeatNothing(hash: Text -> Hash, n: Net, acts: seq<Act>)
    requires Settled(hash, n) && BothMacs(n)
    ensures BothMacs(PlayAll(hash, n, acts)) && Repeats(hash, n, Moves(acts)) == 0
  {
    if acts != [] {
      var front, x := acts[..|acts| - 1], acts[|acts| - 1];
      MacsRepeatNothing(hash, n, front);
      ActsLedger(hash, n, front);
      StaysSettled(hash, n, front);
      ActLedger(hash, n, Moves(front), x);
      PlayKeepsPlatforms(hash, PlayAll(hash, n, front), x);
    }
  }

  /** Then there is no condition left: under any interleaving and for any hash
      function nothing bounces and two Macs never send more payloads than texts
      were copied, every act but a user copy uses up work, and the machines come
      to rest exactly when no such act is possible. */
  lemma AtomicActsNeverPingPong(hash: Text -> Hash, a: Platform, b: Platform, acts: seq<Act>)
    ensures var n := PlayAll(hash, Start(a, b), acts);
      && n.bounced == 0
      && n.sends <= Copied(acts) + Repeats(hash, Start(a, b), Moves(acts))
      && (a.Mac? && b.Mac? ==> n.sends <= Copied(acts))
      && (forall x :: CanPlay(n, x) ==> Work(hash, Play(hash, n, x)) < Work(hash, n))
      && ((forall x :: !CanPlay(n, x)) <==> Work(hash, n) == 0)
  {
    StaysSettled(hash, Start(a, b), acts);
    ActsLedger(hash, Start(a, b), acts);
    EveryPayloadHasASource(hash, a, b, Moves(acts));
    if a.Mac? && b.Mac? {
      MacsRepeatNothing(hash, Start(a, b), acts);
    }
    var n := PlayAll(hash, Start(a, b), acts);
    forall x | CanPlay(n, x) ensures Work(hash, Play(hash, n, x)) < Work(hash, n) {
      PlayKeepsSettled(hash, n, x);
    }
    SettledRest(hash, n);
  }

  lemma SettledRest(hash: Text -> Hash, n: Net)
    requires Settled(hash, n)
    ensures (forall x :: !CanPlay(n, x)) <==> Work(hash, n) == 0
  {
    assert (!CanPlay(n, PollAndCheck(A)) && !CanPlay(n, PollAndCheck(B))
            && !CanPlay(n, Receive(A)) && !CanPlay(n, Receive(B)))
      <==> n.a.changes == 0 && n.b.changes == 0 && n.ab == [] && n.ba == [];
  }

  /** A machine of either side on which something without text, and then a text, is
      copied before the first change is reported. */
  function CopiedTwice(s: Side, t: Text): seq<Act> {
    [Copy(s, None)] + [Copy(s, Some(t))] + [PollAndCheck(s)] + [PollAndCheck(s)]
  }

  lemma PlaySnoc(hash: Text -> Hash, n: Net, acts: seq<Act>, x: Act)
    ensures PlayAll(hash, n, acts + [x]) == Play(hash, PlayAll(hash, n, acts), x)
    ensures Copied(acts + [x]) == Copied(acts) + if x.Copy? && x.t.Some? then 1 else 0
  {
    assert (acts + [x])[..|acts|] == acts;
  }

  lemma WindowsReports(hash: Text -> Hash, t: Text, k: nat)
    requires 0 < k
    ensures var p := Idle(Windows).(clip := Some(Event(t, false)), changes := k);
      Check(hash, Poll(Look(p))) == (p.(changes := k - 1), [Event(t, false)])
  {
    assert [] + [Event(t, false)] == [Event(t, false)] && [Event(t, false)][1..] == [];
  }

  /** On Windows the text goes out twice. */
  lemma WindowsSendsTwice(hash: Text -> Hash, a: Platform, b: Platform, s: Side, t: Text)
    requires Start(a, b).At(s).platform.Windows?
    ensures PlayAll(hash, Start(a, b), CopiedTwice(s, t)).sends == 2 && Copied(CopiedTwice(s, t)) == 1
  {
    var n := Start(a, b);
    assert [Copy(s, None)] == [] + [Copy(s, None)];
    PlaySnoc(hash, n, [], Copy(s, None));
    PlaySnoc(hash, n, [Copy(s, None)], Copy(s, Some(t)));
    var copied := PlayAll(hash, n, [Copy(s, None)] + [Copy(s, Some(t))]);
    assert copied == n.Put(s, Idle(Windows).(clip := Some(Event(t, false)), changes := 2));
    PlaySnoc(hash, n, [Copy(s, None)] + [Copy(s, Some(t))], PollAndCheck(s));
    PlaySnoc(hash, n, [Copy(s, None)] + [Copy(s, Some(t))] + [PollAndCheck(s)], PollAndCheck(s));
    WindowsReports(hash, t, 2);
    WindowsReports(hash, t, 1);
  }

  ghost predicate NeverMoreThanCopied(hash: Text -> Hash, a: Platform, b: Platform) {
    forall acts :: PlayAll(hash, Start(a, b), acts).sends <= Copied(acts)
  }

  /** At most as many payloads as copied texts, whatever the acts: so it is exactly
      for two Macs. */
  lemma AtMostCopiedIffMacs(hash: Text -> Hash, a: Platform, b: Platform)
    ensures NeverMoreThanCopied(hash, a, b) <==> a.Mac? && b.Mac?
  {
    if a.Mac? && b.Mac? {
      forall acts ensures PlayAll(hash, Start(a, b), acts).sends <= Copied(acts) {
        AtomicActsNeverPingPong(hash, a, b, acts);
      }
    } else {
      var s := if a.Windows? then A else B;
      WindowsSendsTwice(hash, a, b, s, []);
    }
  }
}
