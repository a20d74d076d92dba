/** What happens to two clipboards when the guard comes too late: concrete runs. */
module PingPong {
  import opened Words
  import opened Clipboard
  import opened Echo
  import opened EchoLedger

  lemma TwoSteps(hash: Text -> Hash, n: Net, a: Move, b: Move)
    ensures Run(hash, n, [a, b]) == Next(hash, Next(hash, n, a), b)
  {
    assert [a, b] == [a] + [b] && [a] == [] + [a];
    RunSnoc(hash, n, [], a);
    RunSnoc(hash, n, [a], b);
  }

  lemma FourSteps(hash: Text -> Hash, n: Net, a: Move, b: Move, c: Move, d: Move)
    ensures Run(hash, n, [a, b, c, d]) == Next(hash, Next(hash, Next(hash, Next(hash, n, a), b), c), d)
  {
    assert [a, b, c, d] == [a, b] + [c, d];
    RunConcat(hash, n, [a, b], [c, d]);
    TwoSteps(hash, n, a, b);
    TwoSteps(hash, Run(hash, n, [a, b]), c, d);
  }

  lemma {:induction false} UserCopiesConcat(a: seq<Move>, b: seq<Move>)
    ensures UserCopies(a + b) == UserCopies(a) + UserCopies(b)
  {
    if b == [] {
      assert a + b == a;
    } else {
      assert (a + b)[..|a + b| - 1] == a + b[..|b| - 1];
      UserCopiesConcat(a, b[..|b| - 1]);
    }
  }

  predicate NoUser(ms: seq<Move>) {
    forall i :: 0 <= i < |ms| ==> !ms[i].Copies?
  }

  lemma {:induction false} NoUserNoCopies(ms: seq<Move>)
    requires NoUser(ms)
    ensures UserCopies(ms) == 0
  {
    if ms != [] {
      NoUserNoCopies(ms[..|ms| - 1]);
    }
  }

  /** Four moves of which at most one is a user's. */
  lemma CopiesOfFour(a: Move, b: Move, c: Move, d: Move)
    requires !b.Copies? && !c.Copies? && !d.Copies?
    ensures UserCopies([a, b, c, d]) == if a.Copies? && a.t.Some? then 1 else 0
    ensures UserCopies([b, c, d, a]) == if a.Copies? && a.t.Some? then 1 else 0
  {
    assert [a, b, c, d] == [a] + [b, c, d] && [b, c, d, a] == [b, c, d] + [a];
    UserCopiesConcat([a], [b, c, d]);
    UserCopiesConcat([b, c, d], [a]);
    NoUserNoCopies([b, c, d]);
    assert [a][..0] == [] && UserCopies([]) == 0;
  }

  predicate Quiet(p: Peer) {
    p.events == [] && p.changes == 0 && p.looked.None? && p.half.None?
  }

  lemma CopyPollCheck(hash: Text -> Hash, p: Peer, t: Text)
    requires Quiet(p) && !IsEcho(hash, p.guard, t)
    ensures Check(hash, Poll(Look(UserCopy(p, Some(t))))) == (p.(clip := Some(Event(t, false))), [Event(t, false)])
  {
    assert [] + [Event(t, false)] == [Event(t, false)] && [Event(t, false)][1..] == [];
  }

  function CopySent(s: Side, t: Text): seq<Move> {
    [Copies(s, Some(t)), Looks(s), Polls(s), Checks(s)]
  }

  /** A user copy on a quiet machine is reported, checked and sent. */
  lemma CopyIsSent(hash: Text -> Hash, n: Net, s: Side, t: Text)
    requires Quiet(n.At(s)) && !IsEcho(hash, n.At(s).guard, t)
    ensures Run(hash, n, CopySent(s, t)) ==
      n.Put(s, n.At(s).(clip := Some(Event(t, false)))).Send(s, [Event(t, false)])
    ensures UserCopies(CopySent(s, t)) == 1
  {
    FourSteps(hash, n, Copies(s, Some(t)), Looks(s), Polls(s), Checks(s));
    CopyPollCheck(hash, n.At(s), t);
    CopiesOfFour(Copies(s, Some(t)), Looks(s), Polls(s), Checks(s));
  }

  /** A machine that has taken a text in and reported it, with the guard set. */
  function Holding(hash: Text -> Hash, p: Peer, t: Text, es: seq<Event>): Peer {
    Peer(p.platform, Some(Event(t, true)), 0, None, es, Some(hash(t)), None)
  }

  function Taken(s: Side): seq<Move> {
    [Takes(s), Finishes(s), Looks(s), Polls(s)]
  }

  lemma Received(hash: Text -> Hash, n: Net, s: Side)
    requires n.Inbox(s) != [] && n.At(s).half.None?
    ensures var t := n.Inbox(s)[0];
      Next(hash, Next(hash, n, Takes(s)), Finishes(s)) ==
        n.Pop(s).Put(s, n.At(s).(clip := Some(Event(t, true)), changes := n.At(s).changes + 1, guard := Some(hash(t))))
  {
  }

  lemma TakenIn(hash: Text -> Hash, n: Net, s: Side)
    requires n.Inbox(s) != [] && n.At(s).half.None? && n.At(s).changes == 0 && n.At(s).looked.None?
    ensures var t := n.Inbox(s)[0];
      Run(hash, n, Taken(s)) == n.Pop(s).Put(s, Holding(hash, n.At(s), t, n.At(s).events + [Event(t, true)]))
  {
    FourSteps(hash, n, Takes(s), Finishes(s), Looks(s), Polls(s));
    Received(hash, n, s);
  }

  lemma WrittenAndChecked(hash: Text -> Hash, p: Peer, t: Text)
    requires Quiet(p) && p.platform.Windows? && !IsEcho(hash, p.guard, t)
    ensures Check(hash, Poll(Look(Take(hash, p, t)))) ==
      (p.(clip := Some(Event(t, true)), half := Some(t)), [Event(t, true)])
  {
    assert [] + [Event(t, true)] == [Event(t, true)] && [Event(t, true)][1..] == [];
  }

  lemma SentStraightBack(hash: Text -> Hash, n: Net, s: Side, t: Text)
    requires Quiet(n.At(s)) && n.At(s).platform.Windows? && n.Inbox(s) == [t] && !IsEcho(hash, n.At(s).guard, t)
    ensures Run(hash, n, [Takes(s), Looks(s), Polls(s), Checks(s)]) ==
      n.Pop(s).Put(s, n.At(s).(clip := Some(Event(t, true)), half := Some(t))).Send(s, [Event(t, true)])
  {
    FourSteps(hash, n, Takes(s), Looks(s), Polls(s), Checks(s));
    WrittenAndChecked(hash, n.At(s), t);
  }

  function StraightBack(t: Text): seq<Move> {
    CopySent(A, t) + [Takes(B), Looks(B), Polls(B), Checks(B)]
  }

  /** Windows writes a text before it remembers it: reported and checked in
      between, it goes straight back. Two payloads for one copy. */
  lemma WindowsBounces(hash: Text -> Hash, t: Text)
    ensures var n := Run(hash, Start(Mac, Windows), StraightBack(t));
      UserCopies(StraightBack(t)) == 1 && n.sends == 2 && n.bounced == 1 && n.ba == [t]
  {
    var start := Start(Mac, Windows);
    CopyIsSent(hash, start, A, t);
    assert [] + [t] == [t];
    RunConcat(hash, start, CopySent(A, t), [Takes(B), Looks(B), Polls(B), Checks(B)]);
    SentStraightBack(hash, Run(hash, start, CopySent(A, t)), B, t);
    UserCopiesConcat(CopySent(A, t), [Takes(B), Looks(B), Polls(B), Checks(B)]);
    CopiesOfFour(Takes(B), Looks(B), Polls(B), Checks(B));
  }

  /** A machine that has just taken `x` in, and whose user copies `y` while its
      report of `x` is on the way: on Windows before the update is handled, on
      the Mac between the two reads of a poll. */
  function CopiedBehind(hash: Text -> Hash, b: Platform, x: Text, y: Text): Peer {
    var (changes, looked) := if b.Mac? then (1, Some(true)) else (2, None);
    Peer(b, Some(Event(y, false)), changes, looked, [], Some(hash(x)), None)
  }

  lemma ReportedTwice(hash: Text -> Hash, b: Platform, x: Text, y: Text)
    ensures var p := CopiedBehind(hash, b, x, y);
      Poll(Poll(Look(Poll(p)))) == p.(changes := 0, looked := None, events := [Event(y, false), Event(y, false)])
  {
    var e := Event(y, false);
    assert [] + [e] + [e] == [e, e];
  }

  /** Two copies, the second behind the first one's arrival, and two reports of it. */
  function Behind(x: Text, y: Text): seq<Move> {
    CopySent(A, x) + [Takes(B), Finishes(B), Looks(B), Copies(B, Some(y))] + [Polls(B), Looks(B), Polls(B), Polls(B)]
  }

  lemma BehindCopies(x: Text, y: Text)
    ensures UserCopies(Behind(x, y)) == 2
  {
    var second, last := [Takes(B), Finishes(B), Looks(B), Copies(B, Some(y))], [Polls(B), Looks(B), Polls(B), Polls(B)];
    UserCopiesConcat(CopySent(A, x), second);
    UserCopiesConcat(CopySent(A, x) + second, last);
    CopiesOfFour(Copies(A, Some(x)), Looks(A), Polls(A), Checks(A));
    CopiesOfFour(Copies(B, Some(y)), Takes(B), Finishes(B), Looks(B));
    CopiesOfFour(Polls(B), Looks(B), Polls(B), Polls(B));
  }

  lemma CopiesOver(hash: Text -> Hash, n: Net, x: Text, y: Text)
    requires Quiet(n.b) && n.ab == [x]
    ensures Run(hash, n, [Takes(B), Finishes(B), Looks(B), Copies(B, Some(y))]) ==
      n.(b := CopiedBehind(hash, n.b.platform, x, y), ab := [])
  {
    FourSteps(hash, n, Takes(B), Finishes(B), Looks(B), Copies(B, Some(y)));
    Received(hash, n, B);
  }

  lemma CopiesBehind(hash: Text -> Hash, a: Platform, b: Platform, x: Text, y: Text)
    ensures var n := Run(hash, Start(a, b), Behind(x, y));
      && n.b == Peer(b, Some(Event(y, false)), 0, None, [Event(y, false), Event(y, false)], Some(hash(x)), None)
      && Quiet(n.a) && n.a.guard.None? && n.ab == [] && n.ba == [] && n.sends == 1 && n.bounced == 0
  {
    var start := Start(a, b);
    var second, last := [Takes(B), Finishes(B), Looks(B), Copies(B, Some(y))], [Polls(B), Looks(B), Polls(B), Polls(B)];
    CopyIsSent(hash, start, A, x);
    RunConcat(hash, start, CopySent(A, x), second);
    RunConcat(hash, start, CopySent(A, x) + second, last);
    var n := Run(hash, start, CopySent(A, x));
    assert n.ab == [] + [x] == [x];
    CopiesOver(hash, n, x, y);
    FourSteps(hash, Run(hash, n, second), Polls(B), Looks(B), Polls(B), Polls(B));
    ReportedTwice(hash, b, x, y);
  }

  lemma BothGoOut(hash: Text -> Hash, n: Net, s: Side, t: Text)
    requires n.At(s).events == [Event(t, false), Event(t, false)] && !IsEcho(hash, n.At(s).guard, t)
    ensures var n' := Next(hash, Next(hash, n, Checks(s)), Checks(s));
      n'.sends == n.sends + 2 && n'.bounced == n.bounced
  {
    assert [Event(t, false), Event(t, false)][1..] == [Event(t, false)];
  }

  /** Either platform can report one copy twice: three payloads for two copies,
      and nothing bounced. */
  lemma CopyReportedTwice(hash: Text -> Hash, a: Platform, b: Platform, x: Text, y: Text)
    requires hash(x) != hash(y)
    ensures var ms := Behind(x, y) + [Checks(B), Checks(B)];
      var n := Run(hash, Start(a, b), ms);
      UserCopies(ms) == 2 && n.sends == 3 && n.bounced == 0
  {
    CopiesBehind(hash, a, b, x, y);
    BehindCopies(x, y);
    var n := Run(hash, Start(a, b), Behind(x, y));
    RunConcat(hash, Start(a, b), Behind(x, y), [Checks(B), Checks(B)]);
    TwoSteps(hash, n, Checks(B), Checks(B));
    BothGoOut(hash, n, B, y);
    UserCopiesConcat(Behind(x, y), [Checks(B), Checks(B)]);
    NoUserNoCopies([Checks(B), Checks(B)]);
  }

  /** The same with an echo, the text just received, which on its own is sent not
      even once: a further text that comes in before the checks lets both reports
      through. Four payloads for three copies, and nothing bounced. */
  lemma EchoSentTwice(hash: Text -> Hash, a: Platform, b: Platform, x: Text, y: Text)
    requires hash(x) != hash(y)
    ensures var before := Run(hash, Start(a, b), CopySent(A, x) + [Takes(B), Finishes(B)]);
      IsEcho(hash, before.b.guard, x) && OnceByOwnLoops(hash, Look(before.b), x)
    ensures var ms := Behind(x, x) + CopySent(A, y) + [Takes(B), Finishes(B), Checks(B), Checks(B)];
      var n := Run(hash, Start(a, b), ms);
      UserCopies(ms) == 3 && n.sends == 4 && n.bounced == 0
  {
    var start, last := Start(a, b), [Takes(B), Finishes(B), Checks(B), Checks(B)];
    EchoWhenCopied(hash, a, b, x);
    CopiesBehind(hash, a, b, x, x);
    BehindCopies(x, x);
    RunConcat(hash, start, Behind(x, x), CopySent(A, y));
    RunConcat(hash, start, Behind(x, x) + CopySent(A, y), last);
    CopyIsSent(hash, Run(hash, start, Behind(x, x)), A, y);
    var n := Run(hash, start, Behind(x, x) + CopySent(A, y));
    assert n.ab == [] + [y] && n.ab[0] == y;
    FourSteps(hash, n, Takes(B), Finishes(B), Checks(B), Checks(B));
    Received(hash, n, B);
    BothGoOut(hash, Next(hash, Next(hash, n, Takes(B)), Finishes(B)), B, x);
    UserCopiesConcat(Behind(x, x), CopySent(A, y));
    UserCopiesConcat(Behind(x, x) + CopySent(A, y), last);
    CopiesOfFour(Takes(B), Finishes(B), Checks(B), Checks(B));
  }

  lemma EchoWhenCopied(hash: Text -> Hash, a: Platform, b: Platform, x: Text)
    ensures Run(hash, Start(a, b), CopySent(A, x) + [Takes(B), Finishes(B)]).b.guard == Some(hash(x))
  {
    var start := Start(a, b);
    CopyIsSent(hash, start, A, x);
    var n := Run(hash, start, CopySent(A, x));
    assert n.ab == [] + [x] && n.ab[0] == x;
    RunConcat(hash, start, CopySent(A, x), [Takes(B), Finishes(B)]);
    TwoSteps(hash, n, Takes(B), Finishes(B));
    Received(hash, n, B);
  }

  /** Each machine has one unchecked report of the last text it received, and one
      more text is on its way to B. */
  predicate IsLoop(hash: Text -> Hash, n: Net, x: Text, y: Text, z: Text) {
    && n.a == Holding(hash, n.a, x, [Event(x, true)]) && n.b == Holding(hash, n.b, y, [Event(y, true)])
    && n.ab == [z] && n.ba == []
    && hash(x) != hash(y) && hash(y) != hash(z) && hash(x) != hash(z)
  }

  function Overtaking(s: Side): seq<Move> {
    Taken(s) + [Checks(s)]
  }

  /** A machine that has not checked the report of `y` takes in `z`: the check
      then finds the hash of `z` and sends `y` back. */
  lemma OvertakingSendsBack(hash: Text -> Hash, n: Net, s: Side, y: Text, z: Text)
    requires n.At(s) == Holding(hash, n.At(s), y, [Event(y, true)])
    requires n.Inbox(s) == [z] && hash(y) != hash(z)
    ensures Run(hash, n, Overtaking(s)) ==
      n.Pop(s).Put(s, Holding(hash, n.At(s), z, [Event(z, true)])).Send(s, [Event(y, true)])
  {
    TakenIn(hash, n, s);
    RunSnoc(hash, n, Taken(s), Checks(s));
    assert [Event(y, true)] + [Event(z, true)] == [Event(y, true), Event(z, true)];
  }

  lemma HalfRound(hash: Text -> Hash, n: Net, x: Text, y: Text, z: Text)
    requires IsLoop(hash, n, x, y, z)
    ensures Run(hash, n, Overtaking(B)) ==
      n.(b := Holding(hash, n.b, z, [Event(z, true)]), ab := [], ba := [y],
         sends := n.sends + 1, bounced := n.bounced + 1)
  {
    OvertakingSendsBack(hash, n, B, y, z);
    assert [z][1..] == [] && [] + [y] == [y];
  }

  lemma OtherHalf(hash: Text -> Hash, n: Net, x: Text, y: Text)
    requires n.a == Holding(hash, n.a, x, [Event(x, true)]) && n.ab == [] && n.ba == [y] && hash(x) != hash(y)
    ensures Run(hash, n, Overtaking(A)) ==
      n.(a := Holding(hash, n.a, y, [Event(y, true)]), ab := [x], ba := [],
         sends := n.sends + 1, bounced := n.bounced + 1)
  {
    OvertakingSendsBack(hash, n, A, x, y);
    assert [y][1..] == [] && [] + [x] == [x];
  }

  /** Ten steps, no user, two texts sent back, and the same situation again. */
  lemma PingPongRound(hash: Text -> Hash, n: Net, x: Text, y: Text, z: Text) returns (ms: seq<Move>)
    requires IsLoop(hash, n, x, y, z)
    ensures NoUser(ms)
    ensures var n' := Run(hash, n, ms);
      && IsLoop(hash, n', y, z, x) && n'.sends == n.sends + 2 && n'.bounced == n.bounced + 2
  {
    HalfRound(hash, n, x, y, z);
    OtherHalf(hash, Run(hash, n, Overtaking(B)), x, y);
    RunConcat(hash, n, Overtaking(B), Overtaking(A));
    ms := Overtaking(B) + Overtaking(A);
  }

  /** Let a received text overtake an unchecked report and the guard can be
      outrun for ever: on any pair of machines three texts circulate without any
      user copying anything. */
  lemma {:induction false} PingPongForever(hash: Text -> Hash, n: Net, x: Text, y: Text, z: Text, rounds: nat)
    returns (ms: seq<Move>)
    requires IsLoop(hash, n, x, y, z)
    ensures NoUser(ms)
    ensures var end := Run(hash, n, ms);
      && end.ab != [] && end.sends == n.sends + 2 * rounds && end.bounced == n.bounced + 2 * rounds
    decreases rounds
  {
    ms := [];
    if rounds > 0 {
      var round := PingPongRound(hash, n, x, y, z);
      var rest := PingPongForever(hash, Run(hash, n, round), y, z, x, rounds - 1);
      RunConcat(hash, n, round, rest);
      ms := round + rest;
    }
  }

  function IntoLoop(x: Text, y: Text, z: Text): seq<Move> {
    CopySent(A, y) + CopySent(A, z) + CopySent(B, x) + (Taken(A) + Taken(B))
  }

  lemma IntoLoopCopies(x: Text, y: Text, z: Text)
    ensures UserCopies(IntoLoop(x, y, z)) == 3
  {
    CopiesOfFour(Copies(A, Some(y)), Looks(A), Polls(A), Checks(A));
    CopiesOfFour(Copies(A, Some(z)), Looks(A), Polls(A), Checks(A));
    CopiesOfFour(Copies(B, Some(x)), Looks(B), Polls(B), Checks(B));
    UserCopiesConcat(CopySent(A, y), CopySent(A, z));
    UserCopiesConcat(CopySent(A, y) + CopySent(A, z), CopySent(B, x));
    UserCopiesConcat(CopySent(A, y) + CopySent(A, z) + CopySent(B, x), Taken(A) + Taken(B));
    NoUserNoCopies(Taken(A) + Taken(B));
  }

  /** Three user copies are enough to get there from two idle machines. */
  lemma LoopIsReachable(hash: Text -> Hash, a: Platform, b: Platform, x: Text, y: Text, z: Text)
    requires hash(x) != hash(y) && hash(y) != hash(z) && hash(x) != hash(z)
    ensures var n := Run(hash, Start(a, b), IntoLoop(x, y, z));
      IsLoop(hash, n, x, y, z) && n.sends == 3 && n.bounced == 0
    ensures UserCopies(IntoLoop(x, y, z)) == 3
  {
    var start, one, two := Start(a, b), CopySent(A, y), CopySent(A, y) + CopySent(A, z);
    CopyIsSent(hash, start, A, y);
    CopyIsSent(hash, Run(hash, start, one), A, z);
    RunConcat(hash, start, one, CopySent(A, z));
    CopyIsSent(hash, Run(hash, start, two), B, x);
    RunConcat(hash, start, two, CopySent(B, x));
    assert [] + [y] + [z] == [y, z] && [] + [x] == [x] && [y, z][1..] == [z];
    ReceivedOnBothSides(hash, Run(hash, start, two + CopySent(B, x)), x, y, z);
    RunConcat(hash, start, two + CopySent(B, x), Taken(A) + Taken(B));
    IntoLoopCopies(x, y, z);
  }

  lemma ReceivedOnBothSides(hash: Text -> Hash, n: Net, x: Text, y: Text, z: Text)
    requires Quiet(n.a) && n.ba == [x]
    requires Quiet(n.b) && n.ab == [y, z]
    ensures Run(hash, n, Taken(A) + Taken(B)) ==
      n.(a := Holding(hash, n.a, x, [Event(x, true)]), b := Holding(hash, n.b, y, [Event(y, true)]),
         ab := [z], ba := [])
  {
    TakenIn(hash, n, A);
    var mid := Run(hash, n, Taken(A));
    TakenIn(hash, mid, B);
    RunConcat(hash, n, Taken(A), Taken(B));
    assert [] + [Event(x, true)] == [Event(x, true)] && [] + [Event(y, true)] == [Event(y, true)];
    assert [y, z][1..] == [z] && [x][1..] == [];
  }
}
