/** Two clipboards that forward each other's changes: what is sent, when the
    echo guard stops the ping-pong, and when it cannot. */
module Echo {
  import opened Words
  import opened Clipboard

  type Text = bytes

  /** The Mac polls its clipboard: it reads the change count, then the text, and
      reports the text once if the count has moved since the last poll. Windows
      reports every change, with the clipboard as it is by then. The Mac
      remembers a received text before it writes it, Windows after. */
  datatype Platform = Mac | Windows

  /** A text on a clipboard. `remote` marks what a peer's text caused; no
      decision below looks at it. */
  datatype Event = Event(text: Text, remote: bool)

  /** One machine: its clipboard (none when it holds no text), the changes no
      poll has counted and no update message has been handled for, a poll that
      has read the count but not the text (and whether the count had moved), the
      reports not yet checked, the guard, and a received text that is only half
      way in. */
  datatype Peer = Peer(
    platform: Platform, clip: Option<Event>, changes: nat, looked: Option<bool>, events: seq<Event>,
    guard: Option<Hash>, half: Option<Text>)

  predicate Echoes(hash: Text -> Hash, p: Peer, e: Event) {
    IsEcho(hash, p.guard, e.text)
  }

  /** The user copies something on this machine. */
  function UserCopy(p: Peer, t: Option<Text>): Peer {
    p.(clip := if t.Some? then Some(Event(t.value, false)) else None, changes := p.changes + 1)
  }

  /** The Mac's watcher reads the change count. */
  function Look(p: Peer): Peer {
    if p.platform.Mac? && p.looked.None? then p.(looked := Some(p.changes > 0), changes := 0) else p
  }

  /** The watcher's report of the clipboard, which it makes only of a text. */
  function Reported(p: Peer): Peer {
    p.(events := if p.clip.Some? then p.events + [p.clip.value] else p.events)
  }

  /** The Mac's watcher goes on to read the text and reports it if the count had
      moved; Windows handles one update message. */
  function Poll(p: Peer): Peer {
    match p.platform
    case Mac => if p.looked == Some(true) then Reported(p.(looked := None)) else p.(looked := None)
    case Windows => if p.changes == 0 then p else Reported(p.(changes := p.changes - 1))
  }

  /** The outbound task takes one report and forwards it unless it is an echo. */
  function Check(hash: Text -> Hash, p: Peer): (Peer, seq<Event>) {
    if p.events == [] then (p, [])
    else (p.(events := p.events[1..]), if Echoes(hash, p, p.events[0]) then [] else [p.events[0]])
  }

  function Remembered(hash: Text -> Hash, p: Peer, t: Text): Peer {
    p.(guard := Some(hash(t)))
  }

  function Written(p: Peer, t: Text): Peer {
    p.(clip := Some(Event(t, true)), changes := p.changes + 1)
  }

  /** The first half of receiving a text. */
  function Take(hash: Text -> Hash, p: Peer, t: Text): Peer {
    (if p.platform.Mac? then Remembered(hash, p, t) else Written(p, t)).(half := Some(t))
  }

  /** The second half. */
  function Finish(hash: Text -> Hash, p: Peer): Peer
    requires p.half.Some?
  {
    (if p.platform.Mac? then Written(p, p.half.value) else Remembered(hash, p, p.half.value)).(half := None)
  }

  // ----- the two implementations -----

  /** The Mac's clipboard threads over the shared pasteboard. `cc` is the count
      a poll has read, until it has read the text as well. */
  class MacClipboard {
    const echo: EchoGuard
    var pasteboard: Option<Event>
    var changeCount: nat
    var lastCc: nat
    var cc: Option<nat>
    var events: seq<Event>
    var half: Option<Text>

    ghost predicate Valid()
      reads this
    {
      lastCc <= changeCount && (cc.Some? ==> lastCc <= cc.value <= changeCount)
    }

    ghost function Value(): Peer
      requires Valid()
      reads this, echo
    {
      match cc
      case None => Peer(Mac, pasteboard, changeCount - lastCc, None, events, echo.lastRemoteHash, half)
      case Some(c) => Peer(Mac, pasteboard, changeCount - c, Some(c != lastCc), events, echo.lastRemoteHash, half)
    }

    constructor (hash: Text -> Hash, before: Option<Event>)
      ensures Valid() && echo.hash == hash && fresh(echo)
      ensures Value() == Peer(Mac, before, 0, None, [], None, None)
    {
      echo := new EchoGuard(hash);
      pasteboard := before;
      changeCount, lastCc, cc := 0, 0, None;
      events, half := [], None;
    }

    method ReadCount()
      requires Valid() && cc.None?
      modifies this`cc
      ensures Valid() && Value() == Look(old(Value()))
    {
      cc := Some(changeCount);
    }

    method ReadText()
      requires Valid() && cc.Some?
      modifies this`lastCc, this`cc, this`events
      ensures Valid() && Value() == Poll(old(Value()))
    {
      var c, text := cc.value, pasteboard;
      cc := None;
      if c == lastCc {
        return;
      }
      lastCc := c;
      if text.None? {
        return;
      }
      events := events + [text.value];
    }

    method CheckOne() returns (sent: seq<Event>)
      requires Valid()
      modifies this`events
      ensures Valid() && (Value(), sent) == Check(echo.hash, old(Value()))
    {
      if events == [] {
        return [];
      }
      var e := events[0];
      events := events[1..];
      var isEcho := echo.IsEchoOfRemote(e.text);
      return if isEcho then [] else [e];
    }

    method Remember(t: Text)
      requires Valid()
      modifies this`half, echo
      ensures Valid() && Value() == Take(echo.hash, old(Value()), t)
    {
      echo.RememberRemoteWrite(t);
      half := Some(t);
    }

    method Write()
      requires Valid() && half.Some?
      modifies this`pasteboard, this`changeCount, this`half
      ensures Valid() && Value() == Finish(echo.hash, old(Value()))
    {
      pasteboard := Some(Event(half.value, true));
      changeCount := changeCount + 1;
      half := None;
    }
  }

  /** The Windows listener window, the injector and the outbound task. */
  class WindowsClipboard {
    const echo: EchoGuard
    var clipboard: Option<Event>
    var updates: nat
    var events: seq<Event>
    var half: Option<Text>

    ghost function Value(): Peer
      reads this, echo
    {
      Peer(Windows, clipboard, updates, None, events, echo.lastRemoteHash, half)
    }

    constructor (hash: Text -> Hash, before: Option<Event>)
      ensures echo.hash == hash && fresh(echo)
      ensures Value() == Peer(Windows, before, 0, None, [], None, None)
    {
      echo := new EchoGuard(hash);
      clipboard := before;
      updates := 0;
      events, half := [], None;
    }

    /** One posted update message, if there is one. */
    method OnClipboardUpdate()
      modifies this`updates, this`events
      ensures Value() == Poll(old(Value()))
    {
      if updates == 0 {
        return;
      }
      updates := updates - 1;
      if clipboard.Some? {
        events := events + [clipboard.value];
      }
    }

    method CheckOne() returns (sent: seq<Event>)
      modifies this`events
      ensures (Value(), sent) == Check(echo.hash, old(Value()))
    {
      if events == [] {
        return [];
      }
      var e := events[0];
      events := events[1..];
      var isEcho := echo.IsEchoOfRemote(e.text);
      return if isEcho then [] else [e];
    }

    method Write(t: Text)
      modifies this`clipboard, this`updates, this`half
      ensures Value() == Take(echo.hash, old(Value()), t)
    {
      clipboard := Some(Event(t, true));
      updates := updates + 1;
      half := Some(t);
    }

    method Remember()
      requires half.Some?
      modifies this`half, echo
      ensures Value() == Finish(echo.hash, old(Value()))
    {
      echo.RememberRemoteWrite(half.value);
      half := None;
    }
  }

  // ----- reports still to come -----

  /** How many reports of its clipboard a machine will still make. */
  function Due(p: Peer): nat {
    match p.platform
    case Mac => (if p.looked == Some(true) then 1 else 0) + (if p.changes > 0 then 1 else 0)
    case Windows => p.changes
  }

  /** How many reports of changes already made will show a text copied now. */
  function Overtaken(p: Peer): nat {
    match p.platform
    case Mac => if p.looked == Some(true) then 1 else 0
    case Windows => p.changes
  }

  /** Reports of own texts that the guard `g` lets through. */
  function OwnEvents(hash: Text -> Hash, g: Option<Hash>, es: seq<Event>): nat {
    if es == [] then 0
    else (if es[0].remote || IsEcho(hash, g, es[0].text) then 0 else 1) + OwnEvents(hash, g, es[1..])
  }

  predicate OwnText(p: Peer) {
    p.clip.Some? && !p.clip.value.remote
  }

  /** The payloads of its own user's texts that a machine would still send with
      the guard `g`: those reported and those still to be reported. */
  function Waiting(hash: Text -> Hash, p: Peer, g: Option<Hash>): nat {
    OwnEvents(hash, g, p.events) + if OwnText(p) && !IsEcho(hash, g, p.clip.value.text) then Due(p) else 0
  }

  // ----- two peers -----

  datatype Side = A | B

  /** `sends` counts the payloads sent, `bounced` those among them that a peer's
      text caused. */
  datatype Net = Net(a: Peer, b: Peer, ab: seq<Text>, ba: seq<Text>, sends: nat, bounced: nat) {
    function At(s: Side): Peer {
      if s.A? then a else b
    }

    function Inbox(s: Side): seq<Text> {
      if s.A? then ba else ab
    }

    function Put(s: Side, p: Peer): Net {
      if s.A? then this.(a := p) else this.(b := p)
    }

    function Send(s: Side, es: seq<Event>): Net
      requires |es| <= 1
    {
      if es == [] then this
      else
        var n := this.(sends := sends + 1, bounced := bounced + if es[0].remote then 1 else 0);
        if s.A? then n.(ab := ab + [es[0].text]) else n.(ba := ba + [es[0].text])
    }

    function Pop(s: Side): Net
      requires Inbox(s) != []
    {
      if s.A? then this.(ba := ba[1..]) else this.(ab := ab[1..])
    }
  }

  datatype Move =
    | Copies(s: Side, t: Option<Text>)
    | Looks(s: Side)
    | Polls(s: Side)
    | Checks(s: Side)
    | Takes(s: Side)
    | Finishes(s: Side)

  function Next(hash: Text -> Hash, n: Net, m: Move): Net {
    match m
    case Copies(s, t) => n.Put(s, UserCopy(n.At(s), t))
    case Looks(s) => n.Put(s, Look(n.At(s)))
    case Polls(s) => n.Put(s, Poll(n.At(s)))
    case Checks(s) => var (p, es) := Check(hash, n.At(s)); n.Put(s, p).Send(s, es)
    case Takes(s) =>
      if n.Inbox(s) == [] || n.At(s).half.Some? then n
      else n.Pop(s).Put(s, Take(hash, n.At(s), n.Inbox(s)[0]))
    case Finishes(s) => if n.At(s).half.None? then n else n.Put(s, Finish(hash, n.At(s)))
  }

  function Run(hash: Text -> Hash, n: Net, ms: seq<Move>): Net {
    if ms == [] then n else Next(hash, Run(hash, n, ms[..|ms| - 1]), ms[|ms| - 1])
  }

  lemma RunSnoc(hash: Text -> Hash, n: Net, ms: seq<Move>, m: Move)
    ensures Run(hash, n, ms + [m]) == Next(hash, Run(hash, n, ms), m)
  {
    assert (ms + [m])[..|ms|] == ms;
  }

  lemma {:induction false} RunConcat(hash: Text -> Hash, n: Net, a: seq<Move>, b: seq<Move>)
    ensures Run(hash, n, a + b) == Run(hash, Run(hash, n, a), b)
  {
    if b == [] {
      assert a + b == a;
    } else {
      assert a + b == (a + b[..|b| - 1]) + [b[|b| - 1]];
      RunConcat(hash, n, a, b[..|b| - 1]);
      RunSnoc(hash, n, a + b[..|b| - 1], b[|b| - 1]);
    }
  }

  function Idle(platform: Platform): Peer {
    Peer(platform, None, 0, None, [], None, None)
  }

  function Start(a: Platform, b: Platform): Net {
    Net(Idle(a), Idle(b), [], [], 0, 0)
  }

  // ----- when nothing bounces -----

  /** Everything a peer's text caused and that is still to be checked would be
      recognised by a guard that remembers the hash `g`. */
  ghost predicate Recognised(hash: Text -> Hash, p: Peer, g: Option<Hash>) {
    && (forall i :: 0 <= i < |p.events| && p.events[i].remote ==> IsEcho(hash, g, p.events[i].text))
    && (Due(p) > 0 && p.clip.Some? && p.clip.value.remote ==> IsEcho(hash, g, p.clip.value.text))
  }

  datatype Local = LookOnce | PollOnce | CheckOnce

  /** What the watcher and the outbound task of one machine forward between them. */
  function Forwarded(hash: Text -> Hash, p: Peer, ls: seq<Local>): seq<Event>
    decreases ls
  {
    if ls == [] then []
    else
      match ls[0]
      case LookOnce => Forwarded(hash, Look(p), ls[1..])
      case PollOnce => Forwarded(hash, Poll(p), ls[1..])
      case CheckOnce => Check(hash, p).1 + Forwarded(hash, Check(hash, p).0, ls[1..])
  }

  predicate OnlyOwn(es: seq<Event>) {
    forall i :: 0 <= i < |es| ==> !es[i].remote
  }

  lemma {:induction false} RecognisedForwardsOwn(hash: Text -> Hash, p: Peer, ls: seq<Local>)
    requires Recognised(hash, p, p.guard)
    ensures OnlyOwn(Forwarded(hash, p, ls))
    decreases ls
  {
    if ls != [] {
      match ls[0]
      case LookOnce => RecognisedForwardsOwn(hash, Look(p), ls[1..]);
      case PollOnce => RecognisedForwardsOwn(hash, Poll(p), ls[1..]);
      case CheckOnce => RecognisedForwardsOwn(hash, Check(hash, p).0, ls[1..]);
    }
  }

  function ChecksOf(n: nat): (ls: seq<Local>)
    ensures |ls| == n
  {
    if n == 0 then [] else [CheckOnce] + ChecksOf(n - 1)
  }

  /** Checking long enough forwards any waiting report that is not recognised. */
  lemma {:induction false} ChecksReach(hash: Text -> Hash, p: Peer, i: nat)
    requires i < |p.events| && p.events[i].remote && !Echoes(hash, p, p.events[i])
    ensures !OnlyOwn(Forwarded(hash, p, ChecksOf(i + 1)))
    decreases i
  {
    var ls := ChecksOf(i + 1);
    assert ls[0] == CheckOnce && ls[1..] == ChecksOf(i);
    var (q, es) := Check(hash, p);
    var rest := Forwarded(hash, q, ChecksOf(i));
    if i == 0 {
      assert (es + rest)[0] == p.events[0];
    } else {
      ChecksReach(hash, q, i - 1);
      var j :| 0 <= j < |rest| && rest[j].remote;
      assert (es + rest)[|es| + j] == rest[j];
    }
  }

  /** A whole poll, whatever part of one has been made. */
  const WHOLE_POLL := [PollOnce, LookOnce, PollOnce]

  lemma WholePoll(hash: Text -> Hash, p: Peer, ls: seq<Local>)
    ensures Forwarded(hash, p, WHOLE_POLL + ls) == Forwarded(hash, Poll(Look(Poll(p))), ls)
  {
    var two, one := [LookOnce, PollOnce] + ls, [PollOnce] + ls;
    assert (WHOLE_POLL + ls)[0] == PollOnce && (WHOLE_POLL + ls)[1..] == two;
    assert two[0] == LookOnce && two[1..] == one && one[0] == PollOnce && one[1..] == ls;
    assert Forwarded(hash, Poll(p), two) == Forwarded(hash, Look(Poll(p)), one);
  }

  lemma PollThenChecksReach(hash: Text -> Hash, p: Peer)
    requires Due(p) > 0 && p.clip.Some? && p.clip.value.remote && !Echoes(hash, p, p.clip.value)
    ensures !OnlyOwn(Forwarded(hash, p, WHOLE_POLL + ChecksOf(|p.events| + 1)))
  {
    WholePoll(hash, p, ChecksOf(|p.events| + 1));
    ChecksReach(hash, Poll(Look(Poll(p))), |p.events|);
  }

  /** Recognising is exactly what it takes: otherwise some continuation by this
      machine's own two loops sends the peer's text back. */
  lemma RecognisedIff(hash: Text -> Hash, p: Peer)
    ensures Recognised(hash, p, p.guard) <==> forall ls :: OnlyOwn(Forwarded(hash, p, ls))
  {
    if Recognised(hash, p, p.guard) {
      forall ls ensures OnlyOwn(Forwarded(hash, p, ls)) {
        RecognisedForwardsOwn(hash, p, ls);
      }
    } else if i :| 0 <= i < |p.events| && p.events[i].remote && !Echoes(hash, p, p.events[i]) {
      ChecksReach(hash, p, i);
    } else {
      PollThenChecksReach(hash, p);
    }
  }

  /** The moves after which the guard matters: on the Mac taking a text, on
      Windows remembering it; and on Windows checking a report in between. */
  ghost predicate Prompt(hash: Text -> Hash, n: Net, m: Move) {
    var p := n.At(m.s);
    && (m.Takes? && p.platform.Mac? && p.half.None? && n.Inbox(m.s) != [] ==>
          Recognised(hash, p, Some(hash(n.Inbox(m.s)[0]))))
    && (m.Finishes? && p.platform.Windows? && p.half.Some? ==> Recognised(hash, p, Some(hash(p.half.value))))
    && (m.Checks? && p.platform.Windows? && p.half.Some? && p.events != [] && p.events[0].remote ==>
          Echoes(hash, p, p.events[0]))
  }

  /** Remembering a text is prompt if and only if nothing that this machine's
      watcher and outbound task can do next sends a peer's text back. */
  lemma PromptIff(hash: Text -> Hash, n: Net, m: Move)
    requires var p := n.At(m.s);
      || (m.Takes? && p.platform.Mac? && p.half.None? && n.Inbox(m.s) != [])
      || (m.Finishes? && p.platform.Windows? && p.half.Some?)
    ensures Prompt(hash, n, m) <==>
      forall ls :: OnlyOwn(Forwarded(hash, Next(hash, n, m).At(m.s), ls))
  {
    RecognisedIff(hash, Next(hash, n, m).At(m.s));
  }

  ghost predicate Guarded(hash: Text -> Hash, p: Peer) {
    if p.half.None? then Recognised(hash, p, p.guard)
    else p.platform.Mac? ==> Recognised(hash, p, p.guard) && p.guard == Some(hash(p.half.value))
  }

  ghost predicate BothGuarded(hash: Text -> Hash, n: Net) {
    Guarded(hash, n.a) && Guarded(hash, n.b)
  }

  lemma LocalGuarded(hash: Text -> Hash, p: Peer, t: Option<Text>)
    requires Guarded(hash, p)
    ensures Guarded(hash, UserCopy(p, t)) && Guarded(hash, Check(hash, p).0)
    ensures Guarded(hash, Look(p)) && Guarded(hash, Poll(p))
  {
  }

  lemma ReceiveGuarded(hash: Text -> Hash, p: Peer, t: Text)
    requires Guarded(hash, p)
    ensures p.half.None? && (p.platform.Mac? ==> Recognised(hash, p, Some(hash(t)))) ==> Guarded(hash, Take(hash, p, t))
    ensures p.half.Some? && (p.platform.Windows? ==> Recognised(hash, p, Some(hash(p.half.value)))) ==>
      Guarded(hash, Finish(hash, p))
  {
  }

  /** A prompt move bounces nothing and keeps both guards good; a check that is
      not prompt bounces a text. */
  lemma PromptStep(hash: Text -> Hash, n: Net, m: Move)
    requires BothGuarded(hash, n)
    ensures Prompt(hash, n, m) ==> BothGuarded(hash, Next(hash, n, m))
    ensures Next(hash, n, m).bounced == n.bounced <==> (m.Checks? ==> Prompt(hash, n, m))
  {
    var p := n.At(m.s);
    match m
    case Copies(_, t) => LocalGuarded(hash, p, t);
    case Looks(_) => LocalGuarded(hash, p, None);
    case Polls(_) => LocalGuarded(hash, p, None);
    case Checks(_) => LocalGuarded(hash, p, None);
    case Takes(s) =>
      if n.Inbox(s) != [] {
        ReceiveGuarded(hash, p, n.Inbox(s)[0]);
      }
    case Finishes(_) =>
      if p.half.Some? {
        ReceiveGuarded(hash, p, p.half.value);
      }
  }

  ghost predicate AllPrompt(hash: Text -> Hash, n: Net, ms: seq<Move>) {
    forall i :: 0 <= i < |ms| ==> Prompt(hash, Run(hash, n, ms[..i]), ms[i])
  }

  lemma {:induction false} NothingBounces(hash: Text -> Hash, n: Net, ms: seq<Move>)
    requires BothGuarded(hash, n) && AllPrompt(hash, n, ms)
    ensures BothGuarded(hash, Run(hash, n, ms)) && Run(hash, n, ms).bounced == n.bounced
  {
    if ms != [] {
      var front := ms[..|ms| - 1];
      assert forall i :: 0 <= i < |front| ==> front[..i] == ms[..i] && front[i] == ms[i];
      NothingBounces(hash, n, front);
      PromptStep(hash, Run(hash, n, front), ms[|ms| - 1]);
    }
  }
}
