/** What every pairing conversation ends with: the verdict, every frame sent and
    how many were read, for either flow, in terms of the conversation alone. */
module PairingVerdicts {
  import opened Words
  import opened Wire
  import opened Codec
  import opened Pairing
  import opened PairingLanguage
  import Connection

  /** Why the flow gives up at once, if it does. */
  function RefusedAtOnce(role: Role, s: Setup): Option<PairingError> {
    if !s.hasCode then Some(NoCode)
    else if role.Client? then None
    else if s.session.None? then Some(BadCode)
    else if !ElementOut(role, s) then Some(SendFailed)
    else None
  }

  /** What is wrong with the first frame, if anything. */
  function FirstFault(role: Role, s: Setup, m: Message): Option<PairingError> {
    if m.PairRejected? then Some(Rejected(m.reason))
    else if !IsPeerElement(role, m) then Some(UnexpectedFrame)
    else if s.session.None? then Some(BadCode)
    else if !ElementOut(role, s) then Some(SendFailed)
    else
      var key := s.session.value.finish(m.element);
      if key.None? then Some(SpakeFailed)
      else if !Fits(OwnCert(s, key.value)) || !CanSend(s.accepts, 1) then Some(SendFailed)
      else None
  }

  /** What is wrong with the second, under the key derived from the first. */
  function SecondFault(s: Setup, key: Key, m: Message): Option<PairingError> {
    if m.PairRejected? then Some(Rejected(m.reason))
    else if !m.PairCertExchange? then Some(UnexpectedFrame)
    else if s.hmac(key, m.certDer) != m.hmac then Some(HmacVerifyFailed)
    else if !s.storeWorks then Some(StoreFailed)
    else if !CanSend(s.accepts, 2) then Some(SendFailed)
    else None
  }

  /** What is wrong with the third. */
  function ThirdFault(m: Message): Option<PairingError> {
    if m.PairAccepted? then None else if m.PairRejected? then Some(Rejected(m.reason)) else Some(UnexpectedFrame)
  }

  /** The first thing that goes wrong, the end of the stream included; and how many
      frames were read by then. */
  function FirstWrong(role: Role, s: Setup, inbox: seq<Message>, end: Connection.ReadError)
    : (Option<PairingError>, nat)
  {
    if RefusedAtOnce(role, s).Some? then (RefusedAtOnce(role, s), 0)
    else if |inbox| == 0 then (Some(ReadFailed(end)), 0)
    else if FirstFault(role, s, inbox[0]).Some? then (FirstFault(role, s, inbox[0]), 1)
    else if |inbox| == 1 then (Some(ReadFailed(end)), 1)
    else
      var key := s.session.value.finish(inbox[0].element).value;
      if SecondFault(s, key, inbox[1]).Some? then (SecondFault(s, key, inbox[1]), 2)
      else if |inbox| == 2 then (Some(ReadFailed(end)), 2)
      else (ThirdFault(inbox[2]), 3)
  }

  lemma KeyIs(role: Role, s: Setup, inbox: seq<Message>)
    requires RefusedAtOnce(role, s).None? && |inbox| > 0
    ensures FirstFault(role, s, inbox[0]).None? <==> DerivedKey(role, s, inbox).Some?
    ensures FirstFault(role, s, inbox[0]).None? ==>
      DerivedKey(role, s, inbox) == s.session.value.finish(inbox[0].element)
  {
  }

  lemma FirstReaction(role: Role, s: Setup, pin: Option<Pin>, m: Message)
    requires RefusedAtOnce(role, s).None?
    ensures var p := React(role, s, Open(role, s, pin), m);
      && p.read == 1
      && match FirstFault(role, s, m)
         case None => p == AwaitingCert(role, s, pin, s.session.value.finish(m.element).value)
         case Some(e) => p.stage == Done(Err(e))
  {
    if IsPeerElement(role, m) && ElementOut(role, s) {
      AfterFinish(s, Party(AwaitElement, pin, [OwnElement(role, s.session.value)], 1), s.session.value, m.element);
    }
  }

  lemma SecondReaction(role: Role, s: Setup, p: Party, key: Key, m: Message)
    requires p.stage == AwaitCert(key) && p.read == 1 && |p.sent| == 2
    ensures var q := React(role, s, p, m);
      && q.read == 2
      && match SecondFault(s, key, m)
         case None => q.stage == AwaitAck
         case Some(e) => q.stage == Done(Err(e))
  {
  }

  /** The verdict is a success exactly when nothing went wrong, and otherwise names
      the first thing that did; no frame behind it is read. */
  lemma VerdictIs(role: Role, s: Setup, pin: Option<Pin>, inbox: seq<Message>, end: Connection.ReadError)
    ensures var p := Outcome(role, s, pin, inbox, end);
      var (wrong, read) := FirstWrong(role, s, inbox, end);
      && p.stage.verdict == (if wrong.None? then Ok(()) else Err(wrong.value))
      && p.read == read
  {
    var p0 := Open(role, s, pin);
    if RefusedAtOnce(role, s).None? && |inbox| > 0 {
      FirstReaction(role, s, pin, inbox[0]);
      var p1 := React(role, s, p0, inbox[0]);
      assert Outcome(role, s, pin, inbox, end) == Drive(role, s, p1, inbox, end);
      if FirstFault(role, s, inbox[0]).None? && |inbox| > 1 {
        SecondReaction(role, s, p1, p1.stage.key, inbox[1]);
        FromCert(role, s, p1, inbox, end);
      }
    }
  }

  /** The refusal a conversation is answered with: 1 for an element no key comes of,
      2 for a wrong tag, 5 for a first or second frame out of place. */
  function RefusalCode(role: Role, s: Setup, inbox: seq<Message>): Option<uint8> {
    if RefusedAtOnce(role, s).Some? || |inbox| == 0 then None
    else
      match FirstFault(role, s, inbox[0])
      case Some(SpakeFailed) => Some(1)
      case Some(UnexpectedFrame) => Some(5)
      case Some(_) => None
      case None =>
        if |inbox| == 1 then None
        else
          match SecondFault(s, s.session.value.finish(inbox[0].element).value, inbox[1])
          case Some(HmacVerifyFailed) => Some(2)
          case Some(UnexpectedFrame) => Some(5)
          case _ => None
  }

  /** What a socket that takes `n` frames lets through. */
  function Through(accepts: Option<nat>, frames: seq<Message>): seq<Message> {
    if accepts.None? || |frames| <= accepts.value then frames else frames[..accepts.value]
  }

  /** What a flow tries to send: its element, on the client once the server's has
      come, its certificate once a key is derived, its acceptance once the peer's
      certificate is verified and pinned, and at most one refusal. */
  function Attempted(role: Role, s: Setup, inbox: seq<Message>): seq<Message> {
    var element :=
      s.hasCode && s.session.Some? && Fits(OwnElement(role, s.session.value))
      && (role.Server? || (|inbox| > 0 && inbox[0].PairSpakeA?));
    var key := DerivedKey(role, s, inbox);
    (if element then [OwnElement(role, s.session.value)] else [])
    + (if key.Some? then [PairCertExchange(s.cert, s.hmac(key.value, s.cert))] else [])
    + (if PeerVerified(role, s, inbox) then [PairAccepted] else [])
    + (match RefusalCode(role, s, inbox) { case Some(code) => [PairRejected(code)] case None => [] })
  }

  lemma FirstSends(role: Role, s: Setup, pin: Option<Pin>, inbox: seq<Message>)
    requires RefusedAtOnce(role, s).None? && |inbox| > 0 && FirstFault(role, s, inbox[0]).Some?
    ensures React(role, s, Open(role, s, pin), inbox[0]).sent == Through(s.accepts, Attempted(role, s, inbox))
  {
    if IsPeerElement(role, inbox[0]) && ElementOut(role, s) {
      var own := OwnElement(role, s.session.value);
      assert [own] + [PairRejected(1)] == [own, PairRejected(1)];
    }
  }

  lemma SecondSends(role: Role, s: Setup, pin: Option<Pin>, inbox: seq<Message>)
    requires RefusedAtOnce(role, s).None? && |inbox| > 1 && FirstFault(role, s, inbox[0]).None?
    ensures var p := AwaitingCert(role, s, pin, s.session.value.finish(inbox[0].element).value);
      React(role, s, p, inbox[1]).sent == Through(s.accepts, Attempted(role, s, inbox))
  {
    KeyIs(role, s, inbox);
  }

  lemma SendsNothingMore(role: Role, s: Setup, inbox: seq<Message>)
    ensures RefusedAtOnce(role, s).Some? || |inbox| == 0 ==>
      Through(s.accepts, Attempted(role, s, inbox)) == Open(role, s, None).sent
    ensures |inbox| == 1 && RefusedAtOnce(role, s).None? && FirstFault(role, s, inbox[0]).None? ==>
      Through(s.accepts, Attempted(role, s, inbox)) ==
        [OwnElement(role, s.session.value), OwnCert(s, s.session.value.finish(inbox[0].element).value)]
  {
    if |inbox| == 1 && RefusedAtOnce(role, s).None? {
      KeyIs(role, s, inbox);
    }
  }

  /** Everything a flow has sent when it ends, on any socket. */
  lemma SentIs(role: Role, s: Setup, pin: Option<Pin>, inbox: seq<Message>, end: Connection.ReadError)
    ensures Outcome(role, s, pin, inbox, end).sent == Through(s.accepts, Attempted(role, s, inbox))
  {
    SendsNothingMore(role, s, inbox);
    var p0 := Open(role, s, pin);
    assert p0.sent == Open(role, s, None).sent;
    if RefusedAtOnce(role, s).None? && |inbox| > 0 {
      FirstReaction(role, s, pin, inbox[0]);
      var p1 := React(role, s, p0, inbox[0]);
      assert Outcome(role, s, pin, inbox, end) == Drive(role, s, p1, inbox, end);
      if FirstFault(role, s, inbox[0]).Some? {
        FirstSends(role, s, pin, inbox);
      } else if |inbox| > 1 {
        SecondSends(role, s, pin, inbox);
        SecondReaction(role, s, p1, p1.stage.key, inbox[1]);
        FromCert(role, s, p1, inbox, end);
      }
    }
  }
}
