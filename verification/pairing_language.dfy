/** Which frame sequences each pairing flow accepts, when the pin changes, and
    when a refusal is sent. */
module PairingLanguage {
  import opened Words
  import opened Wire
  import opened Codec
  import opened Pairing
  import Connection

  predicate IsPeerElement(role: Role, m: Message) {
    if role.Server? then m.PairSpakeB? else m.PairSpakeA?
  }

  function OwnElement(role: Role, session: Session): Message {
    if role.Server? then PairSpakeA(session.element) else PairSpakeB(session.element)
  }

  /** The flow gets as far as reading its first frame. */
  predicate Starts(role: Role, s: Setup) {
    s.hasCode && (role.Server? ==> ElementOut(role, s))
  }

  /** Our element can go out: on the server at the start, on the client once the
      server's has come. */
  predicate ElementOut(role: Role, s: Setup) {
    s.hasCode && s.session.Some? && Fits(OwnElement(role, s.session.value)) && CanSend(s.accepts, 0)
  }

  /** The key of a flow that has sent its element and its certificate and read
      the peer's element as the first frame. */
  function DerivedKey(role: Role, s: Setup, inbox: seq<Message>): Option<Key> {
    if ElementOut(role, s) && inbox != [] && IsPeerElement(role, inbox[0]) then
      var key := s.session.value.finish(inbox[0].element);
      if key.Some? && Fits(OwnCert(s, key.value)) && CanSend(s.accepts, 1) then key else None
    else None
  }

  predicate TagMatches(s: Setup, key: Key, m: Message)
    requires m.PairCertExchange?
  {
    s.hmac(key, m.certDer) == m.hmac
  }

  /** The second frame carries a certificate whose tag is the HMAC of that very
      certificate under the derived key, and the pin file takes its hash. */
  predicate PeerVerified(role: Role, s: Setup, inbox: seq<Message>) {
    && DerivedKey(role, s, inbox).Some?
    && |inbox| >= 2 && inbox[1].PairCertExchange?
    && TagMatches(s, DerivedKey(role, s, inbox).value, inbox[1])
    && s.storeWorks
  }

  /** We can accept the peer, and it accepts us. */
  predicate BothAccept(s: Setup, inbox: seq<Message>) {
    CanSend(s.accepts, 2) && |inbox| >= 3 && inbox[2].PairAccepted?
  }

  /** The refusals, in terms of what the flow starts from and what it reads: for
      an element no key comes of, for a certificate with a wrong tag, and for a
      first or second frame that is neither what belongs there nor a rejection. */
  predicate ShouldRefuse(role: Role, s: Setup, inbox: seq<Message>, code: uint8) {
    var key := DerivedKey(role, s, inbox);
    || (&& code == SPAKE2_FAILURE
        && ElementOut(role, s) && inbox != [] && IsPeerElement(role, inbox[0])
        && s.session.value.finish(inbox[0].element).None? && CanSend(s.accepts, 1))
    || (&& code == HMAC_MISMATCH
        && key.Some? && |inbox| >= 2 && inbox[1].PairCertExchange?
        && !TagMatches(s, key.value, inbox[1]) && CanSend(s.accepts, 2))
    || (&& code == PROTOCOL_VIOLATION
        && Starts(role, s) && inbox != [] && !IsPeerElement(role, inbox[0]) && !inbox[0].PairRejected?
        && CanSend(s.accepts, if role.Server? then 1 else 0))
    || (&& code == PROTOCOL_VIOLATION
        && key.Some? && |inbox| >= 2 && !inbox[1].PairCertExchange? && !inbox[1].PairRejected?
        && CanSend(s.accepts, 2))
  }

  function Outcome(role: Role, s: Setup, pin: Option<Pin>, inbox: seq<Message>, end: Connection.ReadError): Party {
    Drive(role, s, Open(role, s, pin), inbox, end)
  }

  predicate Refuses(sent: seq<Message>, code: uint8) {
    sent != [] && sent[|sent| - 1] == PairRejected(code)
  }

  /** A flow that failed before it verified the peer: the pin is untouched, and
      a refusal is the last frame sent exactly when there should be one. */
  ghost predicate GaveUp(role: Role, s: Setup, pin: Option<Pin>, inbox: seq<Message>, p: Party) {
    && p.stage.Done? && p.stage.verdict.Err? && p.pin == pin
    && forall code: uint8 :: Refuses(p.sent, code) <==> ShouldRefuse(role, s, inbox, code)
  }

  lemma AfterOpen(role: Role, s: Setup, pin: Option<Pin>, inbox: seq<Message>)
    ensures var p := Open(role, s, pin);
      && p.pin == pin && p.read == 0
      && (if Starts(role, s) then
            p == Party(AwaitElement, pin, if role.Server? then [OwnElement(role, s.session.value)] else [], 0)
          else GaveUp(role, s, pin, inbox, p))
      && (inbox == [] && Starts(role, s) ==> GaveUp(role, s, pin, inbox, Fail(p, ReadFailed(Connection.Disconnected))))
  {
  }

  lemma AfterFinish(s: Setup, p: Party, session: Session, element: bytes)
    requires !p.stage.Done? && |p.sent| == 1 && !p.sent[0].PairRejected?
    ensures var q := FinishSpake(s, p, session, element);
      var key := session.finish(element);
      if key.Some? && Fits(OwnCert(s, key.value)) && CanSend(s.accepts, 1) then
        q == p.(stage := AwaitCert(key.value), sent := [p.sent[0], OwnCert(s, key.value)])
      else
        && q.stage.Done? && q.stage.verdict.Err? && q.pin == p.pin
        && forall code: uint8 :: Refuses(q.sent, code) <==> code == SPAKE2_FAILURE && key.None? && CanSend(s.accepts, 1)
  {
  }

  function AwaitingCert(role: Role, s: Setup, pin: Option<Pin>, key: Key): Party
    requires s.session.Some?
  {
    Party(AwaitCert(key), pin, [OwnElement(role, s.session.value), OwnCert(s, key)], 1)
  }

  /** The peer's element as the first frame. */
  lemma AfterPeerElement(role: Role, s: Setup, pin: Option<Pin>, inbox: seq<Message>)
    requires inbox != [] && Starts(role, s) && IsPeerElement(role, inbox[0])
    ensures var p := React(role, s, Open(role, s, pin), inbox[0]);
      var key := DerivedKey(role, s, inbox);
      if key.Some? then p == AwaitingCert(role, s, pin, key.value)
      else GaveUp(role, s, pin, inbox, p)
  {
    if ElementOut(role, s) {
      var own := OwnElement(role, s.session.value);
      AfterFinish(s, Party(AwaitElement, pin, [own], 1), s.session.value, inbox[0].element);
    }
  }

  /** Any other first frame. */
  lemma AfterOtherFrame(role: Role, s: Setup, pin: Option<Pin>, inbox: seq<Message>)
    requires inbox != [] && Starts(role, s) && !IsPeerElement(role, inbox[0])
    ensures GaveUp(role, s, pin, inbox, React(role, s, Open(role, s, pin), inbox[0]))
  {
  }

  /** The flow once the peer's certificate has verified and its pin is stored. */
  function Verified(role: Role, s: Setup, inbox: seq<Message>): Party
    requires PeerVerified(role, s, inbox)
  {
    var own := [OwnElement(role, s.session.value), OwnCert(s, DerivedKey(role, s, inbox).value)];
    var pin := Some(s.pinOf(inbox[1].certDer));
    if CanSend(s.accepts, 2) then Party(AwaitAck, pin, own + [PairAccepted], 2)
    else Party(Done(Err(SendFailed)), pin, own, 2)
  }

  lemma AfterCert(role: Role, s: Setup, pin: Option<Pin>, inbox: seq<Message>)
    requires |inbox| >= 2 && DerivedKey(role, s, inbox).Some?
    ensures var p := AwaitingCert(role, s, pin, DerivedKey(role, s, inbox).value);
      var q := React(role, s, p, inbox[1]);
      if PeerVerified(role, s, inbox) then q == Verified(role, s, inbox)
      else GaveUp(role, s, pin, inbox, q)
  {
  }

  lemma FromCert(role: Role, s: Setup, p1: Party, inbox: seq<Message>, end: Connection.ReadError)
    requires |inbox| >= 2 && p1.read == 1 && !p1.stage.Done?
    ensures var p2 := React(role, s, p1, inbox[1]);
      Drive(role, s, p1, inbox, end) ==
        if p2.stage.AwaitAck? then
          if |inbox| >= 3 then OnAck(p2.(read := 3), inbox[2]) else Fail(p2, ReadFailed(end))
        else Drive(role, s, p2, inbox, end)
  {
    var p2 := React(role, s, p1, inbox[1]);
    if p2.stage.AwaitAck? && |inbox| >= 3 {
      var p3 := React(role, s, p2, inbox[2]);
      assert p3 == OnAck(p2.(read := 3), inbox[2]) && p3.stage.Done?;
      assert Drive(role, s, p2, inbox, end) == Drive(role, s, p3, inbox, end);
    }
  }

  /** How every flow ends: with the last frame after the peer verified, or given
      up before. */
  lemma Ending(role: Role, s: Setup, pin: Option<Pin>, inbox: seq<Message>, end: Connection.ReadError)
    ensures var p := Outcome(role, s, pin, inbox, end);
      if !PeerVerified(role, s, inbox) then GaveUp(role, s, pin, inbox, p)
      else
        var q := Verified(role, s, inbox);
        if q.stage.Done? then p == q
        else if |inbox| >= 3 then p == OnAck(q.(read := 3), inbox[2])
        else p == Fail(q, ReadFailed(end))
  {
    AfterOpen(role, s, pin, inbox);
    var p0 := Open(role, s, pin);
    if Starts(role, s) && inbox != [] {
      var p1 := React(role, s, p0, inbox[0]);
      assert Outcome(role, s, pin, inbox, end) == Drive(role, s, p1, inbox, end);
      if IsPeerElement(role, inbox[0]) {
        AfterPeerElement(role, s, pin, inbox);
        if DerivedKey(role, s, inbox).Some? && |inbox| >= 2 {
          AfterCert(role, s, pin, inbox);
          FromCert(role, s, p1, inbox, end);
        }
      } else {
        AfterOtherFrame(role, s, pin, inbox);
      }
    }
  }

  /** The accepted language, exactly: a flow succeeds if and only if it read the
      peer's element, the peer's verified certificate and PairAccepted, and its
      own three frames went out; those are then all it sent, and it read no more. */
  lemma AcceptedLanguage(role: Role, s: Setup, pin: Option<Pin>, inbox: seq<Message>, end: Connection.ReadError)
    ensures var p := Outcome(role, s, pin, inbox, end);
      && (p.stage.verdict.Ok? <==> PeerVerified(role, s, inbox) && BothAccept(s, inbox))
      && (p.stage.verdict.Ok? ==>
            && p.read == 3
            && p.sent ==
               [OwnElement(role, s.session.value), OwnCert(s, DerivedKey(role, s, inbox).value), PairAccepted])
  {
    Ending(role, s, pin, inbox, end);
  }

  /** The pin changes exactly when the peer's certificate verified, and then to
      the hash of that certificate. */
  lemma PinIffVerified(role: Role, s: Setup, pin: Option<Pin>, inbox: seq<Message>, end: Connection.ReadError)
    ensures Outcome(role, s, pin, inbox, end).pin ==
      if PeerVerified(role, s, inbox) then Some(s.pinOf(inbox[1].certDer)) else pin
  {
    Ending(role, s, pin, inbox, end);
  }

  /** The flow stores the pin before it knows the peer's verdict: it fails with
      a pin on disk exactly when the certificate verified and the two acceptances
      were not both exchanged. */
  lemma HalfPairedIff(role: Role, s: Setup, inbox: seq<Message>, end: Connection.ReadError)
    ensures var p := Outcome(role, s, None, inbox, end);
      p.stage.verdict.Err? && p.pin.Some? <==> PeerVerified(role, s, inbox) && !BothAccept(s, inbox)
  {
    AcceptedLanguage(role, s, None, inbox, end);
    PinIffVerified(role, s, None, inbox, end);
  }

  /** A server whose session turns `element` into `key`, on a socket that works. */
  predicate Derives(s: Setup, element: bytes, key: Key) {
    && s.hasCode && s.session.Some? && s.accepts.None?
    && s.session.value.finish(element) == Some(key)
    && Fits(PairSpakeA(s.session.value.element)) && Fits(OwnCert(s, key))
  }

  function GoodCert(s: Setup, key: Key, cert: bytes): Message {
    PairCertExchange(cert, s.hmac(key, cert))
  }

  /** Such an input: the peer closes right after its verified certificate. */
  lemma HalfPaired(s: Setup, element: bytes, key: Key, cert: bytes)
    requires Derives(s, element, key) && s.storeWorks
    ensures var p := Outcome(Server, s, None, [PairSpakeB(element), GoodCert(s, key, cert)], Connection.Disconnected);
      p.stage.verdict.Err? && p.pin == Some(s.pinOf(cert))
  {
    var inbox := [PairSpakeB(element), GoodCert(s, key, cert)];
    HalfPairedIff(Server, s, inbox, Connection.Disconnected);
    PinIffVerified(Server, s, None, inbox, Connection.Disconnected);
  }

  /** Which refusal goes out, exactly, for every beginning and every conversation. */
  lemma RefusalIff(role: Role, s: Setup, pin: Option<Pin>, inbox: seq<Message>, end: Connection.ReadError, code: uint8)
    ensures Refuses(Outcome(role, s, pin, inbox, end).sent, code) <==> ShouldRefuse(role, s, inbox, code)
  {
    Ending(role, s, pin, inbox, end);
  }

  /** Failures the peer is not told of: a pin file that cannot be written, and a
      third frame that is out of place. */
  lemma SilentFailures(s: Setup, element: bytes, key: Key, cert: bytes, m: Message)
    requires Derives(s, element, key)
    requires !m.PairAccepted? && !m.PairRejected?
    ensures var inbox := [PairSpakeB(element), GoodCert(s, key, cert)];
      var p := Outcome(Server, s.(storeWorks := false), None, inbox, Connection.Disconnected);
      p.stage.verdict.Err? && forall code: uint8 :: !Refuses(p.sent, code)
    ensures var inbox := [PairSpakeB(element), GoodCert(s, key, cert), m];
      var p := Outcome(Server, s.(storeWorks := true), None, inbox, Connection.Disconnected);
      p.stage.verdict.Err? && forall code: uint8 :: !Refuses(p.sent, code)
  {
    var two := [PairSpakeB(element), GoodCert(s, key, cert)];
    var three := [PairSpakeB(element), GoodCert(s, key, cert), m];
    AcceptedLanguage(Server, s.(storeWorks := false), None, two, Connection.Disconnected);
    AcceptedLanguage(Server, s.(storeWorks := true), None, three, Connection.Disconnected);
    forall code: uint8
      ensures !Refuses(Outcome(Server, s.(storeWorks := false), None, two, Connection.Disconnected).sent, code)
      ensures !Refuses(Outcome(Server, s.(storeWorks := true), None, three, Connection.Disconnected).sent, code)
    {
      RefusalIff(Server, s.(storeWorks := false), None, two, Connection.Disconnected, code);
      RefusalIff(Server, s.(storeWorks := true), None, three, Connection.Disconnected, code);
    }
  }
}
