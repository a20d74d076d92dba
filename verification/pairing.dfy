/** The first-launch pairing flows of server and client. SPAKE2, HMAC-SHA256
    and SHA-256 are functions nothing is known about. */
module Pairing {
  import opened Words
  import opened Wire
  import opened Codec
  import Connection

  const SPAKE2_FAILURE: uint8 := 1
  const HMAC_MISMATCH: uint8 := 2
  const PROTOCOL_VIOLATION: uint8 := 5

  type Key = b: bytes | |b| == 32 witness seq(32, i => 0)
  type Pin = b: bytes | |b| == 32 witness seq(32, i => 0)

  datatype Role = Server | Client

  /** A started SPAKE2 session: the element to send, and the key that finishing
      with the peer's element derives, if it does. */
  datatype Session = Session(element: bytes, finish: bytes -> Option<Key>)

  /** One side's surroundings: whether a code was obtained, the session it
      starts (none for a malformed code), our certificate, the primitives,
      whether the pin file can be written, and how many frames the socket takes
      before it breaks, if it does. */
  datatype Setup = Setup(
    hasCode: bool,
    session: Option<Session>,
    cert: bytes,
    hmac: (Key, bytes) -> Tag,
    pinOf: bytes -> Pin,
    storeWorks: bool,
    accepts: Option<nat>)

  datatype PairingError =
    | NoCode
    | BadCode
    | ReadFailed(readError: Connection.ReadError)
    | SendFailed
    | Rejected(code: uint8)
    | UnexpectedFrame
    | SpakeFailed
    | HmacVerifyFailed
    | StoreFailed

  type Verdict = Result<(), PairingError>

  datatype Stage = AwaitElement | AwaitCert(key: Key) | AwaitAck | Done(verdict: Verdict)

  /** Where a flow stands, the pin on disk, and the frames sent and read so far. */
  datatype Party = Party(stage: Stage, pin: Option<Pin>, sent: seq<Message>, read: nat)

  // ----- the flow as reactions -----

  function Fail(p: Party, e: PairingError): Party {
    p.(stage := Done(Err(e)))
  }

  /** The socket takes one more frame after `n`. */
  predicate CanSend(accepts: Option<nat>, n: nat) {
    accepts.None? || n < accepts.value
  }

  function Say(s: Setup, p: Party, m: Message, next: Stage): Party {
    if Fits(m) && CanSend(s.accepts, |p.sent|) then p.(sent := p.sent + [m], stage := next) else Fail(p, SendFailed)
  }

  /** A refusal is sent on a best-effort basis; the failure stays the same. */
  function Refuse(s: Setup, p: Party, code: uint8, e: PairingError): Party {
    var q := Fail(p, e);
    if CanSend(s.accepts, |p.sent|) then q.(sent := p.sent + [PairRejected(code)]) else q
  }

  function OwnCert(s: Setup, key: Key): Message {
    PairCertExchange(s.cert, s.hmac(key, s.cert))
  }

  function Open(role: Role, s: Setup, pin: Option<Pin>): Party {
    var p := Party(AwaitElement, pin, [], 0);
    if !s.hasCode then Fail(p, NoCode)
    else if role.Client? then p
    else if s.session.None? then Fail(p, BadCode)
    else Say(s, p, PairSpakeA(s.session.value.element), AwaitElement)
  }

  function FinishSpake(s: Setup, p: Party, session: Session, peerElement: bytes): Party {
    match session.finish(peerElement)
    case None => Refuse(s, p, SPAKE2_FAILURE, SpakeFailed)
    case Some(key) => Say(s, p, OwnCert(s, key), AwaitCert(key))
  }

  function OnElement(role: Role, s: Setup, p: Party, m: Message): Party {
    if m.PairRejected? then Fail(p, Rejected(m.reason))
    else if role.Server? && m.PairSpakeB? && s.session.Some? then
      FinishSpake(s, p, s.session.value, m.element)
    else if role.Client? && m.PairSpakeA? then
      if s.session.None? then Fail(p, BadCode)
      else
        var p1 := Say(s, p, PairSpakeB(s.session.value.element), AwaitElement);
        if p1.stage.Done? then p1 else FinishSpake(s, p1, s.session.value, m.element)
    else Refuse(s, p, PROTOCOL_VIOLATION, UnexpectedFrame)
  }

  function OnCert(s: Setup, p: Party, key: Key, m: Message): Party {
    if m.PairRejected? then Fail(p, Rejected(m.reason))
    else if !m.PairCertExchange? then Refuse(s, p, PROTOCOL_VIOLATION, UnexpectedFrame)
    else if s.hmac(key, m.certDer) != m.hmac then Refuse(s, p, HMAC_MISMATCH, HmacVerifyFailed)
    else if !s.storeWorks then Fail(p, StoreFailed)
    else Say(s, p.(pin := Some(s.pinOf(m.certDer))), PairAccepted, AwaitAck)
  }

  function OnAck(p: Party, m: Message): Party {
    if m.PairAccepted? then p.(stage := Done(Ok(())))
    else if m.PairRejected? then Fail(p, Rejected(m.reason))
    else Fail(p, UnexpectedFrame)
  }

  function React(role: Role, s: Setup, p: Party, m: Message): (q: Party)
    requires !p.stage.Done?
    ensures q.read == p.read + 1
  {
    var p := p.(read := p.read + 1);
    match p.stage
    case AwaitElement => OnElement(role, s, p, m)
    case AwaitCert(key) => OnCert(s, p, key, m)
    case AwaitAck => OnAck(p, m)
  }

  /** The flow against everything the peer sends and the way its stream ends. */
  function Drive(role: Role, s: Setup, p: Party, inbox: seq<Message>, end: Connection.ReadError): (q: Party)
    requires p.read <= |inbox|
    ensures q.stage.Done? && p.read <= q.read <= |inbox|
    decreases |inbox| - p.read
  {
    if p.stage.Done? then p
    else if p.read == |inbox| then Fail(p, ReadFailed(end))
    else Drive(role, s, React(role, s, p, inbox[p.read]), inbox, end)
  }

  // ----- the flow as written -----

  /** The connection as the flow uses it, one frame at a time. */
  class Link {
    var inbox: seq<Message>
    const end: Connection.ReadError
    var outbox: seq<Message>
    const accepts: Option<nat>

    constructor (inbox: seq<Message>, end: Connection.ReadError, accepts: Option<nat>)
      ensures this.inbox == inbox && this.end == end && this.accepts == accepts && outbox == []
    {
      this.inbox := inbox;
      this.end := end;
      this.accepts := accepts;
      outbox := [];
    }

    method ReadFrame() returns (r: Result<Message, PairingError>)
      modifies `inbox
      ensures r == if old(inbox) == [] then Err(ReadFailed(end)) else Ok(old(inbox)[0])
      ensures inbox == if old(inbox) == [] then [] else old(inbox)[1..]
    {
      if inbox == [] {
        return Err(ReadFailed(end));
      }
      r := Ok(inbox[0]);
      inbox := inbox[1..];
    }

    method WriteFrame(m: Message) returns (r: Verdict)
      modifies `outbox
      ensures var ok := Fits(m) && CanSend(accepts, |old(outbox)|);
        && r == (if ok then Ok(()) else Err(SendFailed))
        && outbox == if ok then old(outbox) + [m] else old(outbox)
    {
      if !Fits(m) {
        return Err(SendFailed);
      }
      if accepts.Some? && |outbox| >= accepts.value {
        return Err(SendFailed);
      }
      outbox := outbox + [m];
      r := Ok(());
    }

    method SendReject(code: uint8)
      modifies `outbox
      ensures outbox == if CanSend(accepts, |old(outbox)|) then old(outbox) + [PairRejected(code)] else old(outbox)
    {
      var _ := WriteFrame(PairRejected(code));
    }
  }

  class PinStore {
    var pin: Option<Pin>
    const works: bool

    constructor (pin: Option<Pin>, works: bool)
      ensures this.pin == pin && this.works == works
    {
      this.pin := pin;
      this.works := works;
    }

    method Store(p: Pin) returns (r: Verdict)
      modifies this
      ensures r == if works then Ok(()) else Err(StoreFailed)
      ensures pin == if works then Some(p) else old(pin)
    {
      if !works {
        return Err(StoreFailed);
      }
      pin := Some(p);
      r := Ok(());
    }
  }

  predicate Serves(s: Setup, link: Link, store: PinStore) {
    store.works == s.storeWorks && link.accepts == s.accepts
  }

  /** What is left in the link and on disk once `p` describes the flow. */
  ghost predicate Reflects(p: Party, inbox: seq<Message>, link: Link, store: PinStore)
    reads link, store
  {
    && p.read <= |inbox| && link.inbox == inbox[p.read..]
    && link.outbox == p.sent
    && store.pin == p.pin
  }

  /** Waiting for the peer's own acceptance, with ours sent and the pin stored. */
  method ReadAck(
      link: Link, ghost role: Role, ghost s: Setup, ghost p: Party, ghost inbox: seq<Message>, ghost store: PinStore)
    returns (r: Verdict, ghost q: Party)
    requires p.stage.AwaitAck? && Reflects(p, inbox, link, store)
    modifies link
    ensures q == Drive(role, s, p, inbox, link.end)
    ensures r == q.stage.verdict && Reflects(q, inbox, link, store)
  {
    var frame := link.ReadFrame();
    if frame.Err? {
      q := Fail(p, ReadFailed(link.end));
      return Err(frame.error), q;
    }
    q := React(role, s, p, frame.value);
    if frame.value.PairAccepted? {
      return Ok(()), q;
    } else if frame.value.PairRejected? {
      return Err(Rejected(frame.value.reason)), q;
    } else {
      return Err(UnexpectedFrame), q;
    }
  }

  /** Verifying and pinning the peer's certificate and accepting it. */
  method CheckCert(
      link: Link, s: Setup, store: PinStore, key: Key, m: Message, ghost p: Party, ghost inbox: seq<Message>)
    returns (r: Verdict)
    requires Serves(s, link, store)
    requires p.stage == AwaitCert(key) && Reflects(p, inbox, link, store)
    modifies link, store
    ensures var q := OnCert(s, p, key, m);
      && Reflects(q, inbox, link, store)
      && r == (if q.stage.Done? then q.stage.verdict else Ok(()))
      && (q.stage.Done? ==> r.Err?)
  {
    if m.PairRejected? {
      return Err(Rejected(m.reason));
    }
    if !m.PairCertExchange? {
      link.SendReject(PROTOCOL_VIOLATION);
      return Err(UnexpectedFrame);
    }
    var expected := s.hmac(key, m.certDer);
    if expected != m.hmac {
      link.SendReject(HMAC_MISMATCH);
      return Err(HmacVerifyFailed);
    }
    var stored := store.Store(s.pinOf(m.certDer));
    if stored.Err? {
      return stored;
    }
    r := link.WriteFrame(PairAccepted);
  }

  /** Everything after our certificate went out. */
  method AwaitPeer(
      link: Link, s: Setup, store: PinStore, key: Key, ghost role: Role, ghost p: Party, ghost inbox: seq<Message>)
    returns (r: Verdict, ghost q: Party)
    requires Serves(s, link, store)
    requires p.stage == AwaitCert(key) && Reflects(p, inbox, link, store)
    modifies link, store
    ensures q == Drive(role, s, p, inbox, link.end)
    ensures r == q.stage.verdict && Reflects(q, inbox, link, store)
  {
    var frame := link.ReadFrame();
    if frame.Err? {
      q := Fail(p, ReadFailed(link.end));
      return Err(frame.error), q;
    }
    q := React(role, s, p, frame.value);
    r := CheckCert(link, s, store, key, frame.value, p.(read := p.read + 1), inbox);
    if r.Ok? {
      r, q := ReadAck(link, role, s, q, inbox, store);
    }
  }

  /** From the derived key on, both ends do the same. */
  method ExchangeCerts(
      link: Link, s: Setup, store: PinStore, key: Key, ghost role: Role, ghost p: Party, ghost inbox: seq<Message>)
    returns (r: Verdict, ghost q: Party)
    requires Serves(s, link, store) && !p.stage.Done?
    requires Reflects(p, inbox, link, store)
    modifies link, store
    ensures q == Drive(role, s, Say(s, p, OwnCert(s, key), AwaitCert(key)), inbox, link.end)
    ensures r == q.stage.verdict && Reflects(q, inbox, link, store)
  {
    var sent := link.WriteFrame(OwnCert(s, key));
    q := Say(s, p, OwnCert(s, key), AwaitCert(key));
    if sent.Err? {
      return sent, q;
    }
    r, q := AwaitPeer(link, s, store, key, role, q, inbox);
  }

  method RunServerPairingFlow(link: Link, s: Setup, store: PinStore) returns (r: Verdict, ghost q: Party)
    requires Serves(s, link, store) && link.outbox == []
    modifies link, store
    ensures q == Drive(Server, s, Open(Server, s, old(store.pin)), old(link.inbox), link.end)
    ensures r == q.stage.verdict && Reflects(q, old(link.inbox), link, store)
  {
    ghost var inbox := link.inbox;
    q := Open(Server, s, store.pin);
    if !s.hasCode {
      return Err(NoCode), q;
    }
    if s.session.None? {
      return Err(BadCode), q;
    }
    var session := s.session.value;
    var sent := link.WriteFrame(PairSpakeA(session.element));
    if sent.Err? {
      return sent, q;
    }
    var frame := link.ReadFrame();
    if frame.Err? {
      q := Fail(q, ReadFailed(link.end));
      return Err(frame.error), q;
    }
    ghost var p := q.(read := 1);
    q := React(Server, s, q, frame.value);
    if frame.value.PairRejected? {
      return Err(Rejected(frame.value.reason)), q;
    }
    if !frame.value.PairSpakeB? {
      link.SendReject(PROTOCOL_VIOLATION);
      return Err(UnexpectedFrame), q;
    }
    match session.finish(frame.value.element) {
      case None =>
        link.SendReject(SPAKE2_FAILURE);
        return Err(SpakeFailed), q;
      case Some(key) =>
        r, q := ExchangeCerts(link, s, store, key, Server, p, inbox);
    }
  }

  method RunClientPairingFlow(link: Link, s: Setup, store: PinStore) returns (r: Verdict, ghost q: Party)
    requires Serves(s, link, store) && link.outbox == []
    modifies link, store
    ensures q == Drive(Client, s, Open(Client, s, old(store.pin)), old(link.inbox), link.end)
    ensures r == q.stage.verdict && Reflects(q, old(link.inbox), link, store)
  {
    ghost var inbox := link.inbox;
    q := Open(Client, s, store.pin);
    if !s.hasCode {
      return Err(NoCode), q;
    }
    var frame := link.ReadFrame();
    if frame.Err? {
      q := Fail(q, ReadFailed(link.end));
      return Err(frame.error), q;
    }
    ghost var p := q.(read := 1);
    q := React(Client, s, q, frame.value);
    if frame.value.PairRejected? {
      return Err(Rejected(frame.value.reason)), q;
    }
    if !frame.value.PairSpakeA? {
      link.SendReject(PROTOCOL_VIOLATION);
      return Err(UnexpectedFrame), q;
    }
    if s.session.None? {
      return Err(BadCode), q;
    }
    var session := s.session.value;
    var sent := link.WriteFrame(PairSpakeB(session.element));
    if sent.Err? {
      return sent, q;
    }
    p := p.(sent := [PairSpakeB(session.element)]);
    match session.finish(frame.value.element) {
      case None =>
        link.SendReject(SPAKE2_FAILURE);
        return Err(SpakeFailed), q;
      case Some(key) =>
        r, q := ExchangeCerts(link, s, store, key, Client, p, inbox);
    }
  }
}
