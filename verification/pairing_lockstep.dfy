/** The two pairing flows running against each other over two FIFO streams. */
module PairingLockstep {
  import opened Words
  import opened Wire
  import opened Codec
  import opened Pairing
  import opened PairingLanguage
  import Connection

  /** The frames on the way to one side are those the other has sent and this
      one has not read. */
  datatype Pair = Pair(server: Party, client: Party)

  datatype Move = ServerReads | ClientReads | ServerSeesClose | ClientSeesClose

  predicate CanRead(p: Party, peer: Party) {
    !p.stage.Done? && p.read < |peer.sent|
  }

  /** A side that failed drops the connection; what it sent is read first. */
  predicate CanSeeClose(p: Party, peer: Party) {
    !p.stage.Done? && p.read == |peer.sent| && peer.stage.Done? && peer.stage.verdict.Err?
  }

  predicate Enabled(x: Pair, m: Move) {
    match m
    case ServerReads => CanRead(x.server, x.client)
    case ClientReads => CanRead(x.client, x.server)
    case ServerSeesClose => CanSeeClose(x.server, x.client)
    case ClientSeesClose => CanSeeClose(x.client, x.server)
  }

  function Apply(sv: Setup, cl: Setup, x: Pair, m: Move): Pair
    requires Enabled(x, m)
  {
    match m
    case ServerReads => x.(server := React(Server, sv, x.server, x.client.sent[x.server.read]))
    case ClientReads => x.(client := React(Client, cl, x.client, x.server.sent[x.client.read]))
    case ServerSeesClose => x.(server := Fail(x.server, ReadFailed(Connection.Disconnected)))
    case ClientSeesClose => x.(client := Fail(x.client, ReadFailed(Connection.Disconnected)))
  }

  function Init(sv: Setup, cl: Setup, pinS: Option<Pin>, pinC: Option<Pin>): Pair {
    Pair(Open(Server, sv, pinS), Open(Client, cl, pinC))
  }

  /** `moves` can be made one after the other from `x`. */
  predicate Legal(sv: Setup, cl: Setup, x: Pair, moves: seq<Move>)
    decreases moves
  {
    moves == [] || (Enabled(x, moves[0]) && Legal(sv, cl, Apply(sv, cl, x, moves[0]), moves[1..]))
  }

  function After(sv: Setup, cl: Setup, x: Pair, moves: seq<Move>): Pair
    requires Legal(sv, cl, x, moves)
    decreases moves
  {
    if moves == [] then x else After(sv, cl, Apply(sv, cl, x, moves[0]), moves[1..])
  }

  predicate Finished(x: Pair) {
    x.server.stage.Done? && x.client.stage.Done?
  }

  // ----- progress, whatever the surroundings -----

  /** A flow has always sent one frame more than it read, except a client that
      has read nothing yet. */
  predicate Counted(role: Role, p: Party) {
    match p.stage
    case AwaitElement => p.read == 0 && |p.sent| == (if role.Server? then 1 else 0)
    case AwaitCert(_) => p.read == 1 && |p.sent| == 2
    case AwaitAck => p.read == 2 && |p.sent| == 3
    case Done(v) => p.read <= 3 && (v.Ok? ==> p.read == 3 && |p.sent| == 3)
  }

  lemma ReactCounted(role: Role, s: Setup, p: Party, m: Message)
    requires Counted(role, p) && !p.stage.Done?
    ensures Counted(role, React(role, s, p, m))
    ensures |p.sent| <= |React(role, s, p, m).sent|
  {
  }

  predicate Sound(x: Pair) {
    && Counted(Server, x.server) && Counted(Client, x.client)
    && x.server.read <= |x.client.sent| && x.client.read <= |x.server.sent|
  }

  lemma NoDeadlock(x: Pair)
    requires Sound(x)
    ensures Finished(x) <==> forall m :: !Enabled(x, m)
  {
    if forall m :: !Enabled(x, m) {
      assert !Enabled(x, ServerReads) && !Enabled(x, ClientReads);
      assert !Enabled(x, ServerSeesClose) && !Enabled(x, ClientSeesClose);
    }
  }

  function Work(p: Party): nat {
    if p.stage.Done? then 0 else if p.read < 4 then 4 - p.read else 1
  }

  /** No state the two can reach is a deadlock, and every move uses up work, so
      every exchange ends, whatever codes, keys, certificates or disks the two
      sides have. */
  lemma {:induction false} Progress(sv: Setup, cl: Setup, x: Pair, moves: seq<Move>)
    requires Sound(x) && Legal(sv, cl, x, moves)
    ensures var y := After(sv, cl, x, moves);
      && (Finished(y) <==> forall m :: !Enabled(y, m))
      && |moves| + Work(y.server) + Work(y.client) <= Work(x.server) + Work(x.client)
    decreases moves
  {
    if moves == [] {
      NoDeadlock(x);
    } else {
      var m := moves[0];
      if m.ServerReads? {
        ReactCounted(Server, sv, x.server, x.client.sent[x.server.read]);
      } else if m.ClientReads? {
        ReactCounted(Client, cl, x.client, x.server.sent[x.client.read]);
      }
      Progress(sv, cl, Apply(sv, cl, x, m), moves[1..]);
    }
  }

  /** From the start: at most eight moves, and none is left exactly when both
      flows have returned. */
  lemma ExchangeEnds(sv: Setup, cl: Setup, pinS: Option<Pin>, pinC: Option<Pin>, moves: seq<Move>)
    requires Legal(sv, cl, Init(sv, cl, pinS, pinC), moves)
    ensures var y := After(sv, cl, Init(sv, cl, pinS, pinC), moves);
      && |moves| <= 8
      && (Finished(y) <==> forall m :: !Enabled(y, m))
  {
    Progress(sv, cl, Init(sv, cl, pinS, pinC), moves);
  }

  // ----- outcomes -----

  /** A side able to run the flow: code, session, a certificate that fits a
      frame, a disk, a socket, and a key from the peer's element. */
  predicate Ready(role: Role, s: Setup, peer: Setup, key: Key) {
    && s.hasCode && s.session.Some? && peer.session.Some? && s.storeWorks && s.accepts.None?
    && Fits(OwnElement(role, s.session.value)) && Fits(OwnCert(s, key))
    && s.session.value.finish(peer.session.value.element) == Some(key)
  }

  /** `s` with key `key` accepts the tag its peer puts on its certificate. */
  predicate Accepts(s: Setup, key: Key, peer: Setup, peerKey: Key) {
    s.hmac(key, peer.cert) == peer.hmac(peerKey, peer.cert)
  }

  function Script(role: Role, s: Setup, key: Key, accepts: bool): seq<Message>
    requires s.session.Some?
  {
    [OwnElement(role, s.session.value), OwnCert(s, key), if accepts then PairAccepted else PairRejected(HMAC_MISMATCH)]
  }

  /** Where a ready side stands after reading `n` frames of a ready peer. */
  function At(
      role: Role, s: Setup, pin: Option<Pin>, key: Key, peerCert: bytes, accepts: bool, accepted: bool, n: nat): Party
    requires s.session.Some? && n <= 3
  {
    var script := Script(role, s, key, accepts);
    Party(
      if n == 0 then AwaitElement
      else if n == 1 then AwaitCert(key)
      else if !accepts then Done(Err(HmacVerifyFailed))
      else if n == 2 then AwaitAck
      else Done(if accepted then Ok(()) else Err(Rejected(HMAC_MISMATCH))),
      if n >= 2 && accepts then Some(s.pinOf(peerCert)) else pin,
      if n == 0 then (if role.Server? then script[..1] else []) else if n == 1 then script[..2] else script,
      n)
  }

  function Peer(role: Role): Role {
    if role.Server? then Client else Server
  }

  lemma FirstAt(role: Role, s: Setup, pin: Option<Pin>, key: Key, peer: Setup, accepts: bool, accepted: bool)
    requires Ready(role, s, peer, key)
    ensures React(role, s, At(role, s, pin, key, peer.cert, accepts, accepted, 0),
                  OwnElement(Peer(role), peer.session.value))
      == At(role, s, pin, key, peer.cert, accepts, accepted, 1)
  {
  }

  lemma SecondAt(role: Role, s: Setup, pin: Option<Pin>, key: Key, peer: Setup, peerKey: Key, accepted: bool)
    requires Ready(role, s, peer, key)
    ensures var accepts := Accepts(s, key, peer, peerKey);
      React(role, s, At(role, s, pin, key, peer.cert, accepts, accepted, 1), OwnCert(peer, peerKey))
        == At(role, s, pin, key, peer.cert, accepts, accepted, 2)
  {
  }

  lemma NextAt(role: Role, s: Setup, pin: Option<Pin>, key: Key, peer: Setup, peerKey: Key, accepted: bool, n: nat)
    requires Ready(role, s, peer, key) && n < 3
    requires var accepts := Accepts(s, key, peer, peerKey);
      !At(role, s, pin, key, peer.cert, accepts, accepted, n).stage.Done?
    ensures var accepts := Accepts(s, key, peer, peerKey);
      React(role, s, At(role, s, pin, key, peer.cert, accepts, accepted, n),
            Script(Peer(role), peer, peerKey, accepted)[n])
        == At(role, s, pin, key, peer.cert, accepts, accepted, n + 1)
  {
    if n == 0 {
      FirstAt(role, s, pin, key, peer, Accepts(s, key, peer, peerKey), accepted);
    } else if n == 1 {
      SecondAt(role, s, pin, key, peer, peerKey, accepted);
    }
  }

  /** Both sides follow their script. */
  predicate OnScript(sv: Setup, cl: Setup, pinS: Option<Pin>, pinC: Option<Pin>, ks: Key, kc: Key, x: Pair)
    requires Ready(Server, sv, cl, ks) && Ready(Client, cl, sv, kc)
  {
    var a, b := Accepts(sv, ks, cl, kc), Accepts(cl, kc, sv, ks);
    && x.server.read <= 3 && x.client.read <= 3
    && x.server == At(Server, sv, pinS, ks, cl.cert, a, b, x.server.read)
    && x.client == At(Client, cl, pinC, kc, sv.cert, b, a, x.client.read)
    && (!a ==> x.server.read <= 2) && (!b ==> x.client.read <= 2)
  }

  lemma ScriptStep(sv: Setup, cl: Setup, pinS: Option<Pin>, pinC: Option<Pin>, ks: Key, kc: Key, x: Pair, m: Move)
    requires Ready(Server, sv, cl, ks) && Ready(Client, cl, sv, kc)
    requires OnScript(sv, cl, pinS, pinC, ks, kc, x) && Enabled(x, m)
    ensures OnScript(sv, cl, pinS, pinC, ks, kc, Apply(sv, cl, x, m))
  {
    var a, b := Accepts(sv, ks, cl, kc), Accepts(cl, kc, sv, ks);
    match m {
      case ServerReads =>
        assert x.client.sent[x.server.read] == Script(Client, cl, kc, b)[x.server.read];
        NextAt(Server, sv, pinS, ks, cl, kc, b, x.server.read);
      case ClientReads =>
        assert x.server.sent[x.client.read] == Script(Server, sv, ks, a)[x.client.read];
        NextAt(Client, cl, pinC, kc, sv, ks, a, x.client.read);
      case ServerSeesClose =>
        assert false;
      case ClientSeesClose =>
        assert false;
    }
  }

  lemma {:induction false} StaysOnScript(
      sv: Setup, cl: Setup, pinS: Option<Pin>, pinC: Option<Pin>, ks: Key, kc: Key, x: Pair, moves: seq<Move>)
    requires Ready(Server, sv, cl, ks) && Ready(Client, cl, sv, kc)
    requires OnScript(sv, cl, pinS, pinC, ks, kc, x) && Legal(sv, cl, x, moves)
    ensures OnScript(sv, cl, pinS, pinC, ks, kc, After(sv, cl, x, moves))
    decreases moves
  {
    if moves != [] {
      ScriptStep(sv, cl, pinS, pinC, ks, kc, x, moves[0]);
      StaysOnScript(sv, cl, pinS, pinC, ks, kc, Apply(sv, cl, x, moves[0]), moves[1..]);
    }
  }

  /** The verdict of a side that accepts, or not, a peer that accepts, or not. */
  function VerdictOf(accepts: bool, accepted: bool): Verdict {
    if !accepts then Err(HmacVerifyFailed) else if accepted then Ok(()) else Err(Rejected(HMAC_MISMATCH))
  }

  /** Lockstep: whatever the interleaving, two ready sides end with verdicts and
      pins that depend on nothing but which tags verify. No frame is unexpected,
      and a pin is the hash of the peer's certificate. */
  lemma Lockstep(sv: Setup, cl: Setup, pinS: Option<Pin>, pinC: Option<Pin>, ks: Key, kc: Key, moves: seq<Move>)
    requires Ready(Server, sv, cl, ks) && Ready(Client, cl, sv, kc)
    requires Legal(sv, cl, Init(sv, cl, pinS, pinC), moves)
    ensures var y := After(sv, cl, Init(sv, cl, pinS, pinC), moves);
      var a, b := Accepts(sv, ks, cl, kc), Accepts(cl, kc, sv, ks);
      Finished(y) ==>
        && y.server.stage.verdict == VerdictOf(a, b) && y.client.stage.verdict == VerdictOf(b, a)
        && y.server.pin == (if a then Some(sv.pinOf(cl.cert)) else pinS)
        && y.client.pin == (if b then Some(cl.pinOf(sv.cert)) else pinC)
  {
    StaysOnScript(sv, cl, pinS, pinC, ks, kc, Init(sv, cl, pinS, pinC), moves);
  }

  /** The same code on both ends: both succeed, each with the other's pin. */
  lemma SameKeyPairs(sv: Setup, cl: Setup, key: Key, moves: seq<Move>)
    requires sv.hmac == cl.hmac
    requires Ready(Server, sv, cl, key) && Ready(Client, cl, sv, key)
    requires Legal(sv, cl, Init(sv, cl, None, None), moves)
    requires forall m :: !Enabled(After(sv, cl, Init(sv, cl, None, None), moves), m)
    ensures var y := After(sv, cl, Init(sv, cl, None, None), moves);
      && y.server.stage == Done(Ok(())) && y.client.stage == Done(Ok(()))
      && y.server.pin == Some(sv.pinOf(cl.cert)) && y.client.pin == Some(cl.pinOf(sv.cert))
  {
    ExchangeEnds(sv, cl, None, None, moves);
    Lockstep(sv, cl, None, None, key, key, moves);
  }

  /** Keys whose tags disagree on both certificates: both fail, neither pins. */
  lemma WrongCodeFails(sv: Setup, cl: Setup, ks: Key, kc: Key, moves: seq<Move>)
    requires Ready(Server, sv, cl, ks) && Ready(Client, cl, sv, kc)
    requires !Accepts(sv, ks, cl, kc) && !Accepts(cl, kc, sv, ks)
    requires Legal(sv, cl, Init(sv, cl, None, None), moves)
    requires forall m :: !Enabled(After(sv, cl, Init(sv, cl, None, None), moves), m)
    ensures var y := After(sv, cl, Init(sv, cl, None, None), moves);
      && y.server.stage == Done(Err(HmacVerifyFailed)) && y.client.stage == Done(Err(HmacVerifyFailed))
      && y.server.pin == None && y.client.pin == None
  {
    ExchangeEnds(sv, cl, None, None, moves);
    Lockstep(sv, cl, None, None, ks, kc, moves);
  }
}
