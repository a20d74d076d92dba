/** The wire message type and its constants. */
module Wire {
  import opened Words

  const FRAME_HEADER_LEN: nat := 3
  const MAX_PAYLOAD_LEN: nat := 0xFFFF

  const KEY_UP: uint8 := 0
  const KEY_DOWN: uint8 := 1

  /** A Rust `String`: bytes that satisfy the grammar of section 4 of RFC 3629. */
  type Utf8String = s: bytes | ValidUtf8(s) witness []

  /** An HMAC-SHA256 tag: exactly 32 bytes. */
  type Tag = s: bytes | |s| == 32 witness seq(32, i => 0)

  datatype Message =
    | Hello(protoVersion: uint16, peerName: Utf8String)
    | HelloAck(accepted: bool, screenW: uint16, screenH: uint16)
    | MouseMoveRel(dx: int16, dy: int16)
    | MouseButton(button: uint8, state: uint8)
    | MouseWheel(dx: int16, dy: int16)
    | KeyEvent(hid: uint16, state: uint8, modifiers: uint8)
    | ClipboardText(chunkFlags: uint8, text: bytes)
    | TakeControl(entryY: uint16)
    | ReleaseControl(exitY: uint16)
    | Heartbeat(seqNo: uint32)
    | Bye(reason: uint8)
    | EchoPing(tsNs: uint64)
    | EchoPong(tsNs: uint64)
    | PairSpakeA(element: bytes)
    | PairSpakeB(element: bytes)
    | PairCertExchange(certDer: bytes, hmac: Tag)
    | PairAccepted
    | PairRejected(reason: uint8)

  predicate IsTail(b: uint8) {
    0x80 <= b <= 0xBF
  }

  /** The number of bytes of the first UTF-8 character of `s`, or 0 when `s`
      does not start with one (UTF8-1 to UTF8-4 of RFC 3629, section 4). */
  function CharLen(s: bytes): (n: nat)
    ensures n <= |s|
  {
    if |s| >= 1 && s[0] <= 0x7F then 1
    else if |s| >= 2 && 0xC2 <= s[0] <= 0xDF && IsTail(s[1]) then 2
    else if |s| >= 3 && IsTail(s[1]) && IsTail(s[2]) &&
            (|| (s[0] == 0xE0 && 0xA0 <= s[1])
             || 0xE1 <= s[0] <= 0xEC
             || (s[0] == 0xED && s[1] <= 0x9F)
             || 0xEE <= s[0] <= 0xEF) then 3
    else if |s| >= 4 && IsTail(s[1]) && IsTail(s[2]) && IsTail(s[3]) &&
            (|| (s[0] == 0xF0 && 0x90 <= s[1])
             || 0xF1 <= s[0] <= 0xF3
             || (s[0] == 0xF4 && s[1] <= 0x8F)) then 4
    else 0
  }

  predicate ValidUtf8(s: bytes) {
    s == [] || (CharLen(s) > 0 && ValidUtf8(s[CharLen(s)..]))
  }

  predicate IsMouseMessage(m: Message) {
    m.MouseMoveRel? || m.MouseButton? || m.MouseWheel?
  }

  /** What a captured input event becomes on the wire. */
  predicate IsInput(m: Message) {
    IsMouseMessage(m) || m.KeyEvent?
  }

  /** The frames a reader handles: everything up to and including a `Bye`. */
  function UntilBye(msgs: seq<Message>): seq<Message> {
    if msgs == [] then []
    else if msgs[0].Bye? then [msgs[0]]
    else [msgs[0]] + UntilBye(msgs[1..])
  }

  lemma {:induction false} UntilByeStops(msgs: seq<Message>, n: nat)
    requires n <= |msgs| && forall k :: 0 <= k < n ==> !msgs[k].Bye?
    requires n < |msgs| ==> msgs[n].Bye?
    ensures UntilBye(msgs) == if n < |msgs| then msgs[..n + 1] else msgs[..n]
  {
    if n > 0 {
      UntilByeStops(msgs[1..], n - 1);
    }
  }

  /** The held-key tracker both ends run on a message: Down inserts, Up removes,
      an unknown state byte and every other variant leave the set alone. */
  function TrackKey(held: set<uint16>, m: Message): set<uint16> {
    match m
    case KeyEvent(hid, state, _) =>
      if state == KEY_DOWN then held + {hid}
      else if state == KEY_UP then held - {hid}
      else held
    case _ => held
  }

  /** The tracker folded over a stream, oldest message first. */
  function FoldKeys(held: set<uint16>, msgs: seq<Message>): set<uint16>
    decreases msgs
  {
    if msgs == [] then held else FoldKeys(TrackKey(held, msgs[0]), msgs[1..])
  }

  /** `msgs[i]` is the last Down or Up of key `k` in the stream. */
  ghost predicate LastKeyEventAt(msgs: seq<Message>, k: uint16, i: nat) {
    && i < |msgs|
    && IsKeyOf(msgs[i], k)
    && forall j :: i < j < |msgs| ==> !IsKeyOf(msgs[j], k)
  }

  predicate IsKeyOf(m: Message, k: uint16) {
    m.KeyEvent? && m.hid == k && (m.state == KEY_DOWN || m.state == KEY_UP)
  }

  lemma {:induction false} FoldConcat(held: set<uint16>, a: seq<Message>, b: seq<Message>)
    ensures FoldKeys(held, a + b) == FoldKeys(FoldKeys(held, a), b)
    decreases a
  {
    if a == [] {
      assert a + b == b;
    } else {
      assert (a + b)[1..] == a[1..] + b;
      FoldConcat(TrackKey(held, a[0]), a[1..], b);
    }
  }

  lemma FoldSnoc(held: set<uint16>, a: seq<Message>, m: Message)
    ensures FoldKeys(held, a + [m]) == TrackKey(FoldKeys(held, a), m)
  {
    FoldConcat(held, a, [m]);
    assert [m][1..] == [];
  }

  /** What the fold means without mentioning a set: a key is held after the
      stream exactly when its last Down/Up event in it is a Down, or it has
      none and was held before. */
  lemma {:induction false} FoldMeaning(held: set<uint16>, msgs: seq<Message>, k: uint16)
    ensures k in FoldKeys(held, msgs) <==>
      || (exists i: nat :: LastKeyEventAt(msgs, k, i) && msgs[i].state == KEY_DOWN)
      || (k in held && forall i :: 0 <= i < |msgs| ==> !IsKeyOf(msgs[i], k))
    decreases msgs
  {
    if msgs != [] {
      var n := |msgs| - 1;
      var front, last := msgs[..n], msgs[n];
      assert msgs == front + [last];
      FoldSnoc(held, front, last);
      FoldMeaning(held, front, k);
      if IsKeyOf(last, k) {
        assert LastKeyEventAt(msgs, k, n);
      } else {
        assert forall i: nat :: LastKeyEventAt(msgs, k, i) <==> LastKeyEventAt(front, k, i);
        assert forall i :: 0 <= i < |front| ==> front[i] == msgs[i];
        assert forall i: nat :: LastKeyEventAt(front, k, i) ==> msgs[i] == front[i];
      }
    }
  }
}
