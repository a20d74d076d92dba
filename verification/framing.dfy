/** Byte streams of frames: what a stream decodes to, whatever the pieces in
    which it arrives. */
module Framing {
  import opened Words
  import opened Wire
  import opened Codec
  import opened CodecProofs

  // ----- one frame -----

  lemma HeaderOf(m: Message, x: bytes)
    requires Fits(m)
    ensures var b := Frame(m) + x; var n := |Payload(m)|;
      |b| == 3 + n + |x| && b[0] == TypeByte(m) && U16(b[1..3]) == n && b[3..] == Payload(m) + x
  {
    var p := Payload(m);
    var b := Frame(m) + x;
    assert b[1..3] == Le(|p|, 2);
    Widths();
    LeInverse(|p|, 2);
    assert b[3..] == p + x;
  }

  /** A frame decodes to its message and leaves what follows it intact. */
  lemma DecodesOwnFrame(m: Message, suffix: bytes)
    requires Fits(m)
    ensures DecodeFrame(Frame(m) + suffix) == Ok(Some((m, suffix)))
  {
    HeaderOf(m, suffix);
    var b, n := Frame(m) + suffix, |Payload(m)|;
    assert b[3..3 + n] == b[3..][..n] == Payload(m) + [];
    assert b[3 + n..] == b[3..][n..] == suffix;
    DecodesOwnPayload(m, []);
  }

  /** The accepted frames, exactly: the announced number of bytes is there, the
      type byte is the message's, and the payload starts with the message's
      encoding; only what lies behind the announced length is left over. */
  lemma FrameIff(b: bytes, m: Message, rest: bytes)
    ensures DecodeFrame(b) == Ok(Some((m, rest))) <==>
      && FRAME_HEADER_LEN <= |b|
      && var n := U16(b[1..3]);
      && FRAME_HEADER_LEN + n <= |b|
      && b[0] == TypeByte(m)
      && Payload(m) <= b[FRAME_HEADER_LEN..FRAME_HEADER_LEN + n]
      && rest == b[FRAME_HEADER_LEN + n..]
  {
    if FRAME_HEADER_LEN <= |b| {
      var n := U16(b[1..3]);
      if FRAME_HEADER_LEN + n <= |b| {
        DecodeIff(b[0], b[FRAME_HEADER_LEN..FRAME_HEADER_LEN + n], m);
      }
    }
  }

  /** More bytes behind a decided frame change nothing but what is left over. */
  lemma DecodeStable(b: bytes, x: bytes)
    ensures match DecodeFrame(b)
      case Err(e) => DecodeFrame(b + x) == Err(e)
      case Ok(Some(p)) => DecodeFrame(b + x) == Ok(Some((p.0, p.1 + x)))
      case Ok(None) => true
  {
    if FRAME_HEADER_LEN <= |b| {
      assert (b + x)[1..3] == b[1..3];
      var end := FRAME_HEADER_LEN + U16(b[1..3]);
      if end <= |b| {
        assert (b + x)[FRAME_HEADER_LEN..end] == b[FRAME_HEADER_LEN..end];
        assert (b + x)[end..] == b[end..] + x;
      }
    }
  }

  /** A frame that is not all there yet asks for more bytes. */
  lemma CutFrame(m: Message, k: nat)
    requires Fits(m) && k < |Frame(m)|
    ensures DecodeFrame(Frame(m)[..k]) == Ok(None)
  {
    HeaderOf(m, []);
    assert Frame(m) + [] == Frame(m);
    if FRAME_HEADER_LEN <= k {
      assert Frame(m)[..k][1..3] == Frame(m)[1..3];
    }
  }

  // ----- a stream -----

  /** Decoding until bytes run out or a frame is refused. */
  datatype Decoded = Decoded(msgs: seq<Message>, rest: bytes, error: Option<WireError>)

  function DecodeAll(b: bytes): Decoded
    decreases |b|
  {
    match DecodeFrame(b)
    case Err(e) => Decoded([], b, Some(e))
    case Ok(None) => Decoded([], b, None)
    case Ok(Some((m, rest))) =>
      var d := DecodeAll(rest);
      Decoded([m] + d.msgs, d.rest, d.error)
  }

  /** What a reader has after the next bytes arrive: a refused frame ends the
      decoding, and bytes behind it stay unread. */
  function Arrive(d: Decoded, chunk: bytes): Decoded {
    if d.error.Some? then d.(rest := d.rest + chunk)
    else
      var e := DecodeAll(d.rest + chunk);
      Decoded(d.msgs + e.msgs, e.rest, e.error)
  }

  function ArriveAll(d: Decoded, chunks: seq<bytes>): Decoded
    decreases chunks
  {
    if chunks == [] then d else ArriveAll(Arrive(d, chunks[0]), chunks[1..])
  }

  function Concat(chunks: seq<bytes>): bytes {
    if chunks == [] then [] else chunks[0] + Concat(chunks[1..])
  }

  lemma {:induction false} ArriveIsDecode(b: bytes, chunk: bytes)
    ensures Arrive(DecodeAll(b), chunk) == DecodeAll(b + chunk)
    decreases |b|
  {
    DecodeStable(b, chunk);
    match DecodeFrame(b)
    case Err(_) =>
    case Ok(None) =>
      assert [] + DecodeAll(b + chunk).msgs == DecodeAll(b + chunk).msgs;
    case Ok(Some((m, rest))) =>
      ArriveIsDecode(rest, chunk);
      var d := DecodeAll(rest);
      if d.error == None {
        var e := DecodeAll(d.rest + chunk);
        assert [m] + (d.msgs + e.msgs) == ([m] + d.msgs) + e.msgs;
      }
  }

  /** Fragmentation independence: any bytes, well-formed or not, arriving in any
      pieces behind any buffered ones, give the messages, the residue and the
      error of decoding the whole at once. */
  lemma {:induction false} FragmentationIndependence(buffered: bytes, chunks: seq<bytes>)
    ensures ArriveAll(DecodeAll(buffered), chunks) == DecodeAll(buffered + Concat(chunks))
    decreases chunks
  {
    if chunks == [] {
      assert buffered + [] == buffered;
    } else {
      ArriveIsDecode(buffered, chunks[0]);
      FragmentationIndependence(buffered + chunks[0], chunks[1..]);
      Assoc(buffered, chunks[0], Concat(chunks[1..]));
    }
  }

  // ----- what a writer put on the wire -----

  predicate AllFit(msgs: seq<Message>) {
    forall i :: 0 <= i < |msgs| ==> Fits(msgs[i])
  }

  function StreamOf(msgs: seq<Message>): bytes {
    if msgs == [] then [] else Frame(msgs[0]) + StreamOf(msgs[1..])
  }

  lemma {:induction false} StreamSnoc(msgs: seq<Message>, m: Message)
    ensures StreamOf(msgs + [m]) == StreamOf(msgs) + Frame(m)
  {
    if msgs == [] {
      assert [m][1..] == [];
    } else {
      assert (msgs + [m])[1..] == msgs[1..] + [m];
      StreamSnoc(msgs[1..], m);
    }
  }

  lemma Uncons<T>(s: seq<T>, t: seq<T>)
    requires s != []
    ensures [s[0]] + (s[1..] + t) == s + t
  {
  }

  lemma UnconsTake<T>(s: seq<T>, k: nat)
    requires k < |s|
    ensures [s[0]] + s[1..][..k] == s[..k + 1]
  {
  }

  lemma TakePastFirst(f: bytes, tail: bytes, n: nat)
    requires n <= |f| + |tail|
    ensures (f + tail)[..n] == if n < |f| then f[..n] else f + tail[..n - |f|]
  {
  }

  lemma OneMore(m: Message, tail: bytes)
    requires Fits(m)
    ensures var d := DecodeAll(tail);
      DecodeAll(Frame(m) + tail) == Decoded([m] + d.msgs, d.rest, d.error)
  {
    DecodesOwnFrame(m, tail);
  }

  /** Whole frames followed by anything decode to their messages, followed by
      whatever the anything decodes to. */
  lemma {:induction false} StreamThenTail(msgs: seq<Message>, tail: bytes)
    requires AllFit(msgs)
    ensures var d := DecodeAll(tail);
      DecodeAll(StreamOf(msgs) + tail) == Decoded(msgs + d.msgs, d.rest, d.error)
    decreases msgs
  {

    var d := DecodeAll(tail);
    if msgs == [] {
      assert [] + tail == tail && [] + d.msgs == d.msgs;
    } else {
      var m, more := msgs[0], msgs[1..];
      assert AllFit(more);
      StreamThenTail(more, tail);
      Assoc(Frame(m), StreamOf(more), tail);
      OneMore(m, StreamOf(more) + tail);
      Uncons(msgs, d.msgs);
    }
  }

  /** How many of `msgs` lie wholly within the first `n` bytes of their stream. */
  function WholeWithin(msgs: seq<Message>, n: nat): (k: nat)
    ensures k <= |msgs|
  {
    if msgs == [] || n < |Frame(msgs[0])| then 0
    else 1 + WholeWithin(msgs[1..], n - |Frame(msgs[0])|)
  }

  /** A stream torn after any number of bytes yields exactly the messages that
      were wholly through, and never an error. */
  lemma {:induction false} TornStream(msgs: seq<Message>, n: nat)
    requires AllFit(msgs) && n <= |StreamOf(msgs)|
    ensures var d := DecodeAll(StreamOf(msgs)[..n]);
      d.error == None && d.msgs == msgs[..WholeWithin(msgs, n)]
    decreases msgs
  {

    if msgs == [] {
    } else {
      var m, more := msgs[0], msgs[1..];
      TakePastFirst(Frame(m), StreamOf(more), n);
      if n < |Frame(m)| {
        CutFrame(m, n);
      } else {
        var n1 := n - |Frame(m)|;
        assert AllFit(more);
        TornStream(more, n1);
        OneMore(m, StreamOf(more)[..n1]);
        UnconsTake(msgs, WholeWithin(more, n1));
      }
    }
  }

  /** Whole frames, in whatever pieces, come out whole and in order. */
  lemma ArrivesWhole(msgs: seq<Message>, chunks: seq<bytes>)
    requires AllFit(msgs) && Concat(chunks) == StreamOf(msgs)
    ensures ArriveAll(DecodeAll([]), chunks) == Decoded(msgs, [], None)
  {
    var b := StreamOf(msgs);
    FragmentationIndependence([], chunks);
    StreamThenTail(msgs, []);
    Assoc([], b, []);
    assert [] + b == b && b + [] == b && msgs + [] == msgs;
  }

  /** A connection lost after `n` bytes, in whatever pieces they came. */
  lemma ArrivesTorn(msgs: seq<Message>, n: nat, chunks: seq<bytes>)
    requires AllFit(msgs) && n <= |StreamOf(msgs)| && Concat(chunks) == StreamOf(msgs)[..n]
    ensures ArriveAll(DecodeAll([]), chunks).msgs == msgs[..WholeWithin(msgs, n)]
    ensures ArriveAll(DecodeAll([]), chunks).error == None
  {
    FragmentationIndependence([], chunks);
    TornStream(msgs, n);
    assert [] + Concat(chunks) == Concat(chunks);
  }

  /** A stream has one reading: messages that fit and produce the same bytes are
      the same messages. */
  lemma StreamInjective(a: seq<Message>, b: seq<Message>)
    requires AllFit(a) && AllFit(b) && StreamOf(a) == StreamOf(b)
    ensures a == b
  {
    StreamThenTail(a, []);
    StreamThenTail(b, []);
    assert StreamOf(a) + [] == StreamOf(a) && a + [] == a && b + [] == b;
  }
}
