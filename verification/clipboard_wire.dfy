/** Clipboard texts across the wire: chunking, framing, arbitrary
    fragmentation, decoding and reassembly put together. */
module ClipboardWire {
  import opened Words
  import opened Wire
  import opened Codec
  import opened Framing
  import opened Clipboard
  import opened ClipboardDelivery

  lemma FramesFit(b: bytes)
    ensures AllFit(Frames(b))
  {
    PiecesJoin(b);
  }

  lemma FitConcat(a: seq<Message>, b: seq<Message>, k: nat)
    requires AllFit(a) && AllFit(b) && k <= |b|
    ensures AllFit(a + b[..k])
  {
    forall i | 0 <= i < |a| + k ensures Fits((a + b[..k])[i]) {
      assert (a + b[..k])[i] == if i < |a| then a[i] else b[i - |a|];
    }
  }

  lemma {:induction false} FramesOfFit(sends: seq<Sending>)
    requires forall s :: s in sends ==> s.Valid()
    ensures AllFit(FramesOf(sends))
  {
    if sends != [] {
      var front, last := sends[..|sends| - 1], sends[|sends| - 1];
      FramesOfFit(front);
      assert last in sends;
      FramesFit(last.text);
      FitConcat(FramesOf(front), Frames(last.text), last.count);
    }
  }

  lemma {:induction false} ClipOnlyHas(stream: seq<Message>, m: Message)
    requires m in stream && m.ClipboardText?
    ensures m in ClipOnly(stream)
  {
    var front, last := stream[..|stream| - 1], stream[|stream| - 1];
    if m != last {
      assert stream == front + [last];
      ClipOnlyHas(front, m);
    }
  }

  /** Delivery only grows: what a prefix of a stream delivered stays delivered. */
  lemma {:induction false} DeliveryGrows(stream: seq<Message>, k: nat)
    requires k <= |stream|
    ensures FeedAll(START, stream[..k]).texts <= FeedAll(START, stream).texts
    ensures FeedAll(START, stream[..k]).errors <= FeedAll(START, stream).errors
  {
    if k == |stream| {
      assert stream[..k] == stream;
    } else {
      var front := stream[..|stream| - 1];
      DeliveryGrows(front, k);
      assert front[..k] == stream[..k];
    }
  }

  lemma StreamFits(sends: seq<Sending>, stream: seq<Message>)
    requires forall s :: s in sends ==> s.Valid()
    requires ClipOnly(stream) == FramesOf(sends)
    requires forall m :: m in stream && !m.ClipboardText? ==> Fits(m)
    ensures AllFit(stream)
  {
    FramesOfFit(sends);
    forall i | 0 <= i < |stream| ensures Fits(stream[i]) {
      if stream[i].ClipboardText? {
        ClipOnlyHas(stream, stream[i]);
      }
    }
  }

  /** End to end: texts of any length, cut short or not by a full queue,
      interleaved with any other frames that fit, put on the wire, received in
      any pieces and reassembled, come out as exactly the whole texts in order;
      no byte is left over, no frame is refused and no reassembly fails. */
  lemma TextsCrossTheWire(sends: seq<Sending>, stream: seq<Message>, chunks: seq<bytes>)
    requires forall s :: s in sends ==> s.Valid()
    requires ClipOnly(stream) == FramesOf(sends)
    requires forall m :: m in stream && !m.ClipboardText? ==> Fits(m)
    requires Concat(chunks) == StreamOf(stream)
    ensures var d := ArriveAll(DecodeAll([]), chunks);
      && d == Decoded(stream, [], None)
      && FeedAll(START, d.msgs).texts == WholeTexts(sends)
      && FeedAll(START, d.msgs).errors == 0
  {
    StreamFits(sends, stream);
    ArrivesWhole(stream, chunks);
    WholeTextsArrive(sends, stream);
  }

  /** When the connection is lost after any number of bytes, what was delivered
      is a prefix of the whole texts, and still nothing failed. */
  lemma LostConnectionDeliversAPrefix(sends: seq<Sending>, stream: seq<Message>, n: nat, chunks: seq<bytes>)
    requires forall s :: s in sends ==> s.Valid()
    requires ClipOnly(stream) == FramesOf(sends)
    requires forall m :: m in stream && !m.ClipboardText? ==> Fits(m)
    requires n <= |StreamOf(stream)| && Concat(chunks) == StreamOf(stream)[..n]
    ensures var d := ArriveAll(DecodeAll([]), chunks);
      && d.error == None
      && FeedAll(START, d.msgs).texts <= WholeTexts(sends)
      && FeedAll(START, d.msgs).errors == 0
  {
    StreamFits(sends, stream);
    ArrivesTorn(stream, n, chunks);
    WholeTextsArrive(sends, stream);
    DeliveryGrows(stream, WholeWithin(stream, n));
  }
}
