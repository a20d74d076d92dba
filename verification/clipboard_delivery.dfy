/** What arrives when clipboard payloads are chunked, interleaved and cut. */
module ClipboardDelivery {
  import opened Words
  import opened Wire
  import opened Clipboard

  /** A receiver with everything it has delivered and how often it failed. */
  datatype Feed = Feed(assembly: Assembly, texts: seq<Utf8String>, errors: nat)

  const START := Feed(FRESH, [], 0)

  function FeedOne(f: Feed, m: Message): Feed {
    var (a, r) := Ingest(f.assembly, m);
    match r
    case Ok(Some(text)) => Feed(a, f.texts + [text], f.errors)
    case Ok(None) => Feed(a, f.texts, f.errors)
    case Err(_) => Feed(a, f.texts, f.errors + 1)
  }

  function FeedAll(f: Feed, msgs: seq<Message>): Feed {
    if msgs == [] then f else FeedOne(FeedAll(f, msgs[..|msgs| - 1]), msgs[|msgs| - 1])
  }

  lemma {:induction false} FeedConcat(f: Feed, a: seq<Message>, b: seq<Message>)
    ensures FeedAll(f, a + b) == FeedAll(FeedAll(f, a), b)
  {
    if b == [] {
      assert a + b == a;
    } else {
      assert (a + b)[..|a + b| - 1] == a + b[..|b| - 1];
      FeedConcat(f, a, b[..|b| - 1]);
    }
  }

  /** The clipboard frames of a stream, in order. */
  function ClipOnly(msgs: seq<Message>): seq<Message> {
    if msgs == [] then []
    else
      var front, last := ClipOnly(msgs[..|msgs| - 1]), msgs[|msgs| - 1];
      if last.ClipboardText? then front + [last] else front
  }

  lemma {:induction false} NoiseIsIgnored(f: Feed, msgs: seq<Message>)
    ensures FeedAll(f, msgs) == FeedAll(f, ClipOnly(msgs))
  {
    if msgs != [] {
      var front, last := msgs[..|msgs| - 1], msgs[|msgs| - 1];
      NoiseIsIgnored(f, front);
      if last.ClipboardText? {
        assert (ClipOnly(front) + [last])[..|ClipOnly(front)|] == ClipOnly(front);
      }
    }
  }

  /** One text offered to the outbound queue; the first `count` of its frames
      went in before the queue was full (all of them when it never was). */
  datatype Sending = Sending(text: Utf8String, count: nat) {
    predicate Valid() {
      count <= PieceCount(text)
    }

    predicate Whole() {
      count == PieceCount(text)
    }

    function Sent(): seq<Message>
      requires Valid()
    {
      Frames(text)[..count]
    }
  }

  function FramesOf(sends: seq<Sending>): seq<Message>
    requires forall s :: s in sends ==> s.Valid()
  {
    if sends == [] then []
    else FramesOf(sends[..|sends| - 1]) + sends[|sends| - 1].Sent()
  }

  function WholeTexts(sends: seq<Sending>): seq<Utf8String> {
    if sends == [] then []
    else
      WholeTexts(sends[..|sends| - 1]) +
      if sends[|sends| - 1].Whole() then [sends[|sends| - 1].text] else []
  }

  function Join(pieces: seq<bytes>): bytes {
    if pieces == [] then [] else Join(pieces[..|pieces| - 1]) + pieces[|pieces| - 1]
  }

  lemma PieceExtends(b: bytes, i: nat)
    requires i < PieceCount(b)
    ensures b[..Boundary(b, i)] + Piece(b, i) == b[..Boundary(b, i + 1)]
    ensures i + 1 == PieceCount(b) ==> Boundary(b, i + 1) == |b|
    ensures 0 < |Piece(b, i)| <= CHUNK_SIZE || (b == [] && Piece(b, i) == [])
  {
  }

  lemma {:induction false} JoinPrefix(b: bytes, k: nat)
    requires k <= PieceCount(b)
    ensures Join(Pieces(b)[..k]) == b[..Boundary(b, k)]
  {
    if k > 0 {
      JoinPrefix(b, k - 1);
      PieceExtends(b, k - 1);
      assert Pieces(b)[..k][..k - 1] == Pieces(b)[..k - 1];
    } else {
      assert b[..Boundary(b, 0)] == [];
    }
  }

  /** The chunks of a payload are the payload, and fit the chunk size. */
  lemma PiecesJoin(b: bytes)
    ensures Join(Pieces(b)) == b
    ensures forall i :: 0 <= i < |Pieces(b)| ==> |Pieces(b)[i]| <= CHUNK_SIZE
    ensures |Pieces(b)| > 1 ==> forall i :: 0 <= i < |Pieces(b)| ==> Pieces(b)[i] != []
  {
    var n := PieceCount(b);
    JoinPrefix(b, n);
    PieceExtends(b, n - 1);
    assert Pieces(b)[..n] == Pieces(b);
    assert b[..|b|] == b;
    forall i | 0 <= i < n
      ensures |Pieces(b)[i]| <= CHUNK_SIZE && (n > 1 ==> Pieces(b)[i] != [])
    {
      PieceExtends(b, i);
    }
  }

  lemma FlagBits(i: nat, n: nat)
    requires i < n
    ensures HasFirst(FlagsAt(i, n)) <==> i == 0
    ensures HasLast(FlagsAt(i, n)) <==> i + 1 == n
  {
  }

  /** What the receiver does with the `i`-th chunk of a payload of `n` chunks. */
  /** The frames in numbers: slices of 4096 bytes, flagged 1 first and 2 last, 3 when
      there is only one. */
  lemma FramesInNumbers(b: bytes, i: nat)
    requires i < |Frames(b)|
    ensures |Frames(b)| == if b == [] then 1 else (|b| + 4095) / 4096
    ensures Frames(b)[i] == ClipboardText(
      (if i == 0 then 1 else 0) + (if 4096 * (i + 1) >= |b| then 2 else 0),
      if 4096 * (i + 1) >= |b| then b[4096 * i..] else b[4096 * i..4096 * (i + 1)])
  {
  }

  lemma FeedChunk(f: Feed, pieces: seq<bytes>, i: nat)
    requires i < |pieces|
    ensures var begun := i == 0 || f.assembly.inProgress;
      var buffer := if i == 0 then pieces[i] else f.assembly.buffer + pieces[i];
      FeedOne(f, FrameAt(pieces, i)) ==
        if !begun then f.(errors := f.errors + 1)
        else if i + 1 < |pieces| then f.(assembly := Assembly(buffer, true))
        else if ValidUtf8(buffer) then Feed(FRESH, f.texts + [buffer], f.errors)
        else Feed(FRESH, f.texts, f.errors + 1)
  {
    FlagBits(i, |pieces|);
    assert [] + pieces[i] == pieces[i];
  }

  lemma JoinStep(pieces: seq<bytes>, k: nat)
    requires 0 < k <= |pieces|
    ensures Join(pieces[..k]) == Join(pieces[..k - 1]) + pieces[k - 1]
    ensures k == |pieces| ==> Join(pieces[..k]) == Join(pieces)
    ensures k == 1 ==> Join(pieces[..k]) == pieces[0]
  {
    assert pieces[..k][..k - 1] == pieces[..k - 1];
    if k == |pieces| {
      assert pieces[..k] == pieces;
    }
    if k == 1 {
      assert Join(pieces[..0]) == [] && [] + pieces[0] == pieces[0];
    }
  }

  lemma FeedStep(f: Feed, pieces: seq<bytes>, k: nat)
    requires 0 < k <= |pieces|
    ensures FeedAll(f, Flagged(pieces)[..k]) ==
      FeedOne(FeedAll(f, Flagged(pieces)[..k - 1]), FrameAt(pieces, k - 1))
  {
    assert Flagged(pieces)[..k][..k - 1] == Flagged(pieces)[..k - 1];
  }

  /** Feeding the first `k` chunks of a payload, whatever was in progress. */
  lemma {:induction false} FeedPrefix(f: Feed, pieces: seq<bytes>, k: nat)
    requires k <= |pieces| && 0 < |pieces| && ValidUtf8(Join(pieces))
    ensures FeedAll(f, Flagged(pieces)[..k]) ==
      if k == 0 then f
      else if k < |pieces| then f.(assembly := Assembly(Join(pieces[..k]), true))
      else f.(assembly := FRESH, texts := f.texts + [Join(pieces)])
  {
    if k > 0 {
      FeedPrefix(f, pieces, k - 1);
      FeedStep(f, pieces, k);
      JoinStep(pieces, k);
      FeedChunk(FeedAll(f, Flagged(pieces)[..k - 1]), pieces, k - 1);
    }
  }

  /** Delivery: any texts, each sent whole or cut short by a full queue and
      interleaved with any other frames, come out as exactly the whole texts,
      in order, with no error and no mixing. */
  lemma {:induction false} WholeTextsArrive(sends: seq<Sending>, stream: seq<Message>)
    requires forall s :: s in sends ==> s.Valid()
    requires ClipOnly(stream) == FramesOf(sends)
    ensures FeedAll(START, stream).texts == WholeTexts(sends)
    ensures FeedAll(START, stream).errors == 0
  {
    NoiseIsIgnored(START, stream);
    FeedSends(sends);
  }

  lemma {:induction false} FeedSends(sends: seq<Sending>)
    requires forall s :: s in sends ==> s.Valid()
    ensures var f := FeedAll(START, FramesOf(sends));
      f.texts == WholeTexts(sends) && f.errors == 0
  {
    if sends != [] {
      var front, last := sends[..|sends| - 1], sends[|sends| - 1];
      FeedSends(front);
      FeedConcat(START, FramesOf(front), last.Sent());
      PiecesJoin(last.text);
      FeedPrefix(FeedAll(START, FramesOf(front)), Pieces(last.text), last.count);
    }
  }

  // ----- any frames at all -----

  predicate ClipStream(msgs: seq<Message>) {
    forall i :: 0 <= i < |msgs| ==> msgs[i].ClipboardText?
  }

  function TextsFrom(msgs: seq<Message>, i: nat): bytes
    requires ClipStream(msgs) && i <= |msgs|
  {
    if i == |msgs| then [] else TextsFrom(msgs[..|msgs| - 1], i) + msgs[|msgs| - 1].text
  }

  /** Frame `i` is the latest with FIRST, and no frame from it on has LAST. */
  ghost predicate OpenAt(msgs: seq<Message>, i: nat)
    requires ClipStream(msgs)
  {
    && i < |msgs| && HasFirst(msgs[i].chunkFlags)
    && (forall j :: i < j < |msgs| ==> !HasFirst(msgs[j].chunkFlags))
    && (forall j :: i <= j < |msgs| ==> !HasLast(msgs[j].chunkFlags))
  }

  /** Frame `i` is the latest with FIRST, and the last frame, alone, has LAST. */
  ghost predicate CompleteAt(msgs: seq<Message>, i: nat)
    requires ClipStream(msgs)
  {
    && i < |msgs| && HasFirst(msgs[i].chunkFlags)
    && (forall j :: i < j < |msgs| ==> !HasFirst(msgs[j].chunkFlags))
    && (forall j :: i <= j < |msgs| ==> (HasLast(msgs[j].chunkFlags) <==> j == |msgs| - 1))
  }

  lemma OpenSnoc(msgs: seq<Message>, i: nat)
    requires msgs != [] && ClipStream(msgs)
    ensures var n: nat := |msgs| - 1;
      var (front, m) := (msgs[..n], msgs[n]);
      var open := if HasFirst(m.chunkFlags) then i == n else OpenAt(front, i);
      && (OpenAt(msgs, i) <==> open && !HasLast(m.chunkFlags))
      && (CompleteAt(msgs, i) <==> open && HasLast(m.chunkFlags))
  {
    var n: nat := |msgs| - 1;
    var front := msgs[..n];
    assert forall j :: 0 <= j < n ==> front[j] == msgs[j];
    if i < n && (OpenAt(msgs, i) || CompleteAt(msgs, i)) {
      assert !HasFirst(msgs[n].chunkFlags);
    }
  }

  /** What the reassembler holds after any clipboard frames whatever: exactly the
      bytes since the latest FIRST, as long as no LAST came since. */
  lemma {:induction false} HoldsTheOpenPayload(msgs: seq<Message>)
    requires ClipStream(msgs)
    ensures var a := FeedAll(START, msgs).assembly;
      && (a.inProgress <==> exists i: nat :: OpenAt(msgs, i))
      && (!a.inProgress ==> a == FRESH)
      && forall i: nat :: OpenAt(msgs, i) ==> a.buffer == TextsFrom(msgs, i)
  {
    if msgs != [] {
      var n: nat := |msgs| - 1;
      var front, m := msgs[..n], msgs[n];
      HoldsTheOpenPayload(front);
      var before := FeedAll(START, front).assembly;
      forall i: nat
        ensures OpenAt(msgs, i) <==>
          !HasLast(m.chunkFlags) && if HasFirst(m.chunkFlags) then i == n else OpenAt(front, i)
      {
        OpenSnoc(msgs, i);
      }
      if HasFirst(m.chunkFlags) {
        assert TextsFrom(msgs, n) == [] + m.text by {
          assert TextsFrom(front, n) == [];
        }
        assert !HasLast(m.chunkFlags) ==> OpenAt(msgs, n);
      } else if before.inProgress {
        var i: nat :| OpenAt(front, i);
        assert !HasLast(m.chunkFlags) ==> OpenAt(msgs, i);
      }
    }
  }

  lemma OneFrameDelivers(f: Feed, m: Message, t: Utf8String)
    requires m.ClipboardText?
    ensures FeedOne(f, m).texts == f.texts + [t] <==>
      && HasLast(m.chunkFlags) && (HasFirst(m.chunkFlags) || f.assembly.inProgress)
      && (if HasFirst(m.chunkFlags) then [] else f.assembly.buffer) + m.text == t
  {
    assert f.texts + [t] != f.texts;
    assert forall u: Utf8String ::
      f.texts + [u] == f.texts + [t] ==> (f.texts + [u])[|f.texts|] == (f.texts + [t])[|f.texts|];
  }

  /** The payload the last frame completes, given the one open before it. */
  lemma CompletesIff(msgs: seq<Message>, t: bytes)
    requires msgs != [] && ClipStream(msgs)
    ensures var n: nat := |msgs| - 1;
      var (a, m) := (FeedAll(START, msgs[..n]).assembly, msgs[n]);
      (exists i: nat :: CompleteAt(msgs, i) && TextsFrom(msgs, i) == t) <==>
        && HasLast(m.chunkFlags) && (HasFirst(m.chunkFlags) || a.inProgress)
        && (if HasFirst(m.chunkFlags) then [] else a.buffer) + m.text == t
  {
    var n: nat := |msgs| - 1;
    var front, m := msgs[..n], msgs[n];
    HoldsTheOpenPayload(front);
    forall i: nat
      ensures CompleteAt(msgs, i) <==>
        HasLast(m.chunkFlags) && if HasFirst(m.chunkFlags) then i == n else OpenAt(front, i)
    {
      OpenSnoc(msgs, i);
    }
    assert TextsFrom(msgs, n) == [] + m.text by {
      assert TextsFrom(front, n) == [];
    }
    if HasLast(m.chunkFlags) {
      if HasFirst(m.chunkFlags) {
        assert CompleteAt(msgs, n);
      } else if FeedAll(START, front).assembly.inProgress {
        var i: nat :| OpenAt(front, i);
        assert CompleteAt(msgs, i);
      }
    }
  }

  /** Delivery, for any clipboard frames whatever: the last frame delivers a text
      if and only if it completes a payload, and the text is all bytes of the
      frames since that payload's FIRST, if they are UTF-8. */
  lemma DeliversIff(msgs: seq<Message>, t: Utf8String)
    requires msgs != [] && ClipStream(msgs)
    ensures FeedAll(START, msgs).texts == FeedAll(START, msgs[..|msgs| - 1]).texts + [t] <==>
      exists i: nat :: CompleteAt(msgs, i) && TextsFrom(msgs, i) == t
  {
    OneFrameDelivers(FeedAll(START, msgs[..|msgs| - 1]), msgs[|msgs| - 1], t);
    CompletesIff(msgs, t);
  }

  /** The refusals: a frame without FIRST when no payload is open, and a frame that
      completes a payload whose bytes are not UTF-8. */
  lemma RefusesIff(msgs: seq<Message>)
    requires msgs != [] && ClipStream(msgs)
    ensures var n: nat := |msgs| - 1;
      var r := Ingest(FeedAll(START, msgs[..n]).assembly, msgs[n]).1;
      && (r == Err(ChunkWithoutFirst) <==>
            !HasFirst(msgs[n].chunkFlags) && forall i: nat :: !OpenAt(msgs[..n], i))
      && (r == Err(NotUtf8) <==> exists i: nat :: CompleteAt(msgs, i) && !ValidUtf8(TextsFrom(msgs, i)))
  {
    var n: nat := |msgs| - 1;
    var a, m := FeedAll(START, msgs[..n]).assembly, msgs[n];
    HoldsTheOpenPayload(msgs[..n]);
    var b := (if HasFirst(m.chunkFlags) then [] else a.buffer) + m.text;
    CompletesIff(msgs, b);
    if i: nat :| CompleteAt(msgs, i) && !ValidUtf8(TextsFrom(msgs, i)) {
      CompletesIff(msgs, TextsFrom(msgs, i));
    }
  }

  /** FIRST and LAST are the bits 1 and 2 of the flags; the others do not matter. */
  lemma FlagsAreBits(flags: uint8)
    ensures HasFirst(flags) <==> (flags as bv8) & 1 != 0
    ensures HasLast(flags) <==> (flags as bv8) & 2 != 0
  {
  }

  // ----- drops in the middle -----

  /** The chunks of a payload that survive a queue that drops some of them. */
  function Surviving(pieces: seq<bytes>, kept: seq<bool>, k: nat): seq<Message>
    requires |kept| == |pieces| && k <= |kept|
  {
    if k == 0 then []
    else Surviving(pieces, kept, k - 1) + if kept[k - 1] then [FrameAt(pieces, k - 1)] else []
  }

  predicate AllKept(kept: seq<bool>, k: nat)
    requires k <= |kept|
  {
    forall i :: 0 <= i < k ==> kept[i]
  }

  function SurvivingBytes(pieces: seq<bytes>, kept: seq<bool>, k: nat): bytes
    requires |kept| == |pieces| && k <= |kept|
  {
    if k == 0 then []
    else SurvivingBytes(pieces, kept, k - 1) + if kept[k - 1] then pieces[k - 1] else []
  }

  lemma {:induction false} WhatSurvives(pieces: seq<bytes>, kept: seq<bool>, k: nat)
    requires |kept| == |pieces| && k <= |kept|
    requires forall i :: 0 <= i < |pieces| ==> pieces[i] != []
    ensures AllKept(kept, k) ==> SurvivingBytes(pieces, kept, k) == Join(pieces[..k])
    ensures !AllKept(kept, k) ==> |SurvivingBytes(pieces, kept, k)| < |Join(pieces[..k])|
  {
    if k > 0 {
      WhatSurvives(pieces, kept, k - 1);
      JoinStep(pieces, k);
      assert AllKept(kept, k) <==> AllKept(kept, k - 1) && kept[k - 1];
    }
  }

  /** The receiver after the first `k` chunks, those dropped left out. */
  function Fed(f: Feed, pieces: seq<bytes>, kept: seq<bool>, k: nat): Feed
    requires |kept| == |pieces| && k <= |kept|
  {
    if k == 0 then f
    else if kept[k - 1] then FeedOne(Fed(f, pieces, kept, k - 1), FrameAt(pieces, k - 1))
    else Fed(f, pieces, kept, k - 1)
  }

  lemma {:induction false} FedIsFeed(f: Feed, pieces: seq<bytes>, kept: seq<bool>, k: nat)
    requires |kept| == |pieces| && k <= |kept|
    ensures FeedAll(f, Surviving(pieces, kept, k)) == Fed(f, pieces, kept, k)
  {
    if k > 0 {
      FedIsFeed(f, pieces, kept, k - 1);
      var before := Surviving(pieces, kept, k - 1);
      if kept[k - 1] {
        assert (before + [FrameAt(pieces, k - 1)])[..|before|] == before;
      } else {
        assert before + [] == before;
      }
    }
  }

  /** The receiver takes the chunks for parts of a payload: their own, or the one
      it was in the middle of when their first is missing. */
  predicate Begun(f: Feed, kept: seq<bool>)
    requires kept != []
  {
    kept[0] || f.assembly.inProgress
  }

  /** The bytes of that payload after the first `k` chunks. */
  function Piled(f: Feed, pieces: seq<bytes>, kept: seq<bool>, k: nat): bytes
    requires |kept| == |pieces| > 0 && k <= |kept|
  {
    (if kept[0] then [] else f.assembly.buffer) + SurvivingBytes(pieces, kept, k)
  }

  lemma PiledStep(f: Feed, pieces: seq<bytes>, kept: seq<bool>, k: nat)
    requires |kept| == |pieces| && 0 < k <= |kept|
    ensures Piled(f, pieces, kept, k) ==
      if kept[k - 1] then Piled(f, pieces, kept, k - 1) + pieces[k - 1] else Piled(f, pieces, kept, k - 1)
    ensures k == 1 && kept[0] ==> Piled(f, pieces, kept, k) == pieces[0]
    ensures k == 1 && !kept[0] ==> Piled(f, pieces, kept, k) == f.assembly.buffer
  {
    var base: bytes := if kept[0] then [] else f.assembly.buffer;
    Assoc(base, SurvivingBytes(pieces, kept, k - 1), if kept[k - 1] then pieces[k - 1] else []);
    NothingAppended(Piled(f, pieces, kept, k - 1));
    assert SurvivingBytes(pieces, kept, 0) == [];
    NothingAppended(pieces[0]);
    NothingAppended(f.assembly.buffer);
  }

  /** The receiver part way through: the survivors pile up, or are refused one
      by one. */
  predicate PartWay(f: Feed, pieces: seq<bytes>, kept: seq<bool>, k: nat, g: Feed)
    requires |kept| == |pieces| > 0 && k <= |kept|
  {
    if Begun(f, kept) then g == f.(assembly := Assembly(Piled(f, pieces, kept, k), true))
    else g.assembly == f.assembly && g.texts == f.texts
  }

  lemma PilesFirst(f: Feed, pieces: seq<bytes>, kept: seq<bool>)
    requires |kept| == |pieces| > 1
    ensures PartWay(f, pieces, kept, 1, Fed(f, pieces, kept, 1))
  {
    PiledStep(f, pieces, kept, 1);
    FeedChunk(f, pieces, 0);
    assert Fed(f, pieces, kept, 0) == f;
  }

  lemma PilesMore(f: Feed, pieces: seq<bytes>, kept: seq<bool>, k: nat, g: Feed)
    requires |kept| == |pieces| && 0 < k < |kept| - 1 && PartWay(f, pieces, kept, k, g)
    ensures PartWay(f, pieces, kept, k + 1, if kept[k] then FeedOne(g, FrameAt(pieces, k)) else g)
  {
    PiledStep(f, pieces, kept, k + 1);
    FeedChunk(g, pieces, k);
  }

  lemma {:induction false} PilesUp(f: Feed, pieces: seq<bytes>, kept: seq<bool>, k: nat)
    requires |kept| == |pieces| && 0 < k < |kept|
    ensures PartWay(f, pieces, kept, k, Fed(f, pieces, kept, k))
  {
    if k == 1 {
      PilesFirst(f, pieces, kept);
    } else {
      PilesUp(f, pieces, kept, k - 1);
      PilesMore(f, pieces, kept, k - 1, Fed(f, pieces, kept, k - 1));
    }
  }

  /** A receiver that ends with `b`, as a text if it is one. */
  function Delivers(f: Feed, b: bytes): Feed {
    if ValidUtf8(b) then Feed(FRESH, f.texts + [b], f.errors) else Feed(FRESH, f.texts, f.errors + 1)
  }

  lemma LastChunk(f: Feed, pieces: seq<bytes>, kept: seq<bool>)
    requires |kept| == |pieces| > 0
    ensures var n := |kept|;
      var g := Fed(f, pieces, kept, n);
      if Begun(f, kept) && kept[n - 1] then g == Delivers(f, Piled(f, pieces, kept, n)) else g.texts == f.texts
  {
    var n := |kept|;
    PiledStep(f, pieces, kept, n);
    if n > 1 {
      PilesUp(f, pieces, kept, n - 1);
    }
    if kept[n - 1] {
      FeedChunk(Fed(f, pieces, kept, n - 1), pieces, n - 1);
    }
  }

  lemma Outcome(f: Feed, pieces: seq<bytes>, kept: seq<bool>)
    requires |kept| == |pieces| > 0
    ensures var n := |kept|;
      var g := FeedAll(f, Surviving(pieces, kept, n));
      if Begun(f, kept) && kept[n - 1] then g == Delivers(f, Piled(f, pieces, kept, n)) else g.texts == f.texts
  {
    FedIsFeed(f, pieces, kept, |kept|);
    LastChunk(f, pieces, kept);
  }

  lemma KeptIffJoined(pieces: seq<bytes>, kept: seq<bool>)
    requires |kept| == |pieces| > 0
    requires |pieces| > 1 ==> forall i :: 0 <= i < |pieces| ==> pieces[i] != []
    requires kept[0] && kept[|kept| - 1]
    ensures AllKept(kept, |kept|) ==> SurvivingBytes(pieces, kept, |kept|) == Join(pieces)
    ensures !AllKept(kept, |kept|) ==> |SurvivingBytes(pieces, kept, |kept|)| < |Join(pieces)|
  {
    if |pieces| > 1 {
      WhatSurvives(pieces, kept, |kept|);
      JoinStep(pieces, |pieces|);
    } else {
      JoinStep(pieces, 1);
      assert SurvivingBytes(pieces, kept, 0) == [] && [] + pieces[0] == pieces[0];
    }
  }

  /** The one way to get a text without all of its chunks: its first is missing,
      and what was left of an earlier payload happens to make up for the loss. */
  predicate MadeUpFor(f: Feed, pieces: seq<bytes>, kept: seq<bool>, b: bytes)
    requires |kept| == |pieces| > 0
  {
    && !kept[0] && f.assembly.inProgress && kept[|kept| - 1]
    && f.assembly.buffer + SurvivingBytes(pieces, kept, |kept|) == b
  }

  lemma AddsOneIff(f: Feed, b: bytes, t: Utf8String)
    ensures Delivers(f, b).texts == f.texts + [t] <==> b == t
    ensures f.texts != f.texts + [t]
  {
    assert |f.texts + [t]| == |f.texts| + 1;
    if ValidUtf8(b) {
      assert (f.texts + [b])[|f.texts|] == b && (f.texts + [t])[|f.texts|] == t;
    }
  }

  lemma JoinedIffKept(f: Feed, pieces: seq<bytes>, kept: seq<bool>)
    requires |kept| == |pieces| > 0 && ValidUtf8(Join(pieces))
    requires |pieces| > 1 ==> forall i :: 0 <= i < |pieces| ==> pieces[i] != []
    ensures FeedAll(f, Surviving(pieces, kept, |kept|)).texts == f.texts + [Join(pieces)] <==>
      AllKept(kept, |kept|) || MadeUpFor(f, pieces, kept, Join(pieces))
  {
    Outcome(f, pieces, kept);
    AddsOneIff(f, Piled(f, pieces, kept, |kept|), Join(pieces));
    NothingAppended(SurvivingBytes(pieces, kept, |kept|));
    if kept[0] && kept[|kept| - 1] {
      KeptIffJoined(pieces, kept);
    }
  }

  /** The server's inbound queue can drop a single chunk and keep going. Whatever
      the receiver was in the middle of, the text then arrives if and only if no
      chunk of it was dropped, or the rest of an earlier payload made up for its
      missing first ones. */
  lemma ArrivesIffNothingDropped(f: Feed, text: Utf8String, kept: seq<bool>)
    requires |kept| == PieceCount(text)
    ensures FeedAll(f, Surviving(Pieces(text), kept, |kept|)).texts == f.texts + [text] <==>
      AllKept(kept, |kept|) || MadeUpFor(f, Pieces(text), kept, text)
  {
    PiecesJoin(text);
    JoinedIffKept(f, Pieces(text), kept);
  }

  ghost predicate AddsOther(f: Feed, g: Feed, text: Utf8String) {
    exists t: Utf8String :: t != text && g.texts == f.texts + [t]
  }

  lemma AddsOtherIff(f: Feed, b: bytes, text: Utf8String)
    ensures AddsOther(f, Delivers(f, b), text) <==> ValidUtf8(b) && b != text
    ensures !AddsOther(f, f, text)
  {
    forall t: Utf8String ensures f.texts != f.texts + [t] {
      AddsOneIff(f, b, t);
    }
    if ValidUtf8(b) && b != text {
      assert Delivers(f, b).texts == f.texts + [b];
    }
    forall t: Utf8String ensures Delivers(f, b).texts == f.texts + [t] <==> b == t {
      AddsOneIff(f, b, t);
    }
  }

  /** When chunks are dropped, a text other than the one sent is delivered if and
      only if a payload was begun and its last chunk came, and the bytes piled up
      by then, an earlier payload's rest perhaps among them, are UTF-8 and not
      that text. */
  lemma AnotherTextIff(f: Feed, text: Utf8String, kept: seq<bool>)
    requires |kept| == PieceCount(text)
    ensures var b := Piled(f, Pieces(text), kept, |kept|);
      AddsOther(f, FeedAll(f, Surviving(Pieces(text), kept, |kept|)), text) <==>
        Begun(f, kept) && kept[|kept| - 1] && ValidUtf8(b) && b != text
  {
    Outcome(f, Pieces(text), kept);
    AddsOtherIff(f, Piled(f, Pieces(text), kept, |kept|), text);
  }

  /** A drop strictly between the first and the last chunk is worse than a lost
      text: a shorter text that nobody sent is delivered, without an error,
      whenever what is left happens to be UTF-8. */
  lemma MiddleDropDeliversAnotherText(f: Feed, text: Utf8String, kept: seq<bool>)
    requires |kept| == PieceCount(text)
    requires kept[0] && kept[|kept| - 1] && !AllKept(kept, |kept|)
    requires ValidUtf8(SurvivingBytes(Pieces(text), kept, |kept|))
    ensures var b := SurvivingBytes(Pieces(text), kept, |kept|);
      FeedAll(f, Surviving(Pieces(text), kept, |kept|)) == Feed(FRESH, f.texts + [b], f.errors) && |b| < |text|
  {
    PiecesJoin(text);
    Outcome(f, Pieces(text), kept);
    NothingAppended(SurvivingBytes(Pieces(text), kept, |kept|));
    KeptIffJoined(Pieces(text), kept);
  }

  function Letters(n: nat): (r: bytes)
    ensures |r| == n
  {
    seq(n, i => 0x41)
  }

  lemma {:induction false} AsciiIsUtf8(b: bytes)
    requires forall i :: 0 <= i < |b| ==> b[i] <= 0x7F
    ensures ValidUtf8(b)
  {
    if b != [] {
      AsciiIsUtf8(b[1..]);
    }
  }

  lemma LettersPieces()
    ensures Pieces(Letters(12288)) == [Letters(4096), Letters(4096), Letters(4096)]
  {
    var b := Letters(12288);
    assert PieceCount(b) == 3;
    assert Piece(b, 0) == Letters(4096) && Piece(b, 1) == Letters(4096) && Piece(b, 2) == Letters(4096);
  }

  lemma FirstAndThird(a: bytes, b: bytes, c: bytes)
    ensures SurvivingBytes([a, b, c], [true, false, true], 3) == a + c
  {
    var kept := [true, false, true];
    assert SurvivingBytes([a, b, c], kept, 1) == [] + a == a;
    assert SurvivingBytes([a, b, c], kept, 2) == a + [] == a;
  }

  lemma LettersConcat(m: nat, n: nat)
    ensures Letters(m) + Letters(n) == Letters(m + n)
  {
  }

  lemma LettersAreUtf8(n: nat)
    ensures ValidUtf8(Letters(n))
  {
    AsciiIsUtf8(Letters(n));
  }

  /** Three chunks without the middle one. */
  lemma WithoutMiddle(text: Utf8String, a: bytes, b: bytes, c: bytes)
    requires Pieces(text) == [a, b, c] && ValidUtf8(a + c)
    ensures PieceCount(text) == 3
    ensures FeedAll(START, Surviving(Pieces(text), [true, false, true], 3)).texts == [a + c]
  {
    var kept := [true, false, true];
    assert !kept[1];
    FirstAndThird(a, b, c);
    MiddleDropDeliversAnotherText(START, text, kept);
    NothingAppended([a + c]);
  }

  /** Such a text: of 12288 letters the middle 4096 are lost, and 8192 arrive. */
  lemma MiddleDropExample()
    ensures ValidUtf8(Letters(12288)) && PieceCount(Letters(12288)) == 3
    ensures FeedAll(START, Surviving(Pieces(Letters(12288)), [true, false, true], 3)).texts == [Letters(8192)]
  {
    LettersAreUtf8(12288);
    LettersAreUtf8(8192);
    LettersPieces();
    LettersConcat(4096, 4096);
    WithoutMiddle(Letters(12288), Letters(4096), Letters(4096), Letters(4096));
  }
}
