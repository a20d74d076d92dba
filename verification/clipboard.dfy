/** Clipboard transfer: chunking, reassembly and the echo guard. */
module Clipboard {
  import opened Words
  import opened Wire

  const CHUNK_SIZE: nat := 4096
  const FIRST: uint8 := 1
  const LAST: uint8 := 2

  predicate HasFirst(flags: uint8) {
    flags % 2 == 1
  }

  predicate HasLast(flags: uint8) {
    (flags / 2) % 2 == 1
  }

  /** How many chunks a payload needs; the empty payload needs one. */
  function PieceCount(b: bytes): (n: nat)
    ensures n >= 1
  {
    if b == [] then 1 else (|b| + 4095) / 4096
  }

  /** The end of the `i`-th chunk, cut to the payload. */
  function Boundary(b: bytes, i: nat): (e: nat)
    ensures e <= |b|
  {
    if 4096 * i <= |b| then 4096 * i else |b|
  }

  function Piece(b: bytes, i: nat): bytes
    requires i < PieceCount(b)
  {
    b[Boundary(b, i)..Boundary(b, i + 1)]
  }

  /** The payload cut into consecutive slices of `CHUNK_SIZE` bytes. */
  function Pieces(b: bytes): (r: seq<bytes>)
    ensures |r| == PieceCount(b)
  {
    seq(PieceCount(b), i requires 0 <= i < PieceCount(b) => Piece(b, i))
  }

  /** FIRST on the first chunk of `n`, LAST on the last. */
  function FlagsAt(i: nat, n: nat): uint8 {
    (if i == 0 then FIRST else 0) + (if i + 1 == n then LAST else 0)
  }

  function FrameAt(pieces: seq<bytes>, i: nat): Message
    requires i < |pieces|
  {
    ClipboardText(FlagsAt(i, |pieces|), pieces[i])
  }

  function Flagged(pieces: seq<bytes>): (r: seq<Message>)
    ensures |r| == |pieces|
  {
    seq(|pieces|, i requires 0 <= i < |pieces| => FrameAt(pieces, i))
  }

  /** The frames of a payload. */
  function Frames(b: bytes): seq<Message> {
    Flagged(Pieces(b))
  }

  method Split(text: Utf8String) returns (out: seq<Message>)
    ensures out == Frames(text)
  {
    if |text| <= CHUNK_SIZE {
      assert PieceCount(text) == 1 && Piece(text, 0) == text;
      return [ClipboardText(FIRST + LAST, text)];
    }
    var n := (|text| + 4095) / 4096;
    var lastIdx := n - 1;
    out := [];
    for i := 0 to n
      invariant |out| == i
      invariant forall k :: 0 <= k < i ==> out[k] == ClipboardText(FlagsAt(k, n), Piece(text, k))
    {
      var flags: uint8 := 0;
      if i == 0 {
        flags := flags + FIRST;
      }
      if i == lastIdx {
        flags := flags + LAST;
      }
      var end := if 4096 * (i + 1) < |text| then 4096 * (i + 1) else |text|;
      out := out + [ClipboardText(flags, text[4096 * i..end])];
    }
  }

  // ----- reassembly -----

  datatype Assembly = Assembly(buffer: bytes, inProgress: bool)

  const FRESH := Assembly([], false)

  datatype ReassembleError = ChunkWithoutFirst | NotUtf8

  type Ingested = Result<Option<Utf8String>, ReassembleError>

  function Ingest(a: Assembly, m: Message): (Assembly, Ingested) {
    if !m.ClipboardText? then (a, Ok(None))
    else
      var a1 := if HasFirst(m.chunkFlags) then Assembly([], true) else a;
      if !a1.inProgress then (a1, Err(ChunkWithoutFirst))
      else
        var buffer := a1.buffer + m.text;
        if !HasLast(m.chunkFlags) then (Assembly(buffer, true), Ok(None))
        else if ValidUtf8(buffer) then (FRESH, Ok(Some(buffer)))
        else (FRESH, Err(NotUtf8))
  }

  class Reassembler {
    var buffer: bytes
    var inProgress: bool

    ghost function Value(): Assembly
      reads this
    {
      Assembly(buffer, inProgress)
    }

    constructor ()
      ensures Value() == FRESH
    {
      buffer := [];
      inProgress := false;
    }

    method IngestFrame(m: Message) returns (r: Ingested)
      modifies this
      ensures (Value(), r) == Ingest(old(Value()), m)
    {
      if !m.ClipboardText? {
        return Ok(None);
      }
      if HasFirst(m.chunkFlags) {
        buffer := [];
        inProgress := true;
      }
      if !inProgress {
        return Err(ChunkWithoutFirst);
      }
      buffer := buffer + m.text;
      if HasLast(m.chunkFlags) {
        inProgress := false;
        var assembled := buffer;
        buffer := [];
        if ValidUtf8(assembled) {
          return Ok(Some(assembled));
        } else {
          return Err(NotUtf8);
        }
      } else {
        return Ok(None);
      }
    }
  }

  // ----- echo guard -----

  type Hash = h: bytes | |h| == 32 witness seq(32, i => 0)

  /** A text with the hash of the last one written for the peer. */
  predicate IsEcho(hash: bytes -> Hash, guard: Option<Hash>, text: bytes) {
    guard == Some(hash(text))
  }

  class EchoGuard {
    const hash: bytes -> Hash
    var lastRemoteHash: Option<Hash>

    constructor (hash: bytes -> Hash)
      ensures this.hash == hash && lastRemoteHash == None
    {
      this.hash := hash;
      lastRemoteHash := None;
    }

    method RememberRemoteWrite(text: bytes)
      modifies this
      ensures lastRemoteHash == Some(hash(text))
    {
      lastRemoteHash := Some(hash(text));
    }

    method IsEchoOfRemote(text: bytes) returns (r: bool)
      ensures r <==> IsEcho(hash, lastRemoteHash, text)
    {
      match lastRemoteHash
      case Some(h) => r := h == hash(text);
      case None => r := false;
    }

    method Clear()
      modifies this
      ensures lastRemoteHash == None
    {
      lastRemoteHash := None;
    }
  }
}
