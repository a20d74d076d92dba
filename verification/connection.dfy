/** Framed reading and writing over a byte stream, at both ends. */
module Connection {
  import opened Words
  import opened Wire
  import opened Codec
  import opened FrameCodec
  import opened Framing

  /** The peer closed, the socket failed, or a frame was refused. */
  datatype ReadError = Disconnected | IoFailed | WireFailure(error: WireError)

  datatype WriteError = Unencodable(error: WireError) | WriteFailed

  /** The read half of a socket: what the peer has sent and will send, in the
      portions in which reads will return it, and whether the stream then ends
      or fails. */
  class ByteSource {
    var incoming: seq<bytes>
    const fails: bool

    ghost predicate Valid()
      reads this
    {
      forall i :: 0 <= i < |incoming| ==> incoming[i] != []
    }

    constructor (incoming: seq<bytes>, fails: bool)
      requires forall i :: 0 <= i < |incoming| ==> incoming[i] != []
      ensures Valid() && this.incoming == incoming && this.fails == fails
    {
      this.incoming := incoming;
      this.fails := fails;
    }

    /** Appends what arrived to `buf`; zero bytes mean the end of the stream. */
    method ReadBuf(buf: Buffer) returns (r: Result<nat, ReadError>)
      requires Valid()
      modifies this, buf
      ensures Valid()
      ensures buf.data + Concat(incoming) == old(buf.data) + old(Concat(incoming))
      ensures old(incoming) == [] ==>
        r == (if fails then Err(IoFailed) else Ok(0)) && incoming == [] && buf.data == old(buf.data)
      ensures old(incoming) != [] ==>
        r == Ok(|buf.data| - |old(buf.data)|) && r.value > 0 && |incoming| < |old(incoming)|
    {
      if incoming == [] {
        return if fails then Err(IoFailed) else Ok(0);
      }
      Assoc(buf.data, incoming[0], Concat(incoming[1..]));
      buf.PutSlice(incoming[0]);
      r := Ok(|incoming[0]|);
      incoming := incoming[1..];
    }
  }

  /** All bytes not yet turned into messages: buffered first, then on the way. */
  ghost function Unread(src: ByteSource, buf: Buffer): bytes
    reads src, buf
  {
    buf.data + Concat(src.incoming)
  }

  /** What one read of a frame does to the unread bytes: the next message, the
      refusal or the end of the stream depend on those bytes alone. */
  ghost predicate NextFrameIs(before: bytes, r: Result<Message, ReadError>, after: bytes) {
    match r
    case Ok(m) => DecodeFrame(before) == Ok(Some((m, after)))
    case Err(WireFailure(e)) => DecodeFrame(before) == Err(e) && after == before
    case Err(_) => DecodeFrame(before) == Ok(None) && after == before
  }

  /** The read loop of a connection and of its read half. */
  method ReadFrame(src: ByteSource, buf: Buffer) returns (r: Result<Message, ReadError>)
    requires src.Valid()
    modifies src, buf
    ensures src.Valid()
    ensures NextFrameIs(old(Unread(src, buf)), r, Unread(src, buf))
    ensures r.Err? && !r.error.WireFailure? ==>
      r.error == (if src.fails then IoFailed else Disconnected) && src.incoming == []
  {
    while true
      invariant src.Valid() && Unread(src, buf) == old(Unread(src, buf))
      decreases |src.incoming|
    {
      DecodeStable(buf.data, Concat(src.incoming));
      var decoded := DecodeFrameFrom(buf);
      match decoded {
        case Ok(Some(m)) => return Ok(m);
        case Err(e) => return Err(WireFailure(e));
        case Ok(None) =>
      }
      var n := src.ReadBuf(buf);
      NothingAppended(buf.data);
      if n.Err? {
        return Err(n.error);
      }
      if n.value == 0 {
        return Err(Disconnected);
      }
    }
  }

  /** A connection during the handshake. */
  class Connection {
    const source: ByteSource
    const readBuf: Buffer
    const sink: ByteSink

    ghost predicate Valid()
      reads source
    {
      source.Valid()
    }

    constructor (source: ByteSource, sink: ByteSink)
      requires source.Valid()
      ensures Valid() && this.source == source && this.sink == sink && fresh(readBuf)
      ensures Unread(source, readBuf) == Concat(source.incoming)
    {
      this.source := source;
      this.sink := sink;
      readBuf := new Buffer();
      new;
      assert [] + Concat(source.incoming) == Concat(source.incoming);
    }

    method ReadNext() returns (r: Result<Message, ReadError>)
      requires Valid()
      modifies source, readBuf
      ensures Valid() && NextFrameIs(old(Unread(source, readBuf)), r, Unread(source, readBuf))
      ensures r.Err? && !r.error.WireFailure? ==> r.error == if source.fails then IoFailed else Disconnected
    {
      r := ReadFrame(source, readBuf);
    }

    method WriteFrame(m: Message) returns (r: Result<(), WriteError>)
      modifies sink
      ensures Wrote(m, old(sink.written), old(sink.room), r, sink.written)
    {
      var scratch := new Buffer();
      var encoded := EncodeFrame(m, scratch);
      if encoded.Err? {
        return Err(Unencodable(encoded.error));
      }
      NothingAppended(Frame(m));
      r := sink.WriteAll(scratch.data);
    }

    /** The read half takes the buffer along: no byte is lost or read twice. */
    method IntoSplit() returns (reader: FrameReader, writer: FrameWriter)
      requires Valid()
      ensures reader.source == source && reader.readBuf == readBuf
      ensures reader.Valid() && Unread(reader.source, reader.readBuf) == old(Unread(source, readBuf))
      ensures writer.sink == sink && fresh(writer.scratch)
    {
      reader := new FrameReader(source, readBuf);
      writer := new FrameWriter(sink);
    }
  }

  /** The write half of a socket; `room` is how many more bytes go out before it
      breaks, if it does. */
  class ByteSink {
    var written: bytes
    var room: Option<nat>

    constructor (room: Option<nat>)
      ensures written == [] && this.room == room
    {
      written := [];
      this.room := room;
    }

    method WriteAll(b: bytes) returns (r: Result<(), WriteError>)
      modifies this
      ensures Sent(b, old(written), old(room), r, written)
    {
      if room.Some? && room.value < |b| {
        written := written + b[..room.value];
        room := Some(0);
        return Err(WriteFailed);
      }
      written := written + b;
      if room.Some? {
        room := Some(room.value - |b|);
      }
      r := Ok(());
    }
  }

  /** All of `b` went out, or the socket broke within it. */
  ghost predicate Sent(b: bytes, before: bytes, room: Option<nat>, r: Result<(), WriteError>, after: bytes) {
    if room.Some? && room.value < |b| then r == Err(WriteFailed) && after == before + b[..room.value]
    else r == Ok(()) && after == before + b
  }

  /** One frame went out, or a part of it, or nothing for a message that does not fit. */
  ghost predicate Wrote(m: Message, before: bytes, room: Option<nat>, r: Result<(), WriteError>, after: bytes) {
    if Fits(m) then Sent(Frame(m), before, room, r, after)
    else r == Err(Unencodable(TooLong(|Payload(m)|))) && after == before
  }

  lemma OneMoreRead(all: bytes, msgs: seq<Message>, before: bytes, m: Message, after: bytes)
    requires DecodeFrame(before) == Ok(Some((m, after)))
    requires var d := DecodeAll(before); DecodeAll(all) == Decoded(msgs + d.msgs, d.rest, d.error)
    ensures var d := DecodeAll(after); DecodeAll(all) == Decoded((msgs + [m]) + d.msgs, d.rest, d.error)
  {
    var d := DecodeAll(after);
    Assoc(msgs, [m], d.msgs);
  }

  class FrameReader {
    const source: ByteSource
    const readBuf: Buffer

    ghost predicate Valid()
      reads source
    {
      source.Valid()
    }

    constructor (source: ByteSource, readBuf: Buffer)
      requires source.Valid()
      ensures Valid() && this.source == source && this.readBuf == readBuf
    {
      this.source := source;
      this.readBuf := readBuf;
    }

    method ReadNext() returns (r: Result<Message, ReadError>)
      requires Valid()
      modifies source, readBuf
      ensures Valid() && NextFrameIs(old(Unread(source, readBuf)), r, Unread(source, readBuf))
      ensures r.Err? && !r.error.WireFailure? ==> r.error == if source.fails then IoFailed else Disconnected
    {
      r := ReadFrame(source, readBuf);
    }

    /** Reading until a Bye or the end of the connection hands on exactly what
        the stream decodes to, up to and including the Bye, and stops for the
        reason its decoding stops. */
    method ReadAll() returns (msgs: seq<Message>, end: Option<ReadError>)
      requires Valid()
      modifies source, readBuf
      ensures var d := DecodeAll(old(Unread(source, readBuf)));
        && msgs == UntilBye(d.msgs)
        && (end.None? <==> msgs != [] && msgs[|msgs| - 1].Bye?)
        && (end.Some? ==>
              && msgs == d.msgs && Unread(source, readBuf) == d.rest
              && end.value ==
                   if d.error.Some? then WireFailure(d.error.value)
                   else if source.fails then IoFailed else Disconnected)
    {
      msgs := [];
      ghost var all := Unread(source, readBuf);
      while true
        invariant Valid()
        invariant var d := DecodeAll(Unread(source, readBuf));
          DecodeAll(all) == Decoded(msgs + d.msgs, d.rest, d.error)
        invariant forall i :: 0 <= i < |msgs| ==> !msgs[i].Bye?
        decreases |Unread(source, readBuf)|
      {
        ghost var before := Unread(source, readBuf);
        var r := ReadNext();
        if r.Err? {
          NothingAppended(msgs);
          UntilByeStops(msgs, |msgs|);
          return msgs, Some(r.error);
        }
        OneMoreRead(all, msgs, before, r.value, Unread(source, readBuf));
        msgs := msgs + [r.value];
        if r.value.Bye? {
          UntilByeIsPrefix(DecodeAll(all).msgs, msgs, DecodeAll(Unread(source, readBuf)).msgs);
          return msgs, None;
        }
      }
    }
  }

  lemma UntilByeIsPrefix(all: seq<Message>, msgs: seq<Message>, more: seq<Message>)
    requires all == msgs + more && msgs != [] && msgs[|msgs| - 1].Bye?
    requires forall i :: 0 <= i < |msgs| - 1 ==> !msgs[i].Bye?
    ensures UntilBye(all) == msgs
  {
    UntilByeStops(all, |msgs| - 1);
    assert all[..|msgs|] == msgs;
  }

  class FrameWriter {
    const sink: ByteSink
    const scratch: Buffer

    constructor (sink: ByteSink)
      ensures this.sink == sink && fresh(scratch)
    {
      this.sink := sink;
      scratch := new Buffer();
    }

    /** One frame per message goes out, and nothing of a message that does not
        fit, whatever an earlier message left in the scratch buffer. */
    method WriteFrame(m: Message) returns (r: Result<(), WriteError>)
      modifies sink, scratch
      ensures Wrote(m, old(sink.written), old(sink.room), r, sink.written)
    {
      scratch.Clear();
      var encoded := EncodeFrame(m, scratch);
      if encoded.Err? {
        return Err(Unencodable(encoded.error));
      }
      NothingAppended(Frame(m));
      r := sink.WriteAll(scratch.data);
    }
  }

  lemma StreamGrows(queue: seq<Message>, k: nat, before: bytes)
    requires k < |queue| && AllFit(queue[..k]) && Fits(queue[k])
    ensures before + StreamOf(queue[..k]) + Frame(queue[k]) == before + StreamOf(queue[..k + 1])
    ensures AllFit(queue[..k + 1])
  {
    var f := Frame(queue[k]);
    assert queue[..k + 1] == queue[..k] + [queue[k]];
    StreamSnoc(queue[..k], queue[k]);
    Assoc(before, StreamOf(queue[..k]), f);
  }

  /** What a writer that sent `sent` messages has put on the wire: their frames,
      and of the next one nothing or a part that is no whole frame. */
  ghost predicate OnTheWire(queue: seq<Message>, sent: nat, stream: bytes, part: bytes) {
    && sent <= |queue| && AllFit(queue[..sent]) && stream == StreamOf(queue[..sent]) + part
    && (part != [] ==> sent < |queue| && Fits(queue[sent]) && part < Frame(queue[sent]))
  }

  /** The encoder task: messages leave in the order they were queued, up to the
      first that does not fit or that the socket does not take. */
  method EncoderLoop(queue: seq<Message>, writer: FrameWriter)
    returns (sent: nat, r: Result<(), WriteError>, ghost part: bytes)
    modifies writer.sink, writer.scratch
    ensures exists stream ::
      OnTheWire(queue, sent, stream, part) && writer.sink.written == old(writer.sink.written) + stream
    ensures r.Ok? <==> sent == |queue|
    ensures r.Ok? ==> part == []
    ensures sent < |queue| ==> (r.error.Unencodable? <==> !Fits(queue[sent]))
  {
    sent, r, part := 0, Ok(()), [];
    NothingAppended(writer.sink.written);
    while sent < |queue|
      invariant sent <= |queue| && AllFit(queue[..sent])
      invariant writer.sink.written == old(writer.sink.written) + StreamOf(queue[..sent])
    {
      ghost var before, room := writer.sink.written, writer.sink.room;
      r := writer.WriteFrame(queue[sent]);
      if r.Err? {
        part := if Fits(queue[sent]) then Frame(queue[sent])[..room.value] else [];
        NothingAppended(before);
        Assoc(old(writer.sink.written), StreamOf(queue[..sent]), part);
        assert OnTheWire(queue, sent, StreamOf(queue[..sent]) + part, part);
        return;
      }
      StreamGrows(queue, sent, old(writer.sink.written));
      sent := sent + 1;
    }
    r := Ok(());
    NothingAppended(StreamOf(queue[..sent]));
    assert OnTheWire(queue, sent, StreamOf(queue[..sent]), []);
  }

  lemma PartIsNoFrame(m: Message, part: bytes)
    requires Fits(m) && part < Frame(m)
    ensures DecodeAll(part) == Decoded([], part, None)
  {
    CutFrame(m, |part|);
    assert Frame(m)[..|part|] == part;
  }

  /** However the bytes then arrive, the receiver gets exactly those messages,
      and no error. */
  lemma WriterMeetsReader(queue: seq<Message>, sent: nat, stream: bytes, part: bytes, chunks: seq<bytes>)
    requires OnTheWire(queue, sent, stream, part) && Concat(chunks) == stream
    ensures ArriveAll(DecodeAll([]), chunks) == Decoded(queue[..sent], part, None)
  {
    FragmentationIndependence([], chunks);
    NothingAppended(stream);
    StreamThenTail(queue[..sent], part);
    if part != [] {
      PartIsNoFrame(queue[sent], part);
    }
    NothingAppended(queue[..sent]);
  }
}
