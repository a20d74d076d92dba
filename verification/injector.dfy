/** The client's injector: frames in, sink calls out, and the drain on exit. */
module Injector {
  import opened Words
  import opened Wire
  import opened Platform
  import opened Convert
  import opened StuckKeys
  import opened Clipboard

  /** The cursor is placed this far inside the left edge on entry. */
  const TAKE_ENTRY_INSET_PX: int := 40

  datatype Client = Client(
    held: set<uint16>,
    active: bool,
    assembly: Assembly,
    lastRemoteHash: Option<Hash>,
    calls: seq<SinkCall>,
    out: seq<Message>,
    clips: seq<Utf8String>)

  const NEW_CLIENT := Client({}, false, FRESH, None, [], [], [])

  /** A decoded frame, and what its handling meets: an outbound queue without
      room for a reply, a clipboard that cannot be written. */
  datatype Arrival = Arrival(msg: Message, full: bool, writeFails: bool)

  /** One decoded frame's effects. Tracking comes first. */
  function DispatchOne(hash: bytes -> Hash, c: Client, a: Arrival): Client {
    var c1 := c.(held := TrackKey(c.held, a.msg));
    if IsInput(a.msg) then c1.(calls := c1.calls + InputCalls(a.msg))
    else
      match a.msg
      case EchoPing(ts) => if a.full then c1 else c1.(out := c1.out + [EchoPong(ts)])
      case TakeControl(y) => c1.(calls := c1.calls + [WarpCall(TAKE_ENTRY_INSET_PX, y)], active := true)
      case ClipboardText(_, _) =>
        var (asm, r) := Ingest(c1.assembly, a.msg);
        var c2 := c1.(assembly := asm);
        (match r
         case Ok(Some(text)) =>
           if a.writeFails then c2 else c2.(clips := c2.clips + [text], lastRemoteHash := Some(hash(text)))
         case _ => c2)
      case _ => c1
  }

  function DispatchAll(hash: bytes -> Hash, c: Client, arrivals: seq<Arrival>): Client {
    if arrivals == [] then c
    else DispatchOne(hash, DispatchAll(hash, c, arrivals[..|arrivals| - 1]), arrivals[|arrivals| - 1])
  }

  /** What a session handles: everything up to and including a `Bye`. */
  function Handled(arrivals: seq<Arrival>): seq<Arrival> {
    if arrivals == [] then []
    else if arrivals[0].msg.Bye? then [arrivals[0]]
    else [arrivals[0]] + Handled(arrivals[1..])
  }

  function UpCalls(hids: seq<uint16>): (r: seq<SinkCall>)
    ensures |r| == |hids|
  {
    seq(|hids|, i requires 0 <= i < |hids| => KeyCall(hids[i], Up, NO_MODS))
  }

  /** The guard's drop: one release per held key, ascending, and the echo guard cleared. */
  ghost function Dropped(c: Client): Client {
    c.(held := {}, calls := c.calls + UpCalls(Ascending(c.held)), lastRemoteHash := None)
  }

  class InjectorGuard {
    const held: HeldKeys
    const reassembler: Reassembler
    const echo: EchoGuard
    const sink: Sink
    var active: bool
    var txOut: seq<Message>
    var clips: seq<Utf8String>

    ghost predicate Valid()
      reads this, held
    {
      held.Valid()
    }

    ghost function Value(): Client
      reads this, held, reassembler, echo, sink
    {
      Client(held.Contents(), active, reassembler.Value(), echo.lastRemoteHash, sink.calls, txOut, clips)
    }

    constructor (hash: bytes -> Hash)
      ensures Valid() && fresh(held) && fresh(reassembler) && fresh(echo) && fresh(sink)
      ensures Value() == NEW_CLIENT && echo.hash == hash
    {
      held := new HeldKeys();
      reassembler := new Reassembler();
      echo := new EchoGuard(hash);
      sink := new Sink();
      active, txOut, clips := false, [], [];
    }

    method TrackKeyInHeld(m: Message)
      requires Valid()
      modifies held
      ensures Valid() && held.Contents() == TrackKey(old(held.Contents()), m)
    {
      if m.KeyEvent? {
        if m.state == KEY_DOWN {
          held.Insert(m.hid);
        } else if m.state == KEY_UP {
          held.Remove(m.hid);
        }
      }
    }

    method HandleClipboardText(m: Message, writeFails: bool)
      requires m.ClipboardText?
      modifies this`clips, reassembler, echo
      ensures var (a, r) := Ingest(old(reassembler.Value()), m);
        && reassembler.Value() == a
        && (if r.Ok? && r.value.Some? && !writeFails
            then clips == old(clips) + [r.value.value] && echo.lastRemoteHash == Some(echo.hash(r.value.value))
            else clips == old(clips) && echo.lastRemoteHash == old(echo.lastRemoteHash))
    {
      var r := reassembler.IngestFrame(m);
      if r.Err? || r.value.None? {
        return;
      }
      if writeFails {
        return;
      }
      clips := clips + [r.value.value];
      echo.RememberRemoteWrite(r.value.value);
    }

    method Dispatch(a: Arrival)
      requires Valid()
      modifies this, held, reassembler, echo, sink
      ensures Valid() && Value() == DispatchOne(echo.hash, old(Value()), a)
    {
      var m := a.msg;
      TrackKeyInHeld(m);
      var handled := ApplyMouseToSink(m, sink);
      if handled {
        return;
      }
      handled := ApplyKeyToSink(m, sink);
      if handled {
        return;
      }
      if m.EchoPing? {
        if !a.full {
          txOut := txOut + [EchoPong(m.tsNs)];
        }
      } else if m.TakeControl? {
        sink.Call(WarpCall(TAKE_ENTRY_INSET_PX, m.entryY));
        active := true;
      } else if m.ClipboardText? {
        HandleClipboardText(m, a.writeFails);
      }
    }

    method Release(hids: seq<uint16>)
      modifies sink
      ensures sink.calls == old(sink.calls) + UpCalls(hids)
    {
      ghost var ups := UpCalls(hids);
      for i := 0 to |hids|
        invariant sink.calls == old(sink.calls) + ups[..i]
      {
        assert ups[..i + 1] == ups[..i] + [ups[i]];
        sink.Call(KeyCall(hids[i], Up, NO_MODS));
      }
      assert ups[..|hids|] == ups;
    }

    method Drop()
      requires Valid()
      modifies held, echo, sink
      ensures Valid() && Value() == Dropped(old(Value()))
    {
      var empty := held.IsEmpty();
      if !empty {
        var hids := held.Drain();
        Release(hids);
      } else {
        assert UpCalls(Ascending({})) == [];
      }
      echo.Clear();
    }

    method HandleFrames(arrivals: seq<Arrival>)
      requires Valid()
      modifies this, held, reassembler, echo, sink
      ensures Valid()
      ensures Value() == DispatchAll(echo.hash, old(Value()), Handled(arrivals))
    {
      ghost var start := Value();
      var i := 0;
      while i < |arrivals|
        invariant 0 <= i <= |arrivals| && Valid()
        invariant Value() == DispatchAll(echo.hash, start, arrivals[..i])
        invariant forall k :: 0 <= k < i ==> !arrivals[k].msg.Bye?
      {
        Dispatch(arrivals[i]);
        assert arrivals[..i + 1][..i] == arrivals[..i];
        if arrivals[i].msg.Bye? {
          HandledStops(arrivals, i);
          return;
        }
        i := i + 1;
      }
      HandledStops(arrivals, i);
    }

    /** The frame loop: the source yields `arrivals` and then fails. Every exit
        drops the guard. */
    method InjectorLoop(arrivals: seq<Arrival>)
      requires Valid()
      modifies this, held, reassembler, echo, sink
      ensures Valid()
      ensures Value() == Dropped(DispatchAll(echo.hash, old(Value()), Handled(arrivals)))
    {
      HandleFrames(arrivals);
      Drop();
    }
  }

  lemma {:induction false} HandledStops(arrivals: seq<Arrival>, n: nat)
    requires n <= |arrivals| && forall k :: 0 <= k < n ==> !arrivals[k].msg.Bye?
    requires n < |arrivals| ==> arrivals[n].msg.Bye?
    ensures Handled(arrivals) == if n < |arrivals| then arrivals[..n + 1] else arrivals[..n]
  {
    if n > 0 {
      HandledStops(arrivals[1..], n - 1);
    }
  }

  // ----- no stuck keys -----

  lemma InputCallsTrack(calls: seq<SinkCall>, m: Message)
    requires IsInput(m)
    ensures KeysDown(calls + InputCalls(m)) == TrackKey(KeysDown(calls), m)
  {
    if InputCalls(m) == [] {
      assert calls + [] == calls;
    } else {
      KeysDownSnoc(calls, InputCalls(m)[0]);
    }
  }

  lemma DispatchKeepsTrack(hash: bytes -> Hash, c: Client, a: Arrival)
    requires KeysDown(c.calls) == c.held
    ensures var d := DispatchOne(hash, c, a); KeysDown(d.calls) == d.held
  {
    if IsInput(a.msg) {
      InputCallsTrack(c.calls, a.msg);
    } else if a.msg.TakeControl? {
      KeysDownSnoc(c.calls, WarpCall(TAKE_ENTRY_INSET_PX, a.msg.entryY));
    }
  }

  /** At every moment of every session, whatever frames arrive (unknown state
      bytes included), the keys down at the sink are the tracked ones. */
  lemma {:induction false} SinkMatchesTracker(hash: bytes -> Hash, arrivals: seq<Arrival>)
    ensures var c := DispatchAll(hash, NEW_CLIENT, arrivals); KeysDown(c.calls) == c.held
  {
    if arrivals != [] {
      var n := |arrivals| - 1;
      SinkMatchesTracker(hash, arrivals[..n]);
      DispatchKeepsTrack(hash, DispatchAll(hash, NEW_CLIENT, arrivals[..n]), arrivals[n]);
    }
  }

  lemma {:induction false} UpCallsRelease(calls: seq<SinkCall>, hids: seq<uint16>)
    ensures KeysDown(calls + UpCalls(hids)) == KeysDown(calls) - Elements(hids)
    decreases |hids|
  {
    if hids == [] {
      assert calls + UpCalls(hids) == calls;
    } else {
      var n := |hids| - 1;
      UpCallsRelease(calls, hids[..n]);
      assert calls + UpCalls(hids) == (calls + UpCalls(hids[..n])) + [KeyCall(hids[n], Up, NO_MODS)];
      KeysDownSnoc(calls + UpCalls(hids[..n]), KeyCall(hids[n], Up, NO_MODS));
      assert hids == hids[..n] + [hids[n]];
      assert Elements(hids) == Elements(hids[..n]) + {hids[n]};
    }
  }

  /** Wherever a session ends, the drop releases exactly the keys that were
      down, each once and in ascending order, and afterwards no key's last
      injected event is a press. */
  lemma DropReleasesEverything(hash: bytes -> Hash, arrivals: seq<Arrival>)
    ensures var c := DispatchAll(hash, NEW_CLIENT, arrivals);
      var d := Dropped(c);
      && d.calls == c.calls + UpCalls(Ascending(KeysDown(c.calls)))
      && StrictlyAscending(Ascending(KeysDown(c.calls)))
      && KeysDown(d.calls) == {}
      && (forall k: uint16, i: nat :: LastKeyCallAt(d.calls, k, i) ==> d.calls[i].keyState.Up?)
      && d.lastRemoteHash == None
  {
    SinkMatchesTracker(hash, arrivals);
    var c := DispatchAll(hash, NEW_CLIENT, arrivals);
    var d := Dropped(c);
    UpCallsRelease(c.calls, Ascending(c.held));
    forall k: uint16, i: nat | LastKeyCallAt(d.calls, k, i)
      ensures d.calls[i].keyState.Up?
    {
      KeysDownMeaning(d.calls, k);
    }
  }
}
