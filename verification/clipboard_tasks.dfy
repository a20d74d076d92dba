/** The two clipboard tasks of a peer: changes out, frames in. */
module ClipboardTasks {
  import opened Words
  import opened Wire
  import opened Clipboard
  import opened ClipboardDelivery

  /** What the outbound task sees: a change of the local clipboard, forwarded
      while the queue has room for `room` more frames and `closed` instead of
      full when it has not; or that the inbound task has written a text. */
  datatype TaskEvent = Changed(text: Utf8String, room: nat, closed: bool) | Written(text: Utf8String)

  function SendingOf(c: TaskEvent): (s: Sending)
    requires c.Changed?
    ensures s.Valid()
  {
    Sending(c.text, if c.room < PieceCount(c.text) then c.room else PieceCount(c.text))
  }

  /** The outbound task: the guard it consults, what it has offered, and whether
      it is still running. */
  datatype OutTask = OutTask(guard: Option<Hash>, sends: seq<Sending>, open: bool)

  function OutStep(hash: bytes -> Hash, o: OutTask, e: TaskEvent): OutTask {
    if e.Written? then o.(guard := Some(hash(e.text)))
    else if !o.open || IsEcho(hash, o.guard, e.text) then o
    else OutTask(o.guard, o.sends + [SendingOf(e)], SendingOf(e).Whole() || !e.closed)
  }

  function OutRun(hash: bytes -> Hash, o: OutTask, events: seq<TaskEvent>): OutTask {
    if events == [] then o
    else OutStep(hash, OutRun(hash, o, events[..|events| - 1]), events[|events| - 1])
  }

  lemma {:induction false} OutRunValid(hash: bytes -> Hash, o: OutTask, events: seq<TaskEvent>)
    requires forall s :: s in o.sends ==> s.Valid()
    ensures forall s :: s in OutRun(hash, o, events).sends ==> s.Valid()
  {
    if events != [] {
      OutRunValid(hash, o, events[..|events| - 1]);
    }
  }

  // ----- which changes go out -----

  /** The hash remembered when event `i` comes up is that of the latest text written
      before it, or the one remembered at the start. */
  ghost predicate RemembersAt(hash: bytes -> Hash, start: Option<Hash>, events: seq<TaskEvent>, i: nat, h: Hash)
    requires i <= |events|
  {
    || (exists j :: 0 <= j < i && LatestWrite(events, i, j) && hash(events[j].text) == h)
    || ((forall k :: 0 <= k < i ==> !events[k].Written?) && start == Some(h))
  }

  predicate LatestWrite(events: seq<TaskEvent>, i: nat, j: nat)
    requires j < i <= |events|
  {
    events[j].Written? && forall k :: j < k < i ==> !events[k].Written?
  }

  /** A change with another hash than that one. */
  ghost predicate NoEcho(hash: bytes -> Hash, start: Option<Hash>, events: seq<TaskEvent>, i: nat)
    requires i < |events|
  {
    events[i].Changed? && !RemembersAt(hash, start, events, i, hash(events[i].text))
  }

  /** Its frames meet a closed queue, and the task ends. */
  ghost predicate Stops(hash: bytes -> Hash, start: Option<Hash>, events: seq<TaskEvent>, i: nat)
    requires i < |events|
  {
    NoEcho(hash, start, events, i) && events[i].room < PieceCount(events[i].text) && events[i].closed
  }

  ghost predicate Running(hash: bytes -> Hash, start: Option<Hash>, events: seq<TaskEvent>, i: nat)
    requires i <= |events|
  {
    forall j :: 0 <= j < i ==> !Stops(hash, start, events, j)
  }

  /** The payloads of the first `n` events: of every change that is no echo while
      the task runs, as many frames as there is room for. */
  ghost function PayloadsOf(
      hash: bytes -> Hash, start: Option<Hash>, events: seq<TaskEvent>, n: nat): (sends: seq<Sending>)
    requires n <= |events|
    ensures forall s :: s in sends ==> s.Valid()
  {
    if n == 0 then []
    else
      var e := events[n - 1];
      PayloadsOf(hash, start, events, n - 1) +
      if NoEcho(hash, start, events, n - 1) && Running(hash, start, events, n - 1)
      then [Sending(e.text, if e.room < PieceCount(e.text) then e.room else PieceCount(e.text))] else []
  }

  lemma RemembersNext(hash: bytes -> Hash, start: Option<Hash>, events: seq<TaskEvent>, i: nat, h: Hash)
    requires i < |events|
    ensures RemembersAt(hash, start, events, i + 1, h) <==>
      if events[i].Written? then hash(events[i].text) == h else RemembersAt(hash, start, events, i, h)
  {
    if events[i].Written? {
      assert LatestWrite(events, i + 1, i);
    } else {
      assert forall j :: 0 <= j < i ==> (LatestWrite(events, i + 1, j) <==> LatestWrite(events, i, j));
    }
  }

  /** The task after the first `n` events, in those terms. */
  ghost predicate IsTask(hash: bytes -> Hash, start: Option<Hash>, events: seq<TaskEvent>, n: nat, o: OutTask)
    requires n <= |events|
  {
    && o.sends == PayloadsOf(hash, start, events, n)
    && (o.open <==> Running(hash, start, events, n))
    && forall h: Hash :: o.guard == Some(h) <==> RemembersAt(hash, start, events, n, h)
  }

  lemma NoEchoIff(hash: bytes -> Hash, start: Option<Hash>, events: seq<TaskEvent>, n: nat, guard: Option<Hash>)
    requires n < |events|
    requires forall h: Hash :: guard == Some(h) <==> RemembersAt(hash, start, events, n, h)
    ensures NoEcho(hash, start, events, n) <==> events[n].Changed? && !IsEcho(hash, guard, events[n].text)
  {
    var h: Hash := hash(events[n].text);
    assert guard == Some(h) <==> RemembersAt(hash, start, events, n, h);
  }

  lemma RunningNext(hash: bytes -> Hash, start: Option<Hash>, events: seq<TaskEvent>, n: nat)
    requires n < |events|
    ensures Running(hash, start, events, n + 1) <==>
      Running(hash, start, events, n) && !Stops(hash, start, events, n)
  {
  }

  lemma TaskGoesOn(hash: bytes -> Hash, start: Option<Hash>, events: seq<TaskEvent>, n: nat, o: OutTask)
    requires n < |events| && IsTask(hash, start, events, n, o)
    ensures IsTask(hash, start, events, n + 1, OutStep(hash, o, events[n]))
  {
    var o' := OutStep(hash, o, events[n]);
    forall h: Hash ensures o'.guard == Some(h) <==> RemembersAt(hash, start, events, n + 1, h) {
      RemembersNext(hash, start, events, n, h);
    }
    NoEchoIff(hash, start, events, n, o.guard);
    SendsOn(hash, start, events, n, o);
  }

  lemma SendsOn(hash: bytes -> Hash, start: Option<Hash>, events: seq<TaskEvent>, n: nat, o: OutTask)
    requires n < |events| && o.sends == PayloadsOf(hash, start, events, n)
    requires o.open <==> Running(hash, start, events, n)
    requires NoEcho(hash, start, events, n) <==> events[n].Changed? && !IsEcho(hash, o.guard, events[n].text)
    ensures var o' := OutStep(hash, o, events[n]);
      o'.sends == PayloadsOf(hash, start, events, n + 1) && (o'.open <==> Running(hash, start, events, n + 1))
  {
    RunningNext(hash, start, events, n);
    NothingAppended(o.sends);
  }

  /** What the task sends, in terms of the events alone: exactly the changes whose
      text has another hash than the latest text written before them, in order,
      up to the first that meets a closed queue. */
  lemma {:induction false} ForwardsExactly(hash: bytes -> Hash, start: Option<Hash>, events: seq<TaskEvent>, n: nat)
    requires n <= |events|
    ensures IsTask(hash, start, events, n, OutRun(hash, OutTask(start, [], true), events[..n]))
  {
    if n == 0 {
      assert events[..0] == [];
    } else {
      ForwardsExactly(hash, start, events, n - 1);
      assert events[..n][..n - 1] == events[..n - 1];
      TaskGoesOn(hash, start, events, n - 1, OutRun(hash, OutTask(start, [], true), events[..n - 1]));
    }
  }

  lemma FramesSnoc(sends: seq<Sending>, s: Sending)
    requires s.Valid() && forall x :: x in sends ==> x.Valid()
    ensures forall x :: x in sends + [s] ==> x.Valid()
    ensures FramesOf(sends + [s]) == FramesOf(sends) + s.Sent()
  {
    assert (sends + [s])[..|sends|] == sends;
  }

  class ClipboardOut {
    const echo: EchoGuard
    var txOut: seq<Message>
    var open: bool
    ghost var sends: seq<Sending>

    ghost predicate Valid()
      reads this
    {
      (forall s :: s in sends ==> s.Valid()) && txOut == FramesOf(sends)
    }

    ghost function Value(): OutTask
      reads this, echo
    {
      OutTask(echo.lastRemoteHash, sends, open)
    }

    constructor (echo: EchoGuard)
      ensures this.echo == echo && Valid() && txOut == [] && Value() == OutTask(echo.lastRemoteHash, [], true)
    {
      this.echo := echo;
      txOut, open, sends := [], true, [];
    }

    /** Offers frames in order until one meets a queue without room. */
    method Offer(chunks: seq<Message>, room: nat) returns (i: nat)
      modifies this`txOut
      ensures i == if room < |chunks| then room else |chunks|
      ensures txOut == old(txOut) + chunks[..i]
    {
      i := 0;
      while i < |chunks|
        invariant 0 <= i <= |chunks| && i <= room
        invariant txOut == old(txOut) + chunks[..i]
      {
        if i == room {
          break;
        }
        txOut := txOut + [chunks[i]];
        assert chunks[..i + 1] == chunks[..i] + [chunks[i]];
        i := i + 1;
      }
    }

    /** Forwards a change unless it is an echo; the first frame that finds the
        queue full ends the payload, one that finds it closed ends the task. */
    method HandleChange(c: TaskEvent)
      requires Valid() && c.Changed? && open
      modifies this
      ensures Valid() && Value() == OutStep(echo.hash, old(Value()), c)
    {
      var isEcho := echo.IsEchoOfRemote(c.text);
      if isEcho {
        return;
      }
      var chunks := Split(c.text);
      var sent := Offer(chunks, c.room);
      open := sent == |chunks| || !c.closed;
      FramesSnoc(sends, SendingOf(c));
      sends := sends + [SendingOf(c)];
    }

    /** The task beside the inbound one: what is in the queue are the frames of
        exactly the changes that were no echo when their turn came. */
    method HandleEvents(events: seq<TaskEvent>)
      requires Valid()
      modifies this, echo
      ensures Valid() && Value() == OutRun(echo.hash, old(Value()), events)
      ensures old(open) && old(sends) == [] ==>
        txOut == FramesOf(PayloadsOf(echo.hash, old(echo.lastRemoteHash), events, |events|))
    {
      ghost var start := Value();
      ForwardsExactly(echo.hash, echo.lastRemoteHash, events, |events|);
      for i := 0 to |events|
        invariant Valid() && Value() == OutRun(echo.hash, start, events[..i])
      {
        assert events[..i + 1][..i] == events[..i];
        match events[i] {
          case Written(text) => echo.RememberRemoteWrite(text);
          case Changed(_, _, _) =>
            if open {
              HandleChange(events[i]);
            }
        }
      }
      assert events[..|events|] == events;
    }
  }

  class ClipboardIn {
    const echo: EchoGuard
    const reassembler: Reassembler
    var written: seq<Utf8String>
    var failures: nat

    ghost function Value(): Feed
      reads this, reassembler
    {
      Feed(reassembler.Value(), written, failures)
    }

    constructor (echo: EchoGuard)
      ensures this.echo == echo && fresh(reassembler) && Value() == START
    {
      this.echo := echo;
      reassembler := new Reassembler();
      written, failures := [], 0;
    }

    /** Every completed text is written, and is then what the echo guard knows. */
    method HandleFrames(msgs: seq<Message>)
      modifies this, reassembler, echo
      ensures Value() == FeedAll(old(Value()), msgs)
      ensures |old(written)| <= |written|
      ensures echo.lastRemoteHash ==
        if |written| > |old(written)| then Some(echo.hash(written[|written| - 1])) else old(echo.lastRemoteHash)
    {
      ghost var start := Value();
      for i := 0 to |msgs|
        invariant Value() == FeedAll(start, msgs[..i])
        invariant |old(written)| <= |written|
        invariant echo.lastRemoteHash ==
          if |written| > |old(written)| then Some(echo.hash(written[|written| - 1])) else old(echo.lastRemoteHash)
      {
        assert msgs[..i + 1][..i] == msgs[..i];
        var r := reassembler.IngestFrame(msgs[i]);
        match r {
          case Ok(Some(text)) =>
            echo.RememberRemoteWrite(text);
            written := written + [text];
          case Ok(None) =>
          case Err(_) =>
            failures := failures + 1;
        }
      }
      assert msgs[..|msgs|] == msgs;
    }
  }
}
