/** The client's cursor-leave watcher, one poll at a time. */
module CursorWatch {
  import opened Words
  import opened Wire
  import opened Injector

  const LEFT_EDGE_THRESHOLD: int := 0

  datatype SendOutcome = Accepted | Full | Closed

  /** The watcher acts: the client is active and its cursor at the left edge. */
  predicate Leaves(c: Client, x: int32) {
    c.active && x <= LEFT_EDGE_THRESHOLD
  }

  /** It gives control back, or tries to: a full queue drops the frame. */
  function GivesBack(c: Client, y: int32, outcome: SendOutcome): Client {
    if outcome.Accepted? then c.(out := c.out + [ReleaseControl(ClampToUint16(y))]) else c
  }

  /** One poll with the cursor at (x, y). After the send the client is no longer
      active, even if the frame was dropped; but a closed queue ends the watcher. */
  function Watch(c: Client, x: int32, y: int32, outcome: SendOutcome): Client {
    if !Leaves(c, x) || outcome.Closed? then c else GivesBack(c, y, outcome).(active := false)
  }

  /** A poll in numbers: only an active client with its cursor at x = 0 or left of
      it gives control back; it says the height, cut to 16 bits. */
  lemma WatchInNumbers(c: Client, x: int32, y: int32, outcome: SendOutcome)
    ensures !c.active || x > 0 || outcome.Closed? ==> Watch(c, x, y, outcome) == c
    ensures c.active && x <= 0 && !outcome.Closed? ==>
      var d := Watch(c, x, y, outcome);
      && d == c.(active := false, out := d.out)
      && (outcome.Full? ==> d.out == c.out)
      && (outcome.Accepted? && 0 <= y <= 65535 ==> d.out == c.out + [ReleaseControl(y)])
      && (outcome.Accepted? && y < 0 ==> d.out == c.out + [ReleaseControl(0)])
      && (outcome.Accepted? && y > 65535 ==> d.out == c.out + [ReleaseControl(65535)])
  {
  }

  /** One pass of the poll loop. `pos` is what the cursor query returned, if it
      succeeded; `warp` is where the cursor is parked after a release. */
  method Poll(guard: InjectorGuard, pos: Option<(int32, int32)>, outcome: SendOutcome, safeWarpX: int32)
    returns (ended: bool, warp: Option<(int32, int32)>)
    modifies guard`active, guard`txOut
    ensures guard.Value() ==
      if pos.None? then old(guard.Value()) else Watch(old(guard.Value()), pos.value.0, pos.value.1, outcome)
    ensures var leaves := pos.Some? && Leaves(old(guard.Value()), pos.value.0);
      && (ended <==> leaves && outcome.Closed?)
      && warp == if leaves && !outcome.Closed? then Some((safeWarpX, pos.value.1)) else None
  {
    ended, warp := false, None;
    if !guard.active {
      return;
    }
    if pos.None? {
      return;
    }
    var (x, y) := pos.value;
    if x > LEFT_EDGE_THRESHOLD {
      return;
    }
    var exitY := ClampToUint16(y);
    match outcome {
      case Accepted => guard.txOut := guard.txOut + [ReleaseControl(exitY)];
      case Full =>
      case Closed => return true, None;
    }
    guard.active := false;
    warp := Some((safeWarpX, y));
  }
}
