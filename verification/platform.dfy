/** Platform-side vocabulary: key states, modifier masks, source events and
    the calls an input sink receives. */
module Platform {
  import opened Words

  datatype KeyState = Up | Down

  datatype Button = Left | Right | Middle | X1 | X2

  /** Bit 0 SHIFT, bit 1 CTRL, bit 2 ALT, bit 3 META; bits 4 to 7 are reserved. */
  datatype ModMask = ModMask(bits: bv8) {
    predicate Contains(other: ModMask) {
      bits & other.bits == other.bits
    }

    function Insert(other: ModMask): ModMask {
      ModMask(bits | other.bits)
    }

    /** The wire byte: reserved bits are masked off. */
    function ToWire(): uint8 {
      (bits & 0x0F) as int
    }

    static function FromWire(b: uint8): ModMask {
      ModMask((b as bv8) & 0x0F)
    }
  }

  const NO_MODS := ModMask(0)
  const SHIFT := ModMask(1)
  const CTRL := ModMask(2)
  const ALT := ModMask(4)
  const META := ModMask(8)

  datatype SourceEvent =
    | MouseRel(dx: int16, dy: int16)
    | MouseBtn(button: Button, state: KeyState)
    | Wheel(dx: int16, dy: int16)
    | Key(hid: uint16, keyState: KeyState, mods: ModMask)
    | CursorAt(x: int32, y: int32)

  /** One call on an `InputSink`. */
  datatype SinkCall =
    | RelCall(dx: int32, dy: int32)
    | ButtonCall(button: Button, state: KeyState)
    | WheelCall(wheelX: int16, wheelY: int16)
    | KeyCall(hid: uint16, keyState: KeyState, mods: ModMask)
    | WarpCall(x: int, y: int)
    | HideCall
    | ShowCall

  /** An `InputSink` that keeps the transcript of its calls. */
  class Sink {
    var calls: seq<SinkCall>

    constructor ()
      ensures calls == []
    {
      calls := [];
    }

    method Call(c: SinkCall)
      modifies this
      ensures calls == old(calls) + [c]
    {
      calls := calls + [c];
    }
  }

  /** The keys the operating system behind a sink considers pressed. */
  function KeysDown(calls: seq<SinkCall>): set<uint16> {
    if calls == [] then {}
    else
      var down := KeysDown(calls[..|calls| - 1]);
      match calls[|calls| - 1]
      case KeyCall(hid, Down, _) => down + {hid}
      case KeyCall(hid, Up, _) => down - {hid}
      case _ => down
  }

  lemma KeysDownSnoc(calls: seq<SinkCall>, c: SinkCall)
    ensures KeysDown(calls + [c]) ==
      if c.KeyCall? then
        if c.keyState.Down? then KeysDown(calls) + {c.hid} else KeysDown(calls) - {c.hid}
      else KeysDown(calls)
  {
    assert (calls + [c])[..|calls|] == calls;
  }

  ghost predicate LastKeyCallAt(calls: seq<SinkCall>, k: uint16, i: nat) {
    && i < |calls|
    && calls[i].KeyCall? && calls[i].hid == k
    && forall j :: i < j < |calls| && calls[j].KeyCall? ==> calls[j].hid != k
  }

  /** A key is down exactly when the last call that names it pressed it. */
  lemma {:induction false} KeysDownMeaning(calls: seq<SinkCall>, k: uint16)
    ensures k in KeysDown(calls) <==>
      exists i: nat :: LastKeyCallAt(calls, k, i) && calls[i].keyState.Down?
  {
    if calls != [] {
      var n := |calls| - 1;
      var front, last := calls[..n], calls[n];
      KeysDownMeaning(front, k);
      if last.KeyCall? && last.hid == k {
        assert LastKeyCallAt(calls, k, n);
      } else {
        assert forall i: nat :: LastKeyCallAt(calls, k, i) <==> LastKeyCallAt(front, k, i);
        assert forall i: nat :: LastKeyCallAt(front, k, i) ==> calls[i] == front[i];
      }
    }
  }

  /** Cursor hides minus cursor shows in a transcript. */
  function HideBalance(calls: seq<SinkCall>): int {
    if calls == [] then 0
    else
      HideBalance(calls[..|calls| - 1]) +
      match calls[|calls| - 1] { case HideCall => 1 case ShowCall => -1 case _ => 0 }
  }

  lemma {:induction false} HideBalanceConcat(a: seq<SinkCall>, b: seq<SinkCall>)
    ensures HideBalance(a + b) == HideBalance(a) + HideBalance(b)
  {
    if b == [] {
      assert a + b == a;
    } else {
      var n := |b| - 1;
      assert (a + b)[..|a + b| - 1] == a + b[..n];
      HideBalanceConcat(a, b[..n]);
    }
  }

  /** Has the local cursor come loose from the mouse? Hiding it decouples the two,
      showing it and warping it couple them again; a warp that fails (the `failed`
      calls, by their position) leaves things as they are. */
  function Decoupled(calls: seq<SinkCall>, failed: set<nat>): bool {
    if calls == [] then false
    else
      var n := |calls| - 1;
      match calls[n]
      case HideCall => true
      case ShowCall => false
      case WarpCall(_, _) => n in failed && Decoupled(calls[..n], failed)
      case _ => Decoupled(calls[..n], failed)
  }

  lemma DecoupledSnoc(calls: seq<SinkCall>, c: SinkCall, failed: set<nat>)
    ensures Decoupled(calls + [c], failed) ==
      if c.HideCall? then true
      else if c.ShowCall? then false
      else if c.WarpCall? then |calls| in failed && Decoupled(calls, failed)
      else Decoupled(calls, failed)
  {
    assert (calls + [c])[..|calls|] == calls;
  }
}
