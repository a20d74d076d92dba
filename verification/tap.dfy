/** The event tap's modifier tracking: one bit per modifier key. */
module Tap {
  import opened Words
  import opened Wire
  import opened Platform
  import opened Convert

  /** The bit of each tracked macOS modifier key code. */
  function ModBit(vk: uint16): (r: Option<nat>)
    ensures r.Some? ==> r.value < 9
  {
    if vk == 0x38 then Some(0)
    else if vk == 0x3C then Some(1)
    else if vk == 0x3B then Some(2)
    else if vk == 0x3E then Some(3)
    else if vk == 0x3A then Some(4)
    else if vk == 0x3D then Some(5)
    else if vk == 0x37 then Some(6)
    else if vk == 0x36 then Some(7)
    else if vk == 0x39 then Some(8)
    else None
  }

  /** The rows of the HID table for those keys. */
  function MacosToHid(vk: uint16): Option<uint16> {
    if vk == 0x38 then Some(0xE1)
    else if vk == 0x3C then Some(0xE5)
    else if vk == 0x3B then Some(0xE0)
    else if vk == 0x3E then Some(0xE4)
    else if vk == 0x3A then Some(0xE2)
    else if vk == 0x3D then Some(0xE6)
    else if vk == 0x37 then Some(0xE3)
    else if vk == 0x36 then Some(0xE7)
    else if vk == 0x39 then Some(0x39)
    else None
  }

  /** `1u32 << i`. */
  function Bit(i: nat): bv32
    requires i < 9
  {
    if i == 0 then 0x1 else if i == 1 then 0x2 else if i == 2 then 0x4
    else if i == 3 then 0x8 else if i == 4 then 0x10 else if i == 5 then 0x20
    else if i == 6 then 0x40 else if i == 7 then 0x80 else 0x100
  }

  predicate IsSet(held: bv32, i: nat)
    requires i < 9
  {
    held & Bit(i) != 0
  }

  function Toggle(held: bv32, i: nat): bv32
    requires i < 9
  {
    held ^ Bit(i)
  }

  /** A flags-changed event: only the key code and the chord mask are read. */
  datatype Flags = Flags(vk: uint16, mods: ModMask)

  class TapState {
    var held: bv32

    constructor ()
      ensures held == 0
    {
      held := 0;
    }

    method TranslateFlagsChanged(f: Flags) returns (ev: Option<SourceEvent>)
      modifies this
      ensures (held, ev) == Translate(old(held), f)
    {
      var index := ModBit(f.vk);
      if index.None? {
        return None;
      }
      var prev := held;
      var wasHeld := IsSet(prev, index.value);
      held := Toggle(prev, index.value);
      var state := if wasHeld then Up else Down;
      var hid := MacosToHid(f.vk);
      if hid.None? {
        return None;
      }
      return Some(Key(hid.value, state, f.mods));
    }
  }

  function Translate(held: bv32, f: Flags): (bv32, Option<SourceEvent>) {
    match ModBit(f.vk)
    case None => (held, None)
    case Some(i) =>
      (Toggle(held, i),
       if MacosToHid(f.vk).None? then None
       else Some(Key(MacosToHid(f.vk).value, if IsSet(held, i) then Up else Down, f.mods)))
  }

  /** The bitmap and the emitted events after a sequence of flags-changed events. */
  function Run(fs: seq<Flags>): (bv32, seq<SourceEvent>) {
    if fs == [] then (0, [])
    else
      var (held, evs) := Run(fs[..|fs| - 1]);
      var (held', ev) := Translate(held, fs[|fs| - 1]);
      (held', if ev.Some? then evs + [ev.value] else evs)
  }

  /** Which keys are tracked, and what a first press of each is reported as: the
      codes of the keyboard page (0x07) of the USB HID usage tables. */
  lemma ReportedAs(mods: ModMask)
    ensures forall vk: uint16 ::
      ModBit(vk).Some? <==> 0x36 <= vk <= 0x3E
    ensures var report := vk => Translate(0, Flags(vk, mods)).1;
      && report(0x38) == Some(Key(0xE1, Down, mods)) && report(0x3C) == Some(Key(0xE5, Down, mods))
      && report(0x3B) == Some(Key(0xE0, Down, mods)) && report(0x3E) == Some(Key(0xE4, Down, mods))
      && report(0x3A) == Some(Key(0xE2, Down, mods)) && report(0x3D) == Some(Key(0xE6, Down, mods))
      && report(0x37) == Some(Key(0xE3, Down, mods)) && report(0x36) == Some(Key(0xE7, Down, mods))
      && report(0x39) == Some(Key(0x39, Down, mods))
  {
  }

  function Count(fs: seq<Flags>, vk: uint16): nat {
    if fs == [] then 0
    else Count(fs[..|fs| - 1], vk) + if fs[|fs| - 1].vk == vk then 1 else 0
  }

  predicate Tracked(vk: uint16) {
    ModBit(vk).Some?
  }

  predicate Pressed(held: bv32, vk: uint16)
    requires Tracked(vk)
  {
    IsSet(held, ModBit(vk).value)
  }

  lemma XorOutside(x: bv32, a: bv32, b: bv32)
    requires a & b == 0
    ensures (x ^ a) & b == x & b
  {
  }

  lemma XorOneHot(x: bv32, a: bv32)
    requires a != 0 && a & (a - 1) == 0
    ensures (x ^ a) & a != 0 <==> x & a == 0
  {
  }

  lemma BitsAreOneHot(i: nat, j: nat)
    requires i < 9 && j < 9
    ensures Bit(i) != 0 && Bit(i) & (Bit(i) - 1) == 0
    ensures i != j ==> Bit(i) & Bit(j) == 0
  {
  }

  /** Toggling one bit moves that bit and no other. */
  lemma ToggleOne(held: bv32, i: nat, j: nat)
    requires i < 9 && j < 9
    ensures IsSet(Toggle(held, i), j) <==> if i == j then !IsSet(held, j) else IsSet(held, j)
  {
    BitsAreOneHot(i, j);
    if i == j {
      XorOneHot(held, Bit(i));
    } else {
      XorOutside(held, Bit(i), Bit(j));
    }
  }

  lemma OneBitPerKey(a: uint16, b: uint16)
    requires Tracked(a) && Tracked(b)
    ensures ModBit(a) == ModBit(b) ==> a == b
    ensures MacosToHid(a).Some?
    ensures MacosToHid(a) == MacosToHid(b) ==> a == b
  {
  }

  /** The bitmap is exactly the keys seen an odd number of times, and no bit
      beyond the nine is ever set. */
  lemma {:induction false} BitmapIsParity(fs: seq<Flags>, vk: uint16)
    requires Tracked(vk)
    ensures Pressed(Run(fs).0, vk) <==> Count(fs, vk) % 2 == 1
    ensures Run(fs).0 < 0x200
  {
    if fs != [] {
      var front, f := fs[..|fs| - 1], fs[|fs| - 1];
      BitmapIsParity(front, vk);
      var held := Run(front).0;
      if Tracked(f.vk) {
        OneBitPerKey(f.vk, vk);
        ToggleOne(held, ModBit(f.vk).value, ModBit(vk).value);
        ToggleInRange(held, ModBit(f.vk).value);
      }
    } else {
      NothingSet(ModBit(vk).value);
    }
  }

  lemma NothingSet(i: nat)
    requires i < 9
    ensures !IsSet(0, i)
  {
  }

  lemma ToggleInRange(held: bv32, i: nat)
    requires i < 9 && held < 0x200
    ensures Toggle(held, i) < 0x200
  {
  }

  /** The states of the events emitted for one key, in order. */
  function StatesOf(evs: seq<SourceEvent>, hid: uint16): seq<KeyState> {
    if evs == [] then []
    else
      var front, last := StatesOf(evs[..|evs| - 1], hid), evs[|evs| - 1];
      if last.Key? && last.hid == hid then front + [last.keyState] else front
  }

  lemma StatesSnoc(evs: seq<SourceEvent>, ev: SourceEvent, hid: uint16)
    ensures StatesOf(evs + [ev], hid) ==
      if ev.Key? && ev.hid == hid then StatesOf(evs, hid) + [ev.keyState] else StatesOf(evs, hid)
  {
    assert (evs + [ev])[..|evs|] == evs;
  }

  lemma EmitsToggle(held: bv32, f: Flags)
    requires Tracked(f.vk)
    ensures MacosToHid(f.vk).Some?
    ensures Translate(held, f).1 == Some(Key(MacosToHid(f.vk).value, if Pressed(held, f.vk) then Up else Down, f.mods))
  {
  }

  /** The events of each modifier strictly alternate, starting with a press,
      one per time the key code was seen. */
  lemma {:induction false} EventsAlternate(fs: seq<Flags>, vk: uint16)
    requires Tracked(vk)
    ensures var states := StatesOf(Run(fs).1, MacosToHid(vk).value);
      && |states| == Count(fs, vk)
      && forall i :: 0 <= i < |states| ==> states[i] == if i % 2 == 0 then Down else Up
  {
    if fs != [] {
      var front, f := fs[..|fs| - 1], fs[|fs| - 1];
      EventsAlternate(front, vk);
      BitmapIsParity(front, vk);
      var (held, evs) := Run(front);
      if Tracked(f.vk) {
        OneBitPerKey(f.vk, vk);
        EmitsToggle(held, f);
        StatesSnoc(evs, Translate(held, f).1.value, MacosToHid(vk).value);
      }
    }
  }

  function KeyMessages(evs: seq<SourceEvent>): seq<Message>
    requires forall ev :: ev in evs ==> ev.Key?
  {
    if evs == [] then []
    else KeyMessages(evs[..|evs| - 1]) + [SourceEventToMessage(evs[|evs| - 1]).value]
  }

  lemma {:induction false} OnlyKeys(fs: seq<Flags>)
    ensures forall ev :: ev in Run(fs).1 ==> ev.Key?
  {
    if fs != [] {
      OnlyKeys(fs[..|fs| - 1]);
    }
  }

  ghost predicate InImage(held: bv32, k: uint16) {
    exists vk: uint16 :: Tracked(vk) && MacosToHid(vk) == Some(k) && Pressed(held, vk)
  }

  lemma ImageStep(held: bv32, f: Flags, k: uint16)
    requires Tracked(f.vk)
    ensures var i := ModBit(f.vk).value;
      InImage(Toggle(held, i), k) <==> if MacosToHid(f.vk) == Some(k) then !IsSet(held, i) else InImage(held, k)
  {
    var i := ModBit(f.vk).value;
    var held' := Toggle(held, i);
    forall vk: uint16 | Tracked(vk)
      ensures Pressed(held', vk) <==> if vk == f.vk then !IsSet(held, i) else Pressed(held, vk)
      ensures MacosToHid(vk) == MacosToHid(f.vk) ==> vk == f.vk
    {
      OneBitPerKey(f.vk, vk);
      ToggleOne(held, i, ModBit(vk).value);
    }
    if MacosToHid(f.vk) == Some(k) {
      if !IsSet(held, i) {
        assert Tracked(f.vk) && MacosToHid(f.vk) == Some(k) && Pressed(held', f.vk);
      }
    } else {
      if InImage(held, k) {
        var vk: uint16 :| Tracked(vk) && MacosToHid(vk) == Some(k) && Pressed(held, vk);
        assert Pressed(held', vk);
      }
    }
  }

  /** Feeding the emitted events to the held-key tracker gives the HID image of
      the bitmap: the bit twiddling implements a set. */
  lemma {:induction false} TrackerFollowsBitmap(fs: seq<Flags>, k: uint16)
    ensures forall ev :: ev in Run(fs).1 ==> ev.Key?
    ensures k in FoldKeys({}, KeyMessages(Run(fs).1)) <==> InImage(Run(fs).0, k)
  {
    OnlyKeys(fs);
    if fs == [] {
      forall vk: uint16 | Tracked(vk) ensures !Pressed(0, vk) {
        NothingSet(ModBit(vk).value);
      }
    } else {
      var front, f := fs[..|fs| - 1], fs[|fs| - 1];
      TrackerFollowsBitmap(front, k);
      var (held, evs) := Run(front);
      if Tracked(f.vk) {
        OneBitPerKey(f.vk, f.vk);
        var ev := Translate(held, f).1.value;
        assert Run(fs).1 == evs + [ev];
        assert (evs + [ev])[..|evs|] == evs;
        FoldSnoc({}, KeyMessages(evs), SourceEventToMessage(ev).value);
        ImageStep(held, f, k);
      }
    }
  }
}
