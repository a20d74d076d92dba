/** The modifier remap: key codes and the parallel modifier mask. */
module ModMap {
  import opened Words
  import opened Platform

  const LEFT_CTRL: uint16 := 0xE0
  const LEFT_SHIFT: uint16 := 0xE1
  const LEFT_ALT: uint16 := 0xE2
  const LEFT_GUI: uint16 := 0xE3
  const RIGHT_CTRL: uint16 := 0xE4
  const RIGHT_SHIFT: uint16 := 0xE5
  const RIGHT_ALT: uint16 := 0xE6
  const RIGHT_GUI: uint16 := 0xE7

  datatype ModTarget = ToCtrl | ToAlt | ToShift | ToMeta | Identity

  datatype ModRemap = ModRemap(cmd: ModTarget, option: ModTarget)

  const DEFAULT_REMAP := ModRemap(ToCtrl, ToAlt)

  function LeftHidFor(target: ModTarget): Option<uint16> {
    match target
    case ToCtrl => Some(LEFT_CTRL)
    case ToAlt => Some(LEFT_ALT)
    case ToShift => Some(LEFT_SHIFT)
    case ToMeta => Some(LEFT_GUI)
    case Identity => None
  }

  function RightHidFor(target: ModTarget): Option<uint16> {
    match target
    case ToCtrl => Some(RIGHT_CTRL)
    case ToAlt => Some(RIGHT_ALT)
    case ToShift => Some(RIGHT_SHIFT)
    case ToMeta => Some(RIGHT_GUI)
    case Identity => None
  }

  function UnwrapOr(o: Option<uint16>, hid: uint16): uint16 {
    if o.Some? then o.value else hid
  }

  function ApplyToHid(r: ModRemap, hid: uint16): uint16 {
    if hid == LEFT_GUI then UnwrapOr(LeftHidFor(r.cmd), hid)
    else if hid == RIGHT_GUI then UnwrapOr(RightHidFor(r.cmd), hid)
    else if hid == LEFT_ALT then UnwrapOr(LeftHidFor(r.option), hid)
    else if hid == RIGHT_ALT then UnwrapOr(RightHidFor(r.option), hid)
    else hid
  }

  function ModMaskFor(target: ModTarget, original: ModMask): ModMask {
    match target
    case ToCtrl => CTRL
    case ToAlt => ALT
    case ToShift => SHIFT
    case ToMeta => META
    case Identity => original
  }

  function When(c: bool, m: ModMask): ModMask {
    if c then m else NO_MODS
  }

  /** The mask a remap produces: the union of the images of the set bits. */
  function RemappedMask(r: ModRemap, src: ModMask): ModMask {
    When(src.Contains(SHIFT), SHIFT)
      .Insert(When(src.Contains(CTRL), CTRL))
      .Insert(When(src.Contains(ALT), ModMaskFor(r.option, ALT)))
      .Insert(When(src.Contains(META), ModMaskFor(r.cmd, META)))
  }

  method ApplyToModmask(r: ModRemap, src: ModMask) returns (out: ModMask)
    ensures out == RemappedMask(r, src)
  {
    out := NO_MODS;
    if src.Contains(SHIFT) {
      out := out.Insert(SHIFT);
    }
    if src.Contains(CTRL) {
      out := out.Insert(CTRL);
    }
    if src.Contains(ALT) {
      out := out.Insert(ModMaskFor(r.option, ALT));
    }
    if src.Contains(META) {
      out := out.Insert(ModMaskFor(r.cmd, META));
    }
  }

  /** The mask a receiver would compute from the modifier keys it sees held. */
  function MaskOf(held: set<uint16>): ModMask {
    Mask4(LEFT_SHIFT in held || RIGHT_SHIFT in held, LEFT_CTRL in held || RIGHT_CTRL in held,
          LEFT_ALT in held || RIGHT_ALT in held, LEFT_GUI in held || RIGHT_GUI in held)
  }

  function Mask4(s: bool, c: bool, a: bool, m: bool): ModMask {
    When(s, SHIFT).Insert(When(c, CTRL)).Insert(When(a, ALT)).Insert(When(m, META))
  }

  lemma InsertMask4(s: bool, c: bool, a: bool, m: bool, s': bool, c': bool, a': bool, m': bool)
    ensures Mask4(s, c, a, m).Insert(Mask4(s', c', a', m')) == Mask4(s || s', c || c', a || a', m || m')
  {
  }

  lemma Mask4Bits(s: bool, c: bool, a: bool, m: bool)
    ensures var mask := Mask4(s, c, a, m);
      mask.Contains(SHIFT) == s && mask.Contains(CTRL) == c && mask.Contains(ALT) == a && mask.Contains(META) == m
  {
  }

  /** The image of one modifier bit under a target. */
  lemma WhenTarget(on: bool, t: ModTarget, self: ModTarget)
    requires self.ToAlt? || self.ToMeta?
    ensures When(on, ModMaskFor(t, if self.ToAlt? then ALT else META)) ==
      Mask4(on && t.ToShift?, on && t.ToCtrl?,
            on && (t.ToAlt? || (t.Identity? && self.ToAlt?)),
            on && (t.ToMeta? || (t.Identity? && self.ToMeta?)))
  {
  }

  lemma RemapMask4(r: ModRemap, s: bool, c: bool, a: bool, m: bool)
    ensures RemappedMask(r, Mask4(s, c, a, m)) == Mask4(
      s || (a && r.option.ToShift?) || (m && r.cmd.ToShift?),
      c || (a && r.option.ToCtrl?) || (m && r.cmd.ToCtrl?),
      (a && (r.option.ToAlt? || r.option.Identity?)) || (m && r.cmd.ToAlt?),
      (a && r.option.ToMeta?) || (m && (r.cmd.ToMeta? || r.cmd.Identity?)))
  {
    Mask4Bits(s, c, a, m);
    var base := When(s, SHIFT).Insert(When(c, CTRL));
    assert base == Mask4(s, c, false, false);
    WhenTarget(a, r.option, ToAlt);
    WhenTarget(m, r.cmd, ToMeta);
    var o, k := r.option, r.cmd;
    InsertMask4(s, c, false, false,
                a && o.ToShift?, a && o.ToCtrl?, a && (o.ToAlt? || o.Identity?), a && o.ToMeta?);
    InsertMask4(s || (a && o.ToShift?), c || (a && o.ToCtrl?), a && (o.ToAlt? || o.Identity?), a && o.ToMeta?,
                m && k.ToShift?, m && k.ToCtrl?, m && k.ToAlt?, m && (k.ToMeta? || k.Identity?));
  }

  function Image(r: ModRemap, held: set<uint16>): set<uint16> {
    set h | h in held :: ApplyToHid(r, h)
  }

  /** Membership of the four left-hand modifier codes in an image, written out. */
  lemma LeftImage(r: ModRemap, held: set<uint16>)
    ensures var im := Image(r, held);
      && (LEFT_CTRL in im <==>
           LEFT_CTRL in held || (r.cmd.ToCtrl? && LEFT_GUI in held) || (r.option.ToCtrl? && LEFT_ALT in held))
      && (LEFT_SHIFT in im <==>
           LEFT_SHIFT in held || (r.cmd.ToShift? && LEFT_GUI in held) || (r.option.ToShift? && LEFT_ALT in held))
      && (LEFT_ALT in im <==>
           (r.cmd.ToAlt? && LEFT_GUI in held) || ((r.option.ToAlt? || r.option.Identity?) && LEFT_ALT in held))
      && (LEFT_GUI in im <==>
           ((r.cmd.ToMeta? || r.cmd.Identity?) && LEFT_GUI in held) || (r.option.ToMeta? && LEFT_ALT in held))
  {
    assert forall h :: h in held ==> ApplyToHid(r, h) in Image(r, held);
  }

  lemma RightImage(r: ModRemap, held: set<uint16>)
    ensures var im := Image(r, held);
      && (RIGHT_CTRL in im <==>
           RIGHT_CTRL in held || (r.cmd.ToCtrl? && RIGHT_GUI in held) || (r.option.ToCtrl? && RIGHT_ALT in held))
      && (RIGHT_SHIFT in im <==>
           RIGHT_SHIFT in held || (r.cmd.ToShift? && RIGHT_GUI in held) || (r.option.ToShift? && RIGHT_ALT in held))
      && (RIGHT_ALT in im <==>
           (r.cmd.ToAlt? && RIGHT_GUI in held) || ((r.option.ToAlt? || r.option.Identity?) && RIGHT_ALT in held))
      && (RIGHT_GUI in im <==>
           ((r.cmd.ToMeta? || r.cmd.Identity?) && RIGHT_GUI in held) || (r.option.ToMeta? && RIGHT_ALT in held))
  {
    assert forall h :: h in held ==> ApplyToHid(r, h) in Image(r, held);
  }

  /** The two remap layers agree: for every set of held keys, the mask of the
      remapped keys is the remapped mask of the keys. */
  lemma RemapIsHomomorphic(r: ModRemap, held: set<uint16>)
    ensures MaskOf(Image(r, held)) == RemappedMask(r, MaskOf(held))
  {
    LeftImage(r, held);
    RightImage(r, held);
    RemapMask4(r, LEFT_SHIFT in held || RIGHT_SHIFT in held, LEFT_CTRL in held || RIGHT_CTRL in held,
               LEFT_ALT in held || RIGHT_ALT in held, LEFT_GUI in held || RIGHT_GUI in held);
  }

  ghost predicate InjectiveRemap(r: ModRemap) {
    forall a: uint16, b: uint16 :: ApplyToHid(r, a) == ApplyToHid(r, b) ==> a == b
  }

  /** Two keys never fold into one exactly when each configured modifier stays
      itself or the two are swapped; the shipped default (Cmd to Ctrl) folds. */
  lemma InjectiveIff(r: ModRemap)
    ensures InjectiveRemap(r) <==>
      || ((r.cmd.Identity? || r.cmd.ToMeta?) && (r.option.Identity? || r.option.ToAlt?))
      || (r.cmd.ToAlt? && r.option.ToMeta?)
    ensures !InjectiveRemap(DEFAULT_REMAP)
  {
    var f := (h: uint16) => ApplyToHid(r, h);
    assert f(LEFT_GUI) == f(LEFT_CTRL) || f(LEFT_GUI) == f(LEFT_SHIFT) || f(LEFT_GUI) == f(LEFT_ALT)
        || f(LEFT_ALT) == f(LEFT_CTRL) || f(LEFT_ALT) == f(LEFT_SHIFT)
        || ((r.cmd.Identity? || r.cmd.ToMeta?) && (r.option.Identity? || r.option.ToAlt?))
        || (r.cmd.ToAlt? && r.option.ToMeta?);
    assert ApplyToHid(DEFAULT_REMAP, LEFT_GUI) == ApplyToHid(DEFAULT_REMAP, LEFT_CTRL);
  }
}
