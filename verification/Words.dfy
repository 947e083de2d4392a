/** The mask-and-shift macros of bitops.h and mm.h, on machine words held as integers.
    A mask GENMASK(hi, lo) is given by the weight `unit` = 2^lo of its lowest bit and by the number
    `span` = 2^(hi-lo+1) of values the field can hold.  Every mask in mm.h has type unsigned int, so
    `~mask` is a 32-bit value and clearing a field also drops bits 32 and up of a wider word. */
module Words {
  const WORD := 0x1_0000_0000

  function SetBit(v: int, bit: nat): int
    requires bit > 0
  {
    if (v / bit) % 2 == 0 then v + bit else v
  }

  function ClrBit(v: int, bit: nat): int
    requires bit > 0
  {
    var w := v % WORD;
    if (w / bit) % 2 == 0 then w else w - bit
  }

  function GetVal(v: int, unit: nat, span: nat): int
    requires unit > 0 && span > 0
  {
    (v / unit) % span
  }

  function SetVal(v: int, value: int, unit: nat, span: nat): int
    requires unit > 0 && span > 0
  {
    var w := v % WORD;
    w - GetVal(w, unit, span) * unit + (value % span) * unit
  }

  /** Of a value too wide for its field the low bits are stored. */
  lemma SetValCuts(v: int, value: int, unit: nat, span: nat)
    requires unit > 0 && span > 0
    ensures SetVal(v, value % span, unit, span) == SetVal(v, value, unit, span)
  {
    assert value % span % span == value % span;
  }
}

/** The 32-bit page table entry of mm.h: PRESENT is bit 31, SWAPPED bit 30, the frame number sits in
    bits 0-12, the swap type in bits 0-4 and the swap offset in bits 5-25.  The fields overlap and
    neither setter clears the other one's leftovers. */
module Pte {
  import opened Words

  const PRESENT: nat := 0x8000_0000
  const SWAPPED: nat := 0x4000_0000
  const FPN_SPAN: nat := 0x2000
  const SWPTYP_SPAN: nat := 0x20
  const SWPOFF_UNIT: nat := 0x20
  const SWPOFF_SPAN: nat := 0x20_0000

  predicate Present(pte: int) { (pte / PRESENT) % 2 == 1 }

  predicate Swapped(pte: int) { (pte / SWAPPED) % 2 == 1 }

  function Fpn(pte: int): (fpn: nat) { GetVal(pte, 1, FPN_SPAN) }

  function SwpOff(pte: int): (offset: nat) { GetVal(pte, SWPOFF_UNIT, SWPOFF_SPAN) }

  function SwpTyp(pte: int): (swptyp: nat) { GetVal(pte, 1, SWPTYP_SPAN) }

  function WithFpn(pte: int, fpn: nat): int {
    SetVal(ClrBit(SetBit(pte, PRESENT), SWAPPED), fpn, 1, FPN_SPAN)
  }

  function WithSwap(pte: int, swptyp: nat, swpoff: nat): int {
    var typed := SetVal(SetBit(ClrBit(pte, PRESENT), SWAPPED), swptyp, 1, SWPTYP_SPAN);
    SetVal(typed, swpoff, SWPOFF_UNIT, SWPOFF_SPAN)
  }

  lemma WithFpnDecodes(pte: int, fpn: nat)
    requires 0 <= pte < WORD && fpn < FPN_SPAN
    ensures 0 <= WithFpn(pte, fpn) < WORD
    ensures Present(WithFpn(pte, fpn)) && !Swapped(WithFpn(pte, fpn))
    ensures Fpn(WithFpn(pte, fpn)) == fpn
  {
    var w := ClrBit(SetBit(pte, PRESENT), SWAPPED);
    assert PRESENT <= w < PRESENT + SWAPPED;
    FpnOfSetVal(w, fpn);
  }

  lemma FpnOfSetVal(w: int, fpn: nat)
    requires PRESENT <= w < PRESENT + SWAPPED && fpn < FPN_SPAN
    ensures PRESENT <= SetVal(w, fpn, 1, FPN_SPAN) < PRESENT + SWAPPED
    ensures Fpn(SetVal(w, fpn, 1, FPN_SPAN)) == fpn
  {
    var top := w / FPN_SPAN;
    assert w == top * FPN_SPAN + GetVal(w, 1, FPN_SPAN);
    assert SetVal(w, fpn, 1, FPN_SPAN) == top * FPN_SPAN + fpn;
  }

  lemma WithSwapDecodes(pte: int, swptyp: nat, swpoff: nat)
    requires 0 <= pte < WORD && swptyp < SWPTYP_SPAN && swpoff < SWPOFF_SPAN
    ensures 0 <= WithSwap(pte, swptyp, swpoff) < WORD
    ensures !Present(WithSwap(pte, swptyp, swpoff)) && Swapped(WithSwap(pte, swptyp, swpoff))
    ensures SwpOff(WithSwap(pte, swptyp, swpoff)) == swpoff && SwpTyp(WithSwap(pte, swptyp, swpoff)) == swptyp
  {
    var w := SetBit(ClrBit(pte, PRESENT), SWAPPED);
    assert SWAPPED <= w < PRESENT;
    SwpTypOfSetVal(w, swptyp);
    SwpOffOfSetVal(SetVal(w, swptyp, 1, SWPTYP_SPAN), swpoff, SWAPPED);
  }

  lemma SwpTypOfSetVal(w: int, swptyp: nat)
    requires 0 <= w < WORD && swptyp < SWPTYP_SPAN
    ensures var typed := SetVal(w, swptyp, 1, SWPTYP_SPAN);
            SwpTyp(typed) == swptyp && typed / SWPTYP_SPAN == w / SWPTYP_SPAN && 0 <= typed < WORD
  {
    var top := w / SWPTYP_SPAN;
    assert w == top * SWPTYP_SPAN + GetVal(w, 1, SWPTYP_SPAN);
    assert SetVal(w, swptyp, 1, SWPTYP_SPAN) == top * SWPTYP_SPAN + swptyp;
  }

  /** The offset goes below the flags, `flags` being what the two top bits hold, and above the type. */
  lemma SwpOffOfSetVal(w: int, swpoff: nat, flags: nat)
    requires flags == SWAPPED || flags == PRESENT + SWAPPED
    requires flags <= w < flags + SWAPPED && swpoff < SWPOFF_SPAN
    ensures var stored := SetVal(w, swpoff, SWPOFF_UNIT, SWPOFF_SPAN);
            flags <= stored < flags + SWAPPED && SwpOff(stored) == swpoff && SwpTyp(stored) == SwpTyp(w)
  {
    var q, rest := w / SWPOFF_UNIT, w % SWPOFF_UNIT;
    var top := q / SWPOFF_SPAN;
    assert w == q * SWPOFF_UNIT + rest;
    assert q == top * SWPOFF_SPAN + q % SWPOFF_SPAN;
    assert flags / 0x400_0000 <= top < flags / 0x400_0000 + 16;
    var q' := top * SWPOFF_SPAN + swpoff;
    assert SetVal(w, swpoff, SWPOFF_UNIT, SWPOFF_SPAN) == q' * SWPOFF_UNIT + rest;
    assert (q' * SWPOFF_UNIT + rest) / SWPOFF_UNIT == q';
  }

  datatype PteUpdate = ToFrame(fpn: nat) | ToSwap(swptyp: nat, swpoff: nat)

  predicate Fits(u: PteUpdate) {
    match u
    case ToFrame(fpn) => fpn < FPN_SPAN
    case ToSwap(swptyp, swpoff) => swptyp < SWPTYP_SPAN && swpoff < SWPOFF_SPAN
  }

  function Update(pte: int, u: PteUpdate): int {
    match u
    case ToFrame(fpn) => WithFpn(pte, fpn)
    case ToSwap(swptyp, swpoff) => WithSwap(pte, swptyp, swpoff)
  }

  function UpdateAll(pte: int, us: seq<PteUpdate>): int {
    if us == [] then pte else Update(UpdateAll(pte, us[..|us|-1]), us[|us|-1])
  }

  /** Whatever was written before, an entry decodes to the last update alone. */
  lemma {:induction false} OnlyLastUpdateShows(pte: int, us: seq<PteUpdate>)
    requires 0 <= pte < WORD
    requires forall u <- us :: Fits(u)
    ensures 0 <= UpdateAll(pte, us) < WORD
    ensures us != [] ==>
              var w, last := UpdateAll(pte, us), us[|us|-1];
              match last
              case ToFrame(fpn) => Present(w) && !Swapped(w) && Fpn(w) == fpn
              case ToSwap(swptyp, swpoff) => !Present(w) && Swapped(w) && SwpOff(w) == swpoff && SwpTyp(w) == swptyp
  {
    hide WithFpn, WithSwap, Present, Swapped, Fpn, SwpOff, SwpTyp;
    if us != [] {
      assert Fits(us[|us|-1]);
      var before := UpdateAll(pte, us[..|us|-1]);
      OnlyLastUpdateShows(pte, us[..|us|-1]);
      match us[|us|-1] {
        case ToFrame(fpn) => WithFpnDecodes(before, fpn);
        case ToSwap(swptyp, swpoff) => WithSwapDecodes(before, swptyp, swpoff);
      }
    }
  }
}
