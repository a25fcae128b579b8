/**
 * The bit layout of a page-table entry (include/mm.h) and the 9+9+9+9+9+12 split of a
 * virtual address (include/mm64.h), written with the source's own masks and shifts.
 */
module Pte {

  // include/bitops.h: BIT and GENMASK are 32-bit unsigned, so `~mask` has no high half.
  const LOW32: bv64 := 0xffff_ffff
  const ALL64: bv64 := 0xffff_ffff_ffff_ffff

  const PRESENT_MASK: bv64 := 1 << 31
  const SWAPPED_MASK: bv64 := 1 << 30

  function GenMask(h: nat, l: nat): bv64
    requires l <= h < 32
  {
    ((LOW32 << l) & LOW32) & (LOW32 >> (31 - h))
  }

  function GenMask64(h: nat, l: nat): bv64
    requires l <= h < 64
  {
    (ALL64 << l) & (ALL64 >> (63 - h))
  }

  const FPN_MASK: bv64 := GenMask(12, 0)
  const SWPTYP_MASK: bv64 := GenMask(4, 0)
  const SWPOFF_MASK: bv64 := GenMask(25, 5)

  function Not32(mask: bv64): bv64 { (mask & LOW32) ^ LOW32 }

  function SetBit(v: bv64, mask: bv64): bv64 { v | mask }

  function ClrBit(v: bv64, mask: bv64): bv64 { v & Not32(mask) }

  function SetVal(v: bv64, value: bv64, mask: bv64, offst: nat): bv64
    requires offst < 64
  {
    (v & Not32(mask)) | ((value << offst) & mask)
  }

  function GetVal(v: bv64, mask: bv64, offst: nat): bv64
    requires offst < 64
  {
    (v & mask) >> offst
  }

  /** The entry `pte_set_fpn` leaves behind when it finds `v`. */
  function SetFpn(v: bv64, fpn: bv64): bv64 {
    SetVal(ClrBit(SetBit(v, PRESENT_MASK), SWAPPED_MASK), fpn, FPN_MASK, 0)
  }

  /** The entry `pte_set_swap` leaves behind when it finds `v`. */
  function SetSwap(v: bv64, swptyp: bv64, swpoff: bv64): bv64 {
    SetVal(SetVal(SetBit(SetBit(v, PRESENT_MASK), SWAPPED_MASK), swptyp, SWPTYP_MASK, 0), swpoff, SWPOFF_MASK, 5)
  }

  predicate Present(v: bv64) { v & PRESENT_MASK != 0 }
  predicate Swapped(v: bv64) { v & SWAPPED_MASK != 0 }
  function Fpn(v: bv64): bv64 { GetVal(v, FPN_MASK, 0) }
  function SwpTyp(v: bv64): bv64 { GetVal(v, SWPTYP_MASK, 0) }
  function Swp(v: bv64): bv64 { GetVal(v, SWPOFF_MASK, 5) }

  lemma MaskValues()
    ensures PRESENT_MASK == 0x8000_0000 && SWAPPED_MASK == 0x4000_0000
    ensures FPN_MASK == 0x1fff && SWPTYP_MASK == 0x1f && SWPOFF_MASK == 0x03ff_ffe0
  {}

  // What a present entry decodes to, for every previous content and every frame number.
  lemma SetFpnDecodes(v: bv64, fpn: bv64)
    ensures Present(SetFpn(v, fpn)) && !Swapped(SetFpn(v, fpn))
    ensures Fpn(SetFpn(v, fpn)) == fpn & 0x1fff
    ensures SetFpn(v, fpn) <= LOW32
    ensures (SetFpn(v, fpn) ^ v) & 0x3fff_e000 == 0  // dirty, reserve and user-number bits stay
  {
    MaskValues();
  }

  // The thirteen-bit field gives the frame back exactly when RAM holds at most 8192 frames.
  lemma FpnRoundTrip(v: bv64, fpn: bv64)
    ensures Fpn(SetFpn(v, fpn)) == fpn <==> fpn < 8192
  {
    MaskValues();
  }

  lemma SetSwapDecodes(v: bv64, swptyp: bv64, swpoff: bv64)
    ensures Present(SetSwap(v, swptyp, swpoff)) && Swapped(SetSwap(v, swptyp, swpoff))
    ensures SetSwap(v, swptyp, swpoff) <= LOW32
    ensures SwpTyp(SetSwap(v, swptyp, swpoff)) == swptyp <==> swptyp < 32
    ensures Swp(SetSwap(v, swptyp, swpoff)) == swpoff <==> swpoff < 0x20_0000
    ensures (SetSwap(v, swptyp, swpoff) ^ v) & 0x3c00_0000 == 0
  {
    MaskValues();
  }

  lemma SetSwapType(v: bv64, swptyp: bv64, swpoff: bv64)
    ensures SwpTyp(SetSwap(v, swptyp, swpoff)) == swptyp & 0x1f
  {
    MaskValues();
  }

  lemma SetSwapOffset(v: bv64, swptyp: bv64, swpoff: bv64)
    ensures Swp(SetSwap(v, swptyp, swpoff)) == swpoff & 0x1f_ffff
  {
    MaskValues();
  }

  /** The five table indices of an address, root first. */
  datatype Path = Path(pgd: bv64, p4d: bv64, pud: bv64, pmd: bv64, pt: bv64)

  const PGD_MASK: bv64 := 0x01ff_0000_0000_0000
  const P4D_MASK: bv64 := 0x0000_ff80_0000_0000
  const PUD_MASK: bv64 := 0x0000_007f_c000_0000
  const PMD_MASK: bv64 := 0x0000_0000_3fe0_0000
  const PT_MASK: bv64 := 0x0000_0000_001f_f000

  lemma Mask64Values()
    ensures PGD_MASK == GenMask64(56, 48) && P4D_MASK == GenMask64(47, 39) && PUD_MASK == GenMask64(38, 30)
    ensures PMD_MASK == GenMask64(29, 21) && PT_MASK == GenMask64(20, 12)
  {}

  /** `get_pd_from_address`. */
  function PdFromAddress(addr: bv64): Path {
    Path((addr & PGD_MASK) >> 48, (addr & P4D_MASK) >> 39, (addr & PUD_MASK) >> 30,
         (addr & PMD_MASK) >> 21, (addr & PT_MASK) >> 12)
  }

  /** `get_pd_from_pagenum`. */
  function PdFromPagenum(pgn: bv64): Path {
    PdFromAddress(pgn << 12)
  }

  const PGN_BITS: bv64 := 0x1fff_ffff_ffff

  lemma PdIndices(pgn: bv64)
    ensures PdFromPagenum(pgn) == Path((pgn >> 36) & 0x1ff, (pgn >> 27) & 0x1ff, (pgn >> 18) & 0x1ff,
                                       (pgn >> 9) & 0x1ff, pgn & 0x1ff)
  {
    ShiftedField(pgn);
  }

  lemma ShiftedField(pgn: bv64)
    ensures ((pgn << 12) & 0x01ff_0000_0000_0000) >> 48 == (pgn >> 36) & 0x1ff
    ensures ((pgn << 12) & 0x0000_ff80_0000_0000) >> 39 == (pgn >> 27) & 0x1ff
    ensures ((pgn << 12) & 0x0000_007f_c000_0000) >> 30 == (pgn >> 18) & 0x1ff
    ensures ((pgn << 12) & 0x0000_0000_3fe0_0000) >> 21 == (pgn >> 9) & 0x1ff
    ensures ((pgn << 12) & 0x0000_0000_001f_f000) >> 12 == pgn & 0x1ff
  {}

  /** The page number a path of indices stands for. */
  function Glue(p: Path): bv64 {
    (p.pgd << 36) | (p.p4d << 27) | (p.pud << 18) | (p.pmd << 9) | p.pt
  }

  // The split loses nothing of a 45-bit page number: gluing the indices gives the page back.
  lemma SplitRecombines(pgn: bv64)
    ensures Glue(PdFromPagenum(pgn)) == pgn & PGN_BITS
  {
    PdIndices(pgn);
    GlueFields(pgn);
  }

  lemma GlueFields(pgn: bv64)
    ensures (((pgn >> 36) & 0x1ff) << 36) | (((pgn >> 27) & 0x1ff) << 27) | (((pgn >> 18) & 0x1ff) << 18)
            | (((pgn >> 9) & 0x1ff) << 9) | (pgn & 0x1ff) == pgn & 0x1fff_ffff_ffff
  {}

  lemma LowBitsDecide(p: bv64)
    ensures PdFromPagenum(p) == PdFromPagenum(p & PGN_BITS)
  {
    PdIndices(p);
    PdIndices(p & PGN_BITS);
    LowFields(p);
  }

  lemma LowFields(p: bv64)
    ensures var r := p & 0x1fff_ffff_ffff;
            && (p >> 36) & 0x1ff == (r >> 36) & 0x1ff && (p >> 27) & 0x1ff == (r >> 27) & 0x1ff
            && (p >> 18) & 0x1ff == (r >> 18) & 0x1ff && (p >> 9) & 0x1ff == (r >> 9) & 0x1ff
            && p & 0x1ff == r & 0x1ff
  {}

  // Two page numbers share a path exactly when they agree in their low 45 bits.
  lemma PathInjective(p: bv64, q: bv64)
    ensures PdFromPagenum(p) == PdFromPagenum(q) <==> p & PGN_BITS == q & PGN_BITS
  {
    SplitRecombines(p);
    SplitRecombines(q);
    LowBitsDecide(p);
    LowBitsDecide(q);
  }
}
