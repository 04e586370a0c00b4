/** The blocking constants of the OpenCL kernels and the function that selects them. */
module Layout {
  import opened Arith
  import opened Config

  const RANK := 4
  const MACRO_WORK_ITEMS_MAX := 512
  const MACRO_LARGE := 128
  const MACRO_SMALL := 64

  predicate IsSupportedTile(mr: int, nr: int) {
    || (mr == 4 && nr == 4)
    || (mr == 4 && nr == 8)
    || (mr == PP_HASH_H && (nr == 8 || nr == 16))
  }

  predicate IsSupportedMacro(macroM: int, macroN: int) {
    || (macroM == MACRO_SMALL && macroN == MACRO_SMALL)
    || (macroM == MACRO_LARGE && macroN == MACRO_LARGE)
  }

  /** A register tile, a macro block and the depth of one panel. Every size the packers and the hash
      loops use is derived from these five. */
  datatype Shape = Shape(mr: nat, nr: nat, macroM: nat, macroN: nat, kr: nat)
  {
    /** Hash tiles have at least 32 cells, so two 4x4 register tiles share one. */
    function HashNr(): nat { if mr == 4 && nr == 4 then 8 else nr }

    predicate Fits() {
      && mr > 0 && nr > 0 && macroM > 0 && macroN > 0 && kr > 0
      && macroM % mr == 0 && macroN % nr == 0 && macroN % HashNr() == 0 && kr % RANK == 0
    }

    function MicroPerMacroM(): nat requires mr > 0 { macroM / mr }
    function MicroPerMacroN(): nat requires nr > 0 { macroN / nr }
    function KGroups(): nat { kr / RANK }
    function RegisterTilesPerHash(): nat requires nr > 0 { HashNr() / nr }
  }

  /** Every register tile lies in one hash tile and every hash tile in one macro block. */
  lemma TilesNest(s: Shape)
    requires s.Fits() && IsSupportedTile(s.mr, s.nr)
    ensures s.HashNr() == s.RegisterTilesPerHash() * s.nr
    ensures s.MicroPerMacroN() % s.RegisterTilesPerHash() == 0
    ensures s.mr * s.HashNr() >= 32
  {
    if s.HashNr() == s.nr {
      assert s.RegisterTilesPerHash() == 1;
    } else {
      assert s.macroN % 8 == 0;
      assert s.RegisterTilesPerHash() == 2;
      assert s.macroN / 4 == s.macroN / 8 * 2;
    }
  }

  lemma BlocksTile(macro: nat, tile: nat)
    requires tile in {4, 8, 16} && macro in {MACRO_SMALL, MACRO_LARGE}
    ensures macro % tile == 0 && macro / tile * tile == macro
    ensures macro / tile * (tile * RANK) == macro * RANK
  {
    MulAssociates(macro / tile, tile, RANK);
  }

  lemma HashTilesFill(macroM: nat, mr: nat, macroN: nat, nr: nat)
    requires (mr in {4, 8} && nr == 8) || (mr == 8 && nr == 16)
    requires macroM == macroN && macroM in {MACRO_SMALL, MACRO_LARGE}
    ensures var items := macroM / mr * (macroN / nr);
            0 < items <= MACRO_WORK_ITEMS_MAX && items * (mr * nr) == macroM * macroN
  {
    if macroM == MACRO_SMALL { assert macroN == MACRO_SMALL; }
  }

  class Layout {
    var kMR: nat
    var kNR: nat
    var kKR: nat
    var kMacroM: nat
    var kMacroN: nat
    var kMicroPerMacroM: int
    var kMicroPerMacroN: int
    var kHashPerMacroM: int
    var kHashPerMacroN: int
    var kPanelA: int
    var kPanelB: int
    var kKGroups: int
    var kMacroWorkItems: int
    var kNumMilestones: int
    var kKgBytesA: int
    var kKgSliceB: int
    var kMacroKgStripA: int
    var kMacroKgStripB: int
    var kMacroKbBlockA: int
    var kMacroKbBlockB: int

    function Current(): Shape
      reads this
    {
      Shape(kMR, kNR, kMacroM, kMacroN, kKR)
    }

    /** The counts of the current shape. */
    predicate Counted()
      reads this
    {
      && kMR > 0 && kNR > 0 && kKR > 0
      && kMicroPerMacroM == kMacroM / kMR
      && kMicroPerMacroN == kMacroN / kNR
      && kHashPerMacroM == kMacroM / kMR
      && kHashPerMacroN == kMacroN / HashTileNr()
      && kKGroups == kKR / RANK
      && kNumMilestones == K_DIM / kKR
      && kMacroWorkItems == kHashPerMacroM * kHashPerMacroN
    }

    /** The byte sizes of its packed pieces. */
    predicate Sized()
      reads this
    {
      && kPanelA == kKR * kMR
      && kPanelB == kKR * kNR
      && kKgBytesA == kMR * RANK
      && kKgSliceB == kNR * RANK
      && kMacroKgStripA == kMicroPerMacroM * kKgBytesA
      && kMacroKgStripB == kMicroPerMacroN * kKgSliceB
      && kMacroKbBlockA == kKGroups * kMacroKgStripA
      && kMacroKbBlockB == kKGroups * kMacroKgStripB
    }

    predicate Valid()
      reads this
    {
      && kKR == R_RANK
      && IsSupportedTile(kMR, kNR)
      && IsSupportedMacro(kMacroM, kMacroN)
      && Counted()
      && Sized()
    }

    /** The blocks of every selectable layout tile exactly: register tiles fill the hash tiles, hash
        tiles the macro blocks, panels the packed blocks, milestones the depth. */
    lemma BlocksFill()
      requires Valid()
      ensures Current().Fits()
      ensures kMicroPerMacroM * kMR == kMacroM && kMicroPerMacroN * kNR == kMacroN
      ensures kHashPerMacroM * kMR == kMacroM && kHashPerMacroN * HashTileNr() == kMacroN
      ensures kKGroups * RANK == kKR && kNumMilestones * kKR == K_DIM
      ensures kPanelA == kKGroups * kKgBytesA && kPanelB == kKGroups * kKgSliceB
      ensures kMacroKgStripA == kMacroM * RANK && kMacroKgStripB == kMacroN * RANK
      ensures kMacroKbBlockA == kMacroM * kKR && kMacroKbBlockB == kMacroN * kKR
      ensures 0 < kMacroWorkItems <= MACRO_WORK_ITEMS_MAX
      ensures kMacroWorkItems * (kMR * HashTileNr()) == kMacroM * kMacroN
    {
      BlocksTile(kMacroM, kMR);
      BlocksTile(kMacroN, kNR);
      BlocksTile(kMacroN, HashTileNr());
      HashTilesFill(kMacroM, kMR, kMacroN, HashTileNr());
    }

    constructor ()
      ensures Valid() && Current() == Shape(PP_HASH_H, PP_HASH_W, MACRO_LARGE, MACRO_LARGE, R_RANK)
    {
      kMR, kNR, kKR, kMacroM, kMacroN := PP_HASH_H, PP_HASH_W, R_RANK, MACRO_LARGE, MACRO_LARGE;
      new;
      UpdateDerived();
    }

    method UpdateDerived()
      requires IsSupportedTile(kMR, kNR) && IsSupportedMacro(kMacroM, kMacroN)
      modifies this
      ensures Valid() && Current() == old(Current()).(kr := R_RANK)
    {
      kKR := R_RANK;
      UpdateCounts();
      UpdateSizes();
    }

    method UpdateCounts()
      requires kMR > 0 && kNR > 0 && kKR > 0
      modifies this`kMicroPerMacroM, this`kMicroPerMacroN, this`kHashPerMacroM, this`kHashPerMacroN
      modifies this`kMacroWorkItems, this`kNumMilestones, this`kKGroups
      ensures Counted()
    {
      kMicroPerMacroM := kMacroM / kMR;
      kMicroPerMacroN := kMacroN / kNR;
      kHashPerMacroM := kMacroM / kMR;
      kHashPerMacroN := kMacroN / HashTileNr();
      kKGroups := kKR / RANK;
      kMacroWorkItems := kHashPerMacroM * kHashPerMacroN;
      kNumMilestones := K_DIM / kKR;
    }

    method UpdateSizes()
      modifies this`kPanelA, this`kPanelB, this`kKgBytesA, this`kKgSliceB
      modifies this`kMacroKgStripA, this`kMacroKgStripB, this`kMacroKbBlockA, this`kMacroKbBlockB
      ensures Sized()
    {
      kPanelA := kKR * kMR;
      kPanelB := kKR * kNR;
      kKgBytesA := kMR * RANK;
      kKgSliceB := kNR * RANK;
      kMacroKgStripA := kMicroPerMacroM * kKgBytesA;
      kMacroKgStripB := kMicroPerMacroN * kKgSliceB;
      kMacroKbBlockA := kKGroups * kMacroKgStripA;
      kMacroKbBlockB := kKGroups * kMacroKgStripB;
    }

    function HashTileNr(): nat
      reads this
    {
      if kMR == 4 && kNR == 4 then 8 else kNR
    }

    /** Selects a register tile and a macro block, 128x128 unless both sides are given. It refuses
        exactly the unsupported sizes: neither the divisibility check nor the work-item limit ever
        rejects a supported pair. A refusal changes nothing. */
    method Configure(mr: int, nr: int, macroM: int, macroN: int) returns (ok: bool)
      requires Valid()
      modifies this
      ensures ok <==> IsSupportedTile(mr, nr) && (macroM <= 0 || macroN <= 0 || IsSupportedMacro(macroM, macroN))
      ensures Valid()
      ensures ok ==> Current() == (if macroM <= 0 || macroN <= 0 then Shape(mr, nr, MACRO_LARGE, MACRO_LARGE, R_RANK)
                                   else Shape(mr, nr, macroM, macroN, R_RANK))
      ensures !ok ==> unchanged(this)
    {
      if !IsSupportedTile(mr, nr) { return false; }
      var mm, mn := macroM, macroN;
      if mm <= 0 || mn <= 0 {
        mm, mn := MACRO_LARGE, MACRO_LARGE;
      } else if !IsSupportedMacro(mm, mn) {
        return false;
      }
      if mm % mr != 0 || mn % nr != 0 { return false; }
      if kKR % RANK != 0 || K_DIM % R_RANK != 0 { return false; }
      var hashNr := if mr == 4 && nr == 4 then 8 else nr;
      var workItems := (mm / mr) * (mn / hashNr);
      if workItems > MACRO_WORK_ITEMS_MAX { return false; }
      kMR, kNR, kMacroM, kMacroN := mr, nr, mm, mn;
      UpdateDerived();
      ok := true;
    }
  }
}
