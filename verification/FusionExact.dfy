/** Exactly when a fused tag is the value its register holds: the pass against full constant propagation,
    where every other instruction may or may not write any of a given set of registers. */
module FusionExact {
  import opened Text
  import opened Fusion

  /** The registers each instruction may write, besides what loads and combinations write. */
  type May = seq<set<string>>

  predicate Words(regs: Regs) { forall r <- regs :: regs[r] < WORD }

  /** One way the code can go: other instructions write words, and only registers they may write. */
  predicate Allowed(insns: seq<Insn>, may: May, regs: Regs, writes: seq<Regs>) {
    && |writes| == |insns| == |may| && Words(regs)
    && forall m :: 0 <= m < |writes| ==> Words(writes[m]) && writes[m].Keys <= may[m]
  }

  /** Constant propagation: the registers whose value is the same on every way, with that value. */
  function Known(insns: seq<Insn>, may: May, k: nat): Regs
    requires k <= |insns| == |may|
  {
    if k == 0 then map[] else Learn(Known(insns, may, k - 1), ViewOf(insns[k - 1]), may[k - 1])
  }

  predicate ReadsNothing(op: Arith, src: string) { !op.Ori? && IsR0(src) }

  function Learn(known: Regs, v: View, may: set<string>): Regs {
    match v
    case Lis(dst, high) => known[dst := high * 0x10000]
    case Combine(op, dst, src, imm) =>
      if src in known || ReadsNothing(op, src) then Execute(v, known, map[]) else known - {dst}
    case _ => known - may
  }

  lemma {:induction false} KnownHolds(insns: seq<Insn>, may: May, regs: Regs, writes: seq<Regs>, k: nat, r: string)
    requires Allowed(insns, may, regs, writes) && k <= |insns| && r in Known(insns, may, k)
    ensures Get(RegsAt(insns, regs, writes, k), r) == Known(insns, may, k)[r]
  {
    hide ViewOf, OrLow, Sign16, IsR0;
    var v := ViewOf(insns[k - 1]);
    if v.Combine? && v.dst == r {
      if v.src in Known(insns, may, k - 1) {
        KnownHolds(insns, may, regs, writes, k - 1, v.src);
      }
    } else if !(v.Lis? && v.dst == r) {
      KnownHolds(insns, may, regs, writes, k - 1, r);
    }
  }

  /** Two words with the same low half and neighbouring high halves. */
  predicate Neighbours(a: nat, b: nat) { a < WORD && b == (a + 0x10000) % WORD }

  function Power(n: nat): nat { if n == 0 then 1 else 2 * Power(n - 1) }

  lemma {:induction false} BitOrBelow(a: nat, b: nat, n: nat)
    requires a < Power(n) && b < Power(n)
    ensures BitOr(a, b) < Power(n)
  {
    if n == 0 {
    } else {
      BitOrBelow(a / 2, b / 2, n - 1);
    }
  }

  lemma OrNeighbours(a: nat, b: nat, low: nat)
    requires Neighbours(a, b) && low < 0x10000
    ensures Neighbours(OrLow(a, low), OrLow(b, low))
  {
    PowerOf16();
    BitOrBelow(a % 0x10000, low, 16);
    hide BitOr, Power;
    var h := a / 0x10000;
    assert b / 0x10000 == if h == 0xFFFF then 0 else h + 1;
    assert a % 0x10000 == b % 0x10000;
  }

  lemma PowerOf16()
    ensures Power(16) == 0x10000
  {
    assert Power(4) == 16 && Power(8) == 0x100 && Power(12) == 0x1000;
  }

  lemma AddNeighbours(a: nat, b: nat, n: int)
    requires Neighbours(a, b)
    ensures (a + n) % WORD >= 0 && (b + n) % WORD >= 0
    ensures Neighbours((a + n) % WORD, (b + n) % WORD)
  {
  }

  lemma CombinedNeighbours(op: Arith, src: string, imm: int, regs: Regs, regs': Regs)
    requires Neighbours(Get(regs, src), Get(regs', src)) && !ReadsNothing(op, src)
    ensures Computed(op, src, imm, regs) >= 0 && Computed(op, src, imm, regs') >= 0
    ensures Neighbours(Computed(op, src, imm, regs), Computed(op, src, imm, regs'))
  {
    hide Neighbours, OrLow;
    var a, b := Get(regs, src), Get(regs', src);
    match op
    case Ori => OrNeighbours(a, b, imm % 0x10000);
    case Addi => AddNeighbours(a, b, Sign16(imm));
    case Subi => AddNeighbours(a, b, Sign16(-imm));
  }

  function Nothing(n: nat): seq<Regs> { seq(n, _ => map[]) }

  /** A register that is not known holds different values on two ways. */
  lemma {:induction false} UnknownDiffers(insns: seq<Insn>, may: May, k: nat, r: string)
    returns (regs: Regs, regs': Regs, writes: seq<Regs>, writes': seq<Regs>)
    requires k <= |insns| == |may| && r !in Known(insns, may, k)
    ensures Allowed(insns, may, regs, writes) && Allowed(insns, may, regs', writes')
    ensures Neighbours(Get(RegsAt(insns, regs, writes, k), r), Get(RegsAt(insns, regs', writes', k), r))
  {
    hide ViewOf;
    if k == 0 {
      regs, regs' := map[], map[r := 0x10000];
      writes, writes' := Nothing(|insns|), Nothing(|insns|);
    } else {
      var v := ViewOf(insns[k - 1]);
      if v.Combine? && v.dst == r {
        regs, regs', writes, writes' := UnknownDiffers(insns, may, k - 1, v.src);
        CombinedNeighbours(v.op, v.src, v.imm, RegsAt(insns, regs, writes, k - 1),
          RegsAt(insns, regs', writes', k - 1));
      } else if (v.Write? || v.Ignored?) && r in may[k - 1] {
        regs, regs' := map[], map[];
        writes := Nothing(|insns|)[k - 1 := map[r := 0]];
        writes' := Nothing(|insns|)[k - 1 := map[r := 0x10000]];
      } else {
        regs, regs', writes, writes' := UnknownDiffers(insns, may, k - 1, r);
      }
    }
  }

  // ---- one instruction's tag, over all ways the code can go ----

  /** On every way the code can go, register `r` holds `value` after `k` instructions. */
  ghost predicate Always(insns: seq<Insn>, may: May, k: nat, r: string, value: int)
    requires k <= |insns| == |may|
  {
    forall regs, writes :: Allowed(insns, may, regs, writes) ==> Get(RegsAt(insns, regs, writes, k), r) == value
  }

  /** A register always holds a value if and only if constant propagation finds that value. */
  lemma AlwaysExactly(insns: seq<Insn>, may: May, k: nat, r: string, value: int)
    requires k <= |insns| == |may|
    ensures Always(insns, may, k, r, value) <==> r in Known(insns, may, k) && Known(insns, may, k)[r] == value
  {
    hide RegsAt, Known, ViewOf;
    if r in Known(insns, may, k) {
      forall regs, writes | Allowed(insns, may, regs, writes)
        ensures Get(RegsAt(insns, regs, writes, k), r) == Known(insns, may, k)[r]
      {
        KnownHolds(insns, may, regs, writes, k, r);
      }
      NothingAllowed(insns, may);
    } else {
      var regs, regs', writes, writes' := UnknownDiffers(insns, may, k, r);
    }
  }

  lemma NothingAllowed(insns: seq<Insn>, may: May)
    requires |insns| == |may|
    ensures Allowed(insns, may, map[], Nothing(|insns|))
  {
  }

  /** A tag is right on every way the code can go. */
  ghost predicate TagHolds(insns: seq<Insn>, may: May, k: nat)
    requires k < |insns| == |may|
  {
    Fused(insns)[k].imm.Some? && ViewOf(insns[k]).Combine?
    && Always(insns, may, k + 1, ViewOf(insns[k]).dst, Fused(insns)[k].imm.value)
  }

  /** For all code: a tag is right on every way the code can go if and only if constant propagation finds
      the tagged value in the destination register. */
  lemma TagHoldsExactly(insns: seq<Insn>, may: May, k: nat)
    requires k < |insns| == |may| && insns[k].imm.None? && Fused(insns)[k].imm.Some?
    ensures var r := ViewOf(insns[k]).dst;
      TagHolds(insns, may, k) <==>
      r in Known(insns, may, k + 1) && Known(insns, may, k + 1)[r] == Fused(insns)[k].imm.value
  {
    hide Fused, Known, Always, ViewOf;
    TaggedCombines(insns, k);
    AlwaysExactly(insns, may, k + 1, ViewOf(insns[k]).dst, Fused(insns)[k].imm.value);
  }

  lemma TaggedCombines(insns: seq<Insn>, k: nat)
    requires k < |insns| && insns[k].imm.None?
    ensures Fused(insns)[k].imm.Some? ==> ViewOf(insns[k]).Combine?
  {
    hide ViewOf, TagValue, PendingAt;
  }

  lemma KnownAfter(insns: seq<Insn>, may: May, k: nat)
    requires k < |insns| == |may|
    requires var v := ViewOf(insns[k]); v.Combine? && v.src == v.dst
    ensures var v, known := ViewOf(insns[k]), Known(insns, may, k);
      (v.dst in Known(insns, may, k + 1) <==> v.dst in known || ReadsNothing(v.op, v.dst))
      && (v.dst in Known(insns, may, k + 1) ==>
          Known(insns, may, k + 1)[v.dst] == Computed(v.op, v.dst, v.imm, known))
  {
    hide ViewOf, IsR0, OrLow, Sign16;
    var v, known := ViewOf(insns[k]), Known(insns, may, k);
    assert Known(insns, may, k + 1) == Learn(known, v, may[k]);
    assert Computed(v.op, v.dst, v.imm, known) >= 0;
  }

  // ---- the condition in terms of the code ----

  /** Between the `lis` at `j` and the combination at `k`, an instruction that the pass does not see
      writing `r` may write it. */
  predicate MayClobber(insns: seq<Insn>, may: May, j: nat, k: nat, r: string)
    requires j < k <= |insns| == |may|
  {
    exists m :: j < m < k && (ViewOf(insns[m]).Write? || ViewOf(insns[m]).Ignored?) && r in may[m]
  }

  /** No combination in between writes `r` from another register. */
  predicate OnlyItself(insns: seq<Insn>, j: nat, k: nat, r: string)
    requires j < k <= |insns|
  {
    forall m :: j < m < k && ViewOf(insns[m]).Combine? ==> ViewOf(insns[m]).dst != r
  }

  lemma {:induction false} KnownSinceLoad(insns: seq<Insn>, may: May, j: nat, k: nat, r: string)
    requires j < k <= |insns| == |may| && LoadedBy(insns, j, k, r) && OnlyItself(insns, j, k, r)
    ensures r in Known(insns, may, k) <==> !MayClobber(insns, may, j, k, r)
    ensures r in Known(insns, may, k) ==> Known(insns, may, k)[r] == ViewOf(insns[j]).high * 0x10000
  {
    hide ViewOf;
    if k <= j + 1 {
    } else {
      KnownSinceLoad(insns, may, j, k - 1, r);
      assert !Touches(ViewOf(insns[k - 1]), r);
    }
  }

  lemma TagOf(insns: seq<Insn>, j: nat, k: nat)
    requires j < k < |insns| && insns[k].imm.None?
    requires ViewOf(insns[k]).Combine? && ViewOf(insns[k]).src == ViewOf(insns[k]).dst
    requires LoadedBy(insns, j, k, ViewOf(insns[k]).dst)
    ensures ViewOf(insns[j]).Lis?
    ensures var v := ViewOf(insns[k]);
      Fused(insns)[k].imm == Some(TagValue(v.op, ViewOf(insns[j]).high * 0x10000, v.imm))
  {
    hide ViewOf, Fused, TagValue;
    TagsExactly(insns, k);
  }

  /** A tag is right on every way the code can go if and only if its immediate is not the one whose sign is
      flipped and nothing unseen may have written the register since its `lis`; on register 0, which `addi`
      and `subi` do not read, if and only if the high half is the one the flipped sign, or its absence,
      calls for. */
  lemma PairHoldsExactly(insns: seq<Insn>, may: May, j: nat, k: nat)
    requires j < k < |insns| == |may| && insns[k].imm.None?
    requires var v := ViewOf(insns[k]); v.Combine? && v.src == v.dst && Encodable(v.imm)
    requires LoadedBy(insns, j, k, ViewOf(insns[k]).dst) && OnlyItself(insns, j, k, ViewOf(insns[k]).dst)
    ensures var v, high := ViewOf(insns[k]), ViewOf(insns[j]).high * 0x10000;
      TagHolds(insns, may, k) <==>
      if ReadsNothing(v.op, v.dst) then RightOnR0(v.op, v.imm, high)
      else !FlippedSign(v.op, v.imm) && !MayClobber(insns, may, j, k, v.dst)
  {
    hide ViewOf, Fused, Known, OnlyItself, TagHolds, MayClobber, LoadedBy, TagValue, Computed;
    TagOf(insns, j, k);
    var v, high := ViewOf(insns[k]), ViewOf(insns[j]).high * 0x10000;
    var r, known := v.dst, Known(insns, may, k);
    HighInRange(insns, j);
    KnownSinceLoad(insns, may, j, k, r);
    TagHoldsExactly(insns, may, k);
    KnownAfter(insns, may, k);
    if ReadsNothing(v.op, r) {
      TagOnR0(v.op, r, v.imm, high, known);
    } else if r in known {
      PairComputed(v.op, r, v.imm, known);
    }
  }

  lemma PairComputed(op: Arith, dst: string, imm: int, regs: Regs)
    requires !ReadsNothing(op, dst) && Encodable(imm) && Get(regs, dst) % 0x10000 == 0 && Get(regs, dst) < WORD
    ensures TagValue(op, Get(regs, dst), imm) == Computed(op, dst, imm, regs) <==> !FlippedSign(op, imm)
  {
    if !op.Ori? {
      TagRight(op, dst, imm, regs);
    }
  }
}
