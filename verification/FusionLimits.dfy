/** Code on which a fused tag is wrong, one listing for each thing the pass relies on. */
module FusionLimits {
  import opened Text
  import opened Fusion
  import opened Listings

  /** `mflr r3`: a single operand has no comma, so the pass sees no destination. */
  lemma ViewMflr()
    ensures ViewOf(Plainly("mflr", "r3")) == Ignored
  {
  }

  /** `lwzu r4, 8(r3)`: the pass sees the loaded register, not the updated base. */
  lemma ViewLwzu()
    ensures ViewOf(Plainly("lwzu", "r4, 8(r3)")) == Write("r4")
  {
    hide Split, StripAll, Lower, PyInt, IsRegister;
    LowerFixed("lwzu");
    LwzuParts();
  }

  lemma LwzuParts()
    ensures |StripAll(Split("r4, 8(r3)", ','))| == 2 && StripAll(Split("r4, 8(r3)", ','))[0] == "r4"
    ensures IsRegister("r4")
  {
    hide Split, StripAll, Strip, PyInt;
    var text := "r4, 8(r3)";
    assert text == "r4" + "," + " 8(r3)";
    SplitTwo("r4", " 8(r3)");
    StripSpaced("r4");
    TwoStripped("r4", " 8(r3)");
    assert "r4"[1..] == "4";
  }

  /** In `code`, run from `regs`, the last instruction is tagged `tag` but leaves something else. */
  ghost predicate Mistagged(code: seq<Insn>, regs: Regs, writes: seq<Regs>, r: string, tag: int) {
    && |code| == |writes| > 0
    && var k := |code| - 1;
       code[k].imm.None? && Fused(code)[k].imm == Some(tag) && ViewOf(code[k]).Combine? && ViewOf(code[k]).dst == r
       && Get(RegsAt(code, regs, writes, k + 1), r) != tag
  }

  /** The middle instruction of a listing that starts with `lis r3, 1` and ends with `ori r3, r3, 5`
      slips through: whatever it leaves in r3, the pass still has the `lis` pending. */
  lemma SlipsThrough(middle: Insn, writes: Regs, left: nat)
    requires !Touches(ViewOf(middle), "r3") && !ViewOf(middle).Lis?
    requires Get(Execute(ViewOf(middle), map["r3" := 0x10000], writes), "r3") == left && OrLow(left, 5) != 0x10005
    ensures Mistagged([Plainly("lis", "r3, 1"), middle, Plainly("ori", "r3, r3, 5")],
      map[], [map[], writes, map[]], "r3", 0x10005)
  {
    hide ViewOf, PyInt, OrLow;
    var code := [Plainly("lis", "r3, 1"), middle, Plainly("ori", "r3, r3, 5")];
    var ws: seq<Regs> := [map[], writes, map[]];
    Digit('1');
    LowerFixed("lis");
    ViewLis("lis", "r3", "1");
    assert "r3" + ", " + "1" == "r3, 1";
    Digit('5');
    LowerFixed("ori");
    ViewCombine("ori", "r3", "r3", "5");
    assert "r3" + ", " + "r3" + ", " + "5" == "r3, r3, 5";
    assert PendingAt(code, 0) == map[];
    assert PendingAt(code, 1)["r3"] == (0, 0x10000);
    assert PendingAt(code, 2)["r3"] == (0, 0x10000);
    OrLowOfHigh(0x10000, 5);
    assert RegsAt(code, map[], ws, 0) == map[];
    assert RegsAt(code, map[], ws, 1) == map["r3" := 0x10000];
    assert Get(RegsAt(code, map[], ws, 2), "r3") == left;
    assert Get(RegsAt(code, map[], ws, 3), "r3") == OrLow(left, 5);
  }

  /** `lis r3, 1; mflr r3; ori r3, r3, 5` */
  lemma SingleOperandWrite()
    ensures Mistagged([Plainly("lis", "r3, 1"), Plainly("mflr", "r3"), Plainly("ori", "r3, r3, 5")],
      map[], [map[], map["r3" := 0], map[]], "r3", 0x10005)
  {
    ViewMflr();
    SlipsThrough(Plainly("mflr", "r3"), map["r3" := 0], 0);
  }

  lemma EightOrFive()
    ensures OrLow(8, 5) == 13 && OrLow(0x10008, 5) == 0x1000D
  {
    assert BitOr(1, 0) == 1;
    assert BitOr(2, 1) == 3;
    assert BitOr(4, 2) == 6;
    assert BitOr(8, 5) == 13;
  }

  /** `lis r3, 1; lwzu r4, 8(r3); ori r3, r3, 5` */
  lemma SecondOperandWrite()
    ensures Mistagged([Plainly("lis", "r3, 1"), Plainly("lwzu", "r4, 8(r3)"), Plainly("ori", "r3, r3, 5")],
      map[], [map[], map["r3" := 0x10008], map[]], "r3", 0x10005)
  {
    hide ViewOf, OrLow, Mistagged;
    ViewLwzu();
    EightOrFive();
    SlipsThrough(Plainly("lwzu", "r4, 8(r3)"), map["r3" := 0x10008], 0x10008);
  }

  /** `lis r3, 1; addi r3, r4, 8; ori r3, r3, 5` */
  lemma CombinedFromElsewhere()
    ensures Mistagged([Plainly("lis", "r3, 1"), Plainly("addi", "r3, r4, 8"), Plainly("ori", "r3, r3, 5")],
      map[], [map[], map[], map[]], "r3", 0x10005)
  {
    hide ViewOf, OrLow, Mistagged, PyInt;
    Digit('8');
    LowerFixed("addi");
    ViewCombine("addi", "r3", "r4", "8");
    assert "r3" + ", " + "r4" + ", " + "8" == "r3, r4, 8";
    EightOrFive();
    SlipsThrough(Plainly("addi", "r3, r4, 8"), map[], 8);
  }

  lemma PairMistagged(dst: string, mnemonic: string, imm: string)
    requires mnemonic in {"addi", "subi"} && Bare(dst) && Bare(imm) && PyInt(imm, 0).Some?
    requires Computed(ArithOf(mnemonic), dst, PyInt(imm, 0).value, map[dst := 0x10000])
      != TagValue(ArithOf(mnemonic), 0x10000, PyInt(imm, 0).value)
    ensures Mistagged([Plainly("lis", dst + ", " + "1"), Plainly(mnemonic, dst + ", " + dst + ", " + imm)],
      map[], [map[], map[]], dst, TagValue(ArithOf(mnemonic), 0x10000, PyInt(imm, 0).value))
  {
    hide ViewOf, PyInt;
    var code := [Plainly("lis", dst + ", " + "1"), Plainly(mnemonic, dst + ", " + dst + ", " + imm)];
    var ws: seq<Regs> := [map[], map[]];
    Digit('1');
    LowerFixed("lis");
    LowerFixed(mnemonic);
    ViewLis("lis", dst, "1");
    ViewCombine(mnemonic, dst, dst, imm);
    assert PendingAt(code, 0) == map[];
    assert PendingAt(code, 1)[dst] == (0, 0x10000);
    assert RegsAt(code, map[], ws, 0) == map[];
    assert RegsAt(code, map[], ws, 1) == map[dst := 0x10000];
  }

  lemma HalfRead()
    ensures PyInt("0x8000", 0) == Some(0x8000)
  {
    var imm := "0x8000";
    assert LStrip(imm) == imm && RStrip(imm) == imm;
    assert AfterPrefix(imm) == "8000";
    assert "8000"[1..] == "000" && "000"[1..] == "00" && "00"[1..] == "0";
    assert Digits("0", 16, 0x800) == Some(0x8000);
    assert Digits("00", 16, 0x80) == Some(0x8000);
    assert Digits("000", 16, 8) == Some(0x8000);
    assert Digits("8000", 16, 0) == Some(0x8000);
  }

  /** `lis r3, 1; subi r3, r3, 0x8000` is tagged 0x18000 and computes 0x8000. */
  lemma SubtractedHalf()
    ensures Mistagged([Plainly("lis", "r3, 1"), Plainly("subi", "r3, r3, 0x8000")],
      map[], [map[], map[]], "r3", 0x18000)
  {
    hide ViewOf, Mistagged, PyInt;
    HalfRead();
    PairMistagged("r3", "subi", "0x8000");
    assert "r3" + ", " + "1" == "r3, 1";
    assert "r3" + ", " + "r3" + ", " + "0x8000" == "r3, r3, 0x8000";
  }

  /** `lis r0, 1; addi r0, r0, 8` is tagged 0x10008 and computes 8. */
  lemma BaseRegisterZero()
    ensures Mistagged([Plainly("lis", "r0, 1"), Plainly("addi", "r0, r0, 8")], map[], [map[], map[]], "r0", 0x10008)
  {
    hide ViewOf, Mistagged, PyInt;
    Digit('8');
    PairMistagged("r0", "addi", "8");
    assert "r0" + ", " + "1" == "r0, 1";
    assert "r0" + ", " + "r0" + ", " + "8" == "r0, r0, 8";
  }

  /** The pair alone, `lis r3, 1; ori r3, r3, 5`, is sound code: it is tagged with 0x10005, and leaves it
      in r3 from any register contents. */
  lemma SoundPair(regs: Regs)
    ensures var code := [Plainly("lis", "r3, 1"), Plainly("ori", "r3, r3, 5")];
      && SoundCode(code, [map[], map[]]) && Fused(code)[1].imm == Some(0x10005)
      && Get(RegsAt(code, regs, [map[], map[]], 2), "r3") == 0x10005
  {
    hide ViewOf, PyInt, OrLow;
    var code := [Plainly("lis", "r3, 1"), Plainly("ori", "r3, r3, 5")];
    Digit('1');
    LowerFixed("lis");
    ViewLis("lis", "r3", "1");
    assert "r3" + ", " + "1" == "r3, 1";
    Digit('5');
    LowerFixed("ori");
    ViewCombine("ori", "r3", "r3", "5");
    assert "r3" + ", " + "r3" + ", " + "5" == "r3, r3, 5";
    assert PendingAt(code, 0) == map[];
    assert PendingAt(code, 1)["r3"] == (0, 0x10000);
    OrLowOfHigh(0x10000, 5);
    TagsAreComputed(code, regs, [map[], map[]], 1);
  }
}
