/** The pass that tags `lis` + `addi`/`subi`/`ori` pairs with the 32-bit value they load, against what
    the instructions compute (Power ISA, Book I, section 3.3, fixed-point arithmetic and logical). */
module Fusion {
  import opened Text

  datatype Kind = ImmLoadPair | Plain(name: string)

  datatype Insn = Insn(mnemonic: string, operands: string, kind: Kind, imm: Option<int>)

  // ---- reading operands ----

  function LowerChar(c: char): char { if 'A' <= c <= 'Z' then (c as int + 32) as char else c }

  function Lower(s: string): string { if s == "" then "" else [LowerChar(s[0])] + Lower(s[1..]) }

  function StripAll(parts: seq<string>): (r: seq<string>)
    ensures |r| == |parts|
  {
    if parts == [] then [] else [Strip(parts[0])] + StripAll(parts[1..])
  }

  predicate AllDigits(s: string) { s != "" && forall c <- s :: '0' <= c <= '9' }

  datatype Arith = Addi | Subi | Ori

  /** What the pass makes of an instruction. */
  datatype View =
    | Lis(dst: string, high: nat)
    | Combine(op: Arith, dst: string, src: string, imm: int)
    | Write(dst: string)
    | Ignored

  function ViewOf(ins: Insn): View { ViewOfParts(Lower(ins.mnemonic), StripAll(Split(ins.operands, ','))) }

  function ViewOfParts(mnem: string, parts: seq<string>): View
    requires parts != []
  {
    if mnem == "lis" then
      if |parts| == 2 && PyInt(parts[1], 0).Some? then Lis(parts[0], PyInt(parts[1], 0).value % 0x10000) else Ignored
    else if mnem in {"addi", "subi", "ori"} then
      if |parts| != 3 then Ignored
      else Combine(ArithOf(mnem), parts[0], parts[1], if PyInt(parts[2], 0).Some? then PyInt(parts[2], 0).value else 0)
    else
      // `_first_destination_register`: only when the operands contain a comma.
      if |parts| > 1 && IsRegister(parts[0]) then Write(parts[0]) else Ignored
  }

  function ArithOf(mnem: string): Arith
    requires mnem in {"addi", "subi", "ori"}
  {
    if mnem == "addi" then Addi else if mnem == "subi" then Subi else Ori
  }

  predicate IsRegister(s: string) { |s| > 1 && s[0] == 'r' && AllDigits(s[1..]) }

  // ---- the pass ----

  const WORD := 0x1_0000_0000

  /** Bitwise or of two naturals. */
  function BitOr(a: nat, b: nat): nat {
    if a == 0 then b else if b == 0 then a
    else 2 * BitOr(a / 2, b / 2) + if a % 2 == 1 || b % 2 == 1 then 1 else 0
  }

  function Bit(a: nat, k: nat): bool { if k == 0 then a % 2 == 1 else Bit(a / 2, k - 1) }

  /** A bit of the result is set exactly when it is set in one of the two. */
  lemma {:induction false} BitOrBits(a: nat, b: nat, k: nat)
    ensures Bit(BitOr(a, b), k) <==> Bit(a, k) || Bit(b, k)
    decreases k
  {
    ZeroBits(k);
    if k > 0 && a != 0 && b != 0 {
      assert BitOr(a, b) / 2 == BitOr(a / 2, b / 2);
      BitOrBits(a / 2, b / 2, k - 1);
    }
  }

  lemma {:induction false} ZeroBits(k: nat)
    ensures !Bit(0, k)
  {
    if k == 0 {
    } else {
      ZeroBits(k - 1);
    }
  }

  /** A word or'ed with a zero-extended 16-bit immediate. */
  function OrLow(word: nat, low: nat): nat {
    word / 0x10000 * 0x10000 + BitOr(word % 0x10000, low)
  }

  /** The value the pass computes for an immediate combined with a pending high half. */
  function TagValue(op: Arith, high: nat, imm: int): int {
    if op.Ori? then OrLow(high, imm % 0x10000)
    else
      var signed := if 0 < imm <= 0xFFFF && imm >= 0x8000 then imm - 0x10000 else imm;
      (high + if op.Subi? then -signed else signed) % WORD
  }

  /** Destination register to the index of its `lis` and the value it leaves. */
  type Pending = map<string, (nat, nat)>

  function Advance(p: Pending, v: View, idx: nat): Pending {
    match v
    case Lis(dst, high) => p[dst := (idx, high * 0x10000)]
    case Combine(_, dst, src, _) => if src == dst then p - {dst} else p
    case Write(dst) => p - {dst}
    case Ignored => p
  }

  function Tagged(p: Pending, ins: Insn): Insn {
    var v := ViewOf(ins);
    if v.Combine? && v.src == v.dst && v.dst in p
    then ins.(kind := ImmLoadPair, imm := Some(TagValue(v.op, p[v.dst].1, v.imm)))
    else ins
  }

  /** What is pending before instruction `k`. */
  function PendingAt(insns: seq<Insn>, k: nat): Pending
    requires k <= |insns|
  {
    if k == 0 then map[] else Advance(PendingAt(insns, k - 1), ViewOf(insns[k - 1]), k - 1)
  }

  function Fused(insns: seq<Insn>): (r: seq<Insn>)
    ensures |r| == |insns|
    ensures forall k :: 0 <= k < |insns| ==> r[k] == Tagged(PendingAt(insns, k), insns[k])
  {
    seq(|insns|, k requires 0 <= k < |insns| => Tagged(PendingAt(insns, k), insns[k]))
  }

  /** The loop body: read one instruction, tag it in place, update what is pending. */
  method Visit(insns: array<Insn>, idx: nat, pending: Pending) returns (next: Pending)
    requires idx < insns.Length
    modifies insns
    ensures next == Advance(pending, ViewOf(old(insns[idx])), idx)
    ensures insns[idx] == Tagged(pending, old(insns[idx]))
    ensures forall k :: 0 <= k < insns.Length && k != idx ==> insns[k] == old(insns[k])
  {
    hide ViewOf, TagValue;
    next := pending;
    var v := ViewOf(insns[idx]);
    match v
    case Lis(dst, high) =>
      next := pending[dst := (idx, high * 0x10000)];
    case Combine(op, dst, src, imm) =>
      if src == dst && dst in pending {
        next := pending - {dst};
        insns[idx] := insns[idx].(kind := ImmLoadPair, imm := Some(TagValue(op, pending[dst].1, imm)));
      }
      assert src == dst && dst !in pending ==> pending - {dst} == pending;
    case Write(dst) =>
      if dst in pending {
        next := pending - {dst};
      }
      assert dst !in pending ==> pending - {dst} == pending;
    case Ignored =>
  }

  /** `post_process_imm_load_pairs`: one walk over the list, in place. */
  method PostProcess(insns: array<Insn>)
    modifies insns
    ensures insns[..] == Fused(old(insns[..]))
  {
    hide ViewOf, TagValue, Tagged, Advance;
    ghost var was := insns[..];
    var pending: Pending := map[];
    for idx := 0 to insns.Length
      invariant pending == PendingAt(was, idx)
      invariant forall k :: 0 <= k < idx ==> insns[k] == Tagged(PendingAt(was, k), was[k])
      invariant forall k :: idx <= k < insns.Length ==> insns[k] == was[k]
    {
      pending := Visit(insns, idx, pending);
    }
  }

  // ---- which pairs are tagged ----

  /** The pass takes the instruction to set or to consume register `r`. */
  predicate Touches(v: View, r: string) {
    match v
    case Lis(dst, _) => dst == r
    case Combine(_, dst, src, _) => dst == r && src == r
    case Write(dst) => dst == r
    case Ignored => false
  }

  /** Register `r` was last touched, before `k`, by the `lis` at `j`. */
  predicate LoadedBy(insns: seq<Insn>, j: nat, k: nat, r: string)
    requires j < k <= |insns|
  {
    ViewOf(insns[j]).Lis? && ViewOf(insns[j]).dst == r
    && forall m :: j < m < k ==> !Touches(ViewOf(insns[m]), r)
  }

  lemma {:induction false} PendingExactly(insns: seq<Insn>, k: nat, r: string)
    requires k <= |insns|
    ensures r in PendingAt(insns, k) ==>
      var j := PendingAt(insns, k)[r].0;
      j < k && LoadedBy(insns, j, k, r) && PendingAt(insns, k)[r].1 == ViewOf(insns[j]).high * 0x10000
    ensures r !in PendingAt(insns, k) ==> forall j :: 0 <= j < k ==> !LoadedBy(insns, j, k, r)
  {
    hide ViewOf;
    if k == 0 {
    } else {
      PendingExactly(insns, k - 1, r);
      var v := ViewOf(insns[k - 1]);
      forall j | 0 <= j < k && LoadedBy(insns, j, k, r) ensures r in PendingAt(insns, k) {
        if j < k - 1 {
          assert LoadedBy(insns, j, k - 1, r);
          assert !Touches(v, r);
        }
      }
    }
  }

  /** An instruction is tagged exactly when it combines a register with itself and the last touch of
      that register before it is a `lis`; the tag is then built from that `lis`. */
  lemma TagsExactly(insns: seq<Insn>, k: nat)
    requires k < |insns| && insns[k].imm.None?
    ensures var v := ViewOf(insns[k]);
      Fused(insns)[k].imm.Some? <==>
        v.Combine? && v.src == v.dst && exists j :: 0 <= j < k && LoadedBy(insns, j, k, v.dst)
    ensures var v := ViewOf(insns[k]);
      forall j :: 0 <= j < k && v.Combine? && v.src == v.dst && LoadedBy(insns, j, k, v.dst) ==>
        Fused(insns)[k].imm == Some(TagValue(v.op, ViewOf(insns[j]).high * 0x10000, v.imm))
  {
    var v := ViewOf(insns[k]);
    if v.Combine? {
      PendingExactly(insns, k, v.dst);
      forall j | 0 <= j < k && v.src == v.dst && LoadedBy(insns, j, k, v.dst)
        ensures v.dst in PendingAt(insns, k) && PendingAt(insns, k)[v.dst].0 == j
      {
        var i := PendingAt(insns, k)[v.dst].0;
        if i < j {
          assert Touches(ViewOf(insns[j]), v.dst);
        } else if j < i {
          assert Touches(ViewOf(insns[i]), v.dst);
        }
      }
    }
  }

  // ---- what the instructions compute ----

  type Regs = map<string, nat>

  function Get(regs: Regs, r: string): nat { if r in regs then regs[r] else 0 }

  /** The 16-bit field of an immediate, sign-extended. */
  function Sign16(imm: int): int {
    var f := imm % 0x10000;
    if f >= 0x8000 then f - 0x10000 else f
  }

  predicate IsR0(r: string) { r == "r0" || r == "0" }

  /** `addi`/`subi` read register 0 as the value zero; `subi` is `addi` of the negated immediate. */
  function Computed(op: Arith, src: string, imm: int, regs: Regs): int {
    match op
    case Ori => OrLow(Get(regs, src), imm % 0x10000)
    case Addi => ((if IsR0(src) then 0 else Get(regs, src)) + Sign16(imm)) % WORD
    case Subi => ((if IsR0(src) then 0 else Get(regs, src)) + Sign16(-imm)) % WORD
  }

  /** One instruction; those the pass does not read as loads or combinations write what `writes` says. */
  function Execute(v: View, regs: Regs, writes: Regs): Regs {
    match v
    case Lis(dst, high) => regs[dst := high * 0x10000]
    case Combine(op, dst, src, imm) =>
      var value := Computed(op, src, imm, regs);
      regs[dst := if value >= 0 then value else 0]
    case _ => regs + writes
  }

  function RegsAt(insns: seq<Insn>, regs: Regs, writes: seq<Regs>, k: nat): Regs
    requires k <= |insns| == |writes|
  {
    if k == 0 then regs else Execute(ViewOf(insns[k - 1]), RegsAt(insns, regs, writes, k - 1), writes[k - 1])
  }

  /** An immediate as assembler text can hold it: signed or unsigned 16 bits. */
  predicate Encodable(imm: int) { -0x8000 <= imm <= 0xFFFF }

  /** The immediates for which `subi` is computed wrongly. */
  predicate FlippedSign(op: Arith, imm: int) { op.Subi? && imm % 0x10000 == 0x8000 }

  /** What the pass relies on at one instruction, given what is pending:
      a combination never overwrites a pending register from another one, is not based on register 0
      or an immediate of the wrong sign when it is tagged, and any other instruction writes no pending
      register except the one the pass cancels for it. */
  predicate Sound(p: Pending, v: View, writes: Regs) {
    match v
    case Lis(_, _) => true
    case Combine(op, dst, src, imm) =>
      dst in p ==> src == dst && Encodable(imm) && !FlippedSign(op, imm) && (op.Ori? || !IsR0(dst))
    case Write(dst) => forall r :: r in writes && r in p ==> r == dst
    case Ignored => forall r :: r in writes ==> r !in p
  }

  lemma OrLowOfHigh(high: nat, low: nat)
    requires high % 0x10000 == 0
    ensures OrLow(high, low) == high + low
  {
  }

  /** With the pending value in the register, the tag is right if and only if the immediate is not the
      one `subi` immediate whose sign is flipped. */
  lemma TagRight(op: Arith, dst: string, imm: int, regs: Regs)
    requires !IsR0(dst) && Encodable(imm) && Get(regs, dst) % 0x10000 == 0 && Get(regs, dst) < WORD
    ensures TagValue(op, Get(regs, dst), imm) == Computed(op, dst, imm, regs) <==> !FlippedSign(op, imm)
  {
    hide OrLow, Get;
  }

  /** The high halves for which a tag on register 0 is right. */
  predicate RightOnR0(op: Arith, imm: int, high: nat) {
    high == if FlippedSign(op, imm) then 0xFFFF_0000 else 0
  }

  /** On register 0, whose value `addi` and `subi` do not read, the tag is right if and only if the high
      half makes up for the flipped sign, or is zero when there is none. */
  lemma TagOnR0(op: Arith, dst: string, imm: int, high: nat, regs: Regs)
    requires IsR0(dst) && !op.Ori? && Encodable(imm) && high % 0x10000 == 0 && high < WORD
    ensures TagValue(op, high, imm) == Computed(op, dst, imm, regs) <==> RightOnR0(op, imm, high)
  {
  }

  /** The pending values are in the registers. */
  predicate InRegs(p: Pending, regs: Regs) {
    forall r :: r in p ==> r in regs && regs[r] == p[r].1 && p[r].1 % 0x10000 == 0 && p[r].1 < WORD
  }

  lemma HighInRange(insns: seq<Insn>, k: nat)
    requires k < |insns|
    ensures ViewOf(insns[k]).Lis? ==> ViewOf(insns[k]).high < 0x10000
  {
  }

  lemma StepInRegs(p: Pending, v: View, idx: nat, regs: Regs, writes: Regs)
    requires InRegs(p, regs) && Sound(p, v, writes) && (v.Lis? ==> v.high < 0x10000)
    ensures InRegs(Advance(p, v, idx), Execute(v, regs, writes))
  {
  }

  /** The pass relies on what it may at every instruction of the code. */
  predicate SoundCode(insns: seq<Insn>, writes: seq<Regs>)
    requires |insns| == |writes|
  {
    forall k :: 0 <= k < |insns| ==> Sound(PendingAt(insns, k), ViewOf(insns[k]), writes[k])
  }

  lemma {:induction false} PendingInRegs(insns: seq<Insn>, regs: Regs, writes: seq<Regs>, k: nat)
    requires k <= |insns| == |writes| && SoundCode(insns, writes)
    ensures InRegs(PendingAt(insns, k), RegsAt(insns, regs, writes, k))
  {
    hide ViewOf, Sound, Execute, Advance;
    if k == 0 {
    } else {
      PendingInRegs(insns, regs, writes, k - 1);
      HighInRange(insns, k - 1);
      StepInRegs(PendingAt(insns, k - 1), ViewOf(insns[k - 1]), k - 1,
        RegsAt(insns, regs, writes, k - 1), writes[k - 1]);
    }
  }

  /** The tags are true: over straight-line code, from any register contents, and whatever the other
      instructions write, every tag is the value its destination register holds after it. */
  lemma TagsAreComputed(insns: seq<Insn>, regs: Regs, writes: seq<Regs>, k: nat)
    requires |insns| == |writes| && SoundCode(insns, writes)
    requires k < |insns| && insns[k].imm.None? && Fused(insns)[k].imm.Some?
    ensures ViewOf(insns[k]).Combine?
    ensures Get(RegsAt(insns, regs, writes, k + 1), ViewOf(insns[k]).dst) == Fused(insns)[k].imm.value
  {
    var v := ViewOf(insns[k]);
    var p, r := PendingAt(insns, k), RegsAt(insns, regs, writes, k);
    PendingInRegs(insns, regs, writes, k);
    assert Sound(p, v, writes[k]);
    if IsR0(v.dst) {
      assert v.op.Ori?;
    } else {
      TagRight(v.op, v.dst, v.imm, r);
    }
  }
}
