/** What the pass reads in the text of an instruction, and the tag of a pair in numbers. */
module Listings {
  import opened Text
  import opened Fusion

  function Plainly(mnemonic: string, operands: string): Insn { Insn(mnemonic, operands, Plain("other"), None) }

  /** A register name or a decimal digit, as text that stripping leaves alone. */
  predicate Bare(s: string) {
    s != "" && ',' !in s && !IsSpace(s[0]) && !IsSpace(s[|s| - 1])
  }

  lemma StripSpaced(s: string)
    requires Bare(s)
    ensures Strip(" " + s) == s && Strip(s) == s
  {
    assert (" " + s)[1..] == s;
    assert LStrip(" " + s) == s;
  }

  lemma Digit(d: char)
    requires '1' <= d <= '9'
    ensures PyInt([d], 0) == Some(d as int - '0' as int)
  {
  }

  /** `m` is the lower-case word `word`, in any mixture of cases. */
  predicate AnyCase(m: string, word: string) {
    && |m| == |word|
    && forall i :: 0 <= i < |m| ==> 'a' <= word[i] <= 'z' && (m[i] == word[i] || m[i] as int + 32 == word[i] as int)
  }

  lemma {:induction false} LowerAnyCase(m: string, word: string)
    requires AnyCase(m, word)
    ensures Lower(m) == word
  {
    if m == "" {
    } else {
      LowerAnyCase(m[1..], word[1..]);
    }
  }

  lemma ViewLis(mnemonic: string, dst: string, imm: string)
    requires Lower(mnemonic) == "lis" && Bare(dst) && Bare(imm) && PyInt(imm, 0).Some?
    ensures ViewOf(Plainly(mnemonic, dst + ", " + imm)) == Lis(dst, PyInt(imm, 0).value % 0x10000)
  {
    hide PyInt, Strip, Split, StripAll, Lower;
    StripSpaced(dst);
    StripSpaced(imm);
    assert dst + ", " + imm == dst + "," + (" " + imm);
    SplitTwo(dst, " " + imm);
    TwoStripped(dst, " " + imm);
  }

  /** An immediate that cannot be read counts as zero. */
  lemma ViewCombine(mnemonic: string, dst: string, src: string, imm: string)
    requires Lower(mnemonic) in {"addi", "subi", "ori"} && Bare(dst) && Bare(src) && Bare(imm)
    ensures ViewOf(Plainly(mnemonic, dst + ", " + src + ", " + imm))
      == Combine(ArithOf(Lower(mnemonic)), dst, src, if PyInt(imm, 0).Some? then PyInt(imm, 0).value else 0)
  {
    hide PyInt, Strip, Split, Lower, StripAll;
    var text := dst + ", " + src + ", " + imm;
    assert text == dst + "," + (" " + src) + "," + (" " + imm);
    SplitThree(dst, " " + src, " " + imm);
    StripSpaced(dst);
    StripSpaced(src);
    StripSpaced(imm);
    ThreeStripped(dst, " " + src, " " + imm);
  }

  lemma LowerFixed(m: string)
    requires m in {"addi", "subi", "ori", "lis", "mflr", "lwzu"}
    ensures Lower(m) == m
  {
  }

  lemma ThreeStripped(a: string, b: string, c: string)
    ensures StripAll([a, b, c]) == [Strip(a), Strip(b), Strip(c)]
  {
    hide Strip;
    assert [a, b, c][1..] == [b, c] && [b, c][1..] == [c];
    assert StripAll([c]) == [Strip(c)];
    assert StripAll([b, c]) == [Strip(b), Strip(c)];
  }

  lemma TwoStripped(a: string, b: string)
    ensures StripAll([a, b]) == [Strip(a), Strip(b)]
  {
  }

  // ---- operands as they are printed ----

  /** The text stands for the number `n`. */
  predicate Stands(text: string, n: int) { Bare(text) && PyInt(text, 0) == Some(n) }

  lemma BareSigned(n: int, body: string, base: nat)
    requires AllBelow(body, base) && base <= 16
    ensures Bare(Signed(n, "", body)) && Bare(Signed(n, "0x", body))
  {
    BelowIsNoSpace(body, base);
    assert DigitVal(',') == 99;
    assert ',' !in body;
  }

  /** Immediates printed in decimal or in hexadecimal, with their sign, stand for themselves. */
  lemma PrintedStands(n: int)
    ensures Stands(Signed(n, "", ToDecimal(Abs(n))), n) && Stands(Signed(n, "0x", ToHex(Abs(n))), n)
  {
    hide PyInt, Signed, Bare;
    DecimalRead(n);
    HexRead(n);
    ToDecimalDigits(Abs(n));
    ToHexDigits(Abs(n));
    HexBelow(ToHex(Abs(n)));
    BareSigned(n, ToDecimal(Abs(n)), 10);
    BareSigned(n, ToHex(Abs(n)), 16);
  }

  /** Register `n` as it is printed. */
  function Gpr(n: nat): string { "r" + ToDecimal(n) }

  lemma GprIsRegister(n: nat)
    ensures Bare(Gpr(n)) && IsRegister(Gpr(n)) && Gpr(n) != ""
  {
    var d := ToDecimal(n);
    ToDecimalDigits(n);
    BelowIsNoSpace(d, 10);
    assert Gpr(n)[1..] == d;
    assert DigitVal(',') == 99;
    forall c | c in d ensures '0' <= c <= '9' && c != ',' {
      assert DigitVal(c) < 10;
    }
  }

  lemma SplitFirst(a: string, rest: string)
    requires ',' !in a
    ensures |Split(a + "," + rest, ',')| > 1 && Split(a + "," + rest, ',')[0] == a
  {
    var s := a + "," + rest;
    assert s[..|a|] == a && s[|a| + 1..] == rest;
    FindCharIs(s, ',', 0, |a|);
  }

  /** An instruction that neither loads a high half nor combines is taken to write the register its operands
      begin with, if a comma follows, and nothing if they begin with something else. */
  lemma FirstOperand(mnemonic: string, first: string, rest: string)
    requires Lower(mnemonic) !in {"lis", "addi", "subi", "ori"} && Bare(first)
    ensures ViewOf(Plainly(mnemonic, first + "," + rest)) == if IsRegister(first) then Write(first) else Ignored
    ensures ViewOf(Plainly(mnemonic, first)) == Ignored
    ensures forall n: nat :: first == Gpr(n) ==> ViewOf(Plainly(mnemonic, first + "," + rest)) == Write(first)
    ensures first[0] != 'r' ==> ViewOf(Plainly(mnemonic, first + "," + rest)) == Ignored
  {
    SplitFirst(first, rest);
    StripSpaced(first);
    FindCharIs(first, ',', 0, |first|);
    forall n: nat | first == Gpr(n) ensures IsRegister(first) {
      GprIsRegister(n);
    }
    hide Split, Strip, Lower, IsRegister, Bare;
    assert StripAll(Split(first + "," + rest, ','))[0] == first;
  }

  /** With another number of operands `lis`, `addi`, `subi` and `ori` are not read at all. */
  lemma OperandCounts(op: string, a: string, b: string, c: string)
    requires op in {"lis", "addi", "subi", "ori"} && ',' !in a && ',' !in b && ',' !in c
    ensures ViewOf(Plainly(op, a)) == Ignored
    ensures op == "lis" ==> ViewOf(Plainly(op, a + "," + b + "," + c)) == Ignored
    ensures op != "lis" ==> ViewOf(Plainly(op, a + "," + b)) == Ignored
  {
    LowerFixed(op);
    FindCharIs(a, ',', 0, |a|);
    SplitTwo(a, b);
    SplitThree(a, b, c);
    hide Split, Strip, Lower, PyInt, IsRegister;
    assert |Split(a, ',')| == 1;
  }

  // ---- a pair, in numbers ----

  function Pair(lis: string, dst: string, high: string, mnemonic: string, low: string): seq<Insn> {
    [Plainly(lis, dst + ", " + high), Plainly(mnemonic, dst + ", " + dst + ", " + low)]
  }

  /** The value that `lis`, then `addi`, `subi` or `ori` load, in numbers. */
  function Loaded(op: string, high: int, low: int): int {
    if op == "ori" then high % 0x10000 * 0x10000 + low
    else (high * 0x10000 + if op == "addi" then SignOf(low) else -SignOf(low)) % 0x1_0000_0000
  }

  /** Whatever texts stand for the two immediates, and in whatever case the mnemonics are written, the pair is
      tagged with the value it loads; the `lis` is not tagged. */
  lemma PairTag(lis: string, dst: string, high: string, hi: int, mnemonic: string, op: string, low: string, lo: int)
    requires AnyCase(lis, "lis") && AnyCase(mnemonic, op) && Bare(dst) && Stands(high, hi) && Stands(low, lo)
    requires if op == "ori" then 0 <= lo < 0x10000 else op in {"addi", "subi"} && Encodable(lo)
    ensures var code := Pair(lis, dst, high, mnemonic, low);
      var r := Fused(code);
      r[0] == code[0] && r[1].kind.ImmLoadPair? && r[1].imm == Some(Loaded(op, hi, lo))
  {
    hide ViewOf, PyInt, Bare, AnyCase;
    var code := Pair(lis, dst, high, mnemonic, low);
    LowerAnyCase(lis, "lis");
    LowerAnyCase(mnemonic, op);
    ViewLis(lis, dst, high);
    ViewCombine(mnemonic, dst, dst, low);
    assert PendingAt(code, 0) == map[];
    assert PendingAt(code, 1)[dst] == (0, hi % 0x10000 * 0x10000);
    TagIsLoaded(op, hi, lo);
  }

  /** With an immediate that cannot be read, a symbol say, the pair is tagged with the high half alone. */
  lemma UnreadImmediate(dst: string, high: string, hi: int, op: string, low: string)
    requires op in {"addi", "subi", "ori"} && Bare(dst) && Stands(high, hi) && Bare(low) && PyInt(low, 0).None?
    ensures Fused(Pair("lis", dst, high, op, low))[1].imm == Some(hi % 0x10000 * 0x10000)
  {
    hide ViewOf, PyInt, Bare, TagValue, Lower;
    var code := Pair("lis", dst, high, op, low);
    LowerFixed("lis");
    LowerFixed(op);
    ViewLis("lis", dst, high);
    ViewCombine(op, dst, dst, low);
    assert PendingAt(code, 0) == map[];
    assert PendingAt(code, 1)[dst] == (0, hi % 0x10000 * 0x10000);
    TagUnread(op, hi % 0x10000);
  }

  lemma TagUnread(op: string, half: nat)
    requires op in {"addi", "subi", "ori"} && half < 0x10000
    ensures TagValue(ArithOf(op), half * 0x10000, 0) == half * 0x10000
  {
    hide OrLow;
    if op == "ori" {
      OrLowOfHigh(half * 0x10000, 0);
    }
  }

  lemma TagIsLoaded(mnemonic: string, hi: int, lo: int)
    requires if mnemonic == "ori" then 0 <= lo < 0x10000 else mnemonic in {"addi", "subi"} && Encodable(lo)
    ensures TagValue(ArithOf(mnemonic), hi % 0x10000 * 0x10000, lo) == Loaded(mnemonic, hi, lo)
  {
    hide OrLow;
    if mnemonic == "ori" {
      OrLowOfHigh(hi % 0x10000 * 0x10000, lo);
    } else {
      HighPart(hi, if mnemonic == "addi" then SignOf(lo) else -SignOf(lo));
    }
  }

  function SignOf(low: int): int { if low >= 0x8000 then low - 0x10000 else low }

  lemma HighPart(hi: int, low: int)
    ensures (hi % 0x10000 * 0x10000 + low) % 0x1_0000_0000 == (hi * 0x10000 + low) % 0x1_0000_0000
  {
    var q := hi / 0x10000;
    assert hi * 0x10000 + low == (hi % 0x10000 * 0x10000 + low) + q * 0x1_0000_0000;
  }

  /** `lis rN, hi; addi rN, rN, -m`, in decimal as the disassembler prints it. */
  lemma NegativeImmediate(n: nat, hi: nat, m: nat)
    requires n < 32 && hi < 0x10000 && 0 < m <= 0x8000
    ensures Fused(Pair("lis", Gpr(n), ToDecimal(hi), "addi", "-" + ToDecimal(m)))[1].imm
      == Some(if hi == 0 then 0x1_0000_0000 - m else hi * 0x10000 - m)
  {
    hide PyInt, Fused, Bare, ToDecimal, Gpr, Stands, Loaded, Pair, IsRegister, Lower, Split, Strip, Digits;
    assert AnyCase("lis", "lis") && AnyCase("addi", "addi");
    hide AnyCase;
    GprIsRegister(n);
    PrintedPlain(hi);
    PrintedMinus(m);
    PairTag("lis", Gpr(n), ToDecimal(hi), hi, "addi", "addi", "-" + ToDecimal(m), 0 - m);
    MinusLoads(hi, m);
  }

  lemma MinusLoads(hi: nat, m: nat)
    requires hi < 0x10000 && 0 < m <= 0x8000
    ensures Loaded("addi", hi, 0 - m) == if hi == 0 then 0x1_0000_0000 - m else hi * 0x10000 - m
  {
  }

  lemma PrintedPlain(n: nat)
    ensures Stands(ToDecimal(n), n)
  {
    hide Stands, ToDecimal;
    PrintedStands(n);
    assert Signed(n, "", ToDecimal(n)) == ToDecimal(n);
  }

  lemma PrintedMinus(n: nat)
    requires n > 0
    ensures Stands("-" + ToDecimal(n), 0 - n)
  {
    hide Stands, ToDecimal;
    PrintedStands(0 - n);
    assert Signed(0 - n, "", ToDecimal(n)) == "-" + ToDecimal(n);
  }
}
