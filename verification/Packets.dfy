/** The text of command packets, and what a stub reads in a breakpoint packet (GDB manual, "Packets": `Z type,addr,kind`
    and `z type,addr,kind`). */
module Packets {
  import opened Text
  import opened Wire

  function KindDigit(k: Kind): char {
    match k
    case SwBp => '0'
    case HwBp => '1'
    case WriteWp => '2'
    case ReadWp => '3'
    case AccessWp => '4'
  }

  function BreakText(letter: char, p: Place): string {
    [letter, KindDigit(p.kind)] + "," + AddrText(p) + "," + SizeText(p)
  }

  /** What the client frames for a command. */
  function CommandText(op: Op): string {
    match op
    case Continue => "c"
    case StepOne => "s"
    case Heartbeat => "qC"
    case Query(text) => text
    case Arm(p) => BreakText('Z', p)
    case Disarm(p) => BreakText('z', p)
  }

  /** The types of the protocol: software and hardware breakpoints, write, read and access watchpoints. */
  const TYPES: seq<Kind> := [SwBp, HwBp, WriteWp, ReadWp, AccessWp]

  /** What a stub reads in a packet: `Z` inserts and `z` removes; type, address and kind stand between commas. */
  function ReadBreak(text: string): Option<Op> {
    var parts := Split(text, ',');
    if |parts| != 3 || |parts[0]| != 2 then None
    else
      var n, addr, size := DigitVal(parts[0][1]), PyInt(parts[1], 16), PyInt(parts[2], 0);
      if n >= |TYPES| || addr.None? || size.None? then None
      else
        var p := Place(TYPES[n], addr.value, size.value);
        if parts[0][0] == 'Z' then Some(Arm(p)) else if parts[0][0] == 'z' then Some(Disarm(p)) else None
  }

  lemma NoComma(n: int, body: string, base: nat)
    requires AllBelow(body, base) && base <= 16
    ensures ',' !in Signed(n, "", body)
  {
    assert DigitVal(',') == 99;
    assert ',' !in body;
  }

  function AddrText(p: Place): string { Signed(p.addr, "", ToHex(Abs(p.addr))) }

  function SizeText(p: Place): string { Signed(p.size, "", ToDecimal(Abs(p.size))) }

  lemma FieldsRead(p: Place)
    ensures ',' !in AddrText(p) && ',' !in SizeText(p)
    ensures PyInt(AddrText(p), 16) == Some(p.addr) && PyInt(SizeText(p), 0) == Some(p.size)
  {
    hide Signed, PyInt, ToHex, ToDecimal;
    ToHexDigits(Abs(p.addr));
    HexBelow(ToHex(Abs(p.addr)));
    ToDecimalDigits(Abs(p.size));
    NoComma(p.addr, ToHex(Abs(p.addr)), 16);
    NoComma(p.size, ToDecimal(Abs(p.size)), 10);
    HexRead(p.addr);
    DecimalRead(p.size);
  }

  lemma TypeRead(letter: char, k: Kind)
    requires letter == 'Z' || letter == 'z'
    ensures var first := [letter, KindDigit(k)];
      ',' !in first && DigitVal(first[1]) < |TYPES| && TYPES[DigitVal(first[1])] == k
  {
  }

  /** A change of a breakpoint is read back from its packet: kind, address and size, and which change it is. */
  lemma BreakRead(op: Op)
    requires Changes(op)
    ensures ReadBreak(CommandText(op)) == Some(op)
  {
    hide PyInt, Split, DigitVal, KindDigit, AddrText, SizeText;
    var p, letter := op.place, if op.Arm? then 'Z' else 'z';
    var first := [letter, KindDigit(p.kind)];
    FieldsRead(p);
    TypeRead(letter, p.kind);
    SplitThree(first, AddrText(p), SizeText(p));
    assert CommandText(op) == first + "," + AddrText(p) + "," + SizeText(p);
  }
}
