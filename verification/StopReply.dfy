/** Stop-reply packets: the tolerant parser, a printer for T packets, and their round trip. */
module StopReply {
  import opened Text

  datatype Reply = Reply(raw: string, signal: Option<int>, registers: map<string, int>,
                         watchKind: Option<string>, watchAddr: Option<int>, extra: map<string, string>)
  {
    function Register(name: string): Option<int> {
      if name in registers then Some(registers[name]) else None
    }

    function Pc(): Option<int> { Register("pc") }
  }

  const WATCH_KINDS: set<string> := {"watch", "rwatch", "awatch"}

  function Decimal(n: nat): string
    requires n < 100
  {
    if n < 10 then [HexDigit(n)] else [HexDigit(n / 10), HexDigit(n % 10)]
  }

  /** `REG_NAMES.get(regnum, f"reg_0x{regnum:x}")`. */
  function RegName(num: int): string {
    if num == 0x01 then "sp"
    else if num == 0x40 then "pc"
    else if num == 0x41 then "msr"
    else if num == 0x42 then "cr"
    else if num == 0x43 then "lr"
    else if num == 0x44 then "ctr"
    else if num == 0x45 then "xer"
    else if 0 <= num < 0x20 then "r" + Decimal(num)
    else if 0x20 <= num < 0x40 then "f" + Decimal(num - 0x20)
    else if num < 0 then "reg_0x-" + ToHex(-num)
    else "reg_0x" + ToHex(num)
  }

  /** Python's clamping slice `s[i:j]`. */
  function Slice(s: string, i: nat, j: nat): string
    requires i <= j
  {
    if |s| <= i then "" else if |s| <= j then s[i..] else s[i..j]
  }

  function RStripChar(s: string, c: char): string {
    if s != "" && s[|s| - 1] == c then RStripChar(s[..|s| - 1], c) else s
  }

  /** What one `key:value` item does to the reply. */
  function Absorb(r: Reply, kv: string): Reply {
    var i := FindChar(kv, ':', 0);
    if i == |kv| then r
    else
      var k, v := kv[..i], kv[i + 1..];
      match PyInt(k, 16)
      case None =>
        if k in WATCH_KINDS then
          var named := r.(watchKind := Some(k));
          if PyInt(v, 16).Some? then named.(watchAddr := PyInt(v, 16)) else named
        else r.(extra := r.extra[k := v])
      case Some(num) =>
        if PyInt(v, 16).Some? then r.(registers := r.registers[RegName(num) := PyInt(v, 16).value]) else r
  }

  function AbsorbAll(r: Reply, kvs: seq<string>): Reply
    decreases |kvs|
  {
    if kvs == [] then r else AbsorbAll(Absorb(r, kvs[0]), kvs[1..])
  }

  lemma {:induction false} AbsorbSnoc(r: Reply, kvs: seq<string>, kv: string)
    ensures AbsorbAll(r, kvs + [kv]) == Absorb(AbsorbAll(r, kvs), kv)
    decreases |kvs|
  {
    if kvs == [] {
    } else {
      assert (kvs + [kv])[1..] == kvs[1..] + [kv];
      AbsorbSnoc(Absorb(r, kvs[0]), kvs[1..], kv);
    }
  }

  function Blank(raw: string, signal: Option<int>): Reply {
    Reply(raw, signal, map[], None, None, map[])
  }

  function Parse(reply: string): Reply {
    var signal := PyInt(Slice(reply, 1, 3), 16);
    if reply == "" then Blank(reply, None)
    else if reply[0] == 'T' then
      var body := RStripChar(Slice(reply, 3, 3 + |reply|), ';');
      if signal.None? || body == "" then Blank(reply, signal)
      else AbsorbAll(Blank(reply, signal), Split(body, ';'))
    else if reply[0] in "SXW" then Blank(reply, signal)
    else Blank(reply, None)
  }

  /** The parser as written: a record filled in by a loop over the `;`-separated items. */
  method ParseStopReply(reply: string) returns (out: Reply)
    ensures out == Parse(reply)
  {
    hide PyInt, RStripChar, Split, FindChar, RegName;
    out := Blank(reply, None);
    if reply == "" {
      return;
    }
    var head := reply[0];
    if head == 'S' || head == 'T' || head == 'X' {
      var sig := PyInt(Slice(reply, 1, 3), 16);
      if sig.None? {
        return;
      }
      out := out.(signal := sig);
    } else if head == 'W' {
      out := out.(signal := PyInt(Slice(reply, 1, 3), 16));
      return;
    } else {
      return;
    }
    if head != 'T' {
      return;
    }
    var body := RStripChar(Slice(reply, 3, 3 + |reply|), ';');
    if body == "" {
      return;
    }
    var kvs := Split(body, ';');
    ghost var start := out;
    for n := 0 to |kvs|
      invariant out == AbsorbAll(start, kvs[..n])
    {
      AbsorbSnoc(start, kvs[..n], kvs[n]);
      assert kvs[..n + 1] == kvs[..n] + [kvs[n]];
      var i := FindChar(kvs[n], ':', 0);
      if i < |kvs[n]| {
        var k, v := kvs[n][..i], kvs[n][i + 1..];
        var num, value := PyInt(k, 16), PyInt(v, 16);
        if num.None? {
          if k in WATCH_KINDS {
            out := out.(watchKind := Some(k));
            if value.Some? {
              out := out.(watchAddr := value);
            }
          } else {
            out := out.(extra := out.extra[k := v]);
          }
        } else if value.Some? {
          out := out.(registers := out.registers[RegName(num.value) := value.value]);
        }
      }
    }
    assert kvs[..|kvs|] == kvs;
  }

  /** One item of a T packet; numbers are printed with any number of leading zeros. */
  datatype Item =
    | Reg(num: nat, value: nat, numZeros: nat, valueZeros: nat)
    | Watch(kind: string, addr: nat, addrZeros: nat)
    | Extra(key: string, text: string)
    | BadReg(key: string, text: string)      // a register whose value is no number
    | BadWatch(kind: string, text: string)   // a watch annotation whose address is no number
    | Noise(text: string)                    // text without a colon
  {
    predicate Printable() {
      match this
      case Reg(_, _, _, _) => true
      case Watch(kind, _, _) => kind in {"watch", "rwatch", "awatch"}
      case Extra(key, text) =>
        PyInt(key, 16).None? && key !in WATCH_KINDS && ':' !in key && ';' !in key && ';' !in text
      case BadReg(key, text) =>
        PyInt(key, 16).Some? && PyInt(text, 16).None? && ':' !in key && ';' !in key && ';' !in text
      case BadWatch(kind, text) => kind in WATCH_KINDS && PyInt(text, 16).None? && ';' !in text
      case Noise(text) => text != "" && ':' !in text && ';' !in text
    }

    function Key(): string {
      match this
      case Reg(num, _, z, _) => Padded(num, z)
      case Watch(kind, _, _) => kind
      case Extra(key, _) => key
      case BadReg(key, _) => key
      case BadWatch(kind, _) => kind
      case Noise(text) => text
    }

    function Value(): string {
      match this
      case Reg(_, value, _, z) => Padded(value, z)
      case Watch(_, addr, z) => Padded(addr, z)
      case Extra(_, text) => text
      case BadReg(_, text) => text
      case BadWatch(_, text) => text
      case Noise(_) => ""
    }

    function Text(): string { if Noise? then text else Key() + ":" + Value() }

    /** What the item means for the parsed record. */
    function Meaning(r: Reply): Reply {
      match this
      case Reg(num, value, _, _) => r.(registers := r.registers[RegName(num) := value])
      case Watch(kind, addr, _) => r.(watchKind := Some(kind), watchAddr := Some(addr))
      case Extra(key, text) => r.(extra := r.extra[key := text])
      case BadReg(_, _) => r
      case BadWatch(kind, _) => r.(watchKind := Some(kind))
      case Noise(_) => r
    }
  }

  function Texts(items: seq<Item>): seq<string> {
    if items == [] then [] else [items[0].Text()] + Texts(items[1..])
  }

  function Print(signal: nat, items: seq<Item>): string
    requires signal < 256
  {
    "T" + Hex2(signal) + Terminated(Texts(items), ';')
  }

  function Meanings(r: Reply, items: seq<Item>): Reply
    decreases |items|
  {
    if items == [] then r else Meanings(items[0].Meaning(r), items[1..])
  }

  lemma WatchKindsAreNotNumbers(kind: string)
    requires kind in WATCH_KINDS
    ensures PyInt(kind, 16).None? && ':' !in kind && ';' !in kind
  {
    assert LStrip(kind) == kind && Strip(kind) == kind;
    if kind == "awatch" {
      assert Digits(kind[1..], 16, 10) == None;
    }
  }

  lemma AbsorbKeyValue(r: Reply, k: string, v: string)
    requires ':' !in k
    ensures Absorb(r, k + ":" + v) ==
      match PyInt(k, 16)
      case None =>
        if k in WATCH_KINDS then
          var named := r.(watchKind := Some(k));
          if PyInt(v, 16).Some? then named.(watchAddr := PyInt(v, 16)) else named
        else r.(extra := r.extra[k := v])
      case Some(num) =>
        if PyInt(v, 16).Some? then r.(registers := r.registers[RegName(num) := PyInt(v, 16).value]) else r
  {
    var t := k + ":" + v;
    assert t[..|k|] == k && t[|k| + 1..] == v && t[|k|] == ':';
    FindCharIs(t, ':', 0, |k|);
  }

  lemma ItemParts(it: Item)
    requires it.Printable()
    ensures ':' !in it.Key() && ';' !in it.Key() && ';' !in it.Value()
  {
    hide PyInt, Padded, Digits;
    match it
    case Reg(num, value, zn, zv) =>
      HexOnly(num, zn);
      HexOnly(value, zv);
    case Watch(kind, addr, z) =>
      WatchKindsAreNotNumbers(kind);
      HexOnly(addr, z);
    case BadWatch(kind, _) => WatchKindsAreNotNumbers(kind);
    case _ =>
  }

  lemma HexOnly(n: nat, zeros: nat)
    ensures ':' !in Padded(n, zeros) && ';' !in Padded(n, zeros)
  {
    PaddedRoundTrip(n, zeros);
    HexHasNone(Padded(n, zeros), ':');
    HexHasNone(Padded(n, zeros), ';');
  }

  lemma ItemText(it: Item, r: Reply)
    requires it.Printable()
    ensures ';' !in it.Text() && it.Text() != "" && it.Text()[|it.Text()| - 1] != ';'
    ensures Absorb(r, it.Text()) == it.Meaning(r)
  {
    ItemParts(it);
    AbsorbKeyValue(r, it.Key(), it.Value());
    match it
    case Reg(num, value, zn, zv) =>
      PaddedRoundTrip(num, zn);
      PaddedRoundTrip(value, zv);
    case Watch(kind, addr, z) =>
      WatchKindsAreNotNumbers(kind);
      PaddedRoundTrip(addr, z);
    case BadWatch(kind, _) => WatchKindsAreNotNumbers(kind);
    case Noise(text) =>
      FindCharIs(text, ':', 0, |text|);
    case _ =>
  }

  lemma {:induction false} AbsorbTexts(items: seq<Item>, r: Reply)
    requires forall it <- items :: it.Printable()
    ensures |Texts(items)| == |items|
    ensures forall t <- Texts(items) :: ';' !in t && t != "" && t[|t| - 1] != ';'
    ensures AbsorbAll(r, Texts(items)) == Meanings(r, items)
  {
    if items == [] {
    } else {
      ItemText(items[0], r);
      AbsorbTexts(items[1..], items[0].Meaning(r));
      assert Texts(items)[1..] == Texts(items[1..]);
    }
  }

  lemma {:induction false} TerminatedEnd(parts: seq<string>)
    requires parts != [] && forall p <- parts :: p != "" && p[|p| - 1] != ';'
    ensures var s := Terminated(parts, ';');
      |s| > 1 && s[|s| - 1] == ';' && s[|s| - 2] != ';'
  {
    if |parts| == 1 {
    } else {
      TerminatedEnd(parts[1..]);
    }
  }

  lemma BodyParts(items: seq<Item>)
    requires items != [] && forall it <- items :: it.Printable()
    ensures Terminated(Texts(items), ';') != ""
    ensures var body := RStripChar(Terminated(Texts(items), ';'), ';');
      body != "" && Split(body, ';') == Texts(items)
  {
    var parts := Texts(items);
    AbsorbTexts(items, Blank("", None));
    TerminatedEnd(parts);
    SplitJoined(parts, ';');
    var body := Terminated(parts, ';');
    var cut := body[..|body| - 1];
    assert cut[|cut| - 1] == body[|body| - 2];
  }

  /** Printing any signal and any list of items and parsing the packet gives back exactly what
      the items say, in order, later items overriding earlier ones. */
  lemma PrintParse(signal: nat, items: seq<Item>)
    requires signal < 256 && forall it <- items :: it.Printable()
    ensures Parse(Print(signal, items)) == Meanings(Blank(Print(signal, items), Some(signal)), items)
  {
    var s := Print(signal, items);
    Hex2RoundTrip(signal);
    assert Slice(s, 1, 3) == Hex2(signal);
    assert Slice(s, 3, 3 + |s|) == Terminated(Texts(items), ';');
    if items != [] {
      BodyParts(items);
      AbsorbTexts(items, Blank(s, Some(signal)));
    }
  }

  /** Reads a register number back out of its name. */
  function NumberOf(name: string): int {
    if name == "sp" then 0x01
    else if name == "pc" then 0x40
    else if name == "msr" then 0x41
    else if name == "cr" then 0x42
    else if name == "lr" then 0x43
    else if name == "ctr" then 0x44
    else if name == "xer" then 0x45
    else if |name| > 7 && name[1] == 'e' && name[6] == '-' then -Hex(name[7..])
    else if |name| > 6 && name[1] == 'e' then Hex(name[6..])
    else if name != "" then (if name[0] == 'f' then 0x20 else 0) + FromDecimal(name[1..])
    else 0
  }

  function Hex(s: string): int {
    var d := Digits(s, 16, 0);
    if d.Some? then d.value else 0
  }

  function FromDecimal(s: string): int {
    if |s| == 1 then DigitVal(s[0]) else if |s| == 2 then 10 * DigitVal(s[0]) + DigitVal(s[1]) else 0
  }

  lemma DecimalRoundTrip(n: nat)
    requires n < 100
    ensures 1 <= |Decimal(n)| <= 2 && FromDecimal(Decimal(n)) == n && DigitVal(Decimal(n)[0]) < 10
  {
  }

  lemma NumberOfShortName(bank: char, d: string)
    requires 1 <= |d| <= 2 && DigitVal(d[0]) < 10
    ensures NumberOf([bank] + d) == (if bank == 'f' then 0x20 else 0) + FromDecimal(d)
  {
    var a := [bank] + d;
    assert a[1..] == d && a[1] == d[0];
  }

  lemma GeneralRegister(n: nat)
    requires n < 0x40 && n != 0x01
    ensures NumberOf(RegName(n)) == n
  {
    hide NumberOf, FromDecimal, Decimal, ToHex;
    DecimalRoundTrip(n % 0x20);
    NumberOfShortName(if n < 0x20 then 'r' else 'f', Decimal(n % 0x20));
  }

  lemma UnlistedRegister(n: int)
    requires n < 0 || n > 0x45
    ensures NumberOf(RegName(n)) == n
  {
    var h := ToHex(if n < 0 then -n else n);
    ToHexDigits(if n < 0 then -n else n);
    var a := RegName(n);
    assert a[0] == 'r' && a[1] == 'e' && a[2] == 'g';
    if n < 0 {
      assert a[6] == '-' && a[7..] == h;
    } else {
      assert a[6..] == h && a[6] == h[0] && h[0] in "0123456789abcdef";
    }
  }

  lemma NumberOfRegName(n: int)
    ensures NumberOf(RegName(n)) == n
  {
    if 0 <= n < 0x40 && n != 0x01 {
      GeneralRegister(n);
    } else if n < 0 || n > 0x45 {
      UnlistedRegister(n);
    }
  }

  /** No two register numbers share a name, so no register overwrites another one's value. */
  lemma RegNameInjective(m: int, n: int)
    requires RegName(m) == RegName(n)
    ensures m == n
  {
    NumberOfRegName(m);
    NumberOfRegName(n);
  }

  /** The value the last item for register `num` gives, if there is one. */
  function LastValue(items: seq<Item>, num: nat): Option<int> {
    if items == [] then None
    else
      var last := items[|items| - 1];
      if last.Reg? && last.num == num then Some(last.value) else LastValue(items[..|items| - 1], num)
  }

  lemma {:induction false} MeaningsSnoc(r: Reply, items: seq<Item>, it: Item)
    ensures Meanings(r, items + [it]) == it.Meaning(Meanings(r, items))
    decreases |items|
  {
    if items == [] {
    } else {
      assert (items + [it])[1..] == items[1..] + [it];
      MeaningsSnoc(items[0].Meaning(r), items[1..], it);
    }
  }

  lemma {:induction false} MeaningsRegister(r: Reply, items: seq<Item>, num: nat)
    requires r.registers == map[]
    ensures Meanings(r, items).Register(RegName(num)) == LastValue(items, num)
    decreases |items|
  {
    if items == [] {
    } else {
      var init, last := items[..|items| - 1], items[|items| - 1];
      assert items == init + [last];
      MeaningsSnoc(r, init, last);
      MeaningsRegister(r, init, num);
      if last.Reg? && RegName(last.num) == RegName(num) {
        RegNameInjective(last.num, num);
      }
    }
  }

  /** Every register number, printed any number of times among any other items, parses to the
      last value printed for it, and is absent exactly when it was never printed. */
  lemma PrintedRegister(signal: nat, items: seq<Item>, num: nat)
    requires signal < 256 && forall it <- items :: it.Printable()
    ensures Parse(Print(signal, items)).Register(RegName(num)) == LastValue(items, num)
    ensures Parse(Print(signal, items)).signal == Some(signal)
  {
    PrintParse(signal, items);
    MeaningsRegister(Blank(Print(signal, items), Some(signal)), items, num);
    MeaningsSignal(Blank(Print(signal, items), Some(signal)), items);
  }

  lemma {:induction false} MeaningsSignal(r: Reply, items: seq<Item>)
    ensures Meanings(r, items).signal == r.signal
    decreases |items|
  {
    if items == [] {
    } else {
      MeaningsSignal(items[0].Meaning(r), items[1..]);
    }
  }

  /** The kind the last watch annotation gives, if there is one. */
  function LastKind(items: seq<Item>): Option<string> {
    if items == [] then None
    else
      var last := items[|items| - 1];
      if last.Watch? || last.BadWatch? then Some(last.kind) else LastKind(items[..|items| - 1])
  }

  /** The address the last watch annotation with one gives. */
  function LastAddr(items: seq<Item>): Option<int> {
    if items == [] then None
    else
      var last := items[|items| - 1];
      if last.Watch? then Some(last.addr) else LastAddr(items[..|items| - 1])
  }

  /** The text the last item with that key gives, if there is one. */
  function LastExtra(items: seq<Item>, key: string): Option<string> {
    if items == [] then None
    else
      var last := items[|items| - 1];
      if last.Extra? && last.key == key then Some(last.text) else LastExtra(items[..|items| - 1], key)
  }

  lemma {:induction false} MeaningsFields(r: Reply, items: seq<Item>, key: string)
    requires r.watchKind == None && r.watchAddr == None && r.extra == map[]
    ensures var e := Meanings(r, items);
      && e.watchKind == LastKind(items) && e.watchAddr == LastAddr(items)
      && (if key in e.extra then Some(e.extra[key]) else None) == LastExtra(items, key)
  {
    if items == [] {
    } else {
      var init, last := items[..|items| - 1], items[|items| - 1];
      assert items == init + [last];
      MeaningsSnoc(r, init, last);
      MeaningsFields(r, init, key);
    }
  }

  /** Kind and address of the watch annotation are the last ones printed, and every other field has the last text
      printed for it; each is absent exactly when it was never printed. */
  lemma PrintedFields(signal: nat, items: seq<Item>, key: string)
    requires signal < 256 && forall it <- items :: it.Printable()
    ensures var e := Parse(Print(signal, items));
      && e.watchKind == LastKind(items) && e.watchAddr == LastAddr(items)
      && (if key in e.extra then Some(e.extra[key]) else None) == LastExtra(items, key)
  {
    hide Parse, Print;
    PrintParse(signal, items);
    MeaningsFields(Blank(Print(signal, items), Some(signal)), items, key);
  }

  // ---- by name ----

  /** The registers by their own names: each holds the value last printed for its number, and is absent exactly
      when that was never printed.  `sp` is what register 1 is called. */
  lemma PrintedNames(signal: nat, items: seq<Item>)
    requires signal < 256 && forall it <- items :: it.Printable()
    ensures var e := Parse(Print(signal, items));
      && e.Pc() == LastValue(items, 0x40) && e.Register("sp") == LastValue(items, 1)
      && e.Register("msr") == LastValue(items, 0x41) && e.Register("cr") == LastValue(items, 0x42)
      && e.Register("lr") == LastValue(items, 0x43) && e.Register("ctr") == LastValue(items, 0x44)
      && e.Register("xer") == LastValue(items, 0x45)
  {
    hide Parse, Print, LastValue;
    PrintedRegister(signal, items, 1);
    PrintedRegister(signal, items, 0x40);
    PrintedRegister(signal, items, 0x41);
    PrintedRegister(signal, items, 0x42);
    PrintedRegister(signal, items, 0x43);
    PrintedRegister(signal, items, 0x44);
    PrintedRegister(signal, items, 0x45);
  }

  /** The general registers but for register 1 are `r`, and the floating-point ones `f`, followed by their decimal
      number; every other number has its hexadecimal text in its name. */
  lemma PrintedBanks(signal: nat, items: seq<Item>, n: nat)
    requires signal < 256 && forall it <- items :: it.Printable()
    ensures var e := Parse(Print(signal, items));
      && (n < 32 && n != 1 ==> e.Register("r" + ToDecimal(n)) == LastValue(items, n))
      && (n < 32 ==> e.Register("f" + ToDecimal(n)) == LastValue(items, 0x20 + n))
      && (n > 0x45 ==> e.Register("reg_0x" + ToHex(n)) == LastValue(items, n))
  {
    hide Parse, Print, LastValue, ToHex;
    PrintedRegister(signal, items, n);
    PrintedRegister(signal, items, 0x20 + n);
    if n < 32 {
      assert ToDecimal(n) == Decimal(n);
    }
  }

  /** The other stop replies carry the signal and nothing else, whatever follows it. */
  lemma PlainPackets(head: char, signal: nat, rest: string)
    requires head in "SXW" && signal < 256
    ensures var text := [head] + Hex2(signal) + rest; Parse(text) == Blank(text, Some(signal))
  {
    hide PyInt;
    var text := [head] + Hex2(signal) + rest;
    Hex2RoundTrip(signal);
    assert Slice(text, 1, 3) == Hex2(signal);
  }

  /** A packet that is none of these, or whose signal cannot be read, gives an empty record. */
  lemma OtherPackets(text: string)
    requires text == "" || text[0] !in "TSXW" || PyInt(Slice(text, 1, 3), 16).None?
    ensures Parse(text) == Blank(text, None)
  {
    hide PyInt;
  }
}
