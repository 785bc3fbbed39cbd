/** The pieces of Python's text handling that the parsers rely on: stripping, splitting,
    `int(text, base)` and hexadecimal printing.  Characters stand for Latin-1 code points. */
module Text {

  datatype Option<+T> = None | Some(value: T)

  lemma Associate<T>(a: seq<T>, b: seq<T>, c: seq<T>)
    ensures a + b + c == a + (b + c)
  {
  }

  predicate IsSpace(c: char) {
    9 <= c as int <= 13 || 28 <= c as int <= 32 || c as int == 133 || c as int == 160
  }

  function LStrip(s: string): string {
    if s != "" && IsSpace(s[0]) then LStrip(s[1..]) else s
  }

  function RStrip(s: string): string {
    if s != "" && IsSpace(s[|s| - 1]) then RStrip(s[..|s| - 1]) else s
  }

  function Strip(s: string): string { RStrip(LStrip(s)) }

  /** Index of the first `c` at or after `from`, or the length when there is none. */
  function FindChar(s: string, c: char, from: nat): (i: nat)
    requires from <= |s|
    ensures from <= i <= |s|
    ensures c !in s[from..i]
    ensures i < |s| ==> s[i] == c
    decreases |s| - from
  {
    if from == |s| || s[from] == c then from else FindChar(s, c, from + 1)
  }

  lemma FindCharIs(s: string, c: char, from: nat, i: nat)
    requires from <= i <= |s| && c !in s[from..i] && (i < |s| ==> s[i] == c)
    ensures FindChar(s, c, from) == i
    decreases i - from
  {
  }

  /** Python's `s.split(c)` for a one-character separator. */
  function Split(s: string, c: char): (parts: seq<string>)
    ensures |parts| > 0
    decreases |s|
  {
    var i := FindChar(s, c, 0);
    if i == |s| then [s] else [s[..i]] + Split(s[i + 1..], c)
  }

  lemma SplitTwo(a: string, b: string)
    requires ',' !in a && ',' !in b
    ensures Split(a + "," + b, ',') == [a, b]
  {
    var s := a + "," + b;
    assert s[..|a|] == a && s[|a| + 1..] == b;
    FindCharIs(s, ',', 0, |a|);
    FindCharIs(b, ',', 0, |b|);
  }

  lemma SplitThree(a: string, b: string, c: string)
    requires ',' !in a && ',' !in b && ',' !in c
    ensures Split(a + "," + b + "," + c, ',') == [a, b, c]
  {
    var s := a + "," + b + "," + c;
    assert s[..|a|] == a && s[|a| + 1..] == b + "," + c;
    FindCharIs(s, ',', 0, |a|);
    SplitTwo(b, c);
  }

  /** Every part followed by the separator. */
  function Terminated(parts: seq<string>, c: char): string {
    if parts == [] then "" else parts[0] + [c] + Terminated(parts[1..], c)
  }

  /** Cutting the last terminator off cuts the empty rest off the split. */
  lemma {:induction false} SplitJoined(parts: seq<string>, c: char)
    requires parts != [] && forall p <- parts :: c !in p
    ensures var s := Terminated(parts, c); s != "" && s[|s| - 1] == c && Split(s[..|s| - 1], c) == parts
  {
    hide FindChar;
    var s := Terminated(parts, c);
    var t := s[..|s| - 1];
    var i := |parts[0]|;
    if |parts| == 1 {
      assert Terminated(parts[1..], c) == "";
      assert t[..i] == t == parts[0];
      FindCharIs(t, c, 0, i);
    } else {
      var rest := Terminated(parts[1..], c);
      SplitJoined(parts[1..], c);
      assert s == parts[0] + [c] + rest;
      assert t[..i] == parts[0] && t[i + 1..] == rest[..|rest| - 1];
      FindCharIs(t, c, 0, i);
      assert parts == [parts[0]] + parts[1..];
    }
  }

  function DigitVal(c: char): nat {
    if '0' <= c <= '9' then c as int - '0' as int
    else if 'a' <= c <= 'z' then c as int - 'a' as int + 10
    else if 'A' <= c <= 'Z' then c as int - 'A' as int + 10
    else 99
  }

  /** A non-empty run of digits in `base`, single underscores allowed between two digits. */
  function Digits(s: string, base: nat, acc: nat): Option<nat> {
    if s == "" || DigitVal(s[0]) >= base then None
    else
      var v := acc * base + DigitVal(s[0]);
      if |s| == 1 then Some(v)
      else if s[1] == '_' then Digits(s[2..], base, v)
      else Digits(s[1..], base, v)
  }

  function AfterPrefix(s: string): string
    requires |s| >= 2
  {
    if |s| > 2 && s[2] == '_' then s[3..] else s[2..]
  }

  predicate HasPrefix(s: string, lower: char, upper: char) {
    |s| >= 2 && s[0] == '0' && (s[1] == lower || s[1] == upper)
  }

  function Magnitude(s: string, base: nat): Option<nat>
    requires base == 0 || base == 16
  {
    if HasPrefix(s, 'x', 'X') then Digits(AfterPrefix(s), 16, 0)
    else if base == 16 then Digits(s, 16, 0)
    else if HasPrefix(s, 'o', 'O') then Digits(AfterPrefix(s), 8, 0)
    else if HasPrefix(s, 'b', 'B') then Digits(AfterPrefix(s), 2, 0)
    else
      var d := Digits(s, 10, 0);
      // A leading zero without a radix prefix is accepted only for zero itself.
      if d.Some? && s[0] == '0' && d.value != 0 then None else d
  }

  /** Python's `int(s, base)` for the two bases in use; `None` is the ValueError. */
  function PyInt(s: string, base: nat): Option<int>
    requires base == 0 || base == 16
  {
    var t := Strip(s);
    var neg := t != "" && t[0] == '-';
    var m := Magnitude(if t != "" && (t[0] == '-' || t[0] == '+') then t[1..] else t, base);
    match m
    case None => None
    case Some(v) => var n: int := v; Some(if neg then -n else n)
  }

  function HexDigit(n: nat): (c: char)
    requires n < 16
    ensures DigitVal(c) == n && !IsSpace(c) && c != '_'
  {
    "0123456789abcdef"[n]
  }

  /** Python's `f"{n:x}"`. */
  function ToHex(n: nat): (s: string)
    ensures s != ""
  {
    if n < 16 then [HexDigit(n)] else ToHex(n / 16) + [HexDigit(n % 16)]
  }

  /** Python's `f"{n:02x}"` for one byte. */
  function Hex2(n: nat): (s: string)
    requires n < 256
    ensures |s| == 2
  {
    [HexDigit(n / 16), HexDigit(n % 16)]
  }

  /** Lower-case hexadecimal digits and nothing else. */
  predicate IsHex(s: string) {
    s != "" && forall c <- s :: c in "0123456789abcdef"
  }

  /** Digits in that base and nothing else, so no underscore and no sign. */
  predicate AllBelow(s: string, base: nat) { s != "" && forall c <- s :: DigitVal(c) < base }

  lemma HexBelow(s: string)
    requires IsHex(s)
    ensures AllBelow(s, 16)
  {
    assert forall c :: c in "0123456789abcdef" ==> DigitVal(c) < 16;
  }

  lemma {:induction false} DigitsSnoc(s: string, c: char, base: nat, acc: nat)
    requires AllBelow(s, base) && DigitVal(c) < base <= 36
    ensures Digits(s, base, acc).Some?
    ensures Digits(s + [c], base, acc) == Some(Digits(s, base, acc).value * base + DigitVal(c))
  {
    hide DigitVal;
    assert DigitVal('_') == 99 by { NoUnderscore(); }
    var v := acc * base + DigitVal(s[0]);
    var t := s + [c];
    assert s[0] in s && t[0] == s[0];
    if |s| == 1 {
      assert t[1..] == [c];
      assert Digits([c], base, v) == Some(v * base + DigitVal(c));
    } else {
      assert t[1] == s[1] && s[1] in s;
      assert t[1..] == s[1..] + [c];
      DigitsSnoc(s[1..], c, base, v);
    }
  }

  lemma NoUnderscore()
    ensures DigitVal('_') == 99
  {
  }

  lemma {:induction false} ToHexDigits(n: nat)
    ensures IsHex(ToHex(n)) && Digits(ToHex(n), 16, 0) == Some(n)
  {
    if n < 16 {
    } else {
      ToHexDigits(n / 16);
      HexBelow(ToHex(n / 16));
      DigitsSnoc(ToHex(n / 16), HexDigit(n % 16), 16, 0);
    }
  }

  lemma HexHasNone(s: string, c: char)
    requires IsHex(s) && c !in "0123456789abcdef"
    ensures c !in s
  {
  }

  lemma StripHex(s: string)
    requires IsHex(s)
    ensures Strip(s) == s
  {
    assert s[0] in "0123456789abcdef" && s[|s| - 1] in "0123456789abcdef";
  }

  /** Hexadecimal text with leading zeros. */
  function Padded(n: nat, zeros: nat): string {
    if zeros == 0 then ToHex(n) else "0" + Padded(n, zeros - 1)
  }

  lemma {:induction false} PaddedDigits(n: nat, zeros: nat)
    ensures IsHex(Padded(n, zeros)) && Digits(Padded(n, zeros), 16, 0) == Some(n)
  {
    if zeros == 0 {
      ToHexDigits(n);
    } else {
      PaddedDigits(n, zeros - 1);
      var s := Padded(n, zeros);
      assert s[1..] == Padded(n, zeros - 1) && s[1] in Padded(n, zeros - 1);
    }
  }

  lemma PaddedRoundTrip(n: nat, zeros: nat)
    ensures IsHex(Padded(n, zeros)) && PyInt(Padded(n, zeros), 16) == Some(n)
  {
    PaddedDigits(n, zeros);
    HexIsDigits(Padded(n, zeros));
  }

  lemma HexIsDigits(s: string)
    requires IsHex(s)
    ensures Digits(s, 16, 0).Some? ==> PyInt(s, 16) == Some(Digits(s, 16, 0).value)
  {
    StripHex(s);
    assert s[0] in "0123456789abcdef";
    if |s| > 1 {
      assert s[1] in "0123456789abcdef";
    }
  }

  lemma Hex2RoundTrip(n: nat)
    requires n < 256
    ensures IsHex(Hex2(n)) && PyInt(Hex2(n), 16) == Some(n)
  {
    assert Hex2(n) == [HexDigit(n / 16)] + [HexDigit(n % 16)];
    DigitsSnoc([HexDigit(n / 16)], HexDigit(n % 16), 16, 0);
    HexIsDigits(Hex2(n));
  }

  // ---- printed integers ----

  /** Python's `str(n)` for a natural number. */
  function ToDecimal(n: nat): (s: string)
    ensures s != ""
  {
    if n < 10 then [HexDigit(n)] else ToDecimal(n / 10) + [HexDigit(n % 10)]
  }

  lemma {:induction false} ToDecimalDigits(n: nat)
    ensures AllBelow(ToDecimal(n), 10) && Digits(ToDecimal(n), 10, 0) == Some(n)
    ensures n > 0 ==> ToDecimal(n)[0] != '0'
  {
    if n < 10 {
    } else {
      ToDecimalDigits(n / 10);
      DigitsSnoc(ToDecimal(n / 10), HexDigit(n % 10), 10, 0);
      assert ToDecimal(n)[0] == ToDecimal(n / 10)[0];
    }
  }

  lemma BelowIsNoSpace(s: string, base: nat)
    requires AllBelow(s, base) && base <= 36
    ensures !IsSpace(s[0]) && !IsSpace(s[|s| - 1]) && s[0] != '-' && s[0] != '+'
    ensures |s| > 1 && base <= 16 ==> s[1] != 'x' && s[1] != 'X' && s[1] != '_'
    ensures |s| > 1 && base <= 10 ==> s[1] != 'o' && s[1] != 'O' && s[1] != 'b' && s[1] != 'B'
  {
    assert s[0] in s && s[|s| - 1] in s;
    assert |s| > 1 ==> s[1] in s;
  }

  /** How Python prints an integer: the sign, a radix prefix, the digits. */
  function Signed(n: int, prefix: string, digits: string): string { (if n < 0 then "-" else "") + prefix + digits }

  function Abs(n: int): nat { if n < 0 then -n else n }

  lemma SignedStrip(n: int, body: string)
    requires body != "" && !IsSpace(body[0]) && !IsSpace(body[|body| - 1]) && body[0] != '-' && body[0] != '+'
    ensures var t := Signed(n, "", body); Strip(t) == t && t != "" && (n < 0 <==> t[0] == '-') && t[0] != '+'
    ensures n < 0 ==> Signed(n, "", body)[1..] == body
    ensures n >= 0 ==> Signed(n, "", body) == body
  {
    var t := Signed(n, "", body);
    assert t[|t| - 1] == body[|body| - 1] && t[0] == if n < 0 then '-' else body[0];
    assert LStrip(t) == t;
  }

  lemma SignedRead(n: int, body: string, base: nat)
    requires base == 0 || base == 16
    requires body != "" && !IsSpace(body[0]) && !IsSpace(body[|body| - 1]) && body[0] != '-' && body[0] != '+'
    requires Magnitude(body, base) == Some(Abs(n))
    ensures PyInt(Signed(n, "", body), base) == Some(n)
  {
    SignedStrip(n, body);
    hide Magnitude, Strip, Signed, IsSpace;
  }

  lemma DecimalMagnitude(s: string)
    requires AllBelow(s, 10) && (s[0] == '0' ==> Digits(s, 10, 0) == Some(0))
    ensures Magnitude(s, 0) == Digits(s, 10, 0)
  {
    BelowIsNoSpace(s, 10);
    hide Digits, DigitVal;
  }

  /** Every integer printed in decimal is read back, sign included. */
  lemma DecimalRead(n: int)
    ensures PyInt(Signed(n, "", ToDecimal(Abs(n))), 0) == Some(n)
  {
    hide PyInt, Signed, Magnitude, Digits, ToDecimal, DigitVal;
    var body := ToDecimal(Abs(n));
    ToDecimalDigits(Abs(n));
    BelowIsNoSpace(body, 10);
    DecimalMagnitude(body);
    SignedRead(n, body, 0);
  }

  lemma HexMagnitude(h: string)
    requires AllBelow(h, 16)
    ensures Magnitude("0x" + h, 0) == Digits(h, 16, 0) && Magnitude(h, 16) == Digits(h, 16, 0)
  {
    BelowIsNoSpace(h, 16);
    assert h[0] in h;
    assert ("0x" + h)[2..] == h;
    hide Digits;
  }

  /** Every integer printed in hexadecimal is read back, with the radix prefix or in base 16, sign included. */
  lemma HexRead(n: int)
    ensures PyInt(Signed(n, "0x", ToHex(Abs(n))), 0) == Some(n)
    ensures PyInt(Signed(n, "", ToHex(Abs(n))), 16) == Some(n)
  {
    var h := ToHex(Abs(n));
    ToHexDigits(Abs(n));
    HexBelow(h);
    BelowIsNoSpace(h, 16);
    HexMagnitude(h);
    var body := "0x" + h;
    assert body[|body| - 1] == h[|h| - 1];
    assert Signed(n, "0x", h) == Signed(n, "", body);
    hide PyInt, Signed, Magnitude, Digits, ToHex, DigitVal;
    SignedRead(n, body, 0);
    SignedRead(n, h, 16);
  }

  // ---- white space ----

  /** What `str.strip` takes for white space up to U+00FF. */
  const SPACES: string := "\t\n\U{0b}\U{0c}\r\U{1c}\U{1d}\U{1e}\U{1f} \U{85}\U{a0}"

  lemma {:induction false} LStripSpaces(a: string, t: string)
    requires forall i :: 0 <= i < |a| ==> a[i] in SPACES
    ensures LStrip(a + t) == LStrip(t)
  {
    if a == "" {
      assert a + t == t;
    } else {
      assert IsSpace(a[0]);
      assert (a + t)[1..] == a[1..] + t;
      LStripSpaces(a[1..], t);
    }
  }

  lemma {:induction false} RStripSpaces(t: string, b: string)
    requires forall i :: 0 <= i < |b| ==> b[i] in SPACES
    ensures RStrip(t + b) == RStrip(t)
  {
    if b == "" {
      assert t + b == t;
    } else {
      var init := b[..|b| - 1];
      assert IsSpace(b[|b| - 1]);
      assert (t + b)[..|t + b| - 1] == t + init;
      RStripSpaces(t, init);
    }
  }

  lemma {:induction false} StripBehind(s: string, b: string)
    requires forall i :: 0 <= i < |b| ==> b[i] in SPACES
    ensures Strip(s + b) == Strip(s)
  {
    if s == "" {
      LStripSpaces(b, "");
      assert b + "" == b && s + b == b;
    } else if IsSpace(s[0]) {
      assert (s + b)[1..] == s[1..] + b;
      StripBehind(s[1..], b);
    } else {
      RStripSpaces(s, b);
    }
  }

  /** White space around a number makes no difference. */
  lemma SpacedRead(a: string, s: string, b: string, base: nat)
    requires base == 0 || base == 16
    requires forall i :: 0 <= i < |a| ==> a[i] in SPACES
    requires forall i :: 0 <= i < |b| ==> b[i] in SPACES
    ensures PyInt(a + s + b, base) == PyInt(s, base)
  {
    Associate(a, s, b);
    LStripSpaces(a, s + b);
    StripBehind(s, b);
  }
}
