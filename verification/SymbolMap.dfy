/** The symbol table: a sorted index searched by bisection beside a dictionary of exact starts, against
    a scan of the whole table. */
module Symbols {
  import opened Text

  datatype Symbol = Symbol(addr: int, size: int, name: string)

  /** What the line parser makes of one line of the map file. */
  datatype Line = Ignored | Malformed | Entry(symbol: Symbol)

  datatype Hit = Hit(symbol: Symbol, offset: int)

  function End(s: Symbol): int { s.addr + if s.size > 0 then s.size else 1 }

  predicate Contains(s: Symbol, addr: int) { s.addr <= addr < End(s) }

  // ---- parsing ----

  predicate HasKey(syms: seq<Symbol>, s: Symbol) { exists t <- syms :: t.addr == s.addr && t.name == s.name }

  /** The entries in file order, repetitions of an (address, name) pair dropped. */
  function Parsed(lines: seq<Line>): seq<Symbol> {
    if lines == [] then []
    else
      var k := |lines| - 1;
      var before := Parsed(lines[..k]);
      if lines[k].Entry? && !HasKey(before, lines[k].symbol) then before + [lines[k].symbol] else before
  }

  function Skipped(lines: seq<Line>): nat {
    if lines == [] then 0 else Skipped(lines[..|lines| - 1]) + if lines[|lines| - 1].Malformed? then 1 else 0
  }

  /** Every malformed line is counted, and no other one. */
  lemma {:induction false} SkippedExactly(lines: seq<Line>)
    ensures Skipped(lines) == |set k | 0 <= k < |lines| && lines[k] == Malformed|
  {
    var bad := set k | 0 <= k < |lines| && lines[k] == Malformed;
    if lines == [] {
      assert bad == {};
    } else {
      var n := |lines| - 1;
      var before := set k | 0 <= k < n && lines[..n][k] == Malformed;
      SkippedExactly(lines[..n]);
      assert before == set k | 0 <= k < |lines[..n]| && lines[..n][k] == Malformed;
      assert bad == before + if lines[n] == Malformed then {n} else {};
    }
  }

  /** An entry survives exactly when no earlier entry has its address and name; nothing else is added. */
  lemma {:induction false} ParsedExactly(lines: seq<Line>, s: Symbol)
    ensures s in Parsed(lines) <==> exists k :: 0 <= k < |lines| && FirstOfKey(lines, k, s)
    ensures forall k :: 0 <= k < |lines| && lines[k] == Entry(s) ==>
      (FirstOfKey(lines, k, s) <==>
        forall j :: 0 <= j < k && lines[j].Entry? ==> lines[j].symbol.addr != s.addr || lines[j].symbol.name != s.name)
  {
    if lines == [] {
    } else {
      var k := |lines| - 1;
      ParsedExactly(lines[..k], s);
      if lines[k] == Entry(s) {
        KeysParsed(lines[..k], s);
      }
      if s in Parsed(lines[..k]) {
        var j :| 0 <= j < k && FirstOfKey(lines[..k], j, s);
        assert FirstOfKey(lines, j, s);
      } else if s in Parsed(lines) {
        assert FirstOfKey(lines, k, s);
      } else {
        forall j | 0 <= j < |lines| ensures !FirstOfKey(lines, j, s) {
          assert j < k ==> FirstOfKey(lines, j, s) == FirstOfKey(lines[..k], j, s);
        }
      }
    }
  }

  predicate SameKey(l: Line, s: Symbol) { l.Entry? && l.symbol.addr == s.addr && l.symbol.name == s.name }

  predicate FirstOfKey(lines: seq<Line>, k: int, s: Symbol)
    requires 0 <= k < |lines|
  {
    lines[k] == Entry(s) && forall j :: 0 <= j < k ==> !SameKey(lines[j], s)
  }

  lemma {:induction false} KeysParsed(lines: seq<Line>, s: Symbol)
    ensures HasKey(Parsed(lines), s) <==> exists j :: 0 <= j < |lines| && SameKey(lines[j], s)
  {
    if lines == [] {
    } else {
      var k := |lines| - 1;
      var before := Parsed(lines[..k]);
      KeysParsed(lines[..k], s);
      if lines[k].Entry? {
        assert HasKey(before + [lines[k].symbol], s) <==> HasKey(before, s) || SameKey(lines[k], s);
        assert SameKey(lines[k], s) ==> HasKey(before, lines[k].symbol) == HasKey(before, s);
      }
      assert forall j :: 0 <= j < k ==> lines[..k][j] == lines[j];
    }
  }

  // ---- the order ----

  /** The sort key (addr, -size) of `a` is at most that of `b`. */
  predicate AtMost(a: Symbol, b: Symbol) { a.addr < b.addr || (a.addr == b.addr && a.size >= b.size) }

  predicate Ordered(s: seq<Symbol>) { forall i, j :: 0 <= i < j < |s| ==> AtMost(s[i], s[j]) }

  function Insert(s: seq<Symbol>, x: Symbol): seq<Symbol> {
    if s == [] || AtMost(s[|s| - 1], x) then s + [x] else Insert(s[..|s| - 1], x) + [s[|s| - 1]]
  }

  /** The stable sort of the table. */
  function Sorted(s: seq<Symbol>): seq<Symbol> {
    if s == [] then [] else Insert(Sorted(s[..|s| - 1]), s[|s| - 1])
  }

  /** The symbols with one key, in the order they stand. */
  function OfKey(s: seq<Symbol>, addr: int, size: int): seq<Symbol> {
    if s == [] then []
    else
      var x := s[|s| - 1];
      OfKey(s[..|s| - 1], addr, size) + if x.addr == addr && x.size == size then [x] else []
  }

  lemma {:induction false} InsertIs(s: seq<Symbol>, x: Symbol)
    requires Ordered(s)
    ensures Ordered(Insert(s, x)) && multiset(Insert(s, x)) == multiset(s) + multiset{x}
  {
    if s != [] && !AtMost(s[|s| - 1], x) {
      hide Ordered;
      var init, last := s[..|s| - 1], s[|s| - 1];
      assert Ordered(init) && forall y <- init :: AtMost(y, last) by { OrderedInit(s); }
      InsertIs(init, x);
      assert s == init + [last];
      forall y <- Insert(init, x) ensures AtMost(y, last) {
        assert y in multiset(Insert(init, x));
        assert y in init || y == x;
      }
      OrderedSnoc(Insert(init, x), last);
    } else {
      assert Ordered(s + [x]);
    }
  }

  lemma OrderedInit(s: seq<Symbol>)
    requires Ordered(s) && s != []
    ensures Ordered(s[..|s| - 1])
    ensures var last := s[|s| - 1]; forall y <- s[..|s| - 1] :: AtMost(y, last)
  {
  }

  lemma OrderedSnoc(s: seq<Symbol>, x: Symbol)
    requires Ordered(s) && forall y <- s :: AtMost(y, x)
    ensures Ordered(s + [x])
  {
  }

  lemma {:induction false} InsertStable(s: seq<Symbol>, x: Symbol, addr: int, size: int)
    ensures OfKey(Insert(s, x), addr, size) == OfKey(s + [x], addr, size)
  {
    assert (s + [x])[..|s|] == s;
    if s != [] && !AtMost(s[|s| - 1], x) {
      var init, last := s[..|s| - 1], s[|s| - 1];
      InsertStable(init, x, addr, size);
      assert (init + [x])[..|init|] == init;
      assert (Insert(init, x) + [last])[..|Insert(init, x)|] == Insert(init, x);
    }
  }

  lemma OfKeySnoc(s: seq<Symbol>, x: Symbol, addr: int, size: int)
    ensures OfKey(s + [x], addr, size) == OfKey(s, addr, size) + if x.addr == addr && x.size == size then [x] else []
  {
    assert (s + [x])[..|s|] == s;
  }

  /** The sort orders the table, keeps its symbols, and keeps symbols of one key in file order. */
  lemma {:induction false} SortedIs(s: seq<Symbol>)
    ensures Ordered(Sorted(s)) && multiset(Sorted(s)) == multiset(s)
    ensures forall addr, size :: OfKey(Sorted(s), addr, size) == OfKey(s, addr, size)
  {
    if s == [] {
    } else {
      hide Ordered, Insert, OfKey;
      var init, last := s[..|s| - 1], s[|s| - 1];
      SortedIs(init);
      InsertIs(Sorted(init), last);
      assert s == init + [last];
      forall addr, size ensures OfKey(Sorted(s), addr, size) == OfKey(s, addr, size) {
        InsertStable(Sorted(init), last, addr, size);
        OfKeySnoc(Sorted(init), last, addr, size);
        OfKeySnoc(init, last, addr, size);
      }
    }
  }

  // ---- lookup, by scanning ----

  /** The last symbol starting at or below `addr`, if it contains `addr`. */
  function Found(syms: seq<Symbol>, addr: int): Option<Hit> {
    if syms == [] then None
    else
      var x := syms[|syms| - 1];
      if x.addr > addr then Found(syms[..|syms| - 1], addr)
      else if Contains(x, addr) then Some(Hit(x, addr - x.addr)) else None
  }

  lemma {:induction false} FoundAt(syms: seq<Symbol>, addr: int, i: nat)
    requires i <= |syms| && forall j :: i <= j < |syms| ==> syms[j].addr > addr
    requires i > 0 ==> syms[i - 1].addr <= addr
    ensures Found(syms, addr)
      == if i > 0 && Contains(syms[i - 1], addr) then Some(Hit(syms[i - 1], addr - syms[i - 1].addr)) else None
  {
    if i >= |syms| {
    } else {
      FoundAt(syms[..|syms| - 1], addr, i);
    }
  }

  // ---- the index ----

  function Addrs(syms: seq<Symbol>): (r: seq<int>)
    ensures |r| == |syms| && forall i :: 0 <= i < |r| ==> r[i] == syms[i].addr
  {
    seq(|syms|, i requires 0 <= i < |syms| => syms[i].addr)
  }

  /** Start address to symbol; a later symbol overwrites an earlier one. */
  function ExactOf(syms: seq<Symbol>): map<int, Symbol> {
    if syms == [] then map[] else ExactOf(syms[..|syms| - 1])[syms[|syms| - 1].addr := syms[|syms| - 1]]
  }

  lemma {:induction false} ExactKeys(syms: seq<Symbol>, addr: int)
    ensures addr in ExactOf(syms) <==> exists s <- syms :: s.addr == addr
    ensures addr in ExactOf(syms) ==> ExactOf(syms)[addr].addr == addr && ExactOf(syms)[addr] in syms
  {
    if syms == [] {
    } else {
      var init := syms[..|syms| - 1];
      ExactKeys(init, addr);
      assert syms == init + [syms[|syms| - 1]];
    }
  }

  /** The dictionary and the index name the same symbol. */
  lemma {:induction false} ExactFound(syms: seq<Symbol>, addr: int)
    requires Ordered(syms) && addr in ExactOf(syms)
    ensures Found(syms, addr) == Some(Hit(ExactOf(syms)[addr], 0))
  {
    var init, last := syms[..|syms| - 1], syms[|syms| - 1];
    ExactKeys(syms, addr);
    var s :| s in syms && s.addr == addr;
    assert s == last || AtMost(s, last);
    if last.addr != addr {
      ExactFound(init, addr);
    }
  }

  /** `bisect_right`. */
  method BisectRight(a: seq<int>, x: int) returns (i: nat)
    requires forall j, k :: 0 <= j < k < |a| ==> a[j] <= a[k]
    ensures i <= |a| && (forall j :: 0 <= j < i ==> a[j] <= x) && forall j :: i <= j < |a| ==> x < a[j]
  {
    i := 0;
    var hi := |a|;
    while i < hi
      invariant i <= hi <= |a|
      invariant forall j :: 0 <= j < i ==> a[j] <= x
      invariant forall j :: hi <= j < |a| ==> x < a[j]
    {
      var mid := (i + hi) / 2;
      if x < a[mid] {
        hi := mid;
      } else {
        i := mid + 1;
      }
    }
  }

  class SymbolMap {
    var symbols: seq<Symbol>
    var sortedAddrs: seq<int>
    var exact: map<int, Symbol>
    var skipped: nat

    ghost predicate Valid()
      reads this
    {
      Ordered(symbols) && sortedAddrs == Addrs(symbols) && exact == ExactOf(symbols)
    }

    constructor ()
      ensures Valid() && symbols == [] && skipped == 0
    {
      symbols, sortedAddrs, exact, skipped := [], [], map[], 0;
    }

    method Load(lines: seq<Line>) returns (count: nat)
      modifies this
      ensures Valid() && symbols == Sorted(Parsed(lines)) && skipped == Skipped(lines) && count == |symbols|
      ensures forall i, j :: 0 <= i < j < |symbols| ==>
        symbols[i].addr < symbols[j].addr || (symbols[i].addr == symbols[j].addr && symbols[i].size >= symbols[j].size)
    {
      var syms, bad := ParseText(lines);
      SortedIs(syms);
      symbols := Sorted(syms);
      sortedAddrs := Addrs(symbols);
      exact := ExactOf(symbols);
      skipped := bad;
      count := |symbols|;
    }

    method Clear()
      modifies this
      ensures Valid() && symbols == [] && skipped == 0
    {
      symbols, sortedAddrs, exact, skipped := [], [], map[], 0;
    }

    method Lookup(addr: int) returns (r: Option<Hit>)
      requires Valid()
      ensures r == Found(symbols, addr)
      ensures r.Some? ==>
        var s := r.value.symbol;
        s in symbols && r.value.offset == addr - s.addr && 0 <= r.value.offset < if s.size > 0 then s.size else 1
    {
      if symbols == [] {
        return None;
      }
      if addr in exact {
        ExactFound(symbols, addr);
        ExactKeys(symbols, addr);
        return Some(Hit(exact[addr], addr - exact[addr].addr));
      }
      var i := BisectRight(sortedAddrs, addr);
      FoundAt(symbols, addr, i);
      if i == 0 {
        return None;
      }
      var sym := symbols[i - 1];
      if sym.addr <= addr < End(sym) {
        return Some(Hit(sym, addr - sym.addr));
      }
      return None;
    }
  }

  /** `_parse_text`, over classified lines. */
  method ParseText(lines: seq<Line>) returns (syms: seq<Symbol>, skipped: nat)
    ensures syms == Parsed(lines) && skipped == Skipped(lines)
  {
    syms, skipped := [], 0;
    var seen: set<(int, string)> := {};
    for k := 0 to |lines|
      invariant syms == Parsed(lines[..k]) && skipped == Skipped(lines[..k])
      invariant forall a, n :: (a, n) in seen <==> HasKey(syms, Symbol(a, 0, n))
    {
      assert lines[..k + 1][..k] == lines[..k];
      match lines[k]
      case Ignored =>
      case Malformed =>
        skipped := skipped + 1;
      case Entry(sym) =>
        assert HasKey(syms, sym) <==> HasKey(syms, Symbol(sym.addr, 0, sym.name));
        if (sym.addr, sym.name) !in seen {
          seen := seen + {(sym.addr, sym.name)};
          syms := syms + [sym];
        }
    }
    assert lines[..|lines|] == lines;
  }

  // ---- what an answer means ----

  /** The candidate for an address: highest start not above it, then smallest size, then last in the
      file; the answer is the candidate when it contains the address and nothing otherwise. */
  lemma Candidate(parsed: seq<Symbol>, addr: int) returns (x: Symbol)
    requires exists s <- parsed :: s.addr <= addr
    ensures x in parsed && x.addr <= addr
    ensures forall s <- parsed :: s.addr <= addr ==> s.addr < x.addr || (s.addr == x.addr && s.size >= x.size)
    ensures var ofKey := OfKey(parsed, x.addr, x.size); ofKey != [] && ofKey[|ofKey| - 1] == x
    ensures Found(Sorted(parsed), addr)
      == if addr < x.addr + (if x.size > 0 then x.size else 1) then Some(Hit(x, addr - x.addr)) else None
  {
    hide Sorted, OfKey, Ordered;
    var syms := Sorted(parsed);
    SortedIs(parsed);
    SameElements(parsed);
    var i := LastAtOrBelow(syms, addr);
    FoundAt(syms, addr, i + 1);
    x := syms[i];
    forall s <- parsed | s.addr <= addr ensures AtMost(s, x) {
      UpTo(syms, i, s, addr);
    }
    LastOfKey(syms, i);
  }

  lemma UpTo(syms: seq<Symbol>, i: nat, s: Symbol, addr: int)
    requires Ordered(syms) && i < |syms| && s in syms && s.addr <= addr
    requires forall j :: i < j < |syms| ==> syms[j].addr > addr
    ensures AtMost(s, syms[i])
  {
  }

  lemma SameElements(parsed: seq<Symbol>)
    ensures forall s :: s in Sorted(parsed) <==> s in parsed
  {
    hide Sorted;
    SortedIs(parsed);
    forall s ensures s in Sorted(parsed) <==> s in parsed {
      assert s in multiset(Sorted(parsed)) <==> s in multiset(parsed);
    }
  }

  lemma LastAtOrBelow(syms: seq<Symbol>, addr: int) returns (i: nat)
    requires Ordered(syms) && exists s <- syms :: s.addr <= addr
    ensures i < |syms| && syms[i].addr <= addr && forall j :: i < j < |syms| ==> syms[j].addr > addr
  {
    i := |syms| - 1;
    while syms[i].addr > addr
      invariant i < |syms| && forall j :: i < j < |syms| ==> syms[j].addr > addr
      decreases i
    {
      var s :| s in syms && s.addr <= addr;
      assert i > 0;
      i := i - 1;
    }
  }

  lemma {:induction false} LastOfKey(syms: seq<Symbol>, i: nat)
    requires i < |syms|
    requires forall j :: i < j < |syms| ==> syms[j].addr != syms[i].addr
    ensures var ofKey := OfKey(syms, syms[i].addr, syms[i].size); ofKey != [] && ofKey[|ofKey| - 1] == syms[i]
  {
    if i >= |syms| - 1 {
    } else {
      LastOfKey(syms[..|syms| - 1], i);
    }
  }

  predicate Disjoint(syms: seq<Symbol>) {
    forall i, j :: 0 <= i < j < |syms| ==> End(syms[i]) <= syms[j].addr || End(syms[j]) <= syms[i].addr
  }

  /** On disjoint ranges the lookup gives the one symbol that contains the address, and nothing exactly
      when none does. */
  lemma DisjointLookup(parsed: seq<Symbol>, addr: int)
    requires Disjoint(parsed)
    ensures forall s <- parsed :: Contains(s, addr) ==> Found(Sorted(parsed), addr) == Some(Hit(s, addr - s.addr))
    ensures Found(Sorted(parsed), addr).None? <==> forall s <- parsed :: !Contains(s, addr)
  {
    hide Sorted, Found, OfKey, Disjoint;
    if s :| s in parsed && s.addr <= addr {
      var x := Candidate(parsed, addr);
      forall t <- parsed | Contains(t, addr) ensures t == x {
        Overlapping(parsed, t, x, addr);
      }
    } else {
      NothingBelow(parsed, addr);
    }
  }

  lemma Overlapping(syms: seq<Symbol>, s: Symbol, t: Symbol, addr: int)
    requires Disjoint(syms) && s in syms && t in syms
    requires Contains(s, addr) && s.addr <= t.addr <= addr
    ensures s == t
  {
  }

  lemma NothingBelow(parsed: seq<Symbol>, addr: int)
    requires forall s <- parsed :: s.addr > addr
    ensures Found(Sorted(parsed), addr).None?
  {
    SameElements(parsed);
    FoundAt(Sorted(parsed), addr, 0);
  }

  // ---- overlapping ranges ----

  /** Symbol `i` outlives symbol `k`, the last of its start, with a gap before the next start. */
  predicate Hides(syms: seq<Symbol>, i: nat, k: nat)
    requires i < k < |syms|
  {
    End(syms[k]) < End(syms[i]) && (k + 1 < |syms| ==> End(syms[k]) < syms[k + 1].addr)
  }

  predicate NothingHidden(syms: seq<Symbol>) {
    forall i: nat, k: nat :: i < k < |syms| ==> !Hides(syms, i, k)
  }

  lemma Resolved(syms: seq<Symbol>, addr: int)
    requires Ordered(syms) && NothingHidden(syms) && exists s <- syms :: Contains(s, addr)
    ensures Found(syms, addr).Some?
  {
    hide Found;
    var i :| 0 <= i < |syms| && Contains(syms[i], addr);
    var k := LastAtOrBelow(syms, addr);
    FoundAt(syms, addr, k + 1);
    assert i < k ==> !Hides(syms, i, k);
  }

  lemma Unresolved(syms: seq<Symbol>, i: nat, k: nat)
    requires Ordered(syms) && i < k < |syms| && Hides(syms, i, k)
    ensures Contains(syms[i], End(syms[k])) && Found(syms, End(syms[k])).None?
  {
  }

  /** An address inside some symbol is always resolved if and only if no symbol outlives a later one. */
  lemma HiddenExactly(syms: seq<Symbol>)
    requires Ordered(syms)
    ensures NothingHidden(syms) <==>
      forall addr :: (exists s <- syms :: Contains(s, addr)) ==> Found(syms, addr).Some?
  {
    hide Found, Contains, Ordered, Hides;
    if NothingHidden(syms) {
      forall addr | exists s <- syms :: Contains(s, addr) ensures Found(syms, addr).Some? {
        Resolved(syms, addr);
      }
    } else {
      var i: nat, k: nat :| i < k < |syms| && Hides(syms, i, k);
      Unresolved(syms, i, k);
      assert syms[i] in syms;
    }
  }

  /** `outer` spans 0x100 to 0x1ff and holds `inner`, 0x140 to 0x14f: past the end of `inner`,
      addresses of `outer` are not resolved. */
  lemma NestedHidesOuter(addr: int)
    requires 0x150 <= addr < 0x200
    ensures var outer, inner := Symbol(0x100, 0x100, "outer"), Symbol(0x140, 0x10, "inner");
      Contains(outer, addr) && Found(Sorted([outer, inner]), addr).None? && !NothingHidden(Sorted([outer, inner]))
  {
    var outer, inner := Symbol(0x100, 0x100, "outer"), Symbol(0x140, 0x10, "inner");
    assert [outer, inner][..1] == [outer] && [outer][..0] == [];
    assert Sorted([outer]) == [outer];
    var syms := Sorted([outer, inner]);
    assert syms == [outer, inner];
    FoundAt(syms, addr, 2);
    assert Hides(syms, 0, 1);
  }
}
