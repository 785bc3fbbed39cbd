/** Searching a memory region chunk by chunk, against testing every start address. */
module Search {
  import opened Text
  import opened Routing

  datatype SearchError = EmptyPattern | UnknownRegion
  datatype Result = Hits(addrs: seq<int>) | Failed(error: SearchError)

  const CHUNK := 4 * 1024 * 1024

  predicate OccursAt(mem: seq<Byte>, pat: seq<Byte>, s: nat) {
    s + |pat| <= |mem| && mem[s..s + |pat|] == pat
  }

  /** The naive search: every start address, occurrences ending at or before `end`. */
  function Occurrences(base: int, mem: seq<Byte>, pat: seq<Byte>, end: nat): seq<int>
    requires pat != [] && end <= |mem|
  {
    if end < |pat| then []
    else
      var here := if OccursAt(mem, pat, end - |pat|) then [base + end - |pat|] else [];
      Occurrences(base, mem, pat, end - 1) + here
  }

  /** `len` bytes from `s` touch at most two chunks. */
  predicate InTwoChunks(s: nat, len: nat, chunk: nat)
    requires len > 0 && chunk > 0
  {
    (s + len - 1) / chunk <= s / chunk + 1
  }

  /** The occurrences that touch at most two chunks. */
  function Reported(base: int, mem: seq<Byte>, pat: seq<Byte>, chunk: nat, end: nat): seq<int>
    requires pat != [] && chunk > 0 && end <= |mem|
  {
    if end < |pat| then []
    else
      var s := end - |pat|;
      var here := if OccursAt(mem, pat, s) && InTwoChunks(s, |pat|, chunk) then [base + s] else [];
      Reported(base, mem, pat, chunk, end - 1) + here
  }

  predicate Ascending(s: seq<int>) { forall i, j :: 0 <= i < j < |s| ==> s[i] < s[j] }

  lemma AscendingSnoc(s: seq<int>, a: int)
    requires Ascending(s) && forall b <- s :: b < a
    ensures Ascending(s + [a])
  {
    assert forall i :: 0 <= i < |s| ==> s[i] in s;
  }

  /** The naive search lists exactly the occurrences. */
  lemma {:induction false} OccurrencesExactly(base: int, mem: seq<Byte>, pat: seq<Byte>, end: nat, a: int)
    requires pat != [] && end <= |mem|
    ensures a in Occurrences(base, mem, pat, end) <==> 0 <= a - base <= end - |pat| && OccursAt(mem, pat, a - base)
  {
    hide OccursAt;
    if end < |pat| {
    } else {
      OccurrencesExactly(base, mem, pat, end - 1, a);
    }
  }

  /** It lists them strictly ascending. */
  lemma {:induction false} OccurrencesAscend(base: int, mem: seq<Byte>, pat: seq<Byte>, end: nat)
    requires pat != [] && end <= |mem|
    ensures Ascending(Occurrences(base, mem, pat, end))
  {
    if end < |pat| {
    } else {
      hide OccursAt, Ascending;
      OccurrencesAscend(base, mem, pat, end - 1);
      var less := Occurrences(base, mem, pat, end - 1);
      if OccursAt(mem, pat, end - |pat|) {
        forall b <- less ensures b < base + end - |pat| {
          OccurrencesExactly(base, mem, pat, end - 1, b);
        }
        AscendingSnoc(less, base + end - |pat|);
      } else {
        assert less + [] == less;
      }
    }
  }

  // ---- the chunked scan ----

  /** Python's `buf.find(pat, start)`. */
  method Find(buf: seq<Byte>, pat: seq<Byte>, start: nat) returns (found: Option<nat>)
    requires pat != []
    ensures found.Some? ==> start <= found.value && OccursAt(buf, pat, found.value)
    ensures forall j :: start <= j < (if found.Some? then found.value else |buf|) ==> !OccursAt(buf, pat, j)
  {
    var i := start;
    while i + |pat| <= |buf|
      invariant start <= i
      invariant forall j :: start <= j < i ==> !OccursAt(buf, pat, j)
    {
      if buf[i..i + |pat|] == pat {
        return Some(i);
      }
      i := i + 1;
    }
    return None;
  }

  lemma DivBounds(x: nat, q: nat, c: nat)
    requires c > 0
    ensures x < (q + 1) * c ==> x / c <= q
    ensures x >= q * c ==> x / c >= q
  {
    var d := x / c;
    assert d * c <= x < (d + 1) * c;
    if d > q {
      assert d * c >= (q + 1) * c;
    } else if d < q {
      assert (d + 1) * c <= q * c;
    }
  }

  /** The same bounds with the next chunk's start written as a sum. */
  lemma DivNext(x: nat, q: nat, c: nat)
    requires c > 0
    ensures (q + 1) * c == q * c + c && (q + 2) * c == q * c + 2 * c
    ensures x < q * c + c ==> x / c <= q
    ensures x >= q * c ==> x / c >= q
  {
    DivBounds(x, q, c);
  }

  /** Nothing is reported among the occurrences that end after `from` and at or before `to`. */
  lemma {:induction false} NothingBetween(base: int, mem: seq<Byte>, pat: seq<Byte>, chunk: nat, from: nat, to: nat)
    requires pat != [] && chunk > 0 && from <= to <= |mem|
    requires forall s: nat :: from < s + |pat| <= to && OccursAt(mem, pat, s) ==> !InTwoChunks(s, |pat|, chunk)
    ensures Reported(base, mem, pat, chunk, from) == Reported(base, mem, pat, chunk, to)
  {
    if from == to {
    } else {
      NothingBetween(base, mem, pat, chunk, from, to - 1);
    }
  }

  lemma SameBytes(mem: seq<Byte>, pat: seq<Byte>, from: nat, to: nat, i: nat)
    requires from <= to <= |mem|
    ensures OccursAt(mem[from..to], pat, i) <==> from + i + |pat| <= to && OccursAt(mem, pat, from + i)
  {
    var part := mem[from..to];
    if from + i + |pat| <= to {
      var a, b := part[i..i + |pat|], mem[from + i..from + i + |pat|];
      assert forall k :: 0 <= k < |pat| ==> a[k] == b[k];
      assert a == b;
    }
  }

  /** Occurrences from before the kept tail that end in the current chunk span three chunks or more. */
  lemma BeforeTail(s: nat, len: nat, chunk: nat, q: nat)
    requires len > 0 && chunk > 0 && q > 0 && s + chunk < q * chunk < s + len
    ensures !InTwoChunks(s, len, chunk)
  {
    assert q > 1;
    DivNext(s, q - 2, chunk);
    DivNext(s + len - 1, q, chunk);
  }

  /** Occurrences inside the kept tail and the current chunk touch those two chunks only. */
  lemma FromTail(s: nat, len: nat, chunk: nat, q: nat)
    requires len > 0 && chunk > 0 && q * chunk <= s + chunk && s + len <= q * chunk + chunk
    ensures InTwoChunks(s, len, chunk)
  {
    DivNext(s + len - 1, q, chunk);
    if q > 0 {
      DivNext(s, q - 1, chunk);
    }
  }

  lemma NotFoundIn(mem: seq<Byte>, pat: seq<Byte>, from: nat, to: nat, start: nat, limit: nat, s: nat)
    requires from <= to <= |mem| && pat != [] && limit <= to - from
    requires forall j :: start <= j < limit ==> !OccursAt(mem[from..to], pat, j)
    requires from + start <= s < from + limit && s + |pat| <= to
    ensures !OccursAt(mem, pat, s)
  {
    SameBytes(mem, pat, from, to, s - from);
    assert !OccursAt(mem[from..to], pat, s - from);
  }

  /** One chunk: every occurrence that lies in the kept tail `prevTail` of the last chunk and this one, by
      repeated `find`. */
  method ScanChunk(base: int, mem: seq<Byte>, pat: seq<Byte>, chunk: nat, ghost q: nat,
                   cursor: nat, prevTail: seq<Byte>, n: nat, before: seq<int>)
    returns (hits: seq<int>)
    requires pat != [] && chunk > 0 && 0 < n <= chunk && cursor == q * chunk && cursor + n <= |mem|
    requires |prevTail| == (if q == 0 then 0 else if |pat| - 1 <= chunk then |pat| - 1 else chunk) <= cursor
    requires prevTail == mem[cursor - |prevTail|..cursor]
    requires before == Reported(base, mem, pat, chunk, cursor)
    ensures hits == Reported(base, mem, pat, chunk, cursor + n)
  {
    hide OccursAt, InTwoChunks, Reported;
    var buf := prevTail + mem[cursor..cursor + n];
    ghost var first, last := cursor - |prevTail|, cursor + n;
    assert buf == mem[first..last];
    hits := before;
    var start := 0;
    ghost var done := Least(last, first + |pat| - 1);
    forall s: nat | cursor < s + |pat| <= done ensures !InTwoChunks(s, |pat|, chunk) {
      BeforeTail(s, |pat|, chunk, q);
    }
    NothingBetween(base, mem, pat, chunk, cursor, done);
    while true
      invariant start <= |buf| && done == Least(last, first + start + |pat| - 1)
      invariant hits == Reported(base, mem, pat, chunk, done)
      decreases |buf| - start
    {
      var i := Find(buf, pat, start);
      ghost var limit := if i.Some? then i.value else |buf|;
      ghost var upto := if i.Some? then first + limit + |pat| - 1 else last;
      FoundFits(buf, pat, i);
      forall s: nat | done < s + |pat| <= upto ensures !OccursAt(mem, pat, s) {
        NotFoundIn(mem, pat, first, last, start, limit, s);
      }
      NothingBetween(base, mem, pat, chunk, done, upto);
      if i.None? {
        return;
      }
      ghost var s := first + i.value;
      SameBytes(mem, pat, first, last, i.value);
      FromTail(s, |pat|, chunk, q);
      ReportedSnoc(base, mem, pat, chunk, s);
      hits := hits + [base + cursor + (i.value - |prevTail|)];
      start := i.value + 1;
      done := s + |pat|;
    }
  }

  function Least(a: int, b: int): int { if a <= b then a else b }

  lemma FoundFits(buf: seq<Byte>, pat: seq<Byte>, i: Option<nat>)
    requires i.Some? ==> OccursAt(buf, pat, i.value)
    ensures i.Some? ==> i.value + |pat| <= |buf|
  {
  }

  lemma ReportedSnoc(base: int, mem: seq<Byte>, pat: seq<Byte>, chunk: nat, s: nat)
    requires pat != [] && chunk > 0 && s + |pat| <= |mem| && OccursAt(mem, pat, s) && InTwoChunks(s, |pat|, chunk)
    ensures Reported(base, mem, pat, chunk, s + |pat|)
      == Reported(base, mem, pat, chunk, s + |pat| - 1) + [base + s]
  {
  }

  /** Python's `s[-k:]`: the whole of `s` when it has fewer than `k` elements. */
  function Last(s: seq<Byte>, k: nat): seq<Byte> { if k <= |s| then s[|s| - k..] else s }

  lemma NothingAtFirst(base: int, mem: seq<Byte>, pat: seq<Byte>, chunk: nat)
    requires pat != [] && chunk > 0
    ensures Reported(base, mem, pat, chunk, 0) == []
  {
  }

  lemma NextChunk(q: nat, chunk: nat)
    ensures (q + 1) * chunk == q * chunk + chunk
  {
  }

  /** The chunk loop of `search_mem` over one region. */
  method Scan(base: int, mem: seq<Byte>, pat: seq<Byte>, chunk: nat) returns (hits: seq<int>)
    requires pat != [] && chunk > 0
    ensures hits == Reported(base, mem, pat, chunk, |mem|)
  {
    hide OccursAt, InTwoChunks, Reported;
    NothingAtFirst(base, mem, pat, chunk);
    hits := [];
    var cursor, overlap, prevTail := 0, |pat| - 1, [];
    ghost var q := 0;
    while cursor < |mem|
      invariant cursor <= |mem| && |prevTail| <= cursor && prevTail == mem[cursor - |prevTail|..cursor]
      invariant cursor < |mem| ==> cursor == q * chunk
      invariant cursor < |mem| ==> |prevTail| == if q == 0 then 0 else if overlap <= chunk then overlap else chunk
      invariant hits == Reported(base, mem, pat, chunk, cursor)
    {
      var n := if chunk <= |mem| - cursor then chunk else |mem| - cursor;
      hits := ScanChunk(base, mem, pat, chunk, q, cursor, prevTail, n, hits);
      prevTail := if overlap > 0 then Last(mem[cursor..cursor + n], overlap) else [];
      cursor := cursor + n;
      NextChunk(q, chunk);
      q := q + 1;
    }
  }

  function UpperChar(c: char): char { if 'a' <= c <= 'z' then (c as int - 32) as char else c }

  function Upper(s: string): string { if s == "" then "" else [UpperChar(s[0])] + Upper(s[1..]) }

  /** `search_mem`, given the bytes of the two regions. */
  method SearchMem(mem1: seq<Byte>, mem2: seq<Byte>, pat: seq<Byte>, region: string) returns (r: Result)
    requires |mem1| == MEM1_SIZE && |mem2| == MEM2_SIZE
    ensures r == Failed(EmptyPattern) <==> pat == []
    ensures r == Failed(UnknownRegion) <==> pat != [] && Upper(region) != "MEM1" && Upper(region) != "MEM2"
    ensures r.Hits? && Upper(region) == "MEM1" ==> r.addrs == Reported(0x8000_0000, mem1, pat, 0x40_0000, |mem1|)
    ensures r.Hits? && Upper(region) == "MEM2" ==> r.addrs == Reported(0x9000_0000, mem2, pat, 0x40_0000, |mem2|)
  {
    if pat == [] {
      return Failed(EmptyPattern);
    }
    var hits;
    if Upper(region) == "MEM1" {
      hits := Scan(MEM1_BASE, mem1, pat, CHUNK);
    } else if Upper(region) == "MEM2" {
      hits := Scan(MEM2_BASE, mem2, pat, CHUNK);
    } else {
      return Failed(UnknownRegion);
    }
    return Hits(hits);
  }

  /** The name of a region may be written in any mixture of cases. */
  lemma {:induction false} UpperAnyCase(s: string, name: string)
    requires |s| == |name|
    requires forall i :: 0 <= i < |s| ==>
      s[i] == name[i] || ('A' <= name[i] <= 'Z' && s[i] as int - 32 == name[i] as int)
    requires forall i :: 0 <= i < |name| ==> !('a' <= name[i] <= 'z')
    ensures Upper(s) == name
  {
    if s == "" {
    } else {
      assert name == [name[0]] + name[1..];
      UpperAnyCase(s[1..], name[1..]);
    }
  }

  // ---- when nothing is missed ----

  lemma {:induction false} NothingMissed(base: int, mem: seq<Byte>, pat: seq<Byte>, chunk: nat, end: nat)
    requires pat != [] && chunk > 0 && end <= |mem|
    requires forall s: nat :: s + |pat| <= end ==> InTwoChunks(s, |pat|, chunk)
    ensures Reported(base, mem, pat, chunk, end) == Occurrences(base, mem, pat, end)
  {
    hide InTwoChunks, OccursAt;
    if end < |pat| {
    } else {
      NothingMissed(base, mem, pat, chunk, end - 1);
      assert InTwoChunks(end - |pat|, |pat|, chunk);
    }
  }

  lemma {:induction false} ReportedOnly(base: int, mem: seq<Byte>, pat: seq<Byte>, chunk: nat, end: nat, s: nat)
    requires pat != [] && chunk > 0 && end <= |mem| && !InTwoChunks(s, |pat|, chunk)
    ensures base + s !in Reported(base, mem, pat, chunk, end)
  {
    if end < |pat| {
    } else {
      ReportedOnly(base, mem, pat, chunk, end - 1, s);
    }
  }

  /** Every place a pattern of this length can occur touches at most two chunks. */
  predicate Fits(size: nat, len: nat, chunk: nat) {
    !(chunk + 2 <= len <= size && 2 * chunk + 1 <= size)
  }

  lemma ThreeChunks(s: nat, len: nat, chunk: nat)
    requires len > 0 && chunk > 0 && !InTwoChunks(s, len, chunk)
    ensures chunk + 2 <= len && 2 * chunk + 1 <= s + len
  {
    Apart(s, s + len - 1, s / chunk, (s + len - 1) / chunk, chunk);
  }

  lemma Apart(x: nat, y: nat, a: nat, b: nat, c: nat)
    requires c > 0 && a == x / c && b == y / c && b >= a + 2
    ensures y >= x + c + 1 && y >= 2 * c
  {
    DivBounds(y, a + 1, c);
    DivBounds(x, a, c);
    assert x < a * c + c;
    assert b * c <= y;
    var d := b - a - 2;
    assert b * c == a * c + 2 * c + d * c;
    assert d * c >= 0 && a * c >= 0;
  }

  lemma FitsInTwo(size: nat, len: nat, chunk: nat, s: nat)
    requires len > 0 && chunk > 0 && Fits(size, len, chunk) && s + len <= size
    ensures InTwoChunks(s, len, chunk)
  {
    hide InTwoChunks;
    if !InTwoChunks(s, len, chunk) {
      ThreeChunks(s, len, chunk);
    }
  }

  function Zeros(n: nat): seq<Byte> { seq(n, _ => 0) }

  /** With a chunk in the middle and a byte on either side, an occurrence in memory of zeros is missed. */
  lemma MissesZeros(base: int, size: nat, len: nat, chunk: nat)
    requires chunk > 0 && !Fits(size, len, chunk)
    ensures Reported(base, Zeros(size), Zeros(len), chunk, size) != Occurrences(base, Zeros(size), Zeros(len), size)
  {
    var s := if len <= 2 * chunk + 1 then 2 * chunk + 1 - len else 0;
    DivBounds(s, 0, chunk);
    DivBounds(s + len - 1, 2, chunk);
    ReportedOnly(base, Zeros(size), Zeros(len), chunk, size, s);
    OccurrencesExactly(base, Zeros(size), Zeros(len), size, base + s);
    assert OccursAt(Zeros(size), Zeros(len), s);
    assert base + s in Occurrences(base, Zeros(size), Zeros(len), size);
  }

  /** The chunked search equals the naive one on every memory and pattern of the given sizes if and only
      if no occurrence can span three chunks. */
  lemma ChunkedIsNaive(base: int, size: nat, len: nat, chunk: nat)
    requires len > 0 && chunk > 0
    ensures Fits(size, len, chunk) <==> forall mem: seq<Byte>, pat: seq<Byte> :: |mem| == size && |pat| == len ==>
      Reported(base, mem, pat, chunk, size) == Occurrences(base, mem, pat, size)
  {
    if Fits(size, len, chunk) {
      forall mem: seq<Byte>, pat: seq<Byte> | |mem| == size && |pat| == len
        ensures Reported(base, mem, pat, chunk, size) == Occurrences(base, mem, pat, size)
      {
        forall s: nat | s + len <= size ensures InTwoChunks(s, len, chunk) {
          FitsInTwo(size, len, chunk, s);
        }
        NothingMissed(base, mem, pat, chunk, size);
      }
    } else {
      MissesZeros(base, size, len, chunk);
    }
  }

  /** In both regions the search is exact for patterns of at most 4 MB and one byte, and for no longer ones but
      those longer than the region. */
  lemma ExactInRegions(len: nat)
    requires len > 0
    ensures Fits(MEM1_SIZE, len, CHUNK) <==> len <= 0x40_0001 || len > 0x0180_0000
    ensures Fits(MEM2_SIZE, len, CHUNK) <==> len <= 0x40_0001 || len > 0x0400_0000
  {
  }
}
