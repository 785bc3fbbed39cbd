/** Reading and writing guest memory inside the emulator's process: two host regions found by walking
    its address space, against one flat guest memory. */
module Attach {
  import opened Text
  import opened Routing

  const MEM1_RESERVED_SIZE := 0x0200_0000
  const MEM2_RESERVED_SIZE := 0x0400_0000

  predicate InGuest(addr: int) { MEM1_BASE <= addr < MEM1_END || MEM2_BASE <= addr < MEM2_END }

  /** An access is routed exactly when it is not empty and every byte of it is guest memory; it then lies
      in the region named, at the offset named. */
  lemma RoutedExactly(addr: int, size: int)
    ensures RouteOf(addr, size).Routed? <==> size > 0 && forall a :: addr <= a < addr + size ==> InGuest(a)
    ensures InGuest(addr) <==> 0x8000_0000 <= addr < 0x8180_0000 || 0x9000_0000 <= addr < 0x9400_0000
    ensures RouteOf(addr, size) == Refused(SizeNotPositive) <==> size <= 0
    ensures var r := RouteOf(addr, size); r.Routed? ==>
      && r.available == (if r.region.MEM1? then 0x8180_0000 else 0x9400_0000) - addr >= size
      && addr == r.offset + if r.region.MEM1? then 0x8000_0000 else 0x9000_0000
  {
    if size > 0 {
      if MEM1_BASE <= addr < MEM1_END && addr + size > MEM1_END {
        assert !InGuest(MEM1_END);
      } else if MEM2_BASE <= addr < MEM2_END && addr + size > MEM2_END {
        assert !InGuest(MEM2_END);
      } else if !RouteOf(addr, size).Routed? {
        assert !InGuest(addr);
      }
    }
  }

  // ---- finding the regions ----

  datatype HostRegion = HostRegion(base: int, size: nat)

  /** One block of the process's address space; the blocks follow one another from address 0. */
  datatype Block = Block(size: nat, mappedReadWrite: bool)

  /** `_walk_mem_regions` over the blocks that the queries report. */
  method WalkRegions(blocks: seq<Block>) returns (regions: seq<HostRegion>)
    ensures regions == RegionsFrom(blocks, 0)
  {
    regions := [];
    var addr: nat, k := 0, 0;
    while k < |blocks|
      invariant k <= |blocks|
      invariant regions + RegionsFrom(blocks[k..], addr) == RegionsFrom(blocks, 0)
    {
      assert blocks[k..][1..] == blocks[k + 1..];
      if blocks[k].mappedReadWrite && addr != 0 {
        regions := regions + [HostRegion(addr, blocks[k].size)];
      }
      if blocks[k].size == 0 {
        return;
      }
      addr := addr + blocks[k].size;
      k := k + 1;
    }
  }

  function RegionsFrom(blocks: seq<Block>, addr: nat): seq<HostRegion> {
    if blocks == [] then []
    else
      var here := if blocks[0].mappedReadWrite && addr != 0 then [HostRegion(addr, blocks[0].size)] else [];
      if blocks[0].size == 0 then here else here + RegionsFrom(blocks[1..], addr + blocks[0].size)
  }

  /** Where block `k` begins. */
  function StartOf(blocks: seq<Block>, k: nat): nat
    requires k <= |blocks|
  {
    if k == 0 then 0 else StartOf(blocks, k - 1) + blocks[k - 1].size
  }

  /** A region is found if and only if it is a mapped block, not the one at address 0, with no empty block in front
      of it. */
  lemma {:induction false} RegionsExactly(blocks: seq<Block>, addr: nat, r: HostRegion)
    ensures r in RegionsFrom(blocks, addr) <==> exists k :: 0 <= k < |blocks| && IsRegion(blocks, addr, k, r)
  {
    if blocks == [] {
    } else {
      var rest, next := blocks[1..], addr + blocks[0].size;
      RegionsExactly(rest, next, r);
      forall k | 0 <= k < |rest| && blocks[0].size > 0
        ensures IsRegion(rest, next, k, r) <==> IsRegion(blocks, addr, k + 1, r)
      {
        StartShifted(blocks, k);
        assert forall j :: 0 <= j <= k ==> rest[j] == blocks[j + 1];
        assert IsRegion(rest, next, k, r) ==> forall j :: 0 < j < k + 1 ==> blocks[j] == rest[j - 1];
      }
      if r in RegionsFrom(blocks, addr) {
        if r in RegionsFrom(rest, next) && blocks[0].size > 0 {
          var k :| 0 <= k < |rest| && IsRegion(rest, next, k, r);
          assert IsRegion(blocks, addr, k + 1, r);
        } else {
          assert IsRegion(blocks, addr, 0, r);
        }
      }
      if k :| 0 < k < |blocks| && IsRegion(blocks, addr, k, r) {
        assert blocks[0].size > 0;
        assert IsRegion(rest, next, k - 1, r);
      }
    }
  }

  predicate IsRegion(blocks: seq<Block>, addr: nat, k: nat, r: HostRegion)
    requires k < |blocks|
  {
    && blocks[k].mappedReadWrite && r == HostRegion(addr + StartOf(blocks, k), blocks[k].size) && r.base != 0
    && forall j :: 0 <= j < k ==> blocks[j].size > 0
  }

  lemma {:induction false} StartShifted(blocks: seq<Block>, k: nat)
    requires k < |blocks|
    ensures StartOf(blocks, k + 1) == blocks[0].size + StartOf(blocks[1..], k)
  {
    if k == 0 {
    } else {
      StartShifted(blocks, k - 1);
      assert blocks[1..][k - 1] == blocks[k];
    }
  }

  predicate Below(a: HostRegion, b: HostRegion) { a.base + a.size <= b.base }

  predicate Stacked(rs: seq<HostRegion>) { forall i, j :: 0 <= i < j < |rs| ==> Below(rs[i], rs[j]) }

  lemma StackUnder(r: HostRegion, rs: seq<HostRegion>)
    requires Stacked(rs) && forall x <- rs :: r.base + r.size <= x.base
    ensures Stacked([r] + rs)
  {
  }

  lemma {:induction false} RegionsStacked(blocks: seq<Block>, addr: nat)
    ensures forall r <- RegionsFrom(blocks, addr) :: addr <= r.base
    ensures Stacked(RegionsFrom(blocks, addr))
  {
    if blocks != [] && blocks[0].size > 0 {
      hide Stacked;
      var next := addr + blocks[0].size;
      RegionsStacked(blocks[1..], next);
      StackUnder(HostRegion(addr, blocks[0].size), RegionsFrom(blocks[1..], next));
      assert [] + RegionsFrom(blocks[1..], next) == RegionsFrom(blocks[1..], next);
    }
  }

  /** `_pick_first` */
  method PickFirst(regions: seq<HostRegion>, wanted: nat) returns (r: Option<HostRegion>)
    ensures r == First(regions, wanted)
  {
    var k := 0;
    while k < |regions|
      invariant k <= |regions| && First(regions[k..], wanted) == First(regions, wanted)
    {
      if regions[k].size == wanted {
        return Some(regions[k]);
      }
      assert regions[k..][1..] == regions[k + 1..];
      k := k + 1;
    }
    return None;
  }

  function First(regions: seq<HostRegion>, wanted: nat): (r: Option<HostRegion>)
    ensures r.Some? ==> r.value in regions && r.value.size == wanted
    ensures r.Some? ==>
      exists i :: 0 <= i < |regions| && regions[i] == r.value && forall j :: 0 <= j < i ==> regions[j].size != wanted
    ensures r.None? <==> forall x <- regions :: x.size != wanted
  {
    if regions == [] then None else if regions[0].size == wanted then Some(regions[0]) else First(regions[1..], wanted)
  }

  // ---- host and guest memory ----

  type Memory = map<int, Byte>

  datatype Layout = Layout(mem1: HostRegion, mem2: HostRegion)

  function BaseOf(l: Layout, region: Region): int { if region.MEM1? then l.mem1.base else l.mem2.base }

  /** The host address of one guest byte. */
  function HostOf(l: Layout, addr: int): int {
    if addr < MEM1_END then l.mem1.base + (addr - MEM1_BASE) else l.mem2.base + (addr - MEM2_BASE)
  }

  predicate Backed(m: Memory, at: int, size: nat) { forall a :: at <= a < at + size ==> a in m }

  function Peek(m: Memory, at: int, size: nat): seq<Byte>
    requires Backed(m, at, size)
  {
    seq(size, i requires 0 <= i < size => m[at + i])
  }

  function Poke(m: Memory, at: int, data: seq<Byte>): (r: Memory)
    requires Backed(m, at, |data|)
    ensures r.Keys == m.Keys
    ensures forall a <- m :: r[a] == if at <= a < at + |data| then data[a - at] else m[a]
  {
    map a | a in m :: if at <= a < at + |data| then data[a - at] else m[a]
  }

  /** The guest memory that a process's memory holds. */
  function GuestOf(l: Layout, host: Memory): (g: Memory)
    requires Mapped(l, host)
    ensures forall a :: a in g <==> InGuest(a)
    ensures forall a <- g :: g[a] == host[HostOf(l, a)]
  {
    map a | MEM1_BASE <= a < MEM2_END && InGuest(a) :: host[HostOf(l, a)]
  }

  /** Every usable byte of both regions is mapped. */
  ghost predicate Mapped(l: Layout, host: Memory) { forall a :: InGuest(a) ==> HostOf(l, a) in host }

  /** The usable parts of the two regions do not overlap. */
  predicate Separate(l: Layout) {
    l.mem1.base + MEM1_SIZE <= l.mem2.base || l.mem2.base + MEM2_SIZE <= l.mem1.base
  }

  /** The regions that are found are separate and hold the usable memory. */
  lemma FoundSeparate(blocks: seq<Block>, mem1: HostRegion, mem2: HostRegion)
    requires First(RegionsFrom(blocks, 0), MEM1_RESERVED_SIZE) == Some(mem1)
    requires First(RegionsFrom(blocks, 0), MEM2_RESERVED_SIZE) == Some(mem2)
    ensures Separate(Layout(mem1, mem2)) && mem1.size >= MEM1_SIZE && mem2.size >= MEM2_SIZE
  {
    RegionsStacked(blocks, 0);
    var rs := RegionsFrom(blocks, 0);
    var i :| 0 <= i < |rs| && rs[i] == mem1;
    var j :| 0 <= j < |rs| && rs[j] == mem2;
    assert Below(rs[i], rs[j]) || Below(rs[j], rs[i]);
  }

  // ---- accesses ----

  datatype Access = Read(addr: int, size: int) | Write(addr: int, data: seq<Byte>)

  datatype Failure = BadRange(error: RouteError) | OsError

  datatype Answer = Data(bytes: seq<Byte>) | Done | Failed(why: Failure)

  function SizeOf(op: Access): int { if op.Read? then op.size else |op.data| }

  /** What an access does to a process that has `attached` state and memory `host`. */
  function HostStep(l: Layout, attached: bool, host: Memory, op: Access): (Memory, Answer) {
    match RouteOf(op.addr, SizeOf(op))
    case Refused(e) => (host, Failed(BadRange(e)))
    case Routed(region, offset, _) =>
      var at := BaseOf(l, region) + offset;
      if !attached || !Backed(host, at, SizeOf(op)) then (host, Failed(OsError))
      else if op.Read? then (host, Data(Peek(host, at, op.size))) else (Poke(host, at, op.data), Done)
  }

  /** What it does to a flat guest memory. */
  function FlatStep(guest: Memory, op: Access): (Memory, Answer) {
    if SizeOf(op) <= 0 then (guest, Failed(BadRange(SizeNotPositive)))
    else if !Backed(guest, op.addr, SizeOf(op)) then (guest, Failed(BadRange(OutOfRange)))
    else if op.Read? then (guest, Data(Peek(guest, op.addr, op.size))) else (Poke(guest, op.addr, op.data), Done)
  }

  /** No access leaves its region: the host range lies in the usable part of the region it is routed to. */
  lemma StaysInside(l: Layout, addr: int, size: int, a: int)
    requires RouteOf(addr, size).Routed?
    ensures var r := RouteOf(addr, size); var at := BaseOf(l, r.region) + r.offset;
      && at == HostOf(l, addr)
      && at + size <= BaseOf(l, r.region) + (if r.region.MEM1? then MEM1_SIZE else MEM2_SIZE)
      && BaseOf(l, r.region) <= at
      && (addr <= a < addr + size ==> InGuest(a) && HostOf(l, a) == at + (a - addr))
  {
  }

  lemma StepRefines(l: Layout, host: Memory, op: Access)
    requires Separate(l) && Mapped(l, host)
    ensures Mapped(l, HostStep(l, true, host, op).0)
    ensures (GuestOf(l, HostStep(l, true, host, op).0), HostStep(l, true, host, op).1)
      == FlatStep(GuestOf(l, host), op)
  {
    var guest := GuestOf(l, host);
    RoutedExactly(op.addr, SizeOf(op));
    if RouteOf(op.addr, SizeOf(op)).Routed? {
      ReachesBytes(l, host, op.addr, SizeOf(op));
      var at := HostOf(l, op.addr);
      if op.Read? {
        assert Peek(host, at, op.size) == Peek(guest, op.addr, op.size);
      } else {
        PokeRefines(l, host, op.addr, op.data);
      }
    } else if SizeOf(op) > 0 {
      var a :| op.addr <= a < op.addr + SizeOf(op) && !InGuest(a);
      assert !Backed(guest, op.addr, SizeOf(op));
    }
  }

  lemma ReachesBytes(l: Layout, host: Memory, addr: int, size: int)
    requires Mapped(l, host) && RouteOf(addr, size).Routed?
    ensures var r := RouteOf(addr, size); HostOf(l, addr) == BaseOf(l, r.region) + r.offset
    ensures Backed(host, HostOf(l, addr), size) && Backed(GuestOf(l, host), addr, size)
    ensures forall a :: addr <= a < addr + size ==> HostOf(l, a) == HostOf(l, addr) + (a - addr)
  {
    forall h | HostOf(l, addr) <= h < HostOf(l, addr) + size ensures h in host {
      var a := addr + (h - HostOf(l, addr));
      StaysInside(l, addr, size, a);
      assert HostOf(l, a) == h;
    }
  }

  lemma PokeRefines(l: Layout, host: Memory, addr: int, data: seq<Byte>)
    requires Separate(l) && Mapped(l, host) && RouteOf(addr, |data|).Routed?
    requires Backed(host, HostOf(l, addr), |data|) && Backed(GuestOf(l, host), addr, |data|)
    ensures Mapped(l, Poke(host, HostOf(l, addr), data))
    ensures GuestOf(l, Poke(host, HostOf(l, addr), data)) == Poke(GuestOf(l, host), addr, data)
  {
  }

  function HostRun(l: Layout, host: Memory, ops: seq<Access>): (Memory, seq<Answer>) {
    if ops == [] then (host, [])
    else
      var (before, answers) := HostRun(l, host, ops[..|ops| - 1]);
      var (after, answer) := HostStep(l, true, before, ops[|ops| - 1]);
      (after, answers + [answer])
  }

  function FlatRun(guest: Memory, ops: seq<Access>): (Memory, seq<Answer>) {
    if ops == [] then (guest, [])
    else
      var (before, answers) := FlatRun(guest, ops[..|ops| - 1]);
      var (after, answer) := FlatStep(before, ops[|ops| - 1]);
      (after, answers + [answer])
  }

  /** Any run of accesses, in range or not, is answered as a flat guest memory answers it, and no host
      byte outside the usable parts of the regions is ever changed. */
  lemma {:induction false} RunRefines(l: Layout, host: Memory, ops: seq<Access>)
    requires Separate(l) && Mapped(l, host)
    ensures var (after, answers) := HostRun(l, host, ops);
      Mapped(l, after) && (GuestOf(l, after), answers) == FlatRun(GuestOf(l, host), ops)
      && OutsideKept(l, host, after)
  {
    if ops == [] {
    } else {
      var init := ops[..|ops| - 1];
      RunRefines(l, host, init);
      StepRefines(l, HostRun(l, host, init).0, ops[|ops| - 1]);
      StepOutside(l, HostRun(l, host, init).0, ops[|ops| - 1]);
    }
  }

  predicate Usable(l: Layout, h: int) {
    l.mem1.base <= h < l.mem1.base + MEM1_SIZE || l.mem2.base <= h < l.mem2.base + MEM2_SIZE
  }

  predicate OutsideKept(l: Layout, before: Memory, after: Memory) {
    before.Keys == after.Keys && forall h <- before :: !Usable(l, h) ==> after[h] == before[h]
  }

  lemma StepOutside(l: Layout, host: Memory, op: Access)
    ensures OutsideKept(l, host, HostStep(l, true, host, op).0)
  {
  }

  // ---- overlapping regions ----

  function Nulls(l: Layout): (m: Memory)
    ensures Mapped(l, m)
  {
    var least := if l.mem1.base <= l.mem2.base then l.mem1.base else l.mem2.base;
    var most := if l.mem1.base <= l.mem2.base then l.mem2.base else l.mem1.base;
    map h | least <= h < most + MEM2_SIZE && Usable(l, h) :: 0
  }

  /** A byte both regions share: writing it through one guest address changes another. */
  lemma SharedByte(l: Layout)
    requires !Separate(l)
    ensures exists addr, data: seq<Byte> ::
      var write := Write(addr, data);
      GuestOf(l, HostStep(l, true, Nulls(l), write).0) != FlatStep(GuestOf(l, Nulls(l)), write).0
  {
    var h := if l.mem1.base <= l.mem2.base then l.mem2.base else l.mem1.base;
    var a, b := MEM1_BASE + (h - l.mem1.base), MEM2_BASE + (h - l.mem2.base);
    var host, guest := Nulls(l), GuestOf(l, Nulls(l));
    var data: seq<Byte> := [1];
    ReachesBytes(l, host, a, 1);
    assert HostOf(l, a) == h == HostOf(l, b);
    var after := HostStep(l, true, host, Write(a, data)).0;
    assert GuestOf(l, after)[b] == 1;
    assert FlatStep(guest, Write(a, data)).0[b] == 0;
  }

  /** Every access is answered as flat memory answers it, from every mapped process, if and only if the
      usable parts of the regions are apart. */
  lemma SeparateExactly(l: Layout)
    ensures Separate(l) <==> forall host: Memory, op :: Mapped(l, host) ==>
      GuestOf(l, HostStep(l, true, host, op).0) == FlatStep(GuestOf(l, host), op).0
  {
    if Separate(l) {
      forall host: Memory, op | Mapped(l, host)
        ensures GuestOf(l, HostStep(l, true, host, op).0) == FlatStep(GuestOf(l, host), op).0
      {
        StepRefines(l, host, op);
      }
    } else {
      SharedByte(l);
    }
  }

  // ---- the backend ----

  /** The emulator's process, with the two system calls used on it. */
  class Process {
    var bytes: Memory

    method ReadProcessMemory(open: bool, at: int, size: nat) returns (r: Option<seq<Byte>>)
      ensures r == if open && Backed(bytes, at, size) then Some(Peek(bytes, at, size)) else None
    {
      return if open && Backed(bytes, at, size) then Some(Peek(bytes, at, size)) else None;
    }

    method WriteProcessMemory(open: bool, at: int, data: seq<Byte>) returns (ok: bool)
      modifies this
      ensures ok <==> open && Backed(old(bytes), at, |data|)
      ensures bytes == if ok then Poke(old(bytes), at, data) else old(bytes)
    {
      ok := open && Backed(bytes, at, |data|);
      if ok {
        bytes := Poke(bytes, at, data);
      }
    }
  }

  datatype HostAddr = At(at: int) | NotRouted(error: RouteError)

  class AttachBackend {
    const process: Process
    const layout: Layout
    var open: bool

    constructor (process: Process, mem1: HostRegion, mem2: HostRegion)
      ensures open && this.process == process && layout == Layout(mem1, mem2)
    {
      this.process, layout, open := process, Layout(mem1, mem2), true;
    }

    method Close()
      modifies this
      ensures !open
    {
      open := false;
    }

    function HostAddrOf(addr: int, size: int): HostAddr {
      match RouteOf(addr, size)
      case Refused(e) => NotRouted(e)
      case Routed(region, offset, _) =>
        if region.MEM1? then At(layout.mem1.base + offset) else At(layout.mem2.base + offset)
    }

    method Read(addr: int, size: int) returns (r: Answer)
      ensures r == HostStep(layout, open, process.bytes, Access.Read(addr, size)).1
      ensures !open && RouteOf(addr, size).Routed? ==> r == Failed(OsError)
    {
      match HostAddrOf(addr, size)
      case NotRouted(e) =>
        return Failed(BadRange(e));
      case At(at) =>
        var got := process.ReadProcessMemory(open, at, size);
        return if got.Some? then Data(got.value) else Failed(OsError);
    }

    method Write(addr: int, data: seq<Byte>) returns (r: Answer)
      modifies process
      ensures (process.bytes, r) == HostStep(layout, open, old(process.bytes), Access.Write(addr, data))
      ensures !open && RouteOf(addr, |data|).Routed? ==> r == Failed(OsError) && process.bytes == old(process.bytes)
    {
      match HostAddrOf(addr, |data|)
      case NotRouted(e) =>
        return Failed(BadRange(e));
      case At(at) =>
        var ok := process.WriteProcessMemory(open, at, data);
        return if ok then Done else Failed(OsError);
    }
  }

  datatype Attached = Found(mem1: HostRegion, mem2: HostRegion) | NoRegion(region: Region)

  /** `find_dolphin`, given the blocks of the process's address space. */
  method FindRegions(blocks: seq<Block>) returns (r: Attached)
    ensures r.Found? ==> Separate(Layout(r.mem1, r.mem2)) && r.mem1.size >= MEM1_SIZE && r.mem2.size >= MEM2_SIZE
    ensures r.Found? ==> First(RegionsFrom(blocks, 0), 0x0200_0000) == Some(r.mem1)
    ensures r.Found? ==> First(RegionsFrom(blocks, 0), 0x0400_0000) == Some(r.mem2)
    ensures r == NoRegion(MEM1) <==> forall x <- RegionsFrom(blocks, 0) :: x.size != 0x0200_0000
    ensures r == NoRegion(MEM2) ==> forall x <- RegionsFrom(blocks, 0) :: x.size != 0x0400_0000
  {
    var regions := WalkRegions(blocks);
    var mem1 := PickFirst(regions, MEM1_RESERVED_SIZE);
    var mem2 := PickFirst(regions, MEM2_RESERVED_SIZE);
    if mem1.None? {
      return NoRegion(MEM1);
    }
    if mem2.None? {
      return NoRegion(MEM2);
    }
    FoundSeparate(blocks, mem1.value, mem2.value);
    return Found(mem1.value, mem2.value);
  }
}
