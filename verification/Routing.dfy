/** Guest addresses: two memory regions, and which of them an access falls in. */
module Routing {

  type Byte = b: nat | b < 256

  const MEM1_BASE := 0x8000_0000
  const MEM1_SIZE := 0x0180_0000
  const MEM1_END := MEM1_BASE + MEM1_SIZE

  const MEM2_BASE := 0x9000_0000
  const MEM2_SIZE := 0x0400_0000
  const MEM2_END := MEM2_BASE + MEM2_SIZE

  datatype Region = MEM1 | MEM2

  datatype RouteError = SizeNotPositive | OutOfRange

  datatype Route = Routed(region: Region, offset: nat, available: nat) | Refused(error: RouteError)

  /** `route`: the region and offset of an access, or why it is refused. */
  function RouteOf(addr: int, size: int): Route {
    if size <= 0 then Refused(SizeNotPositive)
    else if MEM1_BASE <= addr < MEM1_END then
      if addr + size > MEM1_END then Refused(OutOfRange) else Routed(MEM1, addr - MEM1_BASE, MEM1_END - addr)
    else if MEM2_BASE <= addr < MEM2_END then
      if addr + size > MEM2_END then Refused(OutOfRange) else Routed(MEM2, addr - MEM2_BASE, MEM2_END - addr)
    else Refused(OutOfRange)
  }
}
