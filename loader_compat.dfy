/**
 * Stage 2 of the IPL3 compatibility loader (boot/loader_compat.c): read the
 * entrypoint and payload size from the ROM header, sanitise the size, and
 * program one PI DMA that copies the payload to the entrypoint.
 *
 * `uint32_t` values are integers in [0, 2^32); the wrap-around of C's
 * unsigned subtraction is written out as reduction modulo 2^32.
 */
module LoaderCompat {

  const TWO_POW_32: int := 0x1_0000_0000

  type U32 = x: int | 0 <= x < 0x1_0000_0000

  /** `a - b` on `uint32_t`. */
  function Sub32(a: U32, b: U32): U32
  {
    (a - b) % TWO_POW_32
  }

  /** `LOADER_SIZE` and `TOTAL_RESERVED_SIZE` (boot/loader.h): RDRAM kept for the loader. */
  const LOADER_SIZE: U32 := 32 * 1024
  const TOTAL_RESERVED_SIZE: U32 := LOADER_SIZE

  /** `8<<20`: the 8 MiB of RDRAM the bound is computed against. */
  const RDRAM_LIMIT: U32 := 8 * 0x10_0000

  /** `1<<20`: the size used when the header's size is unusable. */
  const FALLBACK_SIZE: U32 := 0x10_0000

  /** Cartridge addresses of the header words and of the payload. */
  const HEADER_ENTRYPOINT_ADDR: U32 := 0x1000_0008
  const HEADER_SIZE_ADDR: U32 := 0x1000_0010
  const PAYLOAD_CART_ADDR: U32 := 0x1000_1000

  /** `entrypoint & 0x1FFFFFFF`: keeping the low 29 bits is reduction modulo 2^29. */
  function PhysicalPart(entrypoint: U32): (r: U32)
    ensures r < 0x2000_0000
  {
    entrypoint % 0x2000_0000
  }

  /** `(8<<20) - (entrypoint & 0x1FFFFFFF) - TOTAL_RESERVED_SIZE` in `uint32_t` arithmetic. */
  function SizeBound(entrypoint: U32): (r: U32)
    ensures PhysicalPart(entrypoint) + TOTAL_RESERVED_SIZE <= RDRAM_LIMIT ==>
              r == RDRAM_LIMIT - PhysicalPart(entrypoint) - TOTAL_RESERVED_SIZE
    ensures PhysicalPart(entrypoint) + TOTAL_RESERVED_SIZE > RDRAM_LIMIT ==>
              r == TWO_POW_32 + RDRAM_LIMIT - PhysicalPart(entrypoint) - TOTAL_RESERVED_SIZE
  {
    Sub32(Sub32(RDRAM_LIMIT, PhysicalPart(entrypoint)), TOTAL_RESERVED_SIZE)
  }

  /**
   * The size `stage2` loads: the header's size, or 1 MiB if that is 0 or
   * above the bound. While the entrypoint leaves room for the reserved area,
   * the size is kept exactly when the payload ends at or below it.
   */
  function PayloadSize(entrypoint: U32, size: U32): (r: U32)
    ensures r != 0
    ensures r == size || r == FALLBACK_SIZE
    ensures size == 0 ==> r == FALLBACK_SIZE
    ensures PhysicalPart(entrypoint) + TOTAL_RESERVED_SIZE <= RDRAM_LIMIT && size != 0 ==>
              (r == size <==> PhysicalPart(entrypoint) + size + TOTAL_RESERVED_SIZE <= RDRAM_LIMIT
                              || size == FALLBACK_SIZE)
  {
    if size == 0 || size > SizeBound(entrypoint) then FALLBACK_SIZE else size
  }

  /** The PI DMA registers `pi_read_async` programs, and where `stage3` jumps. */
  datatype LoadRequest = LoadRequest(dramAddr: U32, cartAddr: U32, wrLen: U32, jumpTo: U32)

  /**
   * `vaddrx |= 0xA0000000`: bits 31 and 29 are set and every other bit is
   * kept. Counting in units of 2^29, the top three bits become 0b101 with
   * bit 30 copied; on a physical address (below 2^29) this is the uncached
   * KSEG1 address, base plus offset.
   */
  function Kseg1(addr: U32): (r: U32)
    ensures r % 0x2000_0000 == addr % 0x2000_0000
    ensures r / 0x2000_0000 == 5 || r / 0x2000_0000 == 7
    ensures r / 0x2000_0000 == 7 <==> (addr / 0x4000_0000) % 2 == 1
    ensures addr < 0x2000_0000 ==> r == 0xA000_0000 + addr
  {
    (5 + 2 * ((addr / 0x4000_0000) % 2)) * 0x2000_0000 + addr % 0x2000_0000
  }

  /** `io_read32`: the word `mem` holds at the KSEG1 alias of `addr`. */
  function IoRead32(mem: U32 -> U32, addr: U32): (r: U32)
    ensures addr < 0x2000_0000 ==> r == mem(0xA000_0000 + addr)
  {
    mem(Kseg1(addr))
  }

  /**
   * `stage2`, up to the DMA it starts and the entrypoint it hands to
   * `stage3`. The length register gets `size - 1`, which cannot underflow.
   */
  function Stage2(mem: U32 -> U32): (req: LoadRequest)
    ensures req.cartAddr == PAYLOAD_CART_ADDR
    ensures req.dramAddr == req.jumpTo == IoRead32(mem, HEADER_ENTRYPOINT_ADDR)
    ensures req.wrLen + 1 == PayloadSize(req.dramAddr, IoRead32(mem, HEADER_SIZE_ADDR))
    ensures req.wrLen + 1 == IoRead32(mem, HEADER_SIZE_ADDR) || req.wrLen + 1 == FALLBACK_SIZE
  {
    var entrypoint := IoRead32(mem, HEADER_ENTRYPOINT_ADDR);
    var size := PayloadSize(entrypoint, IoRead32(mem, HEADER_SIZE_ADDR));
    LoadRequest(entrypoint, PAYLOAD_CART_ADDR, size - 1, entrypoint)
  }

  /**
   * When the entrypoint lies more than 8 MiB - 32 KiB into memory, the bound
   * wraps around to more than 2^32 - 2^29, so every nonzero size up to that
   * is kept as read.
   */
  lemma BoundWrapsPastRdram(entrypoint: U32, size: U32)
    requires PhysicalPart(entrypoint) + TOTAL_RESERVED_SIZE > RDRAM_LIMIT
    ensures SizeBound(entrypoint) == TWO_POW_32 + RDRAM_LIMIT - PhysicalPart(entrypoint) - TOTAL_RESERVED_SIZE
    ensures SizeBound(entrypoint) > TWO_POW_32 - 0x2000_0000
    ensures 0 < size <= TWO_POW_32 - 0x2000_0000 ==> PayloadSize(entrypoint, size) == size
  {
  }

  /**
   * The 1 MiB that replaces a rejected size ends below the reserved area at
   * the top of 8 MiB only for entrypoints up to 7 MiB - 32 KiB; further up,
   * the fallback DMA runs into the area the check was meant to protect.
   */
  lemma FallbackFits(entrypoint: U32, size: U32)
    requires size == 0 || size > SizeBound(entrypoint)
    ensures PayloadSize(entrypoint, size) == FALLBACK_SIZE
    ensures PhysicalPart(entrypoint) + PayloadSize(entrypoint, size) + TOTAL_RESERVED_SIZE <= RDRAM_LIMIT
        <==> PhysicalPart(entrypoint) <= 0x70_0000 - 0x8000
  {
  }

  /**
   * The usual entrypoint 0x80000400: 1 MiB is kept, 0 and sizes reaching the
   * loader are replaced. At 0x80700000 a size of 0 is replaced by 1 MiB,
   * which overlaps the reserved area.
   */
  lemma PayloadSizeExamples()
    ensures PayloadSize(0x8000_0400, 0x10_0000) == 0x10_0000
    ensures PayloadSize(0x8000_0400, 0x7F_7C00) == 0x7F_7C00
    ensures PayloadSize(0x8000_0400, 0x7F_7C01) == FALLBACK_SIZE
    ensures PayloadSize(0x8000_0400, 0) == FALLBACK_SIZE
    ensures PayloadSize(0x8070_0000, 0) == FALLBACK_SIZE
    ensures PhysicalPart(0x8070_0000) + FALLBACK_SIZE + TOTAL_RESERVED_SIZE > RDRAM_LIMIT
  {
  }
}
