// Outbound address translation: programming a region's nine registers, and the
// translation the device then performs.
module Iatu {
  import opened Prelude

  const REGIONS: int := 16
  const IATU_DWORDS: int := 0xC00        // 0x3000 bytes of BAR2
  const MAX_REGION_SIZE: int := 0x100_0000_0000
  const INCREASE_REGION_SIZE: u32 := 0x2000
  const REGION_ENABLE: u32 := 0x8000_0000

  // First register of a region, in dwords.
  function RegionBase(region: nat): int {
    0x400 + 0x80 * region
  }

  // An outbound region: addresses base..limit go to target and on.
  datatype Region = Region(base: int, limit: int, target: int, enabled: bool)

  // A region as the device reads its registers. Without the size-increase bit
  // a limit has the upper half of the base.
  function DeviceRegion(regs: seq<u32>, region: nat): Region
    requires |regs| == IATU_DWORDS && region < REGIONS
  {
    var at := RegionBase(region);
    Region(regs[at + 2] + regs[at + 3] * TWO32,
           regs[at + 4] + (if regs[at] / INCREASE_REGION_SIZE % 2 == 1 then regs[at + 8] else regs[at + 3]) * TWO32,
           regs[at + 5] + regs[at + 6] * TWO32,
           regs[at + 1] >= REGION_ENABLE)
  }

  // Where the device sends an address.
  function Translate(r: Region, a: int): Option<int> {
    if r.enabled && r.base <= a <= r.limit then Some(r.target + (a - r.base)) else None
  }

  class OutboundIatu {
    const regs: array<u32>
    var records: seq<Region>     // the driver's bookkeeping

    ghost predicate Valid()
      reads this
    {
      regs.Length == IATU_DWORDS && |records| == REGIONS
    }

    constructor ()
      ensures Valid() && fresh(regs)
      ensures forall r :: 0 <= r < REGIONS ==> records[r] == Region(0, 0, 0, false)
    {
      regs := new u32[IATU_DWORDS](_ => 0);
      records := seq(REGIONS, _ => Region(0, 0, 0, false));
    }

    // A region is refused for its 64-bit size or its number, with nothing
    // changed. Otherwise the device translates by it as the bookkeeping says,
    // and no other region has changed.
    method Program(region: u32, base: u64, limit: u64, target: u64) returns (status: Status)
      requires Valid()
      modifies this`records, regs
      ensures Valid()
      ensures status == if (limit - base + 1) % TWO64 <= 1024 * 1024 * 1024 * 1024 && region < 16
                        then Success else InvalidParameter
      ensures status != Success ==> regs[..] == old(regs[..]) && records == old(records)
      ensures status == Success ==>
                && records == old(records)[region := Region(base, limit, target, limit != 0)]
                && DeviceRegion(regs[..], region) == records[region]
                && forall other :: 0 <= other < REGIONS && other != region ==>
                     DeviceRegion(regs[..], other) == old(DeviceRegion(regs[..], other))
    {
      var size := (limit - base + 1) % TWO64;
      var ctrl2 := if limit == 0 then 0 else REGION_ENABLE;
      if size > MAX_REGION_SIZE {
        return InvalidParameter;
      }
      if region >= REGIONS {
        return InvalidParameter;
      }
      Write(RegionBase(region), base, limit, target, ctrl2);
      records := records[region := Region(base, limit, target, ctrl2 != 0)];
      return Success;
    }

    // The nine registers, in the order the driver writes them.
    method Write(at: nat, base: u64, limit: u64, target: u64, ctrl2: u32)
      requires regs.Length == IATU_DWORDS && at + 9 <= IATU_DWORDS
      modifies regs
      ensures regs[at + 2] == base % TWO32 && regs[at + 3] == base / TWO32
      ensures regs[at + 5] == target % TWO32 && regs[at + 6] == target / TWO32
      ensures regs[at + 4] == limit % TWO32 && regs[at + 8] == limit / TWO32
      ensures regs[at] == INCREASE_REGION_SIZE && regs[at + 1] == ctrl2 && regs[at + 7] == 0
      ensures forall r :: 0 <= r < IATU_DWORDS && !(at <= r < at + 9) ==> regs[r] == old(regs[r])
    {
      regs[at + 2] := base % TWO32;
      regs[at + 3] := base / TWO32;
      regs[at + 5] := target % TWO32;
      regs[at + 6] := target / TWO32;
      regs[at + 4] := limit % TWO32;
      regs[at + 8] := limit / TWO32;
      regs[at] := INCREASE_REGION_SIZE;
      regs[at + 1] := ctrl2;
      regs[at + 7] := 0;
    }
  }
}
