// The host buffer the device sees at NOC address 2^60: the path through the
// kernel window, the PCIe tile and the outbound iATU, its loopback check, and
// the views of the buffer that processes map.
module SysmemPath {
  import opened Prelude
  import opened Bits
  import opened TlbImage
  import opened WindowPool
  import opened TlbRegisters
  import opened Iatu
  import Machine

  const NOC_PCIE: int := 0x1000_0000_0000_0000
  const DMA_LIMIT: int := 0x400_0000_0000_0000
  const PAGE: int := 0x1000
  const VIEW_ALIGN: int := 0x1_0000

  // Allocation tiers: 1 GiB, 512 MiB, 256 MiB.
  const TIERS: set<int> := {0x4000_0000, 0x2000_0000, 0x1000_0000}

  const MAGIC: u32 := 0x7474_4D30

  datatype Stage = NotRun | NoAlloc | NoRegs | TileDetect | IatuStage | LoopbackStage | Verified

  // One probe of the loopback: what was read back of its two dwords.
  datatype Probe = Probe(read0: u32, read1: u32)

  // What the driver cannot see of the world: reads that go wrong, by number,
  // and what answers at NOC addresses that do not lead into the buffer.
  datatype World = World(fault: nat -> Option<u32>, elsewhere: nat -> u32)

  ghost predicate Sound(world: World) {
    forall k: nat :: world.fault(k).None?
  }

  // The words of probe i: a tag and its complement.
  function Tag(i: int, j: int): u32
    requires 0 <= i < 3
  {
    if j == 0 then MAGIC + i else ALL_ONES - (MAGIC + i)
  }

  predicate IsTag(v: int) {
    MAGIC <= v < MAGIC + 3 || MAGIC <= ALL_ONES - v < MAGIC + 3
  }

  // The steps of a successful arm in the transition system, at tile x.
  function Armed(s: Machine.Sysmem, x: int): Machine.Sysmem {
    var e := Machine.Env(true, true, false, false, 0, 0, Some(x), None);
    var dark := Machine.SysAfter(s, Machine.Darken, e);
    var detected := Machine.SysAfter(dark, Machine.Detect, e);
    Machine.SysAfter(Machine.SysAfter(detected, Machine.Program, e), Machine.Verify, e)
  }

  lemma ArmedForm(s: Machine.Sysmem, x: int)
    requires x in {2, 11} && s.size <= MAX_REGION_SIZE
    ensures Armed(s, x) == s.(verified := true, tileX := x, region := Region(0, s.size - 1, s.phys, true))
  {
  }

  class SysmemContext {
    const tlb: RegisterBlock
    const iatu: OutboundIatu
    const buffer: array<u32>
    const size: int        // bytes
    const phys: u64
    const homeTile: int    // NOC x of the PCIe tile the host is behind

    var live: bool         // the buffer is allocated
    var restricted: bool   // NeedsHwInit
    var regsMapped: bool   // BAR2, the kernel window and its registers
    var tileX: int
    var verified: bool
    var stage: Stage

    ghost predicate Valid()
      reads this, iatu
    {
      && tlb.Valid() && iatu.Valid()
      && tlb.regs != iatu.regs && tlb.regs != buffer && iatu.regs != buffer
      && size in TIERS && buffer.Length == size / 4
      && phys % PAGE == 0 && phys + size <= DMA_LIMIT
      && 0 <= tileX < 64 && 0 <= homeTile < 64
    }

    constructor (size: int, phys: u64, homeTile: int)
      requires size in TIERS && phys % PAGE == 0 && phys + size <= DMA_LIMIT && 0 <= homeTile < 64
      ensures Valid() && fresh(tlb) && fresh(tlb.regs) && fresh(iatu) && fresh(iatu.regs) && fresh(buffer)
      ensures this.size == size && this.phys == phys && this.homeTile == homeTile
      ensures live && !verified && forall d :: 0 <= d < buffer.Length ==> buffer[d] == 0
    {
      tlb := new RegisterBlock();
      iatu := new OutboundIatu();
      buffer := new u32[size / 4](_ => 0);
      this.size, this.phys, this.homeTile := size, phys, homeTile;
      live, restricted, regsMapped, tileX, verified, stage := true, false, true, 0, false, NotRun;
    }

    // The same state as the transition system keeps it.
    ghost function Bookkeeping(): Machine.Sysmem
      requires Valid()
      reads this, iatu
    {
      Machine.Sysmem(live, size, phys, verified, tileX, iatu.records[0])
    }

    // Byte of the buffer that the device's access at a NOC address reaches:
    // past 2^60 the PCIe tile hands it to the iATU.
    function Lands(tile: int, noc: nat): Option<nat>
      requires iatu.Valid()
      reads iatu, iatu.regs
    {
      if tile != homeTile || noc < NOC_PCIE then None
      else match Translate(DeviceRegion(iatu.regs[..], 0), noc - NOC_PCIE)
           case Some(at) => if phys <= at < phys + size then Some(at - phys) else None
           case None => None
    }

    // What a read of a NOC address through a tile returns.
    function WordAt(world: World, tile: int, noc: nat): u32
      requires Valid()
      reads this, iatu, iatu.regs, buffer
    {
      match Lands(tile, noc)
      case Some(at) => buffer[at / 4]
      case None => world.elsewhere(noc)
    }

    // What a read at an offset into the kernel window returns, from the
    // registers as the device decodes them.
    function WindowRead(world: World, k: nat, offset: nat): u32
      requires Valid()
      reads this, tlb.regs, iatu, iatu.regs, buffer
    {
      var aim := Aim(tlb.regs[..], KERNEL_WINDOW);
      if world.fault(k).Some? then world.fault(k).value
      else if aim.mcast != 0 || aim.noc != 0 || aim.yEnd != 0 then world.elsewhere(aim.addr + offset)
      else WordAt(world, aim.xEnd, aim.addr + offset)
    }

    // Region 0 as the arm path programs it.
    ghost predicate Translating()
      requires Valid()
      reads this, iatu, iatu.regs
    {
      DeviceRegion(iatu.regs[..], 0) == Region(0, size - 1, phys, true)
    }

    // With region 0 armed and the right tile, the device sees the whole buffer
    // at 2^60, byte for byte, and nothing of it anywhere else.
    lemma SeesTheBuffer(noc: nat)
      requires Valid() && Translating()
      ensures Lands(homeTile, noc) == if NOC_PCIE <= noc < NOC_PCIE + size then Some(noc - NOC_PCIE) else None
    {
    }

    // Aim the kernel window and read through it: the window split loses
    // nothing of the address.
    method NocRead32(noc: u64, world: World, k: nat) returns (value: u32)
      requires Valid()
      modifies tlb.regs
      ensures value == if world.fault(k).Some? then world.fault(k).value else WordAt(world, tileX, noc)
      ensures forall r :: 0 <= r < REGISTERS && !Touches(KERNEL_WINDOW, r) ==> tlb.regs[r] == old(tlb.regs[r])
    {
      hide Field, Pow2, Assembled, Lands;
      var cfg := Config(noc - noc % WINDOW_SIZE, tileX, 0, 0, 0, 0, 0, 1, 0, 0);
      tlb.Program(KERNEL_WINDOW, cfg);
      value := WindowRead(world, k, noc % WINDOW_SIZE);
    }

    // ------------------------------------------------------------- loopback

    // Probe offsets: the start, the middle, the last page.
    function Offset(i: int): int
      requires 0 <= i < 3
    {
      if i == 0 then 0 else if i == 1 then size / 2 else size - PAGE
    }

    // The probe a dword of the buffer belongs to; 3 for none.
    function ProbeOf(d: int): (i: int)
      ensures 0 <= i <= 3
    {
      if d / 2 == 0 then 0 else if d / 2 == size / 16 then 1 else if d / 2 == size / 8 - PAGE / 8 then 2 else 3
    }

    lemma ProbesApart(i: int, j: int)
      requires Valid() && 0 <= i < 3 && 0 <= j < 2
      ensures 0 <= Offset(i) / 4 + j < buffer.Length && Offset(i) % 4 == 0
      ensures forall d :: ProbeOf(d) == i && d % 2 == j <==> d == Offset(i) / 4 + j
    {
    }

    // The tags are in place, the rest of the buffer is as it was.
    ghost predicate Tagged(before: seq<u32>)
      requires Valid() && |before| == buffer.Length
      reads this, iatu, buffer
    {
      forall d :: 0 <= d < buffer.Length ==>
        buffer[d] == if ProbeOf(d) < 3 then Tag(ProbeOf(d), d % 2) else before[d]
    }

    method WriteTags()
      requires Valid()
      modifies buffer
      ensures Tagged(old(buffer[..]))
    {
      for i := 0 to 3
        invariant forall d :: 0 <= d < buffer.Length ==>
                    buffer[d] == if ProbeOf(d) < i then Tag(ProbeOf(d), d % 2) else old(buffer[d])
      {
        ProbesApart(i, 0);
        ProbesApart(i, 1);
        buffer[Offset(i) / 4] := MAGIC + i;
        buffer[Offset(i) / 4 + 1] := ALL_ONES - (MAGIC + i);
      }
    }

    method ClearTags()
      requires Valid()
      modifies buffer
      ensures forall d :: 0 <= d < buffer.Length ==> buffer[d] == if ProbeOf(d) < 3 then 0 else old(buffer[d])
    {
      for i := 0 to 3
        invariant forall d :: 0 <= d < buffer.Length ==> buffer[d] == if ProbeOf(d) < i then 0 else old(buffer[d])
      {
        ProbesApart(i, 0);
        ProbesApart(i, 1);
        buffer[Offset(i) / 4] := 0;
        buffer[Offset(i) / 4 + 1] := 0;
      }
    }

    // A dword of a probe is reached over the NOC at its own place.
    ghost predicate Reached(i: int, j: int)
      requires Valid() && 0 <= i < 3 && 0 <= j < 2
      reads this, iatu, iatu.regs
    {
      var got := Lands(tileX, NOC_PCIE + Offset(i) + 4 * j);
      got.Some? && got.value / 4 == Offset(i) / 4 + j
    }

    // Nothing else holds or answers with a tag.
    ghost predicate NoStrayTag(world: World, before: seq<u32>) {
      && (forall d :: 0 <= d < |before| ==> !IsTag(before[d]))
      && (forall a: nat :: !IsTag(world.elsewhere(a)))
    }

    lemma TagTellsThePlace(world: World, before: seq<u32>, i: int, j: int)
      requires Valid() && 0 <= i < 3 && 0 <= j < 2
      requires |before| == buffer.Length && Tagged(before)
      ensures Reached(i, j) ==> WordAt(world, tileX, NOC_PCIE + Offset(i) + 4 * j) == Tag(i, j)
      ensures NoStrayTag(world, before) ==>
                (Reached(i, j) <==> WordAt(world, tileX, NOC_PCIE + Offset(i) + 4 * j) == Tag(i, j))
    {
      hide Translate, DeviceRegion;
      ProbesApart(i, j);
      var got := Lands(tileX, NOC_PCIE + Offset(i) + 4 * j);
      if got.Some? {
        var d := got.value / 4;
        assert buffer[d] == if ProbeOf(d) < 3 then Tag(ProbeOf(d), d % 2) else before[d];
      }
    }

    ghost predicate AllReached()
      requires Valid()
      reads this, iatu, iatu.regs
    {
      forall i, j :: 0 <= i < 3 && 0 <= j < 2 ==> Reached(i, j)
    }

    // With the tags in place: read them back until one is wrong. An all-1s
    // first word is a device that is gone.
    method ReadTags(world: World, ghost before: seq<u32>) returns (status: Status, probes: seq<Probe>)
      requires Valid() && |before| == buffer.Length && Tagged(before)
      modifies tlb.regs
      ensures forall r :: 0 <= r < REGISTERS && !Touches(KERNEL_WINDOW, r) ==> tlb.regs[r] == old(tlb.regs[r])
      ensures status in {Success, DeviceDoesNotExist, IoDeviceError} && |probes| <= 3
      ensures status == Success <==> probes == Expected()
      ensures status == DeviceDoesNotExist <==> probes != [] && probes[|probes| - 1].read0 == ALL_ONES
      ensures Sound(world) && AllReached() ==> status == Success
      ensures Sound(world) && NoStrayTag(world, before) ==> (status == Success <==> AllReached())
    {
      hide Lands, NoStrayTag, Tagged, ProbeOf;
      probes := [];
      for i := 0 to 3
        invariant Tagged(before) && probes == Expected()[..i]
        invariant forall r :: 0 <= r < REGISTERS && !Touches(KERNEL_WINDOW, r) ==> tlb.regs[r] == old(tlb.regs[r])
        invariant Sound(world) && NoStrayTag(world, before) ==>
                    forall k, j :: 0 <= k < i && 0 <= j < 2 ==> Reached(k, j)
      {
        TagTellsThePlace(world, before, i, 0);
        TagTellsThePlace(world, before, i, 1);
        var noc := NOC_PCIE + Offset(i);
        var read0 := NocRead32(noc, world, 2 * i);
        if read0 == ALL_ONES {
          return DeviceDoesNotExist, probes + [Probe(read0, 0)];
        }
        var read1 := NocRead32(noc + 4, world, 2 * i + 1);
        probes := probes + [Probe(read0, read1)];
        if read0 != MAGIC + i || read1 != ALL_ONES - (MAGIC + i) {
          return IoDeviceError, probes;
        }
      }
      return Success, probes;
    }

    // What a loopback reads when every probe answers.
    function Expected(): (probes: seq<Probe>)
      ensures |probes| == 3
    {
      [Probe(Tag(0, 0), Tag(0, 1)), Probe(Tag(1, 0), Tag(1, 1)), Probe(Tag(2, 0), Tag(2, 1))]
    }

    // The loopback leaves nothing of itself in the buffer but zeros. If reads
    // are sound and no tag is found by accident, it passes exactly when the
    // path reaches each of the six dwords at its own place.
    method LoopbackVerify(world: World) returns (status: Status, probes: seq<Probe>)
      requires Valid()
      modifies buffer, tlb.regs
      ensures forall d :: 0 <= d < buffer.Length ==> buffer[d] == if ProbeOf(d) < 3 then 0 else old(buffer[d])
      ensures forall r :: 0 <= r < REGISTERS && !Touches(KERNEL_WINDOW, r) ==> tlb.regs[r] == old(tlb.regs[r])
      ensures status in {Success, DeviceDoesNotExist, IoDeviceError}
      ensures status == Success <==> probes == Expected()
      ensures status == DeviceDoesNotExist <==> probes != [] && probes[|probes| - 1].read0 == ALL_ONES
      ensures Sound(world) && AllReached() ==> status == Success
      ensures Sound(world) && NoStrayTag(world, old(buffer[..])) ==> (status == Success <==> AllReached())
    {
      hide Lands, NoStrayTag, ProbeOf;
      WriteTags();
      status, probes := ReadTags(world, old(buffer[..]));
      ClearTags();
    }

    // ------------------------------------------------------------------ arm

    // A register that answers with one of the two PCIe tiles.
    predicate LiveTile(nocId: Option<u32>) {
      nocId.Some? && nocId.value != 0xFFFF_FFFF && nocId.value % 64 in {2, 11}
    }

    // The PCIe tile from its NOC_ID register, if it can be one.
    method DetectTile(nocId: Option<u32>) returns (status: Status)
      requires Valid()
      modifies this`tileX
      ensures Valid()
      ensures status == Success <==> LiveTile(nocId)
      ensures status == DeviceNotReady <==> nocId == None
      ensures status == DeviceDoesNotExist <==> nocId == Some(ALL_ONES)
      ensures status == Success ==> tileX == nocId.value % 0x40
      ensures status != Success ==> tileX == old(tileX)
      ensures status in {Success, DeviceNotReady, DeviceDoesNotExist, ConfigurationError}
    {
      if nocId.None? {
        return DeviceNotReady;
      }
      if nocId.value == ALL_ONES {
        return DeviceDoesNotExist;
      }
      var x := nocId.value % 0x40;
      if x != 2 && x != 11 {
        return ConfigurationError;
      }
      tileX := x;
      return Success;
    }

    // Region 0 over the whole buffer; no buffer is too large for it.
    method ProgramWindow() returns (status: Status)
      requires Valid()
      modifies iatu`records, iatu.regs
      ensures Valid() && status == Success && Translating()
      ensures iatu.records == old(iatu.records)[0 := Region(0, size - 1, phys, true)]
      ensures forall r :: 1 <= r < REGIONS ==> DeviceRegion(iatu.regs[..], r) == old(DeviceRegion(iatu.regs[..], r))
    {
      hide DeviceRegion;
      status := iatu.Program(0, 0, size - 1, phys);
    }

    // The steps of arming that touch the device.
    method Establish(nocId: Option<u32>, world: World) returns (status: Status)
      requires Valid()
      modifies this`tileX, this`stage, iatu`records, iatu.regs, tlb.regs, buffer
      ensures Valid()
      ensures stage == (if LiveTile(nocId) then LoopbackStage else TileDetect)
      ensures !LiveTile(nocId) ==>
                status == if nocId == None then DeviceNotReady
                          else if nocId == Some(ALL_ONES) then DeviceDoesNotExist else ConfigurationError
      ensures LiveTile(nocId) ==> status in {Success, DeviceDoesNotExist, IoDeviceError}
      ensures status == Success ==>
                && tileX in {2, 11} && Translating() && iatu.records[0] == Region(0, size - 1, phys, true)
      ensures forall r :: 0 <= r < REGISTERS && !Touches(KERNEL_WINDOW, r) ==> tlb.regs[r] == old(tlb.regs[r])
      ensures forall r :: 1 <= r < REGIONS ==> DeviceRegion(iatu.regs[..], r) == old(DeviceRegion(iatu.regs[..], r))
      ensures forall d :: 0 <= d < buffer.Length ==>
                buffer[d] == old(buffer[d]) || (ProbeOf(d) < 3 && buffer[d] == 0)
      ensures Sound(world) && nocId == Some(homeTile) && homeTile in {2, 11} ==> status == Success
      ensures status == Success && Sound(world) && NoStrayTag(world, old(buffer[..])) ==> tileX == homeTile
    {
      hide NoStrayTag, ProbeOf, DeviceRegion, Touches, Tagged, Reached, Lands;
      stage := TileDetect;
      status := DetectTile(nocId);
      if status != Success {
        return;
      }
      stage := IatuStage;
      status := ProgramWindow();
      if status != Success {
        return;
      }
      stage := LoopbackStage;
      ReachedByTranslating();
      var probes;
      status, probes := LoopbackVerify(world);
    }

    // Each refusal before the device is touched has its own status and stage.
    // Verified exactly on success; then region 0 translates the whole buffer
    // and the tile is one of the two. While a reset is outstanding nothing but
    // the verified flag changes. The buffer loses nothing but the six probe
    // dwords, and stays all-zero if it was.
    method Arm(nocId: Option<u32>, world: World) returns (status: Status)
      requires Valid()
      modifies this`tileX, this`verified, this`stage, iatu`records, iatu.regs, tlb.regs, buffer
      ensures Valid()
      ensures verified <==> status == Success
      ensures !restricted ==>
                && (stage == NoAlloc <==> !live) && (stage == NoRegs <==> live && !regsMapped)
                && (stage == TileDetect <==> live && regsMapped && !LiveTile(nocId))
                && (stage == LoopbackStage <==> live && regsMapped && LiveTile(nocId) && !verified)
                && (stage == Verified <==> verified)
      ensures status == InsufficientResources <==> !restricted && !live
      ensures status == DeviceNotReady <==> !restricted && live && (!regsMapped || nocId == None)
      ensures status == ConfigurationError <==>
                !restricted && live && regsMapped && nocId !in {None, Some(ALL_ONES)} && !LiveTile(nocId)
      ensures !restricted && live && regsMapped && nocId == Some(ALL_ONES) ==> status == DeviceDoesNotExist
      ensures status == ReinitializationNeeded <==> restricted
      ensures restricted ==>
                && stage == old(stage) && tileX == old(tileX) && iatu.records == old(iatu.records)
                && iatu.regs[..] == old(iatu.regs[..]) && tlb.regs[..] == old(tlb.regs[..])
                && buffer[..] == old(buffer[..])
      ensures verified ==> Bookkeeping() == Armed(old(Bookkeeping()), tileX)
      ensures verified ==>
                && live && regsMapped && tileX in {2, 11}
                && Translating() && iatu.records[0] == Region(0, size - 1, phys, true)
      ensures forall r :: 0 <= r < REGISTERS && !Touches(KERNEL_WINDOW, r) ==> tlb.regs[r] == old(tlb.regs[r])
      ensures forall r :: 1 <= r < REGIONS ==> DeviceRegion(iatu.regs[..], r) == old(DeviceRegion(iatu.regs[..], r))
      ensures forall d :: 0 <= d < buffer.Length ==>
                buffer[d] == old(buffer[d]) || (ProbeOf(d) < 3 && buffer[d] == 0)
      // It succeeds whenever nothing is in the way ...
      ensures (!restricted && live && regsMapped && Sound(world) && nocId == Some(homeTile) && homeTile in {2, 11})
              ==> verified
      // ... and, on sound reads with no accidental tag, only with the tile right.
      ensures verified && Sound(world) && NoStrayTag(world, old(buffer[..])) ==> tileX == homeTile
    {
      hide NoStrayTag, ProbeOf, DeviceRegion, Touches, Lands, Armed;
      verified := false;
      if restricted {
        return ReinitializationNeeded;
      }
      if !live {
        stage := NoAlloc;
        return InsufficientResources;
      }
      if !regsMapped {
        stage := NoRegs;
        return DeviceNotReady;
      }
      status := Establish(nocId, world);
      if status == Success {
        ArmedForm(old(Bookkeeping()), tileX);
        stage := Verified;
        verified := true;
      }
    }

    lemma ReachedByTranslating()
      requires Valid() && Translating()
      ensures AllReached() <==> tileX == homeTile
    {
      ProbesApart(0, 0);
      assert tileX != homeTile ==> !Reached(0, 0);
    }
  }

  // --------------------------------------------------------------- user views

  // Part of physical memory mapped into a process: the section is mapped from
  // a 64 KiB boundary, the caller gets the address `skip` bytes in.
  datatype View = View(section: int, bytes: int, skip: int)

  // Byte k of a range, and whether a buffer has such a byte.
  function ByteOf(offset: u64, k: nat): nat { offset + k }

  predicate InBuffer(size: int, b: nat) { b < size }

  // A range of whole pages, not empty, every byte of it in the buffer.
  ghost predicate PagesOf(size: int, offset: u64, length: u64) {
    && offset % 4096 == 0 && length % 4096 == 0 && 0 < length
    && forall k: nat :: k < length ==> InBuffer(size, ByteOf(offset, k))
  }

  // The buffer of each tier can be mapped whole, and no page past it.
  lemma WholeBuffer(size: int)
    requires size in TIERS
    ensures size in {1024 * 1024 * 1024, 512 * 1024 * 1024, 256 * 1024 * 1024}
    ensures PagesOf(size, 0, size) && PagesOf(size, size - 4096, 4096)
    ensures !PagesOf(size, size, 4096) && !PagesOf(size, 4096, size)
  {
    assert !InBuffer(size, ByteOf(size, 0)) && !InBuffer(size, ByteOf(4096, size - 1));
  }

  // It is so by the sum of offset and length, which no 64-bit range passes.
  lemma PagesBySum(size: int, offset: u64, length: u64)
    ensures PagesOf(size, offset, length) <==>
              offset % 4096 == 0 && length % 4096 == 0 && 0 < length && offset + length <= size
  {
    if 0 < length && offset + length > size {
      assert !InBuffer(size, ByteOf(offset, length - 1));
    }
  }

  // Physical byte behind byte k of what the caller was given.
  function Behind(view: View, k: int): int {
    view.section + (view.skip + k)
  }

  // MAP_SYSMEM, its availability check aside from how it is made.
  method MapSysmem(offset: u64, length: u64, available: bool, size: int, phys: u64) returns (status: Status, view: View)
    requires 0 <= size && phys + size <= DMA_LIMIT
    ensures status == Success <==> available && PagesOf(size, offset, length)
    ensures status == DeviceNotReady <==>
              !available && offset % 4096 == 0 && length % 4096 == 0 && 0 < length
    ensures status in {Success, DeviceNotReady, InvalidParameter}
    ensures status == Success ==>
              && view.section % VIEW_ALIGN == 0 && 0 <= view.skip < VIEW_ALIGN
              && view.skip + length == view.bytes
              && forall k :: 0 <= k < length ==> Behind(view, k) == phys + offset + k
  {
    PagesBySum(size, offset, length);
    view := View(0, 0, 0);
    if offset % PAGE != 0 || length % PAGE != 0 || length == 0 {
      return InvalidParameter, view;
    }
    if !available {
      return DeviceNotReady, view;
    }
    if length > size || offset > size - length {
      return InvalidParameter, view;
    }
    var at := phys + offset;
    var aligned := at - at % VIEW_ALIGN;
    view := View(aligned, length + (at - aligned), at - aligned);
    return Success, view;
  }

  // A process and the device agree on the buffer: byte k of an accepted view
  // is the byte the device reaches at 2^60 + offset + k.
  lemma ViewAndDeviceAgree(s: SysmemContext, offset: u64, length: u64, view: View, k: nat)
    requires s.Valid() && s.Translating() && PagesOf(s.size, offset, length)
    requires forall j :: 0 <= j < length ==> Behind(view, j) == s.phys + offset + j
    requires k < length
    ensures s.Lands(s.homeTile, 0x1000_0000_0000_0000 + offset + k) == Some(offset + k)
    ensures Behind(view, k) == s.phys + (offset + k)
    ensures forall other: nat ::
              s.Lands(s.homeTile, other) == Some(Behind(view, k) - s.phys) ==>
                other == 0x1000_0000_0000_0000 + offset + k
  {
    PagesBySum(s.size, offset, length);
  }
}
