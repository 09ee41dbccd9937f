// The window configuration registers: programming a window, CONFIGURE_TLB,
// and the round trip that gates recovery.
module TlbRegisters {
  import opened Prelude
  import opened Bits
  import opened TlbImage
  import opened WindowPool

  // BAR0 + 0x1FC00000, 0x1000 bytes, as dwords: three per window - the 202
  // windows of 2 MiB, then 8 of 4 GiB - then one strided-multicast register
  // for each of the first 32.
  const REGISTERS: int := 0x400
  const STRIDED: int := (202 + 8) * 3
  const STRIDED_COUNT: int := 32

  // The registers that programming a window writes.
  predicate Touches(id: int, r: int) {
    3 * id <= r < 3 * id + 3 || (id < STRIDED_COUNT && r == STRIDED + id)
  }

  // No two windows share a register, and all of them are in the block: writers
  // of different windows need no common lock.
  lemma FootprintsApart(i: int, j: int)
    requires 0 <= i < WINDOWS && 0 <= j < WINDOWS
    ensures (exists r :: Touches(i, r) && Touches(j, r)) <==> i == j
    ensures forall r :: Touches(i, r) ==> 0 <= r < REGISTERS
  {
    assert Touches(i, 3 * i);
  }

  // The register image a window's three dwords make up.
  function WindowImage(regs: seq<u32>, id: nat): (image: nat)
    requires |regs| == REGISTERS && id < WINDOWS
    ensures image < Pow2(96)
  {
    Pow2Values();
    regs[3 * id] + regs[3 * id + 1] * TWO32 + regs[3 * id + 2] * TWO64
  }

  // Where the device aims a window.
  function Aim(regs: seq<u32>, id: nat): Config
    requires |regs| == REGISTERS && id < WINDOWS
  {
    Decoded(WindowImage(regs, id))
  }

  // A config the register can hold exactly, for one of the two NOCs.
  predicate Accepted(reservedZero: bool, cfg: Config) {
    reservedZero && Representable(cfg) && cfg.noc in {0, 1}
  }

  // The configuration of the sanity check: ARC tile, strict ordering.
  const PROBE: Config := Config(0, 8, 0, 0, 0, 0, 0, 1, 0, 0)

  lemma ProbeImage()
    ensures Assembled(Values(PROBE), 10) == 0x4000 * TWO32 + 0x40 * TWO64
  {
    hide Pow2;
    Pow2Values();
    FieldValues();
    Pow2Add(64, 6);
    var vs := Values(PROBE);
    assert Assembled(vs, 1) == 0;
    assert Assembled(vs, 2) == 8 * Pow2(43);
    assert Assembled(vs, 3) == Assembled(vs, 2);
    assert Assembled(vs, 4) == Assembled(vs, 2);
    assert Assembled(vs, 5) == Assembled(vs, 2);
    assert Assembled(vs, 6) == Assembled(vs, 2);
    assert Assembled(vs, 7) == Assembled(vs, 2);
    assert Assembled(vs, 8) == Assembled(vs, 2) + Pow2(70);
    assert Assembled(vs, 9) == Assembled(vs, 8);
    assert Assembled(vs, 10) == Assembled(vs, 8);
  }

  // A link under test: what a read of a register returns, given what it holds.
  type Link = (nat, u32) -> u32

  class RegisterBlock {
    const regs: array<u32>
    var mapped: bool

    ghost predicate Valid() {
      regs.Length == REGISTERS
    }

    constructor ()
      ensures Valid() && fresh(regs) && mapped
    {
      regs := new u32[REGISTERS](_ => 0);
      mapped := true;
    }

    // Afterwards the window's registers hold the config's image, its strided
    // register is clear, and every other register is as it was.
    method Program(id: nat, cfg: Config)
      requires Valid() && id < WINDOWS
      modifies regs
      ensures WindowImage(regs[..], id) == Assembled(Values(cfg), 10)
      ensures Representable(cfg) <==> Aim(regs[..], id) == cfg
      ensures id < STRIDED_COUNT ==> regs[STRIDED + id] == 0
      ensures forall r :: 0 <= r < REGISTERS && !Touches(id, r) ==> regs[r] == old(regs[r])
    {
      hide Pow2, Assembled;
      var lo, hi := Pack(cfg);
      regs[3 * id] := lo % TWO32;
      regs[3 * id + 1] := lo / TWO32;
      regs[3 * id + 2] := hi;
      if id < STRIDED_COUNT {
        regs[STRIDED + id] := 0;
      }
      PackRoundTripIff(cfg);
    }

    // CONFIGURE_TLB from its checks on, under StateLock.
    method Configure(pool: Allocator, h: Handle, id: u32, reservedZero: bool, cfg: Config) returns (status: Status)
      requires Valid() && pool.Valid()
      modifies regs
      ensures status == Success <==> Accepted(reservedZero, cfg) && Owns(pool.Contents(), h, id) && mapped
      ensures status == DeviceNotReady <==> Accepted(reservedZero, cfg) && Owns(pool.Contents(), h, id) && !mapped
      ensures status == AccessDenied <==>
                Accepted(reservedZero, cfg) && id < WINDOWS && !Owns(pool.Contents(), h, id)
      ensures status in {Success, DeviceNotReady, AccessDenied, InvalidParameter}
      ensures status != Success ==> regs[..] == old(regs[..])
      ensures status == Success ==>
                && id < WINDOWS && Aim(regs[..], id) == cfg
                && forall other :: 0 <= other < WINDOWS && other != id ==>
                     Aim(regs[..], other) == old(Aim(regs[..], other))
    {
      hide Pow2, Assembled, Field;
      if !reservedZero || cfg.addr % WINDOW_SIZE != 0 {
        return InvalidParameter;
      }
      if cfg.xEnd > 0x3F || cfg.yEnd > 0x3F || cfg.xStart > 0x3F || cfg.yStart > 0x3F
         || cfg.noc > 1 || cfg.mcast > 1 || cfg.ordering > 3 || cfg.linked > 1 || cfg.staticVc > 1 {
        return InvalidParameter;
      }
      status := pool.CheckOwner(h, id);
      if status == Success && !mapped {
        status := DeviceNotReady;
      }
      if status == Success {
        Program(id, cfg);
      }
    }

    // The check passes exactly if the link echoes the three dwords written,
    // which are three different values. Only the kernel
    // window's own registers change.
    method SanityCheck(link: Link) returns (status: Status)
      requires Valid()
      modifies regs
      ensures status == if link(603, 0) == 0 && link(604, 0x4000) == 0x4000 && link(605, 0x40) == 0x40
                        then Success else IoDeviceError
      ensures Aim(regs[..], KERNEL_WINDOW) == PROBE
      ensures forall r :: 0 <= r < REGISTERS && !Touches(KERNEL_WINDOW, r) ==> regs[r] == old(regs[r])
    {
      hide Pow2, Assembled, Field;
      var lo, hi := Pack(PROBE);
      Program(KERNEL_WINDOW, PROBE);
      ProbeImage();
      var rb0 := link(3 * KERNEL_WINDOW, regs[3 * KERNEL_WINDOW]);
      var rb1 := link(3 * KERNEL_WINDOW + 1, regs[3 * KERNEL_WINDOW + 1]);
      var rb2 := link(3 * KERNEL_WINDOW + 2, regs[3 * KERNEL_WINDOW + 2]);
      if rb0 != lo % TWO32 || rb1 != lo / TWO32 || rb2 != hi {
        return IoDeviceError;
      }
      return Success;
    }
  }
}
