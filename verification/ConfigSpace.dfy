// The 256 bytes of PCI configuration space that RESET_DEVICE saves and
// POST_RESET restores, and the reset marker kept in the COMMAND register.
module ConfigSpace {
  import opened Prelude

  const DWORDS: nat := 64      // TTWIND_PCI_CFG_SAVE_BYTES / 4
  const COMMAND: nat := 1      // TTWIND_PCI_CFG_COMMAND / 4
  const PARITY: nat := 0x40    // TTWIND_PCI_CMD_PARITY

  type Image = s: seq<u32> | |s| == 64 witness seq(64, i => 0)

  // Which of the dwords software can write.
  type Mask = b: seq<bool> | |b| == 64 witness seq(64, i => false)

  // The low half of dword 1 is COMMAND, the high half is STATUS.
  function Low(d: u32): u16 { d % 0x1_0000 }

  predicate Parity(command: u16) { (command / PARITY) % 2 == 1 }

  predicate Marker(img: Image) { Parity(Low(img[COMMAND])) }

  function SetParity(command: u16): (r: u16)
    ensures Parity(r)
    ensures r == command || (!Parity(command) && r == command + PARITY)
  {
    if Parity(command) then command else command + PARITY
  }

  function WithCommand(d: u32, command: u16): (r: u32)
    ensures Low(r) == command && r / 0x1_0000 == d / 0x1_0000
  {
    d - d % 0x1_0000 + command
  }

  // The image with the reset marker set and nothing else changed.
  function WithMarker(img: Image): (r: Image)
    ensures Marker(r) && (r == img <==> Marker(img))
  {
    assert Marker(img) ==> WithCommand(img[COMMAND], SetParity(Low(img[COMMAND]))) == img[COMMAND];
    img[COMMAND := WithCommand(img[COMMAND], SetParity(Low(img[COMMAND])))]
  }

  // Two values of dword i agree as far as software can write it: COMMAND for
  // dword 1 (STATUS is read-only or write-one-to-clear), all bits elsewhere.
  predicate SameDword(i: nat, a: u32, b: u32) {
    if i == COMMAND then Low(a) == Low(b) else a == b
  }

  // The two images agree on every dword the device lets software write.
  ghost predicate SameWritable(a: Image, b: Image, writable: Mask) {
    forall i :: 0 <= i < DWORDS && writable[i] ==> SameDword(i, a[i], b[i])
  }

  // What one landed dword write leaves behind: nothing in a read-only dword,
  // COMMAND plus whatever STATUS decides in dword 1, the value elsewhere.
  function Store(img: Image, i: nat, value: u32, statusHalf: u16, writable: Mask): (r: Image)
    requires i < DWORDS
    ensures forall j :: 0 <= j < DWORDS && j != i ==> r[j] == img[j]
    ensures writable[i] ==> SameDword(i, r[i], value)
  {
    if !writable[i] then img
    else if i == COMMAND then img[i := statusHalf * 0x1_0000 + Low(value)]
    else img[i := value]
  }
}
