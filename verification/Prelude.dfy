// Shared vocabulary of the model: optional values, fixed-width integers and
// the status codes the driver's handlers complete with.
module Prelude {

  datatype Option<+T> = None | Some(value: T)

  const TWO32: int := 0x1_0000_0000
  const TWO64: int := 0x1_0000_0000_0000_0000

  // The C types the driver computes in; arithmetic that may wrap is written
  // out with an explicit remainder wherever it is modelled.
  type u16 = x: int | 0 <= x < 0x1_0000 witness 0
  type u32 = x: int | 0 <= x < 0x1_0000_0000 witness 0
  type u64 = x: int | 0 <= x < 0x1_0000_0000_0000_0000 witness 0

  const ALL_ONES: u32 := 0xFFFF_FFFF

  datatype Status =
    | Success
    | DeviceBusy
    | DeviceDoesNotExist
    | DeviceRemoved
    | DeviceDataError
    | DeviceNotReady
    | IoDeviceError
    | IoTimeout
    | InvalidAddress
    | InvalidParameter
    | NotSupported
    | AccessDenied
    | NotFound
    | InsufficientResources
    | InvalidDeviceState
    | ReinitializationNeeded
    | ConfigurationError
}
