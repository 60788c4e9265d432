/** Shared types of the Metaplex auction program as seen by the printing-v2 redeem path:
    fixed-width unsigned integers, the program's error codes, and winning configurations. */
module MetaplexTypes {

  /** Rust `u8` */
  type u8 = x: int | 0 <= x < 0x100

  /** Rust `u64` */
  type u64 = x: int | 0 <= x < 0x1_0000_0000_0000_0000

  const U64_MAX: u64 := 0xFFFF_FFFF_FFFF_FFFF

  /** The `MetaplexError` variants this path can return. */
  datatype MetaplexError =
    | WrongBidEndpointForPrize
    | InvalidEditionNumber
    | NumericalOverflowError

  /** `Result<T, ProgramError>` restricted to this program's errors. */
  datatype Result<T> = Ok(value: T) | Err(error: MetaplexError)

  /** `ProgramResult`: success without a value, or an error. */
  datatype Outcome = Pass | Fail(error: MetaplexError)

  datatype Option<T> = None | Some(value: T)

  /** `WinningConfigType`: what kind of prize a winning configuration item
      hands out. The variants follow the enum in
      `rust/metaplex/program/src/state.rs`, which is not part of this model;
      the allocation only asks whether an item is `PrintingV2` or not. */
  datatype WinningConfigType =
    | TokenOnlyTransfer
    | FullRightsTransfer
    | PrintingV1
    | PrintingV2

  /** `WinningConfigItem`: one prize of a winning placement, drawn from the
      safety deposit box with the given order index. */
  datatype WinningConfigItem = WinningConfigItem(
    safetyDepositBoxIndex: u8,
    amount: u8,
    winningConfigType: WinningConfigType)

  /** `WinningConfig`: everything the winner at one placement receives. */
  datatype WinningConfig = WinningConfig(items: seq<WinningConfigItem>)

  /** `u64::checked_add(..).ok_or(MetaplexError::NumericalOverflowError)` */
  function CheckedAdd(a: u64, b: u64): (r: Result<u64>)
    ensures r.Ok? <==> a + b <= U64_MAX
    ensures r.Ok? ==> r.value == a + b
    ensures r.Err? ==> r.error == NumericalOverflowError
  {
    if a + b <= U64_MAX then Ok(a + b) else Err(NumericalOverflowError)
  }
}
