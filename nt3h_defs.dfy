/*
 * Types and constants of the NT3H2111 driver: the status codes, driver states and
 * Capability Container of nt3h.h, and the memory map of nt3h.c and nt3h_defs.h.
 */
module Nt3hDefs {

  /** An unsigned 8-bit value (`uint8_t`). */
  type byte = bv8

  /** An unsigned 16-bit value (`uint16_t`): the driver's block addresses. */
  type u16 = x: int | 0 <= x < 0x1_0000

  /** Addition on `uint16_t`: the result wraps around modulo 2^16. */
  function Wrap16(x: int): u16
  {
    x % 0x1_0000
  }

  /** One memory block (`NFC_Block`). */
  type Block = b: seq<byte> | |b| == 16 witness ZeroBlock

  const ZeroBlock: seq<byte> := seq(16, _ => 0)

  /** The tag's block memory, indexed by the 16-bit block address the driver passes to the HAL. */
  type BlockMemory = m: seq<Block> | |m| == 0x1_0000 witness seq(0x1_0000, _ => ZeroBlock)

  /** First block of the SRAM region and the region's length, as the driver declares them. */
  const SramAddress: u16 := 0xF8
  const SramLength: nat := 64

  /** Time an EEPROM block write needs before the next operation, in milliseconds. */
  const EepromSettleMs: nat := 4

  /** Value `NFC_EraseMemory` fills the erased bytes with. */
  const EraseValue: byte := 0x00

  /** Session-register pseudo-address of the 1K tag. */
  const SessionRegs: byte := 0xFE

  /** Index of NS_REG among the session registers; bit 0 of it is RF_FIELD_PRESENT. */
  const NsReg: byte := 6

  /** Result of every public driver operation (`NFC_StatusTypeDef`). */
  datatype Status = Ok | Busy | Error | InvalidArgs

  /** State of a driver handle (`NFC_State`). */
  datatype NfcState = StateReset | StateReady | StateBusy | StateTimeout | StateError

  /** The Capability Container: bytes 12 to 15 of block 0, in this order. */
  datatype CapabilityContainer = CapabilityContainer(magicNumber: byte, version: byte, mlen: byte, accessControl: byte)

  /** The all-zero container of a tag whose CC was never programmed. */
  const BlankCC := CapabilityContainer(0x00, 0x00, 0x00, 0x00)

  /** The container the driver programs into a blank tag. */
  const DefaultCC := CapabilityContainer(0xE1, 0x10, 0x6D, 0x00)

  /** Factory contents of block 0: I2C address 0xAA, serial and lock bytes, and the CC. */
  const FactoryBlock0: Block :=
    [0xAA, 0x00, 0x00, 0x00, 0x00, 0x00, 0x00, 0x00,
     0x00, 0x00, 0x00, 0x00, 0xE1, 0x10, 0x6D, 0x00]
}
