# NT3H2111 NFC tag driver, modelled in Dafny

This project models `nt3h.c`, a blocking I2C driver for the NXP NT3H2111 NFC tag. It proves
properties of that model. The driver has five parts, and the model follows them:

- **Block transfer engine.** `NFC_ReadBlocks` and `NFC_WriteBlocks` move 16-byte blocks one at a
  time. The handle's `State` guards them. After each block written outside the SRAM window,
  `NFC_WriteBlocks` waits 4 ms.
- **Byte-span translator.** `NFC_ReadMemory`, `NFC_WriteMemory` and `NFC_EraseMemory` work on
  byte spans:
  - they fold the byte offset into the block address and count the covering blocks;
  - they fetch those blocks into a scratch buffer;
  - they copy the span out of the buffer, or splice bytes or zeros into it and write every
    block back.
- **Single-field read-modify-writes and registers.**
  - `NFC_WriteConfig` and `NFC_ReadConfig` merge or read one configuration byte.
  - `NFC_WriteAddr` writes the I2C address byte of block 0.
  - `NFC_ReadCC` and `NFC_WriteCC` handle the Capability Container, bytes 12 to 15 of block 0.
  - `NFC_ReadRegister`, `NFC_WriteRegister` and `NFC_ReadFieldPresent` send session-register
    packets.
- **Initialisation.** `NFC_Init` probes the tag and reads the Capability Container. If the
  container is blank, it programs the default one. `NFC_DeInit` resets the handle.
- **Types and constants** from `nt3h.h` and `nt3h_defs.h`.

Files:

- `nt3h_defs.dfy` (module `Nt3hDefs`) holds the status codes, the driver states, the Capability
  Container, blocks, the 16-bit block memory and the constants.
- `nt3h_spec.dfy` (module `Nt3hSpec`) holds the pure parts of the driver:
  - the offset normalisation, the block count, the SRAM-window test and the byte merges;
  - the functions that specify each operation as a run of bus transfers (`WriteRun`,
    `ReadRun`, `ReadMemoryRun`, `WriteMemoryRun`, `RmwRun`);
  - the lemmas that say what those runs do.
- `nt3h.dfy` (module `Nt3hDriver`) holds class `Nfc`. Each operation of the driver is a
  method on it, with the loops and in-place buffer updates of the C code. `Init` and `DeInit`
  are module-level methods that take a possibly-null handle.

The `Nfc` object also stands for the tag behind the bus:

- `Memory` is 0x10000 blocks of 16 bytes, indexed by the 16-bit block address the driver passes to the HAL.
- `Transactions` counts the bus transfers issued so far.
- `Fails` is the set of transfer numbers the bus rejects.
- `Response` gives the byte each register read receives.
- The ghost `Trace` records every transfer attempted and every settle delay waited.

Each operation's postcondition ties its outcome (status, memory, transfer count, trace) to the
specification function of its run. The lemmas then say what those runs do, for every failure
pattern:

- the blocks before the first failed transfer are written in order;
- nothing is rolled back;
- a read-back returns what was written;
- writing or erasing twice is the same as doing it once.

Addresses are `uint16_t` in the driver. The model wraps them explicitly modulo 2^16 (`Wrap16`).

### Code as written

The model follows the code where it differs from what its own comments and declarations
evidently intend:

- **Block count.** The comment at nt3h.c:248 says one more block is added when the operation
  reads into the next block. This evidently intends the fewest blocks that hold the span,
  `ceil((offset + size) / 16)`. The code counts `size/16`, plus one for a partial tail
  (nt3h.c:247), plus one more whenever `offset + size > 16` (nt3h.c:248). This can be one
  block more than needed: 32 bytes at offset 0 fetch 3 blocks, not 2. `BlocksNeeded` and
  `BlockCountOverCounts` state it. `StoreOfLoad` shows the extra block is written back
  unchanged.
- **SRAM window.** nt3h.c:40-41 declare the SRAM region as starting at 0xF8 with a length of
  64 bytes. The comment at nt3h.c:165 evidently intends "no settle delay inside SRAM". The
  test at nt3h.c:163 is `address > 0xF8 && address < 0xF8 + 64`. It is strict at the low end
  and compares a byte length with block addresses. So block 0xF8 gets the 4 ms delay, and
  blocks 0xF9 to 0x137 do not (`SramWindowBoundary`). Because the HAL is given an 8-bit memory address (`I2C_MEMADD_SIZE_8BIT`, nt3h.c:39), blocks 0x100 to 0x137 reach the tag as blocks 0x00 to 0x37: those writes land outside SRAM yet get no settle delay.
- **Error statuses.** nt3h.h:53 declares `NFC_INVALID_ARGS`, and nt3h_defs.h:75-77 declare
  `NT3H_E_NULL_PTR` and `NT3H_E_INVALID_ARGS`. This evidently intends separate
  invalid-argument and null-pointer results. The code never returns them. It checks no
  buffer pointer in the span operations, and it returns `NFC_ERROR` for a null block buffer
  or a zero block count (nt3h.c:149-150, 200-201).
- **Cached container.** `NFC_Init` does not refresh the cached Capability Container after it
  programs the default one. The cache keeps the blank container read from the tag (`Init`).
- **State after a failed seed.** When programming the default container fails, `NFC_Init`
  returns `NFC_ERROR` and leaves the handle READY (nt3h.c:104-107).
- **Scratch buffer.** The scratch buffer is an uninitialised variable-length array in C. The
  model zero-fills it. The postconditions show its first contents never reach a result: a
  read copies out only fetched bytes, and a write-back happens only after every block was
  fetched.

## Model

| member | source | states |
|---|---|---|
| Nt3hSpec.Normalise | nt3h.c:241-242 | the in-block offset is below 16; block address times 16 plus offset is unchanged modulo the 16-bit wrap, and unchanged exactly when the address does not wrap |
| Nt3hSpec.BlocksNeeded | nt3h.c:244-248 | the count is zero iff the size is; the fetched blocks cover offset plus size; it is at most one above the rounded-up block count; it fits in `uint16_t` for sizes up to MaxSpan |
| Nt3hSpec.SpanOf | nt3h.c:241-248 | the start block, in-block offset and block count of one span operation: the offset is below 16, the count is zero iff the size is, and the blocks cover the span |
| Nt3hSpec.MaxSpanIsTight | nt3h.c:244-248 | for every in-block offset, MaxSpan bytes need fewer than 0x10000 blocks, and one byte more needs exactly 0x10000, which a `uint16_t` count cannot hold; the count taken modulo 2^16 is 0 at 0xFFFF0 bytes, 1 at 0xFFFF1 and 0 again at 0x1FFFE1 |
| Nt3hSpec.BlockCountOverCounts | nt3h.c:244-248 | 32 bytes at offset 0 fetch 3 blocks where 2 hold them; 16 bytes at offset 8 fetch 2 |
| Nt3hSpec.SramWindowBoundary | nt3h.c:163 | blocks 0xF7, 0xF8 and 0x138 are outside the no-delay window; 0xF9 and 0x137 are inside |
| Nt3hSpec.InSramWindow | nt3h.c:163 | defines the no-delay test as written: the block address is strictly above 0xF8 and below 0xF8 + 64 |
| Nt3hSpec.SettleDelay | nt3h.c:163-171 | defines the wait after a successful block write: none inside the window, one 4 ms delay outside it |
| Nt3hSpec.ConfigMerge | nt3h.c:449 | bits outside the mask become exactly regData's bits; bits inside it keep the old value with regData's bits set on top |
| Nt3hSpec.ConfigMergeKeeps | nt3h.c:449 | every bit set in regData ends up set; when regData has no bit inside the mask, the masked bits keep their old value |
| Nt3hSpec.ConfigMergeExample | nt3h.c:449 | merging 0x0F into 0xAB under mask 0xF0 gives 0xAF |
| Nt3hSpec.ConfigUpdate | nt3h.c:449 | byte regAddress of the block becomes the masked merge of its old value; the other 15 bytes are unchanged |
| Nt3hSpec.WithAddr | nt3h.c:500 | byte 0 becomes addr and bytes 1 to 15 are unchanged |
| Nt3hSpec.FieldPresent | nt3h.c:524 | the result is 0 or 1, and it is 1 iff NS_REG is odd |
| Nt3hSpec.CCOf | nt3h.c:537 | defines the container NFC_ReadCC copies out: bytes 12 to 15 of block 0, in field order |
| Nt3hSpec.WithCC | nt3h.c:550 | bytes 0 to 11 are unchanged and the container read back from bytes 12 to 15 is the one written |
| Nt3hSpec.WithOwnCC | nt3h.c:537 | writing back the container just read leaves block 0 unchanged |
| Nt3hSpec.DefaultIsFactoryCC | nt3h_defs.h:57-58 | the container the driver programs is bytes 12 to 15 of the factory block 0 |
| Nt3hSpec.Splice | nt3h.c:294-295 | the span takes the copied bytes; every other byte of the buffer keeps its value; the length is unchanged |
| Nt3hSpec.Erased | nt3h.c:336 | `size` bytes, all equal to the erase value 0x00 |
| Nt3hSpec.SpliceTwice | nt3h.c:294-295 | copying the same bytes into the same span twice is the same as doing it once |
| Nt3hSpec.LoadBlocks | nt3h.c:205-217 | defines the bytes of `n` consecutive blocks from `address`, wrapping at 0x10000, in the order the read loop stores them; the result is 16n bytes |
| Nt3hSpec.StoreBlocks | nt3h.c:154-176 | defines the memory after the first `n` blocks of the data are written to address, address + 1, and so on, in that order |
| Nt3hSpec.LoadBlocksAt | nt3h.c:205-217 | byte i of a run of reads is byte i mod 16 of block address + i/16 (wrapped) |
| Nt3hSpec.StoreBlocksAt | nt3h.c:154-176 | after a run of writes, a block in the run holds its chunk of the data; every other block is unchanged |
| Nt3hSpec.LoadAfterStore | nt3h.c:154-217 | reading back a run of blocks just written yields the data written |
| Nt3hSpec.StoreOfLoad | nt3h.c:154-217 | writing back the blocks just read changes no block |
| Nt3hSpec.LoadChunk | nt3h.c:205-217 | block j of a run of reads is the block at address + j |
| Nt3hSpec.StoreAfterStore | nt3h.c:154-176 | a second run of writes over the same blocks overwrites the first completely |
| Nt3hSpec.SpanRead | nt3h.c:258-259 | defines the bytes a span read copies out: `size` bytes from the normalised offset of the fetched blocks |
| Nt3hSpec.SpanWrite | nt3h.c:294-297 | defines the memory after a successful span write: the fetched blocks, with the bytes spliced in at the offset, stored back |
| Nt3hSpec.SpanErase | nt3h.c:335-338 | defines the memory after a successful erase: a span write of `size` bytes of 0x00 |
| Nt3hSpec.SpanWriteAt | nt3h.c:274-304 | after a write, each byte of the span holds the corresponding input byte; every other byte of every block, fetched or not, is unchanged |
| Nt3hSpec.ReadAfterWrite | nt3h.c:238-304 | reading the range just written returns exactly the bytes written |
| Nt3hSpec.WriteIdempotent | nt3h.c:274-304 | writing the same bytes twice leaves the memory as writing them once |
| Nt3hSpec.EraseIdempotent | nt3h.c:315-345 | erasing a range twice leaves the memory as erasing it once |
| Nt3hSpec.ReadAfterErase | nt3h.c:238-345 | after an erase, every byte of the range reads back as 0x00 |
| Nt3hSpec.Completed | nt3h.c:154-161 | the number of successful transfers before the first failure: all of them succeed, and the next one, if any, fails |
| Nt3hSpec.WriteRun | nt3h.c:154-176 | defines the write loop from block i on: block i goes to address + i; a failed transfer ends the run with the memory as it is; a successful one is followed by its settle delay |
| Nt3hSpec.WriteRunFrom | nt3h.c:154-176 | a write run resumed after i successful blocks ends with the memory, count and trace of the whole run |
| Nt3hSpec.WriteRunOutcome | nt3h.c:154-176 | the write run succeeds iff every transfer does; the blocks before the first failure are written in order and no later block is touched; it attempts one transfer past the last success; the trace is each written block with its settle delay, then the failed write |
| Nt3hSpec.ReadRun | nt3h.c:205-217 | defines the read loop from block i on: block address + i lands in bytes 16i to 16i + 15 of the buffer; a failed transfer ends the run with the buffer as it is; the buffer keeps its length |
| Nt3hSpec.ReadRunFrom | nt3h.c:205-217 | a read run resumed after i successful blocks succeeds iff every transfer does, with one attempt past the last success and one read per attempt in the trace |
| Nt3hSpec.ReadRunFills | nt3h.c:205-217 | the buffer holds the blocks fetched before the first failure, in order, followed by its untouched rest |
| Nt3hSpec.ReadRunOutcome | nt3h.c:205-217 | the read run succeeds iff every transfer does; it fills the buffer in order up to the first failure and leaves the rest alone; it gives the count and trace of reads attempted |
| Nt3hSpec.WriteOrder | nt3h.c:154-176 | the block writes of a run are, in order, block i of the buffer to address + i |
| Nt3hSpec.SettleTime | nt3h.c:163-171 | a run waits 4 ms after each block outside the SRAM window and never after a block inside it |
| Nt3hSpec.ReadMemoryRun | nt3h.c:238-262 | defines a span read on a ready handle: an empty span fails with no transfer; otherwise the covering blocks are fetched into a zeroed scratch buffer and, on success, the span is copied out |
| Nt3hSpec.WriteMemoryRun | nt3h.c:274-345 | defines a span write or erase on a ready handle: an empty span fails with no transfer; otherwise it is SpanWriteRun |
| Nt3hSpec.SpanWriteRun | nt3h.c:286-301 | defines fetch, splice and write-back: a failed fetch ends with the memory unchanged; otherwise the fetched blocks, with the bytes spliced in, are written back by the write loop |
| Nt3hSpec.ReadMemoryOutcome | nt3h.c:238-262 | a span read succeeds iff the size is nonzero and every covering block is fetched, yielding exactly the span's bytes; it gives the transfers attempted and the trace |
| Nt3hSpec.WriteMemoryNoFetch | nt3h.c:288-292 | an empty span or a failed fetch fails and leaves the memory unchanged, after only the read transfers |
| Nt3hSpec.WriteMemoryAfterFetch | nt3h.c:288-297 | after a complete fetch, a span write is the block-write run of the fetched blocks with the bytes spliced in |
| Nt3hSpec.WriteMemorySucceeds | nt3h.c:274-304 | a successful span write has a nonzero size and leaves exactly the memory SpanWrite describes |
| Nt3hSpec.EraseMemorySucceeds | nt3h.c:315-345 | a successful erase has a nonzero size and leaves exactly the memory SpanErase describes |
| Nt3hSpec.RmwRun | nt3h.c:443-455 | defines the single-block read-modify-write shared by NFC_WriteConfig, NFC_WriteAddr (nt3h.c:497-504) and NFC_WriteCC (nt3h.c:547-554): one read; if it succeeds, the write loop over the updated block |
| Nt3hSpec.RmwOutcome | nt3h.c:443-455 | a read-modify-write is one read and, if that succeeds, one write; the block changes iff both succeed, and no other block changes |
| Nt3hSpec.ConfigWriteEffect | nt3h.c:439-458 | the config write succeeds iff both transfers do; on success the byte holds the masked merge; the other bytes of the block and all other blocks are unchanged |
| Nt3hSpec.AddrWriteEffect | nt3h.c:492-507 | the address write succeeds iff both transfers do; on success byte 0 of block 0 holds the new address; nothing else changes |
| Nt3hSpec.CCWriteEffect | nt3h.c:543-557 | the container write succeeds iff both transfers do; on success the container read back is the one written; bytes 0 to 11 of block 0 and all other blocks are unchanged |
| Nt3hDriver.Nfc.ReadBlocks | nt3h.c:196-226 | Busy unless READY; Error and no transfer for a null buffer or no blocks; otherwise status, buffer, transfer count and trace are those of ReadRun; State is READY again on return |
| Nt3hDriver.Nfc.WriteBlocks | nt3h.c:145-185 | Busy unless READY; Error and no transfer for a null buffer or no blocks; otherwise status, memory, transfer count and trace are those of WriteRun; State is READY again on return |
| Nt3hDriver.Nfc.ReadMemory | nt3h.c:238-262 | not READY: Error with no transfer; otherwise status, copied bytes, count and trace are those of ReadMemoryRun; bytes past `size`, and all of them on failure, are unchanged |
| Nt3hDriver.Nfc.WriteMemory | nt3h.c:274-304 | not READY: Error with nothing changed; otherwise status, memory, count and trace are those of WriteMemoryRun |
| Nt3hDriver.Nfc.EraseMemory | nt3h.c:315-345 | not READY: Error with nothing changed; otherwise status, memory, count and trace are those of WriteMemoryRun with `size` erase values |
| Nt3hDriver.Nfc.ReadRegister | nt3h.c:356-392 | Busy unless READY; Error with no transfer for a null buffer; otherwise it sends {memAddress, regAddress}, then receives; Ok iff both transfers succeed, with the received byte stored in the first element and no other element changed |
| Nt3hDriver.Nfc.WriteRegister | nt3h.c:404-427 | Busy unless READY; otherwise it sends {memAddress, regAddress, mask, regData}; Ok iff that transfer succeeds |
| Nt3hDriver.Nfc.WriteConfig | nt3h.c:439-458 | not READY: Error with nothing changed; otherwise status, memory, count and trace are those of RmwRun with the masked merge of byte regAddress |
| Nt3hDriver.Nfc.ReadConfig | nt3h.c:469-484 | Ok iff the buffer is non-null, the handle READY and the one read succeeds; the byte stored is byte regAddress of the block; no other element of the buffer changes |
| Nt3hDriver.Nfc.WriteAddr | nt3h.c:492-507 | not READY: Error with nothing changed; otherwise status, memory, count and trace are those of RmwRun with byte 0 of block 0 replaced |
| Nt3hDriver.Nfc.ReadFieldPresent | nt3h.c:517-527 | Ok iff both register transfers to NS_REG (0xFE, 6) succeed; on success it stores bit 0 of the byte received in the first element, and no other element changes; the count and trace are those of the register read |
| Nt3hDriver.Nfc.ReadCC | nt3h.c:530-540 | Ok iff READY and the read succeeds; the cache then holds bytes 12 to 15 of block 0, and otherwise is unchanged |
| Nt3hDriver.Nfc.WriteCC | nt3h.c:543-557 | not READY: Error with nothing changed; otherwise status, memory, count and trace are those of RmwRun with the container replaced; the cache is not touched |
| Nt3hDriver.Init | nt3h.c:67-119 | the status is Ok or Error; null handle: Error; failed probe or container read: Error and State RESET; otherwise State READY and the cache holds the container read; the default container is written iff the one read is blank, and otherwise no transfer follows the read |
| Nt3hDriver.DeInit | nt3h.c:126-134 | null handle: Error; otherwise Ok, State RESET and nothing else changes |

## Left out

- The HAL I2C primitives (`HAL_I2C_Mem_Read`, `HAL_I2C_Mem_Write`, `HAL_I2C_Master_Transmit`, `HAL_I2C_Master_Receive`) are foreign code. They are modelled by `BusMemRead`, `BusMemWrite`, `BusTransmit` and `BusReceive` over the tag model. Transfer k fails iff k is in `Fails`; a register read receives `Response(k)`.
- `Nt3hDriver.Nfc.BusMemWrite` and `Nt3hDriver.Nfc.BusMemRead`: a failed transfer is modelled as having no effect on the tag or the buffer. Neither the driver nor the HAL promises this: a memory write can report failure after its data bytes reached the tag, and a memory read fills the buffer byte by byte before it can time out. The following claims rest on this assumption and not on nt3h.c:
  - the "only if" half of `RmwOutcome`'s "the block changes iff both transfers succeed", which `ConfigWriteEffect`, `AddrWriteEffect` and `CCWriteEffect` repeat;
  - the failed block staying unchanged in `WriteRunOutcome`;
  - the failed block's slot counting as part of the untouched rest of the buffer in `ReadRunFills`, `ReadRunOutcome`, `Nt3hDriver.Nfc.ReadBlocks` and `Nt3hDriver.Nfc.ReadMemory`.
- The bus probe `HAL_I2C_IsDeviceReady` is foreign code. Its answer is the `deviceReady` parameter of `Init`.
- The 8-bit memory-address size passed to the HAL (`I2C_MEMADD_SIZE_8BIT`, nt3h.c:39) is not modelled. Any truncation of block addresses above 0xFF happens inside the foreign HAL, so the tag model is indexed by the full 16-bit address. One consequence: `ReadAfterWrite`, `WriteIdempotent`, `StoreOfLoad` and `LoadAfterStore` hold for runs of up to 0xFFFE blocks only because the model has 65536 distinct blocks. With a one-byte memory address on the bus, a run longer than 256 blocks would overlap itself, and later blocks would overwrite earlier ones.
- `HAL_Delay` is recorded as a `Delay` event in the ghost trace. The `timeout` parameters are not modelled, because no driver logic depends on them: a timeout surfaces as an ordinary failed transfer.
- `Log_info` calls and the `DEBUG_NFC` print functions are left out. They only format and log text.
- The `volatile` qualifiers on `CC`, `State` and `blocksNeeded` are not modelled. The driver is single-threaded, so they are plain fields and locals.
- `Nt3hDriver.Nfc.ReadMemory`: requires `size <= MaxSpan` (0xFFFE blocks). Above it the driver's `uint16_t blocksNeeded` wraps (`MaxSpanIsTight`). From MaxSpan + 1 (0xFFFE1) to 0xFFFF0 bytes it wraps to 0: the scratch array has length zero, which is undefined in C, and `NFC_ReadBlocks` refuses (nt3h.c:200-201). From 0xFFFF1 bytes on, the wrapped count is either too small, so the `memcpy` of nt3h.c:259 reads past the scratch array, or 0 again (as at 0x1FFFE1 bytes, `MaxSpanIsTight`), so `NFC_ReadBlocks` refuses.
- `Nt3hDriver.Nfc.WriteMemory`: requires `size <= MaxSpan`, for the same reason; from 0xFFFF1 bytes on, the wrapped count is either too small, so the `memcpy` of nt3h.c:295 writes past the scratch array, or 0 again, so `NFC_ReadBlocks` refuses and nothing is written.
- `Nt3hDriver.Nfc.EraseMemory`: requires `size <= MaxSpan`, for the same reason; from 0xFFFF1 bytes on, the wrapped count is either too small, so the `memset` of nt3h.c:336 writes past the scratch array, or 0 again, so `NFC_ReadBlocks` refuses and nothing is written.
- `Nt3hDriver.Nfc.WriteConfig`: requires `regAddress < 16`. The driver indexes the block without a bounds check, and a larger index writes outside the block.
- `Nt3hDriver.Nfc.ReadConfig`: requires `regAddress < 16`, for the same reason.
- Operations other than `NFC_Init` and `NFC_DeInit` dereference the handle without a null check. The model makes them methods of a non-null `Nfc` object.
- Several operations use a caller's pointer without a null check. The model takes a non-null array or a value in each case:
  - the span operations pass their byte buffer to `memcpy` (nt3h.c:259, 295);
  - `NFC_ReadFieldPresent` writes `*isFieldPresent` (nt3h.c:524), and the model takes a non-null `array<byte>`;
  - `NFC_WriteCC` copies from `cc` (nt3h.c:550), and the model takes the container as a value.
- A zero-length variable-length array (size 0) is undefined in C. The model allocates an empty array, and `ReadBlocks` then returns Error without a transfer.
- The driver's other handle fields (`hi2c`, `DevAddress`, `Password`) carry no logic in these operations and are left out.
- The global handle in `nt3h.h`, the unused CC bit masks, the undefined `null_ptr_check`, and the `nt3h_dev` function-pointer interface of `nt3h_defs.h` are left out. Nothing in `nt3h.c` uses them.
- The factory values of blocks 56 to 58 are left out. No code reads them.
