/*
 * The NT3H2111 driver of nt3h.c: a handle whose State field guards every block transfer,
 * the block transfer engine, the byte-span memory operations, and the register, address and
 * Capability Container accessors built on it.
 *
 * The handle object also stands for the tag behind the I2C bus: its block memory, a counter
 * of bus transfers, and two oracles fixed at construction, saying which transfers fail and
 * which byte a register read receives.
 */
module Nt3hDriver {
  import opened Nt3hDefs
  import opened Nt3hSpec

  class Nfc {
    /** Current state of the driver (`hnfc->State`). */
    var State: NfcState
    /** Capability Container cached by NFC_ReadCC (`hnfc->CC`). */
    var CC: CapabilityContainer

    /** The tag's block memory, as the bus reads and writes it. */
    var Memory: BlockMemory
    /** Number of bus transfers issued so far; transfer k fails iff k is in Fails. */
    var Transactions: nat
    /** Every transfer attempted on the bus and every delay waited, in order. */
    ghost var Trace: seq<BusEvent>

    const Fails: iset<nat>
    /** The byte a register read receives when it is transfer k. */
    const Response: nat -> byte

    constructor (memory: BlockMemory, fails: iset<nat>, response: nat -> byte)
      ensures State == StateReset && CC == BlankCC && Memory == memory
      ensures Transactions == 0 && Trace == [] && Fails == fails && Response == response
    {
      State := StateReset;
      CC := BlankCC;
      Memory := memory;
      Transactions := 0;
      Trace := [];
      Fails := fails;
      Response := response;
    }

    // -------------------------------------------------------------------------------------
    // The I2C transport (HAL_I2C_Mem_Read, HAL_I2C_Mem_Write, HAL_I2C_Master_Transmit and
    // HAL_I2C_Master_Receive) over the tag model
    // -------------------------------------------------------------------------------------

    /** Reads block `address` into `buf[pos..pos + 16]`. */
    method BusMemRead(address: u16, buf: array<byte>, pos: nat) returns (ok: bool)
      requires pos + 16 <= buf.Length
      modifies this`Transactions, this`Trace, buf
      ensures ok == (old(Transactions) !in Fails)
      ensures Transactions == old(Transactions) + 1 && Trace == old(Trace) + [MemRead(address)]
      ensures buf[..] == if ok then old(buf[..pos]) + Memory[address] + old(buf[pos + 16..]) else old(buf[..])
    {
      ok := Transactions !in Fails;
      Transactions := Transactions + 1;
      Trace := Trace + [MemRead(address)];
      if ok {
        forall i | 0 <= i < 16 {
          buf[pos + i] := Memory[address][i];
        }
        assert buf[..] == old(buf[..pos]) + Memory[address] + old(buf[pos + 16..]);
      }
    }

    /** Writes `data` to block `address`. */
    method BusMemWrite(address: u16, data: Block) returns (ok: bool)
      modifies this`Memory, this`Transactions, this`Trace
      ensures ok == (old(Transactions) !in Fails)
      ensures Transactions == old(Transactions) + 1 && Trace == old(Trace) + [MemWrite(address, data)]
      ensures Memory == if ok then old(Memory)[address := data] else old(Memory)
    {
      ok := Transactions !in Fails;
      Transactions := Transactions + 1;
      Trace := Trace + [MemWrite(address, data)];
      if ok {
        Memory := Memory[address := data];
      }
    }

    method BusTransmit(packet: seq<byte>) returns (ok: bool)
      modifies this`Transactions, this`Trace
      ensures ok == (old(Transactions) !in Fails)
      ensures Transactions == old(Transactions) + 1 && Trace == old(Trace) + [Transmit(packet)]
    {
      ok := Transactions !in Fails;
      Transactions := Transactions + 1;
      Trace := Trace + [Transmit(packet)];
    }

    method BusReceive() returns (ok: bool, value: byte)
      modifies this`Transactions, this`Trace
      ensures ok == (old(Transactions) !in Fails) && value == Response(old(Transactions))
      ensures Transactions == old(Transactions) + 1 && Trace == old(Trace) + [Receive]
    {
      ok := Transactions !in Fails;
      value := Response(Transactions);
      Transactions := Transactions + 1;
      Trace := Trace + [Receive];
    }

    // -------------------------------------------------------------------------------------
    // Block transfer engine
    // -------------------------------------------------------------------------------------

    /**
     * NFC_ReadBlocks: reads `noOfBlocks` blocks from `address` on, one transfer per block, into
     * `block`. Refuses with Busy unless the handle is ready and with Error for no buffer or no
     * blocks; otherwise stops at the first failed transfer. The handle is ready again on return.
     */
    method ReadBlocks(address: u16, block: array?<byte>, noOfBlocks: nat) returns (st: Status)
      requires noOfBlocks < 0x1_0000
      requires block != null ==> 16 * noOfBlocks <= block.Length
      modifies this`State, this`Transactions, this`Trace, block
      ensures State == old(State)
      ensures old(State) != StateReady ==> st == Busy
      ensures old(State) == StateReady && (block == null || noOfBlocks == 0) ==> st == Error
      ensures old(State) != StateReady || block == null || noOfBlocks == 0 ==>
        Transactions == old(Transactions) && Trace == old(Trace) && (block != null ==> block[..] == old(block[..]))
      ensures old(State) == StateReady && block != null && noOfBlocks > 0 ==>
        && (st == Ok || st == Error)
        && ReadOutcome(st == Ok, block[..], Transactions, Trace)
           == ReadRun(Fails, old(Transactions), Memory, old(block[..]), old(Trace), address, 0, noOfBlocks)
    {
      if State == StateReady {
        if block == null || noOfBlocks == 0 {
          return Error;
        }
        State := StateBusy;
        ghost var outcome := ReadRun(Fails, old(Transactions), Memory, old(block[..]), old(Trace), address, 0, noOfBlocks);
        var addr, i, remaining := address, 0, noOfBlocks;
        while remaining > 0
          invariant i + remaining == noOfBlocks
          invariant addr == Wrap16(address + i)
          invariant State == StateBusy
          invariant ReadRun(Fails, Transactions, Memory, block[..], Trace, address, i, noOfBlocks) == outcome
        {
          var ok := BusMemRead(addr, block, 16 * i);
          if !ok {
            State := StateReady;
            return Error;
          }
          WrapStep(address, i);
          i, addr, remaining := i + 1, Wrap16(addr as int + 1), remaining - 1;
        }
        State := StateReady;
        return Ok;
      } else {
        return Busy;
      }
    }

    /**
     * NFC_WriteBlocks: writes block i of `block` to address + i, in increasing order, waiting
     * the EEPROM settle time after each block outside the SRAM window. The first failed
     * transfer ends the run: earlier blocks stay written, later ones are not touched.
     */
    method WriteBlocks(address: u16, block: array?<byte>, noOfBlocks: nat) returns (st: Status)
      requires noOfBlocks < 0x1_0000
      requires block != null ==> 16 * noOfBlocks <= block.Length
      modifies this`State, this`Memory, this`Transactions, this`Trace
      ensures State == old(State)
      ensures old(State) != StateReady ==> st == Busy
      ensures old(State) == StateReady && (block == null || noOfBlocks == 0) ==> st == Error
      ensures old(State) != StateReady || block == null || noOfBlocks == 0 ==>
        Memory == old(Memory) && Transactions == old(Transactions) && Trace == old(Trace)
      ensures old(State) == StateReady && block != null && noOfBlocks > 0 ==>
        && (st == Ok || st == Error)
        && RunOutcome(st == Ok, Memory, Transactions, Trace)
           == WriteRun(Fails, old(Transactions), old(Memory), old(Trace), address, old(block[..]), 0, noOfBlocks)
    {
      if State == StateReady {
        if block == null || noOfBlocks == 0 {
          return Error;
        }
        State := StateBusy;
        ghost var outcome := WriteRun(Fails, old(Transactions), old(Memory), old(Trace), address, old(block[..]), 0, noOfBlocks);
        var addr, i, remaining := address, 0, noOfBlocks;
        while remaining > 0
          invariant i + remaining == noOfBlocks
          invariant addr == Wrap16(address + i)
          invariant State == StateBusy
          invariant WriteRun(Fails, Transactions, Memory, Trace, address, block[..], i, noOfBlocks) == outcome
        {
          assert block[16 * i..16 * i + 16] == Chunk(block[..], i);
          var ok := BusMemWrite(addr, block[16 * i..16 * i + 16]);
          if !ok {
            State := StateReady;
            return Error;
          }
          ghost var written := Trace;
          if InSramWindow(addr) {
            // SRAM: a block write takes 0.4 ms, no settle delay
            assert written + SettleDelay(addr) == written;
          } else {
            Trace := Trace + [Delay(EepromSettleMs)];
          }
          WrapStep(address, i);
          i, addr, remaining := i + 1, Wrap16(addr as int + 1), remaining - 1;
        }
        State := StateReady;
        return Ok;
      } else {
        return Busy;
      }
    }

    // -------------------------------------------------------------------------------------
    // Byte-span translator
    // -------------------------------------------------------------------------------------

    /**
     * NFC_ReadMemory: reads `size` bytes starting `byteOffset` bytes into block `address`
     * into `bytes`. Fetches the covering blocks into a scratch buffer and copies the span out.
     */
    method ReadMemory(address: u16, byteOffset: u16, bytes: array<byte>, size: nat) returns (st: Status)
      requires size <= bytes.Length && size <= MaxSpan
      modifies this`State, this`Transactions, this`Trace, bytes
      ensures State == old(State)
      ensures st == Ok || st == Error
      ensures old(State) != StateReady ==> st == Error && Transactions == old(Transactions) && Trace == old(Trace)
      ensures old(State) == StateReady ==>
        ReadOutcome(st == Ok, if st == Ok then bytes[..size] else [], Transactions, Trace)
        == ReadMemoryRun(Fails, old(Transactions), Memory, old(Trace), address, byteOffset, size)
      ensures bytes[size..] == old(bytes[size..])
      ensures st != Ok ==> bytes[..] == old(bytes[..])
    {
      var (addr, offset) := Normalise(address, byteOffset);
      var blocksNeeded := BlocksNeeded(offset, size);
      var blocks := new byte[16 * blocksNeeded](_ => 0);
      assert blocks[..] == Scratch(blocksNeeded);
      var rs := ReadBlocks(addr, blocks, blocksNeeded);
      if rs != Ok {
        return Error;
      }
      forall i | 0 <= i < size {
        bytes[i] := blocks[offset + i];
      }
      assert bytes[..size] == blocks[..][offset..offset + size];
      return Ok;
    }

    /**
     * NFC_WriteMemory: writes the first `size` bytes of `bytes` starting `byteOffset` bytes into
     * block `address`: reads the covering blocks, copies the bytes in, writes all blocks back.
     */
    method WriteMemory(address: u16, byteOffset: u16, bytes: seq<byte>, size: nat) returns (st: Status)
      requires size <= |bytes| && size <= MaxSpan
      modifies this`State, this`Memory, this`Transactions, this`Trace
      ensures State == old(State)
      ensures st == Ok || st == Error
      ensures old(State) != StateReady ==>
        st == Error && Memory == old(Memory) && Transactions == old(Transactions) && Trace == old(Trace)
      ensures old(State) == StateReady ==>
        RunOutcome(st == Ok, Memory, Transactions, Trace)
        == WriteMemoryRun(Fails, old(Transactions), old(Memory), old(Trace), address, byteOffset, bytes[..size])
    {
      var (addr, offset) := Normalise(address, byteOffset);
      var blocksNeeded := BlocksNeeded(offset, size);
      var blocks := new byte[16 * blocksNeeded](_ => 0);
      assert blocks[..] == Scratch(blocksNeeded);
      ghost var sp := Span(addr, offset, blocksNeeded);
      assert sp == SpanOf(address, byteOffset, size);
      var rs := ReadBlocks(addr, blocks, blocksNeeded);
      if rs != Ok {
        return Error;
      }
      ghost var fetched := blocks[..];
      forall i | offset <= i < offset + size {
        blocks[i] := bytes[i - offset];
      }
      assert blocks[..] == Splice(fetched, offset, bytes[..size]);
      assert WriteMemoryRun(Fails, old(Transactions), old(Memory), old(Trace), address, byteOffset, bytes[..size])
          == WriteRun(Fails, Transactions, Memory, Trace, addr, blocks[..], 0, blocksNeeded);
      var ws := WriteBlocks(addr, blocks, blocksNeeded);
      if ws != Ok {
        return Error;
      }
      return Ok;
    }

    /**
     * NFC_EraseMemory: sets `size` bytes starting `byteOffset` bytes into block `address` to
     * the erase value, by the same read, splice and write-back as NFC_WriteMemory.
     */
    method EraseMemory(address: u16, byteOffset: u16, size: nat) returns (st: Status)
      requires size <= MaxSpan
      modifies this`State, this`Memory, this`Transactions, this`Trace
      ensures State == old(State)
      ensures st == Ok || st == Error
      ensures old(State) != StateReady ==>
        st == Error && Memory == old(Memory) && Transactions == old(Transactions) && Trace == old(Trace)
      ensures old(State) == StateReady ==>
        RunOutcome(st == Ok, Memory, Transactions, Trace)
        == WriteMemoryRun(Fails, old(Transactions), old(Memory), old(Trace), address, byteOffset, Erased(size))
    {
      var (addr, offset) := Normalise(address, byteOffset);
      var blocksNeeded := BlocksNeeded(offset, size);
      var blocks := new byte[16 * blocksNeeded](_ => 0);
      assert blocks[..] == Scratch(blocksNeeded);
      ghost var sp := Span(addr, offset, blocksNeeded);
      assert sp == SpanOf(address, byteOffset, size);
      var rs := ReadBlocks(addr, blocks, blocksNeeded);
      if rs != Ok {
        return Error;
      }
      ghost var fetched := blocks[..];
      forall i | offset <= i < offset + size {
        blocks[i] := EraseValue;
      }
      assert blocks[..] == Splice(fetched, offset, Erased(size));
      assert WriteMemoryRun(Fails, old(Transactions), old(Memory), old(Trace), address, byteOffset, Erased(size))
          == WriteRun(Fails, Transactions, Memory, Trace, addr, blocks[..], 0, blocksNeeded);
      var ws := WriteBlocks(addr, blocks, blocksNeeded);
      if ws != Ok {
        return Error;
      }
      return Ok;
    }

    // -------------------------------------------------------------------------------------
    // Session and configuration registers
    // -------------------------------------------------------------------------------------

    /**
     * NFC_ReadRegister: sends the 2-byte packet {memAddress, regAddress}, then receives the
     * register's value into `regData[0]`.
     */
    method ReadRegister(memAddress: byte, regAddress: byte, regData: array?<byte>) returns (st: Status)
      requires regData != null ==> 1 <= regData.Length
      modifies this`State, this`Transactions, this`Trace, regData
      ensures State == old(State)
      ensures old(State) != StateReady ==> st == Busy
      ensures old(State) == StateReady && regData == null ==> st == Error
      ensures old(State) != StateReady || regData == null ==>
        Transactions == old(Transactions) && Trace == old(Trace)
      ensures old(State) == StateReady && regData != null ==>
        var t := old(Transactions);
        && (st == Ok <==> t !in Fails && t + 1 !in Fails) && (st != Ok ==> st == Error)
        && Transactions == (if t in Fails then t + 1 else t + 2)
        && Trace == old(Trace) + [Transmit([memAddress, regAddress])] + (if t in Fails then [] else [Receive])
        && (st == Ok ==> regData[0] == Response(t + 1))
      ensures st != Ok && regData != null ==> regData[..] == old(regData[..])
      ensures regData != null ==> regData[1..] == old(regData[1..])
    {
      if State == StateReady {
        if regData == null {
          return Error;
        }
        State := StateBusy;
        var ok := BusTransmit([memAddress, regAddress]);
        if !ok {
          State := StateReady;
          return Error;
        }
        var rxBuff;
        ok, rxBuff := BusReceive();
        if !ok {
          State := StateReady;
          return Error;
        }
        regData[0] := rxBuff;
        State := StateReady;
        return Ok;
      } else {
        return Busy;
      }
    }

    /** NFC_WriteRegister: sends the 4-byte packet {memAddress, regAddress, mask, regData}. */
    method WriteRegister(memAddress: byte, regAddress: byte, mask: byte, regData: byte) returns (st: Status)
      modifies this`State, this`Transactions, this`Trace
      ensures State == old(State)
      ensures old(State) != StateReady ==> st == Busy && Transactions == old(Transactions) && Trace == old(Trace)
      ensures old(State) == StateReady ==>
        && (st == Ok <==> old(Transactions) !in Fails) && (st != Ok ==> st == Error)
        && Transactions == old(Transactions) + 1
        && Trace == old(Trace) + [Transmit([memAddress, regAddress, mask, regData])]
    {
      if State == StateReady {
        State := StateBusy;
        var ok := BusTransmit([memAddress, regAddress, mask, regData]);
        if !ok {
          State := StateReady;
          return Error;
        }
        State := StateReady;
        return Ok;
      } else {
        return Busy;
      }
    }

    /**
     * NFC_WriteConfig: read-modify-write of byte `regAddress` of block `memAddress`, merging
     * `regData` into the bits `mask` keeps. The driver does not check `regAddress`; an index
     * past the block is outside this model.
     */
    method WriteConfig(memAddress: byte, regAddress: byte, mask: byte, regData: byte) returns (st: Status)
      requires regAddress < 16
      modifies this`State, this`Memory, this`Transactions, this`Trace
      ensures State == old(State)
      ensures st == Ok || st == Error
      ensures old(State) != StateReady ==>
        st == Error && Memory == old(Memory) && Transactions == old(Transactions) && Trace == old(Trace)
      ensures var a := memAddress as u16;
        old(State) == StateReady ==>
          RunOutcome(st == Ok, Memory, Transactions, Trace)
          == RmwRun(Fails, old(Transactions), old(Memory), old(Trace), a,
                    ConfigUpdate(old(Memory)[a], regAddress as nat, mask, regData))
    {
      var address, index := memAddress as u16, regAddress as nat;
      var block := new byte[16];
      ReadOne(Fails, Transactions, Memory, block[..], Trace, address);
      var rs := ReadBlocks(address, block, 1);
      if rs != Ok {
        return Error;
      }
      ghost var fetched := block[..];
      block[index] := ConfigMerge(block[index], mask, regData);
      assert block[..] == fetched[index := ConfigMerge(fetched[index], mask, regData)];
      assert RmwRun(Fails, old(Transactions), old(Memory), old(Trace), address,
                    ConfigUpdate(old(Memory)[address], index, mask, regData))
          == WriteRun(Fails, Transactions, Memory, Trace, address, block[..], 0, 1);
      var ws := WriteBlocks(address, block, 1);
      if ws != Ok {
        return Error;
      }
      return Ok;
    }

    /** NFC_ReadConfig: reads byte `regAddress` of block `memAddress` into `regData[0]`. */
    method ReadConfig(memAddress: byte, regAddress: byte, regData: array?<byte>) returns (st: Status)
      requires regAddress < 16
      requires regData != null ==> 1 <= regData.Length
      modifies this`State, this`Transactions, this`Trace, regData
      ensures State == old(State)
      ensures st == Ok || st == Error
      ensures st == Ok <==> regData != null && old(State) == StateReady && old(Transactions) !in Fails
      ensures regData == null || old(State) != StateReady ==> Transactions == old(Transactions) && Trace == old(Trace)
      ensures regData != null && old(State) == StateReady ==>
        Transactions == old(Transactions) + 1 && Trace == old(Trace) + [MemRead(memAddress as u16)]
      ensures st == Ok ==> regData[0] == Memory[memAddress as u16][regAddress]
      ensures st != Ok && regData != null ==> regData[..] == old(regData[..])
      ensures regData != null ==> regData[1..] == old(regData[1..])
    {
      if regData == null {
        return Error;
      }
      var address, index := memAddress as u16, regAddress as nat;
      var block := new byte[16];
      ReadOne(Fails, Transactions, Memory, block[..], Trace, address);
      var rs := ReadBlocks(address, block, 1);
      if rs != Ok {
        return Error;
      }
      regData[0] := block[index];
      return Ok;
    }

    // -------------------------------------------------------------------------------------
    // Fields of block 0 and the field-present flag
    // -------------------------------------------------------------------------------------

    /** NFC_WriteAddr: overwrites byte 0 of block 0 (the tag's I2C address) with `addr`. */
    method WriteAddr(addr: byte) returns (st: Status)
      modifies this`State, this`Memory, this`Transactions, this`Trace
      ensures State == old(State)
      ensures st == Ok || st == Error
      ensures old(State) != StateReady ==>
        st == Error && Memory == old(Memory) && Transactions == old(Transactions) && Trace == old(Trace)
      ensures old(State) == StateReady ==>
        RunOutcome(st == Ok, Memory, Transactions, Trace)
        == RmwRun(Fails, old(Transactions), old(Memory), old(Trace), 0, WithAddr(old(Memory)[0], addr))
    {
      var block := new byte[16];
      ReadOne(Fails, Transactions, Memory, block[..], Trace, 0);
      var rs := ReadBlocks(0x00, block, 1);
      if rs != Ok {
        return Error;
      }
      ghost var fetched := block[..];
      block[0] := addr;
      assert block[..] == fetched[0 := addr];
      assert RmwRun(Fails, old(Transactions), old(Memory), old(Trace), 0, WithAddr(old(Memory)[0], addr))
          == WriteRun(Fails, Transactions, Memory, Trace, 0, block[..], 0, 1);
      var ws := WriteBlocks(0x00, block, 1);
      if ws != Ok {
        return Error;
      }
      return Ok;
    }

    /** NFC_ReadFieldPresent: reads NS_REG and stores its RF_FIELD_PRESENT bit. */
    method ReadFieldPresent(isFieldPresent: array<byte>) returns (st: Status)
      requires 1 <= isFieldPresent.Length
      modifies this`State, this`Transactions, this`Trace, isFieldPresent
      ensures State == old(State)
      ensures st == Ok || st == Error
      ensures st == Ok <==> old(State) == StateReady && old(Transactions) !in Fails && old(Transactions) + 1 !in Fails
      ensures st == Ok ==> isFieldPresent[0] == FieldPresent(Response(old(Transactions) + 1))
      ensures st != Ok ==> isFieldPresent[..] == old(isFieldPresent[..])
      ensures isFieldPresent[1..] == old(isFieldPresent[1..])
      ensures old(State) != StateReady ==> Transactions == old(Transactions) && Trace == old(Trace)
      ensures old(State) == StateReady ==>
        var t := old(Transactions);
        && Transactions == (if t in Fails then t + 1 else t + 2)
        && Trace == old(Trace) + [Transmit([SessionRegs, NsReg])] + (if t in Fails then [] else [Receive])
    {
      var nsReg := new byte[1];
      var rs := ReadRegister(SessionRegs, NsReg, nsReg);
      if rs != Ok {
        return Error;
      }
      isFieldPresent[0] := FieldPresent(nsReg[0]);
      return Ok;
    }

    /** NFC_ReadCC: copies bytes 12 to 15 of block 0 into the cached Capability Container. */
    method ReadCC() returns (st: Status)
      modifies this`State, this`CC, this`Transactions, this`Trace
      ensures State == old(State)
      ensures st == Ok || st == Error
      ensures st == Ok <==> old(State) == StateReady && old(Transactions) !in Fails
      ensures CC == if st == Ok then CCOf(Memory[0]) else old(CC)
      ensures old(State) != StateReady ==> Transactions == old(Transactions) && Trace == old(Trace)
      ensures old(State) == StateReady ==> Transactions == old(Transactions) + 1 && Trace == old(Trace) + [MemRead(0)]
    {
      var block := new byte[16];
      ReadOne(Fails, Transactions, Memory, block[..], Trace, 0);
      var rs := ReadBlocks(0x00, block, 1);
      if rs != Ok {
        return Error;
      }
      CC := CCOf(block[..]);
      return Ok;
    }

    /** NFC_WriteCC: replaces bytes 12 to 15 of block 0 with `cc`; the cached CC is not updated. */
    method WriteCC(cc: CapabilityContainer) returns (st: Status)
      modifies this`State, this`Memory, this`Transactions, this`Trace
      ensures State == old(State)
      ensures st == Ok || st == Error
      ensures old(State) != StateReady ==>
        st == Error && Memory == old(Memory) && Transactions == old(Transactions) && Trace == old(Trace)
      ensures old(State) == StateReady ==>
        RunOutcome(st == Ok, Memory, Transactions, Trace)
        == RmwRun(Fails, old(Transactions), old(Memory), old(Trace), 0, WithCC(old(Memory)[0], cc))
    {
      var block := new byte[16];
      ReadOne(Fails, Transactions, Memory, block[..], Trace, 0);
      var rs := ReadBlocks(0x00, block, 1);
      if rs != Ok {
        return Error;
      }
      ghost var fetched := block[..];
      assert fetched == old(Memory)[0];
      var ccBytes := [cc.magicNumber, cc.version, cc.mlen, cc.accessControl];
      forall i | 0 <= i < 4 {
        block[12 + i] := ccBytes[i];
      }
      assert block[..] == fetched[..12] + ccBytes;
      assert RmwRun(Fails, old(Transactions), old(Memory), old(Trace), 0, WithCC(old(Memory)[0], cc))
          == WriteRun(Fails, Transactions, Memory, Trace, 0, block[..], 0, 1);
      var ws := WriteBlocks(0x00, block, 1);
      if ws != Ok {
        return Error;
      }
      return Ok;
    }
  }

  // ---------------------------------------------------------------------------------------
  // Initialisation
  // ---------------------------------------------------------------------------------------

  /**
   * NFC_Init: probes the tag (`deviceReady` is the bus probe's answer), reads the Capability
   * Container and, if all four of its bytes are zero, programs the default container.
   */
  method Init(hnfc: Nfc?, deviceReady: bool) returns (st: Status)
    modifies hnfc
    ensures st == Ok || st == Error
    ensures hnfc == null ==> st == Error
    ensures hnfc != null && !deviceReady ==>
      && st == Error && hnfc.State == StateReset && hnfc.CC == old(hnfc.CC) && hnfc.Memory == old(hnfc.Memory)
      && hnfc.Transactions == old(hnfc.Transactions) && hnfc.Trace == old(hnfc.Trace)
    ensures hnfc != null && deviceReady && (old(hnfc.Transactions) in hnfc.Fails) ==>
      && st == Error && hnfc.State == StateReset && hnfc.CC == old(hnfc.CC) && hnfc.Memory == old(hnfc.Memory)
      && hnfc.Transactions == old(hnfc.Transactions) + 1 && hnfc.Trace == old(hnfc.Trace) + [MemRead(0)]
    ensures hnfc != null && deviceReady && (old(hnfc.Transactions) !in hnfc.Fails) ==>
      var t := old(hnfc.Transactions);
      var mem := old(hnfc.Memory);
      var read := old(hnfc.Trace) + [MemRead(0)];
      && hnfc.State == StateReady
      // the cache holds the container as read, also after seeding
      && hnfc.CC == CCOf(mem[0])
      && if CCOf(mem[0]) == BlankCC
         then RunOutcome(st == Ok, hnfc.Memory, hnfc.Transactions, hnfc.Trace)
              == RmwRun(hnfc.Fails, t + 1, mem, read, 0, WithCC(mem[0], DefaultCC))
         else st == Ok && hnfc.Memory == mem && hnfc.Transactions == t + 1 && hnfc.Trace == read
  {
    if hnfc == null {
      return Error;
    }
    hnfc.State := StateBusy;
    if !deviceReady {
      hnfc.State := StateReset;
      return Error;
    }
    hnfc.State := StateReady;
    var rs := hnfc.ReadCC();
    if rs != Ok {
      hnfc.State := StateReset;
      return Error;
    }
    if hnfc.CC.magicNumber == 0 && hnfc.CC.version == 0 && hnfc.CC.mlen == 0 && hnfc.CC.accessControl == 0 {
      var ws := hnfc.WriteCC(DefaultCC);
      if ws != Ok {
        return Error;
      }
    }
    return Ok;
  }

  /** NFC_DeInit: puts the handle back in the reset state. */
  method DeInit(hnfc: Nfc?) returns (st: Status)
    modifies hnfc
    ensures hnfc == null ==> st == Error
    ensures hnfc != null ==>
      && st == Ok && hnfc.State == StateReset && hnfc.CC == old(hnfc.CC)
      && hnfc.Memory == old(hnfc.Memory) && hnfc.Transactions == old(hnfc.Transactions)
      && hnfc.Trace == old(hnfc.Trace)
  {
    if hnfc == null {
      return Error;
    }
    hnfc.State := StateReset;
    return Ok;
  }
}
