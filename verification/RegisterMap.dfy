/**
 The writable registers of the controller and the 19-bit words that cross
 between the clock domains.  A word is kept as the fields the source
 concatenates, so every bit pattern is exactly one value.
 */
module RegisterMap {
  import opened Basics

  type Word2 = w: nat | w < 0x4
  type Word14 = w: nat | w < 0x4000
  type Word16 = w: nat | w < 0x1_0000
  type Word32 = w: nat | w < 0x1_0000_0000

  const REG_CONTROL: nat := 0x0
  const REG_MANUAL: nat := 0x1
  const REG_REFERENCE: nat := 0x3

  datatype RegisterWrite = RegisterWrite(address: Word14, data: Word32)

  /** The 19 control bits, from the top bit down: reference select, manual DAC value, manual mode. */
  datatype Registers = Registers(referenceSelect: Word2, manualDac: Word16, manualMode: bool)

  const CLEARED := Registers(0, 0, false)

  /** The 19 status bits: active DAC value above the PPS, 10 MHz and locked flags. */
  datatype Status = Status(activeDac: Word16, isPps: bool, is10m: bool, locked: bool)

  const NO_STATUS := Status(0, false, false, false)

  /** The effect of a bus write on the registers; an unknown address changes nothing. */
  function Written(r: Registers, w: RegisterWrite): Registers {
    var register := w.address % 16;
    if register == REG_CONTROL then r.(manualMode := w.data % 2 == 1)
    else if register == REG_MANUAL then r.(manualDac := w.data % 0x1_0000)
    else if register == REG_REFERENCE then r.(referenceSelect := w.data % 4)
    else r
  }

  /** Field by field: register 0 holds the mode bit, 1 the manual DAC value and 3 the reference select. */
  lemma WriteByField(r: Registers, w: RegisterWrite)
    ensures var next, register := Written(r, w), w.address % 16;
            && next.manualMode == (if register == 0 then w.data % 2 == 1 else r.manualMode)
            && next.manualDac == (if register == 1 then w.data % 65536 else r.manualDac)
            && next.referenceSelect == (if register == 3 then w.data % 4 else r.referenceSelect)
  {
  }

  function AfterEdge(r: Registers, write: Option<RegisterWrite>): Registers {
    if write.Some? then Written(r, write.value) else r
  }

  /** The register file. */
  class RegisterFile {
    var manualMode: bool
    var manualDac: Word16
    var referenceSelect: Word2

    function Contents(): Registers
      reads this
    {
      Registers(referenceSelect, manualDac, manualMode)
    }

    constructor ()
      ensures Contents() == CLEARED
    {
      manualMode := false;
      manualDac := 0;
      referenceSelect := 0;
    }

    method Tick(write: Option<RegisterWrite>)
      modifies this
      ensures Contents() == AfterEdge(old(Contents()), write)
    {
      if write.Some? {
        var register, data := write.value.address % 16, write.value.data;
        if register == REG_CONTROL {
          manualMode := data % 2 == 1;
        } else if register == REG_MANUAL {
          manualDac := data % 0x1_0000;
        } else if register == REG_REFERENCE {
          referenceSelect := data % 4;
        }
      }
    }
  }
}
