/** The logical control register and the physical bits it becomes on each board revision. */
module ControlRegister {
  import opened Bytes

  type Control = bv16

  const ADDRESS_LINE_16: Control := 0x01
  const VPP_A9_ENABLE: Control := 0x02
  const VPE_ENABLE: Control := 0x04
  const VPP_P1_ENABLE: Control := 0x08
  const ADDRESS_LINE_17: Control := 0x10
  const ADDRESS_LINE_18: Control := 0x20
  const READ_WRITE: Control := 0x40
  const VPP_REGULATOR_ENABLE: Control := 0x80
  const VPP_VPE_DROP_ENABLE: Control := 0x100

  /** The five bits that put a high voltage on the socket or select its level. */
  const HIGH_VOLTAGE: Control := 0x18E

  const HV_ROUTE_MASK: Control := VPP_REGULATOR_ENABLE | VPP_VPE_DROP_ENABLE
  const HV_ALL_OFF_MASK: Control := VPP_REGULATOR_ENABLE | VPP_VPE_DROP_ENABLE | VPP_A9_ENABLE | VPE_ENABLE

  const REVISION_0: byte := 0
  const REVISION_1: byte := 1
  const REVISION_2_0: byte := 2
  const REVISION_2_3: byte := 5

  /** Whether a revision has the Rev 2 control-register layout. */
  predicate Rev2Class(revision: byte) {
    REVISION_2_0 <= revision <= REVISION_2_3
  }

  /** The physical control byte for a logical value. On Rev 2 boards the drop bit and A16 swap
      into the gaps and A18 shares the P1 switch; on Rev 0 and 1 the drop bit shares A16; an
      unknown revision drives nothing. */
  function PhysicalControl(revision: byte, data: Control): bv8 {
    if Rev2Class(revision) then
      ((data & (VPP_A9_ENABLE | VPE_ENABLE | VPP_P1_ENABLE | ADDRESS_LINE_17 | READ_WRITE | VPP_REGULATOR_ENABLE)) as bv8)
      | (if data & VPP_VPE_DROP_ENABLE != 0 then 0x01 else 0)
      | (if data & ADDRESS_LINE_16 != 0 then 0x20 else 0)
      | (if data & ADDRESS_LINE_18 != 0 then 0x08 else 0)
    else if revision == REVISION_0 || revision == REVISION_1 then
      ((data & 0xFF) as bv8) | (if data & VPP_VPE_DROP_ENABLE != 0 then 0x01 else 0)
    else
      0
  }

  /** Every physical pin of a Rev 2 board follows one logical bit, except the P1 switch, which
      follows two. */
  lemma PinsOnRev2(revision: byte, data: Control)
    requires 2 <= revision <= 5
    ensures var pins := PhysicalControl(revision, data);
            && (pins & 0x01 != 0 <==> data & VPP_VPE_DROP_ENABLE != 0)
            && (pins & 0x02 != 0 <==> data & VPP_A9_ENABLE != 0)
            && (pins & 0x04 != 0 <==> data & VPE_ENABLE != 0)
            && (pins & 0x08 != 0 <==> data & VPP_P1_ENABLE != 0 || data & ADDRESS_LINE_18 != 0)
            && (pins & 0x10 != 0 <==> data & ADDRESS_LINE_17 != 0)
            && (pins & 0x20 != 0 <==> data & ADDRESS_LINE_16 != 0)
            && (pins & 0x40 != 0 <==> data & READ_WRITE != 0)
            && (pins & 0x80 != 0 <==> data & VPP_REGULATOR_ENABLE != 0)
  {
  }

  /** On the first two revisions the pins are the low logical bits, and A16 also follows the drop
      bit; a board of no known revision drives nothing. */
  lemma PinsOnOtherRevisions(revision: byte, data: Control)
    requires revision < 2 || revision > 5
    ensures var pins, known := PhysicalControl(revision, data), revision < 2;
            && (pins & 0x01 != 0 <==> known && (data & ADDRESS_LINE_16 != 0 || data & VPP_VPE_DROP_ENABLE != 0))
            && (pins & 0x02 != 0 <==> known && data & VPP_A9_ENABLE != 0)
            && (pins & 0x04 != 0 <==> known && data & VPE_ENABLE != 0)
            && (pins & 0x08 != 0 <==> known && data & VPP_P1_ENABLE != 0)
            && (pins & 0x10 != 0 <==> known && data & ADDRESS_LINE_17 != 0)
            && (pins & 0x20 != 0 <==> known && data & ADDRESS_LINE_18 != 0)
            && (pins & 0x40 != 0 <==> known && data & READ_WRITE != 0)
            && (pins & 0x80 != 0 <==> known && data & VPP_REGULATOR_ENABLE != 0)
  {
  }

  /** Two control values look the same on a Rev 2 board exactly when they differ at most in how
      they turn on the P1 switch, and on a Rev 0 or 1 board in how they turn on A16. */
  lemma SharedPins(revision: byte, a: Control, b: Control)
    requires revision <= 5 && a < 0x200 && b < 0x200
    ensures var shared: Control := if revision < 2 then ADDRESS_LINE_16 | VPP_VPE_DROP_ENABLE
                                   else VPP_P1_ENABLE | ADDRESS_LINE_18;
            PhysicalControl(revision, a) == PhysicalControl(revision, b)
            <==> a | shared == b | shared && (a & shared == 0 <==> b & shared == 0)
  {
  }

  /** The physical bits that switch a programming voltage onto the socket. */
  const SOCKET_VPP_ROUTE_BITS: bv8 := 0x0E
}
