/**
 * The controller's register map as the hub uses it, and the decoding and
 * encoding of the bit fields it reads and writes.
 */
module Registers {

  // Categories (register-space partitions); the page is the channel or element number minus one.
  const CAT_CHANNELS: bv8 := 0x03
  const CAT_ELEMENTS: bv8 := 0x01
  const CAT_PACKED: bv8 := 0x02

  // Channels category.
  const CH_TIMER_EVENT: bv8 := 0x00
  const CH_TIMER_EVENT_OUTP_ON_MASK: bv16 := 0x0010
  const CH_PRIMARY_ELEMENT: bv8 := 0x02
  const CH_PRIMARY_ELEMENT_ELEMENT_MASK: bv16 := 0x003f
  const CH_PRIMARY_ELEMENT_ALL_TP_LOST_MASK: bv16 := 0x0400

  // Elements category: word offsets within the 11-register element block.
  const ELEM_AIR_TEMPERATURE: nat := 0x04
  const ELEM_BATTERY_STATUS: nat := 0x0A

  // Packed category.
  const PACKED_MANUAL_TEMPERATURE: bv8 := 0x00
  const PACKED_STANDBY_TEMPERATURE: bv8 := 0x04
  const PACKED_CONFIGURATION: bv8 := 0x07
  const PACKED_CONFIGURATION_MODE_MASK: bv16 := 0x07
  const PACKED_CONFIGURATION_MODE_MANUAL: bv16 := 0x00
  const PACKED_CONFIGURATION_MODE_STANDBY: bv16 := 0x01
  const PACKED_CONFIGURATION_MODE_STANDBY_ALT: bv16 := 0x04
  const PACKED_CONFIGURATION_PROGRAM_BIT: bv16 := 0x0008
  const PACKED_CONFIGURATION_PROGRAM_MASK: bv16 := 0x0018
  const PACKED_CONFIGURATION_STRICT_UNLOCK_MASK: bv16 := 0x0078

  /** The baseline configuration word of a healthy channel, without its mode bits. */
  const STRICT_BASELINE: bv16 := 0x4000

  /** The climate modes the hub handles: HEAT (manual) and OFF (standby). */
  datatype Mode = Heat | Off

  /** The climate action reported for a channel. */
  datatype Action = ActionOff | Idle | Heating

  /**
   * The header's layout of the configuration word: the three mode encodings
   * are distinct and lie inside the mode field; the program bit lies inside
   * the program mask, which lies inside the strict-unlock mask, and all three
   * are disjoint from the mode field; the element-id and probes-lost masks of
   * the primary-element word are disjoint.
   */
  lemma MaskLayout()
    ensures PACKED_CONFIGURATION_MODE_MANUAL != PACKED_CONFIGURATION_MODE_STANDBY
    ensures PACKED_CONFIGURATION_MODE_MANUAL != PACKED_CONFIGURATION_MODE_STANDBY_ALT
    ensures PACKED_CONFIGURATION_MODE_STANDBY != PACKED_CONFIGURATION_MODE_STANDBY_ALT
    ensures PACKED_CONFIGURATION_MODE_MANUAL & PACKED_CONFIGURATION_MODE_MASK == PACKED_CONFIGURATION_MODE_MANUAL
    ensures PACKED_CONFIGURATION_MODE_STANDBY & PACKED_CONFIGURATION_MODE_MASK == PACKED_CONFIGURATION_MODE_STANDBY
    ensures PACKED_CONFIGURATION_MODE_STANDBY_ALT & PACKED_CONFIGURATION_MODE_MASK == PACKED_CONFIGURATION_MODE_STANDBY_ALT
    ensures PACKED_CONFIGURATION_PROGRAM_BIT & PACKED_CONFIGURATION_PROGRAM_MASK == PACKED_CONFIGURATION_PROGRAM_BIT
    ensures PACKED_CONFIGURATION_PROGRAM_MASK & PACKED_CONFIGURATION_STRICT_UNLOCK_MASK == PACKED_CONFIGURATION_PROGRAM_MASK
    ensures PACKED_CONFIGURATION_STRICT_UNLOCK_MASK & PACKED_CONFIGURATION_MODE_MASK == 0
    ensures CH_PRIMARY_ELEMENT_ELEMENT_MASK & CH_PRIMARY_ELEMENT_ALL_TP_LOST_MASK == 0
  {
  }

  /** The mode a configuration word shows: OFF for the standby encodings 1 and 4, HEAT for anything else. */
  function DecodeMode(cfg: bv16): Mode
  {
    var field := cfg & PACKED_CONFIGURATION_MODE_MASK;
    if field == PACKED_CONFIGURATION_MODE_STANDBY || field == PACKED_CONFIGURATION_MODE_STANDBY_ALT
    then Off else Heat
  }

  /** The mode decoding reads the mode field and nothing else. */
  lemma DecodeModeReadsModeBits(a: bv16, b: bv16)
    requires a & PACKED_CONFIGURATION_MODE_MASK == b & PACKED_CONFIGURATION_MODE_MASK
    ensures DecodeMode(a) == DecodeMode(b)
  {
  }

  /** The mode-field encoding the hub writes: STANDBY for OFF, MANUAL for HEAT (never the alternate encoding). */
  function ModeBits(m: Mode): (enc: bv16)
    ensures enc & PACKED_CONFIGURATION_MODE_MASK == enc
    ensures enc != PACKED_CONFIGURATION_MODE_STANDBY_ALT
    ensures DecodeMode(enc) == m
  {
    match m
    case Off => PACKED_CONFIGURATION_MODE_STANDBY
    case Heat => PACKED_CONFIGURATION_MODE_MANUAL
  }

  /**
   * The read-modify-write value: the current configuration word with its mode
   * field replaced. Every other bit is kept and the result shows the wanted mode.
   */
  function ReconcileValue(cur: bv16, want: Mode): (next: bv16)
    ensures next & !PACKED_CONFIGURATION_MODE_MASK == cur & !PACKED_CONFIGURATION_MODE_MASK
    ensures next & PACKED_CONFIGURATION_MODE_MASK == ModeBits(want)
    ensures DecodeMode(next) == want
  {
    (cur & !PACKED_CONFIGURATION_MODE_MASK) | (ModeBits(want) & PACKED_CONFIGURATION_MODE_MASK)
  }

  /** The strict baseline value: 0x4000 with the wanted mode field, all other bits clear. */
  function StrictValue(want: Mode): (v: bv16)
    ensures v & !PACKED_CONFIGURATION_MODE_MASK == STRICT_BASELINE
    ensures DecodeMode(v) == want
  {
    STRICT_BASELINE | ModeBits(want)
  }

  /** The primary element id of a channel: the low six bits of its primary-element word. */
  function ElementId(v: bv16): (id: bv16)
    ensures id < 64
  {
    v & CH_PRIMARY_ELEMENT_ELEMENT_MASK
  }

  /** Whether the controller flags all temperature probes of the channel as lost (bit 10). */
  predicate AllProbesLost(v: bv16)
  {
    v & CH_PRIMARY_ELEMENT_ALL_TP_LOST_MASK != 0
  }

  /** Setting or clearing the probes-lost flag leaves the element id alone. */
  lemma ElementIdIgnoresLostFlag(v: bv16, w: bv16)
    requires v & !CH_PRIMARY_ELEMENT_ALL_TP_LOST_MASK == w & !CH_PRIMARY_ELEMENT_ALL_TP_LOST_MASK
    ensures ElementId(v) == ElementId(w)
  {
    assert v & CH_PRIMARY_ELEMENT_ELEMENT_MASK == w & CH_PRIMARY_ELEMENT_ELEMENT_MASK;
  }

  /** Changing the element id leaves the probes-lost flag alone. */
  lemma LostFlagIgnoresElementId(v: bv16, w: bv16)
    requires v & !CH_PRIMARY_ELEMENT_ELEMENT_MASK == w & !CH_PRIMARY_ELEMENT_ELEMENT_MASK
    ensures AllProbesLost(v) == AllProbesLost(w)
  {
    assert v & CH_PRIMARY_ELEMENT_ALL_TP_LOST_MASK == w & CH_PRIMARY_ELEMENT_ALL_TP_LOST_MASK;
  }

  /** Whether a channel's timer-event word shows its heating output on (bit 4). */
  predicate OutputOn(v: bv16)
  {
    v & CH_TIMER_EVENT_OUTP_ON_MASK != 0
  }

  /** The battery percentage of an element's battery word (0..10 steps, saturating at 10). */
  function BatteryPct(raw: bv16): (pct: nat)
    ensures pct <= 100 && pct % 10 == 0
    ensures pct == 100 <==> raw >= 10
    ensures pct < 100 ==> pct == 10 * (raw as nat)
  {
    var steps := if raw > 10 then 10 else raw as nat;
    steps * 10
  }

  /**
   * What a masked write leaves in a register, `(reg & andMask) | orMask`:
   * the bits of the OR mask are set, every other bit is the register's bit
   * kept or cleared by the AND mask.
   */
  function ApplyMask(reg: bv16, andMask: bv16, orMask: bv16): (r: bv16)
    ensures r & orMask == orMask
    ensures r & !orMask == reg & andMask & !orMask
  {
    (reg & andMask) | orMask
  }

  /** Bits clear in both masks end up clear. */
  lemma MaskClearsUnselectedBits(reg: bv16, andMask: bv16, orMask: bv16)
    ensures ApplyMask(reg, andMask, orMask) & !(andMask | orMask) == 0
  {
  }

  /** Bits kept by the AND mask and not set by the OR mask keep their value. */
  lemma MaskKeepsAndOnlyBits(reg: bv16, andMask: bv16, orMask: bv16)
    ensures ApplyMask(reg, andMask, orMask) & (andMask & !orMask) == reg & (andMask & !orMask)
  {
  }
}
