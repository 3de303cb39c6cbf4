/**
 * The hub's per-channel cache. Temperatures are kept as the raw register
 * words they were read from (None where the hub holds NaN).
 */
module Cache {

  import opened Base
  import opened Registers

  /** What the hub knows about one channel. */
  datatype ChannelState = ChannelState(
    currentTemp: Option<bv16>,
    setpoint: Option<bv16>,
    standbySetpoint: Option<bv16>,
    mode: Mode,
    action: Action,
    batteryPct: uint8,
    primaryIndex: bv16,
    allTpLost: bool)

  /** The battery value that stands for "unknown". */
  const BATTERY_UNKNOWN: uint8 := 255

  /** The state of a channel nothing has been read for yet. */
  const FreshChannel := ChannelState(None, None, None, Heat, ActionOff, BATTERY_UNKNOWN, 0, false)

  /** The values the decoders can leave in a channel state. */
  predicate WellFormed(st: ChannelState) {
    st.primaryIndex < 64 && (st.batteryPct == BATTERY_UNKNOWN || (st.batteryPct <= 100 && st.batteryPct % 10 == 0))
  }

  /** The cache, keyed by channel number. */
  type Channels = map<int, ChannelState>

  /** The entry the hub works on for `ch`: the cached one, or a fresh one that indexing the map inserts. */
  function Entry(cache: Channels, ch: int): ChannelState {
    if ch in cache then cache[ch] else FreshChannel
  }

  // The read accessors, with the fallback each gives for a channel not in the cache.

  function CurrentTemp(cache: Channels, ch: int): Option<bv16> {
    if ch in cache then cache[ch].currentTemp else None
  }

  function Setpoint(cache: Channels, ch: int): Option<bv16> {
    if ch in cache then cache[ch].setpoint else None
  }

  function StandbySetpoint(cache: Channels, ch: int): Option<bv16> {
    if ch in cache then cache[ch].standbySetpoint else None
  }

  function ChannelMode(cache: Channels, ch: int): Mode {
    if ch in cache then cache[ch].mode else Heat
  }

  function ChannelAction(cache: Channels, ch: int): Action {
    if ch in cache then cache[ch].action else ActionOff
  }

  /**
   * The accessors' fallbacks are the fresh state's values: every accessor
   * reads the entry the hub would work on, so a channel the hub has only
   * indexed reads the same as one it never touched.
   */
  lemma AccessorsReadEntry(cache: Channels, ch: int)
    ensures CurrentTemp(cache, ch) == Entry(cache, ch).currentTemp
    ensures Setpoint(cache, ch) == Entry(cache, ch).setpoint
    ensures StandbySetpoint(cache, ch) == Entry(cache, ch).standbySetpoint
    ensures ChannelMode(cache, ch) == Entry(cache, ch).mode
    ensures ChannelAction(cache, ch) == Entry(cache, ch).action
  {
  }

  /** A fresh channel state has mode HEAT, action OFF, unknown battery, no primary element, probes not lost. */
  lemma FreshChannelDefaults()
    ensures FreshChannel.mode == Heat && FreshChannel.action == ActionOff
    ensures FreshChannel.batteryPct == 255 && FreshChannel.primaryIndex == 0 && !FreshChannel.allTpLost
    ensures FreshChannel.currentTemp.None? && FreshChannel.setpoint.None? && FreshChannel.standbySetpoint.None?
    ensures WellFormed(FreshChannel)
  {
  }

  /** Inserting a fresh entry for an absent channel changes nothing any accessor reports. */
  lemma FreshInsertIsInvisible(cache: Channels, ch: int, c: int)
    requires ch !in cache
    ensures CurrentTemp(cache[ch := FreshChannel], c) == CurrentTemp(cache, c)
    ensures Setpoint(cache[ch := FreshChannel], c) == Setpoint(cache, c)
    ensures StandbySetpoint(cache[ch := FreshChannel], c) == StandbySetpoint(cache, c)
    ensures ChannelMode(cache[ch := FreshChannel], c) == ChannelMode(cache, c)
    ensures ChannelAction(cache[ch := FreshChannel], c) == ChannelAction(cache, c)
  {
  }
}
