/**
 * The hub component: its per-channel cache, the channel schedule that
 * `update()` works through, and the operations that write to the controller.
 * The milliseconds clock is the `now` parameter of the operations that read it.
 */
module Hub {

  import opened Base
  import opened Frames
  import opened Registers
  import opened Transport
  import opened Cache

  /** The controller has channels 1..16; channel c lives on register page c - 1. */
  const CHANNEL_COUNT: nat := 16
  /** How long normal polling pauses after a write, in milliseconds. */
  const WRITE_GUARD_MS: nat := 100
  /** The steps of one channel's polling cycle. */
  const STEP_COUNT: nat := 6

  predicate IsChannel(ch: int) {
    1 <= ch <= CHANNEL_COUNT
  }

  predicate AllChannelsIn(s: seq<int>) {
    forall i :: 0 <= i < |s| ==> IsChannel(s[i])
  }

  predicate Distinct(s: seq<int>) {
    forall i, j :: 0 <= i < j < |s| ==> s[i] != s[j]
  }

  function Page(ch: int): bv8
    requires IsChannel(ch)
  {
    (ch - 1) as bv8
  }

  /** The 32-bit `millis() + 100` that a successful write stores as the end of the pause. */
  function Deadline(now: uint32): uint32 {
    (now + WRITE_GUARD_MS) % 0x1_0000_0000
  }

  /** The channel list polling falls back to when none was configured. */
  function AllChannels(): seq<int> {
    seq(CHANNEL_COUNT, i => i + 1)
  }

  /** The channels-per-cycle setting: 0 becomes 1, anything above 16 becomes 16. */
  function ClampPerCycle(n: uint8): (r: int)
    ensures 1 <= r <= CHANNEL_COUNT
    ensures 1 <= n <= CHANNEL_COUNT ==> r == n
  {
    if n == 0 then 1 else if n > CHANNEL_COUNT then CHANNEL_COUNT else n
  }

  function Distance(a: int, b: int): nat {
    if a <= b then b - a else a - b
  }

  /** The clamped setting is the allowed value nearest to the requested one. */
  lemma ClampIsNearest(n: uint8, m: int)
    requires 1 <= m <= CHANNEL_COUNT
    ensures Distance(ClampPerCycle(n), n) <= Distance(m, n)
  {
  }

  /**
   * The slice of the discovered-channel list that one YAML chunk covers:
   * empty when `start` is past the end or `count` is 0, otherwise up to
   * `count` channels from `start`, cut at the end of the list.
   */
  function ChunkOf(chs: seq<int>, start: uint8, count: uint8): (chunk: seq<int>)
    requires |chs| < 0x100
    ensures |chunk| <= count
    ensures |chunk| > 0 ==> start + |chunk| <= |chs| && chunk == chs[start..start + |chunk|]
    ensures start < |chs| ==> |chunk| == Min(count, |chs| - start)
  {
    if start >= |chs| || count == 0 then []
    else
      // the end is cast to a `uint8_t`; it is at most |chs| < 0x100, so the cast never wraps
      var e := Min(|chs|, start + count);
      chs[start..e]
  }

  /** Two adjacent chunks together are the chunk that spans both. */
  lemma ChunksTile(chs: seq<int>, start: uint8, a: uint8, b: uint8)
    requires |chs| < 0x100 && start + a + b < 0x100
    ensures ChunkOf(chs, start, a) + ChunkOf(chs, start + a, b) == ChunkOf(chs, start, a + b)
  {
    var n := |chs|;
    if start >= n {
      assert ChunkOf(chs, start, a) == [] && ChunkOf(chs, start + a, b) == [] && ChunkOf(chs, start, a + b) == [];
    } else if a == 0 {
      assert ChunkOf(chs, start, a) == [];
    } else if b == 0 {
      assert ChunkOf(chs, start + a, b) == [];
    } else if start + a >= n {
      assert ChunkOf(chs, start + a, b) == [];
      assert ChunkOf(chs, start, a) == chs[start..n] == ChunkOf(chs, start, a + b);
    } else {
      var e := Min(n, start + a + b);
      assert ChunkOf(chs, start, a) == chs[start..start + a];
      assert ChunkOf(chs, start + a, b) == chs[start + a..e];
      assert ChunkOf(chs, start, a + b) == chs[start..e];
      assert chs[start..e] == chs[start..start + a] + chs[start + a..e];
    }
  }

  // How a read answer updates a channel state. `None` is a rejected read,
  // which leaves the state as it was.

  function WithPrimary(st: ChannelState, v: Option<bv16>): ChannelState {
    match v
    case Some(w) => st.(primaryIndex := ElementId(w), allTpLost := AllProbesLost(w))
    case None => st
  }

  function WithMode(st: ChannelState, cfg: Option<bv16>): ChannelState {
    match cfg
    case Some(w) => st.(mode := DecodeMode(w))
    case None => st
  }

  function WithSetpoint(st: ChannelState, v: Option<bv16>): ChannelState {
    match v
    case Some(w) => st.(setpoint := Some(w))
    case None => st
  }

  function WithStandby(st: ChannelState, v: Option<bv16>): ChannelState {
    match v
    case Some(w) => st.(standbySetpoint := Some(w))
    case None => st
  }

  function WithAction(st: ChannelState, v: Option<bv16>): ChannelState {
    match v
    case Some(w) => st.(action := if OutputOn(w) then Heating else Idle)
    case None => st
  }

  /** A channel whose air temperature can be read: it has a primary element and its probes are not lost. */
  predicate HasProbe(st: ChannelState) {
    !st.allTpLost && st.primaryIndex > 0
  }

  /** The element page of the channel's primary element: elements are numbered from 1, pages from 0, and the page is a `uint8_t`. */
  function ElementPage(st: ChannelState): bv8
    requires HasProbe(st)
  {
    ((st.primaryIndex - 1) & 0xFF) as bv8
  }

  /** The read of the primary element's 11-register block. */
  function ElementRequest(st: ChannelState): Request
    requires HasProbe(st)
  {
    Read(CAT_ELEMENTS, ElementPage(st), 0x00, 11)
  }

  /**
   * The state after the element block answered `words`: the air temperature
   * when the block reaches it, and, when asked and present, the battery level.
   */
  function WithElement(st: ChannelState, words: Option<seq<bv16>>, withBattery: bool): (r: ChannelState)
    ensures WellFormed(st) ==> WellFormed(r)
    ensures r.(currentTemp := st.currentTemp, batteryPct := st.batteryPct) == st
    ensures !withBattery ==> r.batteryPct == st.batteryPct
  {
    match words
    case Some(ws) =>
      if |ws| > ELEM_AIR_TEMPERATURE then
        var t := st.(currentTemp := Some(ws[ELEM_AIR_TEMPERATURE]));
        if withBattery && |ws| > ELEM_BATTERY_STATUS then t.(batteryPct := BatteryPct(ws[ELEM_BATTERY_STATUS])) else t
      else st
    case None => st
  }

  /** The reads the first five steps of the cycle issue; step 5 depends on the channel state. */
  function StepRequest(step: int, ch: int): Request
    requires 0 <= step < 5 && IsChannel(ch)
  {
    match step
    case 0 => Read(CAT_CHANNELS, Page(ch), CH_PRIMARY_ELEMENT, 1)
    case 1 => Read(CAT_PACKED, Page(ch), PACKED_CONFIGURATION, 1)
    case 2 => Read(CAT_PACKED, Page(ch), PACKED_MANUAL_TEMPERATURE, 1)
    case 3 => Read(CAT_PACKED, Page(ch), PACKED_STANDBY_TEMPERATURE, 1)
    case _ => Read(CAT_CHANNELS, Page(ch), CH_TIMER_EVENT, 1)
  }

  lemma ExtendLog(log: seq<Request>, a: seq<Request>, b: seq<Request>)
    ensures log + a + b == log + (a + b) && |a + b| == |a| + |b|
  {}

  /** The hub issued exactly `reqs` on the bus, each as its encoded frame, and consumed one answer for each. */
  twostate predicate Exchanged(bus: Bus, reqs: seq<Request>)
    reads bus
  {
    bus.Consistent() && bus.log == old(bus.log) + reqs && bus.taken == old(bus.taken) + |reqs|
  }

  /** A desired mode that the observed configuration word does not show yet. */
  predicate Mismatch(desired: map<int, Mode>, ch: int, cfg: Option<bv16>) {
    cfg.Some? && ch in desired && desired[ch] != DecodeMode(cfg.value)
  }

  /** The desired modes left once `cfg` was observed on `ch`: a desire the word shows is fulfilled and dropped. */
  function Fulfilled(desired: map<int, Mode>, ch: int, cfg: Option<bv16>): map<int, Mode> {
    if cfg.Some? && ch in desired && desired[ch] == DecodeMode(cfg.value) then desired - {ch} else desired
  }

  /** What step `step` of the cycle does to channel state `st` when the device answers `rx`. */
  function StepEffect(step: int, st: ChannelState, rx: seq<bv8>): ChannelState {
    match step
    case 0 => WithPrimary(st, FirstWord(rx))
    case 1 => WithMode(st, FirstWord(rx))
    case 2 => WithSetpoint(st, FirstWord(rx))
    case 3 => WithStandby(st, FirstWord(rx))
    case 4 => WithAction(st, FirstWord(rx))
    case _ => if HasProbe(st) then WithElement(st, ReadWords(rx), true) else st.(currentTemp := None)
  }

  /** The requests step `step` of the cycle issues for channel `ch` in state `st`. */
  function StepRequests(step: int, ch: int, st: ChannelState): seq<Request>
    requires 0 <= step < STEP_COUNT && IsChannel(ch)
  {
    if step < 5 then [StepRequest(step, ch)]
    else if HasProbe(st) then [ElementRequest(st)]
    else []
  }

  /** The step after `s` in a channel's cycle: 0, 1, ..., 5, then 0 again. */
  function NextStep(s: int): int {
    if s == STEP_COUNT - 1 then 0 else s + 1
  }

  /** Where a channel stands after some steps of its cycle: its state and the requests issued so far. */
  datatype Progress = Progress(st: ChannelState, requests: seq<Request>)

  /**
   * The first `n` steps of channel `ch`'s cycle from step `step` and state
   * `st`, when the device's answers are `answers` from position `t` on:
   * each step consumes one answer per request it issues.
   */
  function StepsFrom(n: nat, step: int, ch: int, st: ChannelState, answers: seq<seq<bv8>>, t: nat): Progress
    requires 0 <= step < STEP_COUNT && IsChannel(ch)
  {
    if n == 0 then Progress(st, [])
    else
      var q := StepsFrom(n - 1, step, ch, st, answers, t);
      var s := StepAfter(step, n - 1);
      Progress(StepEffect(s, q.st, ReplyAt(answers, t + |q.requests|)), q.requests + StepRequests(s, ch, q.st))
  }

  /** The step a channel is at `n` steps after step `step`. */
  function StepAfter(step: int, n: nat): (s: int)
    requires 0 <= step < STEP_COUNT
    ensures 0 <= s < STEP_COUNT
  {
    if n == 0 then step else NextStep(StepAfter(step, n - 1))
  }

  /** One more step of the cycle extends the progress by that step's effect and requests. */
  lemma StepsFromSucc(n: nat, step: int, ch: int, st: ChannelState, answers: seq<seq<bv8>>, t: nat)
    requires 0 <= step < STEP_COUNT && IsChannel(ch)
    ensures var q := StepsFrom(n, step, ch, st, answers, t);
      var s := StepAfter(step, n);
      StepsFrom(n + 1, step, ch, st, answers, t)
        == Progress(StepEffect(s, q.st, ReplyAt(answers, t + |q.requests|)), q.requests + StepRequests(s, ch, q.st))
  {
  }

  /** The readings the urgent refresh takes after the configuration word, from answers `rx0`, `rx1`, `rx2` in turn. */
  function UrgentReadings(st: ChannelState, rx0: seq<bv8>, rx1: seq<bv8>, rx2: seq<bv8>): ChannelState {
    var s := WithAction(WithSetpoint(st, FirstWord(rx0)), FirstWord(rx1));
    if HasProbe(s) then WithElement(s, ReadWords(rx2), false) else s
  }

  /** The requests the urgent refresh issues after the configuration word. */
  function UrgentRequests(ch: int, st: ChannelState): seq<Request>
    requires IsChannel(ch)
  {
    [StepRequest(2, ch), StepRequest(4, ch)] + if HasProbe(st) then [ElementRequest(st)] else []
  }

  /**
   * The readings that follow the configuration read of an urgent refresh,
   * from answer position `t` on: the comfort setpoint, the output state, and
   * the air temperature when the channel has a usable probe.
   */
  function UrgentReads(ch: int, st: ChannelState, answers: seq<seq<bv8>>, t: nat): Progress
    requires IsChannel(ch)
  {
    Progress(
      UrgentReadings(st, ReplyAt(answers, t), ReplyAt(answers, t + 1), ReplyAt(answers, t + 2)),
      UrgentRequests(ch, WithAction(WithSetpoint(st, FirstWord(ReplyAt(answers, t))), FirstWord(ReplyAt(answers, t + 1)))))
  }

  /** The reconcile write the configuration word `cfg` calls for: one when it does not show the desired mode, none otherwise. */
  function ReconcileWrites(desired: map<int, Mode>, ch: int, cfg: Option<bv16>): seq<Request>
    requires IsChannel(ch)
  {
    if Mismatch(desired, ch, cfg)
    then [Write(CAT_PACKED, Page(ch), PACKED_CONFIGURATION, ReconcileValue(cfg.value, desired[ch]))]
    else []
  }

  /** What one urgent refresh yields: the channel's new state, the desires left, whether its reconcile write landed, and the requests sent. */
  datatype Refresh = Refresh(st: ChannelState, desired: map<int, Mode>, pushed: bool, requests: seq<Request>)

  /**
   * The urgent refresh of channel `ch` in state `st` with desired modes
   * `desired`, when the device's answers are `answers` from position `t` on:
   * the configuration read; the reconcile write when the word does not show
   * the desired mode; then the comfort setpoint, the output state and the
   * air temperature. Only the channel's own desire can be erased, a write
   * that lands keeps it, and the standby setpoint, battery and primary
   * element are left alone.
   */
  function UrgentRefresh(ch: int, st: ChannelState, desired: map<int, Mode>, answers: seq<seq<bv8>>, t: nat): (r: Refresh)
    requires IsChannel(ch)
    ensures |r.requests| >= 3 && r.requests[0] == StepRequest(1, ch)
    ensures SubMap(r.desired, desired) && forall c :: c != ch ==> (c in r.desired <==> c in desired)
    ensures r.pushed ==> Mismatch(desired, ch, FirstWord(ReplyAt(answers, t))) && ch in r.desired
    ensures r.st.(mode := st.mode, setpoint := st.setpoint, action := st.action, currentTemp := st.currentTemp) == st
  {
    var cfg := FirstWord(ReplyAt(answers, t));
    var writes := ReconcileWrites(desired, ch, cfg);
    var p := UrgentReads(ch, WithMode(st, cfg), answers, t + 1 + |writes|);
    Refresh(
      p.st,
      Fulfilled(desired, ch, cfg),
      Mismatch(desired, ch, cfg) && AckAccepted(ReplyAt(answers, t + 1), FC_WRITE),
      [StepRequest(1, ch)] + writes + p.requests)
  }

  /** The urgent refresh's state, desires and requests, in terms of its three parts. */
  lemma UrgentRefreshParts(ch: int, st: ChannelState, desired: map<int, Mode>, answers: seq<seq<bv8>>, t: nat)
    requires IsChannel(ch)
    ensures var cfg := FirstWord(ReplyAt(answers, t));
      var writes := ReconcileWrites(desired, ch, cfg);
      var p := UrgentReads(ch, WithMode(st, cfg), answers, t + 1 + |writes|);
      var u := UrgentRefresh(ch, st, desired, answers, t);
      && u.requests == [StepRequest(1, ch)] + writes + p.requests
      && u.st == p.st && u.desired == Fulfilled(desired, ch, cfg)
      && u.pushed == (Mismatch(desired, ch, cfg) && AckAccepted(ReplyAt(answers, t + 1), FC_WRITE))
  {}

  /**
   * Where the urgent phase stands: the cache, the desired modes, the queue,
   * the pause deadline, the channels served so far, and the bus's request
   * log and answer position.
   */
  datatype UrgentState = UrgentState(
    channels: Channels, desired: map<int, Mode>, queue: seq<int>, suspend: uint32,
    served: seq<int>, log: seq<Request>, taken: nat)

  /** Serve the head of the queue: pop it, refresh it, and queue it again at the back when its reconcile write landed. */
  function ServeOne(u: UrgentState, answers: seq<seq<bv8>>, now: uint32): (r: UrgentState)
    requires u.queue != [] && IsChannel(u.queue[0])
    ensures r.served == u.served + [u.queue[0]] && r.served[..|u.served|] == u.served
    ensures |r.log| > |u.log| && r.log[..|u.log|] == u.log && r.taken - u.taken == |r.log| - |u.log|
    ensures SubMap(r.desired, u.desired)
    ensures forall c :: c != u.queue[0] ==>
      && (c in r.channels <==> c in u.channels) && (c in u.channels ==> r.channels[c] == u.channels[c])
      && (c in r.desired <==> c in u.desired) && (c in u.desired ==> r.desired[c] == u.desired[c])
  {
    var ch := u.queue[0];
    var f := UrgentRefresh(ch, Entry(u.channels, ch), u.desired, answers, u.taken);
    UrgentState(
      u.channels[ch := f.st], f.desired, u.queue[1..] + (if f.pushed then [ch] else []),
      if f.pushed then Deadline(now) else u.suspend,
      u.served + [ch], u.log + f.requests, u.taken + |f.requests|)
  }

  /** A state that is the refresh of the head of the queue, applied to `v`, is what serving `v` yields. */
  lemma ServeOneFrom(v: UrgentState, answers: seq<seq<bv8>>, now: uint32, w: UrgentState)
    requires v.queue != [] && IsChannel(v.queue[0])
    requires var ch := v.queue[0];
      var r := UrgentRefresh(ch, Entry(v.channels, ch), v.desired, answers, v.taken);
      && w.channels == v.channels[ch := r.st] && w.desired == r.desired
      && w.queue == v.queue[1..] + (if r.pushed then [ch] else [])
      && w.suspend == (if r.pushed then Deadline(now) else v.suspend)
      && w.served == v.served + [ch] && w.log == v.log + r.requests && w.taken == v.taken + |r.requests|
    ensures ServeOne(v, answers, now) == w
  {}

  /**
   * `trace` is a run of the urgent phase: every state but the last has a
   * channel at the head of its queue, and serving that channel yields the
   * next state.
   */
  ghost predicate UrgentRun(trace: seq<UrgentState>, answers: seq<seq<bv8>>, now: uint32) {
    forall i, j :: 0 <= i && j == i + 1 && j < |trace| ==> Served(trace[i], trace[j], answers, now)
  }

  /** `w` is what serving the head of `v`'s queue yields. */
  ghost predicate Served(v: UrgentState, w: UrgentState, answers: seq<seq<bv8>>, now: uint32) {
    v.queue != [] && IsChannel(v.queue[0]) && w == ServeOne(v, answers, now)
  }

  /** A run extended by serving its last state is a run. */
  lemma RunExtend(trace: seq<UrgentState>, w: UrgentState, answers: seq<seq<bv8>>, now: uint32)
    requires trace != [] && UrgentRun(trace, answers, now)
    requires var v := trace[|trace| - 1]; v.queue != [] && IsChannel(v.queue[0]) && w == ServeOne(v, answers, now)
    ensures UrgentRun(trace + [w], answers, now)
  {
    var t := trace + [w];
    forall i, j | 0 <= i && j == i + 1 && j < |t|
      ensures Served(t[i], t[j], answers, now)
    {
      if j < |trace| {
        assert t[i] == trace[i] && t[j] == trace[j];
        assert Served(trace[i], trace[j], answers, now);
      } else {
        assert t[i] == trace[|trace| - 1] && t[j] == w;
      }
    }
  }

  /**
   * The urgent phase has run from `u0` to `u`: `trace` is the run, the
   * queue reads as the channels served followed by what is left, with the
   * re-queued channels (each one served) at the back; only served channels
   * changed their cache entry or lost their desire, desires were only
   * erased, the pause was set again exactly when a channel was re-queued,
   * and the request log only grew.
   */
  ghost predicate UrgentProgress(u0: UrgentState, requeued: seq<int>, trace: seq<UrgentState>, answers: seq<seq<bv8>>, now: uint32, u: UrgentState) {
    && |trace| == |u.served| + 1 && trace[0] == u0 && trace[|u.served|] == u
    && UrgentRun(trace, answers, now)
    && u0.queue + requeued == u.served + u.queue
    && (forall c :: c in requeued ==> c in u.served)
    && SubMap(u.desired, u0.desired)
    && (forall c :: c in u0.desired && c !in u.desired ==> c in u.served)
    && (forall c :: c !in u.served ==> Entry(u.channels, c) == Entry(u0.channels, c) && (c in u.channels <==> c in u0.channels))
    && u.suspend == (if requeued == [] then u0.suspend else Deadline(now))
    && u0.log <= u.log
  }

  /** Serving the head of the queue keeps the urgent phase's progress, with the channel re-queued when its write landed. */
  lemma UrgentStep(u0: UrgentState, requeued: seq<int>, trace: seq<UrgentState>, answers: seq<seq<bv8>>, now: uint32, u: UrgentState)
    returns (back: seq<int>)
    requires UrgentProgress(u0, requeued, trace, answers, now, u)
    requires u.queue != [] && IsChannel(u.queue[0])
    ensures var w := ServeOne(u, answers, now);
      && back == w.queue[|u.queue| - 1..] && (back == [] || back == [u.queue[0]])
      && UrgentProgress(u0, requeued + back, trace + [w], answers, now, w)
  {
    var w := ServeOne(u, answers, now);
    var ch := u.queue[0];
    var f := UrgentRefresh(ch, Entry(u.channels, ch), u.desired, answers, u.taken);
    back := if f.pushed then [ch] else [];
    assert w.queue == u.queue[1..] + back;
    QueueShift(u0.queue, requeued, u.served, u.queue, back);
    RunExtend(trace, w, answers, now);
  }

  /** A round-robin visit of channel `ch`: two steps of its cycle from step `step`. */
  function Visit(step: int, ch: int, st: ChannelState, answers: seq<seq<bv8>>, t: nat): Progress
    requires 0 <= step < STEP_COUNT && IsChannel(ch)
  {
    StepsFrom(2, step, ch, st, answers, t)
  }

  /** The cache after round-robin visits, and the requests they sent. */
  datatype Polled = Polled(channels: Channels, requests: seq<Request>)

  /**
   * One round-robin visit of `c` after the visits that led to `prev`, with
   * step counters `steps`: two steps of the channel's cycle from where its
   * counter stands, its entry written back and its requests appended.
   */
  function PollVisit(prev: Polled, steps: seq<int>, c: int, answers: seq<seq<bv8>>, t0: nat): Polled
    requires |steps| == CHANNEL_COUNT
  {
    if IsChannel(c) && 0 <= steps[c - 1] < STEP_COUNT then
      var p := Visit(steps[c - 1], c, Entry(prev.channels, c), answers, t0 + |prev.requests|);
      Polled(prev.channels[c := p.st], prev.requests + p.requests)
    else prev
  }

  /**
   * The round-robin visits `visited`, in order, from cache `cache0` and step
   * counters `steps0`, when the device's answers are `answers` from position
   * `t0` on.
   */
  function PollVisits(cache0: Channels, steps0: seq<int>, visited: seq<int>, answers: seq<seq<bv8>>, t0: nat): Polled
    requires |steps0| == CHANNEL_COUNT
  {
    if visited == [] then Polled(cache0, [])
    else
      var init := visited[..|visited| - 1];
      PollVisit(PollVisits(cache0, steps0, init, answers, t0), AfterVisits(steps0, init), visited[|visited| - 1], answers, t0)
  }

  /** One more visit is one more step of the round-robin. */
  lemma PollVisitsStep(cache0: Channels, steps0: seq<int>, visited: seq<int>, ch: int, answers: seq<seq<bv8>>, t0: nat)
    requires |steps0| == CHANNEL_COUNT
    ensures PollVisits(cache0, steps0, visited + [ch], answers, t0)
      == PollVisit(PollVisits(cache0, steps0, visited, answers, t0), AfterVisits(steps0, visited), ch, answers, t0)
  {
    var v := visited + [ch];
    assert v[..|v| - 1] == visited;
  }

  /**
   * A cache, log and answer position that the visits `visited` left, then
   * changed by one visit of `ch` from where its counter stands, are what the
   * visits `visited + [ch]` leave.
   */
  lemma PolledExtend(cache0: Channels, steps0: seq<int>, visited: seq<int>, ch: int, answers: seq<seq<bv8>>, t0: nat, log0: seq<Request>,
                     chans1: Channels, log1: seq<Request>, t1: nat, chans2: Channels, log2: seq<Request>, t2: nat)
    requires |steps0| == CHANNEL_COUNT && IsChannel(ch) && 0 <= AfterVisits(steps0, visited)[ch - 1] < STEP_COUNT
    requires var before := PollVisits(cache0, steps0, visited, answers, t0);
      chans1 == before.channels && log1 == log0 + before.requests && t1 == t0 + |before.requests|
    requires var p := Visit(AfterVisits(steps0, visited)[ch - 1], ch, Entry(chans1, ch), answers, t1);
      chans2 == chans1[ch := p.st] && log2 == log1 + p.requests && t2 == t1 + |p.requests|
    ensures var after := PollVisits(cache0, steps0, visited + [ch], answers, t0);
      chans2 == after.channels && log2 == log0 + after.requests && t2 == t0 + |after.requests|
  {
    PollVisitsStep(cache0, steps0, visited, ch, answers, t0);
    var before := PollVisits(cache0, steps0, visited, answers, t0);
    var p := Visit(AfterVisits(steps0, visited)[ch - 1], ch, Entry(chans1, ch), answers, t1);
    ExtendLog(log0, before.requests, p.requests);
  }

  /** A channel the round-robin did not visit keeps its cache entry. */
  lemma {:induction false} PollVisitsFrame(cache0: Channels, steps0: seq<int>, visited: seq<int>, answers: seq<seq<bv8>>, t0: nat, c: int)
    requires |steps0| == CHANNEL_COUNT && c !in visited
    ensures var p := PollVisits(cache0, steps0, visited, answers, t0);
      (c in p.channels <==> c in cache0) && (c in cache0 ==> p.channels[c] == cache0[c])
  {
    if visited != [] {
      var init := visited[..|visited| - 1];
      assert visited == init + [visited[|visited| - 1]];
      PollVisitsFrame(cache0, steps0, init, answers, t0, c);
    }
  }

  /** A visit's two steps move the counter two places on, modulo the cycle length. */
  lemma TwoSteps(s: int)
    requires 0 <= s < STEP_COUNT
    ensures NextStep(NextStep(s)) == (s + 2) % STEP_COUNT
  {
  }

  /** Every counter is at an even step. */
  predicate AllEven(steps: seq<int>) {
    forall k :: 0 <= k < |steps| ==> steps[k] % 2 == 0
  }

  /** A visit's two steps keep a counter even. */
  lemma VisitKeepsEven(steps: seq<int>, k: int)
    requires AllEven(steps) && 0 <= k < |steps| && 0 <= steps[k] < STEP_COUNT
    ensures AllEven(steps[k := NextStep(NextStep(steps[k]))])
  {
  }

  /** Two more steps after `m` visits of two steps each make `m + 1` visits. */
  lemma AddTwoSteps(s: int, m: nat)
    ensures ((s + 2 * m) % STEP_COUNT + 2) % STEP_COUNT == (s + 2 * (m + 1)) % STEP_COUNT
  {
  }

  /** The channels `m` round-robin visits reach over `active` from cursor `c0`, in order. */
  function Rotation(active: seq<int>, c0: nat, m: nat): (r: seq<int>)
    requires active != []
    ensures |r| == m
  {
    if m == 0 then [] else Rotation(active, c0, m - 1) + [active[(c0 + m - 1) % |active|]]
  }

  /** The `k`-th round-robin visit reaches the entry `k` places after the cursor, wrapping around. */
  lemma {:induction false} RotationAt(active: seq<int>, c0: nat, m: nat, k: nat)
    requires active != [] && k < m
    ensures Rotation(active, c0, m)[k] == active[(c0 + k) % |active|]
  {
    if k < m - 1 {
      RotationAt(active, c0, m - 1, k);
    }
  }

  /** A full round of `|active|` visits from any cursor reaches every channel on the list. */
  lemma RotationCoversAll(active: seq<int>, c0: nat, j: nat)
    requires c0 < |active| && j < |active|
    ensures active[j] in Rotation(active, c0, |active|)
  {
    var n := |active|;
    var k := if c0 <= j then j - c0 else j + n - c0;
    if c0 <= j {
      ModUnique(c0 + k, n, 0, j);
    } else {
      ModUnique(c0 + k, n, 1, j);
    }
    RotationAt(active, c0, n, k);
  }

  /**
   * The round-robin state (active list `active`, cursor `next`, step
   * counters `steps`) after the visits `visited`, made from cursor `next0`
   * and step counters `steps0`: the visits follow the active list from the
   * (wrapped) cursor, the cursor has moved past them, and each visit moved
   * its channel's counter two steps on.
   */
  ghost predicate RoundRobin(active: seq<int>, next: nat, steps: seq<int>, next0: nat, steps0: seq<int>, visited: seq<int>)
    requires active != []
  {
    var n := |active|;
    var c0 := if next0 < n then next0 else 0;
    && |steps0| == CHANNEL_COUNT
    && visited == Rotation(active, c0, |visited|)
    && next == (if visited == [] then next0 else (c0 + |visited|) % n)
    && steps == AfterVisits(steps0, visited)
  }

  /** A visit at the (wrapped) cursor, which then moves on, extends the round-robin state by the channel visited. */
  lemma RoundRobinExtend(active: seq<int>, next0: nat, steps0: seq<int>, visited: seq<int>,
                         next: nat, steps: seq<int>, ch: int, next2: nat, steps2: seq<int>)
    requires active != [] && AllChannelsIn(active) && RoundRobin(active, next, steps, next0, steps0, visited)
    requires var cur := if next < |active| then next else 0; ch == active[cur] && next2 == (cur + 1) % |active|
    requires steps2 == steps[ch - 1 := NextStep(NextStep(steps[ch - 1]))]
    ensures RoundRobin(active, next2, steps2, next0, steps0, visited + [ch])
  {
    var n := |active|;
    var c0 := if next0 < n then next0 else 0;
    CursorAt(next0, n, |visited|, next);
    RotationStep(active, c0, visited, ch);
    AfterVisitsStep(steps0, visited, ch, steps);
  }

  /**
   * Where the round-robin cursor stands after `m` visits from `next0`: a
   * cursor past the end is wrapped to the front before each visit.
   */
  lemma CursorAt(next0: nat, n: nat, m: nat, next: nat)
    requires n > 0
    requires next == if m == 0 then next0 else ((if next0 < n then next0 else 0) + m) % n
    ensures var c0 := if next0 < n then next0 else 0;
      && (if next < n then next else 0) == (c0 + m) % n
      && ((c0 + m) % n + 1) % n == (c0 + m + 1) % n
  {
    var c0 := if next0 < n then next0 else 0;
    if m == 0 {
      ModUnique(c0, n, 0, c0);
    }
    ModSucc(c0 + m, n);
  }

  /** One more visit extends the rotation by the channel under the cursor. */
  lemma RotationStep(active: seq<int>, c0: nat, visited: seq<int>, ch: int)
    requires active != [] && visited == Rotation(active, c0, |visited|)
    requires ch == active[(c0 + |visited|) % |active|]
    ensures visited + [ch] == Rotation(active, c0, |visited| + 1)
  {
  }

  /** One more visit moves the visited channel's counter two steps on. */
  lemma AfterVisitsStep(steps: seq<int>, visited: seq<int>, ch: int, prev: seq<int>)
    requires IsChannel(ch) && |steps| == CHANNEL_COUNT
    requires prev == AfterVisits(steps, visited)
    ensures AfterVisits(steps, visited + [ch]) == prev[ch - 1 := NextStep(NextStep(prev[ch - 1]))]
  {
    var v := visited + [ch];
    assert v[..|v| - 1] == visited;
    assert v[|v| - 1] == ch;
    assert v != [];
  }

  /** The step counters after round-robin visits to `visited`, in order, each moving its channel two steps on. */
  function AfterVisits(steps: seq<int>, visited: seq<int>): (r: seq<int>)
    requires |steps| == CHANNEL_COUNT
    ensures |r| == CHANNEL_COUNT
  {
    if visited == [] then steps
    else
      var prev := AfterVisits(steps, visited[..|visited| - 1]);
      var c := visited[|visited| - 1];
      if IsChannel(c) then prev[c - 1 := NextStep(NextStep(prev[c - 1]))] else prev
  }

  /** A channel's counter moves on two steps per visit it received, whatever the order of the visits. */
  lemma {:induction false} AfterVisitsCount(steps: seq<int>, visited: seq<int>, k: int)
    requires |steps| == CHANNEL_COUNT && 0 <= k < CHANNEL_COUNT
    requires 0 <= steps[k] < STEP_COUNT
    ensures AfterVisits(steps, visited)[k] == (steps[k] + 2 * multiset(visited)[k + 1]) % STEP_COUNT
  {
    if visited != [] {
      var init := visited[..|visited| - 1];
      var c := visited[|visited| - 1];
      assert visited == init + [c];
      AfterVisitsCount(steps, init, k);
      if c == k + 1 {
        TwoSteps(AfterVisits(steps, init)[k]);
        AddTwoSteps(steps[k], multiset(init)[k + 1]);
      }
    }
  }

  /**
   * Bookkeeping of the urgent queue: if the initial queue followed by the
   * re-queued channels reads as the served ones followed by `queue`, it still
   * does once the head of `queue` is served and `back` re-queued.
   */
  lemma QueueShift(initial: seq<int>, requeued: seq<int>, served: seq<int>, queue: seq<int>, back: seq<int>)
    requires queue != [] && initial + requeued == served + queue
    ensures initial + (requeued + back) == (served + [queue[0]]) + (queue[1..] + back)
  {
    assert queue == [queue[0]] + queue[1..];
    calc {
      initial + (requeued + back);
      (initial + requeued) + back;
      (served + ([queue[0]] + queue[1..])) + back;
      (served + [queue[0]]) + (queue[1..] + back);
    }
  }

  /** `a` is `b` with some entries removed: what erasing fulfilled desires leaves. */
  predicate SubMap(a: map<int, Mode>, b: map<int, Mode>) {
    forall c :: c in a ==> c in b && a[c] == b[c]
  }

  /**
   * Whether a mode write lands, given the answers to its transmissions in
   * turn: the strict write is acknowledged, or the fallback read returns the
   * configuration word and the read-modify-write that follows is acknowledged.
   */
  predicate ModeWriteLands(rx0: seq<bv8>, rx1: seq<bv8>, rx2: seq<bv8>) {
    AckAccepted(rx0, FC_WRITE) || (FirstWord(rx1).Some? && AckAccepted(rx2, FC_WRITE))
  }

  /** Every configuration word a mode write sends, strict or read-modify-write, decodes to the requested mode. */
  lemma ModeWritesDecode(ch: int, mode: Mode, rx0: seq<bv8>, rx1: seq<bv8>)
    requires IsChannel(ch)
    ensures forall r :: r in ModeWriteRequests(ch, mode, rx0, rx1) && r.Write? ==> DecodeMode(r.value) == mode
  {
  }

  /** The requests a mode write of `mode` on channel `ch` issues, given the answers to the first two. */
  function ModeWriteRequests(ch: int, mode: Mode, rx0: seq<bv8>, rx1: seq<bv8>): seq<Request>
    requires IsChannel(ch)
  {
    var strict := Write(CAT_PACKED, Page(ch), PACKED_CONFIGURATION, StrictValue(mode));
    if AckAccepted(rx0, FC_WRITE) then [strict]
    else match FirstWord(rx1)
      case None => [strict, Read(CAT_PACKED, Page(ch), PACKED_CONFIGURATION, 1)]
      case Some(cur) => [strict, Read(CAT_PACKED, Page(ch), PACKED_CONFIGURATION, 1), Write(CAT_PACKED, Page(ch), PACKED_CONFIGURATION, ReconcileValue(cur, mode))]
  }

  class WavinAHC9000 {

    /** The per-channel cache. */
    var channels: Channels
    /** The channels the round-robin polls, in order. */
    var activeChannels: seq<int>
    /** Modes written but not yet seen in a configuration read. */
    var desiredMode: map<int, Mode>
    /** Channels whose climate entity writes the strict baseline. */
    var strictModeChannels: set<int>
    /** The clock value until which polling pauses; 0 is never. */
    var suspendPollingUntil: uint32
    /** How many channels one update serves. */
    var pollChannelsPerCycle: int
    /** The round-robin cursor into `activeChannels`. */
    var nextActiveIndex: nat
    /** Channels to refresh first, in the order their writes succeeded. */
    var urgentChannels: seq<int>
    /** The step each channel's polling cycle is at, indexed by page. */
    const channelStep: array<int>

    ghost predicate CacheValid()
      reads this`channels
    {
      forall c :: c in channels ==> IsChannel(c)
    }

    ghost predicate StepsValid()
      reads channelStep
    {
      channelStep.Length == CHANNEL_COUNT &&
      forall k :: 0 <= k < CHANNEL_COUNT ==> 0 <= channelStep[k] < STEP_COUNT
    }

    /** Between updates every channel is at an even step: each visit advances two. */
    ghost predicate StepsEven()
      reads channelStep
    {
      AllEven(channelStep[..])
    }

    ghost predicate ScheduleValid()
      reads this`activeChannels, this`pollChannelsPerCycle, this`strictModeChannels
    {
      && AllChannelsIn(activeChannels) && Distinct(activeChannels)
      && 1 <= pollChannelsPerCycle <= CHANNEL_COUNT
      && (forall c :: c in strictModeChannels ==> IsChannel(c))
    }

    /** The urgent queue and the desired modes name only channels. */
    ghost predicate UrgentValid()
      reads this`urgentChannels, this`desiredMode
    {
      AllChannelsIn(urgentChannels) && forall c :: c in desiredMode ==> IsChannel(c)
    }

    ghost predicate Valid()
      reads this`channels, this`activeChannels, this`urgentChannels, this`pollChannelsPerCycle
      reads this`desiredMode, this`strictModeChannels, channelStep
    {
      CacheValid() && StepsValid() && StepsEven() && ScheduleValid() && UrgentValid()
    }

    /** The hub's urgent-phase state, with `served` as the channels served so far. */
    ghost function UrgentView(bus: Bus, served: seq<int>): UrgentState
      reads this`channels, this`desiredMode, this`urgentChannels, this`suspendPollingUntil, bus`log, bus`taken
    {
      UrgentState(channels, desiredMode, urgentChannels, suspendPollingUntil, served, bus.log, bus.taken)
    }

    constructor ()
      ensures Valid() && fresh(channelStep)
      ensures channels == map[] && activeChannels == [] && desiredMode == map[] && strictModeChannels == {}
      ensures suspendPollingUntil == 0 && pollChannelsPerCycle == 2 && nextActiveIndex == 0 && urgentChannels == []
      ensures forall k :: 0 <= k < CHANNEL_COUNT ==> channelStep[k] == 0
    {
      channels := map[];
      activeChannels := [];
      desiredMode := map[];
      strictModeChannels := {};
      suspendPollingUntil := 0;
      pollChannelsPerCycle := 2;
      nextActiveIndex := 0;
      urgentChannels := [];
      channelStep := new int[CHANNEL_COUNT](_ => 0);
    }

    /** Polling is paused: a pause was set and the clock has not reached it. */
    predicate Suspended(now: uint32)
      reads this`suspendPollingUntil
    {
      suspendPollingUntil != 0 && now < suspendPollingUntil
    }

    method SetPollChannelsPerCycle(n: uint8)
      requires Valid()
      modifies this`pollChannelsPerCycle
      ensures Valid()
      ensures pollChannelsPerCycle == ClampPerCycle(n)
    {
      pollChannelsPerCycle := if n == 0 then 1 else if n > 16 then 16 else n;
    }

    /** Add a channel to the round-robin, ignoring numbers outside 1..16 and channels already there. */
    method AddActiveChannel(ch: uint8)
      requires Valid()
      modifies this`activeChannels
      ensures Valid()
      ensures activeChannels == if IsChannel(ch) && ch !in old(activeChannels) then old(activeChannels) + [ch] else old(activeChannels)
    {
      if ch < 1 || ch > 16 {
        return;
      }
      var i := 0;
      while i < |activeChannels| && activeChannels[i] != ch
        invariant 0 <= i <= |activeChannels|
        invariant forall j :: 0 <= j < i ==> activeChannels[j] != ch
      {
        i := i + 1;
      }
      if i == |activeChannels| {
        activeChannels := activeChannels + [ch];
      }
    }

    predicate IsStrictModeWrite(ch: int)
      reads this`strictModeChannels
    {
      ch in strictModeChannels
    }

    method SetStrictModeWrite(ch: uint8, enable: bool)
      requires Valid()
      modifies this`strictModeChannels
      ensures Valid()
      ensures IsChannel(ch) ==> IsStrictModeWrite(ch) == enable
      ensures forall c :: c != ch || !IsChannel(ch) ==> IsStrictModeWrite(c) == old(IsStrictModeWrite(c))
    {
      if ch < 1 || ch > 16 {
        return;
      }
      if enable {
        strictModeChannels := strictModeChannels + {ch as int};
      } else {
        strictModeChannels := strictModeChannels - {ch as int};
      }
    }

    /** Queue a channel for an urgent refresh; a channel already queued is queued again. */
    method RefreshChannelNow(ch: uint8)
      requires Valid()
      modifies this`urgentChannels
      ensures Valid()
      ensures urgentChannels == if IsChannel(ch) then old(urgentChannels) + [ch] else old(urgentChannels)
    {
      if ch < 1 || ch > 16 {
        return;
      }
      urgentChannels := urgentChannels + [ch];
    }

    // ---- The polling steps. Each reads one register group of channel `ch`
    // ---- and returns the channel state `st` with what it decoded; the
    // ---- callers hold the state the way the hub holds `channels_[ch]`.

    /** Step 0: the primary element and the all-probes-lost flag. */
    method ReadPrimaryElement(bus: Bus, ch: int, st: ChannelState) returns (r: ChannelState)
      requires bus.Consistent() && IsChannel(ch)
      modifies bus
      ensures Exchanged(bus, [StepRequest(0, ch)])
      ensures r == WithPrimary(st, FirstWord(old(bus.Reply(0))))
    {
      r := st;
      var ok, regs := ReadRegisters(bus, CAT_CHANNELS, Page(ch), CH_PRIMARY_ELEMENT, 1, []);
      if ok && |regs| >= 1 {
        var v := regs[0];
        r := r.(primaryIndex := ElementId(v), allTpLost := AllProbesLost(v));
      }
    }

    /** Step 1 and the first urgent read: the configuration word and the mode it encodes. */
    method ReadMode(bus: Bus, ch: int, st: ChannelState) returns (r: ChannelState, cfg: Option<bv16>)
      requires bus.Consistent() && IsChannel(ch)
      modifies bus
      ensures Exchanged(bus, [StepRequest(1, ch)])
      ensures cfg == FirstWord(old(bus.Reply(0)))
      ensures r == WithMode(st, cfg)
    {
      r := st;
      var ok, regs := ReadRegisters(bus, CAT_PACKED, Page(ch), PACKED_CONFIGURATION, 1, []);
      cfg := None;
      if ok && |regs| >= 1 {
        var raw := regs[0];
        r := r.(mode := DecodeMode(raw));
        cfg := Some(raw);
      }
    }

    /** Step 2: the comfort setpoint. */
    method ReadSetpoint(bus: Bus, ch: int, st: ChannelState) returns (r: ChannelState)
      requires bus.Consistent() && IsChannel(ch)
      modifies bus
      ensures Exchanged(bus, [StepRequest(2, ch)])
      ensures r == WithSetpoint(st, FirstWord(old(bus.Reply(0))))
    {
      r := st;
      var ok, regs := ReadRegisters(bus, CAT_PACKED, Page(ch), PACKED_MANUAL_TEMPERATURE, 1, []);
      if ok && |regs| >= 1 {
        r := r.(setpoint := Some(regs[0]));
      }
    }

    /** Step 3: the standby setpoint. */
    method ReadStandbySetpoint(bus: Bus, ch: int, st: ChannelState) returns (r: ChannelState)
      requires bus.Consistent() && IsChannel(ch)
      modifies bus
      ensures Exchanged(bus, [StepRequest(3, ch)])
      ensures r == WithStandby(st, FirstWord(old(bus.Reply(0))))
    {
      r := st;
      var ok, regs := ReadRegisters(bus, CAT_PACKED, Page(ch), PACKED_STANDBY_TEMPERATURE, 1, []);
      if ok && |regs| >= 1 {
        r := r.(standbySetpoint := Some(regs[0]));
      }
    }

    /** Step 4: whether the channel's output is on. */
    method ReadAction(bus: Bus, ch: int, st: ChannelState) returns (r: ChannelState)
      requires bus.Consistent() && IsChannel(ch)
      modifies bus
      ensures Exchanged(bus, [StepRequest(4, ch)])
      ensures r == WithAction(st, FirstWord(old(bus.Reply(0))))
    {
      r := st;
      var ok, regs := ReadRegisters(bus, CAT_CHANNELS, Page(ch), CH_TIMER_EVENT, 1, []);
      if ok && |regs| >= 1 {
        r := r.(action := if OutputOn(regs[0]) then Heating else Idle);
      }
    }

    /**
     * Step 5: the air temperature and battery level from the primary
     * element; a channel without a usable probe has its temperature cleared
     * and sends nothing.
     */
    method ReadElement(bus: Bus, st: ChannelState) returns (r: ChannelState)
      requires bus.Consistent()
      modifies bus
      ensures HasProbe(st) ==> Exchanged(bus, [ElementRequest(st)]) && r == WithElement(st, ReadWords(old(bus.Reply(0))), true)
      ensures !HasProbe(st) ==> Exchanged(bus, []) && r == st.(currentTemp := None)
    {
      r := st;
      if !st.allTpLost && st.primaryIndex > 0 {
        var ok, regs := ReadRegisters(bus, CAT_ELEMENTS, ElementPage(st), 0x00, 11, []);
        assert ok ==> ReadWords(old(bus.Reply(0))) == Some(regs);
        if ok && |regs| > ELEM_AIR_TEMPERATURE {
          r := r.(currentTemp := Some(regs[ELEM_AIR_TEMPERATURE]));
          if |regs| > ELEM_BATTERY_STATUS {
            r := r.(batteryPct := BatteryPct(regs[ELEM_BATTERY_STATUS]));
          }
        }
      } else {
        r := r.(currentTemp := None);
      }
    }

    /** The urgent refresh's temperature read: no battery, and no clearing without a probe. */
    method ReadAirTemperature(bus: Bus, st: ChannelState) returns (r: ChannelState)
      requires bus.Consistent()
      modifies bus
      ensures HasProbe(st) ==> Exchanged(bus, [ElementRequest(st)]) && r == WithElement(st, ReadWords(old(bus.Reply(0))), false)
      ensures !HasProbe(st) ==> Exchanged(bus, []) && r == st
    {
      r := st;
      if !st.allTpLost && st.primaryIndex > 0 {
        var ok, regs := ReadRegisters(bus, CAT_ELEMENTS, ElementPage(st), 0x00, 11, []);
        assert ok ==> ReadWords(old(bus.Reply(0))) == Some(regs);
        if ok && |regs| > ELEM_AIR_TEMPERATURE {
          r := r.(currentTemp := Some(regs[ELEM_AIR_TEMPERATURE]));
        }
      }
    }

    /** Run the step channel `ch` is at on its state `st` and move the channel to the next step. */
    method RunStep(bus: Bus, ch: int, step: int, st: ChannelState) returns (r: ChannelState, next: int)
      requires bus.Consistent() && IsChannel(ch) && 0 <= step < STEP_COUNT
      modifies bus
      ensures next == NextStep(step)
      ensures Exchanged(bus, StepRequests(step, ch, st))
      ensures r == StepEffect(step, st, old(bus.Reply(0)))
    {
      if step == 0 {
        r := ReadPrimaryElement(bus, ch, st);
        next := 1;
      } else if step == 1 {
        var cfg;
        r, cfg := ReadMode(bus, ch, st);
        next := 2;
      } else if step == 2 {
        r := ReadSetpoint(bus, ch, st);
        next := 3;
      } else if step == 3 {
        r := ReadStandbySetpoint(bus, ch, st);
        next := 4;
      } else if step == 4 {
        r := ReadAction(bus, ch, st);
        next := 5;
      } else {
        r := ReadElement(bus, st);
        next := 0;
      }
    }

    /** Two consecutive steps of channel `ch`'s cycle from step `step` and state `st`, whatever their reads return. */
    method RunTwoSteps(bus: Bus, ch: int, step: int, st: ChannelState) returns (r: ChannelState, next: int)
      requires bus.Consistent() && IsChannel(ch) && 0 <= step < STEP_COUNT
      modifies bus
      ensures next == NextStep(NextStep(step))
      ensures var p := StepsFrom(2, step, ch, st, bus.answers, old(bus.taken));
        Exchanged(bus, p.requests) && r == p.st
    {
      ghost var t0 := bus.taken;
      ghost var log0 := bus.log;
      r, next := st, step;
      for s := 0 to 2
        invariant bus.Consistent()
        invariant var p := StepsFrom(s, step, ch, st, bus.answers, t0);
          && next == StepAfter(step, s) && r == p.st
          && bus.log == log0 + p.requests && bus.taken == t0 + |p.requests|
      {
        ghost var q := StepsFrom(s, step, ch, st, bus.answers, t0);
        assert bus.Reply(0) == ReplyAt(bus.answers, t0 + |q.requests|);
        StepsFromSucc(s, step, ch, st, bus.answers, t0);
        r, next := RunStep(bus, ch, next, r);
      }
    }

    /** One round-robin visit: two consecutive steps of channel `ch`, its counter and cache entry written back. */
    method VisitChannel(bus: Bus, ch: int, ghost cache0: Channels, ghost steps0: seq<int>, ghost log0: seq<Request>, ghost t0: nat,
                        ghost visited: seq<int>)
      requires bus.Consistent() && IsChannel(ch) && CacheValid() && StepsValid()
      requires |steps0| == CHANNEL_COUNT && channelStep[..] == AfterVisits(steps0, visited)
      requires PolledAt(bus, cache0, steps0, log0, t0, visited)
      modifies this`channels, channelStep, bus
      ensures CacheValid() && StepsValid()
      ensures channelStep[..] == old(channelStep[..])[ch - 1 := NextStep(NextStep(old(channelStep[ch - 1])))]
      ensures bus.Consistent()
      ensures PolledAt(bus, cache0, steps0, log0, t0, visited + [ch])
    {
      ghost var answers, chans1, log1, t1 := bus.answers, channels, bus.log, bus.taken;
      var st, step := RunTwoSteps(bus, ch, channelStep[ch - 1], Entry(channels, ch));
      channelStep[ch - 1] := step;
      channels := channels[ch := st];
      PolledExtend(cache0, steps0, visited, ch, answers, t0, log0, chans1, log1, t1, channels, bus.log, bus.taken);
    }

    /** Queue `ch` for an urgent refresh and pause normal polling for the write guard. */
    method ScheduleRefresh(ch: int, now: uint32)
      requires IsChannel(ch) && AllChannelsIn(urgentChannels)
      modifies this`urgentChannels, this`suspendPollingUntil
      ensures AllChannelsIn(urgentChannels)
      ensures urgentChannels == old(urgentChannels) + [ch] && suspendPollingUntil == Deadline(now)
    {
      urgentChannels := urgentChannels + [ch];
      suspendPollingUntil := (now + 100) % 0x1_0000_0000;
    }

    /**
     * After reading configuration word `cfg` of channel `ch`: a desired
     * mode the word shows is dropped; one it does not show is written again
     * with the word's other bits kept, and a successful write queues
     * another refresh.
     */
    method Reconcile(bus: Bus, ch: int, cfg: bv16, now: uint32) returns (ghost pushed: bool)
      requires bus.Consistent() && IsChannel(ch) && AllChannelsIn(urgentChannels)
      modifies this`desiredMode, this`urgentChannels, this`suspendPollingUntil, bus
      ensures AllChannelsIn(urgentChannels)
      ensures desiredMode == Fulfilled(old(desiredMode), ch, Some(cfg))
      ensures Exchanged(bus, ReconcileWrites(old(desiredMode), ch, Some(cfg)))
      ensures pushed == (Mismatch(old(desiredMode), ch, Some(cfg)) && AckAccepted(old(bus.Reply(0)), FC_WRITE))
      ensures urgentChannels == if pushed then old(urgentChannels) + [ch] else old(urgentChannels)
      ensures suspendPollingUntil == if pushed then Deadline(now) else old(suspendPollingUntil)
    {
      pushed := false;
      if ch in desiredMode {
        var want := desiredMode[ch];
        if want != DecodeMode(cfg) {
          var ok := WriteRegister(bus, CAT_PACKED, Page(ch), PACKED_CONFIGURATION, ReconcileValue(cfg, want));
          if ok {
            ScheduleRefresh(ch, now);
            pushed := true;
          }
        } else {
          desiredMode := desiredMode - {ch};
        }
      }
    }

    /** The urgent refresh after the configuration word: comfort setpoint, output state, then the air temperature. */
    method ReadUrgentReadings(bus: Bus, ch: int, st: ChannelState) returns (r: ChannelState)
      requires bus.Consistent() && IsChannel(ch)
      modifies bus
      ensures var p := UrgentReads(ch, st, bus.answers, old(bus.taken)); Exchanged(bus, p.requests) && r == p.st
    {
      ghost var r1, r2 := bus.Reply(1), bus.Reply(2);
      r := ReadSetpoint(bus, ch, st);
      assert bus.Reply(0) == r1 && bus.Reply(1) == r2;
      r := ReadAction(bus, ch, r);
      assert bus.Reply(0) == r2;
      r := ReadAirTemperature(bus, r);
    }

    /**
     * The configuration part of an urgent refresh of channel `ch`: read the
     * configuration word into `st`, then reconcile the desired mode against
     * it.
     */
    method RefreshConfig(bus: Bus, ch: int, st: ChannelState, now: uint32) returns (r: ChannelState, cfg: Option<bv16>, ghost pushed: bool)
      requires bus.Consistent() && IsChannel(ch) && UrgentValid()
      modifies this`desiredMode, this`urgentChannels, this`suspendPollingUntil, bus
      ensures UrgentValid()
      ensures cfg == FirstWord(ReplyAt(bus.answers, old(bus.taken)))
      ensures Exchanged(bus, [StepRequest(1, ch)] + ReconcileWrites(old(desiredMode), ch, cfg))
      ensures r == WithMode(st, cfg) && desiredMode == Fulfilled(old(desiredMode), ch, cfg)
      ensures pushed == (Mismatch(old(desiredMode), ch, cfg) && AckAccepted(ReplyAt(bus.answers, old(bus.taken) + 1), FC_WRITE))
      ensures urgentChannels == if pushed then old(urgentChannels) + [ch] else old(urgentChannels)
      ensures suspendPollingUntil == if pushed then Deadline(now) else old(suspendPollingUntil)
    {
      r, cfg := ReadMode(bus, ch, st);
      pushed := false;
      if cfg.Some? {
        pushed := Reconcile(bus, ch, cfg.value, now);
      }
    }

    /**
     * The urgent refresh of channel `ch`: configuration (with
     * reconciliation), comfort setpoint, output state, then the air
     * temperature when the channel has a usable probe.
     */
    method RefreshUrgent(bus: Bus, ch: int, now: uint32) returns (ghost pushed: bool, ghost u: Refresh)
      requires bus.Consistent() && IsChannel(ch) && CacheValid() && UrgentValid()
      modifies this`channels, this`desiredMode, this`urgentChannels, this`suspendPollingUntil, bus
      ensures CacheValid() && UrgentValid()
      ensures u == UrgentRefresh(ch, Entry(old(channels), ch), old(desiredMode), bus.answers, old(bus.taken))
      ensures Exchanged(bus, u.requests) && channels == old(channels)[ch := u.st] && desiredMode == u.desired && pushed == u.pushed
      ensures urgentChannels == if pushed then old(urgentChannels) + [ch] else old(urgentChannels)
      ensures suspendPollingUntil == if pushed then Deadline(now) else old(suspendPollingUntil)
    {
      ghost var answers, log0, t0, st0, desired0 := bus.answers, bus.log, bus.taken, Entry(channels, ch), desiredMode;
      u := UrgentRefresh(ch, st0, desired0, answers, t0);
      UrgentRefreshParts(ch, st0, desired0, answers, t0);
      var st, cfg;
      st, cfg, pushed := RefreshConfig(bus, ch, Entry(channels, ch), now);
      ghost var writes := ReconcileWrites(desired0, ch, cfg);
      ghost var head := [StepRequest(1, ch)] + writes;
      assert bus.taken == t0 + |head| && bus.log == log0 + head;
      ghost var p := UrgentReads(ch, st, answers, t0 + |head|);
      assert u.requests == head + p.requests;
      st := ReadUrgentReadings(bus, ch, st);
      ExtendLog(log0, head, p.requests);
      assert bus.log == log0 + u.requests;
      channels := channels[ch := st];
    }

    // ---- The writes. Each ignores channel numbers outside 1..16.

    /** Write a raw comfort setpoint; an acknowledged write updates the cache at once and schedules a refresh. */
    method WriteChannelSetpoint(bus: Bus, ch: uint8, raw: bv16, now: uint32) returns (ghost ok: bool)
      requires Valid() && bus.Consistent()
      modifies this`channels, this`urgentChannels, this`suspendPollingUntil, bus
      ensures Valid()
      ensures !IsChannel(ch) ==> Exchanged(bus, [])
      ensures IsChannel(ch) ==> Exchanged(bus, [Write(CAT_PACKED, Page(ch), PACKED_MANUAL_TEMPERATURE, raw)])
      ensures ok == (IsChannel(ch) && AckAccepted(old(bus.Reply(0)), FC_WRITE))
      ensures channels == if ok then old(channels)[ch as int := Entry(old(channels), ch).(setpoint := Some(raw))] else old(channels)
      ensures urgentChannels == if ok then old(urgentChannels) + [ch as int] else old(urgentChannels)
      ensures suspendPollingUntil == if ok then Deadline(now) else old(suspendPollingUntil)
    {
      ok := false;
      if ch < 1 || ch > 16 {
        return;
      }
      var written := WriteRegister(bus, CAT_PACKED, Page(ch), PACKED_MANUAL_TEMPERATURE, raw);
      if written {
        channels := channels[ch as int := Entry(channels, ch).(setpoint := Some(raw))];
        ScheduleRefresh(ch, now);
        ok := true;
      }
    }

    /** Write a raw standby setpoint; as for the comfort setpoint. */
    method WriteChannelStandbySetpoint(bus: Bus, ch: uint8, raw: bv16, now: uint32) returns (ghost ok: bool)
      requires Valid() && bus.Consistent()
      modifies this`channels, this`urgentChannels, this`suspendPollingUntil, bus
      ensures Valid()
      ensures !IsChannel(ch) ==> Exchanged(bus, [])
      ensures IsChannel(ch) ==> Exchanged(bus, [Write(CAT_PACKED, Page(ch), PACKED_STANDBY_TEMPERATURE, raw)])
      ensures ok == (IsChannel(ch) && AckAccepted(old(bus.Reply(0)), FC_WRITE))
      ensures channels == if ok then old(channels)[ch as int := Entry(old(channels), ch).(standbySetpoint := Some(raw))] else old(channels)
      ensures urgentChannels == if ok then old(urgentChannels) + [ch as int] else old(urgentChannels)
      ensures suspendPollingUntil == if ok then Deadline(now) else old(suspendPollingUntil)
    {
      ok := false;
      if ch < 1 || ch > 16 {
        return;
      }
      var written := WriteRegister(bus, CAT_PACKED, Page(ch), PACKED_STANDBY_TEMPERATURE, raw);
      if written {
        channels := channels[ch as int := Entry(channels, ch).(standbySetpoint := Some(raw))];
        ScheduleRefresh(ch, now);
        ok := true;
      }
    }

    /**
     * Write a mode: record it as desired, write the strict baseline, and if
     * that is not acknowledged fall back to reading the configuration word
     * and writing it back with only the mode field replaced. A write that
     * lands updates the cache and schedules a refresh.
     */
    method WriteChannelMode(bus: Bus, ch: uint8, mode: Mode, now: uint32) returns (ghost ok: bool)
      requires Valid() && bus.Consistent()
      modifies this`channels, this`desiredMode, this`urgentChannels, this`suspendPollingUntil, bus
      ensures Valid()
      ensures !IsChannel(ch) ==> Exchanged(bus, []) && desiredMode == old(desiredMode)
      ensures IsChannel(ch) ==> desiredMode == old(desiredMode)[ch as int := mode]
      ensures IsChannel(ch) ==> Exchanged(bus, ModeWriteRequests(ch, mode, old(bus.Reply(0)), old(bus.Reply(1))))
      ensures ok == (IsChannel(ch) && ModeWriteLands(old(bus.Reply(0)), old(bus.Reply(1)), old(bus.Reply(2))))
      ensures channels == if ok then old(channels)[ch as int := Entry(old(channels), ch).(mode := mode)] else old(channels)
      ensures urgentChannels == if ok then old(urgentChannels) + [ch as int] else old(urgentChannels)
      ensures suspendPollingUntil == if ok then Deadline(now) else old(suspendPollingUntil)
    {
      ok := false;
      if ch < 1 || ch > 16 {
        return;
      }
      desiredMode := desiredMode[ch as int := mode];
      var written := SendMode(bus, ch, mode);
      if written {
        channels := channels[ch as int := Entry(channels, ch).(mode := mode)];
        ScheduleRefresh(ch, now);
        ok := true;
      }
    }

    /** The transmissions of a mode write: the strict write, then, if it is not acknowledged, the read-modify-write. */
    method SendMode(bus: Bus, ch: int, mode: Mode) returns (written: bool)
      requires bus.Consistent() && IsChannel(ch)
      modifies bus
      ensures Exchanged(bus, ModeWriteRequests(ch, mode, old(bus.Reply(0)), old(bus.Reply(1))))
      ensures written == ModeWriteLands(old(bus.Reply(0)), old(bus.Reply(1)), old(bus.Reply(2)))
    {
      ghost var r1, r2 := bus.Reply(1), bus.Reply(2);
      written := WriteRegister(bus, CAT_PACKED, Page(ch), PACKED_CONFIGURATION, StrictValue(mode));
      if !written {
        assert bus.Reply(0) == r1 && bus.Reply(1) == r2;
        var read, regs := ReadRegisters(bus, CAT_PACKED, Page(ch), PACKED_CONFIGURATION, 1, []);
        assert bus.Reply(0) == r2;
        if read && |regs| >= 1 {
          written := WriteRegister(bus, CAT_PACKED, Page(ch), PACKED_CONFIGURATION, ReconcileValue(regs[0], mode));
        }
      }
    }

    /** Force the configuration word to the strict baseline for OFF or HEAT; an acknowledged write schedules a refresh. */
    method NormalizeChannelConfig(bus: Bus, ch: uint8, off: bool, now: uint32) returns (ghost ok: bool)
      requires Valid() && bus.Consistent()
      modifies this`urgentChannels, this`suspendPollingUntil, bus
      ensures Valid()
      ensures !IsChannel(ch) ==> Exchanged(bus, [])
      ensures IsChannel(ch) ==> Exchanged(bus, [Write(CAT_PACKED, Page(ch), PACKED_CONFIGURATION, StrictValue(if off then Off else Heat))])
      ensures ok == (IsChannel(ch) && AckAccepted(old(bus.Reply(0)), FC_WRITE))
      ensures urgentChannels == if ok then old(urgentChannels) + [ch as int] else old(urgentChannels)
      ensures suspendPollingUntil == if ok then Deadline(now) else old(suspendPollingUntil)
    {
      ok := false;
      if ch < 1 || ch > 16 {
        return;
      }
      var written := WriteRegister(bus, CAT_PACKED, Page(ch), PACKED_CONFIGURATION, StrictValue(if off then Off else Heat));
      if written {
        ScheduleRefresh(ch, now);
        ok := true;
      }
    }

    // ---- The update cycle.

    /** Take the channel at the front of the urgent queue and refresh it. */
    method ServeNextUrgent(bus: Bus, now: uint32, ghost served: seq<int>) returns (ch: int, ghost pushed: bool)
      requires Valid() && bus.Consistent() && urgentChannels != []
      modifies this`channels, this`desiredMode, this`urgentChannels, this`suspendPollingUntil, bus
      ensures Valid() && bus.Consistent()
      ensures ch == old(urgentChannels[0])
      ensures urgentChannels == old(urgentChannels[1..]) + if pushed then [ch] else []
      ensures suspendPollingUntil == if pushed then Deadline(now) else old(suspendPollingUntil)
      ensures UrgentView(bus, served + [ch]) == ServeOne(old(UrgentView(bus, served)), bus.answers, now)
    {
      ghost var v0, answers := UrgentView(bus, served), bus.answers;
      ch := urgentChannels[0];
      urgentChannels := urgentChannels[1..];
      ghost var u;
      pushed, u := RefreshUrgent(bus, ch, now);
      ServeOneFrom(v0, answers, now, UrgentView(bus, served + [ch]));
    }

    /**
     * The urgent phase of an update: refresh queued channels in FIFO order,
     * at most `pollChannelsPerCycle` of them. A reconcile write that lands
     * queues its channel again at the back, where this same phase may reach
     * it while budget remains.
     */
    method ServeUrgent(bus: Bus, now: uint32)
      returns (processed: nat, ghost served: seq<int>, ghost requeued: seq<int>, ghost trace: seq<UrgentState>)
      requires Valid() && bus.Consistent()
      modifies this`channels, this`desiredMode, this`urgentChannels, this`suspendPollingUntil, bus
      ensures Valid() && bus.Consistent()
      ensures processed == |served| <= pollChannelsPerCycle
      ensures processed < pollChannelsPerCycle ==> urgentChannels == []
      ensures UrgentProgress(old(UrgentView(bus, [])), requeued, trace, bus.answers, now, UrgentView(bus, served))
    {
      processed, served, requeued := 0, [], [];
      trace := [UrgentView(bus, [])];
      while urgentChannels != [] && processed < pollChannelsPerCycle
        invariant Valid() && bus.Consistent()
        invariant processed == |served| <= pollChannelsPerCycle
        invariant UrgentProgress(old(UrgentView(bus, [])), requeued, trace, bus.answers, now, UrgentView(bus, served))
        decreases pollChannelsPerCycle - processed
      {
        ghost var u0, v, answers := old(UrgentView(bus, [])), UrgentView(bus, served), bus.answers;
        ghost var back := UrgentStep(u0, requeued, trace, answers, now, v);
        var ch, pushed := ServeNextUrgent(bus, now, served);
        served := served + [ch];
        requeued := requeued + back;
        processed := processed + 1;
        trace := trace + [ServeOne(v, answers, now)];
      }
    }

    /** With no channels configured, polling falls back to all sixteen, in order. */
    method FillActiveChannels()
      requires Valid()
      modifies this`activeChannels
      ensures Valid()
      ensures activeChannels == if old(activeChannels) == [] then AllChannels() else old(activeChannels)
    {
      if activeChannels == [] {
        var c := 1;
        while c <= CHANNEL_COUNT
          invariant 1 <= c <= CHANNEL_COUNT + 1
          invariant |activeChannels| == c - 1
          invariant forall k :: 0 <= k < c - 1 ==> activeChannels[k] == k + 1
        {
          activeChannels := activeChannels + [c];
          c := c + 1;
        }
        assert activeChannels == AllChannels();
      }
    }

    /** The hub's round-robin state is the one the visits `visited` make from cursor `next0` and step counters `steps0`. */
    ghost predicate RoundRobinAt(next0: nat, steps0: seq<int>, visited: seq<int>)
      reads this`activeChannels, this`nextActiveIndex, channelStep
      requires activeChannels != []
    {
      RoundRobin(activeChannels, nextActiveIndex, channelStep[..], next0, steps0, visited)
    }

    /**
     * The cache and the bus after the visits `visited`, made from cache
     * `cache0`, step counters `steps0`, request log `log0` and answer
     * position `t0`: what those visits leave in the cache, and their requests
     * appended to the log.
     */
    ghost predicate PolledAt(bus: Bus, cache0: Channels, steps0: seq<int>, log0: seq<Request>, t0: nat, visited: seq<int>)
      reads this`channels, bus`log, bus`taken
      requires |steps0| == CHANNEL_COUNT
    {
      var p := PollVisits(cache0, steps0, visited, bus.answers, t0);
      channels == p.channels && bus.log == log0 + p.requests && bus.taken == t0 + |p.requests|
    }

    /** One round-robin visit: wrap the cursor to the front when past the end, visit the channel under it, move it on. */
    method VisitAtCursor(bus: Bus, ghost cache0: Channels, ghost steps0: seq<int>, ghost log0: seq<Request>, ghost t0: nat,
                         ghost visited: seq<int>) returns (ch: int)
      requires CacheValid() && StepsValid() && StepsEven() && bus.Consistent()
      requires AllChannelsIn(activeChannels) && activeChannels != []
      requires |steps0| == CHANNEL_COUNT && channelStep[..] == AfterVisits(steps0, visited)
      requires PolledAt(bus, cache0, steps0, log0, t0, visited)
      modifies this`channels, this`nextActiveIndex, channelStep, bus
      ensures CacheValid() && StepsValid() && StepsEven() && bus.Consistent() && IsChannel(ch)
      ensures var cur := if old(nextActiveIndex) < |activeChannels| then old(nextActiveIndex) else 0;
        ch == activeChannels[cur] && nextActiveIndex == (cur + 1) % |activeChannels|
      ensures nextActiveIndex < |activeChannels|
      ensures channelStep[..] == old(channelStep[..])[ch - 1 := NextStep(NextStep(old(channelStep[ch - 1])))]
      ensures PolledAt(bus, cache0, steps0, log0, t0, visited + [ch])
    {
      if nextActiveIndex >= |activeChannels| {
        nextActiveIndex := 0;
      }
      ch := activeChannels[nextActiveIndex];
      ghost var steps := channelStep[..];
      VisitChannel(bus, ch, cache0, steps0, log0, t0, visited);
      VisitKeepsEven(steps, ch - 1);
      nextActiveIndex := (nextActiveIndex + 1) % |activeChannels|;
    }

    /** A visit at the cursor extends the round-robin state by the channel it visited. */
    method PollNext(bus: Bus, ghost next0: nat, ghost steps0: seq<int>, ghost cache0: Channels, ghost log0: seq<Request>, ghost t0: nat,
                    ghost visited: seq<int>) returns (ch: int)
      requires Valid() && bus.Consistent() && activeChannels != []
      requires RoundRobinAt(next0, steps0, visited) && PolledAt(bus, cache0, steps0, log0, t0, visited)
      modifies this`channels, this`nextActiveIndex, channelStep, bus
      ensures Valid() && bus.Consistent()
      ensures RoundRobinAt(next0, steps0, visited + [ch]) && PolledAt(bus, cache0, steps0, log0, t0, visited + [ch])
    {
      ghost var active, next, steps := activeChannels, nextActiveIndex, channelStep[..];
      ch := VisitAtCursor(bus, cache0, steps0, log0, t0, visited);
      assert ScheduleValid();
      RoundRobinExtend(active, next0, steps0, visited, next, steps, ch, nextActiveIndex, channelStep[..]);
    }

    /**
     * The round-robin phase: while the count `i` from `start` is below
     * `pollChannelsPerCycle`, visit the channel at the cursor and move the
     * cursor on.
     */
    method PollRoundRobin(bus: Bus, start: nat) returns (ghost visited: seq<int>)
      requires Valid() && bus.Consistent() && activeChannels != []
      modifies this`channels, this`nextActiveIndex, channelStep, bus
      ensures Valid() && bus.Consistent()
      ensures |visited| == if start < pollChannelsPerCycle then pollChannelsPerCycle - start else 0
      ensures RoundRobinAt(old(nextActiveIndex), old(channelStep[..]), visited)
      ensures PolledAt(bus, old(channels), old(channelStep[..]), old(bus.log), old(bus.taken), visited)
    {
      visited := [];
      ghost var next0 := nextActiveIndex;
      ghost var steps0 := channelStep[..];
      ghost var cache0, log0, t0 := channels, bus.log, bus.taken;
      assert bus.log == log0 + [];
      var i := start;
      while i < pollChannelsPerCycle && activeChannels != []
        invariant Valid() && bus.Consistent()
        invariant start <= i && |visited| == i - start
        invariant if start < pollChannelsPerCycle then i <= pollChannelsPerCycle else i == start
        invariant RoundRobinAt(next0, steps0, visited) && PolledAt(bus, cache0, steps0, log0, t0, visited)
        decreases pollChannelsPerCycle - i
      {
        var ch := PollNext(bus, next0, steps0, cache0, log0, t0, visited);
        visited := visited + [ch];
        i := i + 1;
      }
    }

    /**
     * One polling cycle. While a write guard is running nothing happens.
     * Otherwise the urgent queue is served first, then the round-robin
     * visits channels with the budget that is left, two steps each.
     */
    method Update(bus: Bus, now: uint32)
      returns (ghost served: seq<int>, ghost requeued: seq<int>, ghost trace: seq<UrgentState>, ghost urgent: UrgentState,
               ghost visited: seq<int>)
      requires Valid() && bus.Consistent()
      modifies this`channels, this`desiredMode, this`urgentChannels, this`suspendPollingUntil
      modifies this`activeChannels, this`nextActiveIndex, channelStep, bus
      ensures Valid() && bus.Consistent()
      ensures old(Suspended(now)) ==> served == [] && visited == [] && unchanged(this) && unchanged(channelStep) && unchanged(bus)
      ensures !old(Suspended(now)) ==>
        && |served| <= pollChannelsPerCycle
        && (|served| < pollChannelsPerCycle ==> urgentChannels == [])
        && old(urgentChannels) + requeued == served + urgentChannels
        && suspendPollingUntil == (if requeued == [] then old(suspendPollingUntil) else Deadline(now))
        && SubMap(desiredMode, old(desiredMode))
      ensures !old(Suspended(now)) ==>
        && activeChannels == (if old(activeChannels) == [] then AllChannels() else old(activeChannels))
        && |visited| == pollChannelsPerCycle - |served|
      ensures !old(Suspended(now)) ==> RoundRobinAt(old(nextActiveIndex), old(channelStep[..]), visited)
      ensures channelStep[..] == AfterVisits(old(channelStep[..]), visited)
      ensures !old(Suspended(now)) ==>
        && served == urgent.served && UrgentProgress(old(UrgentView(bus, [])), requeued, trace, bus.answers, now, urgent)
        && desiredMode == urgent.desired && urgentChannels == urgent.queue && suspendPollingUntil == urgent.suspend
        && PolledAt(bus, urgent.channels, old(channelStep[..]), urgent.log, urgent.taken, visited)
    {
      served, requeued, visited, trace := [], [], [], [UrgentView(bus, [])];
      urgent := UrgentView(bus, []);
      if suspendPollingUntil != 0 && now < suspendPollingUntil {
        return;
      }
      var processed;
      processed, served, requeued, trace := ServeUrgent(bus, now);
      urgent := UrgentView(bus, served);
      FillActiveChannels();
      visited := PollRoundRobin(bus, processed);
    }
  }
}
