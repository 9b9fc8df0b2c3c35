/**
 The acquisition-health tracker: windows, 5 s intervals and three anomalies, driven by timestamped
 calls. `Tracker` is the value the class holds; every method of `HealthTracker` is proved to move
 that value by the function of the same name, and the properties are lemmas about those functions.
 */
module SessionHealth {
  import opened Wrappers

  const INTERVAL_MS: nat := 5_000
  const MAX_WINDOW_MS: nat := 60_000
  const CHURN_WINDOW_MS: nat := 600_000
  const CHURN_SWITCHES: nat := 4

  datatype Tier = Poll | UdsStream | StnPeriodic | DviPeriodic {
    predicate Engaged() { !Poll? }

    // Both adapter-periodic rungs share one baseline.
    function Index(): (i: nat)
      ensures i < 3
    {
      match this
      case Poll => 0
      case UdsStream => 1
      case StnPeriodic => 2
      case DviPeriodic => 2
    }
  }

  datatype Window = Window(tier: Tier, startMs: nat, endMs: nat, signals: nat, batches: nat, rttAvgMs: Option<real>)

  datatype Code = RateDegraded | TierSilent | LadderChurn

  datatype Anomaly = Anomaly(code: Code, tier: Tier, atMs: nat)

  datatype HealthEvent = WindowClosed(window: Window) | Fired(anomaly: Anomaly)

  datatype Summary = Summary(startedMs: nat, endedMs: nat, windows: seq<Window>, anomalies: seq<Anomaly>,
                             totalSignals: nat)

  /** The window being filled. */
  datatype Current = Current(
    tier: Tier, startMs: nat, signals: nat, batches: nat, intervalStartMs: nat, intervalSignals: nat,
    zeroStreak: nat, belowStreak: nat, tierSilentFired: bool, rateDegradedFired: bool)

  function Open(tier: Tier, now: nat): Current {
    Current(tier, now, 0, 0, now, 0, 0, 0, false, false)
  }

  /** Sum and count of a tier's completed nonzero intervals. */
  datatype Baseline = Baseline(sum: nat, count: nat)

  datatype Tracker = Tracker(
    started: Option<nat>, finished: bool, current: Option<Current>, windows: seq<Window>,
    anomalies: seq<Anomaly>, baselines: map<nat, Baseline>, everWindowWithSignals: bool, switchTimes: seq<nat>,
    emitted: seq<HealthEvent>)  // history of the events handed to the caller
  {
    function BaselineOf(tier: Tier): Baseline {
      if tier.Index() in baselines then baselines[tier.Index()] else Baseline(0, 0)
    }
  }

  const NEW_TRACKER := Tracker(None, false, None, [], [], map[], false, [], [])

  // A finished tracker holds no open window: `Finish` takes it, and only a fresh session opens another.
  // A window is open only in a session that has a start time.
  ghost predicate WellFormed(t: Tracker) {
    && (t.finished ==> t.current.None?)
    && (t.current.Some? ==> t.started.Some?)
  }

  function Record(t: Tracker, a: Anomaly): Tracker {
    t.(anomalies := t.anomalies + [a], emitted := t.emitted + [Fired(a)])
  }

  // ---------------------------------------------------------------- intervals

  // n < 0.5 * sum / count, on integers.
  predicate BelowHalf(n: nat, b: Baseline) {
    2 * n * b.count < b.sum
  }

  function NextBelowStreak(c: Current, b: Baseline): nat {
    if b.count < 3 then c.belowStreak
    else if BelowHalf(c.intervalSignals, b) then c.belowStreak + 1
    else 0
  }

  function NextZeroStreak(c: Current): nat {
    if c.intervalSignals == 0 then c.zeroStreak + 1 else 0
  }

  predicate DegradedNow(c: Current, b: Baseline) {
    b.count >= 3 && NextBelowStreak(c, b) >= 2 && !c.rateDegradedFired
  }

  predicate SilentNow(c: Current, ever: bool) {
    c.tier.Engaged() && NextZeroStreak(c) >= 2 && ever && !c.tierSilentFired
  }

  function Events(anomalies: seq<Anomaly>): seq<HealthEvent> {
    seq(|anomalies|, i requires 0 <= i < |anomalies| => Fired(anomalies[i]))
  }

  /** The anomalies one completed interval fires, in order. */
  function IntervalAnomalies(t: Tracker): seq<Anomaly>
    requires t.current.Some?
  {
    var c := t.current.value;
    var at := c.intervalStartMs + INTERVAL_MS;
    (if DegradedNow(c, t.BaselineOf(c.tier)) then [Anomaly(RateDegraded, c.tier, at)] else []) +
    (if SilentNow(c, t.everWindowWithSignals) then [Anomaly(TierSilent, c.tier, at)] else [])
  }

  /** One completed interval. The baseline an interval is judged against excludes the interval itself. */
  function CloseInterval(t: Tracker): Tracker
    requires t.current.Some?
  {
    var c := t.current.value;
    var b := t.BaselineOf(c.tier);
    var n := c.intervalSignals;
    var c' := c.(intervalSignals := 0, intervalStartMs := c.intervalStartMs + INTERVAL_MS, batches := c.batches + 1,
                 zeroStreak := NextZeroStreak(c), belowStreak := NextBelowStreak(c, b),
                 rateDegradedFired := c.rateDegradedFired || DegradedNow(c, b),
                 tierSilentFired := c.tierSilentFired || SilentNow(c, t.everWindowWithSignals));
    t.(current := Some(c'),
       anomalies := t.anomalies + IntervalAnomalies(t),
       emitted := t.emitted + Events(IntervalAnomalies(t)),
       baselines := if n > 0 then t.baselines[c.tier.Index() := Baseline(b.sum + n, b.count + 1)] else t.baselines)
  }

  predicate IntervalDue(t: Tracker, now: nat) {
    t.current.Some? && now >= t.current.value.intervalStartMs + INTERVAL_MS
  }

  function Roll(t: Tracker, now: nat): Tracker
    decreases if t.current.Some? then now + INTERVAL_MS - t.current.value.intervalStartMs else 0
  {
    if IntervalDue(t, now) then Roll(CloseInterval(t), now) else t
  }

  // ---------------------------------------------------------------- operations

  function CloseCurrent(t: Tracker, now: nat, rtt: Option<real>): Tracker {
    match t.current
    case None => t
    case Some(c) =>
      var w := Window(c.tier, c.startMs, now, c.signals, c.batches, rtt);
      t.(current := None,
         everWindowWithSignals := t.everWindowWithSignals || c.signals > 0,
         windows := t.windows + [w],
         emitted := t.emitted + [WindowClosed(w)])
  }

  function Fresh(t: Tracker): Tracker {
    if t.finished then NEW_TRACKER.(emitted := t.emitted) else t
  }

  function Started(t: Tracker, now: nat): Tracker {
    if t.started.None? then t.(started := Some(now)) else t
  }

  function Recent(times: seq<nat>, now: nat): seq<nat> {
    if times == [] then []
    else
      var rest := Recent(times[1..], now);
      if now <= times[0] + CHURN_WINDOW_MS then [times[0]] + rest else rest
  }

  // Bookkeeping of a tier switch: the fourth one inside ten minutes fires and re-arms.
  function NoteSwitch(t: Tracker, tier: Tier, now: nat): Tracker {
    var times := Recent(t.switchTimes, now) + [now];
    if |times| >= CHURN_SWITCHES then Record(t.(switchTimes := []), Anomaly(LadderChurn, tier, now))
    else t.(switchTimes := times)
  }

  function OnTier(t0: Tracker, tier: Tier, now: nat, rtt: Option<real>): Tracker {
    var t := Started(Fresh(t0), now);
    match t.current
    case None => t.(current := Some(Open(tier, now)))
    case Some(c) =>
      if c.tier == tier then Roll(t, now)
      else NoteSwitch(CloseCurrent(Roll(t, now), now, rtt).(current := Some(Open(tier, now))), tier, now)
  }

  function ResetForConnected(t: Tracker, now: nat): Tracker {
    Fresh(t).(started := Some(now), current := Some(Open(Poll, now)))
  }

  function AddSignals(t: Tracker, n: nat): Tracker {
    match t.current
    case None => t
    case Some(c) => t.(current := Some(c.(signals := c.signals + n, intervalSignals := c.intervalSignals + n)))
  }

  function OnSignals(t: Tracker, n: nat, now: nat): Tracker {
    if t.finished then t
    else
      var live := if t.current.None? then Started(t, now).(current := Some(Open(Poll, now))) else t;
      AddSignals(Roll(live, now), n)
  }

  function OnTick(t: Tracker, now: nat): Tracker {
    if t.finished then t else Roll(t, now)
  }

  predicate WindowDueToRoll(t: Tracker, now: nat) {
    !t.finished && t.current.Some? && now >= t.current.value.startMs + MAX_WINDOW_MS
  }

  function RollIfDue(t: Tracker, now: nat, rtt: Option<real>): Tracker {
    if WindowDueToRoll(t, now) then
      CloseCurrent(Roll(t, now), now, rtt).(current := Some(Open(t.current.value.tier, now)))
    else t
  }

  function OnSubscriptionEdit(t: Tracker): Tracker {
    t.(switchTimes := [])
  }

  function SignalsOf(ws: seq<Window>): nat {
    if ws == [] then 0 else SignalsOf(ws[..|ws| - 1]) + ws[|ws| - 1].signals
  }

  function Finish(t: Tracker, now: nat, rtt: Option<real>): Tracker {
    if t.finished || t.started.None? then t
    else CloseCurrent(Roll(t, now), now, rtt).(finished := true)
  }

  function SummaryOf(t: Tracker, now: nat): Summary
    requires t.started.Some?
  {
    Summary(t.started.value, now, t.windows, t.anomalies, SignalsOf(t.windows))
  }

  // ---------------------------------------------------------------- tick insensitivity

  datatype Call =
    | Tiered(tier: Tier, now: nat, rtt: Option<real>)
    | Signals(n: nat, now: nat)
    | Tick(now: nat)
    | Rolled(now: nat, rtt: Option<real>)
    | Edited(now: nat)
    | Finished(now: nat, rtt: Option<real>)
    | Connected(now: nat)

  function Apply(t: Tracker, c: Call): Tracker {
    match c
    case Tiered(tier, now, rtt) => OnTier(t, tier, now, rtt)
    case Signals(n, now) => OnSignals(t, n, now)
    case Tick(now) => OnTick(t, now)
    case Rolled(now, rtt) => RollIfDue(t, now, rtt)
    case Edited(_) => OnSubscriptionEdit(t)
    case Finished(now, rtt) => Finish(t, now, rtt)
    case Connected(now) => ResetForConnected(t, now)
  }

  function Run(t: Tracker, calls: seq<Call>): Tracker {
    if calls == [] then t else Apply(Run(t, calls[..|calls| - 1]), calls[|calls| - 1])
  }

  function Untick(calls: seq<Call>): seq<Call> {
    if calls == [] then []
    else
      var rest := Untick(calls[..|calls| - 1]);
      if calls[|calls| - 1].Tick? then rest else rest + [calls[|calls| - 1]]
  }

  ghost predicate Monotone(calls: seq<Call>) {
    forall i, j :: 0 <= i <= j < |calls| ==> calls[i].now <= calls[j].now
  }

  ghost predicate By(calls: seq<Call>, now: nat) {
    Monotone(calls) && forall i :: 0 <= i < |calls| ==> calls[i].now <= now
  }

  lemma {:induction false} WellFormedRun(t: Tracker, calls: seq<Call>)
    requires WellFormed(t)
    ensures WellFormed(Run(t, calls))
  {
    if calls != [] {
      var before := Run(t, calls[..|calls| - 1]);
      WellFormedRun(t, calls[..|calls| - 1]);
      RollKeeps(before, calls[|calls| - 1].now);
      if calls[|calls| - 1].Signals? && !before.finished && before.current.None? {
        RollKeeps(Started(before, calls[|calls| - 1].now).(current := Some(Open(Poll, calls[|calls| - 1].now))),
                  calls[|calls| - 1].now);
      }
      RollKeeps(Started(Fresh(before), calls[|calls| - 1].now), calls[|calls| - 1].now);
    }
  }

  // What rolling leaves alone.
  lemma {:induction false} RollKeeps(t: Tracker, now: nat)
    ensures
      var r := Roll(t, now);
      && r.started == t.started && r.finished == t.finished && r.windows == t.windows
      && r.switchTimes == t.switchTimes && r.everWindowWithSignals == t.everWindowWithSignals
      && r.current.Some? == t.current.Some?
      && (t.current.Some? ==> r.current.value.tier == t.current.value.tier
                              && r.current.value.startMs == t.current.value.startMs
                              && r.current.value.signals == t.current.value.signals)
    decreases if t.current.Some? then now + INTERVAL_MS - t.current.value.intervalStartMs else 0
  {
    if IntervalDue(t, now) { RollKeeps(CloseInterval(t), now); }
  }

  /** Rolling in two goes is rolling once. */
  lemma {:induction false} RollCompose(t: Tracker, first: nat, second: nat)
    requires first <= second
    ensures Roll(Roll(t, first), second) == Roll(t, second)
    decreases if t.current.Some? then first + INTERVAL_MS - t.current.value.intervalStartMs else 0
  {
    if IntervalDue(t, first) { RollCompose(CloseInterval(t), first, second); }
  }

  // Fields a roll neither reads nor writes can be changed before or after it.
  lemma {:induction false} RollCommutes(t: Tracker, now: nat, started: Option<nat>, times: seq<nat>)
    ensures Roll(t.(started := started, switchTimes := times), now) ==
            Roll(t, now).(started := started, switchTimes := times)
    decreases if t.current.Some? then now + INTERVAL_MS - t.current.value.intervalStartMs else 0
  {
    if IntervalDue(t, now) {
      assert CloseInterval(t.(started := started, switchTimes := times))
          == CloseInterval(t).(started := started, switchTimes := times);
      RollCommutes(CloseInterval(t), now, started, times);
    }
  }

  // Calls that leave the intervals alone: edits, and a roll request before the window is old enough.
  ghost predicate Still(t: Tracker, c: Call) {
    c.Edited? || (c.Rolled? && !WindowDueToRoll(t, c.now))
  }

  // Any other call but a reset rolls first, so an earlier roll is absorbed.
  lemma {:induction false} RollAbsorbed(t: Tracker, at: nat, c: Call)
    requires WellFormed(t) && at <= c.now && !c.Connected? && !Still(t, c)
    ensures Apply(Roll(t, at), c) == Apply(t, c)
  {
    RollKeeps(t, at);
    RollCompose(t, at, c.now);
    if t.current.None? {
      assert Roll(t, at) == t;
    } else if c.Tiered? {
      var u := Started(t, c.now);
      RollCommutes(t, at, u.started, t.switchTimes);
      assert u == t.(started := u.started, switchTimes := t.switchTimes);
      assert Started(Roll(t, at), c.now) == Roll(u, at);
      RollCompose(u, at, c.now);
      assert OnTier(Roll(t, at), c.tier, c.now, c.rtt) == OnTier(t, c.tier, c.now, c.rtt);
    }
  }

  lemma {:induction false} StillCommutes(t: Tracker, at: nat, c: Call)
    requires Still(t, c)
    ensures Apply(Roll(t, at), c) == Roll(Apply(t, c), at)
  {
    RollKeeps(t, at);
    RollCommutes(t, at, t.started, []);
  }

  ghost predicate SameOnceRolled(a: Tracker, b: Tracker, at: nat) {
    Roll(a, at) == Roll(b, at)
  }

  lemma SameLater(a: Tracker, b: Tracker, at: nat, later: nat)
    requires SameOnceRolled(a, b, at) && at <= later
    ensures SameOnceRolled(a, b, later)
  {
    RollCompose(a, at, later);
    RollCompose(b, at, later);
  }

  lemma StepTogether(a: Tracker, b: Tracker, at: nat, c: Call)
    requires WellFormed(a) && WellFormed(b)
    requires SameOnceRolled(a, b, at) && at <= c.now && !c.Connected?
    ensures SameOnceRolled(Apply(a, c), Apply(b, c), c.now)
    ensures c.Tick? ==> SameOnceRolled(Apply(a, c), b, c.now)
  {
    SameLater(a, b, at, c.now);
    RollKeeps(a, c.now);
    RollKeeps(b, c.now);
    if Still(a, c) {
      StillCommutes(a, c.now, c);
      StillCommutes(b, c.now, c);
    } else {
      RollAbsorbed(a, at, c);
      RollAbsorbed(b, at, c);
      RollKeeps(a, at);
      RollKeeps(b, at);
      RollCompose(a, c.now, c.now);
    }
  }

  // ---------------------------------------------------------------- the one call that keeps what a tick leaves

  function IntervalsDue(c: Current, at: nat): nat {
    if at < c.intervalStartMs then 0 else (at - c.intervalStartMs) / INTERVAL_MS
  }

  /**
   When a tick at `at` leaves something behind that a CONNECTED reset will not discard: it completes
   an interval that carried signals, or its silent intervals bring a streak to the firing point.
   */
  predicate LeavesTrace(t: Tracker, at: nat) {
    t.current.Some? &&
    var c := t.current.value;
    var k, b := IntervalsDue(c, at), t.BaselineOf(c.tier);
    && k >= 1
    && (|| c.intervalSignals > 0
        || (b.count >= 3 && b.sum > 0 && !c.rateDegradedFired && c.belowStreak + k >= 2)
        || (c.tier.Engaged() && t.everWindowWithSignals && !c.tierSilentFired && c.zeroStreak + k >= 2))
  }

  lemma {:induction false} RollGrows(t: Tracker, at: nat)
    ensures t.anomalies <= Roll(t, at).anomalies
    ensures forall i :: Tracked(Roll(t, at), i).count >= Tracked(t, i).count
    decreases if t.current.Some? then at + INTERVAL_MS - t.current.value.intervalStartMs else 0
  {
    if IntervalDue(t, at) { RollGrows(CloseInterval(t), at); }
  }

  function Tracked(t: Tracker, i: nat): Baseline {
    if i in t.baselines then t.baselines[i] else Baseline(0, 0)
  }

  lemma {:induction false} RollTrace(t: Tracker, at: nat)
    ensures LeavesTrace(t, at) <==>
            !(Roll(t, at).anomalies == t.anomalies && Roll(t, at).emitted == t.emitted &&
              Roll(t, at).baselines == t.baselines)
    decreases if t.current.Some? then at + INTERVAL_MS - t.current.value.intervalStartMs else 0
  {
    if IntervalDue(t, at) {
      var c, next := t.current.value, CloseInterval(t);
      assert IntervalsDue(c, at) == IntervalsDue(next.current.value, at) + 1;
      RollTrace(next, at);
      RollGrows(next, at);
      if c.intervalSignals > 0 {
        var i := c.tier.Index();
        assert Tracked(Roll(t, at), i).count > Tracked(t, i).count;
      } else if IntervalAnomalies(t) != [] {
        assert |Roll(t, at).anomalies| > |t.anomalies|;
      } else {
        assert next.anomalies == t.anomalies && next.emitted == t.emitted && next.baselines == t.baselines;
      }
    }
  }

  /** A tick before a CONNECTED reset goes unnoticed exactly when it leaves no trace. */
  lemma ResetTickSensitivity(t: Tracker, at: nat, now: nat)
    requires WellFormed(t)
    ensures ResetForConnected(OnTick(t, at), now) == ResetForConnected(t, now) <==> !LeavesTrace(t, at)
  {
    if !t.finished {
      RollTrace(t, at);
      RollKeeps(t, at);
    }
  }

  /** One delivery before CONNECTED, then a tick 5 s later: the tick alone changes what the session remembers. */
  lemma TickBeforeResetShows()
    ensures
      var t := Run(NEW_TRACKER, [Signals(7, 0)]);
      && LeavesTrace(t, INTERVAL_MS)
      && ResetForConnected(OnTick(t, INTERVAL_MS), 6_000) != ResetForConnected(t, 6_000)
  {
    var calls := [Signals(7, 0)];
    assert Run(NEW_TRACKER, calls[..0]) == NEW_TRACKER;
    var t := Run(NEW_TRACKER, calls);
    ResetTickSensitivity(t, INTERVAL_MS, 6_000);
  }

  // ---------------------------------------------------------------- ticks anywhere

  /** Whenever a CONNECTED comes, a tick at that moment would leave nothing behind. */
  ghost predicate Settled(t: Tracker, calls: seq<Call>) {
    forall i :: 0 <= i < |calls| && calls[i].Connected? ==> !LeavesTrace(Run(t, calls[..i]), calls[i].now)
  }

  lemma SettledInit(t: Tracker, calls: seq<Call>)
    requires Settled(t, calls) && calls != []
    ensures Settled(t, calls[..|calls| - 1])
    ensures calls[|calls| - 1].Connected? ==> !LeavesTrace(Run(t, calls[..|calls| - 1]), calls[|calls| - 1].now)
  {
    hide Run, LeavesTrace;
    var k := |calls| - 1;
    assert forall i :: 0 <= i < k ==> calls[..k][..i] == calls[..i];
  }

  lemma ByInit(calls: seq<Call>, at: nat)
    requires By(calls, at) && calls != []
    ensures By(calls[..|calls| - 1], calls[|calls| - 1].now) && By(calls[..|calls| - 1], at) &&
            calls[|calls| - 1].now <= at
  {
  }

  lemma ResetTogether(a: Tracker, b: Tracker, now: nat)
    requires WellFormed(a) && WellFormed(b) && SameOnceRolled(a, b, now) && !LeavesTrace(a, now) && !LeavesTrace(b, now)
    ensures ResetForConnected(a, now) == ResetForConnected(b, now)
  {
    RollTrace(a, now);
    RollTrace(b, now);
    RollKeeps(a, now);
    RollKeeps(b, now);
    hide Roll, LeavesTrace;
  }

  // One more call on both sides.
  lemma BothStep(a: Tracker, b: Tracker, c: Call, at: nat)
    requires WellFormed(a) && WellFormed(b) && SameOnceRolled(a, b, c.now) && c.now <= at
    requires c.Connected? ==> !LeavesTrace(a, c.now) && !LeavesTrace(b, c.now)
    ensures SameOnceRolled(Apply(a, c), Apply(b, c), at)
  {
    if c.Connected? {
      ResetTogether(a, b, c.now);
    } else {
      StepTogether(a, b, c.now, c);
      SameLater(Apply(a, c), Apply(b, c), c.now, at);
    }
  }

  // A tick on one side only.
  lemma TickStep(a: Tracker, b: Tracker, tick: nat, at: nat)
    requires SameOnceRolled(a, b, at) && tick <= at
    ensures SameOnceRolled(Apply(a, Tick(tick)), b, at)
  {
    RollCompose(a, tick, at);
  }

  lemma UntickLast(calls: seq<Call>)
    requires calls != [] && !calls[|calls| - 1].Tick?
    ensures
      var k := |calls| - 1;
      Untick(calls) != [] && Untick(calls)[|Untick(calls)| - 1] == calls[k]
      && Untick(calls)[..|Untick(calls)| - 1] == Untick(calls[..k])
  {
  }

  lemma RunLast(t: Tracker, calls: seq<Call>)
    requires calls != []
    ensures Run(t, calls) == Apply(Run(t, calls[..|calls| - 1]), calls[|calls| - 1])
    ensures calls[|calls| - 1].Tick? ==> Untick(calls) == Untick(calls[..|calls| - 1])
  {
  }

  lemma NothingRun(t: Tracker)
    ensures Run(t, []) == t && Untick([]) == []
  {
  }

  lemma {:induction false} RunSplit(t: Tracker, a: seq<Call>, b: seq<Call>)
    ensures Run(t, a + b) == Run(Run(t, a), b)
  {
    hide Apply;
    if b == [] {
      assert a + b == a;
    } else {
      var k := |b| - 1;
      RunSplit(t, a, b[..k]);
      assert (a + b)[..|a + b| - 1] == a + b[..k];
    }
  }

  lemma {:induction false} Together(t: Tracker, calls: seq<Call>, others: seq<Call>, at: nat)
    requires WellFormed(t) && By(calls, at) && By(others, at)
    requires Untick(calls) == Untick(others) && Settled(t, calls) && Settled(t, others)
    ensures SameOnceRolled(Run(t, calls), Run(t, others), at)
    decreases |calls| + |others|
  {
    hide *;
    NothingRun(t);
    if calls != [] {
      ByInit(calls, at);
      SettledInit(t, calls);
      RunLast(t, calls);
    }
    if others != [] {
      ByInit(others, at);
      SettledInit(t, others);
      RunLast(t, others);
    }
    if calls != [] && calls[|calls| - 1].Tick? {
      Together(t, calls[..|calls| - 1], others, at);
      TickStep(Run(t, calls[..|calls| - 1]), Run(t, others), calls[|calls| - 1].now, at);
    } else if others != [] && others[|others| - 1].Tick? {
      Together(t, calls, others[..|others| - 1], at);
      SameEither(Run(t, calls), Run(t, others[..|others| - 1]), at);
      TickStep(Run(t, others[..|others| - 1]), Run(t, calls), others[|others| - 1].now, at);
      SameEither(Run(t, others), Run(t, calls), at);
    } else {
      if calls != [] { UntickLast(calls); }
      if others != [] { UntickLast(others); }
      if calls == [] {
        SameAlone(t, at);
      } else {
        var a, b, c := calls[..|calls| - 1], others[..|others| - 1], calls[|calls| - 1];
        Together(t, a, b, c.now);
        WellFormedRun(t, a);
        WellFormedRun(t, b);
        BothStep(Run(t, a), Run(t, b), c, at);
      }
    }
  }

  lemma SameEither(a: Tracker, b: Tracker, at: nat)
    requires SameOnceRolled(a, b, at)
    ensures SameOnceRolled(b, a, at)
  {
  }

  lemma SameAlone(t: Tracker, at: nat)
    ensures SameOnceRolled(t, t, at)
  {
  }

  /**
   Ticks do not matter: whatever `OnTick` calls are woven into a time-ordered run, the session ends in the
   same state, so windows, anomalies, summary and the whole sequence of events agree. A CONNECTED in the
   run needs that no tick at its time would leave something behind; `ResetTickSensitivity` says when one does.
   */
  lemma TickInsensitive(calls: seq<Call>, others: seq<Call>, now: nat, rtt: Option<real>)
    requires By(calls, now) && By(others, now) && Untick(calls) == Untick(others)
    requires Settled(NEW_TRACKER, calls) && Settled(NEW_TRACKER, others)
    ensures Finish(Run(NEW_TRACKER, calls), now, rtt) == Finish(Run(NEW_TRACKER, others), now, rtt)
  {
    var a, b := Run(NEW_TRACKER, calls), Run(NEW_TRACKER, others);
    Together(NEW_TRACKER, calls, others, now);
    WellFormedRun(NEW_TRACKER, calls);
    WellFormedRun(NEW_TRACKER, others);
    hide Run;
    RollAbsorbed(a, now, Finished(now, rtt));
    RollAbsorbed(b, now, Finished(now, rtt));
  }

  /**
   After a CONNECTED ticks do not matter at all, whatever came before: `before` may be any run, and only
   the calls since need the same order.
   */
  lemma TickInsensitiveSince(before: seq<Call>, calls: seq<Call>, others: seq<Call>, now: nat, rtt: Option<real>)
    requires By(calls, now) && By(others, now) && Untick(calls) == Untick(others)
    requires forall c :: c in calls || c in others ==> !c.Connected?
    ensures Finish(Run(NEW_TRACKER, before + calls), now, rtt) == Finish(Run(NEW_TRACKER, before + others), now, rtt)
  {
    var t := Run(NEW_TRACKER, before);
    RunSplit(NEW_TRACKER, before, calls);
    RunSplit(NEW_TRACKER, before, others);
    WellFormedRun(NEW_TRACKER, before);
    WellFormedRun(t, calls);
    WellFormedRun(t, others);
    hide Run;
    Together(t, calls, others, now);
    RollAbsorbed(Run(t, calls), now, Finished(now, rtt));
    RollAbsorbed(Run(t, others), now, Finished(now, rtt));
  }

  // ---------------------------------------------------------------- whose intervals a tier is judged by

  /** A tier shares its baseline with itself, and the two adapter-side tiers with each other. */
  predicate SharesBaseline(a: Tier, b: Tier) {
    a == b || (a in {StnPeriodic, DviPeriodic} && b in {StnPeriodic, DviPeriodic})
  }

  /** An interval with signals joins the baselines of the tiers that share one with its own, and no other. */
  lemma IntervalBaseline(t: Tracker, tier: Tier)
    requires t.current.Some?
    ensures
      var c, before := t.current.value, t.BaselineOf(tier);
      CloseInterval(t).BaselineOf(tier) ==
      if SharesBaseline(c.tier, tier) && c.intervalSignals > 0
      then Baseline(before.sum + c.intervalSignals, before.count + 1) else before
  {
  }

  /** However many intervals pass, a tier's baseline is its own. */
  lemma {:induction false} BaselinesApart(t: Tracker, at: nat, tier: Tier)
    requires t.current.Some? && !SharesBaseline(t.current.value.tier, tier)
    ensures Roll(t, at).BaselineOf(tier) == t.BaselineOf(tier)
    decreases at + INTERVAL_MS - t.current.value.intervalStartMs
  {
    if IntervalDue(t, at) {
      IntervalBaseline(t, tier);
      BaselinesApart(CloseInterval(t), at, tier);
    }
  }

  // ---------------------------------------------------------------- what a session's windows say

  ghost predicate GoodWindow(w: Window) {
    w.startMs <= w.endMs && w.batches == (w.endMs - w.startMs) / INTERVAL_MS
  }

  ghost predicate Contiguous(ws: seq<Window>) {
    forall i :: 0 < i < |ws| ==> ws[i].startMs == ws[i - 1].endMs
  }

  ghost predicate Covers(ws: seq<Window>, from: nat, to: nat) {
    && (forall w :: w in ws ==> GoodWindow(w))
    && Contiguous(ws)
    && (if ws == [] then from == to else ws[0].startMs == from && ws[|ws| - 1].endMs == to)
  }

  // Has `code` fired since the last window close?
  predicate FiredSinceClose(log: seq<HealthEvent>, code: Code) {
    log != [] &&
    var last := log[|log| - 1];
    !last.WindowClosed? && (last.anomaly.code == code || FiredSinceClose(log[..|log| - 1], code))
  }

  ghost predicate OncePerWindow(log: seq<HealthEvent>, code: Code) {
    forall i :: 0 <= i < |log| && log[i].Fired? && log[i].anomaly.code == code ==> !FiredSinceClose(log[..i], code)
  }

  function Delivered(calls: seq<Call>): nat {
    if calls == [] then 0
    else
      var last := calls[|calls| - 1];
      Delivered(calls[..|calls| - 1]) + if last.Signals? then last.n else 0
  }

  /**
   A session since it was opened, or since its last CONNECTED: `kept` are the windows and `log` the
   events from before. From there on windows follow each other up to the open one, and the two
   per-window anomalies have fired at most once a window, as the open window's marks say.
   */
  ghost predicate SegmentInvariant(t: Tracker, now: nat, kept: seq<Window>, log: seq<HealthEvent>) {
    && !t.finished && t.started.Some? && t.current.Some? && kept <= t.windows && log <= t.emitted
    && Covers(t.windows[|kept|..], t.started.value, t.current.value.startMs)
    && InStep(t.current.value, now) && Logged(t.emitted[|log|..], t.current.value.rateDegradedFired,
                                              t.current.value.tierSilentFired)
  }

  // The open window has completed exactly the intervals that fit in it.
  ghost predicate InStep(c: Current, now: nat) {
    c.intervalStartMs == c.startMs + INTERVAL_MS * c.batches && c.intervalStartMs <= now
  }

  ghost predicate Logged(log: seq<HealthEvent>, degraded: bool, silent: bool) {
    && OncePerWindow(log, RateDegraded) && OncePerWindow(log, TierSilent)
    && (FiredSinceClose(log, RateDegraded) <==> degraded) && (FiredSinceClose(log, TierSilent) <==> silent)
  }

  /** The signals delivered since then. */
  function Heard(t: Tracker, kept: seq<Window>): nat
    requires kept <= t.windows
  {
    SignalsOf(t.windows[|kept|..]) + if t.current.Some? then t.current.value.signals else 0
  }

  // Appending one event keeps `OncePerWindow` unless the code fires again too soon.
  lemma OnceMore(log: seq<HealthEvent>, e: HealthEvent, code: Code)
    requires OncePerWindow(log, code)
    requires e.Fired? && e.anomaly.code == code ==> !FiredSinceClose(log, code)
    ensures OncePerWindow(log + [e], code)
    ensures FiredSinceClose(log + [e], code) <==>
            !e.WindowClosed? && (e.anomaly.code == code || FiredSinceClose(log, code))
  {
    var log' := log + [e];
    assert log'[..|log'| - 1] == log;
    forall i | 0 <= i < |log'| && log'[i].Fired? && log'[i].anomaly.code == code
      ensures !FiredSinceClose(log'[..i], code)
    {
      assert log'[..i] == log[..i];
    }
  }

  lemma LogMore(log: seq<HealthEvent>, fire: bool, a: Anomaly, degraded: bool, silent: bool)
    requires Logged(log, degraded, silent)
    requires fire ==> (a.code == RateDegraded ==> !degraded) && (a.code == TierSilent ==> !silent)
    ensures
      Logged(log + (if fire then [Fired(a)] else []), degraded || (fire && a.code == RateDegraded),
             silent || (fire && a.code == TierSilent))
  {
    if fire {
      OnceMore(log, Fired(a), RateDegraded);
      OnceMore(log, Fired(a), TierSilent);
      hide OncePerWindow, FiredSinceClose;
    } else {
      assert log + [] == log;
    }
  }

  // What an interval adds to the log: each anomaly at most once per window, and then marked in the window.
  lemma IntervalLog(t: Tracker, log: seq<HealthEvent>)
    requires t.current.Some? && Logged(log, t.current.value.rateDegradedFired, t.current.value.tierSilentFired)
    ensures
      var c := t.current.value;
      Logged(log + Events(IntervalAnomalies(t)), c.rateDegradedFired || DegradedNow(c, t.BaselineOf(c.tier)),
             c.tierSilentFired || SilentNow(c, t.everWindowWithSignals))
  {
    var c := t.current.value;
    var at, degraded, silent := c.intervalStartMs + INTERVAL_MS, DegradedNow(c, t.BaselineOf(c.tier)),
      SilentNow(c, t.everWindowWithSignals);
    var first, second := Anomaly(RateDegraded, c.tier, at), Anomaly(TierSilent, c.tier, at);
    assert (degraded ==> !c.rateDegradedFired) && (silent ==> !c.tierSilentFired);
    var one, two := (if degraded then [Fired(first)] else []), if silent then [Fired(second)] else [];
    assert log + Events(IntervalAnomalies(t)) == log + one + two;
    hide *;
    LogMore(log, degraded, first, c.rateDegradedFired, c.tierSilentFired);
    LogMore(log + one, silent, second, c.rateDegradedFired || degraded, c.tierSilentFired);
  }

  lemma CloseIntervalInvariant(t: Tracker, now: nat, kept: seq<Window>, log: seq<HealthEvent>)
    requires SegmentInvariant(t, now, kept, log) && IntervalDue(t, now)
    ensures SegmentInvariant(CloseInterval(t), now, kept, log)
  {
    IntervalLog(t, t.emitted[|log|..]);
    hide Logged, Covers, DegradedNow, SilentNow, NextBelowStreak, NextZeroStreak, IntervalAnomalies, Events;
    assert CloseInterval(t).emitted[|log|..] == t.emitted[|log|..] + Events(IntervalAnomalies(t));
  }

  lemma {:induction false} RollInvariant(t: Tracker, now: nat, kept: seq<Window>, log: seq<HealthEvent>)
    requires SegmentInvariant(t, now, kept, log)
    ensures SegmentInvariant(Roll(t, now), now, kept, log) && !IntervalDue(Roll(t, now), now)
    decreases if t.current.Some? then now + INTERVAL_MS - t.current.value.intervalStartMs else 0
  {
    if IntervalDue(t, now) {
      CloseIntervalInvariant(t, now, kept, log);
      RollInvariant(CloseInterval(t), now, kept, log);
    }
  }

  lemma CoversMore(ws: seq<Window>, from: nat, to: nat, w: Window)
    requires Covers(ws, from, to) && GoodWindow(w) && w.startMs == to
    ensures Covers(ws + [w], from, w.endMs) && SignalsOf(ws + [w]) == SignalsOf(ws) + w.signals
  {
    hide GoodWindow;
    assert (ws + [w])[..|ws|] == ws;
  }

  lemma LogClosed(log: seq<HealthEvent>, w: Window, degraded: bool, silent: bool)
    requires Logged(log, degraded, silent)
    ensures Logged(log + [WindowClosed(w)], false, false)
  {
    OnceMore(log, WindowClosed(w), RateDegraded);
    OnceMore(log, WindowClosed(w), TierSilent);
    hide OncePerWindow, FiredSinceClose;
  }

  lemma StepsFit(c: Current, now: nat)
    requires InStep(c, now) && now < c.intervalStartMs + INTERVAL_MS
    ensures c.startMs <= now && c.batches == (now - c.startMs) / INTERVAL_MS
  {
  }

  lemma SegmentParts(t: Tracker, now: nat, kept: seq<Window>, log: seq<HealthEvent>)
    requires SegmentInvariant(t, now, kept, log)
    ensures !t.finished && t.started.Some? && t.current.Some? && kept <= t.windows && log <= t.emitted
    ensures Logged(t.emitted[|log|..], t.current.value.rateDegradedFired, t.current.value.tierSilentFired)
  {
    hide Logged, Covers, InStep;
  }

  // Closing at `now` after a roll leaves a window list that covers the time up to `now`.
  lemma CloseInvariant(t: Tracker, now: nat, rtt: Option<real>, kept: seq<Window>, log: seq<HealthEvent>)
    requires SegmentInvariant(t, now, kept, log) && !IntervalDue(t, now)
    ensures
      var r := CloseCurrent(t, now, rtt);
      && kept <= r.windows && Covers(r.windows[|kept|..], t.started.value, now) &&
         SignalsOf(r.windows[|kept|..]) == Heard(t, kept)
      && log <= r.emitted && Logged(r.emitted[|log|..], false, false)
  {
    var r, c := CloseCurrent(t, now, rtt), t.current.value;
    var w := Window(c.tier, c.startMs, now, c.signals, c.batches, rtt);
    SegmentCovers(t, now, kept, log);
    SegmentParts(t, now, kept, log);
    assert now < c.intervalStartMs + INTERVAL_MS;
    hide *;
    StepsFit(c, now);
    assert GoodWindow(w) by { FitsWindow(w, c, now); }
    ClosedParts(t, now, rtt);
    assert r.windows[|kept|..] == t.windows[|kept|..] + [w] &&
           r.emitted[|log|..] == t.emitted[|log|..] + [WindowClosed(w)];
    CoversMore(t.windows[|kept|..], t.started.value, c.startMs, w);
    LogClosed(t.emitted[|log|..], w, c.rateDegradedFired, c.tierSilentFired);
  }

  lemma SegmentCovers(t: Tracker, now: nat, kept: seq<Window>, log: seq<HealthEvent>)
    requires SegmentInvariant(t, now, kept, log)
    ensures t.started.Some? && t.current.Some? && kept <= t.windows && InStep(t.current.value, now)
    ensures Covers(t.windows[|kept|..], t.started.value, t.current.value.startMs)
    ensures Heard(t, kept) == SignalsOf(t.windows[|kept|..]) + t.current.value.signals
  {
    hide Logged, Covers, InStep, SignalsOf;
  }

  lemma FitsWindow(w: Window, c: Current, now: nat)
    requires w.startMs == c.startMs <= now == w.endMs && w.batches == c.batches == (now - c.startMs) / INTERVAL_MS
    ensures GoodWindow(w)
  {
  }

  lemma ClosedParts(t: Tracker, now: nat, rtt: Option<real>)
    requires t.current.Some?
    ensures
      var r, c := CloseCurrent(t, now, rtt), t.current.value;
      var w := Window(c.tier, c.startMs, now, c.signals, c.batches, rtt);
      r.windows == t.windows + [w] && r.emitted == t.emitted + [WindowClosed(w)] && r.started == t.started
  {
  }

  // The next window, opened as the last one closes.
  lemma ReopenInvariant(t: Tracker, now: nat, tier: Tier, rtt: Option<real>, kept: seq<Window>, log: seq<HealthEvent>)
    requires SegmentInvariant(t, now, kept, log) && !IntervalDue(t, now)
    ensures
      var r := CloseCurrent(t, now, rtt).(current := Some(Open(tier, now)));
      SegmentInvariant(r, now, kept, log) && Heard(r, kept) == Heard(t, kept)
  {
    CloseInvariant(t, now, rtt, kept, log);
    hide Logged, Covers, SignalsOf;
  }

  // A segment that differs only in what else it remembers, and in events the marks already tell of.
  lemma SameSegment(t: Tracker, r: Tracker, now: nat, kept: seq<Window>, log: seq<HealthEvent>)
    requires SegmentInvariant(t, now, kept, log)
    requires r.finished == t.finished && r.started == t.started && r.current == t.current && r.windows == t.windows &&
             log <= r.emitted
    requires t.current.Some? && Logged(r.emitted[|log|..], t.current.value.rateDegradedFired,
                                       t.current.value.tierSilentFired)
    ensures kept <= t.windows && SegmentInvariant(r, now, kept, log) && Heard(r, kept) == Heard(t, kept)
  {
    hide Logged, Covers, InStep, SignalsOf;
  }

  lemma SwitchInvariant(t: Tracker, now: nat, tier: Tier, kept: seq<Window>, log: seq<HealthEvent>)
    requires SegmentInvariant(t, now, kept, log)
    ensures
      var r := NoteSwitch(t, tier, now);
      kept <= t.windows && SegmentInvariant(r, now, kept, log) && Heard(r, kept) == Heard(t, kept)
  {
    hide SegmentInvariant, Logged, Recent, Heard;
    SegmentParts(t, now, kept, log);
    var c, own, churn := t.current.value, t.emitted[|log|..], Anomaly(LadderChurn, tier, now);
    LogMore(own, true, churn, c.rateDegradedFired, c.tierSilentFired);
    assert (t.emitted + [Fired(churn)])[|log|..] == own + [Fired(churn)];
    SameSegment(t, NoteSwitch(t, tier, now), now, kept, log);
  }

  lemma AddInvariant(t: Tracker, now: nat, n: nat, kept: seq<Window>, log: seq<HealthEvent>)
    requires SegmentInvariant(t, now, kept, log)
    ensures SegmentInvariant(AddSignals(t, n), now, kept, log) && Heard(AddSignals(t, n), kept) == Heard(t, kept) + n
  {
    hide Logged, Covers, SignalsOf;
  }

  lemma EditInvariant(t: Tracker, now: nat, kept: seq<Window>, log: seq<HealthEvent>)
    requires SegmentInvariant(t, now, kept, log)
    ensures
      var r := OnSubscriptionEdit(t);
      kept <= t.windows && SegmentInvariant(r, now, kept, log) && Heard(r, kept) == Heard(t, kept)
  {
    hide SegmentInvariant, Logged, Heard;
    SegmentParts(t, now, kept, log);
    SameSegment(t, OnSubscriptionEdit(t), now, kept, log);
  }

  lemma LaterInvariant(t: Tracker, before: nat, now: nat, kept: seq<Window>, log: seq<HealthEvent>)
    requires SegmentInvariant(t, before, kept, log) && before <= now
    ensures SegmentInvariant(t, now, kept, log) && !t.finished && t.started.Some? && t.current.Some? &&
            kept <= t.windows
  {
    hide Logged, Covers;
  }

  lemma RollHeard(t: Tracker, now: nat, kept: seq<Window>)
    requires kept <= t.windows
    ensures kept <= Roll(t, now).windows && Heard(Roll(t, now), kept) == Heard(t, kept)
  {
    RollKeeps(t, now);
    hide Roll, SignalsOf;
  }

  // Any call but a reset or a finish goes on with the session.
  lemma ApplyInvariant(t: Tracker, before: nat, c: Call, kept: seq<Window>, log: seq<HealthEvent>)
    requires SegmentInvariant(t, before, kept, log) && before <= c.now && !c.Connected? && !c.Finished?
    ensures SegmentInvariant(Apply(t, c), c.now, kept, log) && Apply(t, c).started == t.started
    ensures kept <= t.windows && kept <= Apply(t, c).windows
    ensures Heard(Apply(t, c), kept) == Heard(t, kept) + if c.Signals? then c.n else 0
  {
    LaterInvariant(t, before, c.now, kept, log);
    RollInvariant(t, c.now, kept, log);
    RollKeeps(t, c.now);
    RollHeard(t, c.now, kept);
    hide Roll, SegmentInvariant, Heard, IntervalDue, Recent;
    match c
    case Tiered(tier, now, rtt) =>
      if t.current.value.tier != tier {
        ReopenInvariant(Roll(t, now), now, tier, rtt, kept, log);
        SwitchInvariant(CloseCurrent(Roll(t, now), now, rtt).(current := Some(Open(tier, now))), now, tier, kept, log);
      }
    case Signals(n, now) => AddInvariant(Roll(t, now), now, n, kept, log);
    case Rolled(now, rtt) =>
      if WindowDueToRoll(t, now) { ReopenInvariant(Roll(t, now), now, t.current.value.tier, rtt, kept, log); }
    case Edited(_) => EditInvariant(t, c.now, kept, log);
    case Tick(_) =>
  }

  // Calls that neither reset nor finish.
  ghost predicate Steady(calls: seq<Call>) {
    forall i :: 0 <= i < |calls| ==> !calls[i].Connected? && !calls[i].Finished?
  }

  lemma {:induction false} SegmentRun(t: Tracker, at: nat, calls: seq<Call>, now: nat, kept: seq<Window>,
                                      log: seq<HealthEvent>)
    requires SegmentInvariant(t, at, kept, log) && Monotone(calls) && Steady(calls)
    requires at <= now && forall c :: c in calls ==> at <= c.now <= now
    ensures SegmentInvariant(Run(t, calls), now, kept, log) && Run(t, calls).started == t.started
    ensures kept <= t.windows && kept <= Run(t, calls).windows &&
            Heard(Run(t, calls), kept) == Heard(t, kept) + Delivered(calls)
  {
    hide SegmentInvariant, Apply, Heard;
    if calls == [] {
      LaterInvariant(t, at, now, kept, log);
    } else {
      var init, last := calls[..|calls| - 1], calls[|calls| - 1];
      SegmentRun(t, at, init, last.now, kept, log);
      ApplyInvariant(Run(t, init), last.now, last, kept, log);
      LaterInvariant(Run(t, calls), last.now, now, kept, log);
    }
  }

  lemma {:induction false} SilenceFires(t: Tracker, at: nat)
    requires t.current.Some? && t.current.value.tier.Engaged() && t.everWindowWithSignals
    requires
      var c := t.current.value;
      var k := IntervalsDue(c, at);
      || c.tierSilentFired
      || k >= 3
      || (c.intervalSignals == 0 && k >= 1 && k + c.zeroStreak >= 2)
    ensures Roll(t, at).current.Some? && Roll(t, at).current.value.tierSilentFired
    decreases if t.current.Some? then at + INTERVAL_MS - t.current.value.intervalStartMs else 0
  {
    if IntervalDue(t, at) {
      var c, next := t.current.value, CloseInterval(t);
      assert IntervalsDue(c, at) == IntervalsDue(next.current.value, at) + 1;
      SilenceFires(next, at);
    }
  }

  // ---------------------------------------------------------------- whole sessions

  /** What holds after any calls whatsoever. */
  ghost predicate RunInvariant(t: Tracker, now: nat) {
    && WellFormed(t) && (t.started.None? ==> t.windows == [] && t.current.None?)
    && (t.started.Some? && !t.finished ==> t.current.Some?)
    && (forall w :: w in t.windows ==> GoodWindow(w) && w.endMs <= now)
    && (t.current.Some? ==> InStep(t.current.value, now))
  }

  lemma LaterRun(t: Tracker, before: nat, now: nat)
    requires RunInvariant(t, before) && before <= now
    ensures RunInvariant(t, now)
  {
    hide GoodWindow;
  }

  lemma {:induction false} RollInStep(t: Tracker, now: nat)
    requires RunInvariant(t, now)
    ensures RunInvariant(Roll(t, now), now) && !IntervalDue(Roll(t, now), now)
    decreases if t.current.Some? then now + INTERVAL_MS - t.current.value.intervalStartMs else 0
  {
    if IntervalDue(t, now) {
      var next := CloseInterval(t);
      hide GoodWindow, DegradedNow, SilentNow, NextBelowStreak, NextZeroStreak, IntervalAnomalies, Events;
      assert RunInvariant(next, now);
      RollInStep(next, now);
    }
  }

  lemma CloseInStep(t: Tracker, now: nat, rtt: Option<real>)
    requires RunInvariant(t, now) && !IntervalDue(t, now)
    ensures
      var r := CloseCurrent(t, now, rtt);
      && r.current.None? && r.started == t.started && r.finished == t.finished
      && forall w :: w in r.windows ==> GoodWindow(w) && w.endMs <= now
  {
    if t.current.Some? {
      var c := t.current.value;
      StepsFit(c, now);
      assert GoodWindow(Window(c.tier, c.startMs, now, c.signals, c.batches, rtt));
      hide GoodWindow;
    }
  }

  lemma OpenedInStep(t: Tracker, now: nat, tier: Tier)
    requires RunInvariant(t, now) && !t.finished
    ensures RunInvariant(Started(t, now).(current := Some(Open(tier, now))), now)
  {
    hide GoodWindow;
  }

  lemma {:induction false} AnyRun(calls: seq<Call>, now: nat)
    requires By(calls, now)
    ensures RunInvariant(Run(NEW_TRACKER, calls), now)
  {
    if calls != [] {
      var init, last := calls[..|calls| - 1], calls[|calls| - 1];
      AnyRun(init, last.now);
      AnyStep(Run(NEW_TRACKER, init), last);
      hide RunInvariant, Apply;
      LaterRun(Run(NEW_TRACKER, calls), last.now, now);
    }
  }

  lemma AnyStep(t: Tracker, c: Call)
    requires RunInvariant(t, c.now)
    ensures RunInvariant(Apply(t, c), c.now)
  {
    var now, f := c.now, Fresh(t);
    assert RunInvariant(f, now) && !f.finished;
    RollInStep(t, now);
    RollKeeps(t, now);
    hide Roll, GoodWindow, InStep, IntervalDue, Recent;
    match c
    case Tiered(tier, _, rtt) =>
      if f.current.None? {
        OpenedInStep(f, now, tier);
      } else if f.current.value.tier != tier {
        CloseInStep(Roll(f, now), now, rtt);
        SwitchedInStep(CloseCurrent(Roll(f, now), now, rtt), now, tier);
      }
    case Signals(n, _) =>
      if !t.finished && t.current.None? {
        OpenedInStep(t, now, Poll);
        RollInStep(Started(t, now).(current := Some(Open(Poll, now))), now);
      }
    case Rolled(_, rtt) =>
      if WindowDueToRoll(t, now) {
        CloseInStep(Roll(t, now), now, rtt);
        OpenInStep(now, t.current.value.tier);
      }
    case Finished(_, rtt) => CloseInStep(Roll(t, now), now, rtt);
    case Connected(_) => OpenInStep(now, Poll);
    case _ =>
  }

  lemma OpenInStep(now: nat, tier: Tier)
    ensures InStep(Open(tier, now), now)
  {
  }

  lemma SwitchedInStep(t: Tracker, now: nat, tier: Tier)
    requires t.started.Some? && !t.finished && forall w :: w in t.windows ==> GoodWindow(w) && w.endMs <= now
    ensures RunInvariant(NoteSwitch(t.(current := Some(Open(tier, now))), tier, now), now)
  {
    hide GoodWindow, Recent;
  }

  /** CONNECTED, or the call that opens a window where none is open. */
  predicate Opens(t: Tracker, c: Call) {
    c.Connected? || (c.Tiered? && (t.finished || t.started.None?)) || (c.Signals? && !t.finished && t.started.None?)
  }

  lemma NothingYet(r: Tracker, now: nat)
    requires !r.finished && r.started == Some(now) && r.current.Some?
    requires
      var c := r.current.value;
      && c.startMs == now && c.intervalStartMs == now && c.batches == 0 && !c.rateDegradedFired && !c.tierSilentFired
    ensures SegmentInvariant(r, now, r.windows, r.emitted) && Heard(r, r.windows) == r.current.value.signals
  {
    assert r.windows[|r.windows|..] == [] && r.emitted[|r.emitted|..] == [];
    NothingSaid(now);
    hide Logged, Covers, SignalsOf;
  }

  lemma NothingSaid(now: nat)
    ensures Covers([], now, now) && Logged([], false, false) && SignalsOf([]) == 0
  {
  }

  lemma OpensSegment(t: Tracker, c: Call)
    requires RunInvariant(t, c.now) && Opens(t, c)
    ensures
      var r, kept := Apply(t, c), Fresh(t).windows;
      && SegmentInvariant(r, c.now, kept, t.emitted) && r.started == Some(c.now)
      && kept <= r.windows && Heard(r, kept) == if c.Signals? then c.n else 0
  {
    var r := Apply(t, c);
    hide GoodWindow, InStep, CloseInterval, NoteSwitch, CloseCurrent, Finish, RollIfDue;
    assert r.windows == Fresh(t).windows && r.emitted == t.emitted && !r.finished && r.started == Some(c.now);
    assert r.current.Some? && r.current.value.startMs == r.current.value.intervalStartMs == c.now;
    assert r.current.value.signals == if c.Signals? then c.n else 0;
    NothingYet(r, c.now);
    hide *;
  }

  // The last call that opened the session a run is in; what follows neither resets nor finishes.
  lemma {:induction false} LastOpening(calls: seq<Call>) returns (k: nat)
    requires InSession(calls)
    ensures LastOpens(calls, k)
  {
    hide Run, Opens, Apply;
    NothingRun(NEW_TRACKER);
    assert calls != [];
    RunLast(NEW_TRACKER, calls);
    var init, last := calls[..|calls| - 1], calls[|calls| - 1];
    if Opens(Run(NEW_TRACKER, init), last) {
      k := |init|;
    } else {
      StaysOpen(Run(NEW_TRACKER, init), last);
      k := LastOpening(init);
      assert init[..k] == calls[..k] && calls[k + 1..] == init[k + 1..] + [last];
    }
  }

  lemma StaysOpen(t: Tracker, c: Call)
    requires Apply(t, c).started.Some? && !Apply(t, c).finished && !Opens(t, c)
    ensures t.started.Some? && !t.finished && !c.Finished? && !c.Connected?
  {
    RollKeeps(t, c.now);
    hide Roll, Recent;
  }

  /** The calls end in a session that has started and is not finished. */
  ghost predicate InSession(calls: seq<Call>) {
    Run(NEW_TRACKER, calls).started.Some? && !Run(NEW_TRACKER, calls).finished
  }

  /** `calls[k]` opened that session, or is its last CONNECTED. */
  ghost predicate LastOpens(calls: seq<Call>, k: nat) {
    k < |calls| && Opens(Run(NEW_TRACKER, calls[..k]), calls[k]) && Steady(calls[k + 1..])
  }

  lemma ByParts(calls: seq<Call>, k: nat, now: nat)
    requires By(calls, now) && k < |calls|
    ensures By(calls[..k], calls[k].now) && Monotone(calls[k + 1..]) && calls[k].now <= now
    ensures forall c :: c in calls[k + 1..] ==> calls[k].now <= c.now <= now
  {
  }

  lemma RunThrough(calls: seq<Call>, k: nat)
    requires k < |calls|
    ensures Run(NEW_TRACKER, calls) == Run(Apply(Run(NEW_TRACKER, calls[..k]), calls[k]), calls[k + 1..])
    ensures Delivered(calls[k..]) == (if calls[k].Signals? then calls[k].n else 0) + Delivered(calls[k + 1..])
  {
    hide Apply;
    var init := calls[..k] + [calls[k]];
    assert calls == init + calls[k + 1..] && init[..|init| - 1] == calls[..k];
    RunSplit(NEW_TRACKER, init, calls[k + 1..]);
    DeliveredFirst(calls[k..]);
    assert calls[k..][1..] == calls[k + 1..];
  }

  lemma LastOpensParts(calls: seq<Call>, k: nat)
    requires LastOpens(calls, k)
    ensures k < |calls| && Opens(Run(NEW_TRACKER, calls[..k]), calls[k]) && Steady(calls[k + 1..])
  {
    hide Run, Opens, Steady;
  }

  // A run seen from the call that opened its session.
  lemma SessionRun(calls: seq<Call>, now: nat) returns (k: nat)
    requires By(calls, now) && InSession(calls)
    ensures k < |calls| && LastOpens(calls, k) && By(calls[..k], calls[k].now)
    ensures
      var t, before := Run(NEW_TRACKER, calls), Run(NEW_TRACKER, calls[..k]);
      var kept := Fresh(before).windows;
      && SegmentInvariant(t, now, kept, before.emitted) && t.started == Some(calls[k].now)
      && kept <= t.windows && Heard(t, kept) == Delivered(calls[k..])
  {
    hide *;
    k := LastOpening(calls);
    LastOpensParts(calls, k);
    ByParts(calls, k, now);
    var before, c := Run(NEW_TRACKER, calls[..k]), calls[k];
    AnyRun(calls[..k], c.now);
    OpensSegment(before, c);
    RunThrough(calls, k);
    SegmentRun(Apply(before, c), c.now, calls[k + 1..], now, Fresh(before).windows, before.emitted);
  }

  lemma {:induction false} DeliveredFirst(calls: seq<Call>)
    requires calls != []
    ensures Delivered(calls) == (if calls[0].Signals? then calls[0].n else 0) + Delivered(calls[1..])
  {
    if |calls| > 1 {
      DeliveredFirst(calls[..|calls| - 1]);
      assert calls[1..][..|calls| - 2] == calls[..|calls| - 1][1..];
    }
  }

  lemma {:induction false} SignalsAppend(a: seq<Window>, b: seq<Window>)
    ensures SignalsOf(a + b) == SignalsOf(a) + SignalsOf(b)
  {
    if b == [] {
      assert a + b == a;
    } else {
      SignalsAppend(a, b[..|b| - 1]);
      assert (a + b)[..|a + b| - 1] == a + b[..|b| - 1];
    }
  }

  /**
   What the summary of any session says, however often it was connected, finished and taken up again
   before. Let `calls[k]` be the call that opened the session or its last CONNECTED, and `kept` the
   windows the session had closed by then. The summary starts at that call; its windows are `kept`, and
   then windows that run from there to the end without a gap or an overlap, each with exactly the 5 s
   intervals that fit in it; its total is the signals of `kept` and all those delivered since.
   */
  lemma SessionAccounted(calls: seq<Call>, now: nat, rtt: Option<real>) returns (k: nat)
    requires By(calls, now) && InSession(calls)
    ensures k < |calls| && LastOpens(calls, k)
    ensures
      var t, kept := Finish(Run(NEW_TRACKER, calls), now, rtt), Fresh(Run(NEW_TRACKER, calls[..k])).windows;
      && t.started.Some?
      && var s := SummaryOf(t, now);
         && s.startedMs == calls[k].now && s.endedMs == now
         && kept <= s.windows && Covers(s.windows[|kept|..], s.startedMs, s.endedMs)
         && s.totalSignals == SignalsOf(kept) + Delivered(calls[k..])
  {
    hide *;
    k := SessionRun(calls, now);
    var t, before := Run(NEW_TRACKER, calls), Run(NEW_TRACKER, calls[..k]);
    var kept := Fresh(before).windows;
    FinishSegment(t, now, rtt, kept, before.emitted);
    var ws := Finish(t, now, rtt).windows;
    assert ws == kept + ws[|kept|..];
    SignalsAppend(kept, ws[|kept|..]);
    SummaryParts(Finish(t, now, rtt), now);
  }

  lemma SummaryParts(t: Tracker, now: nat)
    requires t.started.Some?
    ensures
      var s := SummaryOf(t, now);
      s.startedMs == t.started.value && s.endedMs == now && s.windows == t.windows &&
          s.totalSignals == SignalsOf(t.windows)
  {
  }

  lemma FinishSegment(t: Tracker, now: nat, rtt: Option<real>, kept: seq<Window>, log: seq<HealthEvent>)
    requires SegmentInvariant(t, now, kept, log)
    ensures
      var r := Finish(t, now, rtt);
      && kept <= t.windows && r.started == t.started && r.started.Some? && kept <= r.windows
      && Covers(r.windows[|kept|..], r.started.value, now) && SignalsOf(r.windows[|kept|..]) == Heard(t, kept)
      && log <= r.emitted && Logged(r.emitted[|log|..], false, false)
  {
    LaterInvariant(t, now, now, kept, log);
    RollInvariant(t, now, kept, log);
    RollKeeps(t, now);
    RollHeard(t, now, kept);
    CloseInvariant(Roll(t, now), now, rtt, kept, log);
    hide Roll, SegmentInvariant, Covers, Logged, SignalsOf;
  }

  // ---------------------------------------------------------------- what a CONNECTED leaves behind

  lemma {:induction false} StartsAfter(ws: seq<Window>, from: nat, to: nat, i: nat)
    requires Covers(ws, from, to) && i < |ws|
    ensures ws[i].startMs >= from
  {
    assert ws[i] in ws;
    if i > 0 {
      StartsAfter(ws, from, to, i - 1);
      assert GoodWindow(ws[i - 1]);
    }
  }

  // Windows closed before `at` reach over to windows from `at` on exactly if all of them are instants at `at`.
  lemma InstantsCover(kept: seq<Window>, ws: seq<Window>, at: nat, now: nat)
    requires Covers(ws, at, now) && forall w :: w in kept ==> GoodWindow(w) && w.endMs <= at
    ensures Covers(kept + ws, at, now) <==> forall w :: w in kept ==> w.startMs == at
  {
    var all := kept + ws;
    if Covers(all, at, now) {
      forall w | w in kept ensures w.startMs == at {
        var i :| 0 <= i < |kept| && kept[i] == w;
        assert all[i] == w;
        StartsAfter(all, at, now, i);
        assert GoodWindow(w);
      }
    }
    if forall w :: w in kept ==> w.startMs == at {
      assert forall i :: 0 <= i < |kept| ==> kept[i] in kept && GoodWindow(kept[i]);
      assert forall i :: 0 <= i < |ws| ==> all[|kept| + i] == ws[i];
      forall w | w in all ensures GoodWindow(w) {
      }
    }
  }

  /**
   Do the summary's windows cover the session it names? Exactly if every window the session had closed
   before its last CONNECTED is an instant at that moment; a session that had closed none is covered.
   */
  lemma CoverExact(calls: seq<Call>, now: nat, rtt: Option<real>) returns (k: nat)
    requires By(calls, now) && InSession(calls)
    ensures k < |calls| && LastOpens(calls, k)
    ensures
      var t, kept := Finish(Run(NEW_TRACKER, calls), now, rtt), Fresh(Run(NEW_TRACKER, calls[..k])).windows;
      && t.started.Some?
      && (Covers(t.windows, t.started.value, now) <==> forall w :: w in kept ==> w.startMs == calls[k].now)
  {
    hide *;
    k := SessionRun(calls, now);
    var t, before := Run(NEW_TRACKER, calls), Run(NEW_TRACKER, calls[..k]);
    var kept := Fresh(before).windows;
    FinishSegment(t, now, rtt, kept, before.emitted);
    KeptWindows(calls[..k], calls[k].now);
    var ws := Finish(t, now, rtt).windows;
    assert ws == kept + ws[|kept|..];
    InstantsCover(kept, ws[|kept|..], calls[k].now, now);
  }

  lemma KeptWindows(calls: seq<Call>, now: nat)
    requires By(calls, now)
    ensures forall w :: w in Fresh(Run(NEW_TRACKER, calls)).windows ==> GoodWindow(w) && w.endMs <= now
  {
    AnyRun(calls, now);
    hide Run, GoodWindow, InStep;
  }

  // Has `code` fired in `log` before any window was closed?
  ghost predicate FiresFirst(log: seq<HealthEvent>, code: Code) {
    exists i :: 0 <= i < |log| && log[i].Fired? && log[i].anomaly.code == code && NoClose(log[..i])
  }

  ghost predicate NoClose(log: seq<HealthEvent>) {
    forall i :: 0 <= i < |log| ==> !log[i].WindowClosed?
  }

  lemma {:induction false} FiredJoin(a: seq<HealthEvent>, b: seq<HealthEvent>, code: Code)
    ensures FiredSinceClose(a + b, code) <==> FiredSinceClose(b, code) || (NoClose(b) && FiredSinceClose(a, code))
  {
    if b == [] {
      assert a + b == a;
    } else {
      var k := |b| - 1;
      FiredJoin(a, b[..k], code);
      assert (a + b)[..|a + b| - 1] == a + b[..k];
      assert NoClose(b) <==> NoClose(b[..k]) && !b[k].WindowClosed?;
    }
  }

  lemma OnceJoin(a: seq<HealthEvent>, b: seq<HealthEvent>, code: Code)
    ensures OncePerWindow(a + b, code)
            <==> OncePerWindow(a, code) && OncePerWindow(b, code) && !(FiredSinceClose(a, code) && FiresFirst(b, code))
  {
    hide FiredSinceClose, NoClose;
    var log := a + b;
    forall i | 0 <= i < |a| ensures log[i] == a[i] && log[..i] == a[..i] {
    }
    forall i | 0 <= i < |b|
      ensures log[|a| + i] == b[i]
      ensures FiredSinceClose(log[..|a| + i], code)
              <==> FiredSinceClose(b[..i], code) || (NoClose(b[..i]) && FiredSinceClose(a, code))
    {
      assert log[..|a| + i] == a + b[..i];
      FiredJoin(a, b[..i], code);
    }
    if OncePerWindow(log, code) {
      forall i | 0 <= i < |b| && b[i].Fired? && b[i].anomaly.code == code
        ensures !FiredSinceClose(b[..i], code) && !(NoClose(b[..i]) && FiredSinceClose(a, code))
      {
        assert log[|a| + i] == b[i];
      }
    }
    if OncePerWindow(a, code) && OncePerWindow(b, code) && !(FiredSinceClose(a, code) && FiresFirst(b, code)) {
      forall i | 0 <= i < |log| && log[i].Fired? && log[i].anomaly.code == code
        ensures !FiredSinceClose(log[..i], code) {
        if i >= |a| { assert log[|a| + (i - |a|)] == b[i - |a|]; }
      }
    }
  }

  /**
   Rate-degraded and tier-silent fire at most once per window. Within a session, from the call that opened
   it or its last CONNECTED on, always. Over the whole log of events, exactly if that held before and the
   CONNECTED did not discard a window that had fired, for its successor to fire before it closes.
   */
  lemma OncePerWindowExact(calls: seq<Call>, now: nat, rtt: Option<real>, code: Code) returns (k: nat)
    requires By(calls, now) && InSession(calls) && code != LadderChurn
    ensures k < |calls| && LastOpens(calls, k)
    ensures
      var log, before := Finish(Run(NEW_TRACKER, calls), now, rtt).emitted, Run(NEW_TRACKER, calls[..k]).emitted;
      && before <= log && OncePerWindow(log[|before|..], code)
      && (OncePerWindow(log, code)
          <==> OncePerWindow(before, code) && !(FiredSinceClose(before, code) && FiresFirst(log[|before|..], code)))
  {
    k := SessionRun(calls, now);
    var t, before := Run(NEW_TRACKER, calls), Run(NEW_TRACKER, calls[..k]);
    FinishSegment(t, now, rtt, Fresh(before).windows, before.emitted);
    var log := Finish(t, now, rtt).emitted;
    LoggedOnce(log[|before.emitted|..], code);
    hide *;
    assert log == before.emitted + log[|before.emitted|..];
    OnceJoin(before.emitted, log[|before.emitted|..], code);
  }

  lemma LoggedOnce(log: seq<HealthEvent>, code: Code)
    requires Logged(log, false, false) && code != LadderChurn
    ensures OncePerWindow(log, code)
  {
    match code
    case RateDegraded =>
    case TierSilent =>
  }

  // ---------------------------------------------------------------- sessions a CONNECTED leaves its mark on

  lemma RunTwo(t: Tracker, c: Call, d: Call)
    ensures Run(t, [c]) == Apply(t, c) && Run(t, [c, d]) == Apply(Apply(t, c), d)
  {
    hide Apply;
    assert [c][..0] == [] && [c, d][..1] == [c];
  }

  // A window closed on the poll side before the adapter connects.
  const EARLY_WINDOW := [Signals(7, 0), Rolled(60_000, None), Connected(70_000)]

  lemma RolledWindow(t: Tracker, now: nat)
    requires WindowDueToRoll(t, now) && t.windows == []
    ensures
      var r := RollIfDue(t, now, None);
      !r.finished && |r.windows| == 1 && r.windows[0].startMs == t.current.value.startMs
  {
    RollKeeps(t, now);
    hide Roll;
  }

  lemma FirstSignals(n: nat, now: nat)
    requires now >= MAX_WINDOW_MS
    ensures
      var t := OnSignals(NEW_TRACKER, n, 0);
      t.current.Some? && t.current.value.startMs == 0 && t.windows == [] && WindowDueToRoll(t, now)
  {
  }

  lemma SignalsRolled(n: nat, now: nat)
    ensures Run(NEW_TRACKER, [Signals(n, 0), Rolled(now, None)]) == RollIfDue(OnSignals(NEW_TRACKER, n, 0), now, None)
  {
    RunTwo(NEW_TRACKER, Signals(n, 0), Rolled(now, None));
    hide Run, OnSignals, RollIfDue;
  }

  lemma EarlyWindowCalls()
    ensures EARLY_WINDOW[..2] == [Signals(7, 0), Rolled(60_000, None)] && MAX_WINDOW_MS == 60_000
  {
  }

  lemma EarlyWindowKept()
    ensures
      var t := Run(NEW_TRACKER, EARLY_WINDOW[..2]);
      !t.finished && t.windows != [] && t.windows[0].startMs == 0
  {
    hide *;
    EarlyWindowCalls();
    SignalsRolled(7, 60_000);
    FirstSignals(7, 60_000);
    RolledWindow(OnSignals(NEW_TRACKER, 7, 0), 60_000);
  }

  /** The summary of this session starts at CONNECTED, but its windows do not: there is one from before. */
  lemma EarlyWindowUncovered()
    ensures
      var t := Finish(Run(NEW_TRACKER, EARLY_WINDOW), 80_000, None);
      t.started == Some(70_000) && !Covers(t.windows, 70_000, 80_000)
  {
    EarlyWindowKept();
    EarlyWindowRun();
    var t := Run(NEW_TRACKER, EARLY_WINDOW[..2]);
    hide Run, Finish, Covers, Fresh;
    var k := CoverExact(EARLY_WINDOW, 80_000, None);
    LastOpensParts(EARLY_WINDOW, k);
    NoLaterConnected(EARLY_WINDOW, k);
    assert EARLY_WINDOW[2].Connected? && k == 2;
    FreshUnfinished(t);
    assert t.windows[0] in t.windows;
  }

  lemma FreshUnfinished(t: Tracker)
    requires !t.finished
    ensures Fresh(t) == t
  {
  }

  lemma EarlyWindowRun()
    ensures By(EARLY_WINDOW, 80_000) && InSession(EARLY_WINDOW)
    ensures Finish(Run(NEW_TRACKER, EARLY_WINDOW), 80_000, None).started == Some(70_000)
  {
    RunThrough(EARLY_WINDOW, 2);
    assert EARLY_WINDOW[3..] == [];
    NothingRun(Apply(Run(NEW_TRACKER, EARLY_WINDOW[..2]), Connected(70_000)));
    var t := Run(NEW_TRACKER, EARLY_WINDOW[..2]);
    assert Run(NEW_TRACKER, EARLY_WINDOW) == ResetForConnected(t, 70_000);
    hide Run;
    RollKeeps(ResetForConnected(t, 70_000), 80_000);
    hide Roll;
  }

  lemma NoLaterConnected(calls: seq<Call>, k: nat)
    requires k < |calls| && Steady(calls[k + 1..])
    ensures forall i :: k < i < |calls| ==> !calls[i].Connected?
  {
    forall i | k < i < |calls| ensures !calls[i].Connected? {
      assert calls[i] == calls[k + 1..][i - (k + 1)];
    }
  }

  // The window open at CONNECTED is dropped with what it counted.
  const EARLY_SIGNALS := [Signals(7, 0), Connected(1_000)]

  lemma NoIntervalYet(t: Tracker, now: nat)
    requires !IntervalDue(t, now)
    ensures Roll(t, now) == t
  {
  }

  lemma OneWindow(w: Window)
    ensures SignalsOf([w]) == w.signals
  {
    assert [w][..0] == [];
  }

  lemma EmptyWindow(t: Tracker)
    requires t.current == Some(Open(Poll, 1_000)) && t.windows == [] && !t.finished && t.started.Some?
    ensures
      var r := Finish(t, 2_000, None);
      r.started.Some? && SummaryOf(r, 2_000).totalSignals == 0
  {
    NoIntervalYet(t, 2_000);
    ClosedParts(t, 2_000, None);
    var w := Window(Poll, 1_000, 2_000, 0, 0, None);
    OneWindow(w);
    hide Roll, SignalsOf, CloseCurrent;
    assert [] + [w] == [w];
    assert Finish(t, 2_000, None).windows == [w];
  }

  /** Seven signals delivered in this session, none in its summary. */
  lemma EarlySignalsLost()
    ensures
      var t := Finish(Run(NEW_TRACKER, EARLY_SIGNALS), 2_000, None);
      t.started.Some? && SummaryOf(t, 2_000).totalSignals == 0
    ensures Delivered(EARLY_SIGNALS) == 7
  {
    var t := Apply(NEW_TRACKER, Signals(7, 0));
    assert t.windows == [] && !t.finished;
    RunTwo(NEW_TRACKER, Signals(7, 0), Connected(1_000));
    assert EARLY_SIGNALS[..1] == [Signals(7, 0)] && EARLY_SIGNALS[..1][..0] == [];
    hide Run, Roll, Finish, SummaryOf;
    EmptyWindow(Apply(t, Connected(1_000)));
  }

  /** A poll window of which only what an interval is judged by matters; nothing has been closed yet. */
  ghost predicate Polling(t: Tracker, at: nat, n: nat, below: nat, fired: bool, base: Baseline) {
    && !t.finished && t.started.Some? && t.current.Some? && t.BaselineOf(Poll) == base
    && (var c := t.current.value;
        c.tier == Poll && c.intervalStartMs == at && c.intervalSignals == n && c.belowStreak == below &&
            c.rateDegradedFired == fired)
  }

  lemma PollInterval(t: Tracker, now: nat, at: nat, n: nat, below: nat, fired: bool, base: Baseline)
    requires Polling(t, at, n, below, fired, base) && now >= at + INTERVAL_MS
    ensures Roll(t, now) == Roll(CloseInterval(t), now)
    ensures
      var streak := if base.count < 3 then below else if BelowHalf(n, base) then below + 1 else 0;
      var fires := base.count >= 3 && streak >= 2 && !fired;
      && Polling(CloseInterval(t), at + INTERVAL_MS, 0, streak, fired || fires,
                 if n > 0 then Baseline(base.sum + n, base.count + 1) else base)
      && CloseInterval(t).emitted == t.emitted + if fires then [Fired(Anomaly(RateDegraded, Poll, at + INTERVAL_MS))]
         else []
  {
    hide BelowHalf;
  }

  lemma PollRest(t: Tracker, now: nat, at: nat, n: nat, below: nat, fired: bool, base: Baseline)
    requires Polling(t, at, n, below, fired, base) && now < at + INTERVAL_MS
    ensures Roll(t, now) == t
  {
  }

  lemma PollSignals(t: Tracker, m: nat, at: nat, n: nat, below: nat, fired: bool, base: Baseline)
    requires Polling(t, at, n, below, fired, base)
    ensures Polling(AddSignals(t, m), at, n + m, below, fired, base) && AddSignals(t, m).emitted == t.emitted
  {
  }

  // One delivery of ten signals, five seconds after the one before.
  lemma PollDelivery(t: Tracker, at: nat, n: nat, base: Baseline)
    requires Polling(t, at, n, 0, false, base) && n > 0 && base.count < 3
    ensures
      var r := OnSignals(t, 10, at + INTERVAL_MS);
      Polling(r, at + INTERVAL_MS, 10, 0, false, Baseline(base.sum + n, base.count + 1)) && r.emitted == t.emitted
  {
    var now, r := at + INTERVAL_MS, CloseInterval(t);
    PollInterval(t, now, at, n, 0, false, base);
    PollRest(r, now, now, 0, 0, false, Baseline(base.sum + n, base.count + 1));
    PollSignals(r, 10, now, 0, 0, false, Baseline(base.sum + n, base.count + 1));
    hide Roll, CloseInterval, AddSignals, BelowHalf;
  }

  // Two silent intervals after three that were not.
  lemma PollSilence(t: Tracker, at: nat, base: Baseline)
    requires Polling(t, at, 0, 0, false, base) && base.count >= 3 && base.sum > 0
    ensures
      var r := Roll(t, at + 2 * INTERVAL_MS);
      && Polling(r, at + 2 * INTERVAL_MS, 0, 2, true, base)
      && r.emitted == t.emitted + [Fired(Anomaly(RateDegraded, Poll, at + 2 * INTERVAL_MS))]
  {
    var now, r := at + 2 * INTERVAL_MS, CloseInterval(t);
    PollInterval(t, now, at, 0, 0, false, base);
    PollInterval(r, now, at + INTERVAL_MS, 0, 1, false, base);
    PollRest(CloseInterval(r), now, now, 0, 2, true, base);
    hide Roll, CloseInterval;
  }

  // Three good intervals, silence until the rate is called degraded, CONNECTED, and silence again.
  const DEGRADED_TWICE :=
    [Signals(10, 0), Signals(10, 5_000), Signals(10, 10_000), Tick(15_000), Tick(25_000)] + [Connected(26_000)] +
        [Tick(36_000)]

  lemma DegradedOnce() returns (t: Tracker)
    ensures t == Run(NEW_TRACKER, DEGRADED_TWICE[..5])
    ensures Polling(t, 25_000, 0, 2, true, Baseline(30, 3)) && t.emitted == [Fired(Anomaly(RateDegraded, Poll, 25_000))]
  {
    hide Run, Apply, Roll, Polling, OnSignals, OnTick;
    assert DEGRADED_TWICE[..5] == [Signals(10, 0), Signals(10, 5_000), Signals(10, 10_000), Tick(15_000), Tick(25_000)];
    FirstDelivery();
    t := ThreeThenSilence(OnSignals(NEW_TRACKER, 10, 0));
    RunFive(NEW_TRACKER, 0, 5_000, 10_000, 15_000, 25_000);
  }

  lemma FirstDelivery()
    ensures Polling(OnSignals(NEW_TRACKER, 10, 0), 0, 10, 0, false, Baseline(0, 0)) &&
            OnSignals(NEW_TRACKER, 10, 0).emitted == []
  {
  }

  // Two more deliveries, and then nothing but ticks.
  lemma ThreeThenSilence(a: Tracker) returns (t: Tracker)
    requires Polling(a, 0, 10, 0, false, Baseline(0, 0)) && a.emitted == []
    ensures t == OnTick(OnTick(OnSignals(OnSignals(a, 10, 5_000), 10, 10_000), 15_000), 25_000)
    ensures Polling(t, 25_000, 0, 2, true, Baseline(30, 3)) && t.emitted == [Fired(Anomaly(RateDegraded, Poll, 25_000))]
  {
    hide Roll, Polling, AddSignals, OnSignals, OnTick;
    PollDelivery(a, 0, 10, Baseline(0, 0));
    var b := OnSignals(a, 10, 5_000);
    PollDelivery(b, 5_000, 10, Baseline(10, 1));
    var c := OnSignals(b, 10, 10_000);
    PollClosed(c, 10_000, Baseline(20, 2));
    var d := OnTick(c, 15_000);
    PollSilence(d, 15_000, Baseline(30, 3));
    PollLive(d, 15_000, 0, 0, false, Baseline(30, 3));
    TickRolls(d, 25_000);
    t := OnTick(d, 25_000);
  }

  lemma PollLive(t: Tracker, at: nat, n: nat, below: nat, fired: bool, base: Baseline)
    requires Polling(t, at, n, below, fired, base)
    ensures !t.finished && t.started.Some?
  {
  }

  // A tick that completes the third interval.
  lemma PollClosed(t: Tracker, at: nat, base: Baseline)
    requires Polling(t, at, 10, 0, false, base) && base.count < 3
    ensures
      var r := OnTick(t, at + INTERVAL_MS);
      Polling(r, at + INTERVAL_MS, 0, 0, false, Baseline(base.sum + 10, base.count + 1)) && r.emitted == t.emitted
  {
    PollInterval(t, at + INTERVAL_MS, at, 10, 0, false, base);
    PollRest(CloseInterval(t), at + INTERVAL_MS, at + INTERVAL_MS, 0, 0, false,
             Baseline(base.sum + 10, base.count + 1));
    hide Roll, CloseInterval, BelowHalf;
  }

  lemma RunFive(t: Tracker, a: nat, b: nat, c: nat, d: nat, e: nat)
    ensures Run(t, [Signals(10, a), Signals(10, b), Signals(10, c), Tick(d), Tick(e)])
         == OnTick(OnTick(OnSignals(OnSignals(OnSignals(t, 10, a), 10, b), 10, c), d), e)
  {
    hide OnSignals, OnTick;
    var calls := [Signals(10, a), Signals(10, b), Signals(10, c), Tick(d), Tick(e)];
    assert calls[..4][..3] == calls[..3] && calls[..3][..2] == calls[..2] && calls[..2][..1] == calls[..1] &&
           calls[..1][..0] == [];
    assert Run(t, calls[..1]) == OnSignals(t, 10, a);
    assert Run(t, calls[..2]) == OnSignals(Run(t, calls[..1]), 10, b);
    assert Run(t, calls[..3]) == OnSignals(Run(t, calls[..2]), 10, c);
    assert Run(t, calls[..4]) == OnTick(Run(t, calls[..3]), d);
  }

  // CONNECTED forgets that the window it discards has fired, not what its tier is measured against.
  lemma PollReset(t: Tracker, now: nat, at: nat, n: nat, below: nat, fired: bool, base: Baseline)
    requires Polling(t, at, n, below, fired, base)
    ensures Polling(ResetForConnected(t, now), now, 0, 0, false, base) && ResetForConnected(t, now).emitted == t.emitted
  {
  }

  /** Rate-degraded fires twice with no window closed in between. */
  lemma DegradedTwice()
    ensures !OncePerWindow(Run(NEW_TRACKER, DEGRADED_TWICE).emitted, RateDegraded)
  {
    var t := DegradedOnce();
    var base := Baseline(30, 3);
    var u := ResetForConnected(t, 26_000);
    PollReset(t, 26_000, 25_000, 0, 2, true, base);
    PollSilence(u, 26_000, base);
    PollLive(u, 26_000, 0, 0, false, base);
    var r := Roll(u, 36_000);
    RunThrough(DEGRADED_TWICE, 5);
    assert DEGRADED_TWICE[6..] == [Tick(36_000)];
    RunTwo(u, Tick(36_000), Tick(36_000));
    assert Run(NEW_TRACKER, DEGRADED_TWICE) == r;
    hide Run, Roll, Polling, ResetForConnected;
    assert r.emitted[1].Fired? && r.emitted[1].anomaly.code == RateDegraded;
    assert r.emitted[..1] == t.emitted && t.emitted[..0] == [];
  }

  lemma SilentSaid(log: seq<HealthEvent>, degraded: bool)
    requires Logged(log, degraded, true)
    ensures FiredSinceClose(log, TierSilent)
  {
  }

  lemma TickRolls(t: Tracker, at: nat)
    requires !t.finished
    ensures OnTick(t, at) == Roll(t, at)
  {
  }

  /** A dead stream is reported: three intervals without a delivery on an engaged tier are always enough. */
  lemma SilenceReported(calls: seq<Call>, before: nat, at: nat)
    requires By(calls, before) && before <= at
    requires
      var t := Run(NEW_TRACKER, calls);
      && !t.finished && t.current.Some? && t.current.value.tier.Engaged() && t.everWindowWithSignals
      && at >= t.current.value.intervalStartMs + 3 * INTERVAL_MS
    ensures FiredSinceClose(OnTick(Run(NEW_TRACKER, calls), at).emitted, TierSilent)
  {
    var t := Run(NEW_TRACKER, calls);
    SilenceFires(t, at);
    AnyRun(calls, before);
    assert InSession(calls);
    hide *;
    var k := SessionRun(calls, before);
    SilenceLogged(t, before, at, Fresh(Run(NEW_TRACKER, calls[..k])).windows, Run(NEW_TRACKER, calls[..k]).emitted);
  }

  lemma SilenceLogged(t: Tracker, before: nat, at: nat, kept: seq<Window>, log: seq<HealthEvent>)
    requires SegmentInvariant(t, before, kept, log) && before <= at
    requires Roll(t, at).current.Some? && Roll(t, at).current.value.tierSilentFired
    ensures FiredSinceClose(OnTick(t, at).emitted, TierSilent)
  {
    var r := Roll(t, at);
    hide *;
    LaterInvariant(t, before, at, kept, log);
    RollInvariant(t, at, kept, log);
    SegmentParts(r, at, kept, log);
    assert r.emitted == log + r.emitted[|log|..];
    SilentSaid(r.emitted[|log|..], r.current.value.rateDegradedFired);
    FiredJoin(log, r.emitted[|log|..], TierSilent);
    TickRolls(t, at);
  }

  // ---------------------------------------------------------------- the object

  class HealthTracker {
    var started: Option<nat>
    var finished: bool
    var current: Option<Current>
    var windows: seq<Window>
    var anomalies: seq<Anomaly>
    var baselines: map<nat, Baseline>
    var everWindowWithSignals: bool
    var switchTimes: seq<nat>
    ghost var emitted: seq<HealthEvent>

    ghost function Model(): Tracker
      reads this
    {
      Tracker(started, finished, current, windows, anomalies, baselines, everWindowWithSignals, switchTimes, emitted)
    }

    constructor ()
      ensures Model() == NEW_TRACKER
    {
      started, finished, current, windows, anomalies := None, false, None, [], [];
      baselines, everWindowWithSignals, switchTimes, emitted := map[], false, [], [];
    }

    method RecordAnomaly(a: Anomaly) returns (event: HealthEvent)
      modifies this
      ensures Model() == Record(old(Model()), a) && event == Fired(a)
    {
      anomalies := anomalies + [a];
      event := Fired(a);
      emitted := emitted + [event];
    }

    // One completed interval: judge it, then let it join its tier's baseline.
    method CompleteInterval() returns (events: seq<HealthEvent>)
      requires current.Some?
      modifies this
      ensures Model() == CloseInterval(old(Model()))
      ensures emitted == old(emitted) + events
    {
      var n, ti := current.value.intervalSignals, current.value.tier.Index();
      var base := if ti in baselines then baselines[ti] else Baseline(0, 0);
      var cur, fired := JudgeInterval(current.value, base, everWindowWithSignals);
      hide DegradedNow, SilentNow, NextBelowStreak, NextZeroStreak, Events;
      if n > 0 {
        baselines := baselines[ti := Baseline(base.sum + n, base.count + 1)];
      }
      current := Some(cur);
      anomalies := anomalies + fired;
      events := Events(fired);
      emitted := emitted + events;
    }

    // Streaks and latches after an interval of the window `was`, and the anomalies it fires.
    static method JudgeInterval(was: Current, base: Baseline, ever: bool) returns (cur: Current, fired: seq<Anomaly>)
      ensures cur == was.(intervalSignals := 0, intervalStartMs := was.intervalStartMs + INTERVAL_MS,
                          batches := was.batches + 1,
                          zeroStreak := NextZeroStreak(was), belowStreak := NextBelowStreak(was, base),
                          rateDegradedFired := was.rateDegradedFired || DegradedNow(was, base),
                          tierSilentFired := was.tierSilentFired || SilentNow(was, ever))
      ensures fired ==
              (if DegradedNow(was, base) then [Anomaly(RateDegraded, was.tier, was.intervalStartMs + INTERVAL_MS)]
               else []) +
              (if SilentNow(was, ever) then [Anomaly(TierSilent, was.tier, was.intervalStartMs + INTERVAL_MS)] else [])
    {
      fired := [];
      var n, at := was.intervalSignals, was.intervalStartMs + INTERVAL_MS;
      cur := was.(intervalSignals := 0, intervalStartMs := at, batches := was.batches + 1,
                  zeroStreak := if n == 0 then was.zeroStreak + 1 else 0);
      if base.count >= 3 {
        cur := cur.(belowStreak := if 2 * n * base.count < base.sum then cur.belowStreak + 1 else 0);
        if cur.belowStreak >= 2 && !cur.rateDegradedFired {
          cur := cur.(rateDegradedFired := true);
          fired := [Anomaly(RateDegraded, cur.tier, at)];
        }
      }
      if cur.tier.Engaged() && cur.zeroStreak >= 2 && ever && !cur.tierSilentFired {
        cur := cur.(tierSilentFired := true);
        fired := fired + [Anomaly(TierSilent, cur.tier, at)];
      }
    }

    // Complete every 5 s interval `now` has passed.
    method RollIntervals(now: nat) returns (events: seq<HealthEvent>)
      modifies this
      ensures Model() == Roll(old(Model()), now)
      ensures emitted == old(emitted) + events
    {
      events := [];
      while current.Some? && now >= current.value.intervalStartMs + INTERVAL_MS
        invariant Roll(Model(), now) == Roll(old(Model()), now)
        invariant emitted == old(emitted) + events
        decreases if current.Some? then now + INTERVAL_MS - current.value.intervalStartMs else 0
      {
        var fired := CompleteInterval();
        events := events + fired;
      }
    }

    method CloseCurrentWindow(now: nat, rtt: Option<real>) returns (events: seq<HealthEvent>)
      modifies this
      ensures Model() == CloseCurrent(old(Model()), now, rtt)
      ensures emitted == old(emitted) + events
    {
      events := [];
      if current.Some? {
        var cur := current.value;
        var w := Window(cur.tier, cur.startMs, now, cur.signals, cur.batches, rtt);
        everWindowWithSignals := everWindowWithSignals || w.signals > 0;
        windows := windows + [w];
        current := None;
        events := [WindowClosed(w)];
        emitted := emitted + events;
      }
    }

    method Restart()
      modifies this
      ensures Model() == Fresh(old(Model()))
    {
      if finished {
        started, finished, current, windows, anomalies := None, false, None, [], [];
        baselines, everWindowWithSignals, switchTimes := map[], false, [];
      }
    }

    method EnterTier(tier: Tier, now: nat, rtt: Option<real>) returns (events: seq<HealthEvent>)
      modifies this
      ensures Model() == OnTier(old(Model()), tier, now, rtt)
      ensures emitted == old(emitted) + events
    {
      hide Roll, CloseCurrent, NoteSwitch;
      Restart();
      if started.None? { started := Some(now); }
      assert Model() == Started(Fresh(old(Model())), now);
      if current.None? {
        current := Some(Open(tier, now));
        events := [];
      } else if current.value.tier == tier {
        events := RollIntervals(now);
      } else {
        events := SwitchWindow(tier, now, rtt);
        var churn := NoteTierSwitch(tier, now);
        events := events + churn;
      }
    }

    // Close the open window at `now` and open the next one.
    method SwitchWindow(tier: Tier, now: nat, rtt: Option<real>) returns (events: seq<HealthEvent>)
      modifies this
      ensures Model() == CloseCurrent(Roll(old(Model()), now), now, rtt).(current := Some(Open(tier, now)))
      ensures emitted == old(emitted) + events
    {
      events := RollIntervals(now);
      var closed := CloseCurrentWindow(now, rtt);
      events := events + closed;
      current := Some(Open(tier, now));
    }

    method NoteTierSwitch(tier: Tier, now: nat) returns (events: seq<HealthEvent>)
      modifies this
      ensures Model() == NoteSwitch(old(Model()), tier, now)
      ensures emitted == old(emitted) + events
    {
      events := [];
      var times := RecentSwitches(now);
      switchTimes := times + [now];
      if |switchTimes| >= CHURN_SWITCHES {
        switchTimes := [];
        var event := RecordAnomaly(Anomaly(LadderChurn, tier, now));
        events := [event];
      }
    }

    // The switches still inside the ten-minute span.
    method RecentSwitches(now: nat) returns (kept: seq<nat>)
      ensures kept == Recent(switchTimes, now)
    {
      kept := [];
      var i := |switchTimes|;
      while i > 0
        invariant 0 <= i <= |switchTimes|
        invariant kept == Recent(switchTimes[i..], now)
      {
        i := i - 1;
        assert switchTimes[i..][1..] == switchTimes[i + 1..];
        if now <= switchTimes[i] + CHURN_WINDOW_MS {
          kept := [switchTimes[i]] + kept;
        }
      }
    }

    method StartConnected(now: nat)
      modifies this
      ensures Model() == ResetForConnected(old(Model()), now)
    {
      Restart();
      started := Some(now);
      current := Some(Open(Poll, now));
    }

    method DeliverSignals(n: nat, now: nat) returns (events: seq<HealthEvent>)
      modifies this
      ensures Model() == OnSignals(old(Model()), n, now)
      ensures emitted == old(emitted) + events
    {
      if finished {
        return [];
      }
      if current.None? {
        if started.None? { started := Some(now); }
        current := Some(Open(Poll, now));
      }
      ghost var live := Model();
      events := RollIntervals(now);
      RollKeeps(live, now);
      var cur := current.value;
      current := Some(cur.(signals := cur.signals + n, intervalSignals := cur.intervalSignals + n));
    }

    method AdvanceClock(now: nat) returns (events: seq<HealthEvent>)
      modifies this
      ensures Model() == OnTick(old(Model()), now)
      ensures emitted == old(emitted) + events
    {
      if finished {
        return [];
      }
      events := RollIntervals(now);
    }

    method RollWindow(now: nat, rtt: Option<real>) returns (events: seq<HealthEvent>)
      modifies this
      ensures Model() == RollIfDue(old(Model()), now, rtt)
      ensures emitted == old(emitted) + events
    {
      if finished || current.None? || now < current.value.startMs + MAX_WINDOW_MS {
        return [];
      }
      var tier := current.value.tier;
      events := SwitchWindow(tier, now, rtt);
    }

    method SubscriptionEdit()
      modifies this
      ensures Model() == OnSubscriptionEdit(old(Model()))
    {
      switchTimes := [];
    }

    method FinishSession(now: nat, rtt: Option<real>) returns (result: Option<(seq<HealthEvent>, Summary)>)
      modifies this
      ensures Model() == Finish(old(Model()), now, rtt)
      ensures result.None? <==> old(finished) || old(started).None?
      ensures result.Some? ==>
                && emitted == old(emitted) + result.value.0
                && started == old(started)
                && result.value.1 == SummaryOf(Model(), now)
    {
      if finished || started.None? {
        return None;
      }
      var events := RollIntervals(now);
      RollKeeps(old(Model()), now);
      var closed := CloseCurrentWindow(now, rtt);
      finished := true;
      var total, i := 0, 0;
      while i < |windows|
        invariant 0 <= i <= |windows| && total == SignalsOf(windows[..i])
        invariant Model() == Finish(old(Model()), now, rtt) && emitted == old(emitted) + events + closed
      {
        assert windows[..i + 1][..i] == windows[..i];
        total := total + windows[i].signals;
        i := i + 1;
      }
      assert windows[..i] == windows;
      result := Some((events + closed, Summary(started.value, now, windows, anomalies, total)));
    }
  }
}
