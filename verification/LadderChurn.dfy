/** When the ladder is said to churn: over any calls, at exactly the fourth tier switch within ten minutes. */
module LadderChurning {
  import opened Wrappers
  import opened SessionHealth

  // ---------------------------------------------------------------- switches, and what is logged about them

  /** The call moves an open session to another tier. */
  predicate Switches(t: Tracker, c: Call) {
    c.Tiered? && !t.finished && t.current.Some? && t.current.value.tier != c.tier
  }

  function ChurnCount(log: seq<HealthEvent>): nat {
    if log == [] then 0
    else
      var e := log[|log| - 1];
      ChurnCount(log[..|log| - 1]) + if e.Fired? && e.anomaly.code == LadderChurn then 1 else 0
  }

  /** The call logs a churn. */
  predicate Churns(t: Tracker, c: Call) {
    ChurnCount(Apply(t, c).emitted) > ChurnCount(t.emitted)
  }

  // The count starts again with an edit of the subscriptions, and with a session after a finished one.
  predicate Clears(t: Tracker, c: Call) {
    c.Edited? || (t.finished && (c.Tiered? || c.Connected?))
  }

  /** The switches since churn was last logged, the subscriptions last edited, or the session taken up again. */
  function Since(calls: seq<Call>): seq<nat> {
    if calls == [] then []
    else
      var k := |calls| - 1;
      var t, c := Run(NEW_TRACKER, calls[..k]), calls[k];
      if Clears(t, c) || Churns(t, c) then []
      else if Switches(t, c) then Since(calls[..k]) + [c.now]
      else Since(calls[..k])
  }

  // ---------------------------------------------------------------- what the tracker keeps of them

  lemma {:induction false} RecentAppend(x: seq<nat>, y: seq<nat>, now: nat)
    ensures Recent(x + y, now) == Recent(x, now) + Recent(y, now)
  {
    if x == [] {
      assert x + y == y;
    } else {
      assert (x + y)[1..] == x[1..] + y;
      RecentAppend(x[1..], y, now);
    }
  }

  lemma {:induction false} RecentTwice(x: seq<nat>, now: nat, later: nat)
    requires now <= later
    ensures Recent(Recent(x, now), later) == Recent(x, later)
  {
    if x != [] {
      RecentTwice(x[1..], now, later);
      if now <= x[0] + CHURN_WINDOW_MS {
        assert ([x[0]] + Recent(x[1..], now))[1..] == Recent(x[1..], now);
      }
    }
  }

  predicate Rising(times: seq<nat>) {
    forall i, j :: 0 <= i < j < |times| ==> times[i] <= times[j]
  }

  // Of rising times the recent ones are the last.
  lemma {:induction false} RecentLast(times: seq<nat>, now: nat, n: nat)
    requires Rising(times) && n >= 1
    ensures |Recent(times, now)| >= n <==> |times| >= n && now <= times[|times| - n] + CHURN_WINDOW_MS
  {
    RecentBound(times, now);
    if times != [] {
      RecentLast(times[1..], now, n);
      if now <= times[0] + CHURN_WINDOW_MS { AllRecent(times, now); }
      RecentBound(times[1..], now);
    }
  }

  lemma {:induction false} RecentBound(times: seq<nat>, now: nat)
    ensures |Recent(times, now)| <= |times|
  {
    if times != [] { RecentBound(times[1..], now); }
  }

  lemma {:induction false} AllRecent(times: seq<nat>, now: nat)
    requires Rising(times) && (times != [] ==> now <= times[0] + CHURN_WINDOW_MS)
    ensures Recent(times, now) == times
  {
    if times != [] { AllRecent(times[1..], now); }
  }

  // ---------------------------------------------------------------- the log

  lemma ChurnNext(log: seq<HealthEvent>, e: HealthEvent)
    ensures ChurnCount(log + [e]) == ChurnCount(log) + if e.Fired? && e.anomaly.code == LadderChurn then 1 else 0
  {
    assert (log + [e])[..|log|] == log;
  }

  lemma IntervalChurn(t: Tracker)
    requires t.current.Some?
    ensures ChurnCount(CloseInterval(t).emitted) == ChurnCount(t.emitted)
  {
    var c := t.current.value;
    var at := c.intervalStartMs + INTERVAL_MS;
    var fires, silent := DegradedNow(c, t.BaselineOf(c.tier)), SilentNow(c, t.everWindowWithSignals);
    var first := if fires then [Fired(Anomaly(RateDegraded, c.tier, at))] else [];
    var second := if silent then [Fired(Anomaly(TierSilent, c.tier, at))] else [];
    assert CloseInterval(t).emitted == (t.emitted + first) + second;
    hide CloseInterval, DegradedNow, SilentNow, ChurnCount;
    if fires { ChurnNext(t.emitted, first[0]); } else { assert t.emitted + first == t.emitted; }
    if silent {
      ChurnNext(t.emitted + first, second[0]);
    } else {
      assert (t.emitted + first) + [] == t.emitted + first;
    }
  }

  lemma {:induction false} RollChurn(t: Tracker, now: nat)
    ensures ChurnCount(Roll(t, now).emitted) == ChurnCount(t.emitted)
    decreases if t.current.Some? then now + INTERVAL_MS - t.current.value.intervalStartMs else 0
  {
    hide ChurnCount;
    if IntervalDue(t, now) {
      IntervalChurn(t);
      RollChurn(CloseInterval(t), now);
    }
  }

  lemma CloseChurn(t: Tracker, now: nat, rtt: Option<real>)
    ensures ChurnCount(CloseCurrent(Roll(t, now), now, rtt).emitted) == ChurnCount(t.emitted)
  {
    RollChurn(t, now);
    var r := Roll(t, now);
    hide Roll, ChurnCount;
    if r.current.Some? {
      var c := r.current.value;
      ChurnNext(r.emitted, WindowClosed(Window(c.tier, c.startMs, now, c.signals, c.batches, rtt)));
    }
  }

  // ---------------------------------------------------------------- one call

  // Whatever is no switch logs no churn, and keeps or clears the times.
  lemma OtherCall(t: Tracker, c: Call)
    requires !Switches(t, c)
    ensures !Churns(t, c) && Apply(t, c).switchTimes == if Clears(t, c) then [] else t.switchTimes
  {
    hide Roll, ChurnCount, CloseCurrent;
    match c
    case Tiered(tier, now, _) =>
      var u := Started(Fresh(t), now);
      RollChurn(u, now);
      RollTimes(u, now);
    case Signals(_, now) =>
      var u := if t.current.None? then Started(t, now).(current := Some(Open(Poll, now))) else t;
      RollChurn(u, now);
      RollTimes(u, now);
    case Tick(now) =>
      RollChurn(t, now);
      RollTimes(t, now);
    case Rolled(now, rtt) => ClosedTimes(t, now, rtt);
    case Finished(now, rtt) => ClosedTimes(t, now, rtt);
    case _ =>
  }

  lemma {:induction false} RollTimes(t: Tracker, now: nat)
    ensures Roll(t, now).switchTimes == t.switchTimes
    decreases if t.current.Some? then now + INTERVAL_MS - t.current.value.intervalStartMs else 0
  {
    if IntervalDue(t, now) { RollTimes(CloseInterval(t), now); }
  }

  lemma ClosedTimes(t: Tracker, now: nat, rtt: Option<real>)
    ensures CloseCurrent(Roll(t, now), now, rtt).switchTimes == t.switchTimes
    ensures ChurnCount(CloseCurrent(Roll(t, now), now, rtt).emitted) == ChurnCount(t.emitted)
  {
    CloseChurn(t, now, rtt);
    RollTimes(t, now);
    hide Roll, ChurnCount;
  }

  // A switch is noted, or logs the churn and forgets the noted ones.
  lemma SwitchCall(t: Tracker, c: Call)
    requires Switches(t, c) && WellFormed(t)
    ensures Churns(t, c) <==> |Recent(t.switchTimes, c.now)| >= 3
    ensures Apply(t, c).switchTimes == if Churns(t, c) then [] else Recent(t.switchTimes, c.now) + [c.now]
  {
    var closed := CloseCurrent(Roll(t, c.now), c.now, c.rtt);
    ClosedTimes(t, c.now, c.rtt);
    assert Started(Fresh(t), c.now) == t;
    hide Roll, ChurnCount, CloseCurrent, Recent;
    ChurnNext(closed.emitted, Fired(Anomaly(LadderChurn, c.tier, c.now)));
  }

  // ---------------------------------------------------------------- every run

  // What the tracker keeps tells the same recent switches, now and later.
  ghost predicate Kept(times: seq<nat>, since: seq<nat>, now: nat) {
    && Rising(since) && (forall i :: 0 <= i < |since| ==> since[i] <= now)
    && forall later: nat :: now <= later ==> Recent(times, later) == Recent(since, later)
  }

  lemma KeptLater(times: seq<nat>, since: seq<nat>, now: nat, later: nat)
    requires Kept(times, since, now) && now <= later
    ensures Kept(times, since, later)
  {
    hide Recent;
  }

  lemma KeptMore(times: seq<nat>, since: seq<nat>, now: nat)
    requires Kept(times, since, now)
    ensures Kept(Recent(times, now) + [now], since + [now], now)
  {
    forall later: nat | now <= later ensures Recent(Recent(times, now) + [now], later) == Recent(since + [now], later) {
      RecentAppend(Recent(times, now), [now], later);
      RecentTwice(times, now, later);
      RecentAppend(since, [now], later);
    }
    hide Recent;
  }

  lemma NoneKept(now: nat)
    ensures Kept([], [], now)
  {
  }

  lemma ByPrefix(calls: seq<Call>, now: nat)
    requires By(calls, now) && calls != []
    ensures By(calls[..|calls| - 1], calls[|calls| - 1].now) && calls[|calls| - 1].now <= now
  {
  }

  lemma {:induction false} RunKept(calls: seq<Call>, now: nat)
    requires By(calls, now)
    ensures Kept(Run(NEW_TRACKER, calls).switchTimes, Since(calls), now)
  {
    hide Kept, Apply, Clears, Churns, Switches, By;
    if calls == [] {
      NoneKept(now);
    } else {
      var k := |calls| - 1;
      var t, c := Run(NEW_TRACKER, calls[..k]), calls[k];
      ByPrefix(calls, now);
      RunKept(calls[..k], c.now);
      WellFormedRun(NEW_TRACKER, calls[..k]);
      StepKept(t, c, Since(calls[..k]));
      KeptLater(Apply(t, c).switchTimes, Since(calls), c.now, now);
    }
  }

  lemma StepKept(t: Tracker, c: Call, since: seq<nat>)
    requires WellFormed(t) && Kept(t.switchTimes, since, c.now)
    ensures Kept(Apply(t, c).switchTimes,
                 if Clears(t, c) || Churns(t, c) then [] else if Switches(t, c) then since + [c.now] else since, c.now)
  {
    NoneKept(c.now);
    if Switches(t, c) {
      SwitchCall(t, c);
      KeptMore(t.switchTimes, since, c.now);
      assert !Clears(t, c);
    } else {
      OtherCall(t, c);
    }
    hide Kept, Apply, Clears, Churns, Switches;
  }

  lemma NewWellFormed()
    ensures WellFormed(NEW_TRACKER)
  {
  }

  lemma KeptVerdict(t: Tracker, c: Call, since: seq<nat>)
    requires WellFormed(t) && Kept(t.switchTimes, since, c.now)
    ensures Churns(t, c) <==> Switches(t, c) && |since| >= 3 && c.now <= since[|since| - 3] + 600_000
  {
    assert Rising(since) && Recent(t.switchTimes, c.now) == Recent(since, c.now);
    hide *;
    if Switches(t, c) {
      SwitchCall(t, c);
      RecentLast(since, c.now, 3);
    } else {
      OtherCall(t, c);
    }
  }

  /**
   Ladder churn, exactly. After any calls in time order a call logs it if and only if it moves the session to
   another tier and the third such move before it, since churn was last logged, the subscriptions were last
   edited or a session began, is at most ten minutes old.
   */
  lemma ChurnExact(calls: seq<Call>, c: Call)
    requires By(calls, c.now)
    ensures
      var t, since := Run(NEW_TRACKER, calls), Since(calls);
      Churns(t, c) <==> Switches(t, c) && |since| >= 3 && c.now <= since[|since| - 3] + 600_000
  {
    hide *;
    NewWellFormed();
    WellFormedRun(NEW_TRACKER, calls);
    RunKept(calls, c.now);
    KeptVerdict(Run(NEW_TRACKER, calls), c, Since(calls));
  }
}
