/**
 Fairness of the subscription manager: its serial runs (pick, complete, pick) over continuous pids of
 active subscriptions are serial schedules of the tier clock, and one exchange of everything due is a sweep.
 */
module ManagerFairness {
  import opened Wrappers
  import opened PidRegistry
  import opened Subscriptions
  import opened SchedulerRuns
  import opened FairShare

  ghost function HeldPids(s: Sched): set<string> {
    set id, pid | id in s.subs && pid in s.subs[id].pids :: pid
  }

  /** The schedule of the pids in use; pids nobody holds keep a tick that no longer matters. */
  ghost function Polled(s: Sched): Ticks {
    map pid | pid in HeldPids(s) :: s.Tick(pid)
  }

  predicate SteadyPid(sub: Sub, divisors: map<string, nat>, pid: string) {
    && sub.state == Active && pid in sub.runCounts && sub.runCounts[pid] == None
    && pid in divisors && divisors[pid] == ResolveTier(pid, sub.tiers).Divisor()
  }

  /** Every held pid continuous, of an active subscription, and of an agreed tier. */
  ghost predicate Calm(s: Sched, divisors: map<string, nat>) {
    && Inv(s) && s.streamed == {}
    && (forall q :: q in divisors ==> divisors[q] >= 1)
    && forall id, pid :: id in s.subs && pid in s.subs[id].pids ==> SteadyPid(s.subs[id], divisors, pid)
  }

  /** Calm, and nothing on the wire. */
  ghost predicate Steady(s: Sched, divisors: map<string, nat>) {
    Calm(s, divisors) && s.inFlight == {}
  }

  lemma HeldBy(s: Sched, pid: string)
    ensures pid in HeldPids(s) <==> exists id :: id in s.subs && pid in s.subs[id].pids
  {
  }

  lemma CalmOwner(s: Sched, divisors: map<string, nat>, pid: string, id: Id)
    requires Calm(s, divisors) && id in s.subs && pid in s.subs[id].pids
    ensures pid in s.registry.holders && Owns(s, id, pid) && !RunLimitReached(s.subs[id], pid)
  {
    hide ResolveTier;
    assert s.registry.Holds(pid, id) && SteadyPid(s.subs[id], divisors, pid);
  }

  // In a calm state exactly the held pids that are not on the wire are eligible, and surely so.
  lemma CalmEligible(s: Sched, divisors: map<string, nat>, pid: string)
    requires Calm(s, divisors)
    ensures pid in HeldPids(s) && pid !in s.inFlight <==> SurelyEligible(s, pid)
    ensures pid in HeldPids(s) && pid !in s.inFlight <==> exists id :: EligibleBy(s, pid, id)
    ensures pid in HeldPids(s) <==> s.Held(pid)
  {
    HeldBy(s, pid);
    assert s.streamed == {};
    hide Calm, HeldPids;
    if pid in HeldPids(s) {
      var id :| id in s.subs && pid in s.subs[id].pids;
      CalmOwner(s, divisors, pid, id);
      forall i | Owns(s, i, pid) ensures !RunLimitReached(s.subs[i], pid) { CalmOwner(s, divisors, pid, i); }
      assert pid !in s.inFlight ==> EligibleBy(s, pid, id);
    }
    if id :| EligibleBy(s, pid, id) { assert id in s.subs && pid in s.subs[id].pids; }
    if SurelyEligible(s, pid) {
      var id :| Owns(s, id, pid);
      assert id in s.subs && pid in s.subs[id].pids;
    }
  }

  // One serial exchange: a pick, and its completion whatever the reply says.
  ghost predicate Exchanged(s: Sched, pid: string, mid: Sched, response: Option<string>, reported: Option<Id>,
                            t: Sched) {
    && (exists found :: Found(s, Some(found)) && found.pid == pid) && Committed(s, pid, mid)
    && Marked(Complete(mid, pid, ActualPid(pid, response)), reported, t)
  }

  // In a steady state a completion only counts.
  lemma CompleteSteady(sub: Sub, pid: string)
    requires pid in sub.pids && sub.state == Active ==> pid in sub.runCounts && sub.runCounts[pid] == None
    ensures
      var after := CompleteSub(sub, pid);
      && after.pids == sub.pids && after.state == sub.state && after.runCounts == sub.runCounts &&
         after.tiers == sub.tiers
      && after.runOnceOnly == sub.runOnceOnly
  {
  }

  // What is found in a calm state is a least of the held pids not on the wire.
  lemma FoundLeast(s: Sched, divisors: map<string, nat>, found: Due)
    requires Calm(s, divisors) && Found(s, Some(found))
    ensures found.pid in HeldPids(s) && found.pid !in s.inFlight && found.tick == s.Tick(found.pid)
    ensures found.controller == s.registry.ControllerOf(found.pid)
    ensures forall q :: q in HeldPids(s) && q !in s.inFlight ==> found.tick <= s.Tick(q)
  {
    hide SurelyEligible, EligibleBy, Calm, HeldPids;
    CalmEligible(s, divisors, found.pid);
    forall q | q in HeldPids(s) && q !in s.inFlight ensures found.tick <= s.Tick(q) { CalmEligible(s, divisors, q); }
  }

  lemma PickLeast(s: Sched, divisors: map<string, nat>, pid: string)
    requires Steady(s, divisors) && exists found :: Found(s, Some(found)) && found.pid == pid
    ensures Least(Polled(s), pid)
  {
    var found :| Found(s, Some(found)) && found.pid == pid;
    FoundLeast(s, divisors, found);
    assert s.inFlight == {};
    hide Found, Steady, Calm, HeldPids;
  }

  lemma CommitCalm(s: Sched, divisors: map<string, nat>, pid: string, mid: Sched)
    requires Calm(s, divisors) && pid in HeldPids(s) && Committed(s, pid, mid)
    ensures pid in divisors && mid == s.(ticks := s.ticks[pid := s.Tick(pid) + divisors[pid]],
                                          inFlight := s.inFlight + {pid})
  {
    hide ResolveTier, Inv;
    assert s.Held(pid);
    var id :| id in s.subs && pid in s.subs[id].pids;
    assert SteadyPid(s.subs[id], divisors, pid);
  }

  // What a completion leaves alone when every held pid is continuous.
  ghost predicate Unmoved(s: Sched, t: Sched) {
    && t.subs.Keys == s.subs.Keys
    && forall id :: id in s.subs ==>
         && t.subs[id].pids == s.subs[id].pids && t.subs[id].runCounts == s.subs[id].runCounts
         && t.subs[id].tiers == s.subs[id].tiers && (s.subs[id].pids != {} ==> t.subs[id].state == s.subs[id].state)
  }

  // A completion leaves a steady subscription its pids, limits, tiers and state.
  lemma SubUnmoved(s: Sched, divisors: map<string, nat>, actual: string, id: Id)
    requires Calm(s, divisors) && id in s.subs
    ensures
      var after := CompleteSub(s.subs[id], actual);
      && after.pids == s.subs[id].pids && after.state == s.subs[id].state && after.runCounts == s.subs[id].runCounts
      && after.tiers == s.subs[id].tiers && (Emptied(after) ==> s.subs[id].pids == {})
  {
    hide ResolveTier, Inv;
    assert actual in s.subs[id].pids ==> SteadyPid(s.subs[id], divisors, actual);
    CompleteSteady(s.subs[id], actual);
    hide CompleteSub;
  }

  lemma DoneUnmoved(s: Sched, divisors: map<string, nat>, sent: string, actual: string, reported: Option<Id>, t: Sched)
    requires Calm(s, divisors) && Marked(Complete(s, sent, actual), reported, t)
    ensures Unmoved(s, t) && t.ticks == s.ticks && t.inFlight == s.inFlight - {sent} && t.streamed == s.streamed
  {
    hide Calm, CompleteSub, Finished, Emptied, Registry.Unregister;
    forall id | id in s.subs
      ensures
        var after := CompleteSub(s.subs[id], actual);
        && after.pids == s.subs[id].pids && after.state == s.subs[id].state && after.runCounts == s.subs[id].runCounts
        && after.tiers == s.subs[id].tiers && (Emptied(after) ==> s.subs[id].pids == {})
    {
      SubUnmoved(s, divisors, actual, id);
    }
  }

  lemma UnmovedCalm(s: Sched, divisors: map<string, nat>, t: Sched)
    requires Calm(s, divisors) && Unmoved(s, t) && Inv(t) && t.streamed == {}
    ensures Calm(t, divisors) && HeldPids(t) == HeldPids(s)
  {
    hide ResolveTier, Inv;
    forall pid ensures pid in HeldPids(t) <==> pid in HeldPids(s) {
      HeldBy(s, pid);
      HeldBy(t, pid);
      if id :| id in s.subs && pid in s.subs[id].pids { assert pid in t.subs[id].pids; }
      if id :| id in t.subs && pid in t.subs[id].pids { assert pid in s.subs[id].pids; }
    }
    forall id, pid | id in t.subs && pid in t.subs[id].pids ensures SteadyPid(t.subs[id], divisors, pid) {
      assert SteadyPid(s.subs[id], divisors, pid);
    }
  }

  lemma DoneInv(s: Sched, sent: string, actual: string, reported: Option<Id>, t: Sched)
    requires Inv(s) && Marked(Complete(s, sent, actual), reported, t)
    ensures Inv(t)
  {
    hide Inv, Complete, Marked;
    CompleteKeeps(s, sent, actual);
    MarkedSame(Complete(s, sent, actual), reported, t);
    SameKeeps(Complete(s, sent, actual), t);
  }

  // Completing a continuous pid leaves holdings, states, tiers and ticks as they are.
  lemma DoneCalm(s: Sched, divisors: map<string, nat>, sent: string, actual: string, reported: Option<Id>, t: Sched)
    requires Calm(s, divisors) && Marked(Complete(s, sent, actual), reported, t)
    ensures Calm(t, divisors) && HeldPids(t) == HeldPids(s) && t.ticks == s.ticks && t.inFlight == s.inFlight - {sent}
    ensures t.registry.controllers == s.registry.controllers
  {
    assert Inv(s) && s.streamed == {};
    hide Calm, Inv, Complete, Marked, HeldPids, Unmoved;
    DoneInv(s, sent, actual, reported, t);
    DoneUnmoved(s, divisors, sent, actual, reported, t);
    UnmovedCalm(s, divisors, t);
    DoneControllers(s, divisors, sent, actual, reported, t);
  }

  // No continuous pid leaves the registry.
  lemma DoneControllers(s: Sched, divisors: map<string, nat>, sent: string, actual: string, reported: Option<Id>,
                        t: Sched)
    requires Calm(s, divisors) && Marked(Complete(s, sent, actual), reported, t)
    ensures t.registry.controllers == s.registry.controllers
  {
    hide ResolveTier, CountedSub;
    forall id | id in s.subs && actual in s.subs[id].pids ensures actual in CompleteSub(s.subs[id], actual).pids {
      assert SteadyPid(s.subs[id], divisors, actual);
      CompleteSteady(s.subs[id], actual);
    }
    assert Finished(s, actual) == {};
    hide CompleteSub, Calm, AllEmptied, Finished;
    if actual in s.registry.holders {
      assert s.registry.holders[actual] != {};
    }
  }

  // Changing only ticks of known pids and the wire keeps the calm.
  lemma TickedCalm(s: Sched, divisors: map<string, nat>, t: Sched)
    requires Calm(s, divisors) && t == s.(ticks := t.ticks, inFlight := t.inFlight) && s.ticks.Keys <= t.ticks.Keys
    ensures Calm(t, divisors) && HeldPids(t) == HeldPids(s)
  {
    hide ResolveTier, Inv;
    assert SameHoldings(s, t);
    SameKeeps(s, t);
  }

  /** A serial exchange is one pick of the tier clock. */
  lemma ExchangePicks(s: Sched, divisors: map<string, nat>, pid: string, mid: Sched, response: Option<string>,
                      reported: Option<Id>, t: Sched)
    requires Steady(s, divisors) && Exchanged(s, pid, mid, response, reported, t)
    ensures Steady(t, divisors) && Pick(Polled(s), divisors, pid, Polled(t))
  {
    hide Calm, Steady, Found, Marked, Complete, ActualPid, Committed, Polled, HeldPids;
    PickLeast(s, divisors, pid);
    assert pid in HeldPids(s) by { LeastHeld(s, pid); }
    SteadyCalm(s, divisors);
    CommitCalm(s, divisors, pid, mid);
    TickedCalm(s, divisors, mid);
    DoneCalm(mid, divisors, pid, ActualPid(pid, response), reported, t);
    CalmSteady(t, divisors);
    PolledAfter(s, divisors, pid, t);
  }

  lemma SteadyCalm(s: Sched, divisors: map<string, nat>)
    requires Steady(s, divisors)
    ensures Calm(s, divisors) && s.inFlight == {}
  {
  }

  lemma CalmSteady(s: Sched, divisors: map<string, nat>)
    requires Calm(s, divisors) && s.inFlight == {}
    ensures Steady(s, divisors)
  {
  }

  lemma LeastHeld(s: Sched, pid: string)
    requires Least(Polled(s), pid)
    ensures pid in HeldPids(s)
  {
  }

  lemma PolledAfter(s: Sched, divisors: map<string, nat>, pid: string, t: Sched)
    requires Steady(s, divisors) && pid in HeldPids(s) && HeldPids(t) == HeldPids(s)
    requires t.ticks == s.ticks[pid := s.Tick(pid) + divisors[pid]]
    ensures pid in divisors && Polled(t) == Polled(s)[pid := Polled(s)[pid] + divisors[pid]]
  {
    hide ResolveTier, Inv;
  }

  ghost predicate SerialRun(s: Sched, picks: seq<string>, t: Sched) {
    if picks == [] then t == s
    else
      var k := |picks| - 1;
      exists before, mid, response, reported ::
        SerialRun(s, picks[..k], before) && Exchanged(before, picks[k], mid, response, reported, t)
  }

  /** The manager's serial runs are serial schedules of the tier clock. */
  lemma {:induction false} RunIsSerial(s: Sched, divisors: map<string, nat>, picks: seq<string>, t: Sched)
    requires Steady(s, divisors) && SerialRun(s, picks, t)
    ensures Steady(t, divisors) && Serial(Polled(s), divisors, picks, Polled(t))
  {
    hide Steady, Exchanged, Polled;
    if picks != [] {
      var k := |picks| - 1;
      var before, mid, response, reported :|
        SerialRun(s, picks[..k], before) && Exchanged(before, picks[k], mid, response, reported, t);
      RunIsSerial(s, divisors, picks[..k], before);
      ExchangePicks(before, divisors, picks[k], mid, response, reported, t);
    }
  }

  lemma SteadyDivisors(s: Sched, divisors: map<string, nat>)
    requires Steady(s, divisors)
    ensures Divisors(Polled(s), divisors)
  {
    hide ResolveTier, Inv;
  }

  /**
   Fairness of the manager: from equal ticks, whatever replies come and however ties are broken, the
   clock time used by any two held pids differs by at most one divisor.
   */
  lemma ManagerShare(s: Sched, divisors: map<string, nat>, picks: seq<string>, t: Sched, p: string, q: string)
    requires Steady(s, divisors) && SerialRun(s, picks, t) && p in HeldPids(s) && q in HeldPids(s) && Level(Polled(s))
    ensures p in divisors && q in divisors
    ensures Used(picks, divisors, p) <= Used(picks, divisors, q) + divisors[p]
    ensures Used(picks, divisors, q) <= Used(picks, divisors, p) + divisors[q]
  {
    hide Steady, SerialRun;
    RunIsSerial(s, divisors, picks, t);
    SteadyDivisors(s, divisors);
    hide Serial, Used;
    ProportionalShare(Polled(s), divisors, picks, Polled(t), p, q);
  }

  /** No held pid starves: it is among any `Rank` + 1 picks. */
  lemma ManagerNoStarvation(s: Sched, divisors: map<string, nat>, picks: seq<string>, t: Sched, pid: string)
    requires Steady(s, divisors) && SerialRun(s, picks, t) && pid in HeldPids(s) && |picks| > Rank(Polled(s), pid)
    ensures pid in picks
  {
    hide Steady, SerialRun;
    RunIsSerial(s, divisors, picks, t);
    SteadyDivisors(s, divisors);
    NoStarvation(Polled(s), divisors, picks, Polled(t), pid);
  }

  // ---------------------------------------------------------------- adding a pid mid-run

  lemma SeedIsFloor(s: Sched, divisors: map<string, nat>, seed: nat)
    requires Steady(s, divisors) && IsSeed(s, seed)
    ensures Floor(Polled(s), seed)
  {
    hide ResolveTier, Coherent, CountedSub;
    forall pid ensures pid in Polled(s) <==> pid in s.ticks && s.Held(pid) {
      if pid in HeldPids(s) {
        var id :| id in s.subs && pid in s.subs[id].pids;
      }
    }
  }

  /** The divisors once `id` also holds `pid`. */
  function WithPid(s: Sched, divisors: map<string, nat>, id: Id, pid: string): map<string, nat>
    requires id in s.subs
  {
    divisors[pid := ResolveTier(pid, s.subs[id].tiers).Divisor()]
  }

  /** A continuous pid is added to an active subscription, of a tier the other holders agree with. */
  ghost predicate LateAdded(s: Sched, divisors: map<string, nat>, id: Id, pid: string, controller: Option<string>,
                            seed: nat, t: Sched) {
    && Steady(s, divisors) && id in s.subs && s.subs[id].state == Active && IsSeed(s, seed)
    && AddPids(s, id, [pid], controller, map[], seed) == Success(t)
    && (pid in divisors ==> divisors[pid] == WithPid(s, divisors, id, pid)[pid])
  }

  /** The new pid starts at the floor, and the spread is kept. */
  lemma LateAddKeepsSpread(s: Sched, divisors: map<string, nat>, id: Id, pid: string, controller: Option<string>,
                           seed: nat, t: Sched)
    requires LateAdded(s, divisors, id, pid, controller, seed, t)
    ensures Steady(t, WithPid(s, divisors, id, pid)) && Polled(t) == Polled(s)[pid := seed] && Least(Polled(t), pid)
    ensures Divisors(Polled(s), divisors) && Divisors(Polled(t), WithPid(s, divisors, id, pid))
    ensures Spread(Polled(s), divisors) ==> Spread(Polled(t), WithPid(s, divisors, id, pid))
  {
    var after := WithPid(s, divisors, id, pid);
    LateAddSteady(s, divisors, id, pid, controller, seed, t);
    assert Steady(s, divisors) && IsSeed(s, seed);
    assert after[pid] >= 1 && after == divisors[pid := after[pid]];
    hide Steady, AddPids, Polled, IsSeed, LateAdded, WithPid;
    SeedIsFloor(s, divisors, seed);
    SteadyDivisors(s, divisors);
    SteadyDivisors(t, after);
    FloorLeast(Polled(s), pid, seed);
    if Spread(Polled(s), divisors) {
      SpreadExtend(Polled(s), divisors, after);
      SeedKeepsSpread(Polled(s), after, pid, seed);
    }
  }

  lemma FloorLeast(ticks: Ticks, pid: string, seed: nat)
    requires Floor(ticks, seed)
    ensures Least(ticks[pid := seed], pid)
  {
  }

  /** A pid added mid-run is polled before any other pid is polled twice. */
  lemma LateAddFirst(s: Sched, divisors: map<string, nat>, id: Id, pid: string, controller: Option<string>, seed: nat,
                     t: Sched, picks: seq<string>, u: Sched, q: string)
    requires LateAdded(s, divisors, id, pid, controller, seed, t)
    requires SerialRun(t, picks, u) && pid !in picks
    ensures Count(picks, q) <= 1
  {
    LateAddKeepsSpread(s, divisors, id, pid, controller, seed, t);
    var after := WithPid(s, divisors, id, pid);
    hide Steady, AddPids, Polled, IsSeed, SerialRun, LateAdded, WithPid;
    RunIsSerial(t, after, picks, u);
    FreshFirst(Polled(t), after, picks, Polled(u), pid, q);
  }

  lemma LateAddSteady(s: Sched, divisors: map<string, nat>, id: Id, pid: string, controller: Option<string>, seed: nat,
                      t: Sched)
    requires LateAdded(s, divisors, id, pid, controller, seed, t)
    ensures Steady(t, WithPid(s, divisors, id, pid)) && Polled(t) == Polled(s)[pid := seed]
  {
    assert Steady(s, divisors) && Inv(s);
    hide Steady, Polled, IsSeed, Inv, ResolveTier, AddPids;
    AddKeeps(s, id, [pid], controller, map[], seed);
    AddedOne(s, id, pid, controller, seed, t);
    AddedSteady(s, divisors, id, pid, t);
    AddedPolled(s, divisors, id, pid, seed, t);
  }

  lemma SpreadExtend(ticks: Ticks, divisors: map<string, nat>, after: map<string, nat>)
    requires Divisors(ticks, divisors) && Spread(ticks, divisors)
    requires divisors.Keys <= after.Keys && forall q :: q in divisors ==> after[q] == divisors[q]
    ensures Spread(ticks, after)
  {
  }

  lemma AddedOne(s: Sched, id: Id, pid: string, controller: Option<string>, seed: nat, t: Sched)
    requires AddPids(s, id, [pid], controller, map[], seed) == Success(t)
    ensures id in s.subs && t.subs.Keys == s.subs.Keys && t.ticks == s.ticks[pid := seed]
    ensures t.inFlight == s.inFlight && t.streamed == s.streamed
    ensures forall i :: i in s.subs && i != id ==> t.subs[i] == s.subs[i]
    ensures t.subs[id].pids == s.subs[id].pids + {pid} && t.subs[id].runCounts == s.subs[id].runCounts[pid := None]
    ensures t.subs[id].state == s.subs[id].state && t.subs[id].tiers == s.subs[id].tiers
  {
    assert [pid][..0] == [];
    assert AddToSub(s.subs[id], [pid][..0], map[]) == s.subs[id];
    assert SeedTicks(s.ticks, [pid][..0], seed) == s.ticks;
    hide FirstInvalid, RegisterAll;
  }

  lemma AddedSteady(s: Sched, divisors: map<string, nat>, id: Id, pid: string, t: Sched)
    requires Steady(s, divisors) && Inv(t) && id in s.subs && s.subs[id].state == Active
    requires t.subs.Keys == s.subs.Keys && t.inFlight == s.inFlight && t.streamed == s.streamed
    requires forall i :: i in s.subs && i != id ==> t.subs[i] == s.subs[i]
    requires t.subs[id].pids == s.subs[id].pids + {pid} && t.subs[id].runCounts == s.subs[id].runCounts[pid := None]
    requires t.subs[id].state == s.subs[id].state && t.subs[id].tiers == s.subs[id].tiers
    requires pid in divisors ==> divisors[pid] == WithPid(s, divisors, id, pid)[pid]
    ensures Steady(t, WithPid(s, divisors, id, pid))
  {
    hide ResolveTier, Inv;
    var after := WithPid(s, divisors, id, pid);
    forall i, q | i in t.subs && q in t.subs[i].pids ensures SteadyPid(t.subs[i], after, q) {
      if i != id || q != pid {
        assert q in s.subs[i].pids;
        assert SteadyPid(s.subs[i], divisors, q);
      }
    }
  }

  lemma AddedPolled(s: Sched, divisors: map<string, nat>, id: Id, pid: string, seed: nat, t: Sched)
    requires id in s.subs && t.subs.Keys == s.subs.Keys && t.ticks == s.ticks[pid := seed]
    requires forall i :: i in s.subs && i != id ==> t.subs[i] == s.subs[i]
    requires t.subs[id].pids == s.subs[id].pids + {pid}
    ensures Polled(t) == Polled(s)[pid := seed]
  {
    forall q ensures q in HeldPids(t) <==> q in HeldPids(s) || q == pid {
      HeldBy(s, q);
      HeldBy(t, q);
      HeldMore(s, id, pid, t, q);
    }
    hide HeldPids;
  }

  lemma HeldMore(s: Sched, id: Id, pid: string, t: Sched, q: string)
    requires id in s.subs && t.subs.Keys == s.subs.Keys
    requires forall i :: i in s.subs && i != id ==> t.subs[i] == s.subs[i]
    requires t.subs[id].pids == s.subs[id].pids + {pid}
    ensures (exists i :: i in t.subs && q in t.subs[i].pids) <==>
            q == pid || exists i :: i in s.subs && q in s.subs[i].pids
  {
    if i :| i in s.subs && q in s.subs[i].pids { assert q in t.subs[i].pids; }
    if q == pid { assert q in t.subs[id].pids; }
    if i :| i in t.subs && q in t.subs[i].pids { assert q in s.subs[i].pids || q == pid; }
  }
}
