/** What a run count of zero means: accepted when pids are added, never polled for, and yet completed. */
module ZeroRunCount {
  import opened Wrappers
  import opened Text
  import opened PidRegistry
  import opened Subscriptions
  import opened SchedulerRuns

  /**
   A pid under a run count of zero is never eligible for its own subscription, and leaves it at the first
   completion that names it, and at no other.
   */
  lemma ZeroCount(s: Sched, id: Id, pid: string, sent: string, actual: string)
    requires Inv(s) && Owns(s, id, pid) && s.subs[id].runCounts[pid] == Some(0)
    ensures !EligibleBy(s, pid, id)
    ensures pid in Complete(s, sent, actual).subs[id].pids <==> actual != pid
  {
    hide Coherent;
    assert CountedSub(s.subs[id]);
  }

  const RPM := "010C"
  lemma RpmValid()
    ensures IsValidPid(RPM)
  {
    assert Upper(RPM) == RPM;
    TrimTrimmed(RPM);
    SplitFree(RPM, '|');
    SplitFree(RPM, ' ');
  }

  lemma RunStep(events: seq<Event>, s: Sched, e: Event, t: Sched)
    requires Run(events, s) && Step(s, e, t)
    ensures Run(events + [e], t)
  {
    assert (events + [e])[..|events|] == events;
    hide Step;
  }

  // One pid added to a subscription that holds none.
  lemma AddedRpm(s: Sched, id: Id, counts: map<string, Option<nat>>, seed: nat)
    requires id in s.subs && s.subs[id].state == Paused && s.subs[id].pids == {}
    ensures
      var sub := s.subs[id];
      AddPids(s, id, [RPM], None, counts, seed) ==
      Success(s.(subs := s.subs[id := AddOne(sub, RPM, RunCountOf(counts, RPM)).(
                            runOnceOnly := sub.runOnceOnly || RunCountOf(counts, RPM).Some?)],
                 registry := s.registry.Register(RPM, id, None), ticks := s.ticks[RPM := seed]))
  {
    RpmValid();
    hide IsValidPid, Registry.Register;
    assert [RPM][..0] == [] && [RPM][1..] == [];
    assert FirstInvalid([RPM]) == None;
    assert AddToSub(s.subs[id], [RPM], counts) == AddOne(s.subs[id], RPM, RunCountOf(counts, RPM));
    assert RegisterAll(s.registry, [RPM], id, None) == s.registry.Register(RPM, id, None);
    assert SeedTicks(s.ticks, [RPM], seed) == s.ticks[RPM := seed];
    assert AllLimited([RPM], counts) <==> RunCountOf(counts, RPM).Some?;
  }

  // A subscription created, given the pid, and started.
  function Opened(s: Sched, id: Id, counts: map<string, Option<nat>>, seed: nat): Sched {
    var count := RunCountOf(counts, RPM);
    s.(subs := s.subs[id := Sub({RPM}, None, Active, false, map[RPM := count], map[RPM := 0], count.Some?, None,
                                DEFAULT_TIERS)],
       registry := s.registry.Register(RPM, id, None), ticks := s.ticks[RPM := seed])
  }

  // The same before its start.
  function Filled(s: Sched, id: Id, counts: map<string, Option<nat>>, seed: nat): Sched {
    var count := RunCountOf(counts, RPM);
    s.(subs := s.subs[id := Sub({RPM}, None, Paused, false, map[RPM := count], map[RPM := 0], count.Some?, None,
                                DEFAULT_TIERS)],
       registry := s.registry.Register(RPM, id, None), ticks := s.ticks[RPM := seed])
  }

  lemma FilledSub(count: Option<nat>)
    ensures AddOne(NEW_SUB, RPM, count).(runOnceOnly := NEW_SUB.runOnceOnly || count.Some?)
         == Sub({RPM}, None, Paused, false, map[RPM := count], map[RPM := 0], count.Some?, None, DEFAULT_TIERS)
  {
  }

  lemma SetTwice(subs: map<Id, Sub>, id: Id, a: Sub, b: Sub)
    ensures subs[id := a][id := b] == subs[id := b]
  {
  }

  lemma FilledByAdding(s: Sched, id: Id, counts: map<string, Option<nat>>, seed: nat)
    requires id !in s.subs
    ensures AddPids(s.(subs := s.subs[id := NEW_SUB]), id, [RPM], None, counts, seed) ==
            Success(Filled(s, id, counts, seed))
  {
    var created := s.(subs := s.subs[id := NEW_SUB]);
    AddedRpm(created, id, counts, seed);
    FilledSub(RunCountOf(counts, RPM));
    hide Registry.Register, RunCountOf, AddPids, AddOne;
    SetTwice(s.subs, id, NEW_SUB, Filled(s, id, counts, seed).subs[id]);
  }

  lemma FilledStarts(s: Sched, id: Id, counts: map<string, Option<nat>>, seed: nat)
    ensures Start(Filled(s, id, counts, seed), id).0 == Opened(s, id, counts, seed)
  {
    hide Registry.Register, RunCountOf;
    SetTwice(s.subs, id, Filled(s, id, counts, seed).subs[id], Opened(s, id, counts, seed).subs[id]);
  }

  lemma OpenedSteps(s: Sched, id: Id, counts: map<string, Option<nat>>, seed: nat)
    returns (created: Sched, added: Sched)
    requires id !in s.subs && IsSeed(s, seed)
    ensures Step(s, Created(id), created) && Step(created, Added(id, [RPM], None, counts, seed), added)
    ensures Step(added, Started(id), Opened(s, id, counts, seed))
  {
    hide IsSeed, Start, AddPids, Filled, Opened;
    FreshSeed(s, id, seed);
    FilledByAdding(s, id, counts, seed);
    FilledStarts(s, id, counts, seed);
    created := s.(subs := s.subs[id := NEW_SUB]);
    added := Filled(s, id, counts, seed);
  }

  lemma OpenedRun(events: seq<Event>, s: Sched, id: Id, counts: map<string, Option<nat>>, seed: nat)
    requires Run(events, s) && id !in s.subs && IsSeed(s, seed)
    ensures Run(events + [Created(id), Added(id, [RPM], None, counts, seed), Started(id)], Opened(s, id, counts, seed))
  {
    hide *;
    var created, added := OpenedSteps(s, id, counts, seed);
    RunStep(events, s, Created(id), created);
    RunStep(events + [Created(id)], created, Added(id, [RPM], None, counts, seed), added);
    RunStep(events + [Created(id)] + [Added(id, [RPM], None, counts, seed)], added, Started(id),
            Opened(s, id, counts, seed));
    assert events + [Created(id)] + [Added(id, [RPM], None, counts, seed)] + [Started(id)]
        == events + [Created(id), Added(id, [RPM], None, counts, seed), Started(id)];
  }

  lemma FreshSeed(s: Sched, id: Id, seed: nat)
    requires IsSeed(s, seed) && id !in s.subs
    ensures IsSeed(s.(subs := s.subs[id := NEW_SUB]), seed)
  {
    var t := s.(subs := s.subs[id := NEW_SUB]);
    forall pid ensures t.Held(pid) <==> s.Held(pid) {
      if s.Held(pid) {
        var i :| i in s.subs && pid in s.subs[i].pids;
        assert i in t.subs && pid in t.subs[i].pids;
      }
    }
    hide Sched.Held;
  }

  const ZERO_COUNT: map<string, Option<nat>> := map[RPM := Some(0)]

  // Subscription 1 asks for no runs of one pid.
  const ZERO_EVENTS := [Created(1), Added(1, [RPM], None, ZERO_COUNT, 0), Started(1)]

  // Subscription 2 holds it without limit, and it is polled once.
  const SHARED_EVENTS :=
    ZERO_EVENTS + [Created(2), Added(2, [RPM], None, map[], 0), Started(2)] + [Picked(RPM)] + [Done(RPM, None, Some(1))]

  const ZERO_SUB := Sub({RPM}, None, Active, false, ZERO_COUNT, map[RPM := 0], true, None, DEFAULT_TIERS)
  const FREE_SUB := Sub({RPM}, None, Active, false, map[RPM := None], map[RPM := 0], false, None, DEFAULT_TIERS)

  lemma ZeroRun() returns (t: Sched)
    ensures Run(ZERO_EVENTS, t) && t.subs == map[1 := ZERO_SUB]
    ensures t.inFlight == t.streamed == {} && RPM in t.registry.holders && t.ticks == map[RPM := 0]
  {
    t := Opened(EMPTY, 1, ZERO_COUNT, 0);
    assert Run([], EMPTY) && IsSeed(EMPTY, 0);
    hide Run, IsSeed;
    OpenedRun([], EMPTY, 1, ZERO_COUNT, 0);
    assert [] + [Created(1), Added(1, [RPM], None, ZERO_COUNT, 0), Started(1)] == ZERO_EVENTS;
    assert t.registry.Holds(RPM, 1);
  }

  /** A run after which a pid under a run count of zero waits and no scan finds it. */
  lemma ZeroCountWaits() returns (t: Sched)
    ensures Run(ZERO_EVENTS, t) && Waiting(t, RPM) && forall id :: !EligibleBy(t, RPM, id)
  {
    t := ZeroRun();
    hide Run;
  }

  // Both subscriptions hold the pid, and one of them may be polled for it.
  lemma SharedState() returns (s: Sched)
    ensures Run(ZERO_EVENTS + [Created(2), Added(2, [RPM], None, map[], 0), Started(2)], s)
    ensures s.subs == map[1 := ZERO_SUB, 2 := FREE_SUB] && s.inFlight == s.streamed == {}
    ensures RPM in s.registry.holders && s.Tick(RPM) == 0
  {
    var t := ZeroRun();
    ZeroSeed(t);
    OpenedFree(t);
    assert 2 !in t.subs;
    hide Run, IsSeed, Opened;
    OpenedRun(ZERO_EVENTS, t, 2, map[], 0);
    s := Opened(t, 2, map[], 0);
  }

  lemma OpenedFree(t: Sched)
    requires t.subs == map[1 := ZERO_SUB]
    ensures
      var s := Opened(t, 2, map[], 0);
      && s.subs == map[1 := ZERO_SUB, 2 := FREE_SUB] && s.inFlight == t.inFlight && s.streamed == t.streamed
      && RPM in s.registry.holders && s.Tick(RPM) == 0
  {
    assert Opened(t, 2, map[], 0).registry.Holds(RPM, 2);
    hide Registry.Register;
  }

  lemma ZeroSeed(s: Sched)
    requires s.subs == map[1 := ZERO_SUB] && s.ticks == map[RPM := 0]
    ensures IsSeed(s, 0)
  {
    assert 1 in s.subs && RPM in s.subs[1].pids;
    assert s.Held(RPM) && RPM in s.ticks;
  }

  // Polling the pid once for subscription 2.
  lemma SharedPick(s: Sched) returns (t: Sched)
    requires RPM in s.registry.holders && s.inFlight == s.streamed == {} && s.Tick(RPM) == 0
    requires 2 in s.subs && s.subs[2] == FREE_SUB
    ensures Step(s, Picked(RPM), t) && t.subs == s.subs
  {
    var divisor := ResolveTier(RPM, DEFAULT_TIERS).Divisor();
    t := Commit(s, RPM, divisor);
    hide ResolveTier;
    assert EligibleBy(s, RPM, 2);
    assert Found(s, Some(Due(RPM, s.registry.ControllerOf(RPM), None, 0)));
    assert DivisorOf(s, RPM, divisor) by { assert s.Held(RPM); }
  }

  lemma ZeroEmptied()
    ensures Emptied(CompleteSub(ZERO_SUB, RPM))
  {
  }

  // Its completion.
  lemma SharedDone(s: Sched) returns (t: Sched)
    requires s.subs == map[1 := ZERO_SUB, 2 := FREE_SUB]
    ensures Step(s, Done(RPM, None, Some(1)), t) && 1 in t.subs && t.subs[1].state == Completed
  {
    ZeroEmptied();
    hide CompleteSub, Emptied, Registry.Unregister, Finished;
    var done := Complete(s, RPM, RPM);
    assert 1 in s.subs && s.subs[1] == ZERO_SUB;
    assert 1 in done.subs && done.subs[1] == CompleteSub(s.subs[1], RPM);
    t := done.(subs := done.subs[1 := done.subs[1].(state := Completed)]);
    assert 1 in AllEmptied(done);
  }

  /** A run in which such a subscription is reported complete after all: another holder was polled. */
  lemma ZeroCountCompletes() returns (t: Sched)
    ensures Run(SHARED_EVENTS, t) && 1 in t.subs && t.subs[1].state == Completed
  {
    hide Run, Step, Waiting, EligibleBy, Sched.Tick;
    var events := ZERO_EVENTS + [Created(2), Added(2, [RPM], None, map[], 0), Started(2)];
    var s := SharedState();
    var picked := SharedPick(s);
    RunStep(events, s, Picked(RPM), picked);
    t := SharedDone(picked);
    RunStep(events + [Picked(RPM)], picked, Done(RPM, None, Some(1)), t);
  }
}
