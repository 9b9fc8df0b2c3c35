/** The subscription manager: the operations in place, each tied to what it makes of the state as a value. */
module SubscriptionManaging {
  import opened Wrappers
  import opened PidRegistry
  import opened Acquisition
  import opened Subscriptions
  import opened SchedulerRuns

  // What an operation that may fail does: the new state, or the error and no change.
  ghost predicate Outcome(expected: Result<Sched, SubError>, before: Sched, after: Sched, r: Result<(), SubError>) {
    match expected
    case Success(t) => r == Success(()) && after == t
    case Failure(e) => r == Failure(e) && after == before
  }

  class SubscriptionManager {
    var subscriptions: map<Id, Sub>
    const registry: GlobalPidRegistry
    const maxSubscriptions: nat
    var inFlight: set<string>
    var streamed: set<string>
    var ticks: map<string, nat>

    ghost function Now(): Sched
      reads this, registry
    {
      Sched(subscriptions, registry.Now(), inFlight, streamed, ticks)
    }

    ghost predicate Valid()
      reads this, registry
    {
      Inv(Now())
    }

    constructor (maxSubscriptions: nat)
      ensures Valid() && Now() == EMPTY && fresh(registry)
    {
      this.maxSubscriptions := maxSubscriptions;
      subscriptions, inFlight, streamed, ticks := map[], {}, {}, map[];
      registry := new GlobalPidRegistry();
      new;
      NothingHeld();
    }

    // `id` is the fresh identifier the new subscription gets.
    method CreateSubscription(id: Id) returns (r: Result<Id, SubError>)
      requires Valid() && id !in subscriptions
      modifies this
      ensures Valid()
      ensures |old(subscriptions)| >= maxSubscriptions ==> r == Failure(AlreadyExists) && Now() == old(Now())
      ensures |old(subscriptions)| < maxSubscriptions ==> r == Success(id) && Step(old(Now()), Created(id), Now())
    {
      if |subscriptions| >= maxSubscriptions {
        return Failure(AlreadyExists);
      }
      CreateKeeps(Now(), id);
      subscriptions := subscriptions[id := NEW_SUB];
      r := Success(id);
    }

    // The least tick over the pids some subscription holds.
    method SeedTick() returns (seed: nat)
      ensures IsSeed(Now(), seed)
    {
      var best: Option<nat> := None;
      var todo := ticks.Keys;
      while todo != {}
        invariant todo <= ticks.Keys
        invariant best.None? ==> forall pid :: pid in ticks.Keys - todo ==> !Now().Held(pid)
        invariant best.Some? ==>
                    && (exists pid :: pid in ticks && Now().Held(pid) && ticks[pid] == best.value)
                    && forall pid :: pid in ticks.Keys - todo && Now().Held(pid) ==> best.value <= ticks[pid]
      {
        var pid :| pid in todo;
        todo := todo - {pid};
        if exists id :: id in subscriptions && pid in subscriptions[id].pids {
          if best.None? || ticks[pid] < best.value {
            best := Some(ticks[pid]);
          }
        }
      }
      assert forall pid :: pid in ticks ==> pid in ticks.Keys - todo;
      seed := if best.Some? then best.value else 0;
    }

    method AddPidsToSubscription(id: Id, pids: seq<string>, controller: Option<string>,
                                 counts: map<string, Option<nat>>)
      returns (r: Result<(), SubError>)
      requires Valid()
      modifies this, registry
      ensures Valid()
      ensures exists seed :: IsSeed(old(Now()), seed) &&
                             Outcome(AddPids(old(Now()), id, pids, controller, counts, seed), old(Now()), Now(), r)
    {
      var seed := SeedTick();
      ghost var before := Now();
      hide IsSeed, Inv, Edited, SeedTicks, RegisterAll;
      if id !in subscriptions {
        return Failure(NotFound);
      }
      if subscriptions[id].state == Cancelled {
        return Failure(NotActive);
      }
      var bad := FirstInvalid(pids);
      if bad.Some? {
        return Failure(InvalidPid(bad.value));
      }
      var sub := EditSub(subscriptions[id], pids, controller, counts);
      SeedEach(pids, seed);
      subscriptions := subscriptions[id := sub];
      RegisterEach(id, pids, controller);
      AddKeeps(before, id, pids, controller, counts, seed);
      r := Success(());
    }

    // The subscription's own part of an addition.
    static method EditSub(start: Sub, pids: seq<string>, controller: Option<string>, counts: map<string, Option<nat>>)
      returns (sub: Sub)
      ensures sub == Edited(start, pids, controller, counts)
    {
      hide AddOne, AllLimited;
      sub := start;
      var allLimited := true;
      assert pids[..0] == [];
      for i := 0 to |pids|
        invariant sub == AddToSub(start, pids[..i], counts)
        invariant allLimited <==> forall j :: 0 <= j < i ==> RunCountOf(counts, pids[j]).Some?
      {
        assert pids[..i + 1][..i] == pids[..i];
        var count := RunCountOf(counts, pids[i]);
        sub := AddOne(sub, pids[i], count);
        if count.None? {
          allLimited := false;
        }
      }
      assert pids[..|pids|] == pids;
      EditedAs(start, pids, controller, counts, allLimited);
      if allLimited && pids != [] {
        sub := sub.(runOnceOnly := true);
      }
      if controller.Some? {
        sub := sub.(target := controller);
      }
    }

    // Added pids start at the floor, whatever tick they had.
    method SeedEach(pids: seq<string>, seed: nat)
      modifies this`ticks
      ensures ticks == SeedTicks(old(ticks), pids, seed)
    {
      assert pids[..0] == [];
      for i := 0 to |pids|
        invariant ticks == SeedTicks(old(ticks), pids[..i], seed)
      {
        assert pids[..i + 1][..i] == pids[..i];
        ticks := ticks[pids[i] := seed];
      }
      assert pids[..|pids|] == pids;
    }

    // Registered one by one.
    method RegisterEach(id: Id, pids: seq<string>, controller: Option<string>)
      modifies registry
      ensures registry.Now() == RegisterAll(old(registry.Now()), pids, id, controller)
    {
      assert pids[..0] == [];
      for i := 0 to |pids|
        invariant registry.Now() == RegisterAll(old(registry.Now()), pids[..i], id, controller)
      {
        assert pids[..i + 1][..i] == pids[..i];
        registry.RegisterPidSubscription(pids[i], id, controller);
      }
      assert pids[..|pids|] == pids;
    }

    method RemovePidsFromSubscription(id: Id, pids: seq<string>) returns (r: Result<(), SubError>)
      requires Valid()
      modifies this, registry
      ensures Valid() && Outcome(RemovePids(old(Now()), id, pids), old(Now()), Now(), r)
    {
      if id !in subscriptions {
        return Failure(NotFound);
      }
      if subscriptions[id].state == Cancelled {
        return Failure(NotActive);
      }
      ghost var before := Now();
      RemoveKeeps(before, id, pids);
      hide Inv, CountedSub, Coherent;
      var left := subscriptions[id].pids;
      assert pids[..0] == [];
      assert registry.Now().Tidy() by { InvTidy(before); }
      for i := 0 to |pids|
        invariant left == before.subs[id].pids - set j | 0 <= j < i :: pids[j]
        invariant registry.Now() == UnregisterPids(before.registry, pids[..i], id) && registry.Now().Tidy()
        invariant Now() == before.(registry := registry.Now())
      {
        assert pids[..i + 1][..i] == pids[..i];
        left := left - {pids[i]};
        registry.UnregisterPidSubscription(pids[i], id);
      }
      assert pids[..|pids|] == pids;
      subscriptions := subscriptions[id := subscriptions[id].(pids := left)];
      r := Success(());
    }

    method StartSubscription(id: Id) returns (r: Result<(), SubError>)
      requires Valid()
      modifies this`subscriptions
      ensures Valid() && (Now(), r) == Start(old(Now()), id)
    {
      StartSame(Now(), id);
      SameKeeps(Now(), Start(Now(), id).0);
      if id !in subscriptions {
        return Failure(NotFound);
      }
      var sub := subscriptions[id];
      subscriptions := subscriptions[id := StartedSub(sub)];
      r := if sub.state == Active || sub.state == Paused then Success(()) else Failure(NotActive);
    }

    method PauseSubscription(id: Id) returns (r: Result<(), SubError>)
      requires Valid()
      modifies this`subscriptions
      ensures Valid() && Outcome(Pause(old(Now()), id), old(Now()), Now(), r)
    {
      PauseSame(Now(), id);
      if id !in subscriptions {
        return Failure(NotFound);
      }
      if subscriptions[id].state == Cancelled {
        return Failure(NotActive);
      }
      SameKeeps(Now(), Pause(Now(), id).value);
      subscriptions := subscriptions[id := subscriptions[id].(state := Paused, hostPaused := true)];
      r := Success(());
    }

    /** Silence every active subscription; the ids tell which to resume. */
    method PauseAllActive() returns (paused: set<Id>)
      requires Valid()
      modifies this`subscriptions
      ensures Valid() && Now() == PauseAll(old(Now()))
      ensures forall id :: id in paused <==> id in old(subscriptions) && old(subscriptions)[id].state == Active
    {
      PauseAllSame(Now());
      SameKeeps(Now(), PauseAll(Now()));
      hide Inv, SameHoldings, PausedSub;
      paused := PauseEach();
    }

    method PauseEach() returns (paused: set<Id>)
      modifies this`subscriptions
      ensures subscriptions == map id | id in old(subscriptions) :: PausedSub(old(subscriptions)[id])
      ensures forall id :: id in paused <==> id in old(subscriptions) && old(subscriptions)[id].state == Active
    {
      ghost var before := subscriptions;
      paused := {};
      var todo := subscriptions.Keys;
      while todo != {}
        invariant todo <= before.Keys == subscriptions.Keys
        invariant forall id :: id in todo ==> subscriptions[id] == before[id]
        invariant forall id :: id in subscriptions && id !in todo ==> subscriptions[id] == PausedSub(before[id])
        invariant forall id :: id in paused <==> id in before && id !in todo && before[id].state == Active
      {
        var id :| id in todo;
        todo := todo - {id};
        if subscriptions[id].state == Active {
          subscriptions := subscriptions[id := subscriptions[id].(state := Paused)];
          paused := paused + {id};
        }
      }
    }

    /** Resume what an acquisition pause stopped, except what the host paused meanwhile. */
    method Resume(ids: set<Id>)
      requires Valid()
      modifies this`subscriptions
      ensures Valid() && Now() == ResumeMany(old(Now()), ids)
    {
      ResumeSame(Now(), ids);
      SameKeeps(Now(), ResumeMany(Now(), ids));
      hide Inv, SameHoldings, ResumedSub;
      ResumeEach(ids);
    }

    method ResumeEach(ids: set<Id>)
      modifies this`subscriptions
      ensures subscriptions == map id | id in old(subscriptions) ::
                                 if id in ids then ResumedSub(old(subscriptions)[id]) else old(subscriptions)[id]
    {
      ghost var before := subscriptions;
      var todo := ids;
      while todo != {}
        invariant todo <= ids && subscriptions.Keys == before.Keys
        invariant forall id :: id in subscriptions && (id !in ids || id in todo) ==> subscriptions[id] == before[id]
        invariant forall id :: id in subscriptions && id in ids && id !in todo ==>
                  subscriptions[id] == ResumedSub(before[id])
      {
        var id :| id in todo;
        todo := todo - {id};
        if id in subscriptions && subscriptions[id].state == Paused && !subscriptions[id].hostPaused {
          subscriptions := subscriptions[id := subscriptions[id].(state := Active)];
        }
      }
    }

    method CancelSubscription(id: Id) returns (r: Result<(), SubError>)
      requires Valid()
      modifies this`subscriptions, registry
      ensures Valid() && Outcome(Cancel(old(Now()), id), old(Now()), Now(), r)
    {
      if id !in subscriptions {
        return Failure(NotFound);
      }
      CancelKeeps(Now(), id);
      subscriptions := subscriptions - {id};
      registry.UnregisterSubscription(id);
      r := Success(());
    }

    // ---------------------------------------------------------------- picking

    /** The most overdue eligible pid, without committing it. */
    method PeekNextEligible() returns (found: Option<Due>)
      requires Valid()
      ensures Found(Now(), found)
    {
      hide Inv;
      var all := registry.GetUniquePids();
      found := None;
      var i := 0;
      while i < |all|
        invariant 0 <= i <= |all|
        invariant found.Some? ==>
                    && (exists id ::
                        EligibleBy(Now(), found.value.pid, id) && found.value.timeoutMs == subscriptions[id].timeoutMs)
                    && found.value.controller == Now().registry.ControllerOf(found.value.pid)
                    && found.value.tick == Now().Tick(found.value.pid)
        invariant forall k :: 0 <= k < i && SurelyEligible(Now(), all[k].0) ==>
                                found.Some? && found.value.tick <= Now().Tick(all[k].0)
      {
        var pid := all[i].0;
        if pid !in inFlight && pid !in streamed &&
            exists id :: id in subscriptions && pid in subscriptions[id].pids && subscriptions[id].state == Active {
          var owner :| owner in subscriptions && pid in subscriptions[owner].pids &&
            subscriptions[owner].state == Active;
          assert Owns(Now(), owner, pid);
          if !RunLimitReached(subscriptions[owner], pid) {
            var tick := if pid in ticks then ticks[pid] else 0;
            assert EligibleBy(Now(), pid, owner);
            if found.None? || tick < found.value.tick {
              found := Some(Due(pid, all[i].1, subscriptions[owner].timeoutMs, tick));
            }
          }
        }
        i := i + 1;
      }
      forall q | SurelyEligible(Now(), q) ensures found.Some? && found.value.tick <= Now().Tick(q) {
        var k :| 0 <= k < |all| && all[k].0 == q;
      }
    }

    // Advance the pid's tick by its tier and put it on the wire.
    method CommitPick(pid: string)
      requires Valid()
      modifies this`ticks, this`inFlight
      ensures Valid() && Committed(old(Now()), pid, Now())
    {
      ghost var before := Now();
      var divisor := Medium.Divisor();
      if exists id :: id in subscriptions && pid in subscriptions[id].pids {
        var id :| id in subscriptions && pid in subscriptions[id].pids;
        divisor := ResolveTier(pid, subscriptions[id].tiers).Divisor();
      }
      assert DivisorOf(before, pid, divisor);
      ticks := ticks[pid := (if pid in ticks then ticks[pid] else 0) + divisor];
      inFlight := inFlight + {pid};
      assert Now() == Commit(before, pid, divisor);
      PickSame(before, pid, Now());
      SameKeeps(before, Now());
    }

    method GetNextCommand() returns (found: Option<Due>)
      requires Valid()
      modifies this`ticks, this`inFlight
      ensures Valid() && Found(old(Now()), found)
      ensures found.None? ==> Now() == old(Now())
      ensures found.Some? ==> Committed(old(Now()), found.value.pid, Now())
    {
      found := PeekNextEligible();
      if found.Some? {
        CommitPick(found.value.pid);
      }
    }

    /** Several picks for one exchange: equally due, one target, as many as the admission and `max` allow. */
    method GetNextCommands(max: nat, admission: Admission) returns (picks: seq<Due>)
      requires Valid()
      modifies this`ticks, this`inFlight
      ensures Valid() && Exchange(old(Now()), max, admission, picks, Now())
    {
      hide Found, Inv, Committed, Admits;
      ghost var start := Now();
      var limit := if max > 1 then max else 1;
      picks := [];
      while |picks| < limit
        invariant Valid() && |picks| <= limit && PickedInTurn(start, admission, picks, Now())
      {
        var found := PeekNextEligible();
        if found.None? || !Joins(admission, picks, found.value) {
          return;
        }
        ghost var mid := Now();
        CommitPick(found.value.pid);
        assert (picks + [found.value])[..|picks|] == picks;
        picks := picks + [found.value];
      }
    }

    // ---------------------------------------------------------------- completing

    // Account one run of `pid` in every active subscription that holds it.
    method AccountCompletion(pid: string)
      requires registry.Now().Tidy()
      modifies this`subscriptions, registry
      ensures subscriptions == map id | id in old(subscriptions) :: CompleteSub(old(subscriptions)[id], pid)
      ensures registry.Now() == old(registry.Now()).Unregister(pid, Finished(old(Now()), pid))
    {
      ghost var before := Now();
      ghost var done: set<Id> := {};
      hide CompleteSub, Registry.Unregister;
      var todo := subscriptions.Keys;
      assert registry.Now() == before.registry.Unregister(pid, {}) by { UnregisterNone(before.registry, pid); }
      while todo != {}
        invariant todo <= before.subs.Keys == subscriptions.Keys
        invariant forall id :: id in subscriptions ==>
                                 subscriptions[id] == if id in todo then before.subs[id]
                                     else CompleteSub(before.subs[id], pid)
        invariant done == Finished(before, pid) - todo
        invariant registry.Now().Tidy() && registry.Now() == before.registry.Unregister(pid, done)
      {
        var id :| id in todo;
        todo := todo - {id};
        var sub := subscriptions[id];
        var next := CompleteSub(sub, pid);
        subscriptions := subscriptions[id := next];
        assert id in Finished(before, pid) <==> pid in sub.pids && pid !in next.pids;
        if pid in sub.pids && pid !in next.pids {
          UnregisterMore(before.registry, pid, done, id);
          done := done + {id};
          registry.UnregisterPidSubscription(pid, id);
        }
      }
      assert done == Finished(before, pid);
    }

    /** One emptied run-once subscription, if there is any, stops polling and is reported. */
    method CheckAndMarkComplete() returns (reported: Option<Id>)
      requires Valid()
      modifies this`subscriptions
      ensures Valid() && Marked(old(Now()), reported, Now())
    {
      ghost var before := Now();
      reported := None;
      if exists id :: id in subscriptions && Emptied(subscriptions[id]) {
        var id :| id in subscriptions && Emptied(subscriptions[id]);
        assert id in AllEmptied(before);
        subscriptions := subscriptions[id := subscriptions[id].(state := Completed)];
        reported := Some(id);
      }
      assert Marked(before, reported, Now());
      MarkedSame(before, reported, Now());
      SameKeeps(before, Now());
    }

    method CommandCompleted(sent: string, response: Option<string>) returns (reported: Option<Id>)
      requires Valid()
      modifies this`subscriptions, this`inFlight, registry
      ensures Valid() && Marked(Complete(old(Now()), sent, ActualPid(sent, response)), reported, Now())
    {
      ghost var before := Now();
      InvTidy(before);
      hide Inv, Marked, CompleteSub, Finished, ActualPid;
      var actual := ActualPid(sent, response);
      inFlight := inFlight - {sent};
      assert Finished(Now(), actual) == Finished(before, actual) by { FinishedSame(before, Now(), actual); }
      AccountCompletion(actual);
      assert Now() == Complete(before, sent, actual);
      CompleteKeeps(before, sent, actual);
      reported := CheckAndMarkComplete();
    }

    method ClearInFlight()
      requires Valid()
      modifies this`inFlight
      ensures Valid() && Now() == old(Now()).(inFlight := {})
    {
      inFlight := {};
    }

    method SetStreamedPids(pids: set<string>)
      requires Valid()
      modifies this`streamed
      ensures Valid() && Now() == old(Now()).(streamed := pids)
    {
      streamed := pids;
    }
  }

  lemma InvTidy(s: Sched)
    requires Inv(s)
    ensures s.registry.Tidy()
  {
  }

  lemma EditedAs(sub: Sub, pids: seq<string>, controller: Option<string>, counts: map<string, Option<nat>>,
                 allLimited: bool)
    requires allLimited <==> forall j :: 0 <= j < |pids| ==> RunCountOf(counts, pids[j]).Some?
    ensures
      var added := AddToSub(sub, pids, counts);
      Edited(sub, pids, controller, counts) ==
      added.(runOnceOnly := if allLimited && pids != [] then true else added.runOnceOnly,
             target := if controller.Some? then controller else added.target)
  {
    AddedSub(sub, pids, counts);
    hide AddToSub;
  }

  lemma UnregisterNone(r: Registry, pid: string)
    requires r.Tidy()
    ensures r.Unregister(pid, {}) == r
  {
    if pid in r.holders {
      assert r.holders[pid] - {} == r.holders[pid];
      assert r.holders[pid := r.holders[pid]] == r.holders;
    }
  }

  lemma UnregisterMore(r: Registry, pid: string, ids: set<Id>, id: Id)
    requires r.Tidy()
    ensures r.Unregister(pid, ids).Unregister(pid, {id}) == r.Unregister(pid, ids + {id})
  {
    if pid in r.holders {
      assert r.holders[pid] - ids - {id} == r.holders[pid] - (ids + {id});
    }
  }

  lemma FinishedSame(s: Sched, t: Sched, pid: string)
    requires t.subs == s.subs
    ensures Finished(t, pid) == Finished(s, pid)
  {
  }
}
