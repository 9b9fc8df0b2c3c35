/** What holds of the subscription manager after any sequence of operations, picks and completions. */
module SchedulerRuns {
  import opened Wrappers
  import opened PidRegistry
  import opened Subscriptions
  import opened Sums

  // ---------------------------------------------------------------- every operation keeps the registry coherent

  lemma {:induction false} AddedSub(sub: Sub, pids: seq<string>, counts: map<string, Option<nat>>)
    ensures
      var after := AddToSub(sub, pids, counts);
      && (forall pid :: pid in after.pids <==> pid in sub.pids || pid in pids)
      && (CountedSub(sub) ==> CountedSub(after))
      && after == sub.(pids := after.pids, runCounts := after.runCounts, execCounts := after.execCounts)
  {
    if pids != [] {
      var k := |pids| - 1;
      AddedSub(sub, pids[..k], counts);
      assert pids == pids[..k] + [pids[k]];
    }
  }

  lemma {:induction false} SeededTicks(ticks: map<string, nat>, pids: seq<string>, seed: nat)
    ensures
      var after := SeedTicks(ticks, pids, seed);
      && (forall pid :: pid in after <==> pid in ticks || pid in pids)
      && (forall pid :: pid in after ==> after[pid] == if pid in pids then seed else ticks[pid])
  {
    if pids != [] {
      var k := |pids| - 1;
      SeededTicks(ticks, pids[..k], seed);
      assert pids == pids[..k] + [pids[k]];
    }
  }

  lemma InLast(pids: seq<string>, q: string)
    requires pids != []
    ensures q in pids <==> q in pids[..|pids| - 1] || q == pids[|pids| - 1]
  {
    assert pids == pids[..|pids| - 1] + [pids[|pids| - 1]];
  }

  lemma {:induction false} RegisteredAll(r: Registry, pids: seq<string>, id: Id, controller: Option<string>)
    ensures
      var after := RegisterAll(r, pids, id, controller);
      && (r.Tidy() ==> after.Tidy())
      && forall q, i :: after.Holds(q, i) <==> r.Holds(q, i) || (q in pids && i == id)
  {
    hide Registry.Register, Registry.Holds, Registry.Tidy;
    if pids != [] {
      var k := |pids| - 1;
      RegisteredAll(r, pids[..k], id, controller);
      var before, after := RegisterAll(r, pids[..k], id, controller), RegisterAll(r, pids, id, controller);
      assert after == before.Register(pids[k], id, controller);
      forall q, i ensures after.Holds(q, i) <==> r.Holds(q, i) || (q in pids && i == id) {
        InLast(pids, q);
        assert after.Holds(q, i) <==> before.Holds(q, i) || (q == pids[k] && i == id);
      }
    }
  }

  lemma {:induction false} UnregisteredPids(r: Registry, pids: seq<string>, id: Id)
    ensures forall q, i :: UnregisterPids(r, pids, id).Holds(q, i) <==> r.Holds(q, i) && !(q in pids && i == id)
  {
    hide Registry.Unregister, Registry.Holds, Registry.Tidy;
    if pids != [] {
      var k := |pids| - 1;
      UnregisteredPids(r, pids[..k], id);
      var before, after := UnregisterPids(r, pids[..k], id), UnregisterPids(r, pids, id);
      assert after == before.Unregister(pids[k], {id});
      forall q, i ensures after.Holds(q, i) <==> r.Holds(q, i) && !(q in pids && i == id) {
        InLast(pids, q);
        assert after.Holds(q, i) <==> before.Holds(q, i) && !(q == pids[k] && i in {id});
      }
    }
  }

  lemma EditedSub(sub: Sub, pids: seq<string>, controller: Option<string>, counts: map<string, Option<nat>>)
    ensures
      var after := Edited(sub, pids, controller, counts);
      && (forall pid :: pid in after.pids <==> pid in sub.pids || pid in pids)
      && (CountedSub(sub) ==> CountedSub(after))
  {
    AddedSub(sub, pids, counts);
  }

  lemma AddKeeps(s: Sched, id: Id, pids: seq<string>, controller: Option<string>, counts: map<string, Option<nat>>,
                 seed: nat)
    requires Inv(s) && AddPids(s, id, pids, controller, counts, seed).Success?
    ensures Inv(AddPids(s, id, pids, controller, counts, seed).value)
  {
    EditedSub(s.subs[id], pids, controller, counts);
    SeededTicks(s.ticks, pids, seed);
    RegisteredAll(s.registry, pids, id, controller);
    hide Registry.Holds, Registry.Tidy, Edited, CountedSub, SeedTicks, RegisterAll, FirstInvalid;
    var after := AddPids(s, id, pids, controller, counts, seed).value;
    forall i | i in after.subs ensures CountedSub(after.subs[i]) && after.subs[i].pids <= after.ticks.Keys {
    }
  }

  lemma RemoveKeeps(s: Sched, id: Id, pids: seq<string>)
    requires Inv(s) && RemovePids(s, id, pids).Success?
    ensures Inv(RemovePids(s, id, pids).value)
  {
    UnregisteredPids(s.registry, pids, id);
    hide Registry.Holds, Registry.Tidy, UnregisterPids;
  }

  lemma CancelKeeps(s: Sched, id: Id)
    requires Inv(s) && Cancel(s, id).Success?
    ensures Inv(Cancel(s, id).value)
  {
    hide Registry.Holds, Registry.Tidy, Registry.UnregisterAll;
  }

  // Operations that leave every subscription's pids and counts alone.
  predicate SameHoldings(s: Sched, t: Sched) {
    && t.registry == s.registry && s.ticks.Keys <= t.ticks.Keys && t.subs.Keys == s.subs.Keys
    && forall id :: id in s.subs ==>
         && t.subs[id].pids == s.subs[id].pids && t.subs[id].runCounts == s.subs[id].runCounts
         && t.subs[id].execCounts == s.subs[id].execCounts
  }

  lemma SameKeeps(s: Sched, t: Sched)
    requires Inv(s) && SameHoldings(s, t)
    ensures Inv(t)
  {
    hide Registry.Holds, Registry.Tidy;
  }

  lemma CompletedSub(sub: Sub, pid: string)
    requires CountedSub(sub)
    ensures CountedSub(CompleteSub(sub, pid)) && CompleteSub(sub, pid).pids <= sub.pids
    ensures forall q :: q in sub.pids && q != pid ==> q in CompleteSub(sub, pid).pids
  {
  }

  lemma CompleteKeeps(s: Sched, sent: string, actual: string)
    requires Inv(s)
    ensures Inv(Complete(s, sent, actual))
  {
    forall id | id in s.subs
      ensures
        var after := CompleteSub(s.subs[id], actual);
        && CountedSub(after) && after.pids <= s.subs[id].pids
        && forall q :: q in s.subs[id].pids && q != actual ==> q in after.pids
    {
      CompletedSub(s.subs[id], actual);
    }
    hide Registry.Holds, Registry.Tidy, Registry.Unregister, CompleteSub, CountedSub;
  }

  // ---------------------------------------------------------------- runs

  datatype Event =
    | Created(id: Id)
    | Added(id: Id, pids: seq<string>, controller: Option<string>, counts: map<string, Option<nat>>, seed: nat)
    | Removed(id: Id, pids: seq<string>)
    | Started(id: Id) | HostPaused(id: Id) | PausedAll | Resumed(ids: set<Id>) | Dismissed(id: Id)
    | Streaming(served: set<string>) | Tiered(id: Id, tiers: Tiers) | Timed(id: Id, timeoutMs: nat) | Reset
    | Picked(pid: string)
    | Done(sent: string, response: Option<string>, reported: Option<Id>)

  /** One operation that succeeds, a pick, or a completion. */
  ghost predicate Step(s: Sched, e: Event, t: Sched) {
    match e
    case Created(id) => id !in s.subs && t == s.(subs := s.subs[id := NEW_SUB])
    case Added(id, pids, controller, counts, seed) =>
      IsSeed(s, seed) && AddPids(s, id, pids, controller, counts, seed) == Success(t)
    case Removed(id, pids) => RemovePids(s, id, pids) == Success(t)
    case Started(id) => t == Start(s, id).0
    case HostPaused(id) => Pause(s, id) == Success(t)
    case PausedAll => t == PauseAll(s)
    case Resumed(ids) => t == ResumeMany(s, ids)
    case Dismissed(id) => Cancel(s, id) == Success(t)
    case Streaming(served) => t == s.(streamed := served)
    case Tiered(id, tiers) => id in s.subs &&
        t == s.(subs := s.subs[id := s.subs[id].(tiers := s.subs[id].tiers + tiers)])
    case Timed(id, ms) => id in s.subs && t == s.(subs := s.subs[id := s.subs[id].(timeoutMs := Some(ms))])
    case Reset => t == s.(inFlight := {})
    case Picked(pid) => (exists found :: Found(s, Some(found)) && found.pid == pid) && Committed(s, pid, t)
    case Done(sent, response, reported) => Marked(Complete(s, sent, ActualPid(sent, response)), reported, t)
  }

  lemma CreateKeeps(s: Sched, id: Id)
    requires Inv(s) && id !in s.subs
    ensures Inv(s.(subs := s.subs[id := NEW_SUB]))
  {
    var t := s.(subs := s.subs[id := NEW_SUB]);
    hide Registry.Holds, Registry.Tidy, CountedSub;
    assert CountedSub(NEW_SUB) by { NewCounted(); }
  }

  lemma NewCounted()
    ensures CountedSub(NEW_SUB)
  {
  }

  lemma StepKeeps(s: Sched, e: Event, t: Sched)
    requires Inv(s) && Step(s, e, t)
    ensures Inv(t)
  {
    hide Inv, AddPids, RemovePids, Complete, SameHoldings, Found, ActualPid, IsSeed;
    match e
    case Created(id) => CreateKeeps(s, id);
    case Added(id, pids, controller, counts, seed) => AddKeeps(s, id, pids, controller, counts, seed);
    case Removed(id, pids) => RemoveKeeps(s, id, pids);
    case Dismissed(id) => CancelKeeps(s, id);
    case Done(sent, response, reported) =>
      CompleteKeeps(s, sent, ActualPid(sent, response));
      var mid := Complete(s, sent, ActualPid(sent, response));
      MarkedSame(mid, reported, t);
      SameKeeps(mid, t);
    case _ =>
      OtherSame(s, e, t);
      SameKeeps(s, t);
  }

  lemma MarkedSame(s: Sched, reported: Option<Id>, t: Sched)
    requires Marked(s, reported, t)
    ensures SameHoldings(s, t)
  {
  }

  lemma StartSame(s: Sched, id: Id)
    ensures SameHoldings(s, Start(s, id).0)
  {
  }

  lemma PauseSame(s: Sched, id: Id)
    ensures Pause(s, id).Success? ==> SameHoldings(s, Pause(s, id).value)
  {
  }

  lemma PauseAllSame(s: Sched)
    ensures SameHoldings(s, PauseAll(s))
  {
  }

  lemma ResumeSame(s: Sched, ids: set<Id>)
    ensures SameHoldings(s, ResumeMany(s, ids))
  {
  }

  lemma PickSame(s: Sched, pid: string, t: Sched)
    requires Committed(s, pid, t)
    ensures SameHoldings(s, t)
  {
    hide DivisorOf;
  }

  lemma OtherSame(s: Sched, e: Event, t: Sched)
    requires Step(s, e, t) && !e.Created? && !e.Added? && !e.Removed? && !e.Dismissed? && !e.Done?
    ensures SameHoldings(s, t)
  {
    hide AddPids, RemovePids, Complete, Found, ActualPid, IsSeed, Committed, Start, Pause, PauseAll, ResumeMany;
    match e
    case Started(id) => StartSame(s, id);
    case HostPaused(id) => PauseSame(s, id);
    case PausedAll => PauseAllSame(s);
    case Resumed(ids) => ResumeSame(s, ids);
    case Picked(pid) => PickSame(s, pid, t);
    case _ =>
  }

  ghost predicate Run(events: seq<Event>, t: Sched) {
    if events == [] then t == EMPTY
    else
      var k := |events| - 1;
      exists s :: Run(events[..k], s) && Step(s, events[k], t)
  }

  /**
   After any sequence of operations, picks and completions: a pid is in the registry with a subscription
   exactly when that subscription holds it, no entry is empty, controllers are kept only for held pids,
   every held pid has a tick, and every pid still held has run fewer times than its limit.
   */
  lemma {:induction false} RunInvariant(events: seq<Event>, t: Sched)
    requires Run(events, t)
    ensures Inv(t)
  {
    if events == [] {
      hide Registry.Holds;
      NothingHeld();
    } else {
      var k := |events| - 1;
      var s :| Run(events[..k], s) && Step(s, events[k], t);
      RunInvariant(events[..k], s);
      StepKeeps(s, events[k], t);
    }
  }

  lemma NothingHeld()
    ensures Inv(EMPTY)
  {
  }

  // ---------------------------------------------------------------- eligibility

  /**
   A waiting pid is eligible for some holder the scan may find first exactly when an active subscription
   holds it with no run limit or a positive one. A limit of zero is never polled for its own subscription.
   */
  lemma EligibleExact(s: Sched, pid: string)
    requires Inv(s) && Waiting(s, pid)
    ensures (exists id :: EligibleBy(s, pid, id))
            <==> exists id :: Owns(s, id, pid) && s.subs[id].runCounts[pid] != Some(0)
  {
    hide Coherent;
    forall id | Owns(s, id, pid)
      ensures pid in s.subs[id].runCounts && (RunLimitReached(s.subs[id], pid) <==>
                                              s.subs[id].runCounts[pid] == Some(0))
    {
      assert CountedSub(s.subs[id]);
    }
    if id :| EligibleBy(s, pid, id) {
      assert Owns(s, id, pid);
    }
    if id :| Owns(s, id, pid) && s.subs[id].runCounts[pid] != Some(0) {
      assert EligibleBy(s, pid, id);
    }
  }

  /** With positive limits throughout, every waiting pid of an active subscription is surely eligible. */
  lemma EligibleWhenLimited(s: Sched, pid: string, id: Id)
    requires Inv(s) && Waiting(s, pid) && Owns(s, id, pid)
    requires forall i :: Owns(s, i, pid) ==> pid in s.subs[i].runCounts && s.subs[i].runCounts[pid] != Some(0)
    ensures SurelyEligible(s, pid)
  {
    hide Coherent;
    forall i | Owns(s, i, pid) ensures !RunLimitReached(s.subs[i], pid) {
      assert CountedSub(s.subs[i]);
    }
  }

  // ---------------------------------------------------------------- run-count accounting

  function LeftOf(sub: Sub, pid: string): nat {
    if pid in sub.pids && pid in sub.runCounts && pid in sub.execCounts && sub.runCounts[pid].Some?
       && sub.execCounts[pid] < sub.runCounts[pid].value
    then sub.runCounts[pid].value - sub.execCounts[pid]
    else 0
  }

  /** Runs a subscription's limited pids still have to make. */
  ghost function Remaining(sub: Sub): nat {
    Sum(sub.pids, pid => LeftOf(sub, pid))
  }

  /**
   A completion takes exactly one run off every active subscription that holds the pid with a positive
   limit, and nothing off any other. The pid leaves exactly at its last run.
   */
  lemma CompletionAccounted(sub: Sub, pid: string)
    requires CountedSub(sub)
    ensures
      var counted := pid in sub.pids && sub.state == Active && sub.runCounts[pid].Some? &&
        sub.runCounts[pid].value >= 1;
      && Remaining(CompleteSub(sub, pid)) == Remaining(sub) - (if counted then 1 else 0)
      && (counted ==> (pid !in CompleteSub(sub, pid).pids <==> LeftOf(sub, pid) == 1))
    ensures
      var after := CompleteSub(sub, pid);
      pid in sub.pids && pid !in after.pids ==> pid !in after.runCounts && pid !in after.execCounts
  {
    var after := CompleteSub(sub, pid);
    if pid in sub.pids && sub.state == Active {
      var f, g := q => LeftOf(sub, q), q => LeftOf(after, q);
      forall q | q in sub.pids && q != pid ensures LeftOf(after, q) == LeftOf(sub, q) {
      }
      hide CompleteSub, CountedSub;
      SumAt(sub.pids, f, g, pid);
      LastRun(sub, pid);
      if pid !in after.pids {
        SumRemove(sub.pids, g, pid);
      }
    }
  }

  // The pid itself: one run fewer left, and gone at the last one.
  lemma LastRun(sub: Sub, pid: string)
    requires CountedSub(sub) && pid in sub.pids && sub.state == Active
    ensures
      var after := CompleteSub(sub, pid);
      var limited := sub.runCounts[pid].Some? && sub.runCounts[pid].value >= 1;
      && LeftOf(sub, pid) == LeftOf(after, pid) + (if limited then 1 else 0)
      && after.pids == (if pid in after.pids then sub.pids else sub.pids - {pid})
      && (limited ==> (pid !in after.pids <==> LeftOf(sub, pid) == 1))
  {
  }

  // What a completion does to one subscription's standing.
  lemma CompletedStanding(sub: Sub, pid: string)
    ensures
      var after := CompleteSub(sub, pid);
      && after.state == sub.state && after.runOnceOnly == sub.runOnceOnly
      && sub.pids - {pid} <= after.pids <= sub.pids
      && (pid in sub.pids && pid !in after.pids ==> after.pids == sub.pids - {pid})
  {
  }

  lemma NoPidsNotHeld(s: Sched, id: Id)
    requires Inv(s) && id in s.subs && s.subs[id].pids == {}
    ensures forall pid :: !s.registry.Holds(pid, id)
  {
    hide Registry.Holds, Registry.Tidy;
  }

  lemma CompletedAll(s: Sched, sent: string, actual: string, id: Id)
    requires id in s.subs
    ensures
      var mid := Complete(s, sent, actual);
      && id in mid.subs && mid.subs[id] == CompleteSub(s.subs[id], actual)
      && mid.subs[id].state == s.subs[id].state && mid.subs[id].runOnceOnly == s.subs[id].runOnceOnly
      && (mid.subs[id].pids == {} ==> s.subs[id].pids == {} || s.subs[id].pids == {actual})
  {
    CompletedStanding(s.subs[id], actual);
    hide CompleteSub;
  }

  // The reported subscription.
  lemma ReportedOne(s: Sched, sent: string, actual: string, id: Id, t: Sched)
    requires Marked(Complete(s, sent, actual), Some(id), t)
    ensures id in s.subs && s.subs[id].runOnceOnly && s.subs[id].state == Active
    ensures s.subs[id].pids == {} || s.subs[id].pids == {actual}
    ensures id in t.subs && t.subs[id].state == Completed && t.subs[id].pids == {}
  {
    assert id in s.subs;
    CompletedAll(s, sent, actual, id);
    hide CompleteSub, Registry.Unregister;
  }

  // Everyone else.
  lemma OthersStand(s: Sched, sent: string, actual: string, reported: Option<Id>, t: Sched, id: Id)
    requires Marked(Complete(s, sent, actual), reported, t) && id in s.subs
    ensures id in t.subs && (Some(id) != reported ==>
                             t.subs[id] == CompleteSub(s.subs[id], actual) && t.subs[id].state == s.subs[id].state)
  {
    CompletedAll(s, sent, actual, id);
    hide CompleteSub, Registry.Unregister, Complete;
  }

  lemma NoneReported(s: Sched, t: Sched, id: Id)
    requires Marked(s, None, t) && id in t.subs && t.subs[id].runOnceOnly && t.subs[id].state == Active
    ensures t.subs[id].pids != {}
  {
    assert id !in AllEmptied(s);
  }

  /**
   In every run, what a completion reports: nothing unless some active run-once subscription holds no pid
   any more, and then one of these. The one reported was already empty or has lost exactly the completed
   pid, is registered for nothing, and is the only one whose state changes.
   */
  lemma ReportedOnce(events: seq<Event>, s: Sched, sent: string, response: Option<string>, reported: Option<Id>,
                     t: Sched)
    requires Run(events, s) && Step(s, Done(sent, response, reported), t)
    ensures reported.Some? ==>
              var id := reported.value;
              && id in s.subs && s.subs[id].runOnceOnly && s.subs[id].state == Active
              && (s.subs[id].pids == {} || s.subs[id].pids == {ActualPid(sent, response)})
              && id in t.subs && t.subs[id].state == Completed && t.subs[id].pids == {}
              && forall pid :: !t.registry.Holds(pid, id)
    ensures reported.None? ==> forall id :: id in t.subs && t.subs[id].runOnceOnly && t.subs[id].state == Active ==>
            t.subs[id].pids != {}
    ensures forall id :: id in s.subs && Some(id) != reported ==> id in t.subs && t.subs[id].state == s.subs[id].state
  {
    hide Run, Complete, ActualPid, Inv, Registry.Holds, Marked, CompleteSub;
    RunInvariant(events, s);
    var actual := ActualPid(sent, response);
    assert Marked(Complete(s, sent, actual), reported, t);
    StepKeeps(s, Done(sent, response, reported), t);
    forall id | id in s.subs && Some(id) != reported ensures id in t.subs && t.subs[id].state == s.subs[id].state {
      OthersStand(s, sent, actual, reported, t, id);
    }
    match reported
    case Some(id) =>
      ReportedOne(s, sent, actual, id, t);
      NoPidsNotHeld(t, id);
    case None =>
      forall id | id in t.subs && t.subs[id].runOnceOnly && t.subs[id].state == Active ensures t.subs[id].pids != {} {
        NoneReported(Complete(s, sent, actual), t, id);
      }
  }

  /** Simultaneous completions are reported one per call: as many calls as there are emptied subscriptions. */
  lemma OneReportPerCall(s: Sched, reported: Option<Id>, t: Sched)
    requires Marked(s, reported, t)
    ensures reported.Some? <==> AllEmptied(s) != {}
    ensures |AllEmptied(t)| == |AllEmptied(s)| - (if reported.Some? then 1 else 0)
  {
    match reported
    case Some(id) => assert AllEmptied(t) == AllEmptied(s) - {id};
    case None =>
  }
}
