/** One exchange of the subscription manager takes exactly the pids due, so exchanges are sweeps of the tier clock. */
module SweepFairness {
  import opened Wrappers
  import opened Text
  import opened PidRegistry
  import opened Acquisition
  import opened Subscriptions
  import opened SchedulerRuns
  import opened FairShare
  import opened ManagerFairness
  import opened Sums

  ghost function PidsOf(picks: seq<Due>): set<string> {
    set i | 0 <= i < |picks| :: picks[i].pid
  }

  // `taken` on the wire, each advanced by its divisor.
  ghost function Advanced(s: Sched, divisors: map<string, nat>, taken: set<string>): Sched {
    s.(inFlight := taken,
       ticks := map pid | pid in s.ticks :: if pid in taken && pid in divisors then s.ticks[pid] + divisors[pid]
           else s.ticks[pid])
  }

  lemma AdvancedCalm(s: Sched, divisors: map<string, nat>, taken: set<string>)
    requires Steady(s, divisors) && taken <= HeldPids(s)
    ensures Calm(Advanced(s, divisors, taken), divisors) && HeldPids(Advanced(s, divisors, taken)) == HeldPids(s)
    ensures forall pid :: pid in HeldPids(s) ==> pid in s.ticks && pid in divisors
    ensures forall pid :: pid in HeldPids(s) ==>
              Advanced(s, divisors, taken).Tick(pid) == s.Tick(pid) + if pid in taken then divisors[pid] else 0
  {
    SteadyCalm(s, divisors);
    TickedCalm(s, divisors, Advanced(s, divisors, taken));
    forall pid | pid in HeldPids(s) ensures pid in s.ticks && pid in divisors {
      HeldBy(s, pid);
      var id :| id in s.subs && pid in s.subs[id].pids;
      assert SteadyPid(s.subs[id], divisors, pid);
    }
    hide Calm, Steady, HeldPids;
  }

  /** What a run of picks from a steady state amounts to: distinct pids, all at the least tick. */
  lemma {:induction false} InTurn(s: Sched, divisors: map<string, nat>, admission: Admission, picks: seq<Due>, t: Sched)
    requires Steady(s, divisors) && PickedInTurn(s, admission, picks, t)
    ensures |PidsOf(picks)| == |picks| && PidsOf(picks) <= HeldPids(s) && t == Advanced(s, divisors, PidsOf(picks))
    ensures forall i :: 0 <= i < |picks| ==>
              && Least(Polled(s), picks[i].pid) && picks[i].tick == s.Tick(picks[i].pid)
              && picks[i].controller == s.registry.ControllerOf(picks[i].pid)
  {
    hide Steady, Calm, HeldPids, Found, Committed, Polled, Advanced, PidsOf, Joins, Least;
    if picks == [] {
      AdvancedNone(s, divisors);
    } else {
      var k := |picks| - 1;
      var mid :| PickedInTurn(s, admission, picks[..k], mid) && Found(mid, Some(picks[k])) &&
        Committed(mid, picks[k].pid, t);
      InTurn(s, divisors, admission, picks[..k], mid);
      InTurnStep(s, divisors, admission, picks, mid, t);
      forall i | 0 <= i < k
        ensures Least(Polled(s), picks[i].pid) && picks[i].tick == s.Tick(picks[i].pid)
        ensures picks[i].controller == s.registry.ControllerOf(picks[i].pid)
      {
        assert picks[..k][i] == picks[i];
      }
    }
  }

  // The next pick is a held pid not taken yet.
  lemma InTurnNew(s: Sched, divisors: map<string, nat>, picks: seq<Due>, mid: Sched)
    requires Steady(s, divisors) && picks != []
    requires
      var k := |picks| - 1;
      var before := PidsOf(picks[..k]);
      && before <= HeldPids(s) && mid == Advanced(s, divisors, before) && Found(mid, Some(picks[k]))
    ensures
      var k := |picks| - 1;
      var before, pid := PidsOf(picks[..k]), picks[k].pid;
      && Calm(mid, divisors) && HeldPids(mid) == HeldPids(s) && pid in HeldPids(s) && pid !in before
      && PidsOf(picks) == before + {pid} && picks[k].tick == s.Tick(pid)
      && picks[k].controller == s.registry.ControllerOf(pid)
      && forall q :: q in HeldPids(s) && q !in before ==> picks[k].tick <= mid.Tick(q)
  {
    var k := |picks| - 1;
    PidsLast(picks);
    AdvancedCalm(s, divisors, PidsOf(picks[..k]));
    AdvancedParts(s, divisors, PidsOf(picks[..k]));
    hide Steady, Calm, HeldPids, Found, Advanced, PidsOf;
    FoundLeast(mid, divisors, picks[k]);
  }

  lemma InTurnStep(s: Sched, divisors: map<string, nat>, admission: Admission, picks: seq<Due>, mid: Sched, t: Sched)
    requires Steady(s, divisors) && picks != []
    requires
      var k := |picks| - 1;
      var before := PidsOf(picks[..k]);
      && before <= HeldPids(s) && mid == Advanced(s, divisors, before) && Found(mid, Some(picks[k]))
    requires |PidsOf(picks[..|picks| - 1])| == |picks| - 1 && Joins(admission, picks[..|picks| - 1], picks[|picks| - 1])
    requires Committed(mid, picks[|picks| - 1].pid, t)
    requires |picks| > 1 ==> Least(Polled(s), picks[0].pid) && picks[0].tick == s.Tick(picks[0].pid)
    ensures |PidsOf(picks)| == |picks| && PidsOf(picks) <= HeldPids(s) && t == Advanced(s, divisors, PidsOf(picks))
    ensures
      var last := picks[|picks| - 1];
      && Least(Polled(s), last.pid) && last.tick == s.Tick(last.pid) &&
         last.controller == s.registry.ControllerOf(last.pid)
  {
    hide Steady, Calm, HeldPids, Found, Committed, Polled, Advanced, PidsOf, Least, Admits;
    var k := |picks| - 1;
    var before := PidsOf(picks[..k]);
    InTurnNew(s, divisors, picks, mid);
    AdvancedCalm(s, divisors, before);
    CommitCalm(mid, divisors, picks[k].pid, t);
    AdvancedMore(s, divisors, before, picks[k].pid, t);
    NextLeast(s, divisors, before, picks, k);
  }

  lemma PidsLast(picks: seq<Due>)
    requires picks != []
    ensures PidsOf(picks) == PidsOf(picks[..|picks| - 1]) + {picks[|picks| - 1].pid}
  {
    var k := |picks| - 1;
    forall pid ensures pid in PidsOf(picks) <==> pid in PidsOf(picks[..k]) || pid == picks[k].pid {
      if pid in PidsOf(picks[..k]) {
        var i :| 0 <= i < k && picks[..k][i].pid == pid;
        assert picks[i].pid == pid;
      }
      if pid in PidsOf(picks) {
        var i :| 0 <= i < |picks| && picks[i].pid == pid;
        if i < k { assert picks[..k][i].pid == pid; }
      }
    }
  }

  lemma AdvancedNone(s: Sched, divisors: map<string, nat>)
    requires Steady(s, divisors)
    ensures Advanced(s, divisors, {}) == s && PidsOf([]) == {}
  {
    assert s.inFlight == {};
    hide Steady;
    assert Advanced(s, divisors, {}).ticks == s.ticks;
  }

  lemma AdvancedMore(s: Sched, divisors: map<string, nat>, before: set<string>, pid: string, t: Sched)
    requires pid in s.ticks && pid in divisors && pid !in before
    requires
      var mid := Advanced(s, divisors, before);
      t == mid.(ticks := mid.ticks[pid := mid.Tick(pid) + divisors[pid]], inFlight := mid.inFlight + {pid})
    ensures t == Advanced(s, divisors, before + {pid})
  {
    assert t.ticks == Advanced(s, divisors, before + {pid}).ticks;
  }

  lemma NextLeast(s: Sched, divisors: map<string, nat>, before: set<string>, picks: seq<Due>, k: nat)
    requires Steady(s, divisors) && k < |picks| && before == PidsOf(picks[..k]) && before <= HeldPids(s)
    requires picks[k].pid in HeldPids(s) && picks[k].pid !in before && picks[k].tick == s.Tick(picks[k].pid)
    requires forall q :: q in HeldPids(s) && q !in before ==> picks[k].tick <= Advanced(s, divisors, before).Tick(q)
    requires k > 0 ==>
             picks[k].tick <= picks[0].tick && Least(Polled(s), picks[0].pid) && picks[0].tick == s.Tick(picks[0].pid)
    ensures Least(Polled(s), picks[k].pid)
  {
    AdvancedCalm(s, divisors, before);
    hide Steady, Calm, HeldPids, Advanced;
    if k == 0 {
      assert before == {};
    }
  }

  // ---------------------------------------------------------------- any exchange

  // What picking leaves alone, from any state.
  lemma {:induction false} InTurnFrame(s: Sched, admission: Admission, picks: seq<Due>, t: Sched)
    requires PickedInTurn(s, admission, picks, t)
    ensures t.subs == s.subs && t.registry == s.registry && t.streamed == s.streamed
    ensures t.inFlight == s.inFlight + PidsOf(picks) && forall q :: q !in PidsOf(picks) ==> t.Tick(q) == s.Tick(q)
  {
    hide Found, DivisorOf, Joins;
    if picks == [] {
      assert PidsOf([]) == {};
    } else {
      var k := |picks| - 1;
      var mid :| PickedInTurn(s, admission, picks[..k], mid) && Found(mid, Some(picks[k])) &&
        Committed(mid, picks[k].pid, t);
      InTurnFrame(s, admission, picks[..k], mid);
      PidsLast(picks);
      hide PidsOf;
    }
  }

  // What is found after some picks was eligible before them, and is none of them.
  lemma FoundEarlier(s: Sched, taken: set<string>, mid: Sched, found: Due)
    requires mid.subs == s.subs && mid.registry == s.registry && mid.streamed == s.streamed
    requires mid.inFlight == s.inFlight + taken && forall q :: q !in taken ==> mid.Tick(q) == s.Tick(q)
    requires Found(mid, Some(found))
    ensures found.pid !in taken && (exists id :: EligibleBy(s, found.pid, id))
    ensures found.tick == s.Tick(found.pid) && found.controller == s.registry.ControllerOf(found.pid)
  {
    hide RunLimitReached, SurelyEligible;
    var id :| EligibleBy(mid, found.pid, id);
    assert EligibleBy(s, found.pid, id);
  }

  // One pick beside the first: eligible, of the same target, and no later.
  ghost predicate Beside(s: Sched, first: Due, d: Due) {
    && d.controller == first.controller && d.tick == s.Tick(d.pid) && d.tick <= first.tick
    && exists id :: EligibleBy(s, d.pid, id)
  }

  // What a run of picks from any state amounts to.
  ghost predicate Shaped(s: Sched, admission: Admission, picks: seq<Due>) {
    && |PidsOf(picks)| == |picks|
    && (|picks| > 1 ==> Fits(admission, DuePicks(picks)))
    && forall i :: 0 <= i < |picks| ==> Beside(s, picks[0], picks[i])
  }

  lemma ShapedMore(s: Sched, admission: Admission, picks: seq<Due>)
    requires picks != [] && Shaped(s, admission, picks[..|picks| - 1])
    requires
      var k := |picks| - 1;
      && picks[k].pid !in PidsOf(picks[..k]) && picks[k].tick == s.Tick(picks[k].pid)
      && (exists id :: EligibleBy(s, picks[k].pid, id)) && Joins(admission, picks[..k], picks[k])
    ensures Shaped(s, admission, picks)
  {
    hide Admits, Fits, EligibleBy, PidsOf, DuePicks;
    var k := |picks| - 1;
    PidsLast(picks);
    if k > 0 { LastFits(admission, picks); }
    assert Beside(s, picks[0], picks[k]);
    hide Beside, Joins;
    forall i | 0 <= i < |picks| ensures Beside(s, picks[0], picks[i]) {
      if i < k { assert Beside(s, picks[..k][0], picks[..k][i]); }
    }
  }

  lemma {:induction false} InTurnShaped(s: Sched, admission: Admission, picks: seq<Due>, t: Sched)
    requires PickedInTurn(s, admission, picks, t)
    ensures Shaped(s, admission, picks)
  {
    hide Found, Committed, Shaped, PidsOf, EligibleBy;
    if picks == [] {
      NothingShaped(s, admission);
    } else {
      var k := |picks| - 1;
      var mid :| PickedInTurn(s, admission, picks[..k], mid) && Found(mid, Some(picks[k])) &&
        Committed(mid, picks[k].pid, t);
      InTurnShaped(s, admission, picks[..k], mid);
      InTurnFrame(s, admission, picks[..k], mid);
      FoundEarlier(s, PidsOf(picks[..k]), mid, picks[k]);
      ShapedMore(s, admission, picks);
    }
  }

  lemma NothingShaped(s: Sched, admission: Admission)
    ensures Shaped(s, admission, [])
  {
    assert PidsOf([]) == {};
  }

  /** Every run limit is positive. */
  ghost predicate Limited(s: Sched) {
    forall id, pid :: id in s.subs && pid in s.subs[id].pids && pid in s.subs[id].runCounts ==>
        s.subs[id].runCounts[pid] != Some(0)
  }

  lemma {:induction false} FirstLeast(s: Sched, admission: Admission, picks: seq<Due>, t: Sched, q: string)
    requires picks != [] && PickedInTurn(s, admission, picks, t) && SurelyEligible(s, q)
    ensures picks[0].tick <= s.Tick(q)
  {
    hide Committed, SurelyEligible, EligibleBy, Joins;
    var k := |picks| - 1;
    var mid :| PickedInTurn(s, admission, picks[..k], mid) && Found(mid, Some(picks[k])) &&
      Committed(mid, picks[k].pid, t);
    if k > 0 { FirstLeast(s, admission, picks[..k], mid, q); }
  }

  /**
   Every exchange, from any reachable state: its picks are different pids of one target that together fit
   the admission, and with positive run limits all of them sit at the least tick any eligible pid has.
   */
  lemma ExchangeUniform(s: Sched, admission: Admission, picks: seq<Due>, t: Sched, i: nat)
    requires Inv(s) && PickedInTurn(s, admission, picks, t) && i < |picks|
    ensures |PidsOf(picks)| == |picks| && (|picks| > 1 ==> Fits(admission, DuePicks(picks)))
    ensures picks[i].controller == picks[0].controller && picks[i].tick == s.Tick(picks[i].pid)
    ensures forall q :: SurelyEligible(s, q) ==> picks[i].tick <= s.Tick(q)
    ensures Limited(s) ==> SurelyEligible(s, picks[i].pid) && picks[i].tick == picks[0].tick
  {
    InTurnShaped(s, admission, picks, t);
    assert Beside(s, picks[0], picks[i]) && Beside(s, picks[0], picks[0]);
    forall q | SurelyEligible(s, q) ensures picks[0].tick <= s.Tick(q) { FirstLeast(s, admission, picks, t, q); }
    hide PickedInTurn, Inv, PidsOf, Fits, SurelyEligible;
    if Limited(s) {
      var id :| EligibleBy(s, picks[i].pid, id);
      EligibleWhenLimited(s, picks[i].pid, id);
    }
  }

  lemma LastFits(admission: Admission, picks: seq<Due>)
    requires |picks| > 1 && Joins(admission, picks[..|picks| - 1], picks[|picks| - 1])
    ensures Fits(admission, DuePicks(picks))
    ensures picks[|picks| - 1].controller == picks[0].controller && picks[|picks| - 1].tick <= picks[0].tick
  {
    var k := |picks| - 1;
    assert DuePicks(picks[..k]) + [DuePickOf(picks[k])] == DuePicks(picks);
    hide Fits;
  }

  // ---------------------------------------------------------------- exchanges with room for everything

  /** With room and one target, an exchange takes all the pids due and no other. */
  ghost predicate Roomy(s: Sched, max: nat, admission: Admission) {
    && max >= |HeldPids(s)|
    && (forall p, q :: p in HeldPids(s) && q in HeldPids(s) ==>
        s.registry.ControllerOf(p) == s.registry.ControllerOf(q))
    && forall due: seq<DuePick> ::
         (forall i :: 0 <= i < |due| ==>
          due[i].pid in HeldPids(s) && due[i].controller == s.registry.ControllerOf(due[i].pid))
         && (forall i, j :: 0 <= i < j < |due| ==> due[i].pid != due[j].pid)
         ==> Fits(admission, due)
  }

  lemma {:induction false} DistinctPids(picks: seq<Due>, i: nat, j: nat)
    requires |PidsOf(picks)| == |picks| && i < j < |picks|
    ensures picks[i].pid != picks[j].pid
  {
    PidsBound(picks);
    var k := |picks| - 1;
    PidsLast(picks);
    PidsBound(picks[..k]);
    NoGrowth(PidsOf(picks[..k]), picks[k].pid);
    if j < k {
      DistinctPids(picks[..k], i, j);
    } else {
      assert picks[..k][i].pid in PidsOf(picks[..k]);
    }
  }

  lemma NoGrowth(pids: set<string>, pid: string)
    ensures pid in pids ==> pids + {pid} == pids
  {
  }

  lemma {:induction false} PidsBound(picks: seq<Due>)
    ensures |PidsOf(picks)| <= |picks|
  {
    if picks != [] {
      PidsLast(picks);
      PidsBound(picks[..|picks| - 1]);
    }
  }

  // What stays behind is later than what was taken.
  lemma StoppedLater(s: Sched, divisors: map<string, nat>, max: nat, admission: Admission, picks: seq<Due>, t: Sched,
                     pid: string)
    requires Steady(s, divisors) && Roomy(s, max, admission) && Exchange(s, max, admission, picks, t)
    requires pid in HeldPids(s) && pid !in PidsOf(picks)
    ensures !Least(Polled(s), pid)
  {
    InTurn(s, divisors, admission, picks, t);
    var taken := PidsOf(picks);
    AdvancedCalm(s, divisors, taken);
    assert |taken| < |HeldPids(s)| by { ProperSubset(taken, HeldPids(s), pid); }
    hide Steady, Calm, HeldPids, Found, Polled, PickedInTurn, Joins, Advanced, PidsOf;
    CalmEligible(t, divisors, pid);
    assert !Found(t, None) by { NotNone(t, pid); }
    var due :| Found(t, Some(due)) && !Joins(admission, picks, due);
    FoundLeast(t, divisors, due);
    RefusedLater(s, max, admission, picks, due);
    assert picks[0].tick < due.tick <= t.Tick(pid) == s.Tick(pid);
    LaterNotLeast(s, picks[0].pid, pid);
  }

  lemma ProperSubset(part: set<string>, whole: set<string>, x: string)
    requires part <= whole && x in whole && x !in part
    ensures |part| < |whole|
  {
    SubsetSize(part, whole - {x});
  }

  lemma {:induction false} SubsetSize(part: set<string>, whole: set<string>)
    requires part <= whole
    ensures |part| <= |whole|
    decreases |part|
  {
    if part != {} {
      var x :| x in part;
      SubsetSize(part - {x}, whole - {x});
    }
  }

  lemma NotNone(s: Sched, pid: string)
    requires SurelyEligible(s, pid)
    ensures !Found(s, None)
  {
  }

  // Only a later tick keeps a found pid out of a roomy exchange.
  lemma RefusedLater(s: Sched, max: nat, admission: Admission, picks: seq<Due>, due: Due)
    requires Roomy(s, max, admission) && !Joins(admission, picks, due)
    requires |PidsOf(picks)| == |picks| && PidsOf(picks) <= HeldPids(s) && due.pid in HeldPids(s) &&
             due.pid !in PidsOf(picks)
    requires due.controller == s.registry.ControllerOf(due.pid)
    requires forall i :: 0 <= i < |picks| ==> picks[i].controller == s.registry.ControllerOf(picks[i].pid)
    ensures picks != [] && due.tick > picks[0].tick
  {
    hide HeldPids, Fits;
    assert picks != [];
    assert picks[0].pid in PidsOf(picks);
    var all := DuePicks(picks) + [DuePickOf(due)];
    forall i | 0 <= i < |all|
      ensures all[i].pid in HeldPids(s) && all[i].controller == s.registry.ControllerOf(all[i].pid)
    {
      if i < |picks| { assert picks[i].pid in PidsOf(picks); }
    }
    forall i, j | 0 <= i < j < |all| ensures all[i].pid != all[j].pid {
      assert picks[i].pid in PidsOf(picks);
      if j < |picks| { DistinctPids(picks, i, j); }
    }
    assert Fits(admission, all);
  }

  lemma LaterNotLeast(s: Sched, first: string, pid: string)
    requires Least(Polled(s), first) && pid in HeldPids(s) && s.Tick(first) < s.Tick(pid)
    ensures !Least(Polled(s), pid)
  {
    hide HeldPids;
  }

  lemma ExchangeTakesDue(s: Sched, divisors: map<string, nat>, max: nat, admission: Admission, picks: seq<Due>,
                         t: Sched)
    requires Steady(s, divisors) && Roomy(s, max, admission) && Exchange(s, max, admission, picks, t)
    ensures forall pid :: pid in PidsOf(picks) <==> Least(Polled(s), pid)
  {
    InTurn(s, divisors, admission, picks, t);
    forall pid ensures pid in PidsOf(picks) <==> Least(Polled(s), pid) {
      if Least(Polled(s), pid) && pid !in PidsOf(picks) {
        LeastHeld(s, pid);
        StoppedLater(s, divisors, max, admission, picks, t, pid);
      }
    }
  }

  // ---------------------------------------------------------------- completing the exchange

  ghost predicate CompletedAll(s: Sched, sent: seq<string>, t: Sched) {
    if sent == [] then t == s
    else
      var k := |sent| - 1;
      exists mid, response, reported ::
        CompletedAll(s, sent[..k], mid) && Marked(Complete(mid, sent[k], ActualPid(sent[k], response)), reported, t)
  }

  lemma {:induction false} CompletedCalm(s: Sched, divisors: map<string, nat>, sent: seq<string>, t: Sched)
    requires Calm(s, divisors) && CompletedAll(s, sent, t)
    ensures Calm(t, divisors) && HeldPids(t) == HeldPids(s) && t.ticks == s.ticks
    ensures t.registry.controllers == s.registry.controllers
    ensures t.inFlight == s.inFlight - (set i | 0 <= i < |sent| :: sent[i])
  {
    hide Calm, HeldPids, Marked, Complete, ActualPid;
    if sent != [] {
      var k := |sent| - 1;
      var mid, response, reported :|
        CompletedAll(s, sent[..k], mid) && Marked(Complete(mid, sent[k], ActualPid(sent[k], response)), reported, t);
      CompletedCalm(s, divisors, sent[..k], mid);
      DoneCalm(mid, divisors, sent[k], ActualPid(sent[k], response), reported, t);
      assert sent == sent[..k] + [sent[k]];
      assert forall p :: p in sent <==> p in sent[..k] || p == sent[k];
    }
  }

  /** One sweep of the manager: an exchange, all of whose picks complete, in any order and with any replies. */
  ghost predicate SweptOnce(s: Sched, max: nat, admission: Admission, due: set<string>, t: Sched) {
    exists picks, mid, sent ::
      && Exchange(s, max, admission, picks, mid) && due == PidsOf(picks)
      && (forall pid :: pid in sent <==> pid in due) && CompletedAll(mid, sent, t)
  }

  lemma SweptSteady(s: Sched, divisors: map<string, nat>, max: nat, admission: Admission, due: set<string>, t: Sched)
    requires Steady(s, divisors) && Roomy(s, max, admission) && SweptOnce(s, max, admission, due, t)
    ensures Steady(t, divisors) && Roomy(t, max, admission) && Divisors(Polled(s), divisors)
    ensures Sweep(Polled(s), divisors, due, Polled(t)) && Polled(t).Keys == Polled(s).Keys
  {
    var picks, mid, sent :|
      && Exchange(s, max, admission, picks, mid) && due == PidsOf(picks)
      && (forall pid :: pid in sent <==> pid in due) && CompletedAll(mid, sent, t);
    hide Steady, Calm, HeldPids, Polled, Roomy, SweptOnce, Advanced, PickedInTurn, Found, Joins, CompletedAll, PidsOf;
    InTurn(s, divisors, admission, picks, mid);
    ExchangeTakesDue(s, divisors, max, admission, picks, mid);
    AdvancedCalm(s, divisors, due);
    CompletedCalm(mid, divisors, sent, t);
    SteadyDivisors(s, divisors);
    assert mid.inFlight == due && mid.registry == s.registry by { AdvancedParts(s, divisors, due); }
    assert t.inFlight == {} by { assert forall pid :: pid in t.inFlight ==> pid in due && pid in sent; }
    CalmSteady(t, divisors);
    RoomyStill(s, max, admission, t);
    SweepAfter(s, divisors, due, mid, t);
  }

  lemma AdvancedParts(s: Sched, divisors: map<string, nat>, taken: set<string>)
    ensures Advanced(s, divisors, taken).inFlight == taken && Advanced(s, divisors, taken).registry == s.registry
  {
  }

  lemma RoomyStill(s: Sched, max: nat, admission: Admission, t: Sched)
    requires Roomy(s, max, admission) && HeldPids(t) == HeldPids(s) && t.registry.controllers == s.registry.controllers
    ensures Roomy(t, max, admission)
  {
    hide HeldPids, Fits;
  }

  lemma SweepAfter(s: Sched, divisors: map<string, nat>, due: set<string>, mid: Sched, t: Sched)
    requires Divisors(Polled(s), divisors) && HeldPids(t) == HeldPids(s) && t.ticks == mid.ticks
    requires forall pid :: pid in due <==> Least(Polled(s), pid)
    requires forall pid :: pid in HeldPids(s) ==> pid in divisors && mid.Tick(pid) == s.Tick(pid) + if pid in due
             then divisors[pid] else 0
    ensures Sweep(Polled(s), divisors, due, Polled(t)) && Polled(t).Keys == Polled(s).Keys
  {
    hide HeldPids, Least;
  }

  ghost predicate SweepRun(s: Sched, max: nat, admission: Admission, dues: seq<set<string>>, t: Sched) {
    if dues == [] then t == s
    else
      var k := |dues| - 1;
      exists mid :: SweepRun(s, max, admission, dues[..k], mid) && SweptOnce(mid, max, admission, dues[k], t)
  }

  lemma {:induction false} SweepRunSweeps(s: Sched, divisors: map<string, nat>, max: nat, admission: Admission,
                                          dues: seq<set<string>>, t: Sched)
    requires Steady(s, divisors) && Roomy(s, max, admission) && SweepRun(s, max, admission, dues, t)
    ensures Divisors(Polled(s), divisors) && Steady(t, divisors) && Roomy(t, max, admission)
    ensures Sweeps(Polled(s), divisors, dues, Polled(t)) && Polled(t).Keys == Polled(s).Keys
  {
    SteadyDivisors(s, divisors);
    hide Steady, Roomy, SweptOnce, Polled, Sweep;
    if dues != [] {
      var k := |dues| - 1;
      var mid :| SweepRun(s, max, admission, dues[..k], mid) && SweptOnce(mid, max, admission, dues[k], t);
      SweepRunSweeps(s, divisors, max, admission, dues[..k], mid);
      SweptSteady(mid, divisors, max, admission, dues[k], t);
    }
  }

  /**
   Tier ratios on the wire: with a Fast pid, equal start ticks, one target and room for everything, N
   exchanges poll a pid of divisor d exactly ceil(N / d) times, whatever order ties and completions take.
   */
  lemma ManagerSweeps(s: Sched, divisors: map<string, nat>, max: nat, admission: Admission, dues: seq<set<string>>,
                      t: Sched, fast: string, p: string)
    requires Steady(s, divisors) && Roomy(s, max, admission) && SweepRun(s, max, admission, dues, t)
    requires fast in HeldPids(s) && p in HeldPids(s) && Level(Polled(s)) && fast in divisors && divisors[fast] == 1
    ensures p in divisors && Joined(dues, p) == CeilDiv(|dues|, divisors[p])
  {
    hide Steady, Roomy, SweepRun;
    SweepRunSweeps(s, divisors, max, admission, dues, t);
    SweepShare(Polled(s), divisors, dues, Polled(t), fast, p);
  }

  // ---------------------------------------------------------------- the rates of the tiers

  /** Polled in every exchange, every third, every tenth, from the first on. */
  predicate AtRate(tier: Tier, dues: seq<set<string>>, pid: string) {
    match tier
    case Fast => Joined(dues, pid) == |dues|
    case Medium => Joined(dues, pid) == (|dues| + 2) / 3
    case Slow => Joined(dues, pid) == (|dues| + 9) / 10
  }

  /** `pid` reads in mode 22 what `entry` reads in mode 01. */
  ghost predicate Mirrors(pid: string, entry: string) {
    |entry| == 4 && "01" <= entry && Upper(Trim(pid)) == "22F4" + entry[2..]
  }

  lemma MirroredTier(pid: string, tiers: Tiers)
    ensures pid in tiers ==> ResolveTier(pid, tiers) == tiers[pid]
    ensures forall e :: pid !in tiers && e in tiers && Mirrors(pid, e) ==> ResolveTier(pid, tiers) == tiers[e]
    ensures pid !in tiers && (forall e :: e in tiers ==> !Mirrors(pid, e)) ==> ResolveTier(pid, tiers) == Medium
  {
    var p := Upper(Trim(pid));
    hide Upper, Trim;
    forall e | e in tiers && Mirrors(pid, e) ensures |p| == 6 && "22F4" <= p && "01" + p[4..] == e {
      assert p[4..] == e[2..];
    }
    if |p| == 6 && "22F4" <= p && "01" + p[4..] in tiers {
      assert p == "22F4" + p[4..] && ("01" + p[4..])[2..] == p[4..];
      assert Mirrors(pid, "01" + p[4..]);
    }
  }

  /**
   The tiers in numbers. With a pid some holder lists as Fast, equal start ticks, one target and room for
   everything, N exchanges poll a Fast pid N times, a Medium one ceil(N / 3) times and a Slow one
   ceil(N / 10) times. A pid without an entry follows the one it mirrors, and is Medium if there is none.
   */
  lemma TierRates(s: Sched, divisors: map<string, nat>, max: nat, admission: Admission, dues: seq<set<string>>,
                  t: Sched, other: Id, fast: string, id: Id, p: string)
    requires Steady(s, divisors) && Roomy(s, max, admission) && SweepRun(s, max, admission, dues, t)
    requires Level(Polled(s)) && other in s.subs && fast in s.subs[other].pids
    requires fast in s.subs[other].tiers && s.subs[other].tiers[fast] == Fast
    requires id in s.subs && p in s.subs[id].pids
    ensures
      var tiers := s.subs[id].tiers;
      && (p in tiers ==> AtRate(tiers[p], dues, p))
      && (forall e :: p !in tiers && e in tiers && Mirrors(p, e) ==> AtRate(tiers[e], dues, p))
      && (p !in tiers && (forall e :: e in tiers ==> !Mirrors(p, e)) ==> AtRate(Medium, dues, p))
  {
    MirroredTier(fast, s.subs[other].tiers);
    MirroredTier(p, s.subs[id].tiers);
    SteadyDivisor(s, divisors, other, fast);
    SteadyDivisor(s, divisors, id, p);
    hide *;
    ManagerSweeps(s, divisors, max, admission, dues, t, fast, p);
    RateOf(ResolveTier(p, s.subs[id].tiers), dues, p, divisors[p]);
  }

  lemma SteadyDivisor(s: Sched, divisors: map<string, nat>, id: Id, pid: string)
    requires Steady(s, divisors) && id in s.subs && pid in s.subs[id].pids
    ensures pid in HeldPids(s) && pid in divisors && divisors[pid] == ResolveTier(pid, s.subs[id].tiers).Divisor()
  {
    assert SteadyPid(s.subs[id], divisors, pid);
    hide ResolveTier;
  }

  lemma RateOf(tier: Tier, dues: seq<set<string>>, pid: string, d: nat)
    requires d == tier.Divisor() && Joined(dues, pid) == CeilDiv(|dues|, d)
    ensures AtRate(tier, dues, pid)
  {
    TierQuotients(|dues|);
    hide CeilDiv, Joined;
  }

  lemma TierQuotients(n: nat)
    ensures CeilDiv(n, 1) == n && CeilDiv(n, 3) == (n + 2) / 3 && CeilDiv(n, 10) == (n + 9) / 10
  {
  }

  const DEFAULT_FAST := {"0104", "010C", "010D", "0110", "0111"}
  const DEFAULT_SLOW := {"0105", "011F", "012F", "0131", "0133", "0142", "015C", "0902", "090A"}

  /**
   The default tiers in numbers, given the engine speed among the pids: what is polled in every exchange,
   what in every tenth, and that any other mode 01 pid is polled in every third.
   */
  lemma DefaultRates(s: Sched, divisors: map<string, nat>, max: nat, admission: Admission, dues: seq<set<string>>,
                     t: Sched, id: Id, p: string)
    requires Steady(s, divisors) && Roomy(s, max, admission) && SweepRun(s, max, admission, dues, t)
    requires Level(Polled(s)) && id in s.subs && {"010C", p} <= s.subs[id].pids
    requires s.subs[id].tiers == DEFAULT_TIERS && |Upper(Trim(p))| == 4
    ensures p in DEFAULT_FAST ==> Joined(dues, p) == |dues|
    ensures p in DEFAULT_SLOW ==> Joined(dues, p) == (|dues| + 9) / 10
    ensures p !in DEFAULT_FAST + DEFAULT_SLOW ==> Joined(dues, p) == (|dues| + 2) / 3
  {
    DefaultTier(p);
    NoMirror(p);
    hide Steady, Roomy, SweepRun, Level, Polled, Joined, Mirrors;
    TierRates(s, divisors, max, admission, dues, t, id, "010C", id, p);
  }

  lemma DefaultTier(p: string)
    ensures "010C" in DEFAULT_TIERS && DEFAULT_TIERS["010C"] == Fast
    ensures p in DEFAULT_FAST ==> p in DEFAULT_TIERS && DEFAULT_TIERS[p] == Fast
    ensures p in DEFAULT_SLOW ==> p in DEFAULT_TIERS && DEFAULT_TIERS[p] == Slow
    ensures p !in DEFAULT_FAST + DEFAULT_SLOW ==> p !in DEFAULT_TIERS
  {
  }

  lemma NoMirror(p: string)
    requires |Upper(Trim(p))| == 4
    ensures forall e :: !Mirrors(p, e)
  {
    hide Upper, Trim;
  }
}
