/** Who may resume a paused subscription: the acquisition what it paused itself, the host what the host paused. */
module HostPause {
  import opened Wrappers
  import opened PidRegistry
  import opened Subscriptions
  import opened SchedulerRuns

  /** The events lead from `s` to `t`. */
  ghost predicate RunFrom(s: Sched, events: seq<Event>, t: Sched) {
    if events == [] then t == s
    else
      var k := |events| - 1;
      exists mid :: RunFrom(s, events[..k], mid) && Step(mid, events[k], t)
  }

  ghost predicate PausedByHost(s: Sched, id: Id) {
    id in s.subs && s.subs[id].state == Paused && s.subs[id].hostPaused
  }

  // The pause marks stay, and at most a finished subscription changes its state.
  ghost predicate SameMarks(s: Sched, t: Sched) {
    t.subs.Keys == s.subs.Keys &&
    forall id :: id in s.subs ==>
      && t.subs[id].hostPaused == s.subs[id].hostPaused
      && (t.subs[id].state == s.subs[id].state || (s.subs[id].state == Active && t.subs[id].state == Completed))
  }

  lemma AddedMarks(s: Sched, id: Id, pids: seq<string>, controller: Option<string>, counts: map<string, Option<nat>>,
                   seed: nat, t: Sched)
    requires AddPids(s, id, pids, controller, counts, seed) == Success(t)
    ensures SameMarks(s, t)
  {
    AddedSub(s.subs[id], pids, counts);
    hide AddToSub, RegisterAll, SeedTicks, FirstInvalid, AllLimited;
  }

  lemma CompletedMarks(s: Sched, sent: string, actual: string, reported: Option<Id>, t: Sched)
    requires Marked(Complete(s, sent, actual), reported, t)
    ensures SameMarks(s, t)
  {
    var mid := Complete(s, sent, actual);
    forall id | id in s.subs
      ensures mid.subs[id].state == s.subs[id].state && mid.subs[id].hostPaused == s.subs[id].hostPaused
    {
      SubKept(s.subs[id], actual);
    }
    hide Complete, CompleteSub;
    assert mid.subs.Keys == s.subs.Keys by { CompleteKeys(s, sent, actual); }
  }

  lemma CompleteKeys(s: Sched, sent: string, actual: string)
    ensures Complete(s, sent, actual).subs.Keys == s.subs.Keys
  {
  }

  lemma SubKept(sub: Sub, pid: string)
    ensures CompleteSub(sub, pid).hostPaused == sub.hostPaused && CompleteSub(sub, pid).state == sub.state
  {
  }

  lemma PickedMarks(s: Sched, pid: string, t: Sched)
    requires Committed(s, pid, t)
    ensures SameMarks(s, t)
  {
    hide DivisorOf;
  }

  lemma RemovedMarks(s: Sched, id: Id, pids: seq<string>, t: Sched)
    requires RemovePids(s, id, pids) == Success(t)
    ensures SameMarks(s, t)
  {
    hide UnregisterPids;
  }

  // Whatever is not about starting, pausing or resuming.
  lemma OtherMarks(s: Sched, e: Event, t: Sched)
    requires Step(s, e, t)
    requires !e.Created? && !e.Started? && !e.HostPaused? && !e.PausedAll? && !e.Resumed? && !e.Dismissed?
    ensures SameMarks(s, t)
  {
    hide AddPids, RemovePids, Complete, Committed, IsSeed, Found, ActualPid, Marked;
    match e
    case Added(id, pids, controller, counts, seed) => AddedMarks(s, id, pids, controller, counts, seed, t);
    case Removed(id, pids) => RemovedMarks(s, id, pids, t);
    case Done(sent, response, reported) => CompletedMarks(s, sent, ActualPid(sent, response), reported, t);
    case Picked(pid) => PickedMarks(s, pid, t);
    case _ =>
  }

  // Only a start or a dismissal ends the host's pause.
  lemma PauseStep(s: Sched, e: Event, t: Sched, id: Id)
    requires PausedByHost(s, id) && Step(s, e, t) && e != Started(id) && e != Dismissed(id)
    ensures PausedByHost(t, id)
  {
    if e.Created? || e.Started? || e.HostPaused? || e.PausedAll? || e.Resumed? || e.Dismissed? {
      hide AddPids, RemovePids, Complete, Committed, IsSeed, Found, ActualPid, Marked;
    } else {
      OtherMarks(s, e, t);
      hide Step;
    }
  }

  /**
   What the host paused stays paused: whatever happens, only the host's own start, or its dismissal, ends
   it. No pause or resume of the acquisition, no edit and no completion makes it poll.
   */
  lemma {:induction false} HostPauseHolds(s: Sched, id: Id, events: seq<Event>, t: Sched, pid: string)
    requires PausedByHost(s, id) && RunFrom(s, events, t)
    requires Started(id) !in events && Dismissed(id) !in events
    ensures PausedByHost(t, id) && !Owns(t, id, pid)
  {
    hide Step, PausedByHost;
    if events != [] {
      var k := |events| - 1;
      var mid :| RunFrom(s, events[..k], mid) && Step(mid, events[k], t);
      HostPauseHolds(s, id, events[..k], mid, pid);
      assert events[k] in events;
      PauseStep(mid, events[k], t, id);
    }
    NotOwned(t, id, pid);
  }

  lemma NotOwned(t: Sched, id: Id, pid: string)
    requires PausedByHost(t, id)
    ensures !Owns(t, id, pid)
  {
  }

  ghost predicate Unmarked(s: Sched) {
    forall id :: id in s.subs && s.subs[id].state == Active ==> !s.subs[id].hostPaused
  }

  lemma UnmarkedStep(s: Sched, e: Event, t: Sched)
    requires Unmarked(s) && Step(s, e, t)
    ensures Unmarked(t)
  {
    if e.Created? || e.Started? || e.HostPaused? || e.PausedAll? || e.Resumed? || e.Dismissed? {
      hide AddPids, RemovePids, Complete, Committed, IsSeed, Found, ActualPid, Marked;
    } else {
      OtherMarks(s, e, t);
      hide Step;
    }
  }

  lemma {:induction false} RunUnmarked(events: seq<Event>, t: Sched)
    requires Run(events, t)
    ensures Unmarked(t)
  {
    hide Step;
    if events != [] {
      var k := |events| - 1;
      var s :| Run(events[..k], s) && Step(s, events[k], t);
      RunUnmarked(events[..k], s);
      UnmarkedStep(s, events[k], t);
    }
  }

  ghost function ActiveIds(s: Sched): set<Id> {
    set id | id in s.subs && s.subs[id].state == Active
  }

  /** In any reachable state, resuming what a pause of everything paused undoes it. */
  lemma PauseResume(events: seq<Event>, s: Sched)
    requires Run(events, s)
    ensures ResumeMany(PauseAll(s), ActiveIds(s)) == s
    ensures forall id, pid :: !Owns(PauseAll(s), id, pid)
  {
    RunUnmarked(events, s);
    hide Run;
    var t := ResumeMany(PauseAll(s), ActiveIds(s));
    forall id | id in s.subs ensures t.subs[id] == s.subs[id] {
    }
    assert t.subs == s.subs;
  }
}
