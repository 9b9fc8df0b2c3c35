/**
 The serial command processor: one worker, any number of queuers, response callbacks and
 maintenance calls over shared fields, each touched under its own lock or as one atomic. `Shared` is
 the value of those fields; every critical section is one function on it, and the methods of
 `CommandProcessor` are proved to be those functions. `CommandProtocol` interleaves them.
 */
module CommandSections {
  import opened Wrappers

  /** A queued command with the number it got when it was accepted. */
  datatype Ticket = Ticket(number: nat, command: string)

  datatype Shared = Shared(
    queue: seq<Ticket>, outstanding: Option<Ticket>, dispatching: bool, guards: nat, hold: bool, running: bool,
    activity: nat, capacity: nat)

  function Initial(capacity: nat): Shared {
    Shared([], None, false, 0, false, true, 0, capacity)
  }

  predicate Full(s: Shared) { |s.queue| >= s.capacity }

  // Push and epoch bump under the queue lock. `activity` doubles as the ticket number.
  function Queue(s: Shared, command: string): Shared {
    if Full(s) then s
    else s.(queue := s.queue + [Ticket(s.activity, command)], activity := s.activity + 1)
  }

  // `dispatching` is raised under the queue lock, in the same section as the pop.
  function Pop(s: Shared): Shared {
    if s.queue == [] then s else s.(queue := s.queue[1..], dispatching := true)
  }

  function RecordOutstanding(s: Shared, t: Ticket): Shared { s.(outstanding := Some(t)) }

  function ClearDispatching(s: Shared): Shared { s.(dispatching := false) }

  function Begin(s: Shared): Shared { s.(guards := s.guards + 1) }

  function End(s: Shared): Shared
    requires s.guards > 0
  {
    s.(guards := s.guards - 1)
  }

  // A completion names the command string only.
  predicate Completes(s: Shared, command: string) {
    s.outstanding.Some? && s.outstanding.value.command == command
  }

  function Complete(s: Shared, command: string): Shared {
    if Completes(s, command) then s.(outstanding := None) else s
  }

  function ClearQueue(s: Shared): Shared { s.(queue := []) }

  function SetHold(s: Shared, on: bool): Shared { s.(hold := on) }

  function Abandon(s: Shared): Shared { s.(outstanding := None) }

  class CommandProcessor {
    var queue: seq<Ticket>
    var outstanding: Option<Ticket>
    var dispatching: bool
    var guards: nat
    var hold: bool
    var running: bool
    var activity: nat
    const capacity: nat

    ghost function Model(): Shared
      reads this
    {
      Shared(queue, outstanding, dispatching, guards, hold, running, activity, capacity)
    }

    constructor (capacity: nat)
      ensures Model() == Initial(capacity)
    {
      queue, outstanding, dispatching, guards := [], None, false, 0;
      hold, running, activity := false, true, 0;
      this.capacity := capacity;
    }

    method QueueCommand(command: string) returns (accepted: bool)
      modifies this
      ensures accepted <==> |old(queue)| < capacity
      ensures Model() == Queue(old(Model()), command)
    {
      if |queue| >= capacity {
        return false;
      }
      queue := queue + [Ticket(activity, command)];
      activity := activity + 1;
      accepted := true;
    }

    method PopForDispatch() returns (next: Option<Ticket>)
      modifies this`queue, this`dispatching
      ensures next == if old(queue) == [] then None else Some(old(queue)[0])
      ensures Model() == Pop(old(Model()))
    {
      if queue == [] {
        return None;
      }
      next := Some(queue[0]);
      queue := queue[1..];
      dispatching := true;
    }

    method MarkOutstanding(t: Ticket)
      modifies this`outstanding
      ensures Model() == RecordOutstanding(old(Model()), t)
    {
      outstanding := Some(t);
    }

    method FinishDispatch()
      modifies this`dispatching
      ensures Model() == ClearDispatching(old(Model()))
    {
      dispatching := false;
    }

    method BeginCompletion()
      modifies this`guards
      ensures Model() == Begin(old(Model()))
    {
      guards := guards + 1;
    }

    method DropGuard()
      requires guards > 0
      modifies this`guards
      ensures Model() == End(old(Model()))
    {
      guards := guards - 1;
    }

    method MarkCommandCompleted(command: string) returns (matched: bool)
      modifies this`outstanding
      ensures matched <==> old(Completes(Model(), command))
      ensures Model() == Complete(old(Model()), command)
    {
      matched := outstanding.Some? && outstanding.value.command == command;
      if matched {
        outstanding := None;
      }
    }

    method ClearQueued()
      modifies this`queue
      ensures Model() == ClearQueue(old(Model()))
    {
      queue := [];
    }

    // Run alone, the three sections of an abort compose.
    method AbortOutstandingAndClear()
      modifies this
      ensures Model() == Abandon(ClearQueue(SetHold(old(Model()), false)))
    {
      hold := false;
      queue := [];
      if outstanding.Some? {
        outstanding := None;
      }
    }

    // Run alone, one scan of `wait_for_idle` reports all four indicators at once.
    method ScanForIdle() returns (idle: bool)
      ensures idle <==> queue == [] && !dispatching && outstanding.None? && guards == 0
    {
      var epoch := activity;
      var queueEmpty := queue == [];
      var notDispatching := !dispatching;
      var noOutstanding := outstanding.None?;
      var noCompletions := guards == 0;
      var epochStable := activity == epoch;
      idle := queueEmpty && notDispatching && noOutstanding && noCompletions && epochStable;
    }

    // Run alone, the three reads of `has_pending_work` are exact.
    method HasPendingWork() returns (pending: bool)
      ensures pending <==> queue != [] || dispatching || outstanding.Some?
    {
      if queue != [] {
        return true;
      }
      if dispatching {
        return true;
      }
      pending := outstanding.Some?;
    }
  }
}

/** Every interleaving of the sections. */
module CommandProtocol {
  import opened Wrappers
  import opened CommandSections

  /** Where the worker thread is; a ticket is carried from the pop to the end of the dispatch. */
  datatype Worker =
    | Looking                     // top of the loop
    | Looked(free: bool)          // `outstanding` read, hold flag next
    | Popping                     // may take from the queue
    | Limited(t: Ticket)          // popped, in the rate limiter
    | Recorded(t: Ticket)         // recorded as outstanding, not yet sent
    | Sent(t: Ticket)             // handed to the platform, dispatch flag still up
    | Idling                      // queue was empty
    | Waiting                     // a command was outstanding
    | Halted

  /**
   One moment of a run. `accepted` lists every command ever accepted, `sent` the tickets handed to the
   platform, `dropped` says a clear has emptied a queue, `holders` are the callbacks with a live guard.
   */
  datatype State = State(
    shared: Shared, worker: Worker, holders: set<nat>, accepted: seq<string>, sent: seq<Ticket>, dropped: bool)

  datatype Step =
    | Work
    | Enqueue(command: string)
    | BeginCallback(holder: nat)
    | EndCallback(holder: nat)
    | MarkCompleted(command: string)
    | Clear              // `clear_queue`, and the second section of an abort
    | Drop               // the third section of an abort: the outstanding command is abandoned
    | Hold(on: bool)     // the first section of an abort and of a stop, and the stream's hold
    | Stop

  function Start(capacity: nat): State {
    State(Initial(capacity), Looking, {}, [], [], false)
  }

  ghost predicate Enabled(s: State, step: Step) {
    match step
    case Work =>
      (match s.worker
       case Idling => !s.shared.running || s.shared.outstanding.Some? || s.shared.queue != []
       case Waiting => !s.shared.running || s.shared.outstanding.None?
       case Halted => false
       case _ => true)
    case BeginCallback(h) => h !in s.holders
    case EndCallback(h) => h in s.holders
    case _ => true
  }

  function WorkerStep(s: State): State {
    match s.worker
    case Looking =>
      if s.shared.running then s.(worker := Looked(s.shared.outstanding.None?)) else s.(worker := Halted)
    case Looked(free) =>
      s.(worker := if s.shared.hold then Looking else if free then Popping else Waiting)
    case Popping =>
      if s.shared.queue == [] then s.(worker := Idling)
      else s.(shared := Pop(s.shared), worker := Limited(s.shared.queue[0]))
    case Limited(t) => s.(shared := RecordOutstanding(s.shared, t), worker := Recorded(t))
    case Recorded(t) => s.(sent := s.sent + [t], worker := Sent(t))
    case Sent(_) => s.(shared := ClearDispatching(s.shared), worker := Looking)
    case Idling => s.(worker := Looking)
    case Waiting => s.(worker := Looking)
    case Halted => s
  }

  function Next(s: State, step: Step): State {
    match step
    case Work => WorkerStep(s)
    case Enqueue(c) =>
      s.(shared := Queue(s.shared, c), accepted := if Full(s.shared) then s.accepted else s.accepted + [c])
    case BeginCallback(h) => s.(shared := Begin(s.shared), holders := s.holders + {h})
    case EndCallback(h) =>
      if s.shared.guards > 0 then s.(shared := End(s.shared), holders := s.holders - {h}) else s
    case MarkCompleted(c) => s.(shared := Complete(s.shared, c))
    case Clear => s.(shared := ClearQueue(s.shared), dropped := s.dropped || s.shared.queue != [])
    case Drop => s.(shared := Abandon(s.shared))
    case Hold(on) => s.(shared := SetHold(s.shared, on))
    case Stop => s.(shared := s.shared.(running := false))
  }

  /** A run: `states[i + 1]` follows from `states[i]` by `steps[i]`. */
  datatype Run = Run(states: seq<State>, steps: seq<Step>) {
    ghost predicate Valid() {
      && |states| == |steps| + 1
      && states[0] == Start(states[0].shared.capacity)
      && forall i {:trigger steps[i]} :: 0 <= i < |steps| ==>
         Enabled(states[i], steps[i]) && states[i + 1] == Next(states[i], steps[i])
    }

    function At(i: nat): Shared
      requires i < |states|
    {
      states[i].shared
    }
  }

  // ---------------------------------------------------------------- invariant of every run

  // The ticket the worker still has to send.
  function Unsent(w: Worker): seq<Ticket> {
    match w
    case Limited(t) => [t]
    case Recorded(t) => [t]
    case _ => []
  }

  /** Every accepted ticket not dropped by a clear: on the wire, in the worker's hands, or queued. */
  function Line(s: State): seq<Ticket> {
    s.sent + Unsent(s.worker) + s.shared.queue
  }

  ghost predicate InOrder(ts: seq<Ticket>) {
    forall i, j :: 0 <= i < j < |ts| ==> ts[i].number < ts[j].number
  }

  ghost predicate Genuine(ts: seq<Ticket>, accepted: seq<string>) {
    forall t :: t in ts ==> t.number < |accepted| && t.command == accepted[t.number]
  }

  ghost predicate FlagInvariant(s: State) {
    && (s.shared.dispatching <==> s.worker.Limited? || s.worker.Recorded? || s.worker.Sent?)
    && (s.worker == Looked(true) || s.worker.Popping? || s.worker.Limited? ==> s.shared.outstanding.None?)
    && s.shared.guards == |s.holders|
    && |s.shared.queue| <= s.shared.capacity
    && (s.shared.outstanding.Some? ==>
          if s.worker.Recorded? then s.worker.t == s.shared.outstanding.value
          else s.sent != [] && s.sent[|s.sent| - 1] == s.shared.outstanding.value)
  }

  ghost predicate LineInvariant(s: State) {
    && s.shared.activity == |s.accepted|
    && InOrder(Line(s)) && Genuine(Line(s), s.accepted)
    && (!s.dropped ==> |Line(s)| == |s.accepted|)
  }

  ghost predicate Invariant(s: State) {
    FlagInvariant(s) && LineInvariant(s)
  }

  lemma SubLine(a: seq<Ticket>, b: seq<Ticket>, c: seq<Ticket>, accepted: seq<string>)
    requires InOrder(a + b + c) && Genuine(a + b + c, accepted)
    ensures InOrder(a + b) && Genuine(a + b, accepted)
  {
    assert forall i :: 0 <= i < |a + b| ==> (a + b)[i] == (a + b + c)[i];
    assert forall t :: t in a + b ==> t in a + b + c;
  }

  lemma WorkFlagsKept(s: State)
    requires FlagInvariant(s) && Enabled(s, Work)
    ensures FlagInvariant(WorkerStep(s))
  {
  }

  lemma GuardFlagsKept(s: State, h: nat)
    requires FlagInvariant(s)
    ensures h !in s.holders ==> FlagInvariant(Next(s, BeginCallback(h)))
    ensures h in s.holders ==> FlagInvariant(Next(s, EndCallback(h)))
  {
    hide WorkerStep;
    if h in s.holders { assert |s.holders - {h}| == |s.holders| - 1; }
  }

  lemma OtherFlagsKept(s: State, step: Step)
    requires FlagInvariant(s) && !step.Work? && !step.BeginCallback? && !step.EndCallback?
    ensures FlagInvariant(Next(s, step))
  {
    hide WorkerStep;
  }

  lemma FlagsKept(s: State, step: Step)
    requires FlagInvariant(s) && Enabled(s, step)
    ensures FlagInvariant(Next(s, step))
  {
    hide FlagInvariant, WorkerStep;
    match step
    case Work => WorkFlagsKept(s);
    case BeginCallback(h) => GuardFlagsKept(s, h);
    case EndCallback(h) => GuardFlagsKept(s, h);
    case _ => OtherFlagsKept(s, step);
  }

  lemma WorkLineKept(s: State)
    ensures Line(WorkerStep(s)) == Line(s)
  {
    if s.worker.Popping? && s.shared.queue != [] {
      assert s.shared.queue == [s.shared.queue[0]] + s.shared.queue[1..];
    }
  }

  // Only an accepted command or a clear changes the line.
  lemma LineKept(s: State, step: Step)
    requires !step.Enqueue? && !step.Clear?
    ensures Line(Next(s, step)) == Line(s)
  {
    WorkLineKept(s);
    hide WorkerStep;
  }

  // An accepted command joins the line at its end, with a number above all others.
  lemma EnqueueLineKept(s: State, c: string)
    requires LineInvariant(s)
    ensures LineInvariant(Next(s, Enqueue(c)))
  {
    hide WorkerStep;
    if !Full(s.shared) {
      var line, t, s' := Line(s), Ticket(s.shared.activity, c), Next(s, Enqueue(c));
      assert Line(s') == line + [t];
      hide Next, Line;
      LineGrows(line, t, s.accepted, c);
    }
  }

  lemma LineGrows(line: seq<Ticket>, t: Ticket, accepted: seq<string>, c: string)
    requires InOrder(line) && Genuine(line, accepted) && t == Ticket(|accepted|, c)
    ensures InOrder(line + [t]) && Genuine(line + [t], accepted + [c])
  {
    assert forall i :: 0 <= i < |line| ==> line[i] in line;
  }

  lemma ClearLineKept(s: State)
    requires LineInvariant(s)
    ensures LineInvariant(Next(s, Clear))
  {
    hide WorkerStep;
    var s' := Next(s, Clear);
    assert Line(s') == s.sent + Unsent(s.worker);
    if s.shared.queue == [] {
      assert Line(s') == Line(s);
    } else {
      SubLine(s.sent, Unsent(s.worker), s.shared.queue, s.accepted);
    }
  }

  lemma OtherLineKept(s: State, step: Step)
    requires LineInvariant(s) && !step.Enqueue? && !step.Clear?
    ensures LineInvariant(Next(s, step))
  {
    LineKept(s, step);
    OtherCounts(s, step);
    hide Next, Line;
  }

  // Nothing else accepts or drops a command.
  lemma OtherCounts(s: State, step: Step)
    requires !step.Enqueue? && !step.Clear?
    ensures
      var s' := Next(s, step);
      s'.shared.activity == s.shared.activity && s'.accepted == s.accepted && s'.dropped == s.dropped
  {
  }

  lemma LineInvariantKept(s: State, step: Step)
    requires LineInvariant(s)
    ensures LineInvariant(Next(s, step))
  {
    hide LineInvariant, Next;
    match step
    case Enqueue(c) => EnqueueLineKept(s, c);
    case Clear => ClearLineKept(s);
    case _ => OtherLineKept(s, step);
  }

  lemma {:induction false} RunInvariant(r: Run, i: nat)
    requires r.Valid() && i < |r.states|
    ensures Invariant(r.states[i])
  {
    if i > 0 {
      RunInvariant(r, i - 1);
      FlagsKept(r.states[i - 1], r.steps[i - 1]);
      LineInvariantKept(r.states[i - 1], r.steps[i - 1]);
    }
  }

  // ---------------------------------------------------------------- the serial, first-in-first-out wire

  /**
   In every run commands reach the wire in the order they were accepted, each at most once and
   unaltered, whatever is cleared or aborted on the way; if nothing was cleared, sent, in hand and
   queued together are exactly the accepted commands.
   */
  lemma FifoWire(r: Run, i: nat)
    requires r.Valid() && i < |r.states|
    ensures
      var s := r.states[i];
      && InOrder(Line(s)) && Genuine(Line(s), s.accepted)
      && (!s.dropped ==> |Line(s)| == |s.accepted|
                         && forall n :: 0 <= n < |s.accepted| ==> Line(s)[n] == Ticket(n, s.accepted[n]))
  {
    RunInvariant(r, i);
    var s := r.states[i];
    if !s.dropped {
      forall n | 0 <= n < |s.accepted| ensures Line(s)[n] == Ticket(n, s.accepted[n]) {
        AtLeastIndex(Line(s), n);
        AtMostIndex(Line(s), n, |s.accepted|);
        assert Line(s)[n] in Line(s);
      }
    }
  }

  lemma {:induction false} AtLeastIndex(ts: seq<Ticket>, n: nat)
    requires InOrder(ts) && n < |ts|
    ensures ts[n].number >= n
  {
    if n > 0 { AtLeastIndex(ts, n - 1); }
  }

  lemma {:induction false} AtMostIndex(ts: seq<Ticket>, n: nat, bound: nat)
    requires InOrder(ts) && n < |ts| && |ts| == bound
    requires forall t :: t in ts ==> t.number < bound
    ensures ts[n].number <= n
    decreases |ts| - n
  {
    assert ts[n] in ts;
    if n + 1 < |ts| { AtMostIndex(ts, n + 1, bound); }
  }

  ghost predicate RecordsAt(r: Run, i: nat)
    requires r.Valid()
  {
    i < |r.steps| && r.steps[i] == Work && r.states[i].worker.Limited?
  }

  /**
   One command at a time: whenever the worker records a command as outstanding none is recorded, and
   between two recordings the earlier one was completed under its own command string or abandoned.
   */
  lemma OneAtATime(r: Run, i: nat, j: nat) returns (k: nat)
    requires r.Valid() && i < j && RecordsAt(r, i) && RecordsAt(r, j)
    ensures r.At(i).outstanding.None? && r.At(j).outstanding.None?
    ensures i < k < j && r.At(k).outstanding == Some(r.states[i].worker.t) && r.At(k + 1).outstanding.None?
    ensures r.steps[k] == Drop || r.steps[k] == MarkCompleted(r.states[i].worker.t.command)
  {
    RunInvariant(r, i);
    RunInvariant(r, j);
    k := i + 1;
    while r.At(k + 1).outstanding == Some(r.states[i].worker.t)
      invariant i < k < j && r.At(k).outstanding == Some(r.states[i].worker.t)
      decreases j - k
    {
      k := k + 1;
    }
    RunInvariant(r, k);
    assert Enabled(r.states[k], r.steps[k]) && r.states[k + 1] == Next(r.states[k], r.steps[k]);
  }

  // ---------------------------------------------------------------- holding and stopping the worker

  // What has left the queue for good: on the wire or in the worker's hands.
  function Taken(s: State): seq<Ticket> {
    s.sent + Unsent(s.worker)
  }

  ghost predicate Held(r: Run, i: nat, j: nat) {
    j < |r.states| && forall k :: i <= k < j ==> r.At(k).hold
  }

  /**
   A hold parks the worker: while it is on no ticket is taken from the queue, save the one a worker
   that was already past the check may take.
   */
  lemma {:induction false} HoldParks(r: Run, i: nat, j: nat)
    requires r.Valid() && i <= j && Held(r, i, j)
    ensures Taken(r.states[i]) <= Taken(r.states[j]) && |Taken(r.states[j])| <= |Taken(r.states[i])| + 1
    ensures Taken(r.states[j]) != Taken(r.states[i]) ==> r.states[i].worker.Popping?
    ensures r.states[j].worker.Popping? ==> r.states[i].worker.Popping? && Taken(r.states[j]) == Taken(r.states[i])
    decreases j
  {
    if i < j {
      HoldParks(r, i, j - 1);
      assert r.At(j - 1).hold;
      HeldStep(r.states[j - 1], r.steps[j - 1]);
      assert r.states[j] == Next(r.states[j - 1], r.steps[j - 1]);
      hide Next, Taken;
    }
  }

  // Under a hold only a worker at the queue takes a ticket, and none gets there.
  lemma HeldStep(s: State, step: Step)
    requires s.shared.hold
    ensures
      var s' := Next(s, step);
      && (s'.worker.Popping? ==> s.worker.Popping? && Taken(s') == Taken(s))
      && Taken(s) <= Taken(s') && |Taken(s')| <= |Taken(s)| + 1
      && (Taken(s') != Taken(s) ==> s.worker.Popping?)
  {
  }

  /** A hold lasts until it is released. */
  lemma {:induction false} HoldLasts(r: Run, i: nat, j: nat)
    requires r.Valid() && i < |r.steps| && r.steps[i] == Hold(true) && i < j < |r.states|
    requires forall k :: i < k < j ==> r.steps[k] != Hold(false)
    ensures Held(r, i + 1, j) && r.At(j).hold
    decreases j
  {
    if i + 1 < j { HoldLasts(r, i, j - 1); }
    assert r.states[j] == Next(r.states[j - 1], r.steps[j - 1]);
  }

  /** After a stop at most one more ticket is taken, by a worker already past the check. */
  lemma {:induction false} StopParks(r: Run, i: nat, j: nat)
    requires r.Valid() && i < |r.steps| && r.steps[i] == Stop && i < j < |r.states|
    ensures !r.At(j).running && Taken(r.states[i]) <= Taken(r.states[j])
    ensures |Taken(r.states[j])| <= |Taken(r.states[i])| + 1
    ensures Taken(r.states[j]) != Taken(r.states[i]) ==> PastCheck(r.states[i])
    ensures PastCheck(r.states[j]) ==> PastCheck(r.states[i]) && Taken(r.states[j]) == Taken(r.states[i])
    decreases j
  {
    assert r.states[j] == Next(r.states[j - 1], r.steps[j - 1]);
    if i + 1 < j {
      StopParks(r, i, j - 1);
      StoppedStep(r.states[j - 1], r.steps[j - 1]);
    }
  }

  predicate PastCheck(s: State) {
    s.worker.Looked? || s.worker.Popping?
  }

  lemma StoppedStep(s: State, step: Step)
    requires !s.shared.running
    ensures
      var s' := Next(s, step);
      && !s'.shared.running && (PastCheck(s') ==> PastCheck(s) && Taken(s') == Taken(s))
      && Taken(s) <= Taken(s') && |Taken(s')| <= |Taken(s)| + 1
      && (Taken(s') != Taken(s) ==> PastCheck(s))
  {
  }

  /** Left alone, a running worker that is not held and waits for nothing sends the front of the queue. */
  lemma SendsFront(r: Run, i: nat)
    requires r.Valid() && i + 5 < |r.states| && forall k :: i <= k < i + 5 ==> r.steps[k] == Work
    requires r.states[i].worker.Looking? && r.At(i).running && !r.At(i).hold && r.At(i).outstanding.None?
    requires r.At(i).queue != []
    ensures r.states[i + 5].sent == r.states[i].sent + [r.At(i).queue[0]]
    ensures r.At(i + 5).queue == r.At(i).queue[1..] && r.At(i + 5).outstanding == Some(r.At(i).queue[0])
  {
    assert r.states[i + 1] == Next(r.states[i], r.steps[i]);
    assert r.states[i + 2] == Next(r.states[i + 1], r.steps[i + 1]);
    assert r.states[i + 3] == Next(r.states[i + 2], r.steps[i + 2]);
    assert r.states[i + 4] == Next(r.states[i + 3], r.steps[i + 3]);
    assert r.states[i + 5] == Next(r.states[i + 4], r.steps[i + 4]);
  }

  // More steps than a worker left alone can take without sending.
  function Patience(s: State): nat {
    var blocked, none := s.shared.outstanding.Some?, s.shared.queue == [];
    match s.worker
    case Recorded(_) => 1
    case Limited(_) => 2
    case Popping => if none then 2 else 3
    case Looked(free) => if free then (if none then 3 else 4) else if blocked then 2 else if none then 6 else 7
    case Looking => if blocked then 3 else if none then 4 else 5
    case Waiting => if blocked then 1 else if none then 5 else 6
    case Idling => if blocked then 4 else if none then 1 else 6
    case Sent(_) => if blocked then 4 else if none then 5 else 6
    case Halted => 1
  }

  ghost predicate Free(s: State) {
    FlagInvariant(s) && s.shared.running && !s.shared.hold
  }

  lemma StepsOn(s: State)
    requires Free(s) && Enabled(s, Work)
    ensures
      var s', line := WorkerStep(s), Unsent(s.worker) + s.shared.queue;
      && Free(s')
      && if s.worker.Recorded? then line != [] && s'.sent == s.sent + [line[0]]
         else s'.sent == s.sent && Unsent(s'.worker) + s'.shared.queue == line && Patience(s') < Patience(s)
  {
    var line := Unsent(s.worker) + s.shared.queue;
    if s.worker.Popping? && s.shared.queue != [] {
      assert line == [s.shared.queue[0]] + s.shared.queue[1..];
    }
  }

  ghost predicate Alone(r: Run, i: nat, j: nat) {
    r.Valid() && i <= j < |r.states| && forall k :: i <= k < j ==> r.steps[k] == Work
  }

  lemma {:induction false} SentKept(r: Run, i: nat, j: nat)
    requires Alone(r, i, j)
    ensures r.states[i].sent <= r.states[j].sent
    decreases j
  {
    if i < j {
      SentKept(r, i, j - 1);
      assert r.states[j] == Next(r.states[j - 1], r.steps[j - 1]);
    }
  }

  /**
   A worker that is neither held nor stopped never rests while it could send: in whatever state it is, seven
   steps of its own, where it has as many to take, send the next ticket.
   */
  lemma WorkerProgress(r: Run, i: nat)
    requires Alone(r, i, i + 7) && r.At(i).running && !r.At(i).hold
    ensures
      var line := Unsent(r.states[i].worker) + r.At(i).queue;
      line != [] && r.states[i].sent + [line[0]] <= r.states[i + 7].sent
  {
    RunInvariant(r, i);
    PatienceEnds(r, i, i + 7);
  }

  lemma {:induction false} PatienceEnds(r: Run, i: nat, j: nat)
    requires Alone(r, i, j) && Free(r.states[i]) && j - i >= Patience(r.states[i])
    ensures
      var line := Unsent(r.states[i].worker) + r.At(i).queue;
      line != [] && r.states[i].sent + [line[0]] <= r.states[j].sent
    decreases j - i
  {
    assert r.steps[i] == Work && r.states[i + 1] == WorkerStep(r.states[i]);
    hide Free, Next, WorkerStep;
    StepsOn(r.states[i]);
    if r.states[i].worker.Recorded? {
      SentKept(r, i + 1, j);
    } else {
      PatienceEnds(r, i + 1, j);
    }
  }

  // ---------------------------------------------------------------- the idle verdict

  // What the scan has established after `depth` of its downstream reads.
  ghost predicate Quiet(s: Shared, depth: nat) {
    && (depth >= 1 ==> s.queue == [])
    && (depth >= 2 ==> !s.dispatching)
    && (depth >= 3 ==> s.outstanding.None?)
  }

  lemma {:induction false} EpochGrows(r: Run, i: nat, j: nat)
    requires r.Valid() && i <= j < |r.states|
    ensures r.At(i).activity <= r.At(j).activity
    decreases j
  {
    if i < j {
      EpochGrows(r, i, j - 1);
      assert r.states[j] == Next(r.states[j - 1], r.steps[j - 1]);
    }
  }

  // With no command accepted in between, the token cannot get back upstream of a read.
  lemma {:induction false} QuietStays(r: Run, i: nat, j: nat, depth: nat)
    requires r.Valid() && i <= j < |r.states| && depth <= 3
    requires Quiet(r.At(i), depth) && depth >= 1 && r.At(i).activity == r.At(j).activity
    ensures Quiet(r.At(j), depth)
    decreases j
  {
    if i < j {
      EpochGrows(r, i, j - 1);
      EpochGrows(r, j - 1, j);
      QuietStays(r, i, j - 1, depth);
      RunInvariant(r, j - 1);
      assert r.states[j] == Next(r.states[j - 1], r.steps[j - 1]) && Enabled(r.states[j - 1], r.steps[j - 1]);
    }
  }

  /** The five instants of one scan of `wait_for_idle`, plus the closing epoch read. */
  datatype Scan = Scan(epoch: nat, queue: nat, dispatching: nat, outstanding: nat, guards: nat, verdict: nat) {
    ghost predicate Ordered(r: Run) {
      epoch <= queue <= dispatching <= outstanding <= guards <= verdict < |r.states|
    }

    ghost predicate ReportsIdle(r: Run)
      requires Ordered(r)
    {
      && r.At(queue).queue == []
      && !r.At(dispatching).dispatching
      && r.At(outstanding).outstanding.None?
      && r.At(guards).guards == 0
      && r.At(verdict).activity == r.At(epoch).activity
    }
  }

  /** A callback begins at `k` while nothing is queued, dispatching, outstanding or called back. */
  ghost predicate BeginsIdle(r: Run, k: nat) {
    && k < |r.steps| && k < |r.states| && r.steps[k].BeginCallback?
    && Quiet(r.At(k), 3) && r.At(k).guards == 0
  }

  // All four indicators are idle at once, and the worker carries nothing.
  ghost predicate TrulyIdle(s: State) {
    Quiet(s.shared, 3) && s.shared.guards == 0 && s.holders == {} && Unsent(s.worker) == []
  }

  /**
   A true verdict is a statement about one instant. When a scan reports idle, at the moment of its
   last read the queue is empty, nothing is being dispatched or carried by the worker, and nothing is
   outstanding, under every interleaving; no callback is running from the guard read on exactly when
   none began there with all four indicators idle.
   */
  lemma IdleVerdict(r: Run, scan: Scan)
    requires r.Valid() && scan.Ordered(r) && scan.ReportsIdle(r)
    ensures
      var s := r.states[scan.verdict];
      Quiet(s.shared, 3) && Unsent(s.worker) == []
    ensures (forall j :: scan.guards <= j <= scan.verdict ==> r.At(j).guards == 0)
            <==> forall k: nat :: scan.guards <= k < scan.verdict ==> !BeginsIdle(r, k)
  {
    var v := scan.verdict;
    QuietAfter(r, scan, v);
    RunInvariant(r, v);
    if forall k: nat :: scan.guards <= k < v ==> !BeginsIdle(r, k) {
      forall j | scan.guards <= j <= v ensures r.At(j).guards == 0 { NoGuards(r, scan, j); }
    } else {
      var k: nat :| scan.guards <= k < v && BeginsIdle(r, k);
      assert r.states[k + 1] == Next(r.states[k], r.steps[k]);
      assert r.At(k + 1).guards > 0;
    }
  }

  /**
   Exactly when a verdict can be trusted: every scan of a run that reports idle finds all four
   indicators idle at its last read if and only if no callback of the run begins while they all are.
   */
  lemma IdleVerdictLinearizes(r: Run)
    requires r.Valid()
    ensures (forall scan: Scan :: scan.Ordered(r) && scan.ReportsIdle(r) ==> TrulyIdle(r.states[scan.verdict]))
            <==> forall k: nat :: !BeginsIdle(r, k)
  {
    if forall k: nat :: !BeginsIdle(r, k) {
      forall scan: Scan | scan.Ordered(r) && scan.ReportsIdle(r) ensures TrulyIdle(r.states[scan.verdict]) {
        IdleVerdict(r, scan);
        RunInvariant(r, scan.verdict);
        assert r.At(scan.verdict).guards == 0;
      }
    } else {
      var k: nat :| BeginsIdle(r, k);
      var scan := Scan(k, k, k, k, k, k + 1);
      assert r.states[k + 1] == Next(r.states[k], r.steps[k]);
      assert scan.Ordered(r) && scan.ReportsIdle(r) && r.At(scan.verdict).guards > 0;
    }
  }

  /** The documented callback discipline: a guard is taken while the command is still outstanding. */
  ghost predicate Disciplined(r: Run)
    requires r.Valid()
  {
    forall k :: 0 <= k < |r.steps| && r.steps[k].BeginCallback? ==> r.At(k).outstanding.Some?
  }

  /** The documented discipline is enough. */
  lemma DisciplinedVerdict(r: Run, scan: Scan)
    requires r.Valid() && scan.Ordered(r) && scan.ReportsIdle(r) && Disciplined(r)
    ensures TrulyIdle(r.states[scan.verdict])
  {
    IdleVerdictLinearizes(r);
  }

  lemma ReadsAgree(r: Run, scan: Scan, i: nat)
    requires r.Valid() && scan.Ordered(r) && r.At(scan.verdict).activity == r.At(scan.epoch).activity
    requires scan.epoch <= i <= scan.verdict
    ensures r.At(i).activity == r.At(scan.verdict).activity
  {
    EpochGrows(r, scan.epoch, i);
    EpochGrows(r, i, scan.verdict);
  }

  // From the guard read on a scan that reports idle sees no callback unless one begins on idle indicators.
  lemma {:induction false} NoGuards(r: Run, scan: Scan, j: nat)
    requires r.Valid() && scan.Ordered(r) && scan.ReportsIdle(r) && scan.guards <= j <= scan.verdict
    requires forall k: nat :: scan.guards <= k < scan.verdict ==> !BeginsIdle(r, k)
    ensures r.At(j).guards == 0
    decreases j
  {
    if scan.guards < j {
      NoGuards(r, scan, j - 1);
      QuietAfter(r, scan, j - 1);
      assert !BeginsIdle(r, j - 1);
      RunInvariant(r, j - 1);
      assert r.states[j] == Next(r.states[j - 1], r.steps[j - 1]) && Enabled(r.states[j - 1], r.steps[j - 1]);
    }
  }

  lemma QuietAfter(r: Run, scan: Scan, k: nat)
    requires r.Valid() && scan.Ordered(r) && scan.ReportsIdle(r) && scan.guards <= k <= scan.verdict
    ensures Quiet(r.At(k), 3)
  {
    ReadsAgree(r, scan, scan.queue);
    ReadsAgree(r, scan, scan.dispatching);
    ReadsAgree(r, scan, scan.outstanding);
    ReadsAgree(r, scan, k);
    QuietStays(r, scan.queue, scan.dispatching, 1);
    QuietStays(r, scan.dispatching, scan.outstanding, 2);
    QuietStays(r, scan.outstanding, k, 3);
  }

  /** Guards are counted, never lost: ending a live callback always finds a positive count. */
  lemma GuardsNeverUnderflow(r: Run, i: nat, holder: nat)
    requires r.Valid() && i < |r.states| && holder in r.states[i].holders
    ensures r.At(i).guards == |r.states[i].holders| && r.At(i).guards > 0
  {
    RunInvariant(r, i);
    assert {holder} <= r.states[i].holders;
    CardinalityOfSubset({holder}, r.states[i].holders);
  }

  lemma CardinalityOfSubset(a: set<nat>, b: set<nat>)
    requires a <= b
    ensures |a| <= |b|
  {
    assert b == a + (b - a);
  }

  // ---------------------------------------------------------------- has_pending_work

  ghost predicate Queued(s: State, n: nat) {
    exists t :: t in s.shared.queue && t.number == n
  }

  ghost predicate Carried(s: State, n: nat) {
    exists t :: t in Unsent(s.worker) && t.number == n
  }

  ghost predicate InTransit(s: State, n: nat) {
    Queued(s, n) || Carried(s, n) || (s.shared.outstanding.Some? && s.shared.outstanding.value.number == n)
  }

  lemma StepUpstream(s: State, step: Step, n: nat)
    requires n < s.shared.activity && !Queued(s, n)
    ensures !Queued(Next(s, step), n)
    ensures !Carried(s, n) ==> !Carried(Next(s, step), n)
  {
    if s.worker.Popping? && s.shared.queue != [] { assert s.shared.queue[0] in s.shared.queue; }
  }

  // An accepted ticket that has left the queue (and the worker) never comes back to it.
  lemma {:induction false} NeverUpstream(r: Run, i: nat, j: nat, n: nat)
    requires r.Valid() && i <= j < |r.states| && n < r.At(i).activity && !Queued(r.states[i], n)
    ensures !Queued(r.states[j], n)
    ensures !Carried(r.states[i], n) ==> !Carried(r.states[j], n)
    decreases j
  {
    hide Queued, Carried, Next, Enabled;
    if i < j {
      NeverUpstream(r, i, j - 1, n);
      EpochGrows(r, i, j - 1);
      assert r.states[j] == Next(r.states[j - 1], r.steps[j - 1]);
      StepUpstream(r.states[j - 1], r.steps[j - 1], n);
    }
  }

  /**
   The three reads of `has_pending_work` never miss a command that is in transit from the first read
   to the last, wherever the hand-offs fall between them.
   */
  lemma PendingWorkSeen(r: Run, first: nat, second: nat, third: nat, n: nat)
    requires r.Valid() && first <= second <= third < |r.states| && n < r.At(first).activity
    requires forall i :: first <= i <= third ==> InTransit(r.states[i], n)
    ensures r.At(first).queue != [] || r.At(second).dispatching || r.At(third).outstanding.Some?
  {
    if r.At(first).queue == [] && !r.At(second).dispatching {
      assert !Queued(r.states[first], n);
      NeverUpstream(r, first, second, n);
      RunInvariant(r, second);
      assert !Carried(r.states[second], n);
      EpochGrows(r, first, second);
      NeverUpstream(r, second, third, n);
      assert InTransit(r.states[third], n);
    }
  }

  // ---------------------------------------------------------------- why the scan reads as it does

  function Trace(s: State, steps: seq<Step>): (states: seq<State>)
    ensures |states| == |steps| + 1 && states[0] == s
    ensures forall i {:trigger steps[i]} :: 0 <= i < |steps| ==> states[i + 1] == Next(states[i], steps[i])
  {
    if steps == [] then [s]
    else
      var before := Trace(s, steps[..|steps| - 1]);
      before + [Next(before[|before| - 1], steps[|steps| - 1])]
  }

  // `states` follow from each other by `steps`.
  ghost predicate Linked(states: seq<State>, steps: seq<Step>) {
    && |states| == |steps| + 1
    && forall k {:trigger steps[k]} :: 0 <= k < |steps| ==> states[k + 1] == Next(states[k], steps[k])
  }

  // Six worker steps dispatch the only queued command and bring the worker back to the top of its loop.
  lemma DispatchesAlone(states: seq<State>, steps: seq<Step>, i: nat, t: Ticket)
    requires Linked(states, steps) && i + 6 < |states|
    requires forall k :: i <= k < i + 6 ==> steps[k] == Work
    requires
      var s := states[i];
      s.worker.Looking? && s.shared.queue == [t] && s.shared.outstanding.None? && s.shared.running && !s.shared.hold
    ensures forall k :: i <= k < i + 6 ==> Enabled(states[k], Work)
    ensures
      var s := states[i];
      && states[i + 3] == s.(shared := s.shared.(queue := [], dispatching := true), worker := Limited(t))
      && states[i + 6] == s.(shared := s.shared.(queue := [], dispatching := false, outstanding := Some(t)),
                             sent := s.sent + [t])
  {
    assert states[i + 1] == Next(states[i], steps[i]);
    assert states[i + 2] == Next(states[i + 1], steps[i + 1]);
    assert states[i + 3] == Next(states[i + 2], steps[i + 2]);
    assert states[i + 4] == Next(states[i + 3], steps[i + 3]);
    assert states[i + 5] == Next(states[i + 4], steps[i + 4]);
    assert states[i + 6] == Next(states[i + 5], steps[i + 5]);
  }

  // A callback that completes its command and queues the next one before it ends.
  lemma CallbackQueues(states: seq<State>, steps: seq<Step>, i: nat, c: string, d: string)
    requires Linked(states, steps) && i + 4 < |states|
    requires steps[i] == BeginCallback(0) && steps[i + 1] == MarkCompleted(c)
    requires steps[i + 2] == Enqueue(d) && steps[i + 3] == EndCallback(0)
    requires
      var s := states[i];
      && s.holders == {} && s.shared.guards == 0 && s.shared.queue == [] && s.shared.capacity > 0
      && s.shared.outstanding.Some? && s.shared.outstanding.value.command == c
    ensures forall k :: i <= k < i + 4 ==> Enabled(states[k], steps[k])
    ensures
      var s := states[i];
      && states[i + 2].shared == s.shared.(outstanding := None, guards := 1)
      && states[i + 4] == s.(shared := s.shared.(outstanding := None, queue := [Ticket(s.shared.activity, d)],
                                                 activity := s.shared.activity + 1),
                             accepted := s.accepted + [d])
  {
    hide WorkerStep;
    var s := states[i];
    assert states[i + 1] == Next(states[i], steps[i]) == s.(shared := s.shared.(guards := 1), holders := {0});
    assert states[i + 2] == Next(states[i + 1], steps[i + 1])
        == s.(shared := s.shared.(guards := 1, outstanding := None), holders := {0});
    assert states[i + 3] == Next(states[i + 2], steps[i + 2]);
    assert states[i + 4] == Next(states[i + 3], steps[i + 3]);
    assert {0} - {0} == {};
  }

  ghost predicate Traced(states: seq<State>, steps: seq<Step>) {
    Linked(states, steps) && states[0] == Start(8)
  }

  lemma TraceTraced(steps: seq<Step>)
    ensures Traced(Trace(Start(8), steps), steps)
  {
    hide Next;
  }

  lemma TracedLinked(states: seq<State>, steps: seq<Step>)
    requires Traced(states, steps)
    ensures Linked(states, steps) && |states| == |steps| + 1
  {
  }

  // The steps of a first command, queued and dispatched.
  ghost predicate Dispatches(steps: seq<Step>, c: string) {
    |steps| >= 7 && steps[0] == Enqueue(c) && forall k :: 1 <= k < 7 ==> steps[k] == Work
  }

  // The steps of a first exchange whose callback queues the next command.
  ghost predicate Exchanges(steps: seq<Step>, c: string, d: string) {
    && Dispatches(steps, c) && |steps| >= 11
    && steps[7] == BeginCallback(0) && steps[8] == MarkCompleted(c) && steps[9] == Enqueue(d) &&
       steps[10] == EndCallback(0)
  }

  // A second exchange for the same command, the first one's late signal, and the second one's callback.
  ghost predicate Repeats(steps: seq<Step>, c: string) {
    && Exchanges(steps, c, c) && |steps| == 19 && (forall k :: 11 <= k < 17 ==> steps[k] == Work)
    && steps[17] == MarkCompleted(c) && steps[18] == BeginCallback(1)
  }

  lemma FirstDispatch(states: seq<State>, steps: seq<Step>, c: string)
    requires Traced(states, steps) && Dispatches(steps, c)
    ensures 7 < |states| && forall k :: 0 <= k < 7 ==> Enabled(states[k], steps[k])
    ensures
      && states[1].shared == Shared([Ticket(0, c)], None, false, 0, false, true, 1, 8)
      && states[4].shared == Shared([], None, true, 0, false, true, 1, 8)
      && states[7] == State(Shared([], Some(Ticket(0, c)), false, 0, false, true, 1, 8), Looking, {}, [c],
                            [Ticket(0, c)], false)
  {
    assert states[1] == Next(states[0], steps[0]);
    assert states[1] == State(Shared([Ticket(0, c)], None, false, 0, false, true, 1, 8), Looking, {}, [c], [], false);
    assert Enabled(states[0], steps[0]);
    hide Next, Enabled, Linked;
    DispatchesAlone(states, steps, 1, Ticket(0, c));
  }

  // One exchange whose callback queues the next command.
  lemma FirstExchange(states: seq<State>, steps: seq<Step>, c: string, d: string)
    requires Traced(states, steps) && Exchanges(steps, c, d)
    ensures 11 < |states| && forall k :: 0 <= k < 11 ==> Enabled(states[k], steps[k])
    ensures
      && states[7].shared == Shared([], Some(Ticket(0, c)), false, 0, false, true, 1, 8) && states[7].holders == {}
      && states[9].shared.outstanding.None?
      && states[11] == State(Shared([Ticket(1, d)], None, false, 0, false, true, 2, 8), Looking, {}, [c, d],
                             [Ticket(0, c)], false)
  {
    hide Next, Enabled, Linked, Traced, Start, Dispatches;
    FirstDispatch(states, steps, c);
    TracedLinked(states, steps);
    CallbackQueues(states, steps, 7, c, d);
  }

  lemma TracedValid(r: Run)
    requires Traced(r.states, r.steps) && forall k :: 0 <= k < |r.steps| ==> Enabled(r.states[k], r.steps[k])
    ensures r.Valid()
  {
    hide Next, Enabled;
  }

  // A run of one dispatch.
  lemma DispatchRun(r: Run, c: string)
    requires Traced(r.states, r.steps) && |r.steps| == 7 && Dispatches(r.steps, c)
    ensures |r.states| == 8 && r.Valid() && Disciplined(r)
    ensures r.At(1) == Shared([Ticket(0, c)], None, false, 0, false, true, 1, 8)
    ensures r.At(4) == Shared([], None, true, 0, false, true, 1, 8)
  {
    hide Traced, Enabled, Next, Run.Valid;
    TracedLinked(r.states, r.steps);
    FirstDispatch(r.states, r.steps, c);
    TracedValid(r);
  }

  // A run of one exchange whose callback queues the next command.
  lemma ExchangeRun(r: Run, c: string, d: string)
    requires Traced(r.states, r.steps) && |r.steps| == 11 && Exchanges(r.steps, c, d)
    ensures |r.states| == 12 && r.Valid() && Disciplined(r)
    ensures r.At(7) == Shared([], Some(Ticket(0, c)), false, 0, false, true, 1, 8)
    ensures r.At(9).outstanding.None? && r.At(11) == Shared([Ticket(1, d)], None, false, 0, false, true, 2, 8)
  {
    hide Traced, Enabled, Next, Run.Valid;
    TracedLinked(r.states, r.steps);
    FirstExchange(r.states, r.steps, c, d);
    TracedValid(r);
  }

  /** Read in the opposite order, the four indicators can all look idle while a command is on its way out. */
  lemma ReversedScanMisreports()
    ensures exists r: Run, guards: nat, queue: nat ::
              && r.Valid() && Disciplined(r) && guards <= queue < |r.states|
              && r.At(guards).guards == 0 && r.At(guards).outstanding.None? && !r.At(guards).dispatching
              && r.At(queue).queue == [] && r.At(queue).activity == r.At(guards).activity
              && r.At(queue).dispatching
  {
    var r := Run(Trace(Start(8), DISPATCH_STEPS), DISPATCH_STEPS);
    TraceTraced(DISPATCH_STEPS);
    DispatchStepsMatch();
    hide *;
    DispatchRun(r, "010C");
    ShownAt(r);
  }

  const DISPATCH_STEPS := [Enqueue("010C"), Work, Work, Work, Work, Work, Work]

  lemma DispatchStepsMatch()
    ensures Dispatches(DISPATCH_STEPS, "010C") && |DISPATCH_STEPS| == 7
  {
  }

  lemma ShownAt(r: Run)
    requires |r.states| == 8 && r.At(1) == Shared([Ticket(0, "010C")], None, false, 0, false, true, 1, 8)
    requires r.At(4) == Shared([], None, true, 0, false, true, 1, 8)
    ensures r.At(1).guards == 0 && r.At(1).outstanding.None? && !r.At(1).dispatching
    ensures r.At(4).queue == [] && r.At(4).activity == r.At(1).activity && r.At(4).dispatching
  {
  }

  // Whatever is outstanding at `j` but was not at `m` has been recorded in between, and has stayed since.
  lemma {:induction false} RecordedBefore(r: Run, m: nat, j: nat) returns (i: nat)
    requires r.Valid() && m <= j < |r.states| && r.At(m).outstanding.None? && r.At(j).outstanding.Some?
    ensures m <= i < j && RecordsAt(r, i) && r.At(j).outstanding == Some(r.states[i].worker.t)
    ensures forall h :: i < h <= j ==> r.At(h).outstanding == r.At(j).outstanding
    decreases j
  {
    assert r.states[j] == Next(r.states[j - 1], r.steps[j - 1]) && Enabled(r.states[j - 1], r.steps[j - 1]);
    i := j - 1;
    if r.At(j - 1).outstanding.Some? && !RecordsAt(r, j - 1) {
      i := RecordedBefore(r, m, j - 1);
    }
  }

  /** The command `c` recorded at `i` is still outstanding at `j`. */
  ghost predicate StillOutstanding(r: Run, i: nat, j: nat, c: string)
    requires r.Valid() && j < |r.states|
  {
    && i < j && RecordsAt(r, i) && r.states[i].worker.t.command == c
    && forall h :: i < h <= j ==> r.At(h).outstanding == Some(r.states[i].worker.t)
  }

  /**
   After a completion signal that was effective at `k`, a further signal for the same command string
   at `l` changes nothing if and only if the worker has not, in between, recorded a command with that
   very string which is still outstanding.
   */
  lemma SecondCompletion(r: Run, k: nat, l: nat, c: string)
    requires r.Valid() && k < l < |r.steps| && r.steps[k] == r.steps[l] == MarkCompleted(c)
    requires r.At(k).outstanding.Some? && r.At(k).outstanding.value.command == c
    ensures r.states[l + 1] == r.states[l] <==> !exists i :: k < i && StillOutstanding(r, i, l, c)
  {
    assert r.states[k + 1] == Next(r.states[k], r.steps[k]);
    SignalChanges(r, l, c);
    forall i | k < i && StillOutstanding(r, i, l, c) ensures Completes(r.At(l), c) {
    }
    assert r.At(k + 1).outstanding.None?;
    if Completes(r.At(l), c) {
      var i := RecordedBefore(r, k + 1, l);
      assert k < i && StillOutstanding(r, i, l, c);
    }
  }

  lemma SignalChanges(r: Run, l: nat, c: string)
    requires r.Valid() && l < |r.steps| && r.steps[l] == MarkCompleted(c)
    ensures r.states[l + 1] != r.states[l] <==> Completes(r.At(l), c)
  {
    assert r.states[l + 1] == Next(r.states[l], r.steps[l]);
  }

  // One exchange whose callback queues a successor.
  const NO_EPOCH_STEPS := [Enqueue("010C"), Work, Work, Work, Work, Work, Work,
                           BeginCallback(0), MarkCompleted("010C"), Enqueue("010D"), EndCallback(0)]

  /** Without the epoch check the downstream order is not enough: a finished callback may have queued a successor. */
  lemma ScanWithoutEpochMisreports()
    ensures exists r: Run, first: nat, second: nat, third: nat ::
              && r.Valid() && Disciplined(r) && first <= second <= third < |r.states|
              && r.At(first).queue == [] && !r.At(first).dispatching && r.At(second).outstanding.None?
              && r.At(third).guards == 0 && r.At(third).queue != []
  {
    var r := Run(Trace(Start(8), NO_EPOCH_STEPS), NO_EPOCH_STEPS);
    TraceTraced(NO_EPOCH_STEPS);
    NoEpochStepsMatch();
    hide Trace, Next, Enabled, Start, Traced, Run.Valid, Disciplined, Exchanges;
    ExchangeRun(r, "010C", "010D");
    assert r.At(7).queue == [] && !r.At(7).dispatching && r.At(9).outstanding.None?;
    assert r.At(11).guards == 0 && r.At(11).queue != [];
  }

  lemma NoEpochStepsMatch()
    ensures Exchanges(NO_EPOCH_STEPS, "010C", "010D") && |NO_EPOCH_STEPS| == 11
  {
  }

  // Two exchanges with the same command string; the first one's second completion signal comes late.
  const STALE_STEPS := [Enqueue("010C"), Work, Work, Work, Work, Work, Work,
                        BeginCallback(0), MarkCompleted("010C"), Enqueue("010C"), EndCallback(0),
                        Work, Work, Work, Work, Work, Work, MarkCompleted("010C"), BeginCallback(1)]

  // The second exchange, and the first one's late signal.
  lemma StaleSecondExchange(states: seq<State>, steps: seq<Step>, c: string)
    requires Traced(states, steps) && Repeats(steps, c) && |states| == 20
    requires states[11] == State(Shared([Ticket(1, c)], None, false, 0, false, true, 2, 8), Looking, {}, [c, c],
                                 [Ticket(0, c)], false)
    ensures forall k :: 11 <= k < 19 ==> Enabled(states[k], steps[k])
    ensures states[18].shared == Shared([], None, false, 0, false, true, 2, 8) && states[18].holders == {}
    ensures states[19].shared == Shared([], None, false, 1, false, true, 2, 8)
  {
    DispatchesAlone(states, steps, 11, Ticket(1, c));
    hide WorkerStep;
    assert states[18] == Next(states[17], steps[17]);
    assert states[19] == Next(states[18], steps[18]);
  }

  /**
   A completion names only a command string. When an exchange's successor carries the same string, the
   second completion signal for the first exchange completes the successor before its own reply came:
   the next reply callback then starts with nothing outstanding, and a scan that had just read the
   guards reports idle while that callback runs.
   */
  lemma StaleCompletionMisreports()
    ensures exists r: Run, scan: Scan ::
              && r.Valid() && scan.Ordered(r) && scan.ReportsIdle(r)
              && r.At(scan.verdict).guards > 0
              && (forall k :: 0 <= k < |r.steps| ==> r.steps[k] != Drop && r.steps[k] != Clear)
  {
    var r := Run(Trace(Start(8), STALE_STEPS), STALE_STEPS);
    TraceTraced(STALE_STEPS);
    StaleStepsRepeat();
    hide *;
    StaleRun(r, "010C");
    var scan := Scan(18, 18, 18, 18, 18, 19);
    ScanReports(r, scan);
  }

  lemma StaleStepsRepeat()
    ensures Repeats(STALE_STEPS, "010C")
  {
  }

  lemma ScanReports(r: Run, scan: Scan)
    requires r.Valid() && scan == Scan(18, 18, 18, 18, 18, 19) && |r.states| == 20
    requires r.At(18) == Shared([], None, false, 0, false, true, 2, 8) &&
             r.At(19) == Shared([], None, false, 1, false, true, 2, 8)
    ensures scan.Ordered(r) && scan.ReportsIdle(r)
  {
    hide Run.Valid;
  }

  lemma StaleRun(r: Run, c: string)
    requires Traced(r.states, r.steps) && Repeats(r.steps, c)
    ensures |r.states| == 20 && r.Valid()
    ensures forall k :: 0 <= k < |r.steps| ==> r.steps[k] != Drop && r.steps[k] != Clear
    ensures r.At(18) == Shared([], None, false, 0, false, true, 2, 8) &&
            r.At(19) == Shared([], None, false, 1, false, true, 2, 8)
  {
    hide Traced, Enabled, Next, Run.Valid;
    TracedLinked(r.states, r.steps);
    FirstExchange(r.states, r.steps, c, c);
    StaleSecondExchange(r.states, r.steps, c);
    TracedValid(r);
  }
}
