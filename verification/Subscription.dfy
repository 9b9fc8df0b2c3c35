/**
 Subscriptions and the tiered scheduler as values: what every operation makes of the manager's state, which
 pid a scan may pick, and how a completion is accounted. Hash-map order is left open: where the program
 takes the first match, any match may be taken.
 */
module Subscriptions {
  import opened Wrappers
  import opened Text
  import opened PidRegistry
  import opened Acquisition

  // ---------------------------------------------------------------- tiers

  datatype Tier = Fast | Medium | Slow {
    function Divisor(): (d: nat)
      ensures 1 <= d <= 10
    {
      match this case Fast => 1 case Medium => 3 case Slow => 10
    }
  }

  type Tiers = map<string, Tier>

  /** An explicit entry, else the mode 01 pid a 22F4 mirror reads, else Medium. */
  function ResolveTier(pid: string, tiers: Tiers): Tier {
    var p := Upper(Trim(pid));
    if pid in tiers then tiers[pid]
    else if |p| == 6 && "22F4" <= p && "01" + p[4..] in tiers then tiers["01" + p[4..]]
    else Medium
  }

  const DEFAULT_TIERS: Tiers := map[
    "010C" := Fast, "010D" := Fast, "0111" := Fast, "0110" := Fast, "0104" := Fast,
    "0105" := Slow, "015C" := Slow, "0133" := Slow, "012F" := Slow, "011F" := Slow, "0131" := Slow,
    "0902" := Slow, "090A" := Slow, "0142" := Slow]

  // ---------------------------------------------------------------- state

  datatype SubState = Active | Paused | Cancelled | Completed | Faulted(message: string)

  datatype Sub = Sub(
    pids: set<string>, target: Option<string>, state: SubState, hostPaused: bool,
    runCounts: map<string, Option<nat>>, execCounts: map<string, nat>,
    runOnceOnly: bool, timeoutMs: Option<nat>, tiers: Tiers)

  datatype SubError = NotFound | InvalidPid(pid: string) | AlreadyExists | NotActive

  datatype Sched = Sched(
    subs: map<Id, Sub>, registry: Registry, inFlight: set<string>, streamed: set<string>, ticks: map<string, nat>)
  {
    function Tick(pid: string): nat {
      if pid in ticks then ticks[pid] else 0
    }

    predicate Held(pid: string) {
      exists id :: id in subs && pid in subs[id].pids
    }
  }

  const EMPTY := Sched(map[], Registry(map[], map[]), {}, {}, map[])

  /** A registry entry for exactly the pids subscriptions hold, and nothing left over. */
  ghost predicate Coherent(s: Sched) {
    && s.registry.Tidy()
    && forall pid, id :: s.registry.Holds(pid, id) <==> id in s.subs && pid in s.subs[id].pids
  }

  // Every held pid has a run count, and fewer executions than its limit; a limit of zero never ran.
  predicate CountedSub(sub: Sub) {
    forall pid :: pid in sub.pids ==>
      && pid in sub.runCounts && pid in sub.execCounts
      && (sub.runCounts[pid].Some? ==>
            sub.execCounts[pid] < (if sub.runCounts[pid].value == 0 then 1 else sub.runCounts[pid].value))
  }

  ghost predicate Inv(s: Sched) {
    && Coherent(s)
    && forall id :: id in s.subs ==> CountedSub(s.subs[id]) && s.subs[id].pids <= s.ticks.Keys
  }

  // ---------------------------------------------------------------- editing

  const NEW_SUB := Sub({}, None, Paused, false, map[], map[], false, None, DEFAULT_TIERS)

  function RunCountOf(counts: map<string, Option<nat>>, pid: string): Option<nat> {
    if pid in counts then counts[pid] else None
  }

  function AddOne(sub: Sub, pid: string, count: Option<nat>): Sub {
    sub.(pids := sub.pids + {pid}, runCounts := sub.runCounts[pid := count], execCounts := sub.execCounts[pid := 0])
  }

  function AddToSub(sub: Sub, pids: seq<string>, counts: map<string, Option<nat>>): Sub {
    if pids == [] then sub
    else
      var k := |pids| - 1;
      AddOne(AddToSub(sub, pids[..k], counts), pids[k], RunCountOf(counts, pids[k]))
  }

  function SeedTicks(ticks: map<string, nat>, pids: seq<string>, seed: nat): map<string, nat> {
    if pids == [] then ticks
    else
      var k := |pids| - 1;
      SeedTicks(ticks, pids[..k], seed)[pids[k] := seed]
  }

  function RegisterAll(r: Registry, pids: seq<string>, id: Id, controller: Option<string>): Registry {
    if pids == [] then r
    else
      var k := |pids| - 1;
      RegisterAll(r, pids[..k], id, controller).Register(pids[k], id, controller)
  }

  function UnregisterPids(r: Registry, pids: seq<string>, id: Id): (q: Registry)
    ensures r.Tidy() ==> q.Tidy()
  {
    if pids == [] then r
    else
      var k := |pids| - 1;
      UnregisterPids(r, pids[..k], id).Unregister(pids[k], {id})
  }

  /** The schedule floor: the least tick of a pid some subscription holds, zero if there is none. */
  ghost predicate IsSeed(s: Sched, seed: nat) {
    if exists pid :: pid in s.ticks && s.Held(pid) then
      && (exists pid :: pid in s.ticks && s.Held(pid) && s.ticks[pid] == seed)
      && forall pid :: pid in s.ticks && s.Held(pid) ==> seed <= s.ticks[pid]
    else seed == 0
  }

  predicate IsDigits(s: string) {
    forall i :: 0 <= i < |s| ==> '0' <= s[i] <= '9'
  }

  // An adapter command, or an even number of hex digits and perhaps an expected-responses count.
  predicate IsValidSimple(cmd: string) {
    if "AT" <= cmd || "ST" <= cmd then |cmd| >= 3
    else
      var parts := Text.Split(cmd, ' ');
      var head, tail := parts[0], Join(parts[1..], ' ');
      (|parts| == 1 || (|tail| <= 2 && IsDigits(tail))) && 2 <= |head| <= 26 && |head| % 2 == 0 && AllHex(head)
  }

  /** Pipes split a batch; every segment must be valid and none blank. */
  predicate IsValidPid(cmd: string) {
    var t := Trim(Upper(cmd));
    var segments := Text.Split(t, '|');
    if |segments| > 1 then forall i :: 0 <= i < |segments| ==>
        Trim(segments[i]) != [] && IsValidSimple(Trim(segments[i]))
    else IsValidSimple(t)
  }

  function FirstInvalid(pids: seq<string>): (r: Option<string>)
    ensures r.None? <==> forall i :: 0 <= i < |pids| ==> IsValidPid(pids[i])
  {
    if pids == [] then None else if !IsValidPid(pids[0]) then Some(pids[0]) else FirstInvalid(pids[1..])
  }

  predicate AllLimited(pids: seq<string>, counts: map<string, Option<nat>>) {
    forall i :: 0 <= i < |pids| ==> RunCountOf(counts, pids[i]).Some?
  }

  function Edited(sub: Sub, pids: seq<string>, controller: Option<string>, counts: map<string, Option<nat>>): Sub {
    AddToSub(sub, pids, counts).(
      runOnceOnly := sub.runOnceOnly || (pids != [] && AllLimited(pids, counts)),
      target := if controller.Some? then controller else sub.target)
  }

  function AddPids(s: Sched, id: Id, pids: seq<string>, controller: Option<string>, counts: map<string, Option<nat>>,
                   seed: nat): Result<Sched, SubError> {
    if id !in s.subs then Failure(NotFound)
    else if s.subs[id].state == Cancelled then Failure(NotActive)
    else
      match FirstInvalid(pids)
      case Some(pid) => Failure(InvalidPid(pid))
      case None =>
        Success(s.(subs := s.subs[id := Edited(s.subs[id], pids, controller, counts)],
                   registry := RegisterAll(s.registry, pids, id, controller),
                   ticks := SeedTicks(s.ticks, pids, seed)))
  }

  function RemovePids(s: Sched, id: Id, pids: seq<string>): Result<Sched, SubError> {
    if id !in s.subs then Failure(NotFound)
    else if s.subs[id].state == Cancelled then Failure(NotActive)
    else
      var gone := set i | 0 <= i < |pids| :: pids[i];
      Success(s.(subs := s.subs[id := s.subs[id].(pids := s.subs[id].pids - gone)],
                 registry := UnregisterPids(s.registry, pids, id)))
  }

  // A start clears the host's pause mark even when it is refused.
  function StartedSub(sub: Sub): Sub {
    sub.(hostPaused := false, state := if sub.state == Paused then Active else sub.state)
  }

  function Start(s: Sched, id: Id): (Sched, Result<(), SubError>) {
    if id !in s.subs then (s, Failure(NotFound))
    else
      (s.(subs := s.subs[id := StartedSub(s.subs[id])]),
       if s.subs[id].state == Active || s.subs[id].state == Paused then Success(()) else Failure(NotActive))
  }

  function Pause(s: Sched, id: Id): Result<Sched, SubError> {
    if id !in s.subs then Failure(NotFound)
    else if s.subs[id].state == Cancelled then Failure(NotActive)
    else Success(s.(subs := s.subs[id := s.subs[id].(state := Paused, hostPaused := true)]))
  }

  function PausedSub(sub: Sub): Sub {
    if sub.state == Active then sub.(state := Paused) else sub
  }

  function PauseAll(s: Sched): Sched {
    s.(subs := map id | id in s.subs :: PausedSub(s.subs[id]))
  }

  function ResumedSub(sub: Sub): Sub {
    if sub.state == Paused && !sub.hostPaused then sub.(state := Active) else sub
  }

  function ResumeMany(s: Sched, ids: set<Id>): Sched {
    s.(subs := map id | id in s.subs :: if id in ids then ResumedSub(s.subs[id]) else s.subs[id])
  }

  function Cancel(s: Sched, id: Id): Result<Sched, SubError> {
    if id !in s.subs then Failure(NotFound)
    else Success(s.(subs := s.subs - {id}, registry := s.registry.UnregisterAll(id)))
  }

  // ---------------------------------------------------------------- picking

  predicate RunLimitReached(sub: Sub, pid: string) {
    pid in sub.runCounts && sub.runCounts[pid].Some?
    && (if pid in sub.execCounts then sub.execCounts[pid] else 0) >= sub.runCounts[pid].value
  }

  predicate Owns(s: Sched, id: Id, pid: string) {
    id in s.subs && pid in s.subs[id].pids && s.subs[id].state == Active
  }

  predicate Waiting(s: Sched, pid: string) {
    pid in s.registry.holders && pid !in s.inFlight && pid !in s.streamed
  }

  // A scan that takes `id` as the owner finds `pid` eligible.
  predicate EligibleBy(s: Sched, pid: string, id: Id) {
    Waiting(s, pid) && Owns(s, id, pid) && !RunLimitReached(s.subs[id], pid)
  }

  /** Eligible whichever active holder the scan finds first. */
  ghost predicate SurelyEligible(s: Sched, pid: string) {
    Waiting(s, pid) && (exists id :: Owns(s, id, pid)) && forall id :: Owns(s, id, pid) ==>
        !RunLimitReached(s.subs[id], pid)
  }

  datatype Due = Due(pid: string, controller: Option<string>, timeoutMs: Option<nat>, tick: nat)

  /** What a scan can find: an eligible pid that no surely eligible pid is more overdue than. */
  ghost predicate Found(s: Sched, found: Option<Due>) {
    match found
    case None => forall pid :: !SurelyEligible(s, pid)
    case Some(d) =>
      && (exists id :: EligibleBy(s, d.pid, id) && d.timeoutMs == s.subs[id].timeoutMs)
      && d.controller == s.registry.ControllerOf(d.pid) && d.tick == s.Tick(d.pid)
      && forall q :: SurelyEligible(s, q) ==> d.tick <= s.Tick(q)
  }

  /** The divisor of a holder, whatever its state; Medium if there is none. */
  ghost predicate DivisorOf(s: Sched, pid: string, divisor: nat) {
    if s.Held(pid) then
        exists id :: id in s.subs && pid in s.subs[id].pids && divisor == ResolveTier(pid, s.subs[id].tiers).Divisor()
    else divisor == Medium.Divisor()
  }

  function Commit(s: Sched, pid: string, divisor: nat): Sched {
    s.(ticks := s.ticks[pid := s.Tick(pid) + divisor], inFlight := s.inFlight + {pid})
  }

  ghost predicate Committed(s: Sched, pid: string, next: Sched) {
    exists divisor :: DivisorOf(s, pid, divisor) && next == Commit(s, pid, divisor)
  }

  // ---------------------------------------------------------------- sweeps

  function DuePickOf(d: Due): DuePick {
    DuePick(d.pid, d.controller, d.timeoutMs)
  }

  function DuePicks(picks: seq<Due>): (r: seq<DuePick>)
    ensures |r| == |picks|
    ensures forall i :: 0 <= i < |picks| ==> r[i] == DuePickOf(picks[i])
  {
    seq(|picks|, i requires 0 <= i < |picks| => DuePickOf(picks[i]))
  }

  /** May `due` ride the exchange `picks` started: as overdue as the first, same target, and room for it. */
  predicate Joins(admission: Admission, picks: seq<Due>, due: Due) {
    picks == [] ||
    (due.tick <= picks[0].tick && due.controller == picks[0].controller &&
     Admits(admission, DuePicks(picks), DuePickOf(due)))
  }

  // Picks made one by one, each found in the state the ones before it left.
  ghost predicate PickedInTurn(s: Sched, admission: Admission, picks: seq<Due>, t: Sched) {
    if picks == [] then t == s
    else
      var k := |picks| - 1;
      && Joins(admission, picks[..k], picks[k])
      && exists mid ::
           PickedInTurn(s, admission, picks[..k], mid) && Found(mid, Some(picks[k])) && Committed(mid, picks[k].pid, t)
  }

  /** One exchange's picks: in turn, until the limit, nothing is found, or what is found may not join. */
  ghost predicate Exchange(s: Sched, max: nat, admission: Admission, picks: seq<Due>, t: Sched) {
    var limit := if max > 1 then max else 1;
    && PickedInTurn(s, admission, picks, t) && |picks| <= limit
    && (|picks| == limit || Found(t, None) || exists due :: Found(t, Some(due)) && !Joins(admission, picks, due))
  }

  // ---------------------------------------------------------------- completing

  /** One run of `pid` counted; at its limit the pid leaves the subscription. */
  function CompleteSub(sub: Sub, pid: string): Sub {
    if pid !in sub.pids || sub.state != Active then sub
    else
      var runs := (if pid in sub.execCounts then sub.execCounts[pid] else 0) + 1;
      if pid in sub.runCounts && sub.runCounts[pid].Some? && runs >= sub.runCounts[pid].value then
        sub.(pids := sub.pids - {pid}, runCounts := sub.runCounts - {pid}, execCounts := sub.execCounts - {pid})
      else sub.(execCounts := sub.execCounts[pid := runs])
  }

  function Finished(s: Sched, pid: string): set<Id> {
    set id | id in s.subs && pid in s.subs[id].pids && pid !in CompleteSub(s.subs[id], pid).pids
  }

  /** The completion of `sent`, accounted to `actual` in every active subscription that holds it. */
  function Complete(s: Sched, sent: string, actual: string): Sched {
    s.(inFlight := s.inFlight - {sent},
       subs := map id | id in s.subs :: CompleteSub(s.subs[id], actual),
       registry := s.registry.Unregister(actual, Finished(s, actual)))
  }

  predicate Emptied(sub: Sub) {
    sub.runOnceOnly && sub.state == Active && sub.pids == {}
  }

  ghost function AllEmptied(s: Sched): set<Id> {
    set id | id in s.subs && Emptied(s.subs[id])
  }

  /** At most one emptied run-once subscription is marked and reported. */
  ghost predicate Marked(s: Sched, reported: Option<Id>, next: Sched) {
    match reported
    case None => next == s && AllEmptied(s) == {}
    case Some(id) =>
      id in AllEmptied(s) && next == s.(subs := s.subs[id := s.subs[id].(state := Completed)])
  }

  // The pid a reply names: mode 01 and 09 echo one byte, modes 22 and 24 two.
  function ReplyPid(tokens: seq<string>): Option<string> {
    if |tokens| < 2 then None
    else if tokens[0] in {"41", "49"} && |tokens[1]| == 2 && AllHex(tokens[1]) then
      Some(Upper((if tokens[0] == "41" then "01" else "09") + tokens[1]))
    else if tokens[0] in {"62", "64"} && |tokens| > 2 && |tokens[1]| == 2 && AllHex(tokens[1]) && |tokens[2]| == 2 &&
        AllHex(tokens[2]) then
      Some(Upper((if tokens[0] == "62" then "22" else "24") + tokens[1] + tokens[2]))
    else ReplyPid(tokens[1..])
  }

  // Only a plain single-pid request is checked against the echo in its reply.
  predicate CrossCheckable(pid: string) {
    && '|' !in pid && ' ' !in pid
    && (("01" <= pid || "09" <= pid) ==> |pid| == 4) && (("22" <= pid || "24" <= pid) ==> |pid| == 6)
    && ("01" <= pid || "09" <= pid || "22" <= pid || "24" <= pid)
  }

  /** The pid a completion counts for: the one the reply names, if it is of the sent pid's mode. */
  function ActualPid(sent: string, response: Option<string>): string {
    match response
    case None => sent
    case Some(text) =>
      match ReplyPid(Tokens(text))
      case None => sent
      case Some(named) => if CrossCheckable(sent) && |named| >= 2 && named[..2] == sent[..2] then named else sent
  }
}
