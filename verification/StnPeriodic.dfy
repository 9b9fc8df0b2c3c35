/**
 Adapter-side periodic messages: packing signals into requests whose replies fit one CAN frame, and routing a
 received frame to the message it answers.
 */
module StnPeriodic {
  import opened Wrappers
  import opened Text
  import opened Sequences
  import opened LengthCaching
  import opened Acquisition
  import opened Subscriptions
  import opened ElmWire
  import opened PollPlugins

  datatype TierPeriods = TierPeriods(fastMs: nat, mediumMs: nat, slowMs: nat) {
    function PeriodFor(tier: Tier): nat {
      match tier case Fast => fastMs case Medium => mediumMs case Slow => slowMs
    }
  }

  datatype TieredSignal = TieredSignal(pid: string, controller: Option<string>, tier: Tier)

  datatype PeriodicMessage = PeriodicMessage(periodMs: nat, header: string, data: string, pids: seq<string>)

  // ---------------------------------------------------------------- the reply budget

  const FRAME_BYTES: nat := 7

  // The bytes a member takes in a reply: its echo and its data.
  function MemberCost(pid: string, len: byte): (cost: nat)
    ensures cost >= 1
  {
    var echo := if |pid| < 4 then 1 else (|pid| - 2) / 2;
    echo + len as nat
  }

  function CostOf(lengths: Lengths, pid: string): nat {
    match LengthOf(lengths, pid) case Some(len) => MemberCost(pid, len) case None => 0
  }

  function TotalCost(lengths: Lengths, pids: seq<string>): nat {
    if pids == [] then 0 else TotalCost(lengths, pids[..|pids| - 1]) + CostOf(lengths, pids[|pids| - 1])
  }

  /** All members fit one single-frame reply under the count cap. */
  predicate FitsSingleFrame(lengths: Lengths, pids: seq<string>, cap: nat) {
    pids != [] && |pids| <= (if cap < 1 then 1 else cap) && 1 + TotalCost(lengths, pids) <= FRAME_BYTES
  }

  function Min(a: nat, b: nat): nat { if a < b then a else b }

  // A reply of the mode byte and then any number of bytes, when the adapter assembles frames.
  const UNBOUNDED: nat := 255

  function BudgetFor(single: bool): nat { if single then FRAME_BYTES - 1 else UNBOUNDED }

  /** Fill the current message until the next member does not fit; `budget` is what it has left. */
  function Greedy(lengths: Lengths, members: seq<string>, current: seq<string>, budget: nat, cap: nat,
                  limit: nat): seq<seq<string>> {
    if members == [] then (if current == [] then [] else [current])
    else
      var cost := CostOf(lengths, members[0]);
      if current != [] && (|current| >= cap || cost > budget) then
        [current] + Greedy(lengths, members[1..], [members[0]], limit - Min(cost, limit), cap, limit)
      else
        Greedy(lengths, members[1..], current + [members[0]], budget - Min(cost, budget), cap, limit)
  }

  lemma {:induction false} TotalAppend(lengths: Lengths, x: seq<string>, pid: string)
    ensures TotalCost(lengths, x + [pid]) == TotalCost(lengths, x) + CostOf(lengths, pid)
  {
    assert (x + [pid])[..|x|] == x;
  }

  /** The greedy packing keeps the members in order, each once; no message is empty or over the cap. */
  lemma {:induction false} GreedyKeeps(lengths: Lengths, members: seq<string>, current: seq<string>, budget: nat,
                                       cap: nat, limit: nat)
    requires cap >= 1 && |current| <= cap
    ensures
      var groups := Greedy(lengths, members, current, budget, cap, limit);
      Flatten(groups) == current + members && forall g :: 0 <= g < |groups| ==> groups[g] != [] && |groups[g]| <= cap
    decreases |members|
  {
    hide CostOf, Flatten;
    if members == [] {
      FlattenOpen(current);
    } else {
      var m, cost := members[0], CostOf(lengths, members[0]);
      if current != [] && (|current| >= cap || cost > budget) {
        GreedyKeeps(lengths, members[1..], [m], limit - Min(cost, limit), cap, limit);
        FlattenCons(current, Greedy(lengths, members[1..], [m], limit - Min(cost, limit), cap, limit));
        assert [m] + members[1..] == members;
      } else {
        GreedyKeeps(lengths, members[1..], current + [m], budget - Min(cost, budget), cap, limit);
        assert current + [m] + members[1..] == current + members;
      }
    }
  }

  predicate AllWithin(lengths: Lengths, groups: seq<seq<string>>, limit: nat) {
    forall g :: 0 <= g < |groups| ==> TotalCost(lengths, groups[g]) <= limit
  }

  lemma WithinCons(lengths: Lengths, first: seq<string>, rest: seq<seq<string>>, limit: nat)
    requires TotalCost(lengths, first) <= limit && AllWithin(lengths, rest, limit)
    ensures AllWithin(lengths, [first] + rest, limit)
  {
    hide TotalCost;
  }

  /** If every member fits alone, every message is within the budget. */
  lemma {:induction false} GreedyFits(lengths: Lengths, members: seq<string>, current: seq<string>, budget: nat,
                                      cap: nat, limit: nat)
    requires TotalCost(lengths, current) + budget == limit
    requires forall i :: 0 <= i < |members| ==> CostOf(lengths, members[i]) <= limit
    ensures AllWithin(lengths, Greedy(lengths, members, current, budget, cap, limit), limit)
    decreases |members|
  {
    assert current == [] ==> TotalCost(lengths, current) == 0;
    hide CostOf, AllWithin, TotalCost;
    if members == [] {
      NoneWithin(lengths, limit);
      WithinCons(lengths, current, [], limit);
      assert [current] + [] == [current];
    } else {
      var m, cost := members[0], CostOf(lengths, members[0]);
      if current != [] && (|current| >= cap || cost > budget) {
        TotalOne(lengths, m);
        GreedyFits(lengths, members[1..], [m], limit - Min(cost, limit), cap, limit);
        WithinCons(lengths, current, Greedy(lengths, members[1..], [m], limit - Min(cost, limit), cap, limit), limit);
      } else {
        TotalAppend(lengths, current, m);
        GreedyFits(lengths, members[1..], current + [m], budget - Min(cost, budget), cap, limit);
      }
    }
  }

  lemma NoneWithin(lengths: Lengths, limit: nat)
    ensures AllWithin(lengths, [], limit)
  {
  }

  lemma FlattenOpen(current: seq<string>)
    ensures Flatten(if current == [] then [] else [current]) == current
  {
  }

  lemma TotalOne(lengths: Lengths, pid: string)
    ensures TotalCost(lengths, [pid]) == CostOf(lengths, pid)
  {
    assert [pid][..0] == [];
  }

  /** Greedy wastes no room: a member starts a message only because the one before was full for it. */
  lemma {:induction false} GreedyTight(lengths: Lengths, members: seq<string>, current: seq<string>, budget: nat,
                                       cap: nat, limit: nat, g: nat)
    requires TotalCost(lengths, current) + budget == limit
    requires forall i :: 0 <= i < |members| ==> CostOf(lengths, members[i]) <= limit
    requires g + 1 < |Greedy(lengths, members, current, budget, cap, limit)|
    ensures
      var groups := Greedy(lengths, members, current, budget, cap, limit);
      && groups[g + 1] != []
      && (|groups[g]| >= cap || TotalCost(lengths, groups[g]) + CostOf(lengths, groups[g + 1][0]) > limit)
    decreases |members|
  {
    hide CostOf;
    var m, cost := members[0], CostOf(lengths, members[0]);
    if current != [] && (|current| >= cap || cost > budget) {
      TotalOne(lengths, m);
      var rest := Greedy(lengths, members[1..], [m], limit - Min(cost, limit), cap, limit);
      if g == 0 {
        GreedyHead(lengths, members[1..], [m], limit - Min(cost, limit), cap, limit);
      } else {
        GreedyTight(lengths, members[1..], [m], limit - Min(cost, limit), cap, limit, g - 1);
      }
    } else {
      TotalAppend(lengths, current, m);
      assert current == [] ==> TotalCost(lengths, current) == 0;
      GreedyTight(lengths, members[1..], current + [m], budget - Min(cost, budget), cap, limit, g);
    }
  }

  // The first message starts with the running one.
  lemma {:induction false} GreedyHead(lengths: Lengths, members: seq<string>, current: seq<string>, budget: nat,
                                      cap: nat, limit: nat)
    requires current != []
    ensures
      var groups := Greedy(lengths, members, current, budget, cap, limit);
      groups != [] && current <= groups[0]
    decreases |members|
  {
    hide CostOf;
    if members != [] {
      var cost := CostOf(lengths, members[0]);
      if !(|current| >= cap || cost > budget) {
        GreedyHead(lengths, members[1..], current + [members[0]], budget - Min(cost, budget), cap, limit);
      }
    }
  }

  // One member of the running packing.
  lemma GreedyStep(lengths: Lengths, members: seq<string>, i: nat, current: seq<string>, budget: nat, cap: nat,
                   limit: nat, groups: seq<seq<string>>)
    requires i < |members|
    ensures
      var m, cost := members[i], CostOf(lengths, members[i]);
      groups + Greedy(lengths, members[i..], current, budget, cap, limit) ==
      if current != [] && (|current| >= cap || cost > budget)
      then (groups + [current]) + Greedy(lengths, members[i + 1..], [m], limit - Min(cost, limit), cap, limit)
      else groups + Greedy(lengths, members[i + 1..], current + [m], budget - Min(cost, budget), cap, limit)
  {
    hide CostOf, Min;
    assert members[i..][0] == members[i] && members[i..][1..] == members[i + 1..];
  }

  lemma GreedyEnd(lengths: Lengths, members: seq<string>, current: seq<string>, budget: nat, cap: nat, limit: nat,
                  groups: seq<seq<string>>)
    ensures groups + Greedy(lengths, members[|members|..], current, budget, cap, limit) ==
            if current == [] then groups else groups + [current]
  {
  }

  lemma GreedyAll(lengths: Lengths, members: seq<string>, cap: nat, limit: nat)
    ensures [] + Greedy(lengths, members[0..], [], limit, cap, limit) == Greedy(lengths, members, [], limit, cap, limit)
  {
    assert members[0..] == members;
  }

  method PackMembers(lengths: Lengths, members: seq<string>, cap: nat, limit: nat) returns (groups: seq<seq<string>>)
    ensures groups == Greedy(lengths, members, [], limit, cap, limit)
  {
    hide CostOf, Greedy;
    GreedyAll(lengths, members, cap, limit);
    groups := [];
    var current: seq<string>, budget: nat := [], limit;
    var i := 0;
    while i < |members|
      invariant i <= |members|
      invariant groups + Greedy(lengths, members[i..], current, budget, cap, limit) ==
                Greedy(lengths, members, [], limit, cap, limit)
    {
      var pid := members[i];
      var cost := CostOf(lengths, pid);
      GreedyStep(lengths, members, i, current, budget, cap, limit, groups);
      if current != [] && (|current| >= cap || cost > budget) {
        groups := groups + [current];
        current, budget := [], limit;
        assert current + [pid] == [pid];
      }
      budget := budget - Min(cost, budget);
      current := current + [pid];
      i := i + 1;
    }
    GreedyEnd(lengths, members, current, budget, cap, limit, groups);
    if current != [] {
      groups := groups + [current];
    }
  }

  // ---------------------------------------------------------------- which signals share a request

  /** A placed signal: its normalized pid and the header it is asked on. */
  datatype Entry = Entry(pid: string, header: string)

  type Key = (string, string)

  function KeyOf(e: Entry): Key {
    (if |e.pid| >= 2 then e.pid[..2] else e.pid, e.header)
  }

  /** The pids of the entries with a key in `keys`, in order. */
  function OfKeys(entries: seq<Entry>, keys: set<Key>): seq<string> {
    if entries == [] then []
    else
      var before, e := OfKeys(entries[..|entries| - 1], keys), entries[|entries| - 1];
      if KeyOf(e) in keys then before + [e.pid] else before
  }

  lemma {:induction false} KeysSplit(entries: seq<Entry>, keys: set<Key>, key: Key)
    requires key in keys
    ensures multiset(OfKeys(entries, keys)) == multiset(OfKeys(entries, {key})) +
            multiset(OfKeys(entries, keys - {key}))
  {
    hide KeyOf;
    if entries != [] {
      KeysSplit(entries[..|entries| - 1], keys, key);
    }
  }

  lemma {:induction false} NoKeys(entries: seq<Entry>)
    ensures OfKeys(entries, {}) == []
  {
    if entries != [] { NoKeys(entries[..|entries| - 1]); }
  }

  function EntryPids(entries: seq<Entry>): (r: seq<string>)
    ensures |r| == |entries|
    ensures forall i :: 0 <= i < |entries| ==> r[i] == entries[i].pid
  {
    seq(|entries|, i requires 0 <= i < |entries| => entries[i].pid)
  }

  lemma {:induction false} AllKeys(entries: seq<Entry>, keys: set<Key>)
    requires forall i :: 0 <= i < |entries| ==> KeyOf(entries[i]) in keys
    ensures OfKeys(entries, keys) == EntryPids(entries)
  {
    hide KeyOf;
    if entries == [] {
      assert EntryPids([]) == [];
    } else {
      var k := |entries| - 1;
      AllKeys(entries[..k], keys);
      assert EntryPids(entries) == EntryPids(entries[..k]) + [entries[k].pid];
    }
  }

  lemma {:induction false} OfKeyFrom(entries: seq<Entry>, key: Key, pid: string)
    requires pid in OfKeys(entries, {key})
    ensures exists i :: 0 <= i < |entries| && entries[i].pid == pid && KeyOf(entries[i]) == key
  {
    hide KeyOf;
    var k := |entries| - 1;
    if pid in OfKeys(entries[..k], {key}) {
      OfKeyFrom(entries[..k], key, pid);
      var i :| 0 <= i < k && entries[..k][i].pid == pid && KeyOf(entries[..k][i]) == key;
      assert entries[i].pid == pid;
    } else {
      assert entries[k].pid == pid;
    }
  }

  // Unknown length, or too wide to answer in one frame even alone.
  predicate Unplaceable(lengths: Option<Lengths>, pid: string, single: bool) {
    lengths.None? || LengthOf(lengths.value, pid).None? || (single && 1 + CostOf(lengths.value, pid) > FRAME_BYTES)
  }

  function HeaderOf(s: TieredSignal, defaultHeader: string): string {
    match s.controller case Some(c) => c case None => defaultHeader
  }

  // One tier's signals: the entries to place, and the pids left out.
  function Placed(signals: seq<TieredSignal>, tier: Tier, lengths: Option<Lengths>, defaultHeader: string, single: bool)
    : (seq<Entry>, seq<string>)
  {
    if signals == [] then ([], [])
    else
      var s := signals[|signals| - 1];
      var (entries, excluded) := Placed(signals[..|signals| - 1], tier, lengths, defaultHeader, single);
      if s.tier != tier then (entries, excluded)
      else if Unplaceable(lengths, Upper(s.pid), single) then (entries, excluded + [Upper(s.pid)])
      else (entries + [Entry(Upper(s.pid), HeaderOf(s, defaultHeader))], excluded)
  }

  function UpperOf(signals: seq<TieredSignal>, tier: Tier): seq<string> {
    if signals == [] then []
    else
      var s, before := signals[|signals| - 1], UpperOf(signals[..|signals| - 1], tier);
      if s.tier == tier then before + [Upper(s.pid)] else before
  }

  /** Every signal of the tier is placed or left out, once. */
  lemma {:induction false} PlacedAll(signals: seq<TieredSignal>, tier: Tier, lengths: Option<Lengths>,
                                     defaultHeader: string, single: bool)
    ensures
      var placed := Placed(signals, tier, lengths, defaultHeader, single);
      multiset(EntryPids(placed.0)) + multiset(placed.1) == multiset(UpperOf(signals, tier))
  {
    hide Unplaceable, HeaderOf, Upper, EntryPids;
    if signals == [] {
      assert EntryPids([]) == [];
    } else {
      var k := |signals| - 1;
      PlacedAll(signals[..k], tier, lengths, defaultHeader, single);
      PidsMore(Placed(signals[..k], tier, lengths, defaultHeader, single).0,
               Entry(Upper(signals[k].pid), HeaderOf(signals[k], defaultHeader)));
    }
  }

  predicate AllPlaceable(lengths: Option<Lengths>, entries: seq<Entry>, single: bool) {
    forall i :: 0 <= i < |entries| ==> !Unplaceable(lengths, entries[i].pid, single)
  }

  predicate AllUnplaceable(lengths: Option<Lengths>, pids: seq<string>, single: bool) {
    forall i :: 0 <= i < |pids| ==> Unplaceable(lengths, pids[i], single)
  }

  lemma PlaceableMore(lengths: Option<Lengths>, entries: seq<Entry>, pids: seq<string>, e: Entry, single: bool)
    requires AllPlaceable(lengths, entries, single) && AllUnplaceable(lengths, pids, single)
    ensures if Unplaceable(lengths, e.pid, single) then AllUnplaceable(lengths, pids + [e.pid], single)
            else AllPlaceable(lengths, entries + [e], single)
  {
    hide Unplaceable;
  }

  /** Left out are exactly the pids without a usable length. */
  lemma {:induction false} PlacedWhy(signals: seq<TieredSignal>, tier: Tier, lengths: Option<Lengths>,
                                     defaultHeader: string, single: bool)
    ensures
      var placed := Placed(signals, tier, lengths, defaultHeader, single);
      AllPlaceable(lengths, placed.0, single) && AllUnplaceable(lengths, placed.1, single)
  {
    hide Unplaceable, HeaderOf, Upper;
    if signals != [] {
      var k := |signals| - 1;
      PlacedWhy(signals[..k], tier, lengths, defaultHeader, single);
      var before := Placed(signals[..k], tier, lengths, defaultHeader, single);
      PlaceableMore(lengths, before.0, before.1, Entry(Upper(signals[k].pid), HeaderOf(signals[k], defaultHeader)),
                    single);
      hide AllPlaceable, AllUnplaceable;
    }
  }

  lemma PidsMore(entries: seq<Entry>, e: Entry)
    ensures multiset(EntryPids(entries + [e])) == multiset(EntryPids(entries)) + multiset{e.pid}
  {
    assert EntryPids(entries + [e]) == EntryPids(entries) + [e.pid];
  }

  lemma {:induction false} PlacedFrom(signals: seq<TieredSignal>, tier: Tier, lengths: Option<Lengths>,
                                      defaultHeader: string, single: bool, i: nat)
    requires i < |Placed(signals, tier, lengths, defaultHeader, single).0|
    ensures Comes(signals, tier, defaultHeader, Placed(signals, tier, lengths, defaultHeader, single).0[i])
  {
    hide Unplaceable, HeaderOf, Upper;
    var k := |signals| - 1;
    var before := Placed(signals[..k], tier, lengths, defaultHeader, single).0;
    if i < |before| {
      PlacedFrom(signals[..k], tier, lengths, defaultHeader, single, i);
      var j :| 0 <= j < k && From(signals[..k][j], tier, defaultHeader, before[i]);
      assert From(signals[j], tier, defaultHeader, before[i]);
    } else {
      assert From(signals[k], tier, defaultHeader, Placed(signals, tier, lengths, defaultHeader, single).0[i]);
    }
  }

  predicate From(s: TieredSignal, tier: Tier, defaultHeader: string, e: Entry) {
    s.tier == tier && e == Entry(Upper(s.pid), HeaderOf(s, defaultHeader))
  }

  predicate Comes(signals: seq<TieredSignal>, tier: Tier, defaultHeader: string, e: Entry) {
    exists j :: 0 <= j < |signals| && From(signals[j], tier, defaultHeader, e)
  }

  // ---------------------------------------------------------------- the message set

  function CapOf(a: Admission, mode: string): (cap: nat)
    ensures cap >= 1
  {
    var limit := if mode == "22" then a.chunk22Limit else a.chunkLimit;
    if limit < 1 then 1 else limit
  }

  function MessagePids(messages: seq<PeriodicMessage>): seq<string> {
    if messages == [] then [] else MessagePids(messages[..|messages| - 1]) + messages[|messages| - 1].pids
  }

  /**
   A message asks one mode on one header at one tier's period; each pid is some signal's of that tier and
   header; its data is the members joined; and with single-frame replies its reply fits one frame under
   its own cap.
   */
  ghost predicate MessageOk(signals: seq<TieredSignal>, a: Admission, defaultHeader: string, periods: TierPeriods,
                            single: bool, tier: Tier, m: PeriodicMessage) {
    && m.periodMs == periods.PeriodFor(tier) && Joinable(m.pids) && m.data == JoinChunkWire(m.pids)
    && |m.pids| <= CapOf(a, m.pids[0][..if |m.pids[0]| < 2 then |m.pids[0]| else 2])
    && (forall i :: 0 <= i < |m.pids| ==>
          && !Unplaceable(a.lengths, m.pids[i], single) &&
             Comes(signals, tier, defaultHeader, Entry(m.pids[i], m.header))
          && KeyOf(Entry(m.pids[i], m.header)) == KeyOf(Entry(m.pids[0], m.header)))
    && (single ==> a.lengths.Some? &&
                   FitsSingleFrame(a.lengths.value, m.pids,
                                   CapOf(a, m.pids[0][..if |m.pids[0]| < 2 then |m.pids[0]| else 2])))
  }

  // One key's messages.
  function MessagesFor(lengths: Lengths, periodMs: nat, header: string, groups: seq<seq<string>>): seq<PeriodicMessage>
    requires forall g :: 0 <= g < |groups| ==> Joinable(groups[g])
  {
    seq(|groups|,
        g requires 0 <= g < |groups| => PeriodicMessage(periodMs, header, JoinChunkWire(groups[g]), groups[g]))
  }

  lemma {:induction false} MessagesHold(messages: seq<PeriodicMessage>, groups: seq<seq<string>>)
    requires |messages| == |groups| && forall g :: 0 <= g < |groups| ==> messages[g].pids == groups[g]
    ensures multiset(MessagePids(messages)) == multiset(Flatten(groups))
  {
    if groups != [] {
      var k := |groups| - 1;
      MessagesHold(messages[..k], groups[..k]);
      FlattenLast(groups);
    }
  }

  lemma {:induction false} MessagesJoin(x: seq<PeriodicMessage>, y: seq<PeriodicMessage>)
    ensures MessagePids(x + y) == MessagePids(x) + MessagePids(y)
  {
    if y == [] {
      assert x + y == x;
    } else {
      var k := |y| - 1;
      assert (x + y)[..|x + y| - 1] == x + y[..k];
      MessagesJoin(x, y[..k]);
    }
  }

  lemma {:induction false} GroupMember(groups: seq<seq<string>>, g: nat, i: nat)
    requires g < |groups| && i < |groups[g]|
    ensures groups[g][i] in Flatten(groups)
  {
    FlattenFirst(groups);
    hide Flatten;
    if g > 0 { GroupMember(groups[1..], g - 1, i); }
  }

  // The message one packed group becomes.
  lemma GroupOk(signals: seq<TieredSignal>, a: Admission, defaultHeader: string, periods: TierPeriods, single: bool,
                tier: Tier, entries: seq<Entry>, key: Key, groups: seq<seq<string>>, g: nat)
    requires a.lengths.Some? && g < |groups| && entries == Placed(signals, tier, a.lengths, defaultHeader, single).0
    requires |key.0| == 2
    requires
      var members := SortPids(OfKeys(entries, {key}));
      groups == Greedy(a.lengths.value, members, [], BudgetFor(single), CapOf(a, key.0), BudgetFor(single))
    ensures Joinable(groups[g])
    ensures MessageOk(signals, a, defaultHeader, periods, single, tier,
                      PeriodicMessage(periods.PeriodFor(tier), key.1, JoinChunkWire(groups[g]), groups[g]))
  {
    var members, limit, cap := SortPids(OfKeys(entries, {key})), BudgetFor(single), CapOf(a, key.0);
    hide Greedy, Unplaceable, SortPids, OfKeys, Placed, JoinChunkWire, CostOf, TotalCost, Comes, CapOf, AllWithin;
    GreedyKeeps(a.lengths.value, members, [], limit, cap, limit);
    forall i | 0 <= i < |groups[g]|
      ensures Comes(signals, tier, defaultHeader, Entry(groups[g][i], key.1)) &&
              KeyOf(Entry(groups[g][i], key.1)) == key
      ensures !Unplaceable(a.lengths, groups[g][i], single)
    {
      GroupMember(groups, g, i);
      MemberEntry(signals, a, defaultHeader, single, tier, entries, key, groups[g][i]);
    }
    if single { GroupWithin(signals, a, defaultHeader, tier, entries, key, groups, g); }
    assert KeyOf(Entry(groups[g][0], key.1)) == key;
  }

  // Members that answer in one frame alone are packed so that they do together.
  lemma GroupWithin(signals: seq<TieredSignal>, a: Admission, defaultHeader: string, tier: Tier,
                    entries: seq<Entry>, key: Key, groups: seq<seq<string>>, g: nat)
    requires a.lengths.Some? && g < |groups| && entries == Placed(signals, tier, a.lengths, defaultHeader, true).0
    requires
      var members := SortPids(OfKeys(entries, {key}));
      groups == Greedy(a.lengths.value, members, [], BudgetFor(true), CapOf(a, key.0), BudgetFor(true))
    ensures 1 + TotalCost(a.lengths.value, groups[g]) <= FRAME_BYTES
  {
    var members, limit, cap := SortPids(OfKeys(entries, {key})), BudgetFor(true), CapOf(a, key.0);
    assert TotalCost(a.lengths.value, []) == 0;
    hide Greedy, SortPids, OfKeys, Placed, CostOf, TotalCost, Comes, CapOf;
    forall i | 0 <= i < |members| ensures CostOf(a.lengths.value, members[i]) <= limit {
      MemberEntry(signals, a, defaultHeader, true, tier, entries, key, members[i]);
    }
    GreedyFits(a.lengths.value, members, [], limit, cap, limit);
  }

  lemma MemberEntry(signals: seq<TieredSignal>, a: Admission, defaultHeader: string, single: bool, tier: Tier,
                    entries: seq<Entry>, key: Key, pid: string)
    requires entries == Placed(signals, tier, a.lengths, defaultHeader, single).0
    requires pid in SortPids(OfKeys(entries, {key}))
    ensures Comes(signals, tier, defaultHeader, Entry(pid, key.1)) && KeyOf(Entry(pid, key.1)) == key
    ensures !Unplaceable(a.lengths, pid, single)
  {
    SortSorted(OfKeys(entries, {key}));
    assert pid in multiset(SortPids(OfKeys(entries, {key})));
    OfKeyFrom(entries, key, pid);
    var i :| 0 <= i < |entries| && entries[i].pid == pid && KeyOf(entries[i]) == key;
    PlacedFrom(signals, tier, a.lengths, defaultHeader, single, i);
    PlacedWhy(signals, tier, a.lengths, defaultHeader, single);
    assert entries[i] == Entry(pid, key.1);
  }

  method PlaceTier(signals: seq<TieredSignal>, tier: Tier, lengths: Option<Lengths>, defaultHeader: string,
                   single: bool)
    returns (entries: seq<Entry>, excluded: seq<string>)
    ensures (entries, excluded) == Placed(signals, tier, lengths, defaultHeader, single)
  {
    hide Unplaceable, HeaderOf, Upper;
    entries, excluded := [], [];
    assert signals[..0] == [];
    for i := 0 to |signals|
      invariant (entries, excluded) == Placed(signals[..i], tier, lengths, defaultHeader, single)
    {
      assert signals[..i + 1][..i] == signals[..i];
      if signals[i].tier == tier {
        var pid := Upper(signals[i].pid);
        if Unplaceable(lengths, pid, single) {
          excluded := excluded + [pid];
        } else {
          entries := entries + [Entry(pid, HeaderOf(signals[i], defaultHeader))];
        }
      }
    }
    assert signals[..|signals|] == signals;
  }

  method BucketEntries(entries: seq<Entry>) returns (buckets: map<Key, seq<string>>)
    ensures forall i :: 0 <= i < |entries| ==> KeyOf(entries[i]) in buckets
    ensures forall key :: key in buckets ==>
            buckets[key] == OfKeys(entries, {key}) && exists i :: 0 <= i < |entries| && KeyOf(entries[i]) == key
  {
    hide *;
    buckets := map[];
    NothingBucketed(entries);
    for n := 0 to |entries|
      invariant Bucketed(entries[..n], buckets)
    {
      BucketOne(entries[..n], buckets, entries[n]);
      TakeNext(entries, n);
      var key := KeyOf(entries[n]);
      buckets := buckets[key := (if key in buckets then buckets[key] else []) + [entries[n].pid]];
    }
    assert entries[..|entries|] == entries;
    BucketParts(entries, buckets);
  }

  // Each key that occurs has its entries' pids, in order.
  ghost predicate Bucketed(entries: seq<Entry>, buckets: map<Key, seq<string>>) {
    && (forall i :: 0 <= i < |entries| ==> KeyOf(entries[i]) in buckets)
    && (forall key :: if key in buckets then buckets[key] == OfKeys(entries, {key}) else OfKeys(entries, {key}) == [])
    && (forall key :: key in buckets ==> exists i :: 0 <= i < |entries| && KeyOf(entries[i]) == key)
  }

  lemma NothingBucketed(entries: seq<Entry>)
    ensures Bucketed(entries[..0], map[])
  {
  }

  lemma TakeNext(entries: seq<Entry>, n: nat)
    requires n < |entries|
    ensures entries[..n + 1] == entries[..n] + [entries[n]]
  {
  }

  lemma BucketParts(entries: seq<Entry>, buckets: map<Key, seq<string>>)
    requires Bucketed(entries, buckets)
    ensures forall i :: 0 <= i < |entries| ==> KeyOf(entries[i]) in buckets
    ensures forall key :: key in buckets ==>
            buckets[key] == OfKeys(entries, {key}) && exists i :: 0 <= i < |entries| && KeyOf(entries[i]) == key
  {
    hide KeyOf, OfKeys;
  }

  lemma OfKeysLast(entries: seq<Entry>, e: Entry, key: Key)
    ensures OfKeys(entries + [e], {key}) == OfKeys(entries, {key}) + if KeyOf(e) == key then [e.pid] else []
  {
    assert (entries + [e])[..|entries|] == entries;
    hide KeyOf;
  }

  lemma BucketOne(entries: seq<Entry>, buckets: map<Key, seq<string>>, e: Entry)
    requires Bucketed(entries, buckets)
    ensures Bucketed(entries + [e],
                     buckets[KeyOf(e) := (if KeyOf(e) in buckets then buckets[KeyOf(e)] else []) + [e.pid]])
  {
    hide KeyOf, OfKeys;
    var all := entries + [e];
    var more := buckets[KeyOf(e) := (if KeyOf(e) in buckets then buckets[KeyOf(e)] else []) + [e.pid]];
    forall key ensures if key in more then more[key] == OfKeys(all, {key}) else OfKeys(all, {key}) == [] {
      OfKeysLast(entries, e, key);
    }
    forall key | key in more ensures exists i :: 0 <= i < |all| && KeyOf(all[i]) == key {
      if key == KeyOf(e) {
        assert KeyOf(all[|entries|]) == key;
      } else {
        var i :| 0 <= i < |entries| && KeyOf(entries[i]) == key;
        assert KeyOf(all[i]) == key;
      }
    }
  }

  ghost predicate MessagesOk(signals: seq<TieredSignal>, a: Admission, defaultHeader: string, periods: TierPeriods,
                             single: bool, tier: Tier, messages: seq<PeriodicMessage>) {
    forall i :: 0 <= i < |messages| ==> MessageOk(signals, a, defaultHeader, periods, single, tier, messages[i])
  }

  lemma MessagesOkJoin(signals: seq<TieredSignal>, a: Admission, defaultHeader: string, periods: TierPeriods,
                       single: bool, tier: Tier, x: seq<PeriodicMessage>, y: seq<PeriodicMessage>)
    requires MessagesOk(signals, a, defaultHeader, periods, single, tier, x)
    requires MessagesOk(signals, a, defaultHeader, periods, single, tier, y)
    ensures MessagesOk(signals, a, defaultHeader, periods, single, tier, x + y)
  {
    hide MessageOk;
  }

  method TierMessages(signals: seq<TieredSignal>, a: Admission, defaultHeader: string, periods: TierPeriods,
                      single: bool, tier: Tier)
    returns (messages: seq<PeriodicMessage>, excluded: seq<string>)
    requires forall i :: 0 <= i < |signals| ==> |signals[i].pid| >= 2
    ensures multiset(MessagePids(messages)) + multiset(excluded) == multiset(UpperOf(signals, tier))
    ensures MessagesOk(signals, a, defaultHeader, periods, single, tier, messages)
    ensures AllUnplaceable(a.lengths, excluded, single)
  {
    PlacedAll(signals, tier, a.lengths, defaultHeader, single);
    PlacedWhy(signals, tier, a.lengths, defaultHeader, single);
    var entries: seq<Entry>;
    entries, excluded := PlaceTier(signals, tier, a.lengths, defaultHeader, single);
    hide MessagesOk, Placed, OfKeys, AllPlaceable, AllUnplaceable, KeyOf, UpperOf, MessagePids;
    messages := EntryMessages(signals, a, defaultHeader, periods, single, tier, entries);
  }

  // The order in which (mode, header) buckets are visited is left open.
  method EntryMessages(signals: seq<TieredSignal>, a: Admission, defaultHeader: string, periods: TierPeriods,
                       single: bool, tier: Tier, entries: seq<Entry>) returns (messages: seq<PeriodicMessage>)
    requires forall i :: 0 <= i < |signals| ==> |signals[i].pid| >= 2
    requires entries == Placed(signals, tier, a.lengths, defaultHeader, single).0
    ensures multiset(MessagePids(messages)) == multiset(EntryPids(entries))
    ensures MessagesOk(signals, a, defaultHeader, periods, single, tier, messages)
  {
    hide *;
    EntriesModes(signals, a, defaultHeader, single, tier, entries);
    var buckets := BucketEntries(entries);
    AllKeys(entries, buckets.Keys);
    NoMessages();
    NoKeys(entries);
    NothingOk(signals, a, defaultHeader, periods, single, tier);
    messages := [];
    var todo := buckets.Keys;
    while todo != {}
      invariant todo <= buckets.Keys
      invariant multiset(MessagePids(messages)) + multiset(OfKeys(entries, todo)) == multiset(EntryPids(entries))
      invariant MessagesOk(signals, a, defaultHeader, periods, single, tier, messages)
    {
      var key :| key in todo;
      KeysSplit(entries, todo, key);
      todo := todo - {key};
      var more := KeyMessages(signals, a, defaultHeader, periods, single, tier, entries, key, buckets[key]);
      MessagesJoin(messages, more);
      MessagesOkJoin(signals, a, defaultHeader, periods, single, tier, messages, more);
      messages := messages + more;
    }
  }

  lemma NothingOk(signals: seq<TieredSignal>, a: Admission, defaultHeader: string, periods: TierPeriods, single: bool,
                  tier: Tier)
    ensures MessagesOk(signals, a, defaultHeader, periods, single, tier, [])
  {
  }

  lemma NoMessages()
    ensures MessagePids([]) == []
  {
  }

  // Entries exist only under known lengths, and their modes are two characters.
  lemma EntriesModes(signals: seq<TieredSignal>, a: Admission, defaultHeader: string, single: bool, tier: Tier,
                     entries: seq<Entry>)
    requires forall i :: 0 <= i < |signals| ==> |signals[i].pid| >= 2
    requires entries == Placed(signals, tier, a.lengths, defaultHeader, single).0
    ensures entries != [] ==> a.lengths.Some?
    ensures forall i :: 0 <= i < |entries| ==> |KeyOf(entries[i]).0| == 2
  {
    PlacedWhy(signals, tier, a.lengths, defaultHeader, single);
    forall i | 0 <= i < |entries| ensures |KeyOf(entries[i]).0| == 2 {
      PlacedFrom(signals, tier, a.lengths, defaultHeader, single, i);
      var j :| 0 <= j < |signals| && From(signals[j], tier, defaultHeader, entries[i]);
    }
    hide Placed;
  }

  // One bucket, packed greedily in pid order.
  method KeyMessages(signals: seq<TieredSignal>, a: Admission, defaultHeader: string, periods: TierPeriods,
                     single: bool, tier: Tier, ghost entries: seq<Entry>, key: Key, pids: seq<string>)
    returns (messages: seq<PeriodicMessage>)
    requires a.lengths.Some? && entries == Placed(signals, tier, a.lengths, defaultHeader, single).0
    requires |key.0| == 2 && pids == OfKeys(entries, {key})
    ensures multiset(MessagePids(messages)) == multiset(pids)
    ensures MessagesOk(signals, a, defaultHeader, periods, single, tier, messages)
  {
    hide *;
    var members := SortPids(pids);
    var limit, cap := BudgetFor(single), CapOf(a, key.0);
    var groups := PackMembers(a.lengths.value, members, cap, limit);
    GroupsOk(signals, a, defaultHeader, periods, single, tier, entries, key, groups);
    messages := MessagesFor(a.lengths.value, periods.PeriodFor(tier), key.1, groups);
  }

  // What the messages of one bucket's groups are.
  lemma GroupsOk(signals: seq<TieredSignal>, a: Admission, defaultHeader: string, periods: TierPeriods, single: bool,
                 tier: Tier, entries: seq<Entry>, key: Key, groups: seq<seq<string>>)
    requires a.lengths.Some? && entries == Placed(signals, tier, a.lengths, defaultHeader, single).0 && |key.0| == 2
    requires groups == Greedy(a.lengths.value, SortPids(OfKeys(entries, {key})), [], BudgetFor(single), CapOf(a, key.0),
                              BudgetFor(single))
    ensures forall g :: 0 <= g < |groups| ==> Joinable(groups[g])
    ensures
      var messages := MessagesFor(a.lengths.value, periods.PeriodFor(tier), key.1, groups);
      && multiset(MessagePids(messages)) == multiset(OfKeys(entries, {key}))
      && MessagesOk(signals, a, defaultHeader, periods, single, tier, messages)
  {
    hide MessageOk, Placed, OfKeys, JoinChunkWire, Greedy, SortPids, CapOf, MessagePids, Joinable;
    forall g | 0 <= g < |groups|
      ensures Joinable(groups[g])
      ensures MessageOk(signals, a, defaultHeader, periods, single, tier,
                        PeriodicMessage(periods.PeriodFor(tier), key.1, JoinChunkWire(groups[g]), groups[g]))
    {
      GroupOk(signals, a, defaultHeader, periods, single, tier, entries, key, groups, g);
    }
    var messages := MessagesFor(a.lengths.value, periods.PeriodFor(tier), key.1, groups);
    MessagesHold(messages, groups);
    GroupsConserve(a.lengths.value, OfKeys(entries, {key}), CapOf(a, key.0), BudgetFor(single));
  }

  lemma GroupsConserve(lengths: Lengths, pids: seq<string>, cap: nat, limit: nat)
    requires cap >= 1
    ensures multiset(Flatten(Greedy(lengths, SortPids(pids), [], limit, cap, limit))) == multiset(pids)
  {
    SortSorted(pids);
    GreedyKeeps(lengths, SortPids(pids), [], limit, cap, limit);
    hide Greedy, SortPids, Flatten;
    assert [] + SortPids(pids) == SortPids(pids);
  }

  function AllUpper(signals: seq<TieredSignal>): seq<string> {
    if signals == [] then [] else AllUpper(signals[..|signals| - 1]) + [Upper(signals[|signals| - 1].pid)]
  }

  lemma {:induction false} TiersCover(signals: seq<TieredSignal>)
    ensures multiset(UpperOf(signals, Fast)) + multiset(UpperOf(signals, Medium)) + multiset(UpperOf(signals, Slow)) ==
            multiset(AllUpper(signals))
  {
    hide Upper;
    if signals != [] { TiersCover(signals[..|signals| - 1]); }
  }

  /** Each message keeps its promises for some tier. */
  ghost predicate TieredOk(signals: seq<TieredSignal>, a: Admission, defaultHeader: string, periods: TierPeriods,
                           single: bool, messages: seq<PeriodicMessage>) {
    forall i :: 0 <= i < |messages| ==> SomeTier(signals, a, defaultHeader, periods, single, messages[i])
  }

  ghost predicate SomeTier(signals: seq<TieredSignal>, a: Admission, defaultHeader: string, periods: TierPeriods,
                           single: bool, m: PeriodicMessage) {
    exists tier :: MessageOk(signals, a, defaultHeader, periods, single, tier, m)
  }

  lemma TierTiered(signals: seq<TieredSignal>, a: Admission, defaultHeader: string, periods: TierPeriods, single: bool,
                   tier: Tier, messages: seq<PeriodicMessage>)
    requires MessagesOk(signals, a, defaultHeader, periods, single, tier, messages)
    ensures TieredOk(signals, a, defaultHeader, periods, single, messages)
  {
    hide MessageOk;
    forall i | 0 <= i < |messages| ensures SomeTier(signals, a, defaultHeader, periods, single, messages[i]) {
      assert MessageOk(signals, a, defaultHeader, periods, single, tier, messages[i]);
    }
  }

  lemma TieredJoin(signals: seq<TieredSignal>, a: Admission, defaultHeader: string, periods: TierPeriods, single: bool,
                   x: seq<PeriodicMessage>, y: seq<PeriodicMessage>)
    requires TieredOk(signals, a, defaultHeader, periods, single, x) &&
             TieredOk(signals, a, defaultHeader, periods, single, y)
    ensures TieredOk(signals, a, defaultHeader, periods, single, x + y)
  {
    hide SomeTier;
  }

  lemma UnplaceableJoin(lengths: Option<Lengths>, x: seq<string>, y: seq<string>, single: bool)
    requires AllUnplaceable(lengths, x, single) && AllUnplaceable(lengths, y, single)
    ensures AllUnplaceable(lengths, x + y, single)
  {
    hide Unplaceable;
  }

  /** The messages and the left-out pids are exactly the signals, each once, and every message keeps its promises. */
  method BuildPeriodicSet(signals: seq<TieredSignal>, a: Admission, defaultHeader: string, periods: TierPeriods,
                          single: bool)
    returns (messages: seq<PeriodicMessage>, excluded: seq<string>)
    requires forall i :: 0 <= i < |signals| ==> |signals[i].pid| >= 2
    ensures multiset(MessagePids(messages)) + multiset(excluded) == multiset(AllUpper(signals))
    ensures TieredOk(signals, a, defaultHeader, periods, single, messages)
    ensures AllUnplaceable(a.lengths, excluded, single)
  {
    TiersCover(signals);
    hide MessagesOk, TieredOk, UpperOf, AllUpper, AllUnplaceable, MessagePids;
    messages, excluded := TierMessages(signals, a, defaultHeader, periods, single, Fast);
    TierTiered(signals, a, defaultHeader, periods, single, Fast, messages);
    var more, out := TierMessages(signals, a, defaultHeader, periods, single, Medium);
    TierTiered(signals, a, defaultHeader, periods, single, Medium, more);
    TieredJoin(signals, a, defaultHeader, periods, single, messages, more);
    UnplaceableJoin(a.lengths, excluded, out, single);
    MessagesJoin(messages, more);
    messages, excluded := messages + more, excluded + out;
    more, out := TierMessages(signals, a, defaultHeader, periods, single, Slow);
    TierTiered(signals, a, defaultHeader, periods, single, Slow, more);
    TieredJoin(signals, a, defaultHeader, periods, single, messages, more);
    UnplaceableJoin(a.lengths, excluded, out, single);
    MessagesJoin(messages, more);
    messages, excluded := messages + more, excluded + out;
  }
}
