/**
 What a vehicle says to an adapter-side periodic message: how long a full answer is, that it fits the one
 frame the packing budgeted for it, and that the frame hands every member its bytes.
 */
module PeriodicReplies {
  import opened Wrappers
  import opened Sequences
  import opened Text
  import opened Addressing
  import opened IsoTp
  import opened IsoTpRoundTrip
  import opened HeaderLookalikes
  import opened ChunkSplitter
  import opened LengthCaching
  import opened ElmWire
  import opened Requests
  import opened Exchange
  import opened Acquisition
  import opened Subscriptions
  import opened StnPeriodic
  import opened StnRouting

  function ItemPids(items: seq<Item>): (r: seq<string>)
    ensures |r| == |items|
    ensures forall i :: 0 <= i < |items| ==> r[i] == items[i].pid
  {
    seq(|items|, i requires 0 <= i < |items| => items[i].pid)
  }

  /** Every member once, in any order, each with its learned length. */
  ghost predicate AnswersAll(lengths: Lengths, pids: seq<string>, items: seq<Item>) {
    && multiset(ItemPids(items)) == multiset(pids)
    && forall i :: 0 <= i < |items| ==>
         LengthOf(lengths, items[i].pid).Some? && |items[i].data| == LengthOf(lengths, items[i].pid).value as nat
  }

  ghost predicate PlainIn(mode: Mode, pids: seq<string>) {
    (mode == MODE01 || mode == MODE22) && forall k :: 0 <= k < |pids| ==> PlainPid(pids[k]) && ModeOf(pids[k]) == mode
  }

  // ---------------------------------------------------------------- how long an answer is

  lemma ItemCost(mode: Mode, lengths: Lengths, item: Item)
    requires (mode == MODE01 || mode == MODE22) && PlainPid(item.pid) && ModeOf(item.pid) == mode
    requires LengthOf(lengths, item.pid).Some? && |item.data| == LengthOf(lengths, item.pid).value as nat
    ensures |EchoBytes(mode.width, EchoNat(item.pid)) + item.data| == CostOf(lengths, item.pid)
  {
    PlainMode(item.pid);
    hide PlainPid, ModeOf, EchoNat, EchoBytes, LengthOf;
  }

  lemma {:induction false} TotalFirst(lengths: Lengths, pids: seq<string>)
    requires pids != []
    ensures TotalCost(lengths, pids) == CostOf(lengths, pids[0]) + TotalCost(lengths, pids[1..])
  {
    hide CostOf;
    var k := |pids| - 1;
    if k > 0 {
      TotalFirst(lengths, pids[..k]);
      assert pids[..k][1..] == pids[1..][..k - 1];
    }
  }

  lemma {:induction false} ItemsCost(mode: Mode, lengths: Lengths, items: seq<Item>)
    requires PlainIn(mode, ItemPids(items)) && AnswersAll(lengths, ItemPids(items), items)
    ensures |ItemBytes(mode.width, items)| == TotalCost(lengths, ItemPids(items))
  {
    hide PlainPid, ModeOf, EchoNat, EchoBytes, LengthOf, CostOf, TotalCost;
    if items == [] {
      NoCost(lengths);
    } else {
      var pids := ItemPids(items);
      assert ItemPids(items[1..]) == pids[1..];
      ItemsCost(mode, lengths, items[1..]);
      ItemCost(mode, lengths, items[0]);
      TotalFirst(lengths, pids);
    }
  }

  lemma NoCost(lengths: Lengths)
    ensures TotalCost(lengths, []) == 0
  {
  }

  lemma {:induction false} TotalSplit(lengths: Lengths, x: seq<string>, y: seq<string>)
    ensures TotalCost(lengths, x + y) == TotalCost(lengths, x) + TotalCost(lengths, y)
  {
    hide CostOf;
    if y == [] {
      assert x + y == x;
    } else {
      var k := |y| - 1;
      assert (x + y)[..|x + y| - 1] == x + y[..k];
      TotalSplit(lengths, x, y[..k]);
    }
  }

  lemma TotalWithout(lengths: Lengths, y: seq<string>, j: nat)
    requires j < |y|
    ensures TotalCost(lengths, y) == TotalCost(lengths, y[..j] + y[j + 1..]) + CostOf(lengths, y[j])
  {
    hide CostOf, TotalCost;
    TotalSplit(lengths, y[..j], y[j + 1..]);
    TotalSplit(lengths, y[..j], y[j..]);
    assert y == y[..j] + y[j..] && y[j..][1..] == y[j + 1..];
    TotalFirst(lengths, y[j..]);
  }

  lemma {:induction false} TotalPermute(lengths: Lengths, x: seq<string>, y: seq<string>)
    requires multiset(x) == multiset(y)
    ensures TotalCost(lengths, x) == TotalCost(lengths, y)
    decreases |x|
  {
    hide CostOf, TotalCost;
    if x == [] {
      assert |multiset(y)| == 0;
      assert x == y;
    } else {
      var j := TakeOut(x, y);
      var k := |x| - 1;
      TotalPermute(lengths, x[..k], y[..j] + y[j + 1..]);
      TotalWithout(lengths, x, k);
      TotalWithout(lengths, y, j);
      assert x[..k] + x[k + 1..] == x[..k];
    }
  }

  /** A full answer is the mode byte and what its members cost, whatever their order. */
  lemma AnswerCost(mode: Mode, lengths: Lengths, pids: seq<string>, items: seq<Item>)
    requires PlainIn(mode, pids) && AnswersAll(lengths, pids, items)
    ensures |AnswerBytes(mode, EcuAnswer(items, []))| == 1 + TotalCost(lengths, pids)
  {
    hide PlainPid, ModeOf, LengthOf, TotalCost, ItemBytes;
    forall k | 0 <= k < |items| ensures items[k].pid in pids {
      assert ItemPids(items)[k] in multiset(ItemPids(items));
    }
    ItemsCost(mode, lengths, items);
    TotalPermute(lengths, ItemPids(items), pids);
  }

  // ---------------------------------------------------------------- the messages of a set

  ghost predicate PlainSignals(signals: seq<TieredSignal>) {
    forall i :: 0 <= i < |signals| ==> PlainPid(Upper(signals[i].pid))
  }

  // Members of a message share their first two characters, so they share a mode.
  lemma MessagePlain(signals: seq<TieredSignal>, a: Admission, defaultHeader: string, periods: TierPeriods,
                     single: bool, tier: Tier, m: PeriodicMessage)
    requires PlainSignals(signals) && MessageOk(signals, a, defaultHeader, periods, single, tier, m)
    ensures m.pids != [] && PlainIn(ModeOf(m.pids[0]), m.pids)
  {
    forall k | 0 <= k < |m.pids| ensures PlainPid(m.pids[k]) && m.pids[k][..2] == m.pids[0][..2] {
      assert Comes(signals, tier, defaultHeader, Entry(m.pids[k], m.header));
      assert Comes(signals, tier, defaultHeader, Entry(m.pids[0], m.header));
      PlainHex(m.pids[k]);
      PlainHex(m.pids[0]);
    }
    hide PlainPid, MessageOk, PlainSignals;
    forall k | 0 <= k < |m.pids| ensures ModeOf(m.pids[k]) == ModeOf(m.pids[0]) {
      SameMode(m.pids[k], m.pids[0]);
    }
  }

  lemma SameMode(p: string, q: string)
    requires PlainPid(p) && PlainPid(q) && |p| >= 2 && |q| >= 2 && p[..2] == q[..2]
    ensures ModeOf(p) == ModeOf(q) && (ModeOf(p) == MODE01 || ModeOf(p) == MODE22)
  {
    hide PlainPid;
    assert "01" <= p <==> p[..2] == "01";
    assert "01" <= q <==> q[..2] == "01";
  }

  /** A message's data asks for its members, in order. */
  lemma MessageAsks(signals: seq<TieredSignal>, a: Admission, defaultHeader: string, periods: TierPeriods, single: bool,
                    tier: Tier, m: PeriodicMessage)
    requires PlainSignals(signals) && MessageOk(signals, a, defaultHeader, periods, single, tier, m)
    ensures Asked(m.data) == m.pids
  {
    MessagePlain(signals, a, defaultHeader, periods, single, tier, m);
    assert m.data == JoinChunkWire(m.pids);
    hide MessageOk, PlainPid, ModeOf, JoinChunkWire, Asked;
    forall k | 0 <= k < |m.pids|
      ensures (ModeOf(m.pids[k]) == MODE01 ==> |m.pids[k]| == 4 && "01" <= m.pids[k])
      ensures (ModeOf(m.pids[k]) == MODE22 ==> |m.pids[k]| == 6 && "22" <= m.pids[k])
    {
      PlainMode(m.pids[k]);
    }
    SegmentOneMode(m.pids);
    AskedJoin(m.pids);
  }

  /** No message has more members than its mode's limit allows, and one at least is always allowed. */
  lemma MessageCap(signals: seq<TieredSignal>, a: Admission, defaultHeader: string, periods: TierPeriods, single: bool,
                   tier: Tier, m: PeriodicMessage)
    requires PlainSignals(signals) && MessageOk(signals, a, defaultHeader, periods, single, tier, m)
    ensures m.pids != [] && (|m.pids| > 1 ==> |m.pids| <= if "01" <= m.pids[0] then a.chunkLimit else a.chunk22Limit)
  {
    MessagePlain(signals, a, defaultHeader, periods, single, tier, m);
    var pid := m.pids[0];
    PlainMode(pid);
    assert ModeOf(pid) == MODE01 || ModeOf(pid) == MODE22;
    assert |m.pids| <= CapOf(a, pid[..2]);
    hide MessageOk, PlainPid;
    assert "01" <= pid ==> pid[..2] == "01";
    assert !("01" <= pid) ==> pid[..2] == "22";
  }

  /** With single-frame replies every message's full answer is one frame, padded or not. */
  lemma MessageFits(signals: seq<TieredSignal>, a: Admission, defaultHeader: string, periods: TierPeriods, tier: Tier,
                    m: PeriodicMessage, items: seq<Item>, pad: seq<byte>)
    requires PlainSignals(signals) && MessageOk(signals, a, defaultHeader, periods, true, tier, m)
    requires a.lengths.Some? && AnswersAll(a.lengths.value, m.pids, items)
    ensures m.pids != []
    ensures
      var bytes := AnswerBytes(ModeOf(m.pids[0]), EcuAnswer(items, []));
      |bytes| <= 7 && (|bytes| + |pad| <= 7 ==> SingleFrame(bytes, pad).Valid())
  {
    MessagePlain(signals, a, defaultHeader, periods, true, tier, m);
    AnswerCost(ModeOf(m.pids[0]), a.lengths.value, m.pids, items);
    hide PlainPid, ModeOf, AnswerBytes, TotalCost, CapOf, Comes, Unplaceable, AnswersAll, JoinChunkWire;
  }

  /** A signal is left out exactly when its length is unknown or its own answer does not fit one frame. */
  lemma LeftOutExact(lengths: Lengths, pid: string, item: Item)
    requires PlainPid(pid) && item.pid == pid
    requires LengthOf(lengths, pid).Some? ==> |item.data| == LengthOf(lengths, pid).value as nat
    ensures Unplaceable(Some(lengths), pid, true) <==>
            LengthOf(lengths, pid).None? || |AnswerBytes(ModeOf(pid), EcuAnswer([item], []))| > 7
    ensures Unplaceable(Some(lengths), pid, false) <==> LengthOf(lengths, pid).None?
  {
    if LengthOf(lengths, pid).Some? {
      assert ItemPids([item]) == [pid];
      assert ModeOf(pid) == MODE01 || ModeOf(pid) == MODE22;
      hide PlainPid, ModeOf, LengthOf, AnswerBytes;
      AnswerCost(ModeOf(pid), lengths, [pid], [item]);
      TotalFirst(lengths, [pid]);
      assert [pid][1..] == [];
      NoCost(lengths);
    }
  }

  // ---------------------------------------------------------------- a full answer on its way back

  // The table of a message whose members' lengths are known.
  lemma MessageTable(lengths: Lengths, d: Decoder) returns (table: EchoTable)
    requires PlainDecoder(d) && forall k :: 0 <= k < |d.pids| ==> LengthOf(lengths, d.pids[k]).Some?
    ensures |d.pids[0]| >= 2 && ChunkMode(PlanMembers(lengths, d.pids)) == Success(ModeOf(d.pids[0]))
    ensures EchoTableOf(ModeOf(d.pids[0]), PlanMembers(lengths, d.pids)) == Success(table)
    ensures TableFor(ModeOf(d.pids[0]), table, d.pids, lengths)
  {
    table := TableOf(lengths, d);
    forall k | 0 <= k < |d.pids|
      ensures d.pids[k] in lengths && PlanLength(lengths, d.pids[k]) == lengths[d.pids[k]] && EchoNat(d.pids[k]) != 0
    {
      PlainUpper(d.pids[k]);
      PlainEcho(d.pids[k]);
    }
    hide PlainPid, EchoNat, ModeOf, EchoTableOf, ChunkMode, PlanMembers, PlanLength, LengthOf;
    assert 0 !in table;
  }

  // A full answer is a chunk's answer.
  lemma AllChunk(lengths: Lengths, pids: seq<string>, items: seq<Item>)
    requires AnswersAll(lengths, pids, items) && Once(pids) && forall k :: 0 <= k < |pids| ==> PlainPid(pids[k])
    ensures ChunkAnswer(pids, lengths, EcuAnswer(items, []))
    ensures forall k :: 0 <= k < |pids| ==> LengthOf(lengths, pids[k]).Some?
  {
    forall i | 0 <= i < |items|
      ensures items[i].pid in pids && items[i].pid in lengths && |items[i].data| == lengths[items[i].pid] as nat
    {
      assert ItemPids(items)[i] in multiset(ItemPids(items));
      assert items[i].pid in multiset(pids);
      PlainUpper(items[i].pid);
    }
    hide PlainPid;
    forall i, j | 0 <= i < j < |items| ensures items[i].pid != items[j].pid {
      TwiceCounted(ItemPids(items), i, j);
      assert ItemPids(items)[i] in multiset(pids);
    }
    forall k | 0 <= k < |pids| ensures LengthOf(lengths, pids[k]).Some? {
      assert pids[k] in multiset(ItemPids(items));
      var i :| 0 <= i < |items| && ItemPids(items)[i] == pids[k];
    }
  }

  lemma TwiceCounted(x: seq<string>, i: nat, j: nat)
    requires i < j < |x|
    ensures x[i] == x[j] ==> multiset(x)[x[i]] >= 2
  {
    assert x == x[..j] + [x[j]] + x[j + 1..];
    assert x[..j][i] in multiset(x[..j]);
  }

  /** `batch` holds these bytes for the pid from the controller. */
  predicate Hands(batch: ChunkSplitter.Split, pid: string, controller: Source, data: seq<byte>) {
    Get(batch, pid, controller).Some? && Get(batch, pid, controller).value.data == data
  }

  // Splitting a full answer gives every member its bytes.
  lemma FullHands(lengths: Lengths, d: Decoder, table: EchoTable, c: nat, items: seq<Item>, k: nat)
    requires PlainDecoder(d) && Once(d.pids) && AnswersAll(lengths, d.pids, items) && k < |items|
    requires |d.pids[0]| >= 2 && ChunkMode(PlanMembers(lengths, d.pids)) == Success(ModeOf(d.pids[0]))
    requires EchoTableOf(ModeOf(d.pids[0]), PlanMembers(lengths, d.pids)) == Success(table)
    requires TableFor(ModeOf(d.pids[0]), table, d.pids, lengths)
    requires SplitPayload(ModeOf(d.pids[0]), table, AnswerBytes(ModeOf(d.pids[0]), EcuAnswer(items, [])))
             == Success(ItemBlocks(items))
    ensures
      var payloads := [Payload(Ecu(c), AnswerBytes(ModeOf(d.pids[0]), EcuAnswer(items, [])))];
      var split := SplitMulti(PlanMembers(lengths, d.pids), payloads);
      split.Success? && Hands(split.value, items[k].pid, Ecu(c), items[k].data)
  {
    var mode := ModeOf(d.pids[0]);
    assert mode == MODE01 || mode == MODE22;
    AllChunk(lengths, d.pids, items);
    var payloads := [Payload(Ecu(c), AnswerBytes(mode, EcuAnswer(items, [])))];
    var blocks, item := [ItemBlocks(items)], items[k];
    hide PlainPid, ModeOf, EchoTableOf, ChunkMode, SplitPayload, AnswerBytes, TableFor, Answers, ItemBlock, Carries,
      Get, PlainDecoder, AnswersAll;
    ItemAnswers(mode, table, d.pids, lengths, items, item.pid, ItemBlock(item));
    BlockData(item);
    CarriesOnce(mode, table, payloads, blocks, item.pid, 0, ItemBlock(item));
    SplitMultiExact(PlanMembers(lengths, d.pids), payloads, mode, table, blocks, item.pid, Ecu(c));
  }

  /** The other messages answered on the id share no member with this one. */
  ghost predicate ApartOnId(decoders: seq<Decoder>, j: nat, id: string)
    requires j < |decoders|
  {
    && decoders[j].id == id
    && forall k :: 0 <= k < |decoders| && k != j && decoders[k].id == id ==>
         PlainDecoder(decoders[k]) && Apart(decoders[j], decoders[k])
  }

  /**
   A periodic message's way back. If a controller answers message `j` in full in one frame, then the frame
   is split by that message's own decoder, and every member gets exactly the bytes the controller sent.
   */
  lemma PeriodicExact(bus: Bus, c: nat, pad: seq<byte>, framed: Result<Frames, Fault>, lengths: Lengths,
                      decoders: seq<Decoder>, j: nat, id: string, items: seq<Item>, k: nat)
    requires j < |decoders| && PlainDecoder(decoders[j]) && Once(decoders[j].pids) && ApartOnId(decoders, j, id)
    requires AnswersAll(lengths, decoders[j].pids, items) && k < |items|
    requires
      var r := SingleFrame(AnswerBytes(ModeOf(decoders[j].pids[0]), EcuAnswer(items, [])), pad);
      && bus.Addresses(c) && r.Valid() && FromBus(bus, Lone(c, r)) && (bus.Can11? || HeadersHarmless(bus, Lone(c, r)))
      && FramesTo(bus, RenderLines(bus, Lone(c, r)), framed)
    ensures framed.Success? && Route(lengths, decoders, id, PayloadsOf(framed.value)).Some?
    ensures Hands(Route(lengths, decoders, id, PayloadsOf(framed.value)).value, items[k].pid, Ecu(c), items[k].data)
  {
    var d := decoders[j];
    var mode, bytes := ModeOf(d.pids[0]), AnswerBytes(ModeOf(d.pids[0]), EcuAnswer(items, []));
    assert mode == MODE01 || mode == MODE22;
    AllChunk(lengths, d.pids, items);
    var table := MessageTable(lengths, d);
    AnswerSplits(mode, table, d.pids, lengths, EcuAnswer(items, []));
    assert RepliesTo(lengths, decoders, j, id, table, bytes, ItemBlocks(items));
    hide *;
    RouteFrameExact(bus, c, SingleFrame(bytes, pad), framed, lengths, decoders, j, id, table, ItemBlocks(items));
    FullHands(lengths, d, table, c, items, k);
    SplitByValue(lengths, d, [Payload(Ecu(c), bytes)], Route(lengths, decoders, id, PayloadsOf(framed.value)));
  }

  lemma SplitByValue(lengths: Lengths, d: Decoder, payloads: seq<Payload>, batch: Option<ChunkSplitter.Split>)
    requires PlainDecoder(d) && SplitBy(lengths, d, payloads, batch) && |d.pids[0]| >= 2
    ensures batch.Some? && SplitMulti(PlanMembers(lengths, d.pids), payloads) == Success(batch.value)
  {
  }
}
