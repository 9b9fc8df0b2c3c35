/** Which installed periodic message a received frame answers. */
module StnRouting {
  import opened Wrappers
  import opened Text
  import opened Addressing
  import opened ChunkSplitter
  import opened LengthCaching
  import opened ElmWire
  import opened Exchange
  import opened HeaderLookalikes
  import opened IsoTp
  import opened IsoTpRoundTrip
  import opened StnPeriodic

  // ---------------------------------------------------------------- installing

  /** The id a request header's replies arrive on: 8 or 0x400 above on 11-bit, source and target swapped on 29-bit. */
  function PeriodicResponseId(header: string): string {
    var h := Upper(Trim(header));
    var n := ParseU16(h);
    if |h| <= 3 && n.Some? && 0x241 <= n.value <= 0x25F then PrintHex3(n.value + 0x400)
    else if |h| <= 3 && n.Some? && n.value <= 0x7FF then PrintHex3(n.value + 8)
    else if |h| == 8 && h[2..4] == "DA" && AllHex(h) then h[..2] + "DA" + h[6..] + h[4..6]
    else h
  }

  // `{:03X}`.
  function PrintHex3(v: nat): string
    requires v < 0x1000
  {
    Hex4(v)[1..]
  }

  datatype Decoder = Decoder(id: string, pids: seq<string>)

  predicate OutOfMemory(reply: string) {
    Contains(Upper(reply), "OUT OF MEMORY")
  }

  // The handle the adapter gives an installed message: a hexadecimal token of its reply.
  predicate HasHandle(reply: string) {
    exists t :: t in Tokens(Upper(reply)) && ParseU16(t).Some?
  }

  /** The decoders of the messages the adapter accepted, in order, up to the first it had no memory for. */
  function Installed(messages: seq<PeriodicMessage>, replies: seq<string>): seq<Decoder> {
    if messages == [] || replies == [] || OutOfMemory(replies[0]) then []
    else
      var rest := Installed(messages[1..], replies[1..]);
      if HasHandle(replies[0]) then [Decoder(PeriodicResponseId(messages[0].header), messages[0].pids)] + rest else rest
  }

  method Install(messages: seq<PeriodicMessage>, replies: seq<string>)
    returns (decoders: seq<Decoder>, served: seq<string>)
    requires |replies| == |messages|
    ensures decoders == Installed(messages, replies) && served == ServedPids(decoders)
  {
    hide OutOfMemory, HasHandle, PeriodicResponseId;
    decoders, served := [], [];
    var i := 0;
    assert messages[0..] == messages && replies[0..] == replies;
    while i < |messages|
      invariant i <= |messages| && served == ServedPids(decoders)
      invariant decoders + Installed(messages[i..], replies[i..]) == Installed(messages, replies)
    {
      assert messages[i..][1..] == messages[i + 1..] && replies[i..][1..] == replies[i + 1..];
      if OutOfMemory(replies[i]) {
        return;
      }
      if HasHandle(replies[i]) {
        var d := Decoder(PeriodicResponseId(messages[i].header), messages[i].pids);
        ServedMore(decoders, d);
        assert decoders + ([d] + Installed(messages[i + 1..], replies[i + 1..])) ==
               (decoders + [d]) + Installed(messages[i + 1..], replies[i + 1..]);
        decoders, served := decoders + [d], served + d.pids;
      }
      i := i + 1;
    }
  }

  function ServedPids(decoders: seq<Decoder>): seq<string> {
    if decoders == [] then [] else ServedPids(decoders[..|decoders| - 1]) + decoders[|decoders| - 1].pids
  }

  lemma ServedMore(decoders: seq<Decoder>, d: Decoder)
    ensures ServedPids(decoders + [d]) == ServedPids(decoders) + d.pids
  {
    assert (decoders + [d])[..|decoders|] == decoders;
  }

  lemma PrintedParses(v: nat)
    requires v < 0x1000
    ensures |PrintHex3(v)| == 3 && Trim(PrintHex3(v)) == PrintHex3(v) && Upper(PrintHex3(v)) == PrintHex3(v)
    ensures ParseU16(PrintHex3(v)) == Some(v)
  {
    HexTail(v);
    UpperTail(Hex4(v), 1);
    HexTrim(PrintHex3(v));
    assert IsHexDigit(PrintHex3(v)[0]);
  }

  /** The ids the engine listens on are the ids the bus attributes to the asked controller. */
  lemma ResponseIdMatches(controller: nat)
    requires Can11.Addresses(controller)
    ensures Can11.ResponseHeader(controller) == [PeriodicResponseId(PrintHex3(controller))]
  {
    hide Trim, Upper, ParseU16, Hex4, PrintHex3, AllHex;
    PrintedParses(controller);
    HeaderPrinted(controller);
  }

  lemma HeaderPrinted(controller: nat)
    requires Can11.Addresses(controller)
    ensures Can11.ResponseHeader(controller) == [PrintHex3(if controller < 0x300 then controller + 0x400
                                                           else controller + 8)]
  {
    hide Hex4;
  }

  lemma SwappedHeader(h: string, head: string, target: string, source: string)
    requires |head| == 2 && |target| == 2 && |source| == 2 && h == head + "DA" + target + source
    requires AllHex(h) && Upper(Trim(h)) == h
    ensures PeriodicResponseId(h) == head + "DA" + source + target
  {
    assert h[..2] == head && h[2..4] == "DA" && h[4..6] == target && h[6..] == source;
    hide Trim, Upper, ParseU16, AllHex;
  }

  lemma HeaderDigits(c: byte, tester: byte)
    ensures
      var h := Hex2(0x18) + "DA" + Hex2(c) + Hex2(tester);
      |h| == 8 && AllHex(h) && Upper(Trim(h)) == h
  {
    var h := Hex2(0x18) + "DA" + Hex2(c) + Hex2(tester);
    forall i | 0 <= i < 8 ensures IsHexDigit(h[i]) && UpperChar(h[i]) == h[i] {
      assert h[i] == if i < 2 then Hex2(0x18)[i] else if i < 4 then "DA"[i - 2] else if i < 6 then Hex2(c)[i - 4]
                     else Hex2(tester)[i - 6];
      assert Upper(Hex2(0x18))[i % 2] == Hex2(0x18)[i % 2];
      assert Upper(Hex2(c))[i % 2] == Hex2(c)[i % 2] && Upper(Hex2(tester))[i % 2] == Hex2(tester)[i % 2];
    }
    hide Hex2;
    TrimTrimmed(h);
  }

  /** On a 29-bit bus too: source and target change places, as in the headers the controller's frames carry. */
  lemma ResponseIdMatches29(tester: byte, controller: nat)
    requires controller < 256
    ensures Can29(tester).Addresses(controller)
    ensures PeriodicResponseId(Hex2(0x18) + "DA" + Hex2(controller as byte) + Hex2(tester)) ==
            Concat(Can29(tester).ResponseHeader(controller))
  {
    var c, x := controller as byte, Hex2(0x18);
    HeaderDigits(c, tester);
    assert Hex2(0xDA) == "DA";
    FourConcat(x, "DA", Hex2(tester), Hex2(c));
    hide Hex2, AllHex, Upper, Trim, PeriodicResponseId, Concat;
    SwappedHeader(x + "DA" + Hex2(c) + Hex2(tester), x, Hex2(c), Hex2(tester));
  }

  lemma FourConcat(a: string, b: string, c: string, d: string)
    ensures Concat([a, b, c, d]) == a + b + c + d
  {
    assert [a, b, c, d][1..] == [b, c, d] && [b, c, d][1..] == [c, d] && [c, d][1..] == [d] && [d][1..] == [];
    assert Concat([d]) == d + [];
    assert Concat([c, d]) == c + d;
    assert Concat([b, c, d]) == b + (c + d);
  }

  // ---------------------------------------------------------------- what the adapter says to an install

  lemma {:induction false} Within(lead: string, pattern: string, trail: string)
    ensures Contains(lead + pattern + trail, pattern)
  {
    if lead == [] {
      assert lead + pattern + trail == pattern + trail;
    } else {
      assert (lead + pattern + trail)[1..] == lead[1..] + pattern + trail;
      Within(lead[1..], pattern, trail);
    }
  }

  /** A full adapter's refusal is recognized wherever it stands in the reply, in either letter case. */
  lemma FullRecognized(lead: string, trail: string)
    ensures OutOfMemory(lead + "OUT OF MEMORY" + trail) && OutOfMemory(lead + "out of memory" + trail)
  {
    var up := Upper(lead) + "OUT OF MEMORY" + Upper(trail);
    assert Upper("out of memory") == "OUT OF MEMORY" == Upper("OUT OF MEMORY");
    assert Upper(lead + "OUT OF MEMORY" + trail) == up && Upper(lead + "out of memory" + trail) == up;
    Within(Upper(lead), "OUT OF MEMORY", Upper(trail));
  }

  /** A handle of two hexadecimal digits is one; a question mark is none. */
  lemma HandleRecognized(handle: byte)
    ensures HasHandle(Hex2(handle)) && !HasHandle("?")
  {
    var s := Hex2(handle);
    assert IsToken(s);
    TokensJoin([s]);
    assert Join([s], ' ') == s;
    assert Tokens(s) == [s] && s in Tokens(Upper(s));
    Hex2Value(handle);
    assert IsToken("?");
    TokensJoin(["?"]);
    assert Join(["?"], ' ') == "?" && Upper("?") == "?";
    assert Tokens("?") == ["?"];
  }

  // ---------------------------------------------------------------- routing

  // Learned lengths; a pid without one counts as one byte.
  function PlanLength(lengths: Lengths, pid: string): byte {
    if pid in lengths then lengths[pid] else 1
  }

  function PlanMembers(lengths: Lengths, pids: seq<string>): (r: seq<Member>)
    ensures |r| == |pids|
    ensures forall i :: 0 <= i < |pids| ==> r[i] == Member(pids[i], PlanLength(lengths, pids[i]))
  {
    seq(|pids|, i requires 0 <= i < |pids| => Member(pids[i], PlanLength(lengths, pids[i])))
  }

  /** One decoder's attempt; a member too short to have a mode stops the attempt, not the engine. */
  function Attempt(lengths: Lengths, d: Decoder, payloads: seq<Payload>): Option<ChunkSplitter.Split> {
    if d.pids != [] && |d.pids[0]| < 2 then None
    else match SplitMulti(PlanMembers(lengths, d.pids), payloads) case Success(out) => Some(out) case Failure(_) => None
  }

  /** The first decoder on the frame's id that can read it. */
  function Route(lengths: Lengths, decoders: seq<Decoder>, id: string,
                 payloads: seq<Payload>): Option<ChunkSplitter.Split> {
    if decoders == [] then None
    else if decoders[0].id == id && Attempt(lengths, decoders[0], payloads).Some?
        then Attempt(lengths, decoders[0], payloads)
    else Route(lengths, decoders[1..], id, payloads)
  }

  method RouteFrame(lengths: Lengths, decoders: seq<Decoder>, id: string, payloads: seq<Payload>)
    returns (batch: Option<ChunkSplitter.Split>)
    ensures batch == Route(lengths, decoders, id, payloads)
  {
    hide Attempt;
    var i := 0;
    assert decoders[0..] == decoders;
    while i < |decoders|
      invariant i <= |decoders|
      invariant Route(lengths, decoders[i..], id, payloads) == Route(lengths, decoders, id, payloads)
    {
      assert decoders[i..][1..] == decoders[i + 1..];
      if decoders[i].id == id {
        var attempt := Attempt(lengths, decoders[i], payloads);
        if attempt.Some? {
          return attempt;
        }
      }
      i := i + 1;
    }
    batch := None;
  }

  /** A message of plain pids of one mode. */
  ghost predicate PlainDecoder(d: Decoder) {
    d.pids != [] && forall i :: 0 <= i < |d.pids| ==> PlainPid(d.pids[i]) && ModeOf(d.pids[i]) == ModeOf(d.pids[0])
  }

  predicate Apart(d: Decoder, e: Decoder) {
    forall i, j :: 0 <= i < |d.pids| && 0 <= j < |e.pids| ==> d.pids[i] != e.pids[j]
  }

  ghost predicate DecoderTable(lengths: Lengths, d: Decoder, table: EchoTable) {
    && (forall i :: 0 <= i < |d.pids| ==>
          EchoNat(d.pids[i]) in table && table[EchoNat(d.pids[i])] == Member(d.pids[i], PlanLength(lengths, d.pids[i])))
    && forall e :: e in table ==> exists i :: 0 <= i < |d.pids| && EchoNat(d.pids[i]) == e
  }

  lemma DecoderMode(lengths: Lengths, d: Decoder)
    requires PlainDecoder(d)
    ensures |d.pids[0]| >= 2 && ChunkMode(PlanMembers(lengths, d.pids)) == Success(ModeOf(d.pids[0]))
  {
    PlainEcho(d.pids[0]);
    var members, mode := PlanMembers(lengths, d.pids), ModeOf(d.pids[0]);
    hide PlainPid, EchoNat, ParseU16;
    assert members[0].pid[..2] == mode.prefix;
  }

  lemma TableOf(lengths: Lengths, d: Decoder) returns (table: EchoTable)
    requires PlainDecoder(d)
    ensures |d.pids[0]| >= 2 && ChunkMode(PlanMembers(lengths, d.pids)) == Success(ModeOf(d.pids[0]))
    ensures EchoTableOf(ModeOf(d.pids[0]), PlanMembers(lengths, d.pids)) == Success(table)
    ensures DecoderTable(lengths, d, table)
  {
    DecoderMode(lengths, d);
    var mode, members := ModeOf(d.pids[0]), PlanMembers(lengths, d.pids);
    assert mode == MODE01 || mode == MODE22;
    var known := map pid | pid in d.pids :: PlanLength(lengths, pid);
    hide PlainPid, EchoNat, EchoTableOf, ModeOf, PlanLength, ChunkMode, PlanMembers, DecoderTable;
    TableHas(mode, members, known);
    table := EchoTableOf(mode, members).value;
    PlanTable(lengths, d, members, table);
  }

  lemma PlanTable(lengths: Lengths, d: Decoder, members: seq<Member>, table: EchoTable)
    requires |members| == |d.pids|
    requires forall i :: 0 <= i < |d.pids| ==> members[i] == Member(d.pids[i], PlanLength(lengths, d.pids[i]))
    requires forall k :: 0 <= k < |members| ==>
             EchoNat(members[k].pid) in table && table[EchoNat(members[k].pid)] == members[k]
    requires forall e :: e in table ==> exists k :: 0 <= k < |members| && EchoNat(members[k].pid) == e
    ensures DecoderTable(lengths, d, table)
  {
    hide EchoNat, PlanLength;
    forall i | 0 <= i < |d.pids|
      ensures EchoNat(d.pids[i]) in table &&
              table[EchoNat(d.pids[i])] == Member(d.pids[i], PlanLength(lengths, d.pids[i]))
    {
      assert members[i].pid == d.pids[i];
    }
    forall e | e in table ensures exists i :: 0 <= i < |d.pids| && EchoNat(d.pids[i]) == e {
      var i :| 0 <= i < |members| && EchoNat(members[i].pid) == e;
      assert EchoNat(d.pids[i]) == e;
    }
  }

  // An echo belongs to at most one of two apart messages of the same mode, and is never padding.
  lemma EchoApart(lengths: Lengths, d: Decoder, e: Decoder, dTable: EchoTable, eTable: EchoTable, echo: nat)
    requires PlainDecoder(d) && PlainDecoder(e) && Apart(d, e) && ModeOf(d.pids[0]) == ModeOf(e.pids[0])
    requires DecoderTable(lengths, d, dTable) && DecoderTable(lengths, e, eTable) && echo in dTable
    ensures echo !in eTable && echo != 0
  {
    hide PlainPid, EchoNat, ModeOf;
    var i :| 0 <= i < |d.pids| && EchoNat(d.pids[i]) == echo;
    PlainEcho(d.pids[i]);
    if echo in eTable {
      var j :| 0 <= j < |e.pids| && EchoNat(e.pids[j]) == echo;
      EchoInjective(d.pids[i], e.pids[j]);
      assert false;
    }
  }

  // A payload whose first block is not a member is refused.
  lemma ForeignFirst(mode: Mode, table: EchoTable, other: EchoTable, bytes: seq<byte>, blocks: seq<Block>)
    requires (mode == MODE01 || mode == MODE22) && SplitPayload(mode, table, bytes) == Success(blocks) && blocks != []
    requires blocks[0].echo in table ==> blocks[0].echo !in other && blocks[0].echo != 0
    ensures SplitPayload(mode, other, bytes).Failure?
  {
    SplitPayloadExact(mode, table, bytes, blocks);
    var rest, b := bytes[1..], blocks[0];
    assert blocks == [b] + blocks[1..];
    LaysCons(mode.width, table, rest, b, blocks[1..]);
    EchoWritten(mode.width, table, rest, b);
    assert b.echo in table;
    hide Lays, Render, Recognizable, BlockBytes, EchoBytes;
    assert EchoAt(mode.width, rest) == b.echo;
    assert !Padding(mode.width, other, rest);
  }

  // A reply in another mode, or of members apart from the table's, does not split.
  lemma OtherSplits(lengths: Lengths, d: Decoder, e: Decoder, dTable: EchoTable, eTable: EchoTable, bytes: seq<byte>,
                    blocks: seq<Block>)
    requires PlainDecoder(d) && PlainDecoder(e) && Apart(d, e)
    requires DecoderTable(lengths, d, dTable) && DecoderTable(lengths, e, eTable)
    requires SplitPayload(ModeOf(d.pids[0]), dTable, bytes) == Success(blocks) && blocks != []
    ensures SplitPayload(ModeOf(e.pids[0]), eTable, bytes).Failure?
  {
    var mode, other := ModeOf(d.pids[0]), ModeOf(e.pids[0]);
    assert (mode == MODE01 || mode == MODE22) && (other == MODE01 || other == MODE22);
    hide PlainDecoder, Apart, ModeOf, DecoderTable, Scan;
    if mode == other {
      if blocks[0].echo in dTable { EchoApart(lengths, d, e, dTable, eTable, blocks[0].echo); }
      ForeignFirst(mode, dTable, eTable, bytes, blocks);
    }
  }

  /** A reply of one message fails every other message's decoder, if their members are apart. */
  lemma OtherRefuses(lengths: Lengths, d: Decoder, e: Decoder, table: EchoTable, payload: Payload, blocks: seq<Block>)
    requires PlainDecoder(d) && PlainDecoder(e) && Apart(d, e)
    requires EchoTableOf(ModeOf(d.pids[0]), PlanMembers(lengths, d.pids)) == Success(table)
    requires SplitPayload(ModeOf(d.pids[0]), table, payload.bytes) == Success(blocks) && blocks != []
    ensures Attempt(lengths, e, [payload]) == None
  {
    assert ModeOf(e.pids[0]) == MODE01 || ModeOf(e.pids[0]) == MODE22;
    var dTable := TableOf(lengths, d);
    var eTable := TableOf(lengths, e);
    hide PlainDecoder, Apart, EchoTableOf, ModeOf, DecoderTable, SplitPayload, ChunkMode;
    OtherSplits(lengths, d, e, table, eTable, payload.bytes, blocks);
    SplitAllFails(ModeOf(e.pids[0]), eTable, [payload], 0);
  }

  /** `batch` is what splitting the payloads by this decoder's members gives. */
  ghost predicate SplitBy(lengths: Lengths, d: Decoder, payloads: seq<Payload>, batch: Option<ChunkSplitter.Split>)
    requires PlainDecoder(d)
  {
    batch.Some? && SplitMulti(PlanMembers(lengths, d.pids), payloads) == Success(batch.value)
  }

  /** The decoder whose members a payload carries reads it. */
  lemma OwnReads(lengths: Lengths, d: Decoder, table: EchoTable, payload: Payload, blocks: seq<Block>)
    requires PlainDecoder(d) && EchoTableOf(ModeOf(d.pids[0]), PlanMembers(lengths, d.pids)) == Success(table)
    requires SplitPayload(ModeOf(d.pids[0]), table, payload.bytes) == Success(blocks)
    ensures SplitBy(lengths, d, [payload], Attempt(lengths, d, [payload])) && Attempt(lengths, d, [payload]).Some?
  {
    var dTable := TableOf(lengths, d);
    hide PlainPid, EchoNat, EchoTableOf, ModeOf, DecoderTable, SplitPayload, ChunkMode, Carries, Get;
    SplitMultiExact(PlanMembers(lengths, d.pids), [payload], ModeOf(d.pids[0]), table, [blocks], [], Default);
  }

  /** `bytes` is a nonempty reply to message `j`, and the other messages on the id are apart from it. */
  ghost predicate RepliesTo(lengths: Lengths, decoders: seq<Decoder>, j: nat, id: string, table: EchoTable,
                            bytes: seq<byte>, blocks: seq<Block>)
    requires j < |decoders| && PlainDecoder(decoders[j])
  {
    && decoders[j].id == id
    && (forall k :: 0 <= k < |decoders| && k != j && decoders[k].id == id ==>
        PlainDecoder(decoders[k]) && Apart(decoders[j], decoders[k]))
    && EchoTableOf(ModeOf(decoders[j].pids[0]), PlanMembers(lengths, decoders[j].pids)) == Success(table)
    && SplitPayload(ModeOf(decoders[j].pids[0]), table, bytes) == Success(blocks) && blocks != []
  }

  /**
   Routing is exact: with messages of plain pids, apart from each other on the frame's id, a nonempty reply
   to message `j` is handed to decoder `j` and to no other, whatever their order.
   */
  lemma {:induction false} RouteExact(lengths: Lengths, decoders: seq<Decoder>, j: nat, id: string, table: EchoTable,
                                      payload: Payload, blocks: seq<Block>)
    requires j < |decoders| && PlainDecoder(decoders[j])
    requires RepliesTo(lengths, decoders, j, id, table, payload.bytes, blocks)
    ensures SplitBy(lengths, decoders[j], [payload], Route(lengths, decoders, id, [payload]))
  {
    hide PlainDecoder, Apart, EchoTableOf, SplitPayload, Attempt, SplitBy;
    if j == 0 {
      OwnReads(lengths, decoders[0], table, payload, blocks);
    } else {
      if decoders[0].id == id {
        OtherRefuses(lengths, decoders[j], decoders[0], table, payload, blocks);
      }
      RouteExact(lengths, decoders[1..], j - 1, id, table, payload, blocks);
    }
  }

  lemma PayloadOne(c: nat, bytes: seq<byte>)
    ensures PayloadsOf([(Ecu(c), Hexes(bytes))]) == [Payload(Ecu(c), bytes)]
  {
    BytesOfHexes(bytes);
    hide BytesOf, Hexes;
  }

  // A lone frame without accidental headers is framed to its payload.
  lemma FrameFramed(bus: Bus, c: nat, r: Reply, framed: Result<Frames, Fault>)
    requires bus.Addresses(c) && r.Valid() && r.SingleFrame? && FromBus(bus, Lone(c, r))
    requires bus.Can11? || HeadersHarmless(bus, Lone(c, r))
    requires FramesTo(bus, RenderLines(bus, Lone(c, r)), framed)
    ensures framed == Success([(Ecu(c), Hexes(r.payload))])
    ensures PayloadsOf([(Ecu(c), Hexes(r.payload))]) == [Payload(Ecu(c), r.payload)]
  {
    hide *;
    PayloadOne(c, r.payload);
    LoneLine(bus, c, r);
    FramingRoundTrip(bus, Lone(c, r), map[c := r], framed);
    LoneListed(framed.value, c, r);
  }

  /** Routing from the frame on: a single frame answering message `j` is read by decoder `j` and by no other. */
  lemma RouteFrameExact(bus: Bus, c: nat, r: Reply, framed: Result<Frames, Fault>, lengths: Lengths,
                        decoders: seq<Decoder>, j: nat, id: string, table: EchoTable, blocks: seq<Block>)
    requires bus.Addresses(c) && r.Valid() && r.SingleFrame? && FromBus(bus, Lone(c, r))
    requires bus.Can11? || HeadersHarmless(bus, Lone(c, r))
    requires FramesTo(bus, RenderLines(bus, Lone(c, r)), framed)
    requires j < |decoders| && PlainDecoder(decoders[j])
    requires RepliesTo(lengths, decoders, j, id, table, r.payload, blocks)
    ensures framed.Success?
    ensures SplitBy(lengths, decoders[j], [Payload(Ecu(c), r.payload)],
                    Route(lengths, decoders, id, PayloadsOf(framed.value)))
  {
    hide *;
    FrameFramed(bus, c, r, framed);
    RouteExact(lengths, decoders, j, id, table, Payload(Ecu(c), r.payload), blocks);
  }

  // ---------------------------------------------------------------- why installed messages are apart

  predicate Once(pids: seq<string>) {
    forall p :: p in pids ==> multiset(pids)[p] == 1
  }

  lemma CountBoth(x: seq<string>, y: seq<string>, pid: string)
    ensures multiset(x + y)[pid] == multiset(x)[pid] + multiset(y)[pid]
    ensures pid in x ==> multiset(x)[pid] >= 1
    ensures pid in y ==> multiset(y)[pid] >= 1
    ensures pid in x || pid in y ==> pid in x + y
  {
    assert pid in x ==> pid in multiset(x);
    assert pid in y ==> pid in multiset(y);
  }

  lemma {:induction false} OnceApart(messages: seq<PeriodicMessage>, i: nat, j: nat, pid: string)
    requires i < j < |messages| && Once(MessagePids(messages))
    ensures !(pid in messages[i].pids && pid in messages[j].pids)
  {
    var k := |messages| - 1;
    var before := MessagePids(messages[..k]);
    assert MessagePids(messages) == before + messages[k].pids;
    if j < k {
      forall p | p in before ensures multiset(before)[p] == 1 { CountBoth(before, messages[k].pids, p); }
      OnceApart(messages[..k], i, j, pid);
    } else {
      MessageMember(messages[..k], i, pid);
      CountBoth(before, messages[k].pids, pid);
    }
  }

  lemma {:induction false} MessageMember(messages: seq<PeriodicMessage>, i: nat, pid: string)
    requires i < |messages|
    ensures pid in messages[i].pids ==> pid in MessagePids(messages)
  {
    var k := |messages| - 1;
    if i < k { MessageMember(messages[..k], i, pid); }
  }

  /** Decoders of messages that hold each pid once are pairwise apart. */
  lemma {:induction false} InstalledFrom(messages: seq<PeriodicMessage>, replies: seq<string>, a: nat) returns (i: nat)
    requires a < |Installed(messages, replies)|
    ensures i < |messages| &&
            Installed(messages, replies)[a] == Decoder(PeriodicResponseId(messages[i].header), messages[i].pids)
  {
    hide OutOfMemory, HasHandle, PeriodicResponseId;
    if HasHandle(replies[0]) && a == 0 {
      i := 0;
    } else {
      var k := InstalledFrom(messages[1..], replies[1..], if HasHandle(replies[0]) then a - 1 else a);
      i := k + 1;
    }
  }

  lemma {:induction false} InstalledOrder(messages: seq<PeriodicMessage>, replies: seq<string>, a: nat, b: nat)
    returns (i: nat, j: nat)
    requires a < b < |Installed(messages, replies)|
    ensures i < j < |messages|
    ensures Installed(messages, replies)[a].pids == messages[i].pids &&
            Installed(messages, replies)[b].pids == messages[j].pids
  {
    hide OutOfMemory, HasHandle, PeriodicResponseId;
    if HasHandle(replies[0]) {
      if a == 0 {
        var k := InstalledFrom(messages[1..], replies[1..], b - 1);
        i, j := 0, k + 1;
      } else {
        var k, l := InstalledOrder(messages[1..], replies[1..], a - 1, b - 1);
        i, j := k + 1, l + 1;
      }
    } else {
      var k, l := InstalledOrder(messages[1..], replies[1..], a, b);
      i, j := k + 1, l + 1;
    }
  }

  lemma InstalledApart(messages: seq<PeriodicMessage>, replies: seq<string>, a: nat, b: nat)
    requires Once(MessagePids(messages)) && a < b < |Installed(messages, replies)|
    ensures Apart(Installed(messages, replies)[a], Installed(messages, replies)[b])
  {
    var decoders := Installed(messages, replies);
    hide OutOfMemory, HasHandle, PeriodicResponseId, Installed, Once;
    var i, j := InstalledOrder(messages, replies, a, b);
    forall x, y | 0 <= x < |decoders[a].pids| && 0 <= y < |decoders[b].pids|
      ensures decoders[a].pids[x] != decoders[b].pids[y] {
      OnceApart(messages, i, j, decoders[a].pids[x]);
    }
  }
}
