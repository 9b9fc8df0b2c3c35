/**
 A whole exchange: due picks to wire, reply text to members. If every controller answers its segment with
 well-formed ISO-TP lines and the adapter mirrors the pipes, each member gets exactly its own bytes.
 */
module Exchange {
  import opened Wrappers
  import opened Text
  import opened Sequences
  import opened Addressing
  import opened IsoTp
  import opened IsoTpRoundTrip
  import opened ChunkSplitter
  import opened ElmWire
  import opened ElmText
  import opened LengthCaching
  import opened Acquisition
  import opened GroupingOptimal
  import opened PollPlugins
  import opened Requests

  // ---------------------------------------------------------------- plain pids

  /** A normalized data pid: the only kind a chunk admits, and the kind a wire can be read back from. */
  predicate PlainPid(pid: string) {
    AllHex(pid) && Upper(pid) == pid && (IsPlainMode01DataPid(pid) || IsPlainMode22DataPid(pid))
  }

  function ModeOf(pid: string): Mode {
    if "01" <= pid then MODE01 else MODE22
  }

  function EchoNat(pid: string): nat {
    if |pid| >= 2 && AllHex(pid[2..]) then DigitsValue(pid[2..]) else 0
  }

  // ---------------------------------------------------------------- answers

  datatype Item = Item(pid: string, data: seq<byte>)

  /** What one controller says to one segment: some members' data, then padding. */
  datatype EcuAnswer = EcuAnswer(items: seq<Item>, tail: seq<byte>)

  function ItemBlock(item: Item): Block {
    Block(EchoNat(item.pid), item.data)
  }

  function ItemBlocks(items: seq<Item>): (r: seq<Block>)
    ensures |r| == |items|
    ensures forall i :: 0 <= i < |items| ==> r[i] == ItemBlock(items[i])
  {
    seq(|items|, i requires 0 <= i < |items| => ItemBlock(items[i]))
  }

  function ItemBytes(width: nat, items: seq<Item>): seq<byte> {
    if items == [] then []
    else EchoBytes(width, EchoNat(items[0].pid)) + items[0].data + ItemBytes(width, items[1..])
  }

  function AnswerBytes(mode: Mode, answer: EcuAnswer): seq<byte> {
    [mode.reply] + (ItemBytes(mode.width, answer.items) + answer.tail)
  }

  /** A chunk is answered by any of its members with their learned lengths; a solo by itself, with any data. */
  ghost predicate WellFormed(seg: seq<string>, lengths: Lengths, answer: EcuAnswer) {
    && (forall i :: 0 <= i < |answer.items| ==> answer.items[i].pid in seg)
    && (forall i, j :: 0 <= i < j < |answer.items| ==> answer.items[i].pid != answer.items[j].pid)
    && if |seg| == 1 then |answer.items| == 1 && answer.tail == []
       else
         && (answer.tail == [] || answer.tail[0] == 0)
         && forall i :: 0 <= i < |answer.items| ==>
              answer.items[i].pid in lengths && |answer.items[i].data| == lengths[answer.items[i].pid] as nat
  }

  /** One segment's part of the world: the text, the lines in it, and who said what. */
  datatype SegmentReply = SegmentReply(
    text: string, all: seq<string>, searching: bool, wire: seq<Tagged>, replies: map<nat, Reply>,
        answers: map<nat, EcuAnswer>)

  ghost predicate SegmentOk(lengths: Lengths, seg: seq<string>) {
    && seg != [] && (forall k :: 0 <= k < |seg| ==> PlainPid(seg[k]))
    && (|seg| > 1 ==> forall k :: 0 <= k < |seg| ==> ModeOf(seg[k]) == ModeOf(seg[0]) && seg[k] in lengths)
  }

  // Each controller's payload is a well-formed answer to the segment.
  ghost predicate AnswersFit(seg: seq<string>, lengths: Lengths, w: SegmentReply)
    requires seg != []
  {
    && w.replies != map[] && w.answers.Keys == w.replies.Keys
    && forall c :: c in w.answers ==>
         WellFormed(seg, lengths, w.answers[c]) && w.replies[c].payload == AnswerBytes(ModeOf(seg[0]), w.answers[c])
  }

  // The lines on the bus, their text, and the answers in them, to a request for `seg`.
  ghost predicate AnswersTo(bus: Bus, command: string, seg: seq<string>, lengths: Lengths, w: SegmentReply)
    requires seg != []
  {
    && Interleaves(bus, w.wire, w.replies)
    && (bus.Can11? || (exists c :: c in w.replies && w.replies[c].MultiFrame?) || HeadersHarmless(bus, w.wire))
    && ReplyText(w.text, command, RenderLines(bus, w.wire), w.all, w.searching)
    && AnswersFit(seg, lengths, w)
  }

  /** Controllers answer the pids they read in the request, and nothing else they could know of. */
  ghost predicate Answered(bus: Bus, request: string, lengths: Lengths, w: SegmentReply) {
    Asked(request) != [] && AnswersTo(bus, request, Asked(request), lengths, w)
  }

  /** Nobody answers: the text is an adapter's status, such as NO DATA, and carries nothing to frame. */
  ghost predicate Unanswered(command: string, w: SegmentReply) {
    w.replies == map[] && w.answers == map[] && NothingToFrame(command, w.text)
  }

  /** `controller` answered `pid` with `data`. */
  ghost predicate Said(w: SegmentReply, controller: Source, pid: string, data: seq<byte>) {
    controller.Ecu? && controller.id in w.answers && Item(pid, data) in w.answers[controller.id].items
  }

  /** What the bus does with a wire: every request is answered or comes back as a status. */
  ghost predicate BusReplies(bus: Bus, wire: string, lengths: Lengths, worlds: seq<SegmentReply>) {
    var requests := Text.Split(wire, '|');
    |worlds| == |requests| &&
    forall j :: 0 <= j < |worlds| ==>
      Answered(bus, requests[j], lengths, worlds[j]) || Unanswered(requests[j], worlds[j])
  }

  // ---------------------------------------------------------------- resolving a segment's members

  function MembersOf(lengths: Lengths, seg: seq<string>): (r: seq<Member>)
    requires forall k :: 0 <= k < |seg| ==> LengthOf(lengths, seg[k]).Some?
    ensures |r| == |seg|
    ensures forall k :: 0 <= k < |seg| ==> r[k] == Member(seg[k], LengthOf(lengths, seg[k]).value)
  {
    seq(|seg|, k requires 0 <= k < |seg| => Member(seg[k], LengthOf(lengths, seg[k]).value))
  }

  /** A lone member takes the whole reply; a chunk is split by echo with the lengths known now. */
  function Resolve(lengths: Lengths, seg: seq<string>, payloads: seq<Payload>): Result<ChunkSplitter.Split, SplitError>
    requires Joinable(seg)
  {
    if |seg| == 1 then
      match FromPayloads(seg[0], payloads)
      case Some(parsed) => Success(map[seg[0] := parsed])
      case None => Success(map[])
    else if exists k :: 0 <= k < |seg| && LengthOf(lengths, seg[k]).None? then Failure(Validation)
    else SplitMulti(MembersOf(lengths, seg), payloads)
  }

  /** The exchange hands `pid` these bytes as said by `controller`. */
  ghost predicate Delivered(lengths: Lengths, seg: seq<string>, payloads: seq<Payload>,
                            pid: string, controller: Source, data: seq<byte>)
    requires Joinable(seg)
  {
    var out := Resolve(lengths, seg, payloads);
    && out.Success?
    && Get(out.value, pid, controller).Some? && Get(out.value, pid, controller).value.data == data
  }

  // ---------------------------------------------------------------- hexadecimal names

  lemma {:induction false} DigitsBound(s: string)
    requires AllHex(s)
    ensures |s| == 2 ==> DigitsValue(s) < 0x100
    ensures |s| == 4 ==> DigitsValue(s) < 0x1_0000 && DigitsValue(s) == 256 * DigitsValue(s[..2]) + DigitsValue(s[2..])
  {
    if |s| == 2 {
      assert DigitsValue(s[..1][..0]) == 0;
      assert DigitsValue(s[..1]) == HexValue(s[0]);
    }
    if |s| == 4 {
      DigitsBound(s[..2]);
      DigitsBound(s[2..]);
      assert s[..3][..2] == s[..2];
      assert DigitsValue(s[2..][..1][..0]) == 0;
      assert DigitsValue(s[2..][..1]) == HexValue(s[2]);
      assert DigitsValue(s[..3]) == 16 * DigitsValue(s[..2]) + HexValue(s[2]);
    }
  }

  lemma HexValueInjective(c: char, d: char)
    requires HexChar(c) && HexChar(d) && HexValue(c) == HexValue(d)
    ensures c == d
  {
  }

  lemma UpperHead(s: string, i: nat)
    requires i <= |s| && Upper(s) == s
    ensures Upper(s[..i]) == s[..i]
  {
    assert forall k :: 0 <= k < i ==> Upper(s)[k] == s[k];
  }

  // A number's digits, one at a time.
  lemma LastDigit(s: string, t: string)
    requires s != [] && t != [] && AllHex(s) && AllHex(t) && Upper(s) == s && Upper(t) == t &&
             DigitsValue(s) == DigitsValue(t)
    ensures s[|s| - 1] == t[|t| - 1] && DigitsValue(s[..|s| - 1]) == DigitsValue(t[..|t| - 1])
  {
    assert Upper(s)[|s| - 1] == s[|s| - 1] && Upper(t)[|t| - 1] == t[|t| - 1];
    var c, d := s[|s| - 1], t[|t| - 1];
    assert HexChar(c) && HexChar(d);
    hide AllHex, Upper, HexValue, UpperChar;
    assert 16 * DigitsValue(s[..|s| - 1]) + HexValue(c) == 16 * DigitsValue(t[..|t| - 1]) + HexValue(d);
    HexValueInjective(c, d);
  }

  lemma {:induction false} DigitsInjective(s: string, t: string)
    requires |s| == |t| && AllHex(s) && AllHex(t) && Upper(s) == s && Upper(t) == t && DigitsValue(s) == DigitsValue(t)
    ensures s == t
  {
    if s != [] {
      var k := |s| - 1;
      LastDigit(s, t);
      UpperHead(s, k);
      UpperHead(t, k);
      DigitsInjective(s[..k], t[..k]);
      assert s == s[..k] + [s[k]] && t == t[..k] + [t[k]];
    }
  }

  lemma HexTrim(s: string)
    requires AllHex(s)
    ensures Trim(s) == s
  {
    if s != [] { assert IsHexDigit(s[0]) && IsHexDigit(s[|s| - 1]); }
    TrimTrimmed(s);
  }

  lemma UpperTail(s: string, i: nat)
    requires i <= |s| && Upper(s) == s
    ensures Upper(s[i..]) == s[i..]
  {
    assert forall k :: i <= k < |s| ==> Upper(s)[k] == s[k];
  }

  // What the shape test says about a normalized pid.
  lemma PlainShape(pid: string)
    requires PlainPid(pid)
    ensures |pid| == 4 || |pid| == 6
    ensures |pid| == 4 ==> "01" <= pid && pid[2..] != "00"
    ensures |pid| == 6 ==> "22" <= pid && !("00" <= pid[2..])
  {
    HexTrim(pid);
  }

  lemma PlainHex(pid: string)
    requires PlainPid(pid)
    ensures AllHex(pid) && |pid| >= 4
  {
    PlainShape(pid);
  }

  // The echo a pid names, and that it cannot be taken for padding.
  lemma PlainEcho(pid: string)
    requires PlainPid(pid)
    ensures
      var mode := ModeOf(pid);
      && mode.prefix <= pid && |pid| == 2 + 2 * mode.width
      && ParseU16(pid[2..]) == Some(EchoNat(pid))
      && if mode.width == 1 then 0 < EchoNat(pid) < 0x100 else 0x100 <= EchoNat(pid) < 0x1_0000
  {
    PlainShape(pid);
    var s := pid[2..];
    UpperTail(pid, 2);
    assert AllHex(s);
    DigitsBound(s);
    assert s[0] != '+' by { assert IsHexDigit(s[0]); }
    if |pid| == 4 {
      assert "01" <= pid;
      ZeroDigits(s);
    } else {
      assert pid[0] == '2';
      UpperHead(s, 2);
      ZeroDigits(s[..2]);
      assert s[..2] == "00" ==> "00" <= s;
    }
  }

  lemma ZeroDigits(s: string)
    requires |s| == 2 && AllHex(s) && Upper(s) == s
    ensures DigitsValue(s) == 0 ==> s == "00"
  {
    assert DigitsValue("00"[..1][..0]) == 0;
    assert DigitsValue("00"[..1]) == HexValue('0');
    assert DigitsValue("00") == 0;
    if DigitsValue(s) == 0 { DigitsInjective(s, "00"); }
  }

  lemma EchoInjective(p: string, q: string)
    requires PlainPid(p) && PlainPid(q) && ModeOf(p) == ModeOf(q) && EchoNat(p) == EchoNat(q)
    ensures p == q
  {
    PlainEcho(p);
    PlainEcho(q);
    UpperTail(p, 2);
    UpperTail(q, 2);
    DigitsInjective(p[2..], q[2..]);
    assert p == p[..2] + p[2..] && q == q[..2] + q[2..];
    assert p[..2] == ModeOf(p).prefix == q[..2];
  }

  // ---------------------------------------------------------------- framing one segment

  lemma {:induction false} BytesOfHexes(bytes: seq<byte>)
    ensures BytesOf(Hexes(bytes)) == bytes
  {
    if bytes != [] {
      var k := |bytes| - 1;
      assert Hexes(bytes)[..k] == Hexes(bytes[..k]);
      BytesOfHexes(bytes[..k]);
      Hex2Value(bytes[k]);
      assert bytes == bytes[..k] + [bytes[k]];
    }
  }

  /** One payload per answering controller, each the controller's own. */
  ghost predicate PayloadsOfReplies(payloads: seq<Payload>, replies: map<nat, Reply>) {
    && DistinctControllers(payloads)
    && (forall i :: 0 <= i < |payloads| ==>
          && payloads[i].controller.Ecu? && payloads[i].controller.id in replies
          && payloads[i].bytes == replies[payloads[i].controller.id].payload)
    && (forall c :: c in replies ==> exists i :: 0 <= i < |payloads| && payloads[i].controller == Ecu(c))
  }

  lemma FramesPayloads(frames: Frames, replies: map<nat, Reply>)
    requires Lists(frames, Expected(replies))
    ensures PayloadsOfReplies(PayloadsOf(frames), replies)
  {
    hide Hexes, BytesOf;
    var payloads := PayloadsOf(frames);
    forall i | 0 <= i < |payloads|
      ensures payloads[i].controller.Ecu? && payloads[i].controller.id in replies
              && payloads[i].bytes == replies[payloads[i].controller.id].payload
    {
      assert frames[i].0 in Expected(replies);
      BytesOfHexes(replies[frames[i].0.id].payload);
    }
    forall c | c in replies ensures exists i :: 0 <= i < |payloads| && payloads[i].controller == Ecu(c) {
      assert Ecu(c) in Expected(replies);
      var i :| 0 <= i < |frames| && frames[i].0 == Ecu(c);
      assert payloads[i].controller == Ecu(c);
    }
  }

  lemma WireNonEmpty(bus: Bus, wire: seq<Tagged>, replies: map<nat, Reply>)
    requires Interleaves(bus, wire, replies) && replies != map[]
    ensures RenderLines(bus, wire) != []
  {
    var c :| c in replies;
    BodiesBound(wire, Ecu(c));
    assert replies[c].Bodies() != [] by { if replies[c].MultiFrame? { MultiBodies(replies[c]); } }
  }

  lemma SegmentPayloads(bus: Bus, command: string, seg: seq<string>, lengths: Lengths, w: SegmentReply,
                        result: Result<seq<Payload>, Fault>)
    requires seg != [] && AnswersTo(bus, command, seg, lengths, w) && ' ' !in command
    requires PayloadsTo(command, w.text, bus, result)
    ensures result.Success? && PayloadsOfReplies(result.value, w.replies)
    ensures ClassifyText(w.text) == Ok && !Contains(w.text, "NO DATA") && !Contains(w.text, "ERROR")
  {
    assert FromBus(bus, w.wire);
    hide FromBus, Interleaves, ReplyText, WellFormed, NothingToFrame, ClassifyText, Contains, FramesTo, HeadersHarmless,
      PayloadsOf, PayloadsOfReplies, Sanitize, TokenLines, RenderLines, FrameLines;
    var lines := RenderLines(bus, w.wire);
    RenderedFrameLines(bus, w.wire, w.replies);
    WireNonEmpty(bus, w.wire, w.replies);
    ReplyTextLines(w.text, command, lines, w.all, w.searching);
    var frames :| && FramesTo(bus, lines, frames)
                  && result == match frames
                               case Success(f) => Success(PayloadsOf(f))
                               case Failure(e) => Failure(e);
    FramingRoundTrip(bus, w.wire, w.replies, frames);
    FramesPayloads(frames.value, w.replies);
  }

  // ---------------------------------------------------------------- a lone member

  function Rest(bytes: seq<byte>, skip: nat): seq<byte> {
    if skip <= |bytes| then bytes[skip..] else []
  }

  lemma {:induction false} ParsedLookup(payloads: seq<Payload>, skip: nat, i: nat)
    requires DistinctControllers(payloads) && i < |payloads|
    ensures payloads[i].controller in Parsed(payloads, skip)
    ensures Parsed(payloads, skip)[payloads[i].controller].data == Rest(payloads[i].bytes, skip)
  {
    var k := |payloads| - 1;
    if i < k {
      ParsedLookup(payloads[..k], skip, i);
      assert payloads[i].controller != payloads[k].controller;
    }
  }

  lemma {:induction false} ParsedFrom(payloads: seq<Payload>, skip: nat, controller: Source) returns (i: nat)
    requires controller in Parsed(payloads, skip)
    ensures i < |payloads| && payloads[i].controller == controller
  {
    var k := |payloads| - 1;
    i := k;
    if payloads[k].controller != controller {
      i := ParsedFrom(payloads[..k], skip, controller);
    }
  }

  lemma NotAtCommand(pid: string)
    requires Trim(pid) == pid && Upper(pid) == pid && pid != [] && (pid[0] == '0' || pid[0] == '2')
    ensures !IsAtCommand(pid)
  {
    assert "AT"[0] == 'A' && "ST"[0] == 'S';
  }

  lemma DataEchoCount(rest: string)
    ensures |rest| == 2 ==> EchoByteCount("01", rest) == 2
    ensures |rest| == 4 ==> EchoByteCount("22", rest) == 3
  {
    assert "01" !in {"03", "07", "0A", "04"} && "01" != "06" && "01" != "22";
    assert "22" !in {"03", "07", "0A", "04"} && "22" != "06";
  }

  lemma SoloEcho(pid: string)
    requires PlainPid(pid)
    ensures !IsAtCommand(pid) && CommandEcho(pid) == 1 + ModeOf(pid).width
  {
    HexTrim(pid);
    PlainShape(pid);
    PlainEcho(pid);
    PlainUpper(pid);
    var mode := ModeOf(pid);
    assert mode == MODE01 || mode == MODE22;
    assert pid[0] == mode.prefix[0];
    NotAtCommand(pid);
    DataEchoCount(pid[2..]);
    hide PlainPid, Trim, Upper, ModeOf, EchoByteCount, IsAtCommand;
    assert pid[..2] == mode.prefix;
    assert CommandEcho(pid) == EchoByteCount(mode.prefix, pid[2..]);
  }

  lemma SoloBytes(pid: string, answer: EcuAnswer, lengths: Lengths)
    requires PlainPid(pid) && WellFormed([pid], lengths, answer)
    ensures |answer.items| == 1 && answer.items[0].pid == pid
    ensures Rest(AnswerBytes(ModeOf(pid), answer), 1 + ModeOf(pid).width) == answer.items[0].data
  {
    SoloOpens(pid, answer, lengths);
    assert answer.items[0].pid in [pid];
  }

  lemma SoloParsed(pid: string, lengths: Lengths, w: SegmentReply, payloads: seq<Payload>, controller: Source,
                   data: seq<byte>)
    requires PlainPid(pid) && PayloadsOfReplies(payloads, w.replies) && AnswersFit([pid], lengths, w)
    ensures
      var parsed := Parsed(payloads, 1 + ModeOf(pid).width);
      controller in parsed && parsed[controller].data == data <==> Said(w, controller, pid, data)
  {
    var skip := 1 + ModeOf(pid).width;
    hide PlainPid, WellFormed, AnswerBytes, Parsed, DistinctControllers, ModeOf;
    if controller in Parsed(payloads, skip) {
      var i := ParsedFrom(payloads, skip, controller);
    }
    if controller.Ecu? && controller.id in w.replies {
      var i :| 0 <= i < |payloads| && payloads[i].controller == controller;
      ParsedLookup(payloads, skip, i);
      var answer := w.answers[controller.id];
      SoloBytes(pid, answer, lengths);
      assert answer.items == [Item(pid, answer.items[0].data)];
    }
  }

  lemma PayloadsNonEmpty(payloads: seq<Payload>, replies: map<nat, Reply>)
    requires PayloadsOfReplies(payloads, replies) && replies != map[]
    ensures payloads != []
  {
    var c :| c in replies;
  }

  lemma SoloResolve(pid: string, lengths: Lengths, payloads: seq<Payload>)
    requires PlainPid(pid) && payloads != []
    ensures Resolve(lengths, [pid], payloads) == Success(map[pid := Parsed(payloads, 1 + ModeOf(pid).width)])
  {
    SoloEcho(pid);
    hide PlainPid, Parsed, IsAtCommand, CommandEcho;
  }

  lemma GetSolo(pid: string, parsed: map<Source, Slice>, controller: Source)
    ensures Get(map[pid := parsed], pid, controller) == if controller in parsed then Some(parsed[controller]) else None
  {
  }

  /** A lone member gets, from every controller, exactly what that controller said after the echo. */
  lemma SoloExact(seg: seq<string>, lengths: Lengths, w: SegmentReply, payloads: seq<Payload>,
                  pid: string, controller: Source, data: seq<byte>)
    requires |seg| == 1 && PlainPid(seg[0]) && PayloadsOfReplies(payloads, w.replies) && AnswersFit(seg, lengths, w) &&
             pid in seg
    ensures Delivered(lengths, seg, payloads, pid, controller, data) <==> Said(w, controller, pid, data)
    ensures Resolve(lengths, seg, payloads).Success?
  {
    assert w.replies != map[];
    hide PlainPid, WellFormed, Parsed, PayloadsOfReplies, Said, AnswersFit, Resolve, Get, ModeOf, Delivered;
    PayloadsNonEmpty(payloads, w.replies);
    assert seg == [pid];
    SoloParsed(pid, lengths, w, payloads, controller, data);
    SoloDelivered(pid, lengths, payloads, controller, data);
  }

  lemma SoloDelivered(pid: string, lengths: Lengths, payloads: seq<Payload>, controller: Source, data: seq<byte>)
    requires PlainPid(pid) && payloads != []
    ensures Resolve(lengths, [pid], payloads).Success?
    ensures
      var parsed := Parsed(payloads, 1 + ModeOf(pid).width);
      Delivered(lengths, [pid], payloads, pid, controller, data) <==>
          controller in parsed && parsed[controller].data == data
  {
    hide PlainPid, Parsed, Resolve, Get, ModeOf;
    SoloResolve(pid, lengths, payloads);
    GetSolo(pid, Parsed(payloads, 1 + ModeOf(pid).width), controller);
  }

  lemma ParseDigits(s: string)
    requires AllHex(s) && |s| == 2
    ensures DigitsValue(s) < 0x100 && ParseU8(s) == Some(DigitsValue(s) as byte)
  {
    DigitsBound(s);
    assert IsHexDigit(s[0]);
  }

  lemma EchoOf01(pid: string)
    requires Upper(pid) == pid && |pid| == 4 && "01" <= pid && AllHex(pid)
    ensures DigitsValue(pid[2..]) < 0x100 && EchoOf(pid) == Some([0x41] + EchoBytes(1, DigitsValue(pid[2..])))
  {
    var v := DigitsValue(pid[2..]);
    ParseDigits(pid[2..]);
    assert EchoBytes(1, v) == [v as byte];
    assert [0x41] + [v as byte] == [0x41, v as byte];
  }

  lemma EchoOf22(pid: string)
    requires Upper(pid) == pid && |pid| == 6 && "22" <= pid && AllHex(pid)
    ensures EchoOf(pid) == Some([0x62] + EchoBytes(2, DigitsValue(pid[2..])))
  {
    var s, hi, lo := pid[2..], DigitsValue(pid[2..4]), DigitsValue(pid[4..]);
    ParseDigits(pid[2..4]);
    ParseDigits(pid[4..]);
    DigitsBound(s);
    assert s[..2] == pid[2..4];
    assert s[2..] == pid[4..];
    hide ParseU8, AllHex, DigitsValue, Upper;
    TwoBytes(DigitsValue(s), hi, lo);
    assert [0x62] + [hi as byte, lo as byte] == [0x62, hi as byte, lo as byte];
  }

  lemma EchoOfPlain(pid: string)
    requires PlainPid(pid)
    ensures EchoOf(pid) == Some([ModeOf(pid).reply] + EchoBytes(ModeOf(pid).width, EchoNat(pid)))
  {
    PlainEcho(pid);
    PlainShape(pid);
    assert AllHex(pid) && Upper(pid) == pid && EchoNat(pid) == DigitsValue(pid[2..]);
    hide PlainPid, AllHex, Upper, ParseU16, EchoNat, EchoOf, DigitsValue;
    if |pid| == 4 { EchoOf01(pid); } else { EchoOf22(pid); }
  }

  lemma TwoBytes(v: nat, hi: nat, lo: nat)
    requires v == 256 * hi + lo && hi < 256 && lo < 256
    ensures EchoBytes(2, v) == [hi as byte, lo as byte]
  {
  }

  lemma SoloOpens(pid: string, answer: EcuAnswer, lengths: Lengths)
    requires PlainPid(pid) && WellFormed([pid], lengths, answer)
    ensures |answer.items| == 1
    ensures AnswerBytes(ModeOf(pid), answer) ==
            [ModeOf(pid).reply] + EchoBytes(ModeOf(pid).width, EchoNat(pid)) + answer.items[0].data
  {
    var mode, item := ModeOf(pid), answer.items[0];
    assert item.pid in [pid];
    assert ItemBytes(mode.width, answer.items[1..]) == [];
    assert ItemBytes(mode.width, answer.items) == EchoBytes(mode.width, EchoNat(pid)) + item.data;
  }

  /**
   Observe, then batch: after a solo reply the length recorded for the pid is the number of data bytes
   every controller sent, which is the length a later chunk reply is read with.
   */
  lemma SoloLearns(pid: string, lengths: Lengths, w: SegmentReply, payloads: seq<Payload>, n: nat)
    requires PlainPid(pid) && PayloadsOfReplies(payloads, w.replies) && AnswersFit([pid], lengths, w) && 0 < n < 256
    requires forall c, i :: c in w.answers && 0 <= i < |w.answers[c].items| ==> |w.answers[c].items[i].data| == n
    ensures ObservedLen(pid, payloads) == Some(n as byte)
  {
    PayloadsNonEmpty(payloads, w.replies);
    EchoOfPlain(pid);
    hide PlainPid, ModeOf, EchoNat, EchoBytes, WellFormed, AnswerBytes, EchoOf, DistinctControllers;
    var answer := w.answers[payloads[0].controller.id];
    SoloOpens(pid, answer, lengths);
    OpensWith(EchoOf(pid).value, answer.items[0].data, payloads);
  }

  lemma OpensWith(echo: seq<byte>, data: seq<byte>, payloads: seq<Payload>)
    requires payloads != [] && payloads[0].bytes == echo + data
    ensures FirstEchoed(echo, payloads) == Some(data)
  {
  }

  // ---------------------------------------------------------------- a chunk

  // Each member's echo leads to the member itself.
  lemma {:induction false} TableHas(mode: Mode, members: seq<Member>, lengths: Lengths)
    requires mode == MODE01 || mode == MODE22
    requires forall k :: 0 <= k < |members| ==>
               && PlainPid(members[k].pid) && ModeOf(members[k].pid) == mode
               && members[k].pid in lengths && members[k].len == lengths[members[k].pid]
    ensures EchoTableOf(mode, members).Success?
    ensures forall k :: 0 <= k < |members| ==>
              && EchoNat(members[k].pid) in EchoTableOf(mode, members).value
              && EchoTableOf(mode, members).value[EchoNat(members[k].pid)] == members[k]
    ensures forall e :: e in EchoTableOf(mode, members).value ==>
            exists k :: 0 <= k < |members| && EchoNat(members[k].pid) == e
  {
    hide PlainPid, ParseU16, EchoNat, Upper, ModeOf;
    if members != [] {
      var k := |members| - 1;
      var m := members[k];
      TableHas(mode, members[..k], lengths);
      PlainEcho(m.pid);
      assert Upper(m.pid) == m.pid by { PlainUpper(m.pid); }
      var before, table := EchoTableOf(mode, members[..k]).value, EchoTableOf(mode, members).value;
      assert table == before[EchoNat(m.pid) := m];
      forall i | 0 <= i < |members|
        ensures EchoNat(members[i].pid) in table && table[EchoNat(members[i].pid)] == members[i] {
        if i < k {
          assert members[..k][i] == members[i];
          if EchoNat(members[i].pid) == EchoNat(m.pid) { EchoInjective(members[i].pid, m.pid); }
        }
      }
      forall e | e in table ensures exists i :: 0 <= i < |members| && EchoNat(members[i].pid) == e {
        if e in before {
          var i :| 0 <= i < k && EchoNat(members[..k][i].pid) == e;
          assert EchoNat(members[i].pid) == e;
        }
      }
    }
  }

  lemma PlainUpper(pid: string)
    requires PlainPid(pid)
    ensures Upper(pid) == pid
  {
  }

  /** The table maps every member of the segment to its own pid and length. */
  ghost predicate TableFor(mode: Mode, table: EchoTable, seg: seq<string>, lengths: Lengths) {
    && (forall k :: 0 <= k < |seg| ==>
          && PlainPid(seg[k]) && ModeOf(seg[k]) == mode && seg[k] in lengths
          && EchoNat(seg[k]) in table && table[EchoNat(seg[k])] == Member(seg[k], lengths[seg[k]]))
    && (mode.width == 1 ==> 0 !in table)
  }

  lemma ChunkMembers(seg: seq<string>, lengths: Lengths)
    requires SegmentOk(lengths, seg) && |seg| > 1
    ensures forall k :: 0 <= k < |seg| ==> LengthOf(lengths, seg[k]) == Some(lengths[seg[k]])
    ensures
      var members := MembersOf(lengths, seg);
      && |members[0].pid| >= 2 && ChunkMode(members) == Success(ModeOf(seg[0]))
      && forall k :: 0 <= k < |members| ==> members[k] == Member(seg[k], lengths[seg[k]])
  {
    forall k | 0 <= k < |seg| ensures LengthOf(lengths, seg[k]) == Some(lengths[seg[k]]) { PlainUpper(seg[k]); }
    PlainEcho(seg[0]);
    hide PlainPid, ParseU16, EchoNat, Upper, LengthOf;
    var pid := seg[0];
    assert pid[..2] == ModeOf(pid).prefix;
  }

  lemma NoZeroEcho(mode: Mode, members: seq<Member>, table: EchoTable)
    requires forall k :: 0 <= k < |members| ==> PlainPid(members[k].pid) && ModeOf(members[k].pid) == mode
    requires forall e :: e in table ==> exists k :: 0 <= k < |members| && EchoNat(members[k].pid) == e
    ensures 0 !in table
  {
    hide PlainPid, ParseU16, EchoNat;
    forall k | 0 <= k < |members| ensures EchoNat(members[k].pid) != 0 { PlainEcho(members[k].pid); }
  }

  lemma ChunkTable(seg: seq<string>, lengths: Lengths) returns (table: EchoTable)
    requires SegmentOk(lengths, seg) && |seg| > 1
    ensures forall k :: 0 <= k < |seg| ==> LengthOf(lengths, seg[k]).Some?
    ensures EchoTableOf(ModeOf(seg[0]), MembersOf(lengths, seg)) == Success(table)
    ensures TableFor(ModeOf(seg[0]), table, seg, lengths)
  {
    ChunkMembers(seg, lengths);
    assert ModeOf(seg[0]) == MODE01 || ModeOf(seg[0]) == MODE22;
    hide PlainPid, EchoNat, MembersOf, ModeOf, EchoTableOf, ChunkMode, LengthOf, TableFor;
    var mode, members := ModeOf(seg[0]), MembersOf(lengths, seg);
    TableHas(mode, members, lengths);
    table := EchoTableOf(mode, members).value;
    NoZeroEcho(mode, members, table);
    MembersTable(mode, table, seg, members, lengths);
  }

  lemma MembersTable(mode: Mode, table: EchoTable, seg: seq<string>, members: seq<Member>, lengths: Lengths)
    requires |members| == |seg| && 0 !in table
    requires forall k :: 0 <= k < |seg| ==> PlainPid(seg[k]) && ModeOf(seg[k]) == mode && seg[k] in lengths
    requires forall k :: 0 <= k < |members| ==> members[k] == Member(seg[k], lengths[seg[k]])
    requires forall k :: 0 <= k < |members| ==>
             EchoNat(members[k].pid) in table && table[EchoNat(members[k].pid)] == members[k]
    ensures TableFor(mode, table, seg, lengths)
  {
    hide PlainPid, EchoNat, ModeOf;
    forall k | 0 <= k < |seg|
      ensures EchoNat(seg[k]) in table && table[EchoNat(seg[k])] == Member(seg[k], lengths[seg[k]]) {
      assert members[k] == Member(seg[k], lengths[seg[k]]);
    }
  }

  lemma ItemRecognizable(mode: Mode, table: EchoTable, seg: seq<string>, lengths: Lengths, item: Item)
    requires TableFor(mode, table, seg, lengths) && item.pid in seg && |item.data| == lengths[item.pid] as nat
    ensures Recognizable(mode.width, table, ItemBlock(item)) && table[EchoNat(item.pid)].pid == item.pid
  {
    var k :| 0 <= k < |seg| && seg[k] == item.pid;
    PlainEcho(item.pid);
    hide PlainPid, EchoNat;
  }

  lemma {:induction false} ItemsRendered(mode: Mode, table: EchoTable, items: seq<Item>)
    requires 1 <= mode.width <= 2 && AllRecognizable(mode.width, table, ItemBlocks(items))
    ensures Render(mode.width, table, ItemBlocks(items)) == ItemBytes(mode.width, items)
  {
    hide Recognizable, EchoBytes, EchoNat;
    if items != [] {
      assert ItemBlocks(items)[1..] == ItemBlocks(items[1..]);
      ItemsRendered(mode, table, items[1..]);
    }
  }

  /** Some members with their learned lengths, each at most once, then padding. */
  ghost predicate ChunkAnswer(seg: seq<string>, lengths: Lengths, answer: EcuAnswer) {
    && (forall i :: 0 <= i < |answer.items| ==>
          && answer.items[i].pid in seg && answer.items[i].pid in lengths
          && |answer.items[i].data| == lengths[answer.items[i].pid] as nat)
    && (forall i, j :: 0 <= i < j < |answer.items| ==> answer.items[i].pid != answer.items[j].pid)
    && (answer.tail == [] || answer.tail[0] == 0)
  }

  // A chunk's answer is what the splitter accepts, and its blocks are the items.
  lemma AnswerSplits(mode: Mode, table: EchoTable, seg: seq<string>, lengths: Lengths, answer: EcuAnswer)
    requires (mode == MODE01 || mode == MODE22) && TableFor(mode, table, seg, lengths)
    requires ChunkAnswer(seg, lengths, answer)
    ensures SplitPayload(mode, table, AnswerBytes(mode, answer)) == Success(ItemBlocks(answer.items))
  {
    var items, blocks := answer.items, ItemBlocks(answer.items);
    hide PlainPid, EchoNat, Recognizable, EchoBytes;
    forall i | 0 <= i < |items|
      ensures Recognizable(mode.width, table, blocks[i]) && table[blocks[i].echo].pid == items[i].pid {
      ItemRecognizable(mode, table, seg, lengths, items[i]);
    }
    assert Distinct(blocks);
    ItemsRendered(mode, table, items);
    RenderedLays(mode, table, answer.tail, blocks);
    var bytes := AnswerBytes(mode, answer);
    assert bytes[1..] == Render(mode.width, table, blocks) + answer.tail;
    hide Lays, AllRecognizable, SplitPayload, TableFor;
    SplitPayloadExact(mode, table, bytes, blocks);
  }

  lemma RenderedLays(mode: Mode, table: EchoTable, tail: seq<byte>, blocks: seq<Block>)
    requires (mode == MODE01 || mode == MODE22) && AllRecognizable(mode.width, table, blocks)
    requires (tail == [] || tail[0] == 0) && (mode.width == 1 ==> 0 !in table)
    ensures Lays(mode.width, table, Render(mode.width, table, blocks) + tail, blocks)
  {
    hide Recognizable, Render;
    var rendered := Render(mode.width, table, blocks);
    assert (rendered + tail)[|rendered|..] == tail;
  }

  // A block stands for a pid exactly when it is that pid's item.
  lemma ItemAnswers(mode: Mode, table: EchoTable, seg: seq<string>, lengths: Lengths, items: seq<Item>, pid: string,
                    b: Block)
    requires TableFor(mode, table, seg, lengths)
    requires forall i :: 0 <= i < |items| ==> items[i].pid in seg && |items[i].data| == lengths[items[i].pid] as nat
    ensures Answers(table, ItemBlocks(items), pid, b) <==>
            Item(pid, b.data) in items && b == ItemBlock(Item(pid, b.data))
  {
    hide PlainPid, EchoNat, Recognizable, TableFor;
    forall i | 0 <= i < |items|
      ensures EchoNat(items[i].pid) in table && table[EchoNat(items[i].pid)].pid == items[i].pid {
      ItemRecognizable(mode, table, seg, lengths, items[i]);
      assert EchoNat(items[i].pid) in table by { RecognizableIn(mode.width, table, ItemBlock(items[i])); }
    }
    if Answers(table, ItemBlocks(items), pid, b) {
      var i :| 0 <= i < |items| && ItemBlocks(items)[i] == b;
      assert items[i] == Item(pid, b.data);
    }
    if Item(pid, b.data) in items && b == ItemBlock(Item(pid, b.data)) {
      var i :| 0 <= i < |items| && items[i] == Item(pid, b.data);
      assert ItemBlocks(items)[i] == b;
    }
  }

  lemma RecognizableIn(width: nat, table: EchoTable, b: Block)
    requires Recognizable(width, table, b)
    ensures b.echo in table
  {
  }

  // The payloads split into the controllers' items.
  lemma ChunkSplits(mode: Mode, table: EchoTable, seg: seq<string>, lengths: Lengths, w: SegmentReply,
                    payloads: seq<Payload>)
    returns (blocks: seq<seq<Block>>)
    requires |seg| > 1 && mode == ModeOf(seg[0]) && TableFor(mode, table, seg, lengths)
    requires PayloadsOfReplies(payloads, w.replies) && AnswersFit(seg, lengths, w)
    ensures |blocks| == |payloads|
    ensures forall i :: 0 <= i < |payloads| ==> blocks[i] == ItemBlocks(w.answers[payloads[i].controller.id].items)
    ensures AllSplit(mode, table, payloads, blocks)
  {
    hide PlainPid, EchoNat, WellFormed, TableFor, SplitPayload, AnswerBytes, DistinctControllers;
    blocks := seq(|payloads|, i requires 0 <= i < |payloads| => ItemBlocks(w.answers[payloads[i].controller.id].items));
    forall i | 0 <= i < |payloads| ensures SplitPayload(mode, table, payloads[i].bytes) == Success(blocks[i]) {
      ChunkAnswered(seg, lengths, w, payloads[i].controller.id);
      AnswerSplits(mode, table, seg, lengths, w.answers[payloads[i].controller.id]);
    }
  }

  lemma ChunkAnswered(seg: seq<string>, lengths: Lengths, w: SegmentReply, c: nat)
    requires |seg| > 1 && AnswersFit(seg, lengths, w) && c in w.answers
    ensures ChunkAnswer(seg, lengths, w.answers[c])
  {
    hide PlainPid, AnswerBytes;
    assert WellFormed(seg, lengths, w.answers[c]);
  }

  // What a controller's payload carries for a pid the controller said.
  lemma CarriedSaid(mode: Mode, table: EchoTable, seg: seq<string>, lengths: Lengths, w: SegmentReply,
                    payloads: seq<Payload>, blocks: seq<seq<Block>>, pid: string, controller: Source, slice: Slice)
    requires |seg| > 1 && mode == ModeOf(seg[0]) && TableFor(mode, table, seg, lengths)
    requires PayloadsOfReplies(payloads, w.replies) && AnswersFit(seg, lengths, w) && |blocks| == |payloads|
    requires forall i :: 0 <= i < |payloads| ==> blocks[i] == ItemBlocks(w.answers[payloads[i].controller.id].items)
    requires Carries(mode, table, payloads, blocks, pid, controller, slice)
    ensures Said(w, controller, pid, slice.data)
  {
    hide PlainPid, EchoNat, TableFor, AnswerBytes, DistinctControllers, Answers, ItemBlocks, ItemBlock, Silent;
    var i, b :| && 0 <= i < |payloads| && payloads[i].controller == controller
                && Answers(table, blocks[i], pid, b) && slice == SliceOf(mode, b)
                && forall j :: i < j < |payloads| && payloads[j].controller == controller ==>
                   Silent(table, blocks[j], pid);
    assert WellFormed(seg, lengths, w.answers[controller.id]);
    ItemAnswers(mode, table, seg, lengths, w.answers[controller.id].items, pid, b);
  }

  // What a controller said for a pid its payload carries.
  lemma SaidCarried(mode: Mode, table: EchoTable, seg: seq<string>, lengths: Lengths, w: SegmentReply,
                    payloads: seq<Payload>, blocks: seq<seq<Block>>, pid: string, controller: Source, data: seq<byte>)
    returns (slice: Slice)
    requires |seg| > 1 && mode == ModeOf(seg[0]) && TableFor(mode, table, seg, lengths)
    requires PayloadsOfReplies(payloads, w.replies) && AnswersFit(seg, lengths, w) && |blocks| == |payloads|
    requires forall i :: 0 <= i < |payloads| ==> blocks[i] == ItemBlocks(w.answers[payloads[i].controller.id].items)
    requires Said(w, controller, pid, data)
    ensures Carries(mode, table, payloads, blocks, pid, controller, slice) && slice.data == data
  {
    assert w.answers.Keys == w.replies.Keys;
    hide AnswersFit, PayloadsOfReplies, Said, TableFor, ModeOf, ItemBlocks, ItemBlock, Answers, Carries;
    RepliesDistinct(payloads, w.replies);
    var i := SaidPayload(w, payloads, controller, pid, data);
    var item := Item(pid, data);
    var b := ItemBlock(item);
    slice := SliceOf(mode, b);
    BlockData(item);
    AnswerItems(seg, lengths, w, controller.id);
    ItemAnswers(mode, table, seg, lengths, w.answers[controller.id].items, pid, b);
    CarriesOnce(mode, table, payloads, blocks, pid, i, b);
  }

  lemma AnswerItems(seg: seq<string>, lengths: Lengths, w: SegmentReply, c: nat)
    requires |seg| > 1 && AnswersFit(seg, lengths, w) && c in w.answers
    ensures
      var items := w.answers[c].items;
      forall i :: 0 <= i < |items| ==>
          items[i].pid in seg && items[i].pid in lengths && |items[i].data| == lengths[items[i].pid] as nat
  {
    hide PlainPid, AnswerBytes;
  }

  lemma SaidPayload(w: SegmentReply, payloads: seq<Payload>, controller: Source, pid: string, data: seq<byte>)
    returns (i: nat)
    requires PayloadsOfReplies(payloads, w.replies) && Said(w, controller, pid, data) &&
             w.answers.Keys == w.replies.Keys
    ensures i < |payloads| && payloads[i].controller == controller && controller.Ecu? && controller.id in w.answers
    ensures Item(pid, data) in w.answers[controller.id].items
  {
    assert Ecu(controller.id) == controller;
    i :| 0 <= i < |payloads| && payloads[i].controller == controller;
  }

  lemma BlockData(item: Item)
    ensures ItemBlock(item).data == item.data
  {
  }

  /** A chunk member gets, from every controller, exactly what that controller said after the member's echo. */
  lemma ChunkExact(seg: seq<string>, lengths: Lengths, w: SegmentReply, payloads: seq<Payload>,
                   pid: string, controller: Source, data: seq<byte>)
    requires SegmentOk(lengths, seg) && |seg| > 1 && Joinable(seg)
    requires PayloadsOfReplies(payloads, w.replies) && AnswersFit(seg, lengths, w)
    ensures Delivered(lengths, seg, payloads, pid, controller, data) <==> Said(w, controller, pid, data)
    ensures Resolve(lengths, seg, payloads).Success?
  {
    assert w.replies != map[];
    assert ModeOf(seg[0]).width == 1 || ModeOf(seg[0]).width == 2;
    ChunkMembers(seg, lengths);
    var table := ChunkTable(seg, lengths);
    hide PlainPid, EchoNat, TableFor, AnswersFit, PayloadsOfReplies, SegmentOk, Said, MembersOf, ModeOf, EchoTableOf,
      ChunkMode, SplitMulti, Carries, AllSplit, Get, LengthOf;
    PayloadsNonEmpty(payloads, w.replies);
    var mode, members := ModeOf(seg[0]), MembersOf(lengths, seg);
    var blocks := ChunkSplits(mode, table, seg, lengths, w, payloads);
    SplitMultiExact(members, payloads, mode, table, blocks, pid, controller);
    assert Resolve(lengths, seg, payloads) == SplitMulti(members, payloads);
    var got := Get(SplitMulti(members, payloads).value, pid, controller);
    if got.Some? {
      assert Carries(mode, table, payloads, blocks, pid, controller, got.value);
      CarriedSaid(mode, table, seg, lengths, w, payloads, blocks, pid, controller, got.value);
    }
    if Said(w, controller, pid, data) {
      var slice := SaidCarried(mode, table, seg, lengths, w, payloads, blocks, pid, controller, data);
      assert got == Some(slice);
    }
  }

  lemma RepliesDistinct(payloads: seq<Payload>, replies: map<nat, Reply>)
    requires PayloadsOfReplies(payloads, replies)
    ensures DistinctControllers(payloads)
  {
  }

  // ---------------------------------------------------------------- one segment, end to end

  /**
   The segment's reply delivers to every member exactly what was said. An answered one counts as data and
   resolves; one that nobody answers has no payloads, so its members get nothing.
   */
  ghost predicate SegmentDelivered(lengths: Lengths, seg: seq<string>, w: SegmentReply, reply: LinkReply)
    requires Joinable(seg)
  {
    && (if w.replies == map[] then reply.payloads == []
        else reply.status == Ok && !reply.faulted && Resolve(lengths, seg, reply.payloads).Success?)
    && forall pid, controller, data :: pid in seg ==>
         (Delivered(lengths, seg, reply.payloads, pid, controller, data) <==> Said(w, controller, pid, data))
  }

  lemma {:induction false} ConcatHex(parts: seq<string>)
    requires forall i :: 0 <= i < |parts| ==> AllHex(parts[i])
    ensures AllHex(Concat(parts))
  {
    if parts != [] { ConcatHex(parts[1..]); }
  }

  // A segment's wire is hexadecimal: no pipe and no space.
  lemma SegmentWire(lengths: Lengths, seg: seq<string>)
    requires SegmentOk(lengths, seg)
    ensures Joinable(seg) && AllHex(JoinChunkWire(seg))
    ensures ' ' !in JoinChunkWire(seg) && Free(JoinChunkWire(seg), '|')
  {
    forall k | 0 <= k < |seg| ensures AllHex(seg[k]) && |seg[k]| >= 4 { PlainHex(seg[k]); }
    hide PlainPid;
    if |seg| > 1 {
      ConcatHex(Suffixes(seg, seg[0][..2]));
    }
    var wire := JoinChunkWire(seg);
    assert AllHex(wire);
    hide JoinChunkWire;
    forall i | 0 <= i < |wire| ensures wire[i] != ' ' && wire[i] != '|' { assert IsHexDigit(wire[i]); }
  }

  lemma MemberExact(seg: seq<string>, lengths: Lengths, w: SegmentReply, payloads: seq<Payload>,
                    pid: string, controller: Source, data: seq<byte>)
    requires SegmentOk(lengths, seg) && Joinable(seg) && pid in seg
    requires PayloadsOfReplies(payloads, w.replies) && AnswersFit(seg, lengths, w)
    ensures Delivered(lengths, seg, payloads, pid, controller, data) <==> Said(w, controller, pid, data)
    ensures Resolve(lengths, seg, payloads).Success?
  {
    assert |seg| == 1 ==> PlainPid(seg[0]);
    hide *;
    if |seg| == 1 {
      SoloExact(seg, lengths, w, payloads, pid, controller, data);
    } else {
      SegmentWire(lengths, seg);
      SegmentSeveral(lengths, seg);
      ChunkExact(seg, lengths, w, payloads, pid, controller, data);
    }
  }

  lemma SegmentSeveral(lengths: Lengths, seg: seq<string>)
    requires SegmentOk(lengths, seg)
    ensures seg != []
  {
  }

  lemma SegmentAsked(lengths: Lengths, seg: seq<string>)
    requires SegmentOk(lengths, seg)
    ensures OneMode(seg) && Joinable(seg) && Asked(JoinChunkWire(seg)) == seg
  {
    hide PlainPid, ModeOf, OneMode, Asked, JoinChunkWire;
    forall k | 0 <= k < |seg|
      ensures (ModeOf(seg[k]) == MODE01 ==> |seg[k]| == 4 && "01" <= seg[k])
      ensures (ModeOf(seg[k]) == MODE22 ==> |seg[k]| == 6 && "22" <= seg[k])
    {
      PlainMode(seg[k]);
    }
    SegmentOneMode(seg);
    AskedJoin(seg);
  }

  lemma PlainMode(pid: string)
    requires PlainPid(pid)
    ensures ModeOf(pid) == MODE01 ==> |pid| == 4 && "01" <= pid
    ensures ModeOf(pid) == MODE22 ==> |pid| == 6 && "22" <= pid
  {
    PlainShape(pid);
  }

  lemma SegmentOneMode(seg: seq<string>)
    requires seg != [] && forall k :: 0 <= k < |seg| ==> ModeOf(seg[k]) == ModeOf(seg[0])
    requires forall k :: 0 <= k < |seg| ==>
               && (ModeOf(seg[k]) == MODE01 ==> |seg[k]| == 4 && "01" <= seg[k])
               && (ModeOf(seg[k]) == MODE22 ==> |seg[k]| == 6 && "22" <= seg[k])
    ensures OneMode(seg)
  {
    assert ModeOf(seg[0]) == MODE01 || ModeOf(seg[0]) == MODE22;
    hide ModeOf;
    if ModeOf(seg[0]) == MODE01 { assert InMode(seg, "01", 2); } else { assert InMode(seg, "22", 4); }
  }

  lemma SegmentVerdict(bus: Bus, seg: seq<string>, lengths: Lengths, w: SegmentReply, result: Result<LinkReply, Fault>)
    requires SegmentOk(lengths, seg) && Joinable(seg) && AnswersTo(bus, JoinChunkWire(seg), seg, lengths, w)
    requires SegmentTo(JoinChunkWire(seg), w.text, bus, result)
    ensures result.Success? && PayloadsOfReplies(result.value.payloads, w.replies)
    ensures result.value.status == Ok && !result.value.faulted
  {
    SegmentWire(lengths, seg);
    var payloads := match result case Success(r) => Success(r.payloads) case Failure(e) => Failure(e);
    assert PayloadsTo(JoinChunkWire(seg), w.text, bus, payloads);
    hide PlainPid, JoinChunkWire, AnswersTo, SegmentOk, PayloadsTo, ClassifyText, Contains, PayloadsOfReplies;
    SegmentPayloads(bus, JoinChunkWire(seg), seg, lengths, w, payloads);
  }

  lemma AnsweredFit(bus: Bus, command: string, seg: seq<string>, lengths: Lengths, w: SegmentReply)
    requires seg != [] && AnswersTo(bus, command, seg, lengths, w)
    ensures AnswersFit(seg, lengths, w)
  {
  }

  lemma SegmentExact(bus: Bus, seg: seq<string>, lengths: Lengths, w: SegmentReply, result: Result<LinkReply, Fault>)
    requires SegmentOk(lengths, seg) && Joinable(seg)
    requires Answered(bus, JoinChunkWire(seg), lengths, w) || Unanswered(JoinChunkWire(seg), w)
    requires SegmentTo(JoinChunkWire(seg), w.text, bus, result)
    ensures result.Success? && SegmentDelivered(lengths, seg, w, result.value)
  {
    assert seg != [];
    SegmentAsked(lengths, seg);
    assert Answered(bus, JoinChunkWire(seg), lengths, w) ==> AnswersTo(bus, JoinChunkWire(seg), seg, lengths, w);
    hide *;
    if Answered(bus, JoinChunkWire(seg), lengths, w) {
      SegmentVerdict(bus, seg, lengths, w, result);
      AnsweredFit(bus, JoinChunkWire(seg), seg, lengths, w);
      SegmentHanded(seg, lengths, w, result.value);
    } else {
      SilentVerdict(bus, JoinChunkWire(seg), w, result);
      SegmentSilent(seg, lengths, w, result.value);
    }
  }

  lemma SegmentHanded(seg: seq<string>, lengths: Lengths, w: SegmentReply, reply: LinkReply)
    requires SegmentOk(lengths, seg) && Joinable(seg) && AnswersFit(seg, lengths, w)
    requires PayloadsOfReplies(reply.payloads, w.replies) && reply.status == Ok && !reply.faulted
    ensures SegmentDelivered(lengths, seg, w, reply)
  {
    assert w.replies != map[];
    hide AnswersFit, SegmentOk, PayloadsOfReplies, Resolve, Delivered, Said;
    forall pid, controller, data | pid in seg
      ensures Delivered(lengths, seg, reply.payloads, pid, controller, data) <==> Said(w, controller, pid, data)
    {
      MemberExact(seg, lengths, w, reply.payloads, pid, controller, data);
    }
    MemberExact(seg, lengths, w, reply.payloads, seg[0], Default, []);
  }

  // A status is decoded to no payloads.
  lemma SilentVerdict(bus: Bus, command: string, w: SegmentReply, result: Result<LinkReply, Fault>)
    requires Unanswered(command, w) && SegmentTo(command, w.text, bus, result)
    ensures result.Success? && result.value.payloads == []
  {
    hide NothingToFrame, FramesTo, ClassifyText, Contains;
  }

  // From no payloads nothing is handed to anyone: a lone member parses to nothing, a chunk fails as no data.
  lemma NothingResolved(seg: seq<string>, lengths: Lengths)
    requires Joinable(seg)
    ensures
      var out := Resolve(lengths, seg, []);
      out.Failure? || out.value == map[]
  {
    hide ChunkMode, EchoTableOf, LengthOf, MembersOf;
  }

  lemma SegmentSilent(seg: seq<string>, lengths: Lengths, w: SegmentReply, reply: LinkReply)
    requires Joinable(seg) && w.replies == map[] && w.answers == map[] && reply.payloads == []
    ensures SegmentDelivered(lengths, seg, w, reply)
  {
    NothingResolved(seg, lengths);
    hide Resolve;
  }

  /** The adapter's plain verdict is such a text, for every command. */
  lemma NoDataUnanswered(command: string, all: seq<string>, searching: bool)
    ensures Unanswered(command, SegmentReply("NO DATA", all, searching, [], map[], map[]))
  {
    var text := "NO DATA";
    TrimTrimmed(text);
    assert text[0] != "SEARCHING"[0] && text[0] != "ELM327"[0] && text[0] != "STN"[0];
    assert ClassifyLine(text) == Some(NoData);
    hide Sanitize;
  }

  // ---------------------------------------------------------------- such replies exist

  lemma {:induction false} WeavesItself(lines: seq<string>, command: string)
    ensures Weaves(lines, lines, command)
  {
    hide NoiseLine;
    if lines != [] { WeavesItself(lines[1..], command); }
  }

  lemma OneFrame(controller: nat, payload: seq<byte>) returns (wire: seq<Tagged>)
    requires Can11.Addresses(controller) && 1 <= |payload| <= 7
    ensures FromBus(Can11, wire) && Interleaves(Can11, wire, map[controller := SingleFrame(payload, [])])
  {
    var reply := SingleFrame(payload, []);
    var body := reply.Bodies()[0];
    wire := [Tagged(Ecu(controller), body)];
    hide Reply.Bodies, Bus.Addresses;
    assert wire[..0] == [] && BodiesOf(wire[..0], Ecu(controller)) == [];
    assert BodiesOf(wire, Ecu(controller)) == [body];
  }

  lemma FrameLinesText(lines: seq<Line>, command: string) returns (text: string)
    requires FrameLines(lines) && ' ' !in command
    ensures ReplyText(text, command, lines, LineTexts(lines), false)
  {
    LinesText(lines, command);
    WeavesItself(LineTexts(lines), command);
    hide FrameLines, LineTexts, Weaves, PlainLine;
    text := Join(LineTexts(lines), '\r');
  }

  /** A controller's answer of up to seven bytes can be said: one line of text is a well-formed reply with it. */
  lemma AnswerPossible(seg: seq<string>, lengths: Lengths, controller: nat, answer: EcuAnswer) returns (w: SegmentReply)
    requires SegmentOk(lengths, seg) && Joinable(seg) && Can11.Addresses(controller) && WellFormed(seg, lengths, answer)
    requires |AnswerBytes(ModeOf(seg[0]), answer)| <= 7
    ensures w.answers == map[controller := answer] && Answered(Can11, JoinChunkWire(seg), lengths, w)
  {
    var payload := AnswerBytes(ModeOf(seg[0]), answer);
    assert |payload| >= 1;
    SegmentWire(lengths, seg);
    var wire := OneFrame(controller, payload);
    hide *;
    RenderedFrameLines(Can11, wire, map[controller := SingleFrame(payload, [])]);
    var text := FrameLinesText(RenderLines(Can11, wire), JoinChunkWire(seg));
    w := SegmentReply(text, LineTexts(RenderLines(Can11, wire)), false, wire,
                      map[controller := SingleFrame(payload, [])], map[controller := answer]);
    OneAnswered(seg, lengths, controller, answer, w);
    SegmentAsked(lengths, seg);
    AskedAnswered(seg, lengths, w);
  }

  lemma AskedAnswered(seg: seq<string>, lengths: Lengths, w: SegmentReply)
    requires seg != [] && Joinable(seg) && Asked(JoinChunkWire(seg)) == seg
    requires AnswersTo(Can11, JoinChunkWire(seg), seg, lengths, w)
    ensures Answered(Can11, JoinChunkWire(seg), lengths, w)
  {
    hide AnswersTo, Asked, JoinChunkWire;
  }

  lemma OneAnswered(seg: seq<string>, lengths: Lengths, controller: nat, answer: EcuAnswer, w: SegmentReply)
    requires SegmentOk(lengths, seg) && Joinable(seg) && WellFormed(seg, lengths, answer) && FromBus(Can11, w.wire)
    requires w.answers == map[controller := answer]
    requires w.replies == map[controller := SingleFrame(AnswerBytes(ModeOf(seg[0]), answer), [])]
    requires Interleaves(Can11, w.wire, w.replies)
    requires ReplyText(w.text, JoinChunkWire(seg), RenderLines(Can11, w.wire), w.all, w.searching)
    ensures AnswersTo(Can11, JoinChunkWire(seg), seg, lengths, w)
  {
    hide SegmentOk, WellFormed, AnswerBytes, JoinChunkWire, Interleaves, FromBus, ReplyText, RenderLines, ModeOf;
    assert controller in w.replies;
  }

  // ---------------------------------------------------------------- the whole exchange

  // Admission puts plain pids into segments the exchange can read back.
  lemma NextSegmentsOk(a: Admission, lengths: Lengths, due: seq<DuePick>, i: nat)
    requires a.lengths == Some(lengths) && (forall k :: 0 <= k < |due| ==> PlainPid(due[k].pid))
    requires due != [] && i < |NextSegments(a, due)|
    ensures SegmentOk(lengths, NextSegments(a, due)[i])
  {
    hide PlainPid, Group, SegmentPids;
    if |due| > 1 {
      var group := Group(a, due)[i];
      GroupNonEmpty(a, due, i);
      SegmentSize(group);
      GroupFromDue(a, due, i);
      forall k | 0 <= k < |SegmentPids(group)| ensures PlainPid(SegmentPids(group)[k]) {
        var j := SegmentMembers(group, k);
      }
      if |group| > 1 {
        SharedSegment(a, due, i);
        var j0 := SegmentMembers(group, 0);
        forall k | 0 <= k < |SegmentPids(group)|
          ensures ModeOf(SegmentPids(group)[k]) == ModeOf(SegmentPids(group)[0]) && SegmentPids(group)[k] in lengths
        {
          var j := SegmentMembers(group, k);
          SlotMode(a, lengths, group[j], group[j0]);
        }
      }
    }
  }

  lemma SlotMode(a: Admission, lengths: Lengths, p: DuePick, q: DuePick)
    requires a.lengths == Some(lengths) && PlainPid(p.pid) && PlainPid(q.pid)
    requires a.SlotOf(p) == a.SlotOf(q) && a.SlotOf(p).Some?
    ensures ModeOf(p.pid) == ModeOf(q.pid) && p.pid in lengths
  {
    PlainShape(p.pid);
    PlainShape(q.pid);
    HexTrim(p.pid);
    HexTrim(q.pid);
    PlainUpper(p.pid);
    hide ParseU8, ParseU16, Upper, Trim, AllHex;
  }

  lemma {:induction false} FlattenContains(groups: seq<seq<DuePick>>, i: nat, k: nat)
    requires i < |groups| && k < |groups[i]|
    ensures groups[i][k] in Flatten(groups)
  {
    var n := |groups| - 1;
    if i < n { FlattenContains(groups[..n], i, k); }
  }

  lemma GroupFromDue(a: Admission, due: seq<DuePick>, i: nat)
    requires i < |Group(a, due)|
    ensures forall k :: 0 <= k < |Group(a, due)[i]| ==> exists j :: 0 <= j < |due| && due[j] == Group(a, due)[i][k]
  {
    GroupLegal(a, due);
    hide Group, LegalSegment, Flatten;
    forall k | 0 <= k < |Group(a, due)[i]| ensures exists j :: 0 <= j < |due| && due[j] == Group(a, due)[i][k] {
      FlattenContains(Group(a, due), i, k);
      assert Group(a, due)[i][k] in multiset(Flatten(Group(a, due)));
      assert Group(a, due)[i][k] in multiset(due);
    }
  }

  const MARGIN := {'\r', '\n', ' '}

  /** A piece of a piped reply: the segment's text with margins the splitter trims. */
  ghost predicate Padded(piece: string, text: string) {
    && text != [] && text[0] !in MARGIN && text[|text| - 1] !in MARGIN && Free(piece, '|')
    && exists lead, trail :: piece == lead + text + trail && AllMargin(lead) && AllMargin(trail)
  }

  predicate AllMargin(s: string) { forall i :: 0 <= i < |s| ==> s[i] in MARGIN }

  lemma {:induction false} TrimLead(lead: string, rest: string)
    requires AllMargin(lead) && (rest == [] || !SegmentMargin(rest[0]))
    ensures TrimSegmentLeft(lead + rest) == rest
  {
    if lead == [] {
      assert lead + rest == rest;
    } else {
      TrimLead(lead[1..], rest);
      assert (lead + rest)[1..] == lead[1..] + rest;
    }
  }

  lemma {:induction false} TrimTrail(text: string, trail: string)
    requires AllMargin(trail) && text != [] && !SegmentMargin(text[|text| - 1])
    ensures TrimSegmentRight(text + trail) == text
  {
    if trail == [] {
      assert text + trail == text;
    } else {
      var k := |trail| - 1;
      TrimTrail(text, trail[..k]);
      assert (text + trail)[..|text + trail| - 1] == text + trail[..k];
    }
  }

  lemma PaddedTrim(piece: string, text: string)
    requires Padded(piece, text)
    ensures TrimSegment(piece) == text
  {
    var lead, trail :| piece == lead + text + trail && AllMargin(lead) && AllMargin(trail);
    hide AllMargin;
    assert lead + text + trail == lead + (text + trail);
    TrimLead(lead, text + trail);
    TrimTrail(text, trail);
  }

  /** The adapter mirrors the pipes: one segment answers as it is, several are joined. */
  ghost predicate Mirrors(text: string, worlds: seq<SegmentReply>, pieces: seq<string>) {
    if |worlds| == 1 then text == worlds[0].text
    else
      && |pieces| == |worlds| && text == Join(pieces, '|')
      && forall j :: 0 <= j < |worlds| ==> Padded(pieces[j], worlds[j].text)
  }

  lemma JoinHasPipe(parts: seq<string>)
    requires |parts| > 1
    ensures '|' in Join(parts, '|')
  {
    assert Join(parts, '|')[|parts[0]|] == '|';
  }

  // Segment j of the reply is decoded for segment j of the wire.
  lemma PiecesMatch(segments: seq<seq<string>>, worlds: seq<SegmentReply>, text: string, pieces: seq<string>)
    requires segments != [] && |worlds| == |segments| && Mirrors(text, worlds, pieces)
    requires forall j :: 0 <= j < |segments| ==> Joinable(segments[j]) && Free(JoinChunkWire(segments[j]), '|')
    ensures
      var p := Pieces(EncodeWire(segments), text);
      |p| == |segments| && forall j :: 0 <= j < |segments| ==> p[j] == (JoinChunkWire(segments[j]), worlds[j].text)
  {
    hide JoinChunkWire, TrimSegment;
    var wires, command := ChunkWires(segments), EncodeWire(segments);
    if |segments| == 1 {
      assert command == wires[0];
      assert '|' !in command;
    } else {
      JoinHasPipe(wires);
      SplitJoin(wires, '|');
      SplitJoin(pieces, '|');
      forall j | 0 <= j < |segments|
        ensures TrimSegment(pieces[j]) == worlds[j].text { PaddedTrim(pieces[j], worlds[j].text); }
    }
  }

  /** The wire asks for what is due: read back it gives the exchange's segments. */
  lemma WireAsks(a: Admission, lengths: Lengths, due: seq<DuePick>)
    requires due != [] && a.lengths == Some(lengths) && forall k :: 0 <= k < |due| ==> PlainPid(due[k].pid)
    ensures AskedAll(NextCommandOf(a, due).value.wire) == NextSegments(a, due)
    ensures multiset(Flatten(AskedAll(NextCommandOf(a, due).value.wire))) == multiset(Pids(due))
  {
    hide *;
    NextSegmentsExact(a, due);
    NextWire(a, due);
    SomeSegment(a, due);
    var segments := NextSegments(a, due);
    forall j | 0 <= j < |segments|
      ensures OneMode(segments[j]) && Joinable(segments[j]) && Free(JoinChunkWire(segments[j]), '|')
    {
      NextSegmentsOk(a, lengths, due, j);
      SegmentWire(lengths, segments[j]);
      SegmentAsked(lengths, segments[j]);
    }
    AskedEncoded(segments);
  }

  /**
   The exchange theorem. Whatever plain pids are due: if every controller that answers a request of the
   wire does so, for the pids it reads there, with well-formed ISO-TP lines, a request nobody answers comes
   back as a status, and the adapter mirrors the pipes, then decoding never stops, segment j of the reply
   answers request j of the wire, and each member of each segment is handed from every controller exactly
   the bytes that controller said for it. Together the requests ask for exactly the due pids.
   */
  lemma ExchangeExact(a: Admission, lengths: Lengths, due: seq<DuePick>, bus: Bus, text: string, pieces: seq<string>,
                      worlds: seq<SegmentReply>, replies: Result<seq<LinkReply>, Fault>)
    requires due != [] && a.lengths == Some(lengths) && forall k :: 0 <= k < |due| ==> PlainPid(due[k].pid)
    requires BusReplies(bus, NextCommandOf(a, due).value.wire, lengths, worlds)
    requires Mirrors(text, worlds, pieces)
    requires WireTo(NextCommandOf(a, due).value.wire, text, bus, replies)
    ensures AskedAll(NextCommandOf(a, due).value.wire) == NextSegments(a, due)
    ensures multiset(Flatten(NextSegments(a, due))) == multiset(Pids(due))
    ensures replies.Success? && |replies.value| == |worlds| == |NextSegments(a, due)|
    ensures forall j :: 0 <= j < |worlds| ==>
            Joinable(NextSegments(a, due)[j]) &&
            SegmentDelivered(lengths, NextSegments(a, due)[j], worlds[j], replies.value[j])
  {
    WireAsks(a, lengths, due);
    NextSegmentsExact(a, due);
    NextWire(a, due);
    SomeSegment(a, due);
    hide PlainPid, Group, SegmentPids, NextSegments, NextCommandOf, Answered, Unanswered, JoinChunkWire, Mirrors,
      SegmentTo, SegmentDelivered, SegmentOk, EncodeWire, Pieces, Flatten;
    var segments := NextSegments(a, due);
    forall j | 0 <= j < |segments| ensures SegmentOk(lengths, segments[j]) && Free(JoinChunkWire(segments[j]), '|') {
      NextSegmentsOk(a, lengths, due, j);
      SegmentWire(lengths, segments[j]);
    }
    EncodedRequests(segments);
    PiecesMatch(segments, worlds, text, pieces);
    if replies.Failure? {
      var p := Pieces(EncodeWire(segments), text);
      var j :| 0 <= j < |p| && SegmentTo(p[j].0, p[j].1, bus, Failure(replies.error));
      SegmentExact(bus, segments[j], lengths, worlds[j], Failure(replies.error));
    } else {
      forall j | 0 <= j < |worlds| ensures SegmentDelivered(lengths, segments[j], worlds[j], replies.value[j]) {
        SegmentExact(bus, segments[j], lengths, worlds[j], Success(replies.value[j]));
      }
    }
  }

  // The requests of a wire are its segments' own.
  lemma EncodedRequests(segments: seq<seq<string>>)
    requires segments != []
    requires forall j :: 0 <= j < |segments| ==> Joinable(segments[j]) && Free(JoinChunkWire(segments[j]), '|')
    ensures Text.Split(EncodeWire(segments), '|') == ChunkWires(segments)
  {
    hide JoinChunkWire, Joinable, Free;
    SplitJoin(ChunkWires(segments), '|');
  }

  lemma SomeSegment(a: Admission, due: seq<DuePick>)
    requires due != []
    ensures NextSegments(a, due) != []
  {
    NextSegmentsExact(a, due);
    hide Group, SegmentPids, NextSegments;
    var all := Flatten(NextSegments(a, due));
    assert |all| == |multiset(all)| == |multiset(Pids(due))| == |due|;
  }
}
