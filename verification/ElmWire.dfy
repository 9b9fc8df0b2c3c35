/**
 The ELM text dialect: pick lists to wire strings, reply text to typed payloads. A chunk is its mode once
 and its members' suffixes, segments join with pipes, and a reply is split back by pipe position.
 */
module ElmWire {
  import opened Wrappers
  import opened Text
  import opened Addressing
  import opened IsoTp
  import opened ChunkSplitter

  // ---------------------------------------------------------------- building the wire

  function StripPrefix(s: string, prefix: string): string {
    if prefix <= s then s[|prefix|..] else s
  }

  function Suffixes(members: seq<string>, mode: string): (r: seq<string>)
    ensures |r| == |members|
    ensures forall i :: 0 <= i < |members| ==> r[i] == StripPrefix(members[i], mode)
  {
    seq(|members|, i requires 0 <= i < |members| => StripPrefix(members[i], mode))
  }

  predicate Joinable(members: seq<string>) {
    members != [] && (|members| > 1 ==> |members[0]| >= 2)
  }

  function JoinChunkWire(members: seq<string>): string
    requires Joinable(members)
  {
    if |members| == 1 then members[0]
    else members[0][..2] + Concat(Suffixes(members, members[0][..2]))
  }

  function ChunkWires(segments: seq<seq<string>>): (r: seq<string>)
    requires forall i :: 0 <= i < |segments| ==> Joinable(segments[i])
    ensures |r| == |segments|
    ensures forall i :: 0 <= i < |segments| ==> r[i] == JoinChunkWire(segments[i])
  {
    seq(|segments|, i requires 0 <= i < |segments| => JoinChunkWire(segments[i]))
  }

  function EncodeWire(segments: seq<seq<string>>): string
    requires forall i :: 0 <= i < |segments| ==> Joinable(segments[i])
  {
    Join(ChunkWires(segments), '|')
  }

  // ---------------------------------------------------------------- status tokens

  datatype LinkStatus = Ok | NoData | Stopped | Chatter | AdapterError(code: string)

  /** The adapter's error lines and their codes. */
  function AdapterCode(t: string): Option<string> {
    if t == "NO DATA" then Some("NO_DATA")
    else if t == "CAN ERROR" then Some("CAN_ERROR")
    else if t == "DATA ERROR" || t == "<DATA ERROR" then Some("DATA_ERROR")
    else if t == "<RX ERROR" then Some("RX_ERROR")
    else if t == "BUS BUSY" then Some("BUS_BUSY")
    else if t == "BUS ERROR" then Some("BUS_ERROR")
    else if t == "BUFFER FULL" then Some("BUFFER_FULL")
    else if t == "STOPPED" then Some("STOPPED")
    else if t == "FC RX TIMEOUT" then Some("FC_RX_TIMEOUT")
    else if t == "UNABLE TO CONNECT" then Some("UNABLE_TO_CONNECT")
    else if t == "LV RESET" then Some("LV_RESET")
    else if t == "ACT ALERT" then Some("ACT_ALERT")
    else if t == "LP ALERT" then Some("LP_ALERT")
    else if t == "UART RX OVERFLOW" then Some("UART_RX_OVERFLOW")
    else if t == "OUT OF MEMORY" then Some("OUT_OF_MEMORY")
    else None
  }

  function ClassifyLine(line: string): Option<LinkStatus> {
    var t := Trim(line);
    if t == [] || "SEARCHING" <= t then Some(NoData)
    else if t == "OK" || t == "?" || "ELM327" <= t || "STN" <= t then Some(Chatter)
    else if t == "NO DATA" then Some(NoData)
    else if t == "STOPPED" then Some(Stopped)
    else if AdapterCode(Upper(Trim(t))).Some? then Some(AdapterError(AdapterCode(Upper(Trim(t))).value))
    else if t == "ERROR" || t == "FB ERROR" || t == "BUS INIT: ...ERROR" then Some(AdapterError("ERROR"))
    else None
  }

  // A status token instead of data; a re-search announcement is noise in front of data.
  predicate IsNonData(data: string) {
    var t := Trim(data);
    !("SEARCHING" <= t) && ClassifyLine(t).Some?
  }

  // ---------------------------------------------------------------- lines

  function Normalize(s: string): (r: string)
    ensures |r| == |s|
    ensures forall i :: 0 <= i < |s| ==> r[i] == if s[i] == '\r' then '\n' else s[i]
  {
    seq(|s|, i requires 0 <= i < |s| => if s[i] == '\r' then '\n' else s[i])
  }

  predicate KeptLine(line: string, command: string) {
    line != [] && !("SEARCHING" <= line) && Upper(line) != Upper(command)
  }

  function Kept(lines: seq<string>, command: string): seq<string> {
    if lines == [] then []
    else
      var t := Trim(lines[0]);
      (if KeptLine(t, command) then [t] else []) + Kept(lines[1..], command)
  }

  /** The reply's lines without the command echo, the search announcement and blanks. */
  function Sanitize(data: string, command: string): seq<string> {
    Kept(Text.Split(Normalize(data), '\n'), command)
  }

  function FirstStatus(lines: seq<string>): LinkStatus {
    if lines == [] then NoData
    else
      var t := Trim(lines[0]);
      if t == [] || "SEARCHING" <= t then FirstStatus(lines[1..])
      else match ClassifyLine(t) case Some(status) => status case None => Ok
  }

  function ClassifyText(raw: string): LinkStatus {
    FirstStatus(Text.Split(Normalize(raw), '\n'))
  }

  function TokenLines(lines: seq<string>): (r: seq<Line>)
    ensures |r| == |lines|
    ensures forall i :: 0 <= i < |lines| ==> r[i] == Tokens(lines[i])
  {
    seq(|lines|, i requires 0 <= i < |lines| => Tokens(lines[i]))
  }

  // ---------------------------------------------------------------- payloads

  // Tokens that are not hexadecimal bytes are skipped.
  function BytesOf(tokens: seq<string>): seq<byte> {
    if tokens == [] then []
    else
      var before := BytesOf(tokens[..|tokens| - 1]);
      match ParseU8(tokens[|tokens| - 1])
      case Some(b) => before + [b]
      case None => before
  }

  function PayloadsOf(frames: Frames): (r: seq<Payload>)
    ensures |r| == |frames|
    ensures forall i :: 0 <= i < |frames| ==> r[i] == Payload(frames[i].0, BytesOf(frames[i].1))
  {
    seq(|frames|, i requires 0 <= i < |frames| => Payload(frames[i].0, BytesOf(frames[i].1)))
  }

  predicate NothingToFrame(command: string, data: string) {
    IsNonData(data) || Sanitize(data, command) == [] || IsNonData(Join(Sanitize(data, command), '\n'))
  }

  /** The payloads `text_payloads` can return; the order of controllers is any order. */
  ghost predicate PayloadsTo(command: string, data: string, bus: Bus, result: Result<seq<Payload>, Fault>) {
    if NothingToFrame(command, data) then result == Success([])
    else
      exists frames :: && FramesTo(bus, TokenLines(Sanitize(data, command)), frames)
                       && result == match frames
                                    case Success(f) => Success(PayloadsOf(f))
                                    case Failure(e) => Failure(e)
  }

  method TextPayloads(command: string, data: string, bus: Bus) returns (result: Result<seq<Payload>, Fault>)
    ensures PayloadsTo(command, data, bus, result)
  {
    hide FramesTo, IsNonData, Sanitize, TokenLines, PayloadsOf;
    var lines := Sanitize(data, command);
    if IsNonData(data) || lines == [] || IsNonData(Join(lines, '\n')) {
      return Success([]);
    }
    var frames := FrameControllers(bus, TokenLines(lines));
    result := match frames case Success(f) => Success(PayloadsOf(f)) case Failure(e) => Failure(e);
  }

  // ---------------------------------------------------------------- decoding a wire's reply

  predicate Contains(s: string, pattern: string)
    decreases |s|
  {
    pattern <= s || (s != [] && Contains(s[1..], pattern))
  }

  predicate SegmentMargin(c: char) {
    c == '\r' || c == '\n' || c == ' '
  }

  function TrimSegmentLeft(s: string): string {
    if s != [] && SegmentMargin(s[0]) then TrimSegmentLeft(s[1..]) else s
  }

  function TrimSegmentRight(s: string): string {
    if s != [] && SegmentMargin(s[|s| - 1]) then TrimSegmentRight(s[..|s| - 1]) else s
  }

  function TrimSegment(s: string): string {
    TrimSegmentRight(TrimSegmentLeft(s))
  }

  datatype LinkReply = LinkReply(status: LinkStatus, faulted: bool, payloads: seq<Payload>, raw: string)

  /** One segment: the first line's verdict, the whole-reply veto, and the framed payloads. */
  ghost predicate SegmentTo(command: string, text: string, bus: Bus, reply: Result<LinkReply, Fault>) {
    && (reply.Success? ==>
          && PayloadsTo(command, text, bus, Success(reply.value.payloads))
          && reply.value.status == ClassifyText(text)
          && reply.value.faulted == (Contains(text, "NO DATA") || Contains(text, "ERROR"))
          && reply.value.raw == text)
    && (reply.Failure? ==> PayloadsTo(command, text, bus, Failure(reply.error)))
  }

  method DecodeSegment(command: string, text: string, bus: Bus) returns (reply: Result<LinkReply, Fault>)
    ensures SegmentTo(command, text, bus, reply)
  {
    hide PayloadsTo, ClassifyText, Contains;
    var payloads := TextPayloads(command, text, bus);
    match payloads {
      case Success(p) =>
        reply := Success(LinkReply(ClassifyText(text), Contains(text, "NO DATA") || Contains(text, "ERROR"), p, text));
      case Failure(e) => reply := Failure(e);
    }
  }

  /** The reply segments a wire's text is decoded as: by pipe position, or the whole text for an unpiped wire. */
  function Pieces(command: string, text: string): seq<(string, string)> {
    if '|' in command then
      var wires, pieces := Text.Split(command, '|'), Text.Split(text, '|');
      var n := if |wires| < |pieces| then |wires| else |pieces|;
      seq(n, i requires 0 <= i < n => (wires[i], TrimSegment(pieces[i])))
    else [(command, text)]
  }

  ghost predicate WireTo(command: string, text: string, bus: Bus, replies: Result<seq<LinkReply>, Fault>) {
    var pieces := Pieces(command, text);
    match replies
    case Success(r) =>
      |r| == |pieces| && forall i :: 0 <= i < |r| ==> SegmentTo(pieces[i].0, pieces[i].1, bus, Success(r[i]))
    case Failure(e) =>
      exists i :: 0 <= i < |pieces| && SegmentTo(pieces[i].0, pieces[i].1, bus, Failure(e))
  }

  method DecodeWire(command: string, text: string, bus: Bus) returns (replies: Result<seq<LinkReply>, Fault>)
    ensures WireTo(command, text, bus, replies)
  {
    hide SegmentTo, Pieces;
    var pieces := Pieces(command, text);
    var done: seq<LinkReply> := [];
    while |done| < |pieces|
      invariant |done| <= |pieces|
      invariant forall i :: 0 <= i < |done| ==> SegmentTo(pieces[i].0, pieces[i].1, bus, Success(done[i]))
    {
      var reply := DecodeSegment(pieces[|done|].0, pieces[|done|].1, bus);
      match reply {
        case Success(r) => done := done + [r];
        case Failure(e) => return Failure(e);
      }
    }
    replies := Success(done);
  }

  // ---------------------------------------------------------------- a solo command's parse

  predicate IsAtCommand(command: string) {
    "AT" <= Upper(Trim(command)) || "ST" <= Upper(Trim(command))
  }

  function EchoByteCount(mode: string, pid: string): nat {
    if mode in {"03", "07", "0A", "04"} then 1
    else if mode == "06" then (if pid in {"00", "20", "40", "60"} then 2 else 1)
    else if mode == "22" then (if |pid| == 4 then 3 else 1)
    else if pid == [] then 1
    else 1 + (|pid| + 1) / 2
  }

  function CommandEcho(command: string): nat {
    var cmd := Upper(Trim(command));
    if |cmd| < 2 then EchoByteCount(cmd, []) else EchoByteCount(cmd[..2], cmd[2..])
  }

  function Parsed(payloads: seq<Payload>, skip: nat): map<Source, Slice> {
    if payloads == [] then map[]
    else
      var p := payloads[|payloads| - 1];
      Parsed(payloads[..|payloads| - 1], skip)
        [p.controller := Slice(p.bytes, if skip <= |p.bytes| then p.bytes[skip..] else [])]
  }

  /** Per controller: the payload, and the payload without the echo the command implies. */
  function FromPayloads(command: string, payloads: seq<Payload>): Option<map<Source, Slice>> {
    if IsAtCommand(command) || payloads == [] then None else Some(Parsed(payloads, CommandEcho(command)))
  }
}
