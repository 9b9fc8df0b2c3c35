/**
 Which pid a completion counts for. The reply's tokens are searched for the first that looks like a positive
 response, headers and length bytes included: exactly when that names the pid that was asked.
 */
module Completions {
  import opened Wrappers
  import opened Text
  import opened Addressing
  import opened IsoTp
  import opened IsoTpRoundTrip
  import opened ChunkSplitter
  import opened ElmWire
  import opened Requests
  import opened ElmText
  import opened Exchange
  import opened Subscriptions

  // ---------------------------------------------------------------- the first response in a reply

  predicate HexPair(tokens: seq<string>, i: nat) {
    i < |tokens| && |tokens[i]| == 2 && AllHex(tokens[i])
  }

  /** The pid a positive response at position `i` names; none if there is no response there. */
  function PidAt(tokens: seq<string>, i: nat): Option<string> {
    if !HexPair(tokens, i + 1) then None
    else if tokens[i] == "41" then Some(Upper("01" + tokens[i + 1]))
    else if tokens[i] == "49" then Some(Upper("09" + tokens[i + 1]))
    else if !HexPair(tokens, i + 2) then None
    else if tokens[i] == "62" then Some(Upper("22" + tokens[i + 1] + tokens[i + 2]))
    else if tokens[i] == "64" then Some(Upper("24" + tokens[i + 1] + tokens[i + 2]))
    else None
  }

  lemma PidAtTail(tokens: seq<string>, i: nat)
    requires tokens != []
    ensures PidAt(tokens[1..], i) == PidAt(tokens, i + 1)
  {
    hide AllHex, Upper;
  }

  lemma ReplyPidStep(tokens: seq<string>)
    ensures ReplyPid(tokens) ==
            if tokens == [] then None
            else if PidAt(tokens, 0).Some? then PidAt(tokens, 0)
            else ReplyPid(tokens[1..])
  {
    hide Upper, AllHex;
    if |tokens| == 1 { assert ReplyPid(tokens[1..]) == None; }
  }

  /** The reply names the pid of its first response. */
  lemma {:induction false} ReplyPidExact(tokens: seq<string>, i: nat)
    requires i < |tokens| && PidAt(tokens, i).Some? && forall j: nat :: j < i ==> PidAt(tokens, j).None?
    ensures ReplyPid(tokens) == PidAt(tokens, i)
    decreases i
  {
    hide PidAt, ReplyPid;
    ReplyPidStep(tokens);
    if i > 0 {
      assert PidAt(tokens, 0).None?;
      PidAtTail(tokens, i - 1);
      forall j: nat | j < i - 1 ensures PidAt(tokens[1..], j).None? {
        PidAtTail(tokens, j);
        assert PidAt(tokens, j + 1).None?;
      }
      ReplyPidExact(tokens[1..], i - 1);
    }
  }

  /** It names none if there is no response in it. */
  lemma {:induction false} ReplyPidNone(tokens: seq<string>)
    requires forall j: nat :: j < |tokens| ==> PidAt(tokens, j).None?
    ensures ReplyPid(tokens) == None
  {
    hide PidAt, ReplyPid;
    ReplyPidStep(tokens);
    if tokens != [] {
      assert PidAt(tokens, 0).None?;
      forall j: nat | j < |tokens[1..]| ensures PidAt(tokens[1..], j).None? {
        PidAtTail(tokens, j);
        assert PidAt(tokens, j + 1).None?;
      }
      ReplyPidNone(tokens[1..]);
    }
  }

  // ---------------------------------------------------------------- a controller's answer in one frame

  lemma TwoDigits(s: string)
    requires |s| == 2 && AllHex(s)
    ensures IsHexDigit(s[0]) && IsHexDigit(s[1]) && DigitsValue(s) == 16 * HexValue(s[0]) + HexValue(s[1])
  {
    assert s[..1][..0] == [] && DigitsValue(s[..1]) == HexValue(s[0]);
  }

  lemma HexBack(s: string)
    requires |s| == 2 && AllHex(s) && Upper(s) == s
    ensures DigitsValue(s) < 256 && Hex2(DigitsValue(s) as byte) == s
  {
    assert Upper(s)[0] == s[0] && Upper(s)[1] == s[1];
    hide *;
    TwoDigits(s);
    UpperDigit(s[0]);
    UpperDigit(s[1]);
    TwoBack(s, HexValue(s[0]), HexValue(s[1]));
  }

  lemma TwoBack(s: string, hi: nat, lo: nat)
    requires |s| == 2 && hi < 16 && lo < 16 && s[0] == HexDigit(hi) && s[1] == HexDigit(lo)
    ensures Hex2((16 * hi + lo) as byte) == s
  {
    hide HexDigit, AllHex, NoSpace, Upper;
    assert (16 * hi + lo) / 16 == hi && (16 * hi + lo) % 16 == lo;
  }

  lemma UpperDigit(c: char)
    requires IsHexDigit(c) && UpperChar(c) == c
    ensures HexDigit(HexValue(c)) == c
  {
  }

  lemma MarkerByte(b: byte, text: string, value: byte)
    requires text == Hex2(value)
    ensures Hex2(b) == text <==> b == value
  {
    Hex2Value(b);
    Hex2Value(value);
  }

  // The two-digit texts that start a response.
  lemma Markers(b: byte)
    ensures (Hex2(b) == "41" <==> b == 0x41) && (Hex2(b) == "49" <==> b == 0x49)
    ensures (Hex2(b) == "62" <==> b == 0x62) && (Hex2(b) == "64" <==> b == 0x64)
    ensures |Hex2(b)| == 2 && AllHex(Hex2(b))
  {
    MarkerByte(b, "41", 0x41);
    MarkerByte(b, "49", 0x49);
    MarkerByte(b, "62", 0x62);
    MarkerByte(b, "64", 0x64);
  }

  lemma UpperPair(mode: string, b: byte)
    requires Upper(mode) == mode
    ensures Upper(mode + Hex2(b)) == mode + Hex2(b)
  {
    forall i | 0 <= i < |mode + Hex2(b)| ensures UpperChar((mode + Hex2(b))[i]) == (mode + Hex2(b))[i] {
      assert i < |mode| ==> Upper(mode)[i] == mode[i];
      assert i >= |mode| ==> Upper(Hex2(b))[i - |mode|] == Hex2(b)[i - |mode|];
    }
  }

  /** The response bytes name the pid. */
  function NamedBy(reply: byte, first: byte, second: byte): Option<string> {
    if reply == 0x41 then Some("01" + Hex2(first))
    else if reply == 0x49 then Some("09" + Hex2(first))
    else if reply == 0x62 then Some("22" + Hex2(first) + Hex2(second))
    else if reply == 0x64 then Some("24" + Hex2(first) + Hex2(second))
    else None
  }

  lemma NamedPid(tokens: seq<string>, i: nat, reply: byte, first: byte, second: byte)
    requires i + 2 < |tokens|
    requires tokens[i] == Hex2(reply) && tokens[i + 1] == Hex2(first) && tokens[i + 2] == Hex2(second)
    ensures PidAt(tokens, i) == NamedBy(reply, first, second)
  {
    Markers(reply);
    Markers(first);
    Markers(second);
    UpperPair("01", first);
    UpperPair("09", first);
    UpperPair("22", first);
    UpperPair("24", first);
    UpperPair("22" + Hex2(first), second);
    UpperPair("24" + Hex2(first), second);
    hide Hex2, AllHex, Upper;
  }

  lemma EchoOfOne(v: nat)
    requires v < 256
    ensures EchoBytes(1, v) == [v as byte]
  {
  }

  lemma EchoOfTwo(hi: nat, lo: nat)
    requires hi < 256 && lo < 256
    ensures EchoBytes(2, 256 * hi + lo) == [hi as byte, lo as byte]
  {
    assert (256 * hi + lo) / 256 == hi && (256 * hi + lo) % 256 == lo;
  }

  lemma PairEcho(s: string)
    requires |s| == 2 && AllHex(s) && Upper(s) == s
    ensures |EchoBytes(1, DigitsValue(s))| == 1 && Hex2(EchoBytes(1, DigitsValue(s))[0]) == s
  {
    hide *;
    HexBack(s);
    EchoOfOne(DigitsValue(s));
  }

  lemma HexParts(s: string)
    requires |s| == 4 && AllHex(s) && Upper(s) == s
    ensures AllHex(s[..2]) && AllHex(s[2..]) && Upper(s[..2]) == s[..2] && Upper(s[2..]) == s[2..]
  {
    UpperPart(s, 0, 2);
    UpperPart(s, 2, 4);
    hide Upper;
    assert s[0..2] == s[..2] && s[2..4] == s[2..];
  }

  lemma QuadEcho(s: string)
    requires |s| == 4 && AllHex(s) && Upper(s) == s
    ensures
      var echo := EchoBytes(2, DigitsValue(s));
      |echo| == 2 && Hex2(echo[0]) == s[..2] && Hex2(echo[1]) == s[2..]
  {
    hide *;
    HexParts(s);
    HexBack(s[..2]);
    HexBack(s[2..]);
    FourDigits(s);
    EchoOfTwo(DigitsValue(s[..2]), DigitsValue(s[2..]));
  }

  // What a plain pid's answer starts with names it.
  lemma EchoNames(pid: string)
    requires PlainPid(pid)
    ensures
      var mode := ModeOf(pid);
      var echo := EchoBytes(mode.width, EchoNat(pid));
      && |echo| == mode.width
      && (mode == MODE01 || mode == MODE22)
      && (mode == MODE01 ==> pid == "01" + Hex2(echo[0]))
      && (mode == MODE22 ==> pid == "22" + Hex2(echo[0]) + Hex2(echo[1]))
  {
    PlainMode(pid);
    PlainHex(pid);
    PlainUpper(pid);
    UpperPart(pid, 2, |pid|);
    assert EchoNat(pid) == DigitsValue(pid[2..]);
    var s := pid[2..];
    assert pid[2..|pid|] == s;
    hide PlainPid, Hex2, DigitsValue, Upper, EchoBytes, EchoNat;
    if ModeOf(pid) == MODE01 {
      PairEcho(s);
      assert pid == "01" + s;
    } else {
      QuadEcho(s);
      assert pid == "22" + s && s == s[..2] + s[2..];
      assert "22" + s[..2] + s[2..] == "22" + s;
    }
  }

  lemma UpperPart(s: string, i: nat, j: nat)
    requires Upper(s) == s && i <= j <= |s|
    ensures Upper(s[i..j]) == s[i..j]
  {
    forall k | 0 <= k < j - i ensures UpperChar(s[i..j][k]) == s[i..j][k] {
      assert Upper(s)[i + k] == s[i + k];
    }
  }

  lemma FourDigits(s: string)
    requires |s| == 4 && AllHex(s)
    ensures DigitsValue(s) == 256 * DigitsValue(s[..2]) + DigitsValue(s[2..])
  {
    assert s[..3][..2] == s[..2] && s[2..][..1] == [s[2]] && [s[2]][..0] == [];
    assert DigitsValue(s[2..][..1]) == HexValue(s[2]);
    assert DigitsValue(s[..3]) == 16 * DigitsValue(s[..2]) + HexValue(s[2]);
  }

  // Tokens of bytes, one by one.
  ghost predicate Spells(tokens: seq<string>, h: nat, bytes: seq<byte>) {
    h + |bytes| <= |tokens| && forall i :: 0 <= i < |bytes| ==> tokens[h + i] == Hex2(bytes[i])
  }

  /** The bytes start with a positive response to the pid. */
  ghost predicate Responds(bytes: seq<byte>, pid: string) {
    var mode := ModeOf(pid);
    [mode.reply] + EchoBytes(mode.width, EchoNat(pid)) <= bytes
  }

  lemma NamedOne(tokens: seq<string>, i: nat, first: byte)
    requires i + 1 < |tokens| && tokens[i] == Hex2(0x41) && tokens[i + 1] == Hex2(first)
    ensures PidAt(tokens, i) == Some("01" + Hex2(first))
  {
    Markers(0x41);
    Markers(first);
    UpperPair("01", first);
    hide Hex2, AllHex, Upper;
  }

  // The response byte and the echo, as tokens.
  lemma ResponseTokens(tokens: seq<string>, h: nat, bytes: seq<byte>, pid: string)
    requires Responds(bytes, pid) && Spells(tokens, h, bytes)
    ensures
      var echo := EchoBytes(ModeOf(pid).width, EchoNat(pid));
      && |bytes| >= 1 + |echo| && tokens[h] == Hex2(ModeOf(pid).reply)
      && (|echo| >= 1 ==> tokens[h + 1] == Hex2(echo[0])) && (|echo| >= 2 ==> tokens[h + 2] == Hex2(echo[1]))
  {
    var mode := ModeOf(pid);
    var head := [mode.reply] + EchoBytes(mode.width, EchoNat(pid));
    assert forall k :: 0 <= k < |head| ==> bytes[k] == head[k];
    hide ModeOf, EchoBytes, EchoNat, Hex2;
    assert tokens[h + 0] == Hex2(bytes[0]);
    if |head| >= 2 { assert tokens[h + 1] == Hex2(bytes[1]) && bytes[1] == head[1]; }
    if |head| >= 3 { assert tokens[h + 2] == Hex2(bytes[2]) && bytes[2] == head[2]; }
  }

  // A response to a plain pid, spelled out, names the pid.
  lemma ResponseNames(tokens: seq<string>, h: nat, bytes: seq<byte>, pid: string)
    requires PlainPid(pid) && Responds(bytes, pid) && Spells(tokens, h, bytes)
    ensures PidAt(tokens, h) == Some(pid) && |bytes| >= 2
  {
    assert ModeOf(pid) == MODE01 || ModeOf(pid) == MODE22;
    assert h + |bytes| <= |tokens|;
    hide *;
    EchoNames(pid);
    ResponseTokens(tokens, h, bytes, pid);
    var echo := EchoBytes(ModeOf(pid).width, EchoNat(pid));
    if ModeOf(pid) == MODE01 {
      NamedOne(tokens, h, echo[0]);
    } else {
      NamedTwo(tokens, h, echo[0], echo[1]);
    }
  }

  lemma NamedTwo(tokens: seq<string>, i: nat, first: byte, second: byte)
    requires i + 2 < |tokens| && tokens[i] == Hex2(0x62)
    requires tokens[i + 1] == Hex2(first) && tokens[i + 2] == Hex2(second)
    ensures PidAt(tokens, i) == Some("22" + Hex2(first) + Hex2(second))
  {
    hide Hex2, PidAt;
    NamedPid(tokens, i, 0x62, first, second);
  }

  /** The first pid the bytes before position `n` spell a response to, from position `i` on. */
  function Spelled(bytes: seq<byte>, i: nat, n: nat): Option<string>
    requires i <= n && n + 2 <= |bytes|
    decreases n - i
  {
    if i == n then None
    else if NamedBy(bytes[i], bytes[i + 1], bytes[i + 2]).Some? then NamedBy(bytes[i], bytes[i + 1], bytes[i + 2])
    else Spelled(bytes, i + 1, n)
  }

  /** The pid spelled in front of a payload by what precedes it. */
  function SpelledBefore(lead: seq<byte>, start: seq<byte>): Option<string>
    requires |start| >= 2
  {
    Spelled(lead + start, 0, |lead|)
  }

  // The reply names what the bytes in front of the payload spell, or else what the payload answers.
  lemma {:induction false} FirstSpelled(tokens: seq<string>, h: nat, bytes: seq<byte>, i: nat, n: nat, sent: string)
    requires i <= n && n + 2 <= |bytes| && Spells(tokens, h, bytes) && PidAt(tokens, h + n) == Some(sent)
    requires forall j: nat :: j < h + i ==> PidAt(tokens, j).None?
    ensures ReplyPid(tokens) == if Spelled(bytes, i, n).Some? then Spelled(bytes, i, n) else Some(sent)
    decreases n - i
  {
    hide PidAt, ReplyPid, NamedBy, Hex2;
    if i == n {
      ReplyPidExact(tokens, h + n);
    } else {
      assert tokens[h + i] == Hex2(bytes[i]) && tokens[h + (i + 1)] == Hex2(bytes[i + 1])
          && tokens[h + (i + 2)] == Hex2(bytes[i + 2]);
      NamedPid(tokens, h + i, bytes[i], bytes[i + 1], bytes[i + 2]);
      if PidAt(tokens, h + i).Some? {
        ReplyPidExact(tokens, h + i);
      } else {
        FirstSpelled(tokens, h, bytes, i + 1, n, sent);
      }
    }
  }

  // ---------------------------------------------------------------- which pid the answer counts for

  /** The bytes in front of the payload: the header on a 29-bit bus, and the length. */
  function Preface(bus: Bus, c: nat, length: seq<byte>): seq<byte>
    requires bus.Addresses(c)
  {
    match bus
    case Can11 => length
    case Can29(tester) => [0x18, 0xDA, tester, c as byte] + length
  }

  /** The text starts with a line of the controller: its header, the length, and the payload's first bytes. */
  ghost predicate LineStarts(bus: Bus, c: nat, length: seq<byte>, start: seq<byte>, text: string)
    requires bus.Addresses(c)
  {
    bus.ResponseHeader(c) + Hexes(length + start) <= Tokens(text)
  }

  lemma LongToken(tokens: seq<string>)
    requires tokens != [] && |tokens[0]| == 3
    ensures PidAt(tokens, 0) == None
  {
    hide AllHex, Upper;
  }

  lemma LineTokens(header: seq<string>, bytes: seq<byte>, tokens: seq<string>)
    requires header + Hexes(bytes) <= tokens
    ensures |header| + |bytes| <= |tokens| && forall i :: 0 <= i < |header| ==> tokens[i] == header[i]
    ensures forall i :: 0 <= i < |bytes| ==> tokens[|header| + i] == Hexes(bytes)[i]
  {
    hide Hexes;
    var line := header + Hexes(bytes);
    assert forall i :: 0 <= i < |line| ==> tokens[i] == line[i];
  }

  lemma HeaderToken(c: nat)
    requires Can11.Addresses(c)
    ensures |Can11.ResponseHeader(c)| == 1 && |Can11.ResponseHeader(c)[0]| == 3
  {
  }

  lemma HeaderBytes(tester: byte, c: nat)
    requires c < 256
    ensures Can29(tester).Addresses(c) && Can29(tester).ResponseHeader(c) == Hexes([0x18, 0xDA, tester, c as byte])
  {
  }

  lemma Line11(c: nat, length: seq<byte>, start: seq<byte>, tokens: seq<string>)
    requires Can11.Addresses(c) && Can11.ResponseHeader(c) + Hexes(length + start) <= tokens
    ensures Spells(tokens, 1, Preface(Can11, c, length) + start) && PidAt(tokens, 0) == None
  {
    assert Preface(Can11, c, length) == length;
    hide *;
    LineTokens(Can11.ResponseHeader(c), length + start, tokens);
    HeaderToken(c);
    LongToken(tokens);
    SpellsFrom(tokens, 1, length + start);
  }

  lemma LineOfBytes(four: seq<byte>, length: seq<byte>, start: seq<byte>, tokens: seq<string>)
    requires Hexes(four) + Hexes(length + start) <= tokens
    ensures Spells(tokens, 0, (four + length) + start)
  {
    hide *;
    LineTokens(Hexes(four), length + start, tokens);
    assert (four + length) + start == four + (length + start);
    SpellsTwo(tokens, four, length + start);
  }

  lemma Line29(tester: byte, c: nat, length: seq<byte>, start: seq<byte>, tokens: seq<string>)
    requires c < 256 && Can29(tester).Addresses(c)
    requires Can29(tester).ResponseHeader(c) + Hexes(length + start) <= tokens
    ensures Spells(tokens, 0, Preface(Can29(tester), c, length) + start)
  {
    HeaderBytes(tester, c);
    hide Hexes, Spells, Bus.ResponseHeader;
    LineOfBytes([0x18, 0xDA, tester, c as byte], length, start, tokens);
  }

  // The line as bytes: on an 11-bit bus behind one token of three digits.
  lemma LineSpells(bus: Bus, c: nat, length: seq<byte>, start: seq<byte>, text: string) returns (h: nat)
    requires bus.Addresses(c) && LineStarts(bus, c, length, start, text)
    ensures Spells(Tokens(text), h, Preface(bus, c, length) + start)
    ensures forall j: nat :: j < h ==> PidAt(Tokens(text), j) == None
  {
    assert bus.Can29? ==> c < 256;
    assert bus.ResponseHeader(c) + Hexes(length + start) <= Tokens(text);
    hide *;
    match bus
    case Can11 =>
      h := 1;
      Line11(c, length, start, Tokens(text));
    case Can29(tester) =>
      h := 0;
      Line29(tester, c, length, start, Tokens(text));
  }

  lemma SpellsFrom(tokens: seq<string>, h: nat, bytes: seq<byte>)
    requires h + |bytes| <= |tokens| && forall i :: 0 <= i < |bytes| ==> tokens[h + i] == Hexes(bytes)[i]
    ensures Spells(tokens, h, bytes)
  {
    hide Hex2;
    forall i | 0 <= i < |bytes| ensures tokens[h + i] == Hex2(bytes[i]) { assert tokens[h + i] == Hexes(bytes)[i]; }
  }

  lemma SpellsTwo(tokens: seq<string>, x: seq<byte>, y: seq<byte>)
    requires |x| + |y| <= |tokens| && forall i :: 0 <= i < |x| ==> tokens[i] == Hexes(x)[i]
    requires forall i :: 0 <= i < |y| ==> tokens[|x| + i] == Hexes(y)[i]
    ensures Spells(tokens, 0, x + y)
  {
    hide Hex2;
    forall i | 0 <= i < |x + y| ensures tokens[0 + i] == Hex2((x + y)[i]) {
      if i < |x| {
        assert tokens[i] == Hexes(x)[i];
      } else {
        assert tokens[|x| + (i - |x|)] == Hexes(y)[i - |x|];
      }
    }
  }

  predicate SameMode(named: Option<string>, pid: string) {
    named.Some? && |named.value| >= 2 && |pid| >= 2 && named.value[..2] == pid[..2]
  }

  lemma CountedFor(sent: string, text: string, named: Option<string>)
    requires PlainPid(sent) && ReplyPid(Tokens(text)) == named
    ensures ActualPid(sent, Some(text)) == if SameMode(named, sent) then named.value else sent
  {
    PlainMode(sent);
    PlainHex(sent);
    assert ModeOf(sent) == MODE01 || ModeOf(sent) == MODE22;
    forall i | 0 <= i < |sent| ensures sent[i] != '|' && sent[i] != ' ' { assert IsHexDigit(sent[i]); }
    hide PlainPid, ModeOf, Tokens, ReplyPid;
  }

  lemma SentMode(sent: string)
    requires PlainPid(sent)
    ensures SameMode(Some(sent), sent) && !SameMode(None, sent)
  {
    PlainHex(sent);
  }

  /**
   When a completion counts for the pid that was asked: if its controller's line comes first, on either bus,
   in one frame or several, then if and only if the header and the length in front of the payload do not
   happen to spell a response of the same mode to another pid.
   */
  lemma CountsExact(bus: Bus, c: nat, sent: string, length: seq<byte>, start: seq<byte>, text: string)
    requires bus.Addresses(c) && PlainPid(sent) && Responds(start, sent) && LineStarts(bus, c, length, start, text)
    ensures |start| >= 2
    ensures
      var named := SpelledBefore(Preface(bus, c, length), start);
      ActualPid(sent, Some(text)) == sent <==> (SameMode(named, sent) ==> named == Some(sent))
  {
    hide *;
    var h := LineSpells(bus, c, length, start, text);
    FirstNamed(Tokens(text), h, Preface(bus, c, length), start, sent);
    SentMode(sent);
    var named := SpelledBefore(Preface(bus, c, length), start);
    CountedFor(sent, text, if named.Some? then named else Some(sent));
  }

  lemma FirstNamed(tokens: seq<string>, h: nat, lead: seq<byte>, start: seq<byte>, sent: string)
    requires PlainPid(sent) && Responds(start, sent) && Spells(tokens, h, lead + start)
    requires forall j: nat :: j < h ==> PidAt(tokens, j) == None
    ensures |start| >= 2
    ensures ReplyPid(tokens) == if SpelledBefore(lead, start).Some? then SpelledBefore(lead, start) else Some(sent)
  {
    hide *;
    SpellsTail(tokens, h, lead, start);
    ResponseNames(tokens, h + |lead|, start, sent);
    SpelledFrom(lead, start);
    FirstSpelled(tokens, h, lead + start, 0, |lead|, sent);
  }

  lemma SpelledFrom(lead: seq<byte>, start: seq<byte>)
    requires |start| >= 2
    ensures SpelledBefore(lead, start) == Spelled(lead + start, 0, |lead|)
  {
  }

  lemma SpellsTail(tokens: seq<string>, h: nat, x: seq<byte>, y: seq<byte>)
    requires Spells(tokens, h, x + y)
    ensures Spells(tokens, h + |x|, y)
  {
    hide Hex2;
    forall i | 0 <= i < |y| ensures tokens[h + |x| + i] == Hex2(y[i]) {
      assert tokens[h + (|x| + i)] == Hex2((x + y)[|x| + i]);
    }
  }

  /** On an 11-bit bus an answer in one frame always counts for the pid that was asked. */
  lemma CountsOn11(c: nat, sent: string, payload: seq<byte>, pad: seq<byte>, text: string)
    requires Can11.Addresses(c) && PlainPid(sent) && Responds(payload, sent) && SingleFrame(payload, pad).Valid()
    requires RenderLine(Can11, Tagged(Ecu(c), SingleFrame(payload, pad).Bodies()[0])) <= Tokens(text)
    ensures ActualPid(sent, Some(text)) == sent
  {
    var length, start := [|payload| as byte], payload + pad;
    assert Responds(start, sent);
    FrameStarts(Can11, c, payload, pad, text);
    assert |start| >= 2;
    hide *;
    OneByte(c, |payload| as byte, start);
    SentMode(sent);
    CountsExact(Can11, c, sent, length, start, text);
  }

  lemma OneByte(c: nat, b: byte, start: seq<byte>)
    requires Can11.Addresses(c) && b < 8 && |start| >= 2
    ensures SpelledBefore(Preface(Can11, c, [b]), start) == None
  {
    var bytes := [b] + start;
    assert Preface(Can11, c, [b]) == [b] && bytes[0] == b;
    hide Hex2;
    assert Spelled(bytes, 1, 1) == None && NamedBy(bytes[0], bytes[1], bytes[2]) == None;
  }

  lemma FrameStarts(bus: Bus, c: nat, payload: seq<byte>, pad: seq<byte>, text: string)
    requires bus.Addresses(c) && SingleFrame(payload, pad).Valid()
    requires RenderLine(bus, Tagged(Ecu(c), SingleFrame(payload, pad).Bodies()[0])) <= Tokens(text)
    ensures LineStarts(bus, c, [|payload| as byte], payload + pad, text)
  {
    hide Hex2, Tokens, Bus.ResponseHeader, Bus.Addresses;
    assert Hexes([|payload| as byte] + (payload + pad)) == [Hex2(|payload| as byte)] + Hexes(payload + pad);
  }

  lemma FrameText(bus: Bus, c: nat, payload: seq<byte>, pad: seq<byte>) returns (text: string)
    requires bus.Addresses(c) && SingleFrame(payload, pad).Valid()
    ensures RenderLine(bus, Tagged(Ecu(c), SingleFrame(payload, pad).Bodies()[0])) == Tokens(text)
  {
    HeaderTokens(bus, c);
    SingleTokens(payload, pad);
    hide Bus.ResponseHeader, Bus.Addresses, Hex2, HexDigit;
    var header, body := bus.ResponseHeader(c), [Hex2(|payload| as byte)] + Hexes(payload + pad);
    forall i | 0 <= i < |header + body| ensures IsToken((header + body)[i]) {
      assert HexToken(if i < |header| then header[i] else body[i - |header|]);
    }
    TokensJoin(header + body);
    text := Join(header + body, ' ');
  }

  /** Controller 41 on a 29-bit bus: its answer to the engine speed counts for another pid. */
  lemma CountedForAnother(first: byte, second: byte) returns (text: string)
    ensures RenderLine(Can29(0xF1), Tagged(Ecu(0x41), SingleFrame([0x41, 0x0C, first, second], []).Bodies()[0]))
            == Tokens(text)
    ensures Responds([0x41, 0x0C, first, second], "010C") && ActualPid("010C", Some(text)) == "0104"
  {
    SpeedPlain();
    var bus, payload: seq<byte> := Can29(0xF1), [0x41, 0x0C, first, second];
    SpeedResponds(payload);
    text := FrameText(bus, 0x41, payload, []);
    FrameStarts(bus, 0x41, payload, [], text);
    assert payload + [] == payload;
    var h := LineSpells(bus, 0x41, [4], payload, text);
    SpeedSpelled(Preface(bus, 0x41, [4]), payload);
    hide *;
    FirstNamed(Tokens(text), h, Preface(bus, 0x41, [4]), payload, "010C");
    CountedFor("010C", text, Some("0104"));
  }

  lemma SpeedPlain()
    ensures PlainPid("010C") && ModeOf("010C") == MODE01 && EchoNat("010C") == 12 && SameMode(Some("0104"), "010C")
  {
    var pid := "010C";
    assert Upper(pid) == pid;
    TrimTrimmed(pid);
    assert pid[2..] == "0C";
    var b: byte := 12;
    Hex2Value(b);
    assert "0C" == Hex2(b);
  }

  lemma SpeedResponds(payload: seq<byte>)
    requires |payload| == 4 && payload[0] == 0x41 && payload[1] == 0x0C && EchoNat("010C") == 12
    ensures Responds(payload, "010C")
  {
    assert ModeOf("010C") == MODE01;
    hide EchoNat;
    assert [MODE01.reply] + EchoBytes(1, 12) == [0x41, 12];
  }

  lemma SpeedSpelled(lead: seq<byte>, payload: seq<byte>)
    requires lead == [0x18, 0xDA, 0xF1, 0x41, 4] && |payload| == 4
    ensures SpelledBefore(lead, payload) == Some("0104")
  {
    assert Hex2(4) == "04" && "01" + "04" == "0104";
    hide Hex2;
    var bytes := lead + payload;
    assert Spelled(bytes, 3, 5) == NamedBy(bytes[3], bytes[4], bytes[5]);
    assert Spelled(bytes, 2, 5) == Spelled(bytes, 3, 5);
    assert Spelled(bytes, 1, 5) == Spelled(bytes, 2, 5);
  }

  // ---------------------------------------------------------------- compound requests

  lemma ChunkLonger(seg: seq<string>)
    requires OneMode(seg) && |seg| > 1
    ensures Joinable(seg) && !CrossCheckable(JoinChunkWire(seg))
  {
    var mode, width := if InMode(seg, "01", 2) then "01" else "22", if InMode(seg, "01", 2) then 2 else 4;
    JoinedParts(seg, mode, width);
    var parts := Suffixes(seg, mode);
    assert Concat(parts) == parts[0] + (parts[1] + Concat(parts[1..][1..]));
    hide JoinChunkWire, Suffixes, Concat, InMode;
    var wire := mode + Concat(parts);
    assert wire[0] == mode[0] && |wire| >= 2 + 2 * width;
  }

  /** A request for several pids is not checked against its reply: it completes as itself, whatever came back. */
  lemma CompoundCounts(segments: seq<seq<string>>, response: Option<string>)
    requires segments != [] && forall j :: 0 <= j < |segments| ==> OneMode(segments[j]) && Joinable(segments[j])
    requires |segments| > 1 || |segments[0]| > 1
    ensures ActualPid(EncodeWire(segments), response) == EncodeWire(segments)
  {
    if |segments| > 1 {
      JoinHasPipe(ChunkWires(segments));
      hide JoinChunkWire, OneMode, Joinable;
      assert '|' in EncodeWire(segments);
    } else {
      ChunkLonger(segments[0]);
      hide JoinChunkWire, OneMode, Joinable;
      assert EncodeWire(segments) == JoinChunkWire(segments[0]);
    }
    hide EncodeWire, ReplyPid, Tokens;
  }
}
