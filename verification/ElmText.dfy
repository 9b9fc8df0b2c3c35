/**
 What the text preamble makes of a well-formed reply: the adapter prints one line of hexadecimal tokens per
 frame, possibly after a search announcement and among blank lines and echoes of the command. Exactly the
 frame lines come through, and the reply counts as data.
 */
module ElmText {
  import opened Wrappers
  import opened Text
  import opened Addressing
  import opened IsoTp
  import opened IsoTpRoundTrip
  import opened ElmWire

  predicate HexChar(c: char) { IsHexDigit(c) && UpperChar(c) == c }

  predicate HexToken(t: string) { t != [] && forall i :: 0 <= i < |t| ==> HexChar(t[i]) }

  // Characters of frame lines.
  predicate LineChar(c: char) { HexChar(c) || c == ' ' }

  predicate PlainLine(line: string) { forall i :: 0 <= i < |line| ==> LineChar(line[i]) }

  // Characters of a reply without a search announcement.
  predicate ReplyChar(c: char) { LineChar(c) || c == '\r' || c == '\n' }

  predicate PlainText(s: string) { forall i :: 0 <= i < |s| ==> ReplyChar(s[i]) }

  predicate HasHex(s: string) { exists i :: 0 <= i < |s| && HexChar(s[i]) }

  predicate NoiseLine(line: string, command: string) {
    (forall i :: 0 <= i < |line| ==> line[i] == ' ') || Upper(Trim(line)) == Upper(command)
  }

  /** `all` is `lines` in order, with noise lines anywhere among them. */
  predicate Weaves(all: seq<string>, lines: seq<string>, command: string) {
    if all == [] then lines == []
    else
      || (NoiseLine(all[0], command) && Weaves(all[1..], lines, command))
      || (lines != [] && all[0] == lines[0] && Weaves(all[1..], lines[1..], command))
  }

  function LineTexts(lines: seq<Line>): (r: seq<string>)
    ensures |r| == |lines|
    ensures forall i :: 0 <= i < |lines| ==> r[i] == Join(lines[i], ' ')
  {
    seq(|lines|, i requires 0 <= i < |lines| => Join(lines[i], ' '))
  }

  // Lines of at least two hexadecimal tokens: a header and data.
  ghost predicate FrameLines(lines: seq<Line>) {
    && (forall i :: 0 <= i < |lines| ==> |lines[i]| >= 2)
    && forall i, k :: 0 <= i < |lines| && 0 <= k < |lines[i]| ==> HexToken(lines[i][k])
  }

  function Announced(searching: bool, all: seq<string>): seq<string> {
    if searching then ["SEARCHING..."] + all else all
  }

  /** `text` is a well-formed reply to `command` with these frame lines. */
  ghost predicate ReplyText(text: string, command: string, lines: seq<Line>, all: seq<string>, searching: bool) {
    && Weaves(all, LineTexts(lines), command) && (forall i :: 0 <= i < |all| ==> PlainLine(all[i]))
    && text == Join(Announced(searching, all), '\r')
  }

  // ---------------------------------------------------------------- trimming

  lemma {:induction false} TrimLeftPart(s: string) returns (a: nat)
    ensures a <= |s| && TrimLeft(s) == s[a..] && forall i :: 0 <= i < a ==> IsSpace(s[i])
  {
    if s != [] && IsSpace(s[0]) {
      var k := TrimLeftPart(s[1..]);
      a := k + 1;
      forall i | 0 <= i < a ensures IsSpace(s[i]) { if i > 0 { assert s[i] == s[1..][i - 1]; } }
    } else {
      a := 0;
    }
  }

  lemma {:induction false} TrimRightPart(s: string) returns (b: nat)
    ensures b <= |s| && TrimRight(s) == s[..b] && forall i :: b <= i < |s| ==> IsSpace(s[i])
  {
    if s != [] && IsSpace(s[|s| - 1]) {
      b := TrimRightPart(s[..|s| - 1]);
      forall i | b <= i < |s| ensures IsSpace(s[i]) { if i < |s| - 1 { assert s[i] == s[..|s| - 1][i]; } }
    } else {
      b := |s|;
    }
  }

  lemma TrimPart(s: string) returns (a: nat, b: nat)
    ensures a <= b <= |s| && Trim(s) == s[a..b] && (a < b ==> !IsSpace(s[a]))
    ensures forall i :: 0 <= i < a || b <= i < |s| ==> IsSpace(s[i])
  {
    a := TrimLeftPart(s);
    var k := TrimRightPart(s[a..]);
    b := a + k;
    forall i | b <= i < |s| ensures IsSpace(s[i]) { assert s[i] == s[a..][i - a]; }
    TrimLeftStart(s);
  }

  // Trimming plain text leaves plain text, and something if there is a digit.
  lemma TrimPlain(s: string)
    requires PlainText(s)
    ensures PlainText(Trim(s)) && (HasHex(s) ==> Trim(s) != [])
    ensures (forall i :: 0 <= i < |s| ==> s[i] == ' ') ==> Trim(s) == []
  {
    var a, b := TrimPart(s);
    if HasHex(s) {
      var i :| 0 <= i < |s| && HexChar(s[i]);
      assert !IsSpace(s[i]);
    }
  }

  lemma {:induction false} TrimRightEnd(s: string)
    ensures TrimRight(s) != [] ==> !IsSpace(TrimRight(s)[|TrimRight(s)| - 1]) && TrimRight(s)[0] == s[0]
  {
    if s != [] && IsSpace(s[|s| - 1]) { TrimRightEnd(s[..|s| - 1]); }
  }

  lemma {:induction false} TrimLeftStart(s: string)
    ensures TrimLeft(s) != [] ==> !IsSpace(TrimLeft(s)[0])
  {
    if s != [] && IsSpace(s[0]) { TrimLeftStart(s[1..]); }
  }

  lemma TrimEnds(s: string)
    ensures Trim(s) != [] ==> !IsSpace(Trim(s)[0])
    ensures Trim(s) != [] ==> !IsSpace(Trim(s)[|Trim(s)| - 1])
  {
    TrimLeftStart(s);
    TrimRightEnd(TrimLeft(s));
    assert TrimLeft(s) == [] ==> Trim(s) == [];
  }

  // ---------------------------------------------------------------- classification

  // Status tokens hold letters that reply text does not.
  lemma DiffersAt(u: string, token: string, i: nat)
    requires PlainText(u) && i < |token| && !ReplyChar(token[i])
    ensures u != token && !(token <= u)
  {
  }

  lemma NotCode(u: string)
    requires PlainText(u)
    ensures AdapterCode(u) == None
  {
    DiffersAt(u, "NO DATA", 0);
    DiffersAt(u, "CAN ERROR", 2);
    DiffersAt(u, "DATA ERROR", 2);
    DiffersAt(u, "<DATA ERROR", 0);
    DiffersAt(u, "<RX ERROR", 0);
    DiffersAt(u, "BUS BUSY", 1);
    DiffersAt(u, "BUS ERROR", 1);
    DiffersAt(u, "BUFFER FULL", 1);
    DiffersAt(u, "STOPPED", 0);
    DiffersAt(u, "FC RX TIMEOUT", 3);
    DiffersAt(u, "UNABLE TO CONNECT", 0);
    DiffersAt(u, "LV RESET", 0);
    DiffersAt(u, "ACT ALERT", 2);
    DiffersAt(u, "LP ALERT", 0);
    DiffersAt(u, "UART RX OVERFLOW", 0);
    DiffersAt(u, "OUT OF MEMORY", 0);
    hide PlainText, ReplyChar;
  }

  lemma NotToken(u: string)
    requires PlainText(u)
    ensures !("SEARCHING" <= u) && u != "OK" && u != "?" && !("ELM327" <= u) && !("STN" <= u) && u != "NO DATA" &&
            u != "STOPPED"
    ensures u != "ERROR" && u != "FB ERROR" && u != "BUS INIT: ...ERROR"
  {
    DiffersAt(u, "SEARCHING", 0);
    DiffersAt(u, "OK", 0);
    DiffersAt(u, "?", 0);
    DiffersAt(u, "ELM327", 1);
    DiffersAt(u, "STN", 0);
    DiffersAt(u, "NO DATA", 0);
    DiffersAt(u, "STOPPED", 0);
    DiffersAt(u, "ERROR", 1);
    DiffersAt(u, "FB ERROR", 4);
    DiffersAt(u, "BUS INIT: ...ERROR", 1);
  }

  lemma UpperPlain(s: string)
    requires PlainText(s)
    ensures Upper(s) == s
  {
    forall i | 0 <= i < |s| ensures Upper(s)[i] == s[i] {
      assert ReplyChar(s[i]);
    }
  }

  lemma PlainIsData(t: string)
    requires PlainText(t) && Trim(t) != []
    ensures ClassifyLine(t) == None
  {
    TrimPlain(t);
    TrimPlain(Trim(t));
    UpperPlain(Trim(Trim(t)));
    NotToken(Trim(t));
    NotCode(Trim(Trim(t)));
    hide PlainText, Trim, Upper, AdapterCode;
  }

  lemma PlainNotNonData(t: string)
    requires PlainText(t) && HasHex(t)
    ensures !IsNonData(t)
  {
    TrimPlain(t);
    var u := Trim(t);
    TrimEnds(t);
    TrimTrimmed(u);
    PlainIsData(u);
  }

  // ---------------------------------------------------------------- lines

  lemma {:induction false} JoinPlain(parts: seq<string>, sep: char)
    requires sep == '\r' || sep == '\n' || sep == ' '
    requires forall i :: 0 <= i < |parts| ==> PlainLine(parts[i])
    ensures PlainText(Join(parts, sep))
    ensures sep == ' ' ==> PlainLine(Join(parts, sep))
  {
    hide HexChar;
    assert LineChar(' ');
    if |parts| > 1 { JoinPlain(parts[1..], sep); }
  }

  lemma {:induction false} JoinHasHex(parts: seq<string>, sep: char, k: nat)
    requires k < |parts| && HasHex(parts[k])
    ensures HasHex(Join(parts, sep))
  {
    var whole := Join(parts, sep);
    if k == 0 {
      var i :| 0 <= i < |parts[0]| && HexChar(parts[0][i]);
      assert whole[i] == parts[0][i];
    } else {
      JoinHasHex(parts[1..], sep, k - 1);
      var rest := Join(parts[1..], sep);
      var i :| 0 <= i < |rest| && HexChar(rest[i]);
      assert whole[|parts[0]| + 1 + i] == rest[i];
    }
  }

  lemma {:induction false} NormalizeJoin(parts: seq<string>)
    requires forall i :: 0 <= i < |parts| ==> Free(parts[i], '\r')
    ensures Normalize(Join(parts, '\r')) == Join(parts, '\n')
  {
    if |parts| == 1 {
      assert Normalize(parts[0]) == parts[0];
    } else if parts != [] {
      NormalizeJoin(parts[1..]);
      assert Normalize(parts[0]) == parts[0];
      assert Normalize(Join(parts, '\r')) == Normalize(parts[0]) + ['\n'] + Normalize(Join(parts[1..], '\r'));
    }
  }

  lemma TokenPlain(t: string)
    requires HexToken(t)
    ensures PlainLine(t) && IsToken(t) && HasHex(t)
  {
    assert HexChar(t[0]);
  }

  lemma FrameLineTrim(line: Line)
    requires line != [] && (forall k :: 0 <= k < |line| ==> HexToken(line[k]))
    ensures
      var t := Join(line, ' ');
      PlainLine(t) && PlainText(t) && HasHex(t) && Trim(t) == t && Tokens(t) == line
  {
    hide Tokens, HasHex, PlainLine, Trim, HexToken, IsToken, PlainText, Join;
    forall k | 0 <= k < |line|
      ensures PlainLine(line[k]) && IsToken(line[k]) && HasHex(line[k]) { TokenPlain(line[k]); }
    FrameLineEnds(line);
    JoinPlain(line, ' ');
    JoinHasHex(line, ' ', 0);
    TokensJoin(line);
    TrimTrimmed(Join(line, ' '));
  }

  lemma JoinSpace(line: Line)
    requires |line| >= 2
    ensures |line[0]| < |Join(line, ' ')| && Join(line, ' ')[|line[0]|] == ' '
  {
  }

  lemma SpacedKept(t: string, command: string, i: nat)
    requires PlainText(t) && i < |t| && t[i] == ' ' && ' ' !in command
    ensures KeptLine(t, command)
  {
    DiffersAt(t, "SEARCHING", 0);
    UpperSpace(t, command, i);
    hide Upper, PlainText;
  }

  // A frame line is its own trim, and no noise.
  lemma FrameLineText(line: Line, command: string)
    requires |line| >= 2 && (forall k :: 0 <= k < |line| ==> HexToken(line[k])) && ' ' !in command
    ensures
      var t := Join(line, ' ');
      && PlainLine(t) && HasHex(t) && Trim(t) == t && KeptLine(t, command) && Tokens(t) == line
  {
    hide *;
    FrameLineTrim(line);
    JoinSpace(line);
    SpacedKept(Join(line, ' '), command, |line[0]|);
  }

  lemma UpperSpace(t: string, command: string, i: nat)
    requires i < |t| && t[i] == ' ' && ' ' !in command
    ensures Upper(t) != Upper(command)
  {
    assert Upper(t)[i] == ' ';
    if i < |command| { assert Upper(command)[i] == UpperChar(command[i]); }
  }

  lemma {:induction false} FrameLineEnds(line: Line)
    requires line != [] && forall k :: 0 <= k < |line| ==> HexToken(line[k])
    ensures
      var t := Join(line, ' ');
      t != [] && HexChar(t[0]) && HexChar(t[|t| - 1]) && Trimmed(t)
  {
    assert HexChar(line[0][0]);
    if |line| == 1 {
      assert HexChar(line[0][|line[0]| - 1]);
    } else {
      FrameLineEnds(line[1..]);
      var t, rest := Join(line, ' '), Join(line[1..], ' ');
      assert t[|t| - 1] == rest[|rest| - 1];
      assert t[0] == line[0][0];
    }
  }

  // Only the frame lines are kept.
  lemma {:induction false} KeptWoven(all: seq<string>, lines: seq<string>, command: string)
    requires Weaves(all, lines, command) && (forall i :: 0 <= i < |all| ==> PlainLine(all[i]))
    requires forall i :: 0 <= i < |lines| ==> Trim(lines[i]) == lines[i] && KeptLine(lines[i], command)
    ensures Kept(all, command) == lines
  {
    hide PlainLine, KeptLine, Trim;
    if all != [] {
      if NoiseLine(all[0], command) && Weaves(all[1..], lines, command) {
        NoiseDropped(all[0], command);
        KeptWoven(all[1..], lines, command);
      } else {
        KeptWoven(all[1..], lines[1..], command);
      }
    }
  }

  lemma NoiseDropped(line: string, command: string)
    requires NoiseLine(line, command) && PlainLine(line)
    ensures !KeptLine(Trim(line), command)
  {
    if forall i :: 0 <= i < |line| ==> line[i] == ' ' {
      TrimPlain(line);
    }
  }

  // The first line that says anything is a frame or an echo, so the reply is data.
  lemma {:induction false} WovenStatus(all: seq<string>, lines: seq<string>, command: string)
    requires Weaves(all, lines, command) && lines != [] && (forall i :: 0 <= i < |all| ==> PlainLine(all[i]))
    requires forall i :: 0 <= i < |lines| ==> HasHex(lines[i])
    ensures FirstStatus(all) == Ok
  {
    assert PlainText(all[0]) by { assert PlainLine(all[0]); }
    TrimPlain(all[0]);
    var t := Trim(all[0]);
    if t == [] {
      hide NoiseLine, Trim;
      WovenStatus(all[1..], lines, command);
    } else {
      TrimEnds(all[0]);
      TrimTrimmed(t);
      PlainIsData(t);
      NotToken(t);
    }
  }

  lemma {:induction false} WovenIndex(all: seq<string>, lines: seq<string>, command: string) returns (k: nat)
    requires Weaves(all, lines, command) && lines != []
    ensures k < |all| && all[k] == lines[0]
  {
    if NoiseLine(all[0], command) && Weaves(all[1..], lines, command) {
      var j := WovenIndex(all[1..], lines, command);
      k := j + 1;
    } else {
      k := 0;
    }
  }

  // ---------------------------------------------------------------- the veto words

  predicate HasChar(s: string, c: char) { exists i :: 0 <= i < |s| && s[i] == c }

  lemma {:induction false} ContainsChar(s: string, pattern: string, c: char)
    requires Contains(s, pattern) && HasChar(pattern, c)
    ensures HasChar(s, c)
  {
    if pattern <= s {
      var i :| 0 <= i < |pattern| && pattern[i] == c;
      assert s[i] == c;
    } else {
      ContainsChar(s[1..], pattern, c);
      var i :| 0 <= i < |s[1..]| && s[1..][i] == c;
      assert s[i + 1] == c;
    }
  }

  lemma NotFaulted(text: string)
    requires !HasChar(text, 'O')
    ensures !Contains(text, "NO DATA") && !Contains(text, "ERROR")
  {
    assert "NO DATA"[1] == 'O' && "ERROR"[3] == 'O';
    if Contains(text, "NO DATA") { ContainsChar(text, "NO DATA", 'O'); }
    if Contains(text, "ERROR") { ContainsChar(text, "ERROR", 'O'); }
  }

  // ---------------------------------------------------------------- one reply

  const ANNOUNCEMENT := "SEARCHING..."

  lemma AnnouncedText(all: seq<string>)
    requires all != []
    ensures Join(Announced(true, all), '\r') == ANNOUNCEMENT + ['\r'] + Join(all, '\r')
  {
    assert Announced(true, all)[1..] == all;
  }

  lemma AnnouncementLine()
    ensures Trim(ANNOUNCEMENT) == ANNOUNCEMENT && "SEARCHING" <= ANNOUNCEMENT
    ensures Free(ANNOUNCEMENT, '\r') && Free(ANNOUNCEMENT, '\n') && !HasChar(ANNOUNCEMENT, 'O')
  {
    TrimTrimmed(ANNOUNCEMENT);
  }

  lemma AnnouncedNotNonData(rest: string)
    ensures !IsNonData(ANNOUNCEMENT + rest)
  {
    var s := ANNOUNCEMENT + rest;
    var a, b := TrimPart(s);
    assert s[0] == 'S' && !IsSpace(s[0]);
    assert !IsSpace(s[11]) && s[11] == '.';
    assert a == 0 && b >= 12;
    assert "SEARCHING" <= s[a..b] by { assert s[..9] == "SEARCHING"; }
  }

  lemma AnnouncedLines(searching: bool, all: seq<string>)
    requires all != [] && forall i :: 0 <= i < |all| ==> PlainLine(all[i])
    ensures Text.Split(Normalize(Join(Announced(searching, all), '\r')), '\n') == Announced(searching, all)
  {
    AnnouncementLine();
    var parts := Announced(searching, all);
    forall i | 0 <= i < |parts| ensures Free(parts[i], '\r') && Free(parts[i], '\n') {
      if searching && i > 0 { assert parts[i] == all[i - 1]; }
      if !searching { assert PlainLine(all[i]); } else if i > 0 { assert PlainLine(all[i - 1]); }
    }
    NormalizeJoin(parts);
    SplitJoin(parts, '\n');
  }

  lemma PlainHasNot(s: string)
    requires PlainText(s)
    ensures !HasChar(s, 'O')
  {
  }

  lemma TextVerdicts(text: string, searching: bool, all: seq<string>, k: nat)
    requires k < |all| && HasHex(all[k]) && (forall i :: 0 <= i < |all| ==> PlainLine(all[i]))
    requires text == Join(Announced(searching, all), '\r')
    ensures !IsNonData(text) && !Contains(text, "NO DATA") && !Contains(text, "ERROR")
  {
    hide PlainLine, HasHex, IsNonData, Contains, HasChar, PlainText, Announced;
    JoinPlain(all, '\r');
    PlainHasNot(Join(all, '\r'));
    if searching {
      AnnouncedText(all);
      AnnouncementLine();
      var rest := ['\r'] + Join(all, '\r');
      assert text == ANNOUNCEMENT + rest;
      AnnouncedNotNonData(rest);
      assert !HasChar(text, 'O') by { NoCharAppend(ANNOUNCEMENT, Join(all, '\r'), 'O'); }
    } else {
      assert Announced(false, all) == all by { NotAnnounced(all); }
      JoinHasHex(all, '\r', k);
      PlainNotNonData(text);
    }
    NotFaulted(text);
  }

  lemma NotAnnounced(all: seq<string>)
    ensures Announced(false, all) == all
  {
  }

  lemma NoCharAppend(s: string, t: string, c: char)
    requires !HasChar(s, c) && !HasChar(t, c) && c != '\r'
    ensures !HasChar(s + ['\r'] + t, c)
  {
    var whole := s + ['\r'] + t;
    forall i | 0 <= i < |whole| ensures whole[i] != c {
      if i > |s| { assert whole[i] == t[i - |s| - 1]; }
    }
  }

  lemma LinesText(lines: seq<Line>, command: string)
    requires FrameLines(lines) && ' ' !in command
    ensures
      var texts := LineTexts(lines);
      && (forall i :: 0 <= i < |texts| ==>
          PlainLine(texts[i]) && HasHex(texts[i]) && Trim(texts[i]) == texts[i] && KeptLine(texts[i], command))
      && TokenLines(texts) == lines
  {
    hide HexToken, KeptLine, Trim, PlainLine, HasHex, Tokens;
    forall i | 0 <= i < |lines|
      ensures
        var t := LineTexts(lines)[i];
        PlainLine(t) && HasHex(t) && Trim(t) == t && KeptLine(t, command) && Tokens(t) == lines[i]
    {
      FrameLineText(lines[i], command);
    }
  }

  // The announcement neither is kept nor decides the status.
  lemma AnnouncementIgnored(searching: bool, all: seq<string>, command: string)
    ensures Kept(Announced(searching, all), command) == Kept(all, command)
    ensures FirstStatus(Announced(searching, all)) == FirstStatus(all)
  {
    AnnouncementLine();
    assert searching ==> Announced(searching, all)[1..] == all;
  }

  /** The frame lines come through exactly, and the reply is data without a veto. */
  lemma ReplyTextLines(text: string, command: string, lines: seq<Line>, all: seq<string>, searching: bool)
    requires ReplyText(text, command, lines, all, searching) && FrameLines(lines) && lines != [] && ' ' !in command
    ensures !NothingToFrame(command, text) && TokenLines(Sanitize(text, command)) == lines
    ensures ClassifyText(text) == Ok && !Contains(text, "NO DATA") && !Contains(text, "ERROR")
  {
    hide HexToken, KeptLine, Trim, PlainLine, HasHex, Tokens, NoiseLine, ClassifyLine, Contains, IsNonData, FrameLines,
      Kept, FirstStatus, Announced, TokenLines;
    LinesText(lines, command);
    var texts := LineTexts(lines);
    var k := WovenIndex(all, texts, command);
    AnnouncedLines(searching, all);
    AnnouncementIgnored(searching, all, command);
    KeptWoven(all, texts, command);
    WovenStatus(all, texts, command);
    TextVerdicts(text, searching, all, k);
    JoinPlain(texts, '\n');
    JoinHasHex(texts, '\n', 0);
    PlainNotNonData(Join(texts, '\n'));
  }

  // ---------------------------------------------------------------- controllers' lines

  lemma HexTokens(b: byte)
    ensures HexToken(Hex2(b))
  {
    var s := Hex2(b);
    assert Upper(s)[0] == s[0] && Upper(s)[1] == s[1];
  }

  lemma HexesTokens(bytes: seq<byte>)
    ensures forall i :: 0 <= i < |bytes| ==> HexToken(Hexes(bytes)[i])
  {
    hide HexToken, Hex2;
    forall i | 0 <= i < |bytes| ensures HexToken(Hexes(bytes)[i]) { HexTokens(bytes[i]); }
  }

  lemma HeaderTokens(bus: Bus, controller: nat)
    requires bus.Addresses(controller)
    ensures forall k :: 0 <= k < |bus.ResponseHeader(controller)| ==> HexToken(bus.ResponseHeader(controller)[k])
    ensures |bus.ResponseHeader(controller)| >= 1
  {
    match bus
    case Can11 =>
      var v := if controller < 0x300 then controller + 0x400 else controller + 8;
      assert forall i :: 0 <= i < 4 ==> Upper(Hex4(v))[i] == Hex4(v)[i];
    case Can29(tester) =>
      HexTokens(0x18);
      HexTokens(0xDA);
      HexTokens(tester);
      HexTokens(controller as byte);
  }

  ghost predicate HexLine(body: seq<string>) {
    forall k :: 0 <= k < |body| ==> HexToken(body[k])
  }

  lemma SingleTokens(payload: seq<byte>, pad: seq<byte>)
    requires 1 <= |payload| && |payload| + |pad| <= 7
    ensures HexLine([Hex2(|payload| as byte)] + Hexes(payload + pad))
  {
    HexTokens(|payload| as byte);
    HexesTokens(payload + pad);
    hide HexToken, Hex2, Hexes;
  }

  lemma FirstTokens(payload: seq<byte>, chunk: seq<byte>)
    requires |payload| <= 4095
    ensures HexLine([Hex2((0x10 + |payload| / 256) as byte), Hex2((|payload| % 256) as byte)] + Hexes(chunk))
  {
    HexTokens((0x10 + |payload| / 256) as byte);
    HexTokens((|payload| % 256) as byte);
    HexesTokens(chunk);
    hide HexToken, Hex2, Hexes;
  }

  lemma ChunkTokens(body: seq<string>, chunk: seq<byte>)
    requires CarriesChunk(body, chunk)
    ensures HexLine(body)
  {
    var n: byte :| 0x20 <= n < 0x30 && body == [Hex2(n)] + Hexes(chunk);
    HexTokens(n);
    HexesTokens(chunk);
    hide HexToken, Hex2, Hexes;
  }

  lemma BodyTokens(r: Reply, j: nat)
    requires r.Valid() && j < |r.Bodies()|
    ensures HexLine(r.Bodies()[j])
  {
    if r.SingleFrame? {
      SingleTokens(r.payload, r.pad);
    } else {
      MultiBodies(r);
      assert |r.payload| <= 4095;
      hide *;
      if j == 0 { FirstTokens(r.payload, r.chunks[0]); } else { ChunkTokens(r.Bodies()[j], r.chunks[j]); }
    }
  }

  lemma BodiesTokens(r: Reply)
    requires r.Valid()
    ensures forall j, k :: 0 <= j < |r.Bodies()| && 0 <= k < |r.Bodies()[j]| ==> HexToken(r.Bodies()[j][k])
  {
    hide HexToken, Reply.Bodies, Reply.Valid;
    forall j, k | 0 <= j < |r.Bodies()| && 0 <= k < |r.Bodies()[j]| ensures HexToken(r.Bodies()[j][k]) {
      BodyTokens(r, j);
    }
  }

  /** The lines controllers send are frame lines. */
  lemma RenderedFrameLines(bus: Bus, wire: seq<Tagged>, replies: map<nat, Reply>)
    requires Interleaves(bus, wire, replies)
    ensures FrameLines(RenderLines(bus, wire))
  {
    hide HexToken, Reply.Bodies, Reply.Valid, Bus.Addresses, Bus.ResponseHeader;
    var lines := RenderLines(bus, wire);
    forall i | 0 <= i < |lines|
      ensures |lines[i]| >= 2 && forall k :: 0 <= k < |lines[i]| ==> HexToken(lines[i][k])
    {
      var r := replies[wire[i].source.id];
      HeaderTokens(bus, wire[i].source.id);
      BodiesTokens(r);
      BodiesMember(wire, i);
      assert wire[i].body in r.Bodies();
      var j :| 0 <= j < |r.Bodies()| && r.Bodies()[j] == wire[i].body;
    }
  }
}
