/** The adapter's status lines: which there are, what verdict each gives, and that none carries data. */
module StatusLines {
  import opened Wrappers
  import opened Text
  import opened Addressing
  import opened IsoTp
  import opened ElmWire

  /** What an adapter prints instead of a reply. */
  const ADAPTER_LINES := {
    "NO DATA", "CAN ERROR", "DATA ERROR", "<DATA ERROR", "<RX ERROR", "BUS BUSY", "BUS ERROR", "BUFFER FULL",
    "STOPPED", "FC RX TIMEOUT", "UNABLE TO CONNECT", "LV RESET", "ACT ALERT", "LP ALERT", "UART RX OVERFLOW",
    "OUT OF MEMORY"}

  /** A line's code: its words joined by underscores, without the mark of a bad frame. */
  function Underscored(line: string): (code: string) {
    var words := if line != [] && line[0] == '<' then line[1..] else line;
    seq(|words|, i requires 0 <= i < |words| => if words[i] == ' ' then '_' else words[i])
  }

  lemma CodesOne()
    ensures Underscored("NO DATA") == "NO_DATA" && Underscored("CAN ERROR") == "CAN_ERROR"
    ensures Underscored("DATA ERROR") == "DATA_ERROR" && Underscored("<DATA ERROR") == "DATA_ERROR"
    ensures Underscored("<RX ERROR") == "RX_ERROR" && Underscored("BUS BUSY") == "BUS_BUSY"
  {
    assert "<DATA ERROR"[1..] == "DATA ERROR" && "<RX ERROR"[1..] == "RX ERROR";
  }

  lemma CodesTwo()
    ensures Underscored("BUS ERROR") == "BUS_ERROR" && Underscored("BUFFER FULL") == "BUFFER_FULL"
    ensures Underscored("STOPPED") == "STOPPED" && Underscored("FC RX TIMEOUT") == "FC_RX_TIMEOUT"
    ensures Underscored("UNABLE TO CONNECT") == "UNABLE_TO_CONNECT" && Underscored("LV RESET") == "LV_RESET"
  {
  }

  lemma CodesThree()
    ensures Underscored("ACT ALERT") == "ACT_ALERT" && Underscored("LP ALERT") == "LP_ALERT"
    ensures Underscored("UART RX OVERFLOW") == "UART_RX_OVERFLOW" && Underscored("OUT OF MEMORY") == "OUT_OF_MEMORY"
  {
  }

  /** Exactly these lines have a code, and it is their own text. */
  lemma CodeExact(line: string)
    ensures AdapterCode(line) == if line in ADAPTER_LINES then Some(Underscored(line)) else None
  {
    CodesOne();
    CodesTwo();
    CodesThree();
    hide Underscored;
  }

  // ---------------------------------------------------------------- the verdict on a status

  // Capitals, blanks and the mark of a bad frame, and none of the adapter's other words.
  predicate StatusLike(line: string) {
    && |line| >= 7 && !IsSpace(line[0]) && !IsSpace(line[|line| - 1])
    && (forall i :: 0 <= i < |line| ==> 'A' <= line[i] <= 'Z' || line[i] == ' ' || line[i] == '<')
    && !(line[0] == 'S' && line[1] == 'E') && !(line[0] == 'E' && line[1] == 'L')
    && !(line[0] == 'S' && line[1] == 'T' && line[2] == 'N')
  }

  lemma LinesOne(line: string)
    requires line in {"NO DATA", "CAN ERROR", "DATA ERROR", "<DATA ERROR"}
    ensures StatusLike(line)
  {
  }

  lemma LinesTwo(line: string)
    requires line in {"<RX ERROR", "BUS BUSY", "BUS ERROR", "BUFFER FULL"}
    ensures StatusLike(line)
  {
  }

  lemma LinesThree(line: string)
    requires line in {"STOPPED", "FC RX TIMEOUT", "UNABLE TO CONNECT", "LV RESET"}
    ensures StatusLike(line)
  {
  }

  lemma LinesFour(line: string)
    requires line in {"ACT ALERT", "LP ALERT", "UART RX OVERFLOW", "OUT OF MEMORY"}
    ensures StatusLike(line)
  {
  }

  lemma AllStatusLike(line: string)
    requires line in ADAPTER_LINES
    ensures StatusLike(line)
  {
    hide StatusLike;
    if line in {"NO DATA", "CAN ERROR", "DATA ERROR", "<DATA ERROR"} {
      LinesOne(line);
    } else if line in {"<RX ERROR", "BUS BUSY", "BUS ERROR", "BUFFER FULL"} {
      LinesTwo(line);
    } else if line in {"STOPPED", "FC RX TIMEOUT", "UNABLE TO CONNECT", "LV RESET"} {
      LinesThree(line);
    } else {
      LinesFour(line);
    }
  }

  lemma PlainStatus(line: string)
    requires StatusLike(line)
    ensures Trim(line) == line && Upper(line) == line && Normalize(line) == line && Free(line, '\n')
    ensures line != "OK" && line != "?" && !("SEARCHING" <= line) && !("ELM327" <= line) && !("STN" <= line)
  {
    TrimTrimmed(line);
    forall i | 0 <= i < |line| ensures line[i] != '\r' && line[i] != '\n' && UpperChar(line[i]) == line[i] {
      assert 'A' <= line[i] <= 'Z' || line[i] == ' ' || line[i] == '<';
    }
    hide Trim;
  }

  function StatusOf(line: string): LinkStatus {
    if line == "NO DATA" then NoData else if line == "STOPPED" then Stopped else AdapterError(Underscored(line))
  }

  lemma LineClass(line: string)
    requires line in ADAPTER_LINES
    ensures ClassifyLine(line) == Some(StatusOf(line)) && IsNonData(line)
  {
    AllStatusLike(line);
    PlainStatus(line);
    CodeExact(line);
    hide AdapterCode, Upper, Trim, Underscored, Normalize, StatusLike;
  }

  lemma TextClass(line: string)
    requires line in ADAPTER_LINES
    ensures ClassifyText(line) == StatusOf(line)
  {
    AllStatusLike(line);
    PlainStatus(line);
    LineClass(line);
    hide ClassifyLine, StatusOf, Normalize, Trim, Upper, StatusLike;
    SplitFree(line, '\n');
    hide Text.Split;
    FirstOfOne(line);
  }

  lemma FirstOfOne(line: string)
    requires Trim(line) == line && line != [] && !("SEARCHING" <= line) && ClassifyLine(line).Some?
    ensures FirstStatus([line]) == ClassifyLine(line).value
  {
    hide ClassifyLine, Trim;
  }

  /** A status line in place of a reply: decoding goes on, hands over no payload, and gives the line's verdict. */
  lemma StatusExact(command: string, line: string, bus: Bus, reply: Result<LinkReply, Fault>)
    requires line in ADAPTER_LINES && SegmentTo(command, line, bus, reply)
    ensures reply.Success? && reply.value.payloads == [] && reply.value.status == StatusOf(line)
  {
    TextClass(line);
    LineClass(line);
    hide ClassifyText, Contains, StatusOf, IsNonData;
  }

  /** What an adapter says of itself is chatter: an acknowledgement, a question mark, its name. */
  lemma ChatterExact(rest: string)
    requires Trimmed("ELM327" + rest) && Trimmed("STN" + rest)
    ensures ClassifyLine("OK") == ClassifyLine("?") == Some(Chatter)
    ensures ClassifyLine("ELM327" + rest) == ClassifyLine("STN" + rest) == Some(Chatter)
  {
    TrimTrimmed("OK");
    TrimTrimmed("?");
    TrimTrimmed("ELM327" + rest);
    TrimTrimmed("STN" + rest);
    assert ("ELM327" + rest)[0] == 'E' && ("STN" + rest)[1] == 'T';
    hide AdapterCode, Trim, Upper;
  }

  lemma BareErrors(line: string)
    requires line in {"ERROR", "FB ERROR", "BUS INIT: ...ERROR"}
    ensures Trimmed(line) && Upper(line) == line
  {
    forall i | 0 <= i < |line| ensures UpperChar(line[i]) == line[i] {
      assert line[i] in "ABEFINORSTU :.";
    }
  }

  lemma NoAdapterLine(line: string)
    requires line in {"ERROR", "FB ERROR", "BUS INIT: ...ERROR"}
    ensures line !in ADAPTER_LINES && line != "OK" && line != "?"
    ensures !("SEARCHING" <= line) && !("ELM327" <= line) && !("STN" <= line)
  {
    Differ("SEARCHING", line, 0);
    Differ("STN", line, 0);
    Differ("ELM327", line, 1);
  }

  lemma Differ(x: string, y: string, i: nat)
    requires i < |x| && i < |y| && x[i] != y[i]
    ensures !(x <= y)
  {
  }

  /** The verdicts that name no code of their own: a start of the bus that failed, and a bare error. */
  lemma ErrorExact(line: string)
    requires line in {"ERROR", "FB ERROR", "BUS INIT: ...ERROR"}
    ensures ClassifyLine(line) == Some(AdapterError("ERROR"))
  {
    BareErrors(line);
    NoAdapterLine(line);
    TrimTrimmed(line);
    CodeExact(line);
    hide AdapterCode, Trim, Upper;
  }

  // ---------------------------------------------------------------- the veto on a whole reply

  ghost predicate Stands(pattern: string, s: string) {
    exists lead: string, trail: string :: s == lead + pattern + trail
  }

  lemma StandsTail(pattern: string, s: string)
    requires s != []
    ensures Stands(pattern, s) <==> pattern <= s || Stands(pattern, s[1..])
  {
    if pattern <= s { assert s == "" + pattern + s[|pattern|..]; }
    if Stands(pattern, s[1..]) {
      var lead: string, trail: string :| s[1..] == lead + pattern + trail;
      assert s == ([s[0]] + lead) + pattern + trail;
    }
    if Stands(pattern, s) {
      var lead: string, trail: string :| s == lead + pattern + trail;
      assert lead == [] ==> s == pattern + trail;
      if lead != [] { assert s[1..] == lead[1..] + pattern + trail; }
    }
  }

  /** The search finds one text wherever it stands in another. */
  lemma {:induction false} ContainsExact(s: string, pattern: string)
    ensures Contains(s, pattern) <==> Stands(pattern, s)
    decreases |s|
  {
    hide Stands;
    if s != [] {
      StandsTail(pattern, s);
      ContainsExact(s[1..], pattern);
    } else {
      NothingStands(pattern);
    }
  }

  lemma NothingStands(pattern: string)
    ensures Stands(pattern, "") <==> pattern == ""
  {
    if pattern == "" { assert "" == "" + pattern + ""; }
    forall lead: string, trail: string | pattern != "" ensures "" != lead + pattern + trail {
      assert |lead + pattern + trail| >= |pattern|;
    }
  }

  /** A reply is marked faulty exactly when NO DATA or ERROR stands anywhere in its text, data or not. */
  lemma FaultyExact(command: string, text: string, bus: Bus, reply: Result<LinkReply, Fault>)
    requires SegmentTo(command, text, bus, reply) && reply.Success?
    ensures reply.value.faulted <==> Stands("NO DATA", text) || Stands("ERROR", text)
  {
    ContainsExact(text, "NO DATA");
    ContainsExact(text, "ERROR");
    hide Contains, Stands, PayloadsTo, ClassifyText;
  }
}
