/** What the accumulator hears of a text that is really sent: its lines in line mode, its reply in prompt mode. */
module StreamText {
  import opened Text
  import opened Sequences
  import opened Accumulator

  predicate Ascii(s: string) {
    forall i :: 0 <= i < |s| ==> s[i] as int < 128
  }

  function Bytes(s: string): (b: seq<byte>)
    requires Ascii(s)
    ensures |b| == |s|
    ensures forall i :: 0 <= i < |s| ==> b[i] as int == s[i] as int
  {
    seq(|s|, i requires 0 <= i < |s| => s[i] as int as byte)
  }

  lemma TextBytes(s: string)
    requires Ascii(s)
    ensures ToText(Bytes(s)) == s
  {
  }

  lemma BytesJoin(s: string, t: string)
    requires Ascii(s) && Ascii(t)
    ensures Ascii(s + t) && Bytes(s + t) == Bytes(s) + Bytes(t)
  {
  }

  // ---------------------------------------------------------------- line mode

  predicate Among(s: string, chars: string) {
    forall i :: 0 <= i < |s| ==> s[i] in chars
  }

  predicate Without(s: string, chars: string) {
    forall i :: 0 <= i < |s| ==> s[i] !in chars
  }

  /** A line on its way: text between blanks, and the carriage returns and line feeds that end it. */
  datatype SentLine = SentLine(lead: string, text: string, trail: string, end: string) {
    ghost predicate Valid() {
      && Ascii(text) && Without(text, "\r\n") && Among(lead, " \t") && Among(trail, " \t")
      && (text != [] ==> text[0] !in " \t" && text[|text| - 1] !in " \t")
      && end != [] && Among(end, "\r\n")
    }

    function Raw(): string {
      lead + text + trail
    }

    function Whole(): string {
      Raw() + end
    }
  }

  lemma BlankAscii(s: string, chars: string)
    requires Among(s, chars) && Ascii(chars)
    ensures Ascii(s)
  {
    forall i | 0 <= i < |s| ensures s[i] as int < 128 {
      var k :| 0 <= k < |chars| && chars[k] == s[i];
    }
  }

  lemma LineAscii(l: SentLine)
    requires l.Valid()
    ensures Ascii(l.Raw()) && Ascii(l.end) && Ascii(l.Whole())
  {
    BlankAscii(l.lead, " \t");
    BlankAscii(l.trail, " \t");
    BlankAscii(l.end, "\r\n");
  }

  function Sent(lines: seq<SentLine>): string {
    if lines == [] then [] else Sent(lines[..|lines| - 1]) + lines[|lines| - 1].Whole()
  }

  /** The texts, without empty lines and bare prompts. */
  function Heard(lines: seq<SentLine>): seq<Event> {
    if lines == [] then []
    else
      var text := lines[|lines| - 1].text;
      Heard(lines[..|lines| - 1]) + if text == "" || text == ">" then [] else [LineEvent(text)]
  }

  lemma BlankChars(c: char)
    ensures IsBlank(c) <==> c in " \t"
  {
    assert c in " \t" <==> c == " \t"[0] || c == " \t"[1];
  }

  lemma EndBytes(b: byte)
    ensures IsTerminator(b) <==> b as int == '\r' as int || b as int == '\n' as int
  {
  }

  lemma {:induction false} TrimLeads(lead: string, rest: string)
    requires Among(lead, " \t")
    ensures TrimBlanks(lead + rest) == TrimBlanks(rest)
  {
    if lead == [] {
      assert lead + rest == rest;
    } else {
      BlankChars(lead[0]);
      assert (lead + rest)[1..] == lead[1..] + rest && (lead + rest)[0] == lead[0];
      TrimLeads(lead[1..], rest);
    }
  }

  lemma {:induction false} TrimTrails(text: string, trail: string)
    requires Among(trail, " \t") && (text != [] ==> text[0] !in " \t" && text[|text| - 1] !in " \t")
    ensures TrimBlanks(text + trail) == text
  {
    if trail == [] {
      assert text + trail == text;
      if text != [] {
        BlankChars(text[0]);
        BlankChars(text[|text| - 1]);
      }
    } else if text == [] {
      TrimLeads(trail, []);
      assert text + trail == trail == trail + [];
    } else {
      var k := |trail| - 1;
      BlankChars(text[0]);
      BlankChars(trail[k]);
      assert (text + trail)[0] == text[0] && (text + trail)[|text + trail| - 1] == trail[k];
      assert (text + trail)[..|text + trail| - 1] == text + trail[..k];
      TrimTrails(text, trail[..k]);
    }
  }

  lemma LineHeard(l: SentLine)
    requires l.Valid() && Ascii(l.Raw())
    ensures LineOf(Bytes(l.Raw())) == if l.text == "" || l.text == ">" then [] else [LineEvent(l.text)]
  {
    TextBytes(l.Raw());
    assert l.Raw() == l.lead + (l.text + l.trail);
    TrimLeads(l.lead, l.text + l.trail);
    TrimTrails(l.text, l.trail);
    hide TrimBlanks, ToText;
  }

  // Bytes without a terminator are one unfinished line.
  lemma {:induction false} Unfinished(bytes: seq<byte>)
    requires forall i :: 0 <= i < |bytes| ==> !IsTerminator(bytes[i])
    ensures Tail(bytes) == bytes && LinesOf(bytes) == []
  {
    hide IsTerminator, LineOf;
    if bytes != [] { Unfinished(bytes[..|bytes| - 1]); }
  }

  // After a line, further terminators complete nothing.
  lemma {:induction false} EndsLine(raw: seq<byte>, end: seq<byte>)
    requires (forall i :: 0 <= i < |raw| ==> !IsTerminator(raw[i]))
    requires end != [] && forall i :: 0 <= i < |end| ==> IsTerminator(end[i])
    ensures Tail(raw + end) == [] && LinesOf(raw + end) == LineOf(raw)
  {
    hide IsTerminator, LineOf;
    var k := |end| - 1;
    assert (raw + end)[..|raw + end| - 1] == raw + end[..k] && (raw + end)[|raw + end| - 1] == end[k];
    if k == 0 {
      assert raw + end[..k] == raw;
      Unfinished(raw);
    } else {
      EndsLine(raw, end[..k]);
      NoLine();
    }
  }

  lemma NoLine()
    ensures LineOf([]) == []
  {
    TextBytes("");
    assert ToText([]) == "";
  }

  lemma LineEnds(l: SentLine)
    requires l.Valid() && Ascii(l.Raw()) && Ascii(l.end)
    ensures forall i :: 0 <= i < |l.Raw()| ==> !IsTerminator(Bytes(l.Raw())[i])
    ensures forall i :: 0 <= i < |l.end| ==> IsTerminator(Bytes(l.end)[i])
  {
    forall i | 0 <= i < |l.Raw()| ensures !IsTerminator(Bytes(l.Raw())[i]) {
      var c := l.Raw()[i];
      assert c in l.lead || c in l.text || c in l.trail;
      assert c !in "\r\n";
      assert c != "\r\n"[0] && c != "\r\n"[1];
    }
    forall i | 0 <= i < |l.end| ensures IsTerminator(Bytes(l.end)[i]) {
      assert l.end[i] == "\r\n"[0] || l.end[i] == "\r\n"[1];
    }
  }

  lemma {:induction false} SentAscii(lines: seq<SentLine>)
    requires forall i :: 0 <= i < |lines| ==> lines[i].Valid()
    ensures Ascii(Sent(lines))
  {
    if lines != [] {
      SentAscii(lines[..|lines| - 1]);
      LineAscii(lines[|lines| - 1]);
    }
  }

  // One more line on a stream that ended its last one.
  lemma LineMore(before: seq<byte>, l: SentLine)
    requires l.Valid() && Ascii(l.Raw()) && Ascii(l.end) && Ascii(l.Whole()) && Tail(before) == []
    ensures Tail(before + Bytes(l.Whole())) == []
    ensures LinesOf(before + Bytes(l.Whole())) == LinesOf(before) + LineOf(Bytes(l.Raw()))
  {
    LineEnds(l);
    assert l.end != [] && l.Whole() == l.Raw() + l.end;
    hide *;
    BytesJoin(l.Raw(), l.end);
    assert Bytes(l.end) != [];
    EndsLine(Bytes(l.Raw()), Bytes(l.end));
    LinesAppend(before, Bytes(l.Whole()));
    TailAppend(before, Bytes(l.Whole()));
    assert [] + Bytes(l.Whole()) == Bytes(l.Whole());
  }

  lemma SentLast(lines: seq<SentLine>)
    requires lines != []
    ensures
      var k := |lines| - 1;
      var text := lines[k].text;
      && Sent(lines) == Sent(lines[..k]) + lines[k].Whole()
      && Heard(lines) == Heard(lines[..k]) + if text == "" || text == ">" then [] else [LineEvent(text)]
  {
  }

  lemma NothingSent()
    ensures Ascii(Sent([])) && Tail(Bytes(Sent([]))) == [] && LinesOf(Bytes(Sent([]))) == Heard([])
  {
    NothingFed();
    assert Bytes("") == [];
  }

  lemma {:induction false} SentHeard(lines: seq<SentLine>)
    requires (forall i :: 0 <= i < |lines| ==> lines[i].Valid()) && Ascii(Sent(lines))
    ensures Tail(Bytes(Sent(lines))) == [] && LinesOf(Bytes(Sent(lines))) == Heard(lines)
  {
    hide *;
    if lines == [] {
      NothingSent();
    } else {
      var k := |lines| - 1;
      SentAscii(lines[..k]);
      SentHeard(lines[..k]);
      LineAscii(lines[k]);
      LineHeard(lines[k]);
      SentLast(lines);
      LineMore(Bytes(Sent(lines[..k])), lines[k]);
      BytesJoin(Sent(lines[..k]), lines[k].Whole());
    }
  }

  /**
   Line mode hears what is sent: lines of text ended by carriage returns and line feeds, however the transport
   cuts the bytes, come out as their texts in order, without surrounding blanks, empty lines and bare prompts.
   */
  lemma LinesHeard(chunks: seq<seq<byte>>, lines: seq<SentLine>)
    requires (forall i :: 0 <= i < |lines| ==> lines[i].Valid()) && Ascii(Sent(lines))
    requires Flatten(chunks) == Bytes(Sent(lines))
    ensures FeedAll(Acc(Line, []), chunks) == (Acc(Line, []), Heard(lines))
  {
    ChunksAgree(chunks);
    SentHeard(lines);
    hide *;
  }

  // ---------------------------------------------------------------- prompt mode

  /**
   Prompt mode hears a reply: text and then the prompt sign, however it is cut, is one event with the trimmed
   text, or a dropped prompt if there is none.
   */
  lemma ReplyHeard(chunks: seq<seq<byte>>, text: string)
    requires Ascii(text) && Without(text, ">") && Ascii(text + ">") && Flatten(chunks) == Bytes(text + ">")
    ensures FeedAll(Acc(Prompt, []), chunks) ==
            (Acc(Prompt, []), [if Trim(text) == "" then Dropped else Response(Trim(text))])
  {
    BytesJoin(text, ">");
    TextBytes(text);
    assert Bytes(">") == [PROMPT];
    forall i | 0 <= i < |text| ensures Bytes(text)[i] != PROMPT { assert text[i] != ">"[0]; }
    hide Trim, ToText, Bytes;
    PromptOnce(chunks, Bytes(text));
  }
}
