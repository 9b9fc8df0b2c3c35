/**
 Bytes to replies and monitor lines. In line mode only the text decides the lines, not how the transport cut
 it; in prompt mode a reply with one final prompt is one event however it arrives.
 */
module Accumulator {
  import opened Text
  import opened Sequences

  const CR: byte := 0x0D
  const LF: byte := 0x0A
  const PROMPT: byte := 0x3E

  datatype Mode = Prompt | Line

  datatype Event = Response(text: string) | LineEvent(line: string) | Dropped

  // ASCII bytes are themselves, others a question mark.
  function ToText(bytes: seq<byte>): (s: string)
    ensures |s| == |bytes|
  {
    seq(|bytes|, i requires 0 <= i < |bytes| => if bytes[i] < 128 then (bytes[i] as int) as char else '?')
  }

  predicate IsTerminator(b: byte) { b == CR || b == LF }

  // ---------------------------------------------------------------- lines

  predicate IsBlank(c: char) { c == ' ' || c == '\t' }

  function TrimBlanks(s: string): string
    decreases |s|
  {
    if s != [] && IsBlank(s[0]) then TrimBlanks(s[1..])
    else if s != [] && IsBlank(s[|s| - 1]) then TrimBlanks(s[..|s| - 1])
    else s
  }

  // Empty lines and bare prompts are noise.
  function LineOf(raw: seq<byte>): seq<Event> {
    var line := TrimBlanks(ToText(raw));
    if line == [] || line == ">" then [] else [LineEvent(line)]
  }

  /** The unfinished line: the bytes after the last terminator. */
  function Tail(bytes: seq<byte>): (t: seq<byte>)
    ensures |t| <= |bytes|
  {
    if bytes == [] || IsTerminator(bytes[|bytes| - 1]) then []
    else Tail(bytes[..|bytes| - 1]) + [bytes[|bytes| - 1]]
  }

  /** The lines that `bytes` complete: one decision at each terminator. */
  function LinesOf(bytes: seq<byte>): seq<Event> {
    if bytes == [] then []
    else
      var before, last := bytes[..|bytes| - 1], bytes[|bytes| - 1];
      if IsTerminator(last) then LinesOf(before) + LineOf(Tail(before)) else LinesOf(before)
  }

  lemma {:induction false} TailAppend(x: seq<byte>, y: seq<byte>)
    ensures Tail(Tail(x) + y) == Tail(x + y)
  {
    hide IsTerminator;
    if y == [] {
      assert x + y == x && Tail(x) + y == Tail(x);
      TailTail(x);
    } else {
      var k := |y| - 1;
      assert (x + y)[..|x + y| - 1] == x + y[..k];
      assert (Tail(x) + y)[..|Tail(x) + y| - 1] == Tail(x) + y[..k];
      TailAppend(x, y[..k]);
    }
  }

  lemma {:induction false} TailTail(x: seq<byte>)
    ensures Tail(Tail(x)) == Tail(x) && LinesOf(Tail(x)) == []
  {
    hide IsTerminator, LineOf;
    if x != [] && !IsTerminator(x[|x| - 1]) {
      var k := |x| - 1;
      TailTail(x[..k]);
      assert Tail(x)[..|Tail(x)| - 1] == Tail(x[..k]);
    }
  }

  /** Feeding `y` after `x` completes exactly the lines of the whole that `x` did not. */
  lemma {:induction false} LinesAppend(x: seq<byte>, y: seq<byte>)
    ensures LinesOf(x + y) == LinesOf(x) + LinesOf(Tail(x) + y)
  {
    hide IsTerminator, LineOf;
    if y == [] {
      assert x + y == x && Tail(x) + y == Tail(x);
      TailTail(x);
    } else {
      var k := |y| - 1;
      assert (x + y)[..|x + y| - 1] == x + y[..k];
      assert (Tail(x) + y)[..|Tail(x) + y| - 1] == Tail(x) + y[..k];
      LinesAppend(x, y[..k]);
      TailAppend(x, y[..k]);
    }
  }

  // ---------------------------------------------------------------- prompts

  function LastPrompt(bytes: seq<byte>): (n: nat)
    ensures n <= |bytes|
    ensures n > 0 ==> bytes[n - 1] == PROMPT
    ensures forall i :: n <= i < |bytes| ==> bytes[i] != PROMPT
  {
    if bytes == [] then 0
    else if bytes[|bytes| - 1] == PROMPT then |bytes|
    else LastPrompt(bytes[..|bytes| - 1])
  }

  function ReplyOf(text: string): Event {
    if Trim(text) == [] then Dropped else Response(Trim(text))
  }

  // ---------------------------------------------------------------- feeding

  datatype Acc = Acc(mode: Mode, buffer: seq<byte>)

  /** One chunk: the events it completes and what stays buffered. A prompt clears everything, bytes after it too. */
  function Feed(a: Acc, data: seq<byte>): (Acc, seq<Event>) {
    var all := a.buffer + data;
    match a.mode
    case Line => (Acc(Line, Tail(all)), LinesOf(all))
    case Prompt =>
      var n := LastPrompt(all);
      if n == 0 then (Acc(Prompt, all), []) else (Acc(Prompt, []), [ReplyOf(ToText(all[..n - 1]))])
  }

  function FeedAll(a: Acc, chunks: seq<seq<byte>>): (Acc, seq<Event>) {
    if chunks == [] then (a, [])
    else
      var (before, events) := FeedAll(a, chunks[..|chunks| - 1]);
      var (after, more) := Feed(before, chunks[|chunks| - 1]);
      (after, events + more)
  }

  /**
   Line mode does not depend on chunking: any chunks of a byte stream give the lines of the whole stream, and
   the buffer always holds exactly what follows the last terminator.
   */
  lemma {:induction false} ChunksAgree(chunks: seq<seq<byte>>)
    ensures FeedAll(Acc(Line, []), chunks) == (Acc(Line, Tail(Flatten(chunks))), LinesOf(Flatten(chunks)))
  {
    hide Tail, LinesOf;
    if chunks == [] {
      NothingFed();
    } else {
      var k := |chunks| - 1;
      ChunksAgree(chunks[..k]);
      LinesAppend(Flatten(chunks[..k]), chunks[k]);
      TailAppend(Flatten(chunks[..k]), chunks[k]);
    }
  }

  lemma NothingFed()
    ensures Tail([]) == [] && LinesOf([]) == []
  {
  }

  lemma FeedStep(a: Acc, chunks: seq<seq<byte>>)
    requires chunks != []
    ensures
      var before := FeedAll(a, chunks[..|chunks| - 1]);
      var after := Feed(before.0, chunks[|chunks| - 1]);
      FeedAll(a, chunks) == (after.0, before.1 + after.1)
  {
    hide Feed;
  }

  predicate NoPrompt(bytes: seq<byte>) {
    forall i :: 0 <= i < |bytes| ==> bytes[i] != PROMPT
  }

  lemma {:induction false} PromptBuffers(chunks: seq<seq<byte>>)
    requires NoPrompt(Flatten(chunks))
    ensures FeedAll(Acc(Prompt, []), chunks) == (Acc(Prompt, Flatten(chunks)), [])
  {
    if chunks != [] {
      var k := |chunks| - 1;
      assert forall i :: 0 <= i < |Flatten(chunks[..k])| ==> Flatten(chunks)[i] == Flatten(chunks[..k])[i];
      PromptBuffers(chunks[..k]);
      FeedStep(Acc(Prompt, []), chunks);
      assert LastPrompt(Flatten(chunks)) == 0;
      assert Feed(Acc(Prompt, Flatten(chunks[..k])), chunks[k]) == (Acc(Prompt, Flatten(chunks)), []);
      var none: seq<Event> := [];
      assert none + none == none;
    }
  }

  /**
   A reply that ends in its only prompt is exactly one event, whatever chunks it comes in: its trimmed text,
   or a dropped stale prompt. Empty chunks after the prompt change nothing.
   */
  lemma {:induction false} PromptOnce(chunks: seq<seq<byte>>, body: seq<byte>)
    requires Flatten(chunks) == body + [PROMPT] && NoPrompt(body)
    ensures FeedAll(Acc(Prompt, []), chunks) == (Acc(Prompt, []), [ReplyOf(ToText(body))])
  {
    hide ReplyOf, ToText, LastPrompt;
    var k := |chunks| - 1;
    var before, last := Flatten(chunks[..k]), chunks[k];
    FeedStep(Acc(Prompt, []), chunks);
    if last == [] {
      assert Flatten(chunks[..k]) == body + [PROMPT];
      PromptOnce(chunks[..k], body);
      assert [] + last == [] && LastPrompt([]) == 0;
      assert Feed(Acc(Prompt, []), last) == (Acc(Prompt, []), []);
      assert [ReplyOf(ToText(body))] + [] == [ReplyOf(ToText(body))];
    } else {
      assert last[|last| - 1] == (body + [PROMPT])[|body|] == PROMPT;
      assert before == (body + [PROMPT])[..|before|] == body[..|before|];
      PromptBuffers(chunks[..k]);
      var all := before + last;
      assert all == body + [PROMPT];
      PromptAtEnd(all);
      assert all[..|all| - 1] == body;
      assert Feed(Acc(Prompt, before), last) == (Acc(Prompt, []), [ReplyOf(ToText(body))]);
      assert [] + [ReplyOf(ToText(body))] == [ReplyOf(ToText(body))];
    }
  }

  lemma PromptAtEnd(bytes: seq<byte>)
    requires bytes != [] && bytes[|bytes| - 1] == PROMPT
    ensures LastPrompt(bytes) == |bytes|
  {
  }

  lemma {:induction false} CutAtLast(bytes: seq<byte>, last: nat)
    requires last <= |bytes| && (last > 0 ==> IsTerminator(bytes[last - 1]))
    requires forall i :: last <= i < |bytes| ==> !IsTerminator(bytes[i])
    ensures Tail(bytes) == bytes[last..] && LinesOf(bytes) == LinesOf(bytes[..last])
  {
    hide IsTerminator, LineOf;
    if last == |bytes| {
      assert bytes[..last] == bytes;
    } else {
      var k := |bytes| - 1;
      CutAtLast(bytes[..k], last);
      assert bytes[..k][..last] == bytes[..last];
      assert bytes[last..] == bytes[..k][last..] + [bytes[k]];
      assert !IsTerminator(bytes[k]);
    }
  }

  class ResponseAccumulator {
    var buffer: seq<byte>
    var mode: Mode

    function Now(): Acc
      reads this
    {
      Acc(mode, buffer)
    }

    constructor ()
      ensures Now() == Acc(Prompt, [])
    {
      buffer, mode := [], Prompt;
    }

    /** A half-formed reply does not leak into the other mode. */
    method SetMode(m: Mode)
      modifies this
      ensures Now() == Acc(m, [])
    {
      mode, buffer := m, [];
    }

    method FeedBytes(data: seq<byte>) returns (events: seq<Event>)
      modifies this
      ensures (Now(), events) == Feed(old(Now()), data)
    {
      buffer := buffer + data;
      match mode {
        case Prompt => events := DrainPrompt();
        case Line => events := DrainLines();
      }
    }

    method DrainPrompt() returns (events: seq<Event>)
      requires mode == Prompt
      modifies this`buffer
      ensures LastPrompt(old(buffer)) == 0 ==> buffer == old(buffer) && events == []
      ensures LastPrompt(old(buffer)) > 0 ==>
                buffer == [] && events == [ReplyOf(ToText(old(buffer)[..LastPrompt(old(buffer)) - 1]))]
    {
      hide ToText, Trim, LastPrompt;
      var i: nat := |buffer|;
      while i > 0 && buffer[i - 1] != PROMPT
        invariant i <= |buffer| && forall k :: i <= k < |buffer| ==> buffer[k] != PROMPT
      {
        i := i - 1;
      }
      assert LastPrompt(buffer) == i;
      if i == 0 {
        return [];
      }
      var response := Trim(ToText(buffer[..i - 1]));
      buffer := [];
      events := [if response == [] then Dropped else Response(response)];
    }

    // Cut after the last terminator, then decide piece by piece.
    method DrainLines() returns (events: seq<Event>)
      requires mode == Line
      modifies this`buffer
      ensures buffer == Tail(old(buffer)) && events == LinesOf(old(buffer))
    {
      var last: nat := |buffer|;
      while last > 0 && !IsTerminator(buffer[last - 1])
        invariant last <= |buffer| && forall i :: last <= i < |buffer| ==> !IsTerminator(buffer[i])
      {
        last := last - 1;
      }
      CutAtLast(buffer, last);
      if last == 0 {
        assert buffer[..0] == [] && LinesOf([]) == [];
        return [];
      }
      var complete := buffer[..last];
      buffer := buffer[last..];
      events := CompleteLines(complete);
    }

    static method CompleteLines(complete: seq<byte>) returns (events: seq<Event>)
      ensures events == LinesOf(complete)
    {
      hide LineOf, IsTerminator;
      var i: nat, start: nat := 0, 0;
      events := [];
      assert complete[..0] == [] && complete[0..0] == [];
      while i < |complete|
        invariant start <= i <= |complete|
        invariant events == LinesOf(complete[..i]) && complete[start..i] == Tail(complete[..i])
      {
        assert complete[..i + 1][..i] == complete[..i];
        if IsTerminator(complete[i]) {
          events := events + LineOf(complete[start..i]);
          start := i + 1;
          assert complete[i + 1..i + 1] == [];
        } else {
          assert complete[start..i + 1] == complete[start..i] + [complete[i]];
        }
        i := i + 1;
      }
      assert complete[..|complete|] == complete;
    }

    method Reset()
      modifies this`buffer
      ensures Now() == old(Now()).(buffer := [])
    {
      buffer := [];
    }
  }
}
