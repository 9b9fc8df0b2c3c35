/** What ECUs put on the bus, and the proof that framing returns exactly their payloads. */
module IsoTpRoundTrip {
  import opened Wrappers
  import opened Text
  import opened Addressing
  import opened Sequences
  import opened IsoTp

  function Hexes(bytes: seq<byte>): (tokens: seq<string>)
    ensures |tokens| == |bytes|
    ensures forall i :: 0 <= i < |bytes| ==> tokens[i] == Hex2(bytes[i])
  {
    seq(|bytes|, i requires 0 <= i < |bytes| => Hex2(bytes[i]))
  }

  lemma UppersHexes(bytes: seq<byte>)
    ensures Uppers(Hexes(bytes)) == Hexes(bytes)
  {
  }

  /**
   One controller's reply: a single frame, or a first frame and consecutive frames carrying the padded
   payload in `chunks`. Padding bytes are arbitrary. Sequence numbers are too: framing ignores them.
   */
  datatype Reply =
    | SingleFrame(payload: seq<byte>, pad: seq<byte>)
    | MultiFrame(payload: seq<byte>, pad: seq<byte>, chunks: seq<seq<byte>>, numbers: seq<nat>)
  {
    ghost predicate Valid() {
      match this
      case SingleFrame(_, _) => 1 <= |payload| && |payload| + |pad| <= 7
      case MultiFrame(_, _, _, _) =>
        && 1 <= |payload| <= 4095
        && |chunks| >= 2 && |numbers| == |chunks| && (forall i :: 0 <= i < |numbers| ==> numbers[i] < 16)
        && Flatten(chunks) == payload + pad
    }

    /** The tokens of each frame after the header, in sending order. */
    function Bodies(): (bodies: seq<seq<string>>)
      requires Valid()
      ensures SingleFrame? ==> |bodies| == 1
      ensures MultiFrame? ==> |bodies| == |chunks|
      ensures forall i :: 0 <= i < |bodies| ==> bodies[i] != []
    {
      match this
      case SingleFrame(_, _) => [[Hex2(|payload| as byte)] + Hexes(payload + pad)]
      case MultiFrame(_, _, _, _) =>
        [[Hex2((0x10 + |payload| / 256) as byte), Hex2((|payload| % 256) as byte)] + Hexes(chunks[0])] +
        seq(|chunks| - 1, i requires 0 <= i < |chunks| - 1 => [Hex2((0x20 + numbers[i + 1]) as byte)] +
            Hexes(chunks[i + 1]))
    }
  }

  lemma StripSingle(payload: seq<byte>, pad: seq<byte>)
    requires 1 <= |payload| && |payload| + |pad| <= 7
    ensures StripPci(Uppers([Hex2(|payload| as byte)] + Hexes(payload + pad))) == Hexes(payload)
  {
    var tokens := [Hex2(|payload| as byte)] + Hexes(payload + pad);
    Hex2Value(|payload| as byte);
    assert Uppers(tokens) == tokens;
    assert tokens[1..] == Hexes(payload + pad);
    assert Hexes(payload + pad)[..|payload|] == Hexes(payload);
  }

  ghost predicate CarriesChunk(body: seq<string>, chunk: seq<byte>) {
    exists n: byte :: 0x20 <= n < 0x30 && body == [Hex2(n)] + Hexes(chunk)
  }

  lemma CarriedData(body: seq<string>, chunk: seq<byte>)
    requires CarriesChunk(body, chunk)
    ensures ConsecutiveData(body) == Hexes(chunk)
  {
    var n: byte :| 0x20 <= n < 0x30 && body == [Hex2(n)] + Hexes(chunk);
    Hex2Value(n);
    UppersHexes(chunk);
    hide ParseU8, Hex2;
    assert body[1..] == Hexes(chunk);
  }

  lemma {:induction false} ConsecutiveChunks(chunks: seq<seq<byte>>, bodies: seq<seq<string>>)
    requires |bodies| == |chunks|
    requires forall i :: 0 <= i < |bodies| ==> CarriesChunk(bodies[i], chunks[i])
    ensures AllConsecutive(bodies) == Hexes(Flatten(chunks))
  {
    hide CarriesChunk, ConsecutiveData, Hex2;
    if chunks != [] {
      var k := |chunks| - 1;
      ConsecutiveChunks(chunks[..k], bodies[..k]);
      CarriedData(bodies[k], chunks[k]);
      FlattenLast(chunks);
      assert Hexes(Flatten(chunks)) == Hexes(Flatten(chunks[..k])) + Hexes(chunks[k]);
    }
  }

  lemma FirstFrameLength(payload: seq<byte>, chunk: seq<byte>)
    requires |payload| <= 4095
    ensures
      var body := [Hex2((0x10 + |payload| / 256) as byte), Hex2((|payload| % 256) as byte)] + Hexes(chunk);
      IsFirstFrame(body[0]) && DeclaredLength(body) == |payload| && Uppers(body[2..]) == Hexes(chunk)
  {
    Hex2Value((0x10 + |payload| / 256) as byte);
    Hex2Value((|payload| % 256) as byte);
    UppersHexes(chunk);
    hide ParseU8, Hex2;
    var body := [Hex2((0x10 + |payload| / 256) as byte), Hex2((|payload| % 256) as byte)] + Hexes(chunk);
    assert body[2..] == Hexes(chunk);
  }

  lemma FirstFrameStarts(bodies: seq<seq<string>>, payload: seq<byte>, chunk: seq<byte>)
    requires |payload| <= 4095 && |bodies| >= 2
    requires bodies[0] == [Hex2((0x10 + |payload| / 256) as byte), Hex2((|payload| % 256) as byte)] + Hexes(chunk)
    ensures StartsMessage(bodies) && |bodies[0]| >= 2 && DeclaredLength(bodies[0]) == |payload|
    ensures Uppers(bodies[0][2..]) == Hexes(chunk)
  {
    FirstFrameLength(payload, chunk);
    hide Hex2, Hexes, Uppers, DeclaredLength, IsFirstFrame;
  }

  // The bodies of a multi-frame reply, one by one.
  lemma MultiBodies(r: Reply)
    requires r.Valid() && r.MultiFrame?
    ensures |r.payload| <= 4095 && |r.Bodies()| == |r.chunks| >= 2
    ensures r.Bodies()[0] ==
            [Hex2((0x10 + |r.payload| / 256) as byte), Hex2((|r.payload| % 256) as byte)] + Hexes(r.chunks[0])
    ensures forall i :: 0 < i < |r.chunks| ==> CarriesChunk(r.Bodies()[i], r.chunks[i])
  {
    hide Hex2, Hexes;
    forall i | 0 < i < |r.chunks| ensures CarriesChunk(r.Bodies()[i], r.chunks[i]) {
      assert r.Bodies()[i] == [Hex2((0x20 + r.numbers[i]) as byte)] + Hexes(r.chunks[i]);
    }
  }

  lemma PayloadChunks(r: Reply)
    requires r.Valid() && r.MultiFrame?
    ensures
      var data := Hexes(r.chunks[0]) + Hexes(Flatten(r.chunks[1..]));
      |data| >= |r.payload| && data[..|r.payload|] == Hexes(r.payload)
  {
    FlattenFirst(r.chunks);
    hide Hex2, Flatten;
    assert Hexes(r.chunks[0]) + Hexes(Flatten(r.chunks[1..])) == Hexes(r.payload + r.pad);
  }

  lemma MultiStarts(r: Reply)
    requires r.Valid() && r.MultiFrame?
    ensures StartsMessage(r.Bodies()) && |r.Bodies()[0]| >= 2 && DeclaredLength(r.Bodies()[0]) == |r.payload|
    ensures Uppers(r.Bodies()[0][2..]) == Hexes(r.chunks[0])
  {
    hide *;
    MultiBodies(r);
    FirstFrameStarts(r.Bodies(), r.payload, r.chunks[0]);
  }

  lemma MultiData(r: Reply)
    requires r.Valid() && r.MultiFrame?
    ensures |r.Bodies()| >= 1 && AllConsecutive(r.Bodies()[1..]) == Hexes(Flatten(r.chunks[1..]))
  {
    MultiBodies(r);
    hide *;
    ConsecutiveChunks(r.chunks[1..], r.Bodies()[1..]);
  }

  lemma FrameMulti(r: Reply)
    requires r.Valid() && r.MultiFrame?
    ensures !Torn(r.Bodies()) && StartsMessage(r.Bodies())
    ensures FrameOne(r.Bodies()) == Complete(Hexes(r.payload))
  {
    MultiStarts(r);
    MultiData(r);
    PayloadChunks(r);
    FrameMessage(r.Bodies(), |r.payload|, Hexes(r.chunks[0]) + Hexes(Flatten(r.chunks[1..])));
    assert !Torn(r.Bodies());
    hide *;
  }

  /** Framing one controller's frames, in their order, gives its payload. */
  lemma FrameReply(r: Reply)
    requires r.Valid()
    ensures !Torn(r.Bodies()) && (StartsMessage(r.Bodies()) <==> r.MultiFrame?)
    ensures FrameOne(r.Bodies()) == if r.SingleFrame? then Single(Hexes(r.payload)) else Complete(Hexes(r.payload))
  {
    if r.SingleFrame? {
      StripSingle(r.payload, r.pad);
      hide StripPci, Hex2, Uppers;
      assert !StartsMessage(r.Bodies());
    } else {
      FrameMulti(r);
    }
  }

  // ---------------------------------------------------------------- several controllers on one bus

  function RenderLine(bus: Bus, t: Tagged): Line
    requires t.source.Ecu? && bus.Addresses(t.source.id)
  {
    bus.ResponseHeader(t.source.id) + t.body
  }

  ghost predicate FromBus(bus: Bus, wire: seq<Tagged>) {
    forall i :: 0 <= i < |wire| ==> wire[i].source.Ecu? && bus.Addresses(wire[i].source.id) && wire[i].body != []
  }

  function RenderLines(bus: Bus, wire: seq<Tagged>): (lines: seq<Line>)
    requires FromBus(bus, wire)
    ensures |lines| == |wire|
    ensures forall i :: 0 <= i < |wire| ==> lines[i] == RenderLine(bus, wire[i]) && lines[i] != []
  {
    seq(|wire|, i requires 0 <= i < |wire| => RenderLine(bus, wire[i]))
  }

  /** `wire` interleaves the replies: every line belongs to one, and each keeps its own order. */
  ghost predicate Interleaves(bus: Bus, wire: seq<Tagged>, replies: map<nat, Reply>) {
    && FromBus(bus, wire)
    && (forall i :: 0 <= i < |wire| ==> wire[i].source.id in replies)
    && (forall c :: c in replies ==> replies[c].Valid() && BodiesOf(wire, Ecu(c)) == replies[c].Bodies())
  }

  lemma TagLineRendered(bus: Bus, t: Tagged)
    requires t.source.Ecu? && bus.Addresses(t.source.id)
    ensures TagLine(bus, RenderLine(bus, t)) == t
  {
    ReadResponseHeader(bus, t.source.id, t.body);
    hide Bus.Read, Bus.ResponseHeader;
    assert RenderLine(bus, t)[|bus.ResponseHeader(t.source.id)|..] == t.body;
  }

  lemma {:induction false} TagRendered(bus: Bus, wire: seq<Tagged>)
    requires FromBus(bus, wire)
    ensures Tag(bus, RenderLines(bus, wire)) == wire
  {
    hide Bus.Read, Bus.ResponseHeader, RenderLine, TagLine;
    if wire != [] {
      var k := |wire| - 1;
      TagRendered(bus, wire[..k]);
      assert RenderLines(bus, wire)[..k] == RenderLines(bus, wire[..k]);
      TagLineRendered(bus, wire[k]);
      assert wire == wire[..k] + [wire[k]];
    }
  }

  lemma {:induction false} BodiesBound(wire: seq<Tagged>, s: Source)
    ensures |BodiesOf(wire, s)| <= |wire|
    ensures BodiesOf(wire, s) != [] <==> exists i :: 0 <= i < |wire| && wire[i].source == s
  {
    if wire != [] {
      var k := |wire| - 1;
      BodiesBound(wire[..k], s);
      if wire[k].source != s && BodiesOf(wire[..k], s) != [] {
        var i :| 0 <= i < k && wire[..k][i].source == s;
        assert wire[i].source == s;
      }
    }
  }

  lemma {:induction false} BodiesMember(wire: seq<Tagged>, i: nat)
    requires i < |wire|
    ensures wire[i].body in BodiesOf(wire, wire[i].source)
  {
    var k := |wire| - 1;
    if i < k {
      BodiesMember(wire[..k], i);
    }
  }

  lemma {:induction false} TwoBodies(wire: seq<Tagged>, i: nat, j: nat)
    requires i < j < |wire| && wire[i].source == wire[j].source
    ensures |BodiesOf(wire, wire[i].source)| >= 2
  {
    var k := |wire| - 1;
    if j < k {
      TwoBodies(wire[..k], i, j);
    } else {
      BodiesMember(wire[..k], i);
    }
  }

  // ---------------------------------------------------------------- the all-single-frame path

  /** The tokens of all lines, one after another. */
  function Stream(bus: Bus, wire: seq<Tagged>): seq<string>
    requires FromBus(bus, wire)
  {
    Flatten(RenderLines(bus, wire))
  }

  /** Where the walk over a line's body first meets something that reads as a header. */
  ghost predicate FirstLookalike(bus: Bus, body: seq<string>, rest: seq<string>, k: nat) {
    && k < |body| && bus.Read(body[k..] + rest).Some?
    && forall j :: 0 <= j < k ==> bus.Read(body[j..] + rest).None?
  }

  /** The lookalike lies past the bytes the length token declares and ends with the line. */
  ghost predicate EndsPadding(bus: Bus, body: seq<string>, rest: seq<string>, k: nat)
    requires FirstLookalike(bus, body, rest, k)
  {
    OrZero(Control(body[0])) < k && k + bus.Read(body[k..] + rest).value.1 == |body|
  }

  ghost predicate LineReadable(bus: Bus, body: seq<string>, rest: seq<string>) {
    forall k :: FirstLookalike(bus, body, rest, k) ==> EndsPadding(bus, body, rest, k)
  }

  /** No line's body reads as a header, unless the reading takes exactly the last tokens of its padding. */
  ghost predicate HeadersHarmless(bus: Bus, wire: seq<Tagged>)
    requires FromBus(bus, wire)
  {
    wire == [] || (LineReadable(bus, wire[0].body, Stream(bus, wire[1..])) && HeadersHarmless(bus, wire[1..]))
  }

  ghost predicate ByteTokens(wire: seq<Tagged>) {
    forall i, k :: 0 <= i < |wire| && 0 <= k < |wire[i].body| ==> |wire[i].body[k]| == 2
  }

  lemma {:induction false} ElevenBitHarmless(wire: seq<Tagged>)
    requires FromBus(Can11, wire) && ByteTokens(wire)
    ensures HeadersHarmless(Can11, wire)
  {
    if wire != [] {
      ElevenBitHarmless(wire[1..]);
      var body, rest := wire[0].body, Stream(Can11, wire[1..]);
      forall k | 0 <= k < |body| ensures Can11.Read(body[k..] + rest).None? {
        assert (body[k..] + rest)[0] == body[k];
      }
    }
  }

  function StrippedAll(wire: seq<Tagged>): (out: Frames)
    ensures |out| == |wire|
    ensures forall i :: 0 <= i < |wire| ==> out[i] == (wire[i].source, StripPci(Uppers(wire[i].body)))
  {
    seq(|wire|, i requires 0 <= i < |wire| => (wire[i].source, StripPci(Uppers(wire[i].body))))
  }

  // Body tokens are collected one by one when none of them reads as a header.
  lemma {:induction false} SplitBody(bus: Bus, body: seq<string>, k: nat, rest: seq<string>, s: Source)
    requires k <= |body|
    requires forall i :: k <= i < |body| ==> bus.Read(body[i..] + rest).None?
    ensures SplitFrom(bus, body[k..] + rest, s, Uppers(body[..k])) == SplitFrom(bus, rest, s, Uppers(body))
    decreases |body| - k
  {
    hide Bus.Read, Upper, Flush;
    if k == |body| {
      assert body[k..] + rest == rest && body[..k] == body;
    } else {
      var tokens := body[k..] + rest;
      assert tokens[1..] == body[k + 1..] + rest && tokens[0] == body[k];
      assert Uppers(body[..k]) + [Upper(body[k])] == Uppers(body[..k + 1]);
      SplitBody(bus, body, k + 1, rest, s);
    }
  }

  lemma SplitHeader(bus: Bus, controller: nat, rest: seq<string>, s: Source, current: seq<string>)
    requires bus.Addresses(controller)
    ensures SplitFrom(bus, bus.ResponseHeader(controller) + rest, s, current) ==
            Flush(s, current) + SplitFrom(bus, rest, Ecu(controller), [])
  {
    ReadResponseHeader(bus, controller, rest);
    hide Bus.Read, Bus.ResponseHeader, Flush;
    var tokens := bus.ResponseHeader(controller) + rest;
    assert tokens[|bus.ResponseHeader(controller)|..] == rest;
    assert tokens != [];
  }

  lemma StrippedCons(wire: seq<Tagged>)
    requires wire != [] && wire[0].body != []
    ensures StrippedAll(wire) == Flush(wire[0].source, Uppers(wire[0].body)) + StrippedAll(wire[1..])
  {
    hide StripPci, Uppers;
  }

  lemma RenderLinesCons(bus: Bus, wire: seq<Tagged>)
    requires FromBus(bus, wire) && wire != []
    ensures FromBus(bus, wire[1..]) && wire[0].source.Ecu? && bus.Addresses(wire[0].source.id)
    ensures RenderLines(bus, wire) == [RenderLine(bus, wire[0])] + RenderLines(bus, wire[1..])
  {
    hide RenderLine, Bus.Addresses;
  }

  lemma LineJoins(bus: Bus, t: Tagged, rest: seq<string>)
    requires t.source.Ecu? && bus.Addresses(t.source.id)
    ensures RenderLine(bus, t) + rest == bus.ResponseHeader(t.source.id) + (t.body + rest)
  {
    hide Bus.ResponseHeader, Bus.Addresses;
  }

  lemma RenderedCons(bus: Bus, wire: seq<Tagged>)
    requires FromBus(bus, wire) && wire != []
    ensures Flatten(RenderLines(bus, wire)) ==
            bus.ResponseHeader(wire[0].source.id) + (wire[0].body + Flatten(RenderLines(bus, wire[1..])))
  {
    hide *;
    RenderLinesCons(bus, wire);
    FlattenCons(RenderLine(bus, wire[0]), RenderLines(bus, wire[1..]));
    LineJoins(bus, wire[0], Flatten(RenderLines(bus, wire[1..])));
  }

  lemma StreamFront(bus: Bus, wire: seq<Tagged>)
    requires FromBus(bus, wire) && wire != []
    ensures wire[0].source.Ecu? && bus.Addresses(wire[0].source.id)
    ensures Stream(bus, wire) == bus.ResponseHeader(wire[0].source.id) + (wire[0].body + Stream(bus, wire[1..]))
  {
    RenderLinesCons(bus, wire);
    RenderedCons(bus, wire);
    hide Bus.ResponseHeader, Bus.Addresses, RenderLines, RenderLine, FromBus, Flatten;
  }

  /** A single frame's body: a length token and at most seven more tokens, the declared ones among them. */
  predicate ShortFrame(body: seq<string>) {
    && 2 <= |body| <= 8 && Upper(body[0]) == body[0] && Control(body[0]).Some?
    && 1 <= Control(body[0]).value as nat < |body|
  }

  ghost predicate ShortFrames(wire: seq<Tagged>) {
    forall i :: 0 <= i < |wire| ==> ShortFrame(wire[i].body)
  }

  lemma StripControl(body: seq<string>, n: nat)
    requires 1 <= |body| <= 8 && Upper(body[0]) == body[0] && Control(body[0]).Some? &&
             1 <= n == OrZero(Control(body[0])) < |body|
    ensures StripPci(Uppers(body)) == Uppers(body[1..n + 1])
  {
    hide ParseU8, Upper;
    var rest := Uppers(body)[1..];
    assert |rest| == |body| - 1 && rest[..n] == Uppers(body[1..n + 1]);
    assert |rest| == n ==> rest == rest[..n];
  }

  // Cutting a single frame after its declared bytes leaves its payload alone.
  lemma StripCut(body: seq<string>, k: nat)
    requires ShortFrame(body) && OrZero(Control(body[0])) < k <= |body|
    ensures StripPci(Uppers(body[..k])) == StripPci(Uppers(body)) == Uppers(body[1..OrZero(Control(body[0])) + 1])
  {
    hide ParseU8, Upper;
    StripControl(body[..k], OrZero(Control(body[0])));
    StripControl(body, OrZero(Control(body[0])));
    assert body[..k][1..OrZero(Control(body[0])) + 1] == body[1..OrZero(Control(body[0])) + 1];
  }

  // Past a first lookalike the walk has closed what it read so far and opened the lookalike's payload.
  lemma SplitLookalike(bus: Bus, body: seq<string>, rest: seq<string>, k: nat, s: Source)
    requires FirstLookalike(bus, body, rest, k)
    ensures
      var (c, n) := bus.Read(body[k..] + rest).value;
      SplitFrom(bus, body + rest, s, []) ==
      Flush(s, Uppers(body[..k])) + SplitFrom(bus, (body[k..] + rest)[n..], Ecu(c), [])
  {
    hide Bus.Read, Uppers, Flush;
    var read, more := body[..k], body[k..] + rest;
    forall j | 0 <= j < |read| ensures bus.Read(read[j..] + more).None? {
      assert read[j..] + more == body[j..] + rest;
    }
    assert read[0..] + more == body + rest && Uppers(read[..0]) == [];
    SplitBody(bus, read, 0, more, s);
    assert more != [];
  }

  // The walk over one line: its header closes what is open, its body opens the next payload.
  lemma SplitPlain(bus: Bus, t: Tagged, rest: seq<string>, s: Source, current: seq<string>)
    requires t.source.Ecu? && bus.Addresses(t.source.id)
    requires forall k :: 0 <= k < |t.body| ==> bus.Read(t.body[k..] + rest).None?
    ensures SplitFrom(bus, bus.ResponseHeader(t.source.id) + (t.body + rest), s, current) ==
            Flush(s, current) + SplitFrom(bus, rest, t.source, Uppers(t.body))
  {
    assert t.body[0..] == t.body && Uppers(t.body[..0]) == [];
    hide Bus.Read, Bus.ResponseHeader, Bus.Addresses, Flush, Uppers, SplitFrom;
    SplitHeader(bus, t.source.id, t.body + rest, s, current);
    SplitBody(bus, t.body, 0, rest, t.source);
  }

  lemma SplitPadded(bus: Bus, t: Tagged, rest: seq<string>, s: Source, current: seq<string>, k: nat)
    requires t.source.Ecu? && bus.Addresses(t.source.id) && ShortFrame(t.body)
    requires FirstLookalike(bus, t.body, rest, k) && EndsPadding(bus, t.body, rest, k)
    ensures
      SplitFrom(bus, bus.ResponseHeader(t.source.id) + (t.body + rest), s, current) ==
      Flush(s, current) + Flush(t.source, Uppers(t.body)) +
          SplitFrom(bus, rest, Ecu(bus.Read(t.body[k..] + rest).value.0), [])
  {
    StripCut(t.body, k);
    SplitHeader(bus, t.source.id, t.body + rest, s, current);
    SplitLookalike(bus, t.body, rest, k, t.source);
    hide Bus.Read, Bus.ResponseHeader, Bus.Addresses, Uppers, SplitFrom, StripPci;
    assert (t.body[k..] + rest)[|t.body| - k..] == rest;
  }

  // The first position of a body that reads as a header, or the body's end.
  lemma FindLookalike(bus: Bus, body: seq<string>, rest: seq<string>) returns (k: nat)
    ensures k < |body| ==> FirstLookalike(bus, body, rest, k)
    ensures k >= |body| ==> forall j :: 0 <= j < |body| ==> bus.Read(body[j..] + rest).None?
  {
    hide Bus.Read;
    k := 0;
    while k < |body| && bus.Read(body[k..] + rest).None?
      invariant k <= |body|
      invariant forall j :: 0 <= j < k ==> bus.Read(body[j..] + rest).None?
    {
      k := k + 1;
    }
  }

  // The walk over the first line of a harmless wire: what stays open is flushed like the line itself, at its
  // end or now.
  lemma SplitFirst(bus: Bus, wire: seq<Tagged>, s: Source, current: seq<string>)
    returns (s': Source, current': seq<string>)
    requires FromBus(bus, wire) && wire != [] && ShortFrame(wire[0].body)
    requires LineReadable(bus, wire[0].body, Stream(bus, wire[1..]))
    ensures
      var own := Flush(wire[0].source, Uppers(wire[0].body));
      var next := SplitFrom(bus, Stream(bus, wire[1..]), s', current');
      || (SplitFrom(bus, Stream(bus, wire), s, current) == Flush(s, current) + next && Flush(s', current') == own)
      || (SplitFrom(bus, Stream(bus, wire), s, current) == Flush(s, current) + own + next && Flush(s', current') == [])
  {
    StreamFront(bus, wire);
    hide Bus.Read, Bus.ResponseHeader, Bus.Addresses, Uppers, SplitFrom, Stream, StripPci, ShortFrame, Flatten,
        RenderLines;
    var t, rest := wire[0], Stream(bus, wire[1..]);
    var k := FindLookalike(bus, t.body, rest);
    if k < |t.body| {
      SplitPadded(bus, t, rest, s, current, k);
      s', current' := Ecu(bus.Read(t.body[k..] + rest).value.0), [];
    } else {
      SplitPlain(bus, t, rest, s, current);
      s', current' := t.source, Uppers(t.body);
    }
  }

  lemma HarmlessParts(bus: Bus, wire: seq<Tagged>)
    requires FromBus(bus, wire) && ShortFrames(wire) && HeadersHarmless(bus, wire) && wire != []
    ensures FromBus(bus, wire[1..]) && ShortFrames(wire[1..]) && HeadersHarmless(bus, wire[1..])
    ensures wire[0].body != [] && ShortFrame(wire[0].body) && LineReadable(bus, wire[0].body, Stream(bus, wire[1..]))
  {
    hide ShortFrame, LineReadable;
  }

  lemma NothingStripped(bus: Bus, s: Source, current: seq<string>)
    ensures SplitFrom(bus, Stream(bus, []), s, current) == Flush(s, current) + StrippedAll([])
  {
    assert RenderLines(bus, []) == [];
  }

  lemma {:induction false} SplitLines(bus: Bus, wire: seq<Tagged>, s: Source, current: seq<string>)
    requires FromBus(bus, wire) && ShortFrames(wire) && HeadersHarmless(bus, wire)
    ensures SplitFrom(bus, Stream(bus, wire), s, current) == Flush(s, current) + StrippedAll(wire)
  {
    hide *;
    if wire == [] {
      NothingStripped(bus, s, current);
    } else {
      HarmlessParts(bus, wire);
      StrippedCons(wire);
      var s', current' := SplitFirst(bus, wire, s, current);
      SplitLines(bus, wire[1..], s', current');
      var own, next, done := Flush(wire[0].source, Uppers(wire[0].body)), StrippedAll(wire[1..]), Flush(s, current);
      assert done + own + ([] + next) == done + (own + next);
    }
  }

  // ---------------------------------------------------------------- the round trip

  function Expected(replies: map<nat, Reply>): map<Source, seq<string>> {
    var sources := set c | c in replies :: Ecu(c);
    map s | s in sources :: Hexes(replies[s.id].payload)
  }

  lemma BodiesByte(r: Reply)
    requires r.Valid()
    ensures forall j, k :: 0 <= j < |r.Bodies()| && 0 <= k < |r.Bodies()[j]| ==> |r.Bodies()[j][k]| == 2
  {
    if r.MultiFrame? {
      MultiBodies(r);
      hide Hex2, Reply.Bodies;
      forall j, k | 0 <= j < |r.Bodies()| && 0 <= k < |r.Bodies()[j]| ensures |r.Bodies()[j][k]| == 2 {
        if j > 0 {
          assert CarriesChunk(r.Bodies()[j], r.chunks[j]);
        }
      }
    } else {
      hide Hex2;
    }
  }

  lemma RepliesByte(bus: Bus, wire: seq<Tagged>, replies: map<nat, Reply>)
    requires Interleaves(bus, wire, replies)
    ensures ByteTokens(wire)
  {
    hide Reply.Bodies, Reply.Valid, Bus.Addresses;
    forall i, k | 0 <= i < |wire| && 0 <= k < |wire[i].body| ensures |wire[i].body[k]| == 2 {
      var r := replies[wire[i].source.id];
      BodiesByte(r);
      BodiesMember(wire, i);
      assert wire[i].body in r.Bodies();
      var j :| 0 <= j < |r.Bodies()| && r.Bodies()[j] == wire[i].body;
    }
  }

  // A controller that sent one single frame has one line, and stripping it gives the payload.
  lemma SingleLine(bus: Bus, wire: seq<Tagged>, replies: map<nat, Reply>, i: nat)
    requires Interleaves(bus, wire, replies) && i < |wire| && replies[wire[i].source.id].SingleFrame?
    ensures StripPci(Uppers(wire[i].body)) == Hexes(replies[wire[i].source.id].payload)
    ensures forall j :: i < j < |wire| ==> wire[j].source != wire[i].source
  {
    var r := replies[wire[i].source.id];
    FrameReply(r);
    BodiesMember(wire, i);
    hide Reply.Bodies, StripPci, Uppers, Hexes, BodiesOf;
    assert r.Bodies() == [wire[i].body];
    forall j | i < j < |wire| ensures wire[j].source != wire[i].source {
      if wire[i].source == wire[j].source { TwoBodies(wire, i, j); }
    }
  }

  // The body of a reply of one frame, with the length it declares.
  lemma SingleShort(r: Reply)
    requires r.Valid() && r.SingleFrame?
    ensures |r.Bodies()| == 1 && ShortFrame(r.Bodies()[0])
    ensures OrZero(Control(r.Bodies()[0][0])) == |r.payload|
    ensures Uppers(r.Bodies()[0]) == r.Bodies()[0]
  {
    Hex2Value(|r.payload| as byte);
    hide ParseU8, Hex2;
  }

  lemma SinglesShort(bus: Bus, wire: seq<Tagged>, replies: map<nat, Reply>)
    requires Interleaves(bus, wire, replies)
    requires forall c :: c in replies ==> replies[c].SingleFrame?
    ensures ShortFrames(wire)
  {
    forall i | 0 <= i < |wire| ensures ShortFrame(wire[i].body) {
      var r := replies[wire[i].source.id];
      BodiesMember(wire, i);
      SingleShort(r);
      hide Reply.Bodies, Reply.Valid, ShortFrame, BodiesOf;
      assert wire[i].body == r.Bodies()[0];
    }
  }

  lemma ListsWire(wire: seq<Tagged>, out: Frames, m: map<Source, seq<string>>)
    requires |out| == |wire|
    requires forall i :: 0 <= i < |wire| ==>
             out[i].0 == wire[i].source && wire[i].source in m && out[i].1 == m[wire[i].source]
    requires forall i, j :: 0 <= i < j < |wire| ==> wire[j].source != wire[i].source
    requires forall s :: s in m ==> exists i :: 0 <= i < |wire| && wire[i].source == s
    ensures Lists(out, m)
  {
    forall s | s in m ensures exists i :: 0 <= i < |out| && out[i].0 == s {
      var i :| 0 <= i < |wire| && wire[i].source == s;
      assert out[i].0 == s;
    }
  }

  lemma SinglesRoundTrip(bus: Bus, wire: seq<Tagged>, replies: map<nat, Reply>)
    requires Interleaves(bus, wire, replies) && HeadersHarmless(bus, wire)
    requires forall c :: c in replies ==> replies[c].SingleFrame?
    ensures Lists(SplitFrom(bus, Stream(bus, wire), Default, []), Expected(replies))
  {
    SinglesShort(bus, wire, replies);
    assert FromBus(bus, wire);
    hide FromBus, Interleaves, Reply.Bodies, Reply.Valid, Bus.Addresses, HeadersHarmless, StripPci, Uppers, BodiesOf,
        Hexes, Stream,
      SplitFrom, ShortFrames, Lists;
    var out := StrippedAll(wire);
    SplitLines(bus, wire, Default, []);
    assert SplitFrom(bus, Stream(bus, wire), Default, []) == out;
    StrippedExpected(bus, wire, replies);
    ListsWire(wire, out, Expected(replies));
  }

  // Line by line, the replies of one frame are what is expected, one for each controller.
  lemma StrippedExpected(bus: Bus, wire: seq<Tagged>, replies: map<nat, Reply>)
    requires Interleaves(bus, wire, replies)
    requires forall c :: c in replies ==> replies[c].SingleFrame?
    ensures forall i :: 0 <= i < |wire| ==>
              wire[i].source in Expected(replies) && StrippedAll(wire)[i].1 == Expected(replies)[wire[i].source]
    ensures forall i, j :: 0 <= i < j < |wire| ==> wire[j].source != wire[i].source
    ensures forall s :: s in Expected(replies) ==> exists i :: 0 <= i < |wire| && wire[i].source == s
  {
    hide Reply.Bodies, Reply.Valid, Bus.Addresses, StripPci, Uppers, BodiesOf, Hexes;
    forall i | 0 <= i < |wire|
      ensures StrippedAll(wire)[i].1 == Hexes(replies[wire[i].source.id].payload)
      ensures forall j :: i < j < |wire| ==> wire[j].source != wire[i].source
    {
      SingleLine(bus, wire, replies, i);
    }
    forall s | s in Expected(replies) ensures exists i :: 0 <= i < |wire| && wire[i].source == s {
      BodiesBound(wire, s);
    }
  }

  // What framing makes of one source's lines.
  lemma SourceFramed(bus: Bus, wire: seq<Tagged>, replies: map<nat, Reply>, s: Source)
    requires Interleaves(bus, wire, replies)
    ensures
      var own := BodiesOf(wire, s);
      if s.Ecu? && s.id in replies then
        && own != [] && !Torn(own) && (StartsMessage(own) <==> replies[s.id].MultiFrame?)
        && !FrameOne(own).Short? && FrameOne(own).tokens == Hexes(replies[s.id].payload)
      else own == [] && !Torn(own) && !StartsMessage(own)
  {
    if s.Ecu? && s.id in replies {
      FrameReply(replies[s.id]);
      hide Reply.Bodies, Reply.Valid, BodiesOf, FrameOne, Torn, StartsMessage, Hexes;
    } else {
      BodiesBound(wire, s);
    }
  }

  lemma MessagesRoundTrip(bus: Bus, wire: seq<Tagged>, replies: map<nat, Reply>)
    requires Interleaves(bus, wire, replies)
    ensures !AnyTorn(wire) && (AnyMessage(wire) <==> exists c :: c in replies && replies[c].MultiFrame?)
    ensures forall m :: Payloads(m, wire) ==> m == Expected(replies)
  {
    hide Interleaves, Reply.Bodies, Reply.Valid, FrameOne, Torn, StartsMessage, BodiesOf, Hexes;
    forall s: Source
      ensures !Torn(BodiesOf(wire, s))
      ensures StartsMessage(BodiesOf(wire, s)) <==> s.Ecu? && s.id in replies && replies[s.id].MultiFrame?
    {
      SourceFramed(bus, wire, replies, s);
    }
    forall c | c in replies && replies[c].MultiFrame? ensures StartsMessage(BodiesOf(wire, Ecu(c))) {
    }
    forall m | Payloads(m, wire) ensures m == Expected(replies) {
      PayloadsExpected(bus, wire, replies, m);
    }
  }

  lemma PayloadsExpected(bus: Bus, wire: seq<Tagged>, replies: map<nat, Reply>, m: map<Source, seq<string>>)
    requires Interleaves(bus, wire, replies) && Payloads(m, wire)
    ensures m == Expected(replies)
  {
    hide Interleaves, Reply.Bodies, Reply.Valid, FrameOne, Torn, StartsMessage, BodiesOf, Hexes;
    forall s: Source
      ensures s in m <==> s in Expected(replies)
      ensures s in m ==> m[s] == Expected(replies)[s]
    {
      SourceFramed(bus, wire, replies, s);
    }
  }

  /**
   The framing round trip. Whatever controllers answer, each with one payload of 1 to 4095 bytes, with
   any padding and in any interleaving that keeps each controller's own order, framing yields exactly
   one entry per controller and it is that controller's payload. On 29-bit buses the all-single-frame
   case also needs that no body reads as a header, except at the very end of its padding; module
   `HeaderLookalikes` says how exact that is.
   */
  lemma FramingRoundTrip(bus: Bus, wire: seq<Tagged>, replies: map<nat, Reply>, result: Result<Frames, Fault>)
    requires Interleaves(bus, wire, replies)
    requires || bus.Can11?
             || (exists c :: c in replies && replies[c].MultiFrame?)
             || HeadersHarmless(bus, wire)
    requires FramesTo(bus, RenderLines(bus, wire), result)
    ensures result.Success? && Lists(result.value, Expected(replies))
  {
    hide Reply.Bodies, Reply.Valid, Bus.Addresses, RenderLines, HeadersHarmless, BodiesOf, Hexes, Expected, AnyTorn,
      AnyMessage, Payloads, Lists, SplitFrom, Flatten, Tag;
    var lines := RenderLines(bus, wire);
    TagRendered(bus, wire);
    MessagesRoundTrip(bus, wire, replies);
    if exists c :: c in replies && replies[c].MultiFrame? {
      var c :| c in replies && replies[c].MultiFrame?;
      BodiesBound(wire, Ecu(c));
      MultiBodies(replies[c]);
      assert |lines| >= 2;
    } else {
      if bus.Can11? {
        RepliesByte(bus, wire, replies);
        ElevenBitHarmless(wire);
      }
      SinglesRoundTrip(bus, wire, replies);
    }
  }
}
