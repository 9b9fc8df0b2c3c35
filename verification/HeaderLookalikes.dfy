/**
 On a 29-bit bus four bytes of data can read as a header, and the token walk then cuts a reply that
 was one frame. When exactly framing still returns the payloads.
 */
module HeaderLookalikes {
  import opened Wrappers
  import opened Text
  import opened Addressing
  import opened Sequences
  import opened IsoTp
  import opened IsoTpRoundTrip

  ghost predicate Reads(bus: Bus, tokens: seq<string>, s: Source) {
    bus.Read(tokens).Some? && Ecu(bus.Read(tokens).value.0) == s
  }

  /** Past the start of `line`, what reads as a header names nobody in `m`. */
  ghost predicate NamesOthers(bus: Bus, line: Line, rest: seq<string>, m: map<Source, seq<string>>) {
    forall k, s :: 0 < k < |line| && Reads(bus, (line + rest)[k..], s) ==> s !in m
  }

  /** Wherever something other than a frame's own header reads as one, it names a controller that sent nothing. */
  ghost predicate Foreign(bus: Bus, wire: seq<Tagged>, m: map<Source, seq<string>>)
    requires FromBus(bus, wire)
  {
    wire == [] ||
    (&& NamesOthers(bus, RenderLine(bus, wire[0]), Stream(bus, wire[1..]), m)
     && Foreign(bus, wire[1..], m))
  }

  ghost predicate Absent(out: Frames, s: Source) {
    forall i :: 0 <= i < |out| ==> out[i].0 != s
  }

  ghost predicate Wrong(out: Frames, m: map<Source, seq<string>>) {
    exists i :: 0 <= i < |out| && !(out[i].0 in m && m[out[i].0] == out[i].1)
  }

  // A payload that is not expected, or a controller without one.
  ghost predicate Spoilt(out: Frames, m: map<Source, seq<string>>) {
    Wrong(out, m) || exists s :: s in m && Absent(out, s)
  }

  lemma SpoiltNotListed(out: Frames, m: map<Source, seq<string>>)
    requires Spoilt(out, m)
    ensures !Lists(out, m)
  {
  }

  lemma WrongAfter(before: Frames, out: Frames, m: map<Source, seq<string>>)
    requires Wrong(out, m)
    ensures Wrong(before + out, m)
  {
    var i :| 0 <= i < |out| && !(out[i].0 in m && m[out[i].0] == out[i].1);
    assert (before + out)[|before| + i] == out[i];
  }

  lemma WrongBefore(out: Frames, after: Frames, m: map<Source, seq<string>>)
    requires Wrong(out, m)
    ensures Wrong(out + after, m)
  {
    var i :| 0 <= i < |out| && !(out[i].0 in m && m[out[i].0] == out[i].1);
    assert (out + after)[i] == out[i];
  }

  // ---------------------------------------------------------------- who the walk can name

  lemma {:induction false} NeverNamed(bus: Bus, tokens: seq<string>, s: Source, current: seq<string>, x: Source)
    requires s != x && forall p :: 0 <= p <= |tokens| ==> !Reads(bus, tokens[p..], x)
    ensures Absent(SplitFrom(bus, tokens, s, current), x)
    decreases |tokens|
  {
    hide Bus.Read, StripPci, Upper;
    if tokens != [] {
      assert tokens[0..] == tokens;
      var read := bus.Read(tokens);
      var n := if read.Some? then read.value.1 else 1;
      forall p | 0 <= p <= |tokens[n..]| ensures !Reads(bus, tokens[n..][p..], x) {
        assert tokens[n..][p..] == tokens[n + p..];
      }
      if read.Some? {
        assert !Reads(bus, tokens[0..], x);
        NeverNamed(bus, tokens[n..], Ecu(read.value.0), [], x);
      } else {
        NeverNamed(bus, tokens[1..], s, current + [Upper(tokens[0])], x);
      }
    }
  }

  // An open payload is flushed sooner or later.
  lemma {:induction false} OpenFlushed(bus: Bus, tokens: seq<string>, s: Source, current: seq<string>)
    requires current != []
    ensures |SplitFrom(bus, tokens, s, current)| > 0 && SplitFrom(bus, tokens, s, current)[0].0 == s
    decreases |tokens|
  {
    hide Bus.Read, StripPci, Upper;
    if tokens != [] && bus.Read(tokens).None? {
      OpenFlushed(bus, tokens[1..], s, current + [Upper(tokens[0])]);
    }
  }

  lemma StreamCons(bus: Bus, wire: seq<Tagged>)
    requires FromBus(bus, wire) && wire != []
    ensures Stream(bus, wire) == RenderLine(bus, wire[0]) + Stream(bus, wire[1..])
  {
    RenderedCons(bus, wire);
  }

  // Only the header in front of its own frame names an answering controller.
  lemma {:induction false} NamedInFront(bus: Bus, wire: seq<Tagged>, m: map<Source, seq<string>>, p: nat, x: Source)
    requires FromBus(bus, wire) && Foreign(bus, wire, m) && x in m && p <= |Stream(bus, wire)|
    requires forall i :: 0 < i < |wire| ==> wire[i].source != x
    requires p == 0 && wire != [] ==> wire[0].source != x
    ensures !Reads(bus, Stream(bus, wire)[p..], x)
  {
    hide *;
    if wire == [] {
      NothingNamed(bus, p, x);
    } else {
      StreamCons(bus, wire);
      ForeignParts(bus, wire, m);
      var line, rest := RenderLine(bus, wire[0]), Stream(bus, wire[1..]);
      if p == 0 {
        FrontHeader(bus, wire[0], rest);
        assert Stream(bus, wire)[0..] == line + rest;
      } else if p >= |line| {
        NamedInFront(bus, wire[1..], m, p - |line|, x);
        assert (line + rest)[p..] == rest[p - |line|..];
      } else {
        OtherInside(bus, line, rest, m, p, x);
      }
    }
  }

  lemma OtherInside(bus: Bus, line: Line, rest: seq<string>, m: map<Source, seq<string>>, p: nat, x: Source)
    requires NamesOthers(bus, line, rest, m) && 0 < p < |line| && x in m
    ensures !Reads(bus, (line + rest)[p..], x)
  {
    hide Reads;
  }

  lemma NothingNamed(bus: Bus, p: nat, x: Source)
    requires p <= |Stream(bus, [])|
    ensures !Reads(bus, Stream(bus, [])[p..], x)
  {
    assert RenderLines(bus, []) == [];
  }

  lemma ForeignParts(bus: Bus, wire: seq<Tagged>, m: map<Source, seq<string>>)
    requires FromBus(bus, wire) && Foreign(bus, wire, m) && wire != []
    ensures FromBus(bus, wire[1..]) && Foreign(bus, wire[1..], m)
    ensures wire[0].source.Ecu? && bus.Addresses(wire[0].source.id)
    ensures NamesOthers(bus, RenderLine(bus, wire[0]), Stream(bus, wire[1..]), m)
  {
    hide NamesOthers, Stream, RenderLine, Bus.Addresses;
  }

  lemma FrontHeader(bus: Bus, t: Tagged, rest: seq<string>)
    requires t.source.Ecu? && bus.Addresses(t.source.id)
    ensures forall x :: Reads(bus, RenderLine(bus, t) + rest, x) ==> x == t.source
  {
    ReadResponseHeader(bus, t.source.id, t.body + rest);
    hide Bus.Read, Bus.ResponseHeader;
    assert RenderLine(bus, t) + rest == bus.ResponseHeader(t.source.id) + (t.body + rest);
  }

  // A controller whose header the walk has passed without reading it gets nothing any more.
  lemma HeaderLost(bus: Bus, wire: seq<Tagged>, m: map<Source, seq<string>>, d: nat, s: Source)
    requires FromBus(bus, wire) && Foreign(bus, wire, m) && wire != [] && wire[0].source in m
    requires forall i :: 0 < i < |wire| ==> wire[i].source != wire[0].source
    requires 0 < d <= |Stream(bus, wire)| && s != wire[0].source
    ensures Absent(SplitFrom(bus, Stream(bus, wire)[d..], s, []), wire[0].source)
  {
    hide Reads, Foreign, Stream, SplitFrom, FromBus;
    var tokens := Stream(bus, wire)[d..];
    forall p | 0 <= p <= |tokens| ensures !Reads(bus, tokens[p..], wire[0].source) {
      NamedInFront(bus, wire, m, d + p, wire[0].source);
      assert tokens[p..] == Stream(bus, wire)[d + p..];
    }
    NeverNamed(bus, tokens, s, [], wire[0].source);
  }

  // ---------------------------------------------------------------- one line cut by a lookalike

  /** Every line is its controller's only one, and what it carries is expected from that controller. */
  ghost predicate Expects(wire: seq<Tagged>, m: map<Source, seq<string>>) {
    && (forall i :: 0 <= i < |wire| ==> wire[i].source in m && m[wire[i].source] == StripPci(Uppers(wire[i].body)))
    && (forall i, j :: 0 <= i < j < |wire| ==> wire[i].source != wire[j].source)
  }

  lemma LookalikeReads(bus: Bus, body: seq<string>, rest: seq<string>, k: nat)
    requires FirstLookalike(bus, body, rest, k)
    ensures k < |body| && bus.Read(body[k..] + rest).Some?
  {
  }

  lemma FrontLine(bus: Bus, wire: seq<Tagged>)
    requires FromBus(bus, wire) && wire != []
    ensures FromBus(bus, wire[1..]) && wire[0].source.Ecu? && bus.Addresses(wire[0].source.id)
    ensures Stream(bus, wire) == bus.ResponseHeader(wire[0].source.id) + (wire[0].body + Stream(bus, wire[1..]))
  {
    RenderedCons(bus, wire);
  }

  // What the walk makes of a line with a lookalike: the payload up to it, then another controller's.
  lemma CutLine(bus: Bus, wire: seq<Tagged>, k: nat, s: Source, current: seq<string>)
    requires FromBus(bus, wire) && wire != [] && FirstLookalike(bus, wire[0].body, Stream(bus, wire[1..]), k)
    ensures
      var t, rest := wire[0], Stream(bus, wire[1..]);
      var (c, n) := bus.Read(t.body[k..] + rest).value;
      SplitFrom(bus, Stream(bus, wire), s, current) ==
      Flush(s, current) + Flush(t.source, Uppers(t.body[..k])) + SplitFrom(bus, (t.body[k..] + rest)[n..], Ecu(c), [])
  {
    hide *;
    FrontLine(bus, wire);
    var t, rest := wire[0], Stream(bus, wire[1..]);
    LookalikeReads(bus, t.body, rest, k);
    SplitHeader(bus, t.source.id, t.body + rest, s, current);
    SplitLookalike(bus, t.body, rest, k, t.source);
  }

  // Cut inside its declared bytes a frame gives too few.
  lemma StripShort(body: seq<string>, k: nat)
    requires ShortFrame(body) && 1 <= k <= OrZero(Control(body[0]))
    ensures |StripPci(Uppers(body[..k]))| == k - 1 < |StripPci(Uppers(body))|
  {
    StripCut(body, |body|);
    assert body[..|body|] == body;
    hide ParseU8, Upper;
  }

  /** A first lookalike among the declared bytes leaves its controller with a payload that is too short. */
  lemma CutPayload(bus: Bus, wire: seq<Tagged>, m: map<Source, seq<string>>, k: nat, s: Source, current: seq<string>)
    requires FromBus(bus, wire) && Expects(wire, m) && wire != [] && ShortFrame(wire[0].body)
    requires FirstLookalike(bus, wire[0].body, Stream(bus, wire[1..]), k) && 1 <= k <= OrZero(Control(wire[0].body[0]))
    ensures Wrong(SplitFrom(bus, Stream(bus, wire), s, current), m)
  {
    hide *;
    FrontLine(bus, wire);
    var body, rest := wire[0].body, Stream(bus, wire[1..]);
    LookalikeReads(bus, body, rest, k);
    CutLine(bus, wire, k, s, current);
    CutFlushed(wire, m, k);
    var (c, n) := bus.Read(body[k..] + rest).value;
    var cut := Flush(wire[0].source, Uppers(body[..k]));
    WrongAfter(Flush(s, current), cut, m);
    WrongBefore(Flush(s, current) + cut, SplitFrom(bus, (body[k..] + rest)[n..], Ecu(c), []), m);
  }

  // What is flushed for the cut frame is not what was expected of it.
  lemma CutFlushed(wire: seq<Tagged>, m: map<Source, seq<string>>, k: nat)
    requires Expects(wire, m) && wire != [] && ShortFrame(wire[0].body) && 1 <= k <= OrZero(Control(wire[0].body[0]))
    ensures k < |wire[0].body| && Wrong(Flush(wire[0].source, Uppers(wire[0].body[..k])), m)
  {
    var t := wire[0];
    StripShort(t.body, k);
    assert m[t.source] == StripPci(Uppers(t.body)) && |Uppers(t.body[..k])| == k;
    hide StripPci, ParseU8, Upper, Expects;
    var cut := Flush(t.source, Uppers(t.body[..k]));
    assert cut[0] == (t.source, StripPci(Uppers(t.body[..k])));
  }

  // On a 29-bit bus the controller a lookalike names is foreign.
  lemma LookalikeForeign(bus: Bus, wire: seq<Tagged>, m: map<Source, seq<string>>, k: nat)
    requires bus.Can29? && FromBus(bus, wire) && Foreign(bus, wire, m) && wire != [] && k < |wire[0].body|
    ensures
      var read := bus.Read(wire[0].body[k..] + Stream(bus, wire[1..]));
      read.Some? ==> read.value.1 == 4 && Ecu(read.value.0) !in m
  {
    ForeignParts(bus, wire, m);
    LineHeader(bus, wire[0]);
    var line, rest := RenderLine(bus, wire[0]), Stream(bus, wire[1..]);
    var read := bus.Read(wire[0].body[k..] + rest);
    hide Stream, Foreign, FromBus, RenderLine, Bus.Addresses, Bus.ResponseHeader;
    assert (line + rest)[4 + k..] == wire[0].body[k..] + rest;
    if read.Some? {
      assert Reads(bus, (line + rest)[4 + k..], Ecu(read.value.0));
    }
  }

  lemma LineHeader(bus: Bus, t: Tagged)
    requires bus.Can29? && t.source.Ecu? && bus.Addresses(t.source.id)
    ensures |RenderLine(bus, t)| == 4 + |t.body| && RenderLine(bus, t)[4..] == t.body
  {
  }

  // A wrong payload, or one of these controllers without any.
  ghost predicate Loses(out: Frames, wire: seq<Tagged>, m: map<Source, seq<string>>) {
    Wrong(out, m) || exists i :: 0 <= i < |wire| && wire[i].source in m && Absent(out, wire[i].source)
  }

  lemma FirstLost(out: Frames, wire: seq<Tagged>, m: map<Source, seq<string>>)
    requires wire != [] && wire[0].source in m && Absent(out, wire[0].source)
    ensures Loses(out, wire, m)
  {
  }

  lemma ExpectsTail(wire: seq<Tagged>, m: map<Source, seq<string>>)
    requires Expects(wire, m) && wire != []
    ensures Expects(wire[1..], m) && wire[0].source in m
    ensures forall i :: 0 < i < |wire| ==> wire[i].source != wire[0].source
  {
    hide StripPci, Uppers;
  }

  // The tokens from inside a body on, as a part of the whole stream.
  lemma BodyInStream(bus: Bus, wire: seq<Tagged>, k: nat)
    requires bus.Can29? && FromBus(bus, wire) && wire != [] && k <= |wire[0].body|
    ensures 4 + k <= |Stream(bus, wire)| && Stream(bus, wire)[4 + k..] == wire[0].body[k..] + Stream(bus, wire[1..])
  {
    StreamCons(bus, wire);
    var line, rest := RenderLine(bus, wire[0]), Stream(bus, wire[1..]);
    hide Stream;
    assert (line + rest)[4 + k..] == wire[0].body[k..] + rest;
  }

  // A lookalike at the very start of a body hides its controller.
  lemma CutAtStart(bus: Bus, wire: seq<Tagged>, m: map<Source, seq<string>>)
    requires bus.Can29? && FromBus(bus, wire) && Foreign(bus, wire, m) && Expects(wire, m) && wire != []
    requires FirstLookalike(bus, wire[0].body, Stream(bus, wire[1..]), 0)
    ensures
      var tokens := wire[0].body[0..] + Stream(bus, wire[1..]);
      var (c, n) := bus.Read(tokens).value;
      Absent(SplitFrom(bus, tokens[n..], Ecu(c), []), wire[0].source)
  {
    hide *;
    ForeignParts(bus, wire, m);
    LookalikeReads(bus, wire[0].body, Stream(bus, wire[1..]), 0);
    LookalikeForeign(bus, wire, m, 0);
    ExpectsTail(wire, m);
    BodyInStream(bus, wire, 0);
    var tokens := wire[0].body[0..] + Stream(bus, wire[1..]);
    assert tokens[4..] == Stream(bus, wire)[8..];
    HeaderLost(bus, wire, m, 8, Ecu(bus.Read(tokens).value.0));
  }

  lemma NothingStreamed(bus: Bus, wire: seq<Tagged>)
    requires FromBus(bus, wire) && wire == []
    ensures Stream(bus, wire) == []
  {
    assert RenderLines(bus, wire) == [];
  }

  // Reading on in the middle of the next line's header loses that line's controller.
  lemma CutInHeader(bus: Bus, wire: seq<Tagged>, m: map<Source, seq<string>>, d: nat, c: nat)
    requires FromBus(bus, wire) && Foreign(bus, wire, m) && Expects(wire, m) && Ecu(c) !in m
    requires 0 < d <= |Stream(bus, wire)|
    ensures Loses(SplitFrom(bus, Stream(bus, wire)[d..], Ecu(c), []), wire, m)
  {
    hide *;
    if wire == [] { NothingStreamed(bus, wire); }
    ExpectsTail(wire, m);
    HeaderLost(bus, wire, m, d, Ecu(c));
    FirstLost(SplitFrom(bus, Stream(bus, wire)[d..], Ecu(c), []), wire, m);
  }

  // A payload opened for a controller that sent nothing.
  lemma OpenForeign(bus: Bus, tokens: seq<string>, c: nat, wire: seq<Tagged>, m: map<Source, seq<string>>)
    requires tokens != [] && bus.Read(tokens).None? && Ecu(c) !in m
    ensures Loses(SplitFrom(bus, tokens, Ecu(c), []), wire, m)
  {
    hide Bus.Read, Upper, StripPci;
    OpenFlushed(bus, tokens[1..], Ecu(c), [] + [Upper(tokens[0])]);
    var out := SplitFrom(bus, tokens, Ecu(c), []);
    assert out == SplitFrom(bus, tokens[1..], Ecu(c), [] + [Upper(tokens[0])]);
    assert out[0].0 == Ecu(c);
  }

  lemma SplitAtHeader(bus: Bus, tokens: seq<string>, s: Source)
    requires bus.Read(tokens).Some?
    ensures SplitFrom(bus, tokens, s, []) ==
            SplitFrom(bus, tokens[bus.Read(tokens).value.1..], Ecu(bus.Read(tokens).value.0), [])
  {
    hide Bus.Read;
  }

  // What a lookalike in the padding, but not at its end, leads to: the tokens after it are opened for a
  // controller that sent nothing, or a header is read across the end of the line.
  lemma CutPadding(bus: Bus, wire: seq<Tagged>, m: map<Source, seq<string>>, k: nat, c: nat)
    requires bus.Can29? && FromBus(bus, wire) && Foreign(bus, wire, m) && Expects(wire, m) && Ecu(c) !in m
    requires wire != [] && 2 <= k < |wire[0].body| <= 8 && k + 4 != |wire[0].body|
    requires k + 4 <= |wire[0].body| + |Stream(bus, wire[1..])|
    ensures Loses(SplitFrom(bus, (wire[0].body[k..] + Stream(bus, wire[1..]))[4..], Ecu(c), []), wire[1..], m)
  {
    hide *;
    ForeignParts(bus, wire, m);
    var body, rest := wire[0].body, Stream(bus, wire[1..]);
    var more := (body[k..] + rest)[4..];
    ExpectsTail(wire, m);
    if k + 4 > |body| {
      assert more == rest[k + 4 - |body|..];
      CutInHeader(bus, wire[1..], m, k + 4 - |body|, c);
    } else {
      assert more == body[k + 4..] + rest;
      LookalikeForeign(bus, wire, m, k + 4);
      if bus.Read(more).Some? {
        var (b, n) := bus.Read(more).value;
        assert more[4..] == rest[k + 8 - |body|..];
        SplitAtHeader(bus, more, Ecu(c));
        CutInHeader(bus, wire[1..], m, k + 8 - |body|, b);
      } else {
        OpenForeign(bus, more, c, wire[1..], m);
      }
    }
  }

  // ---------------------------------------------------------------- the whole wire

  lemma LosesBefore(before: Frames, out: Frames, wire: seq<Tagged>, m: map<Source, seq<string>>)
    requires Loses(out, wire, m)
    requires forall i, j :: 0 <= i < |wire| && 0 <= j < |before| ==> before[j].0 != wire[i].source
    ensures Loses(before + out, wire, m)
  {
    if Wrong(out, m) {
      WrongAfter(before, out, m);
    } else {
      var i :| 0 <= i < |wire| && wire[i].source in m && Absent(out, wire[i].source);
      assert Absent(before + out, wire[i].source);
    }
  }

  lemma LosesMore(out: Frames, wire: seq<Tagged>, m: map<Source, seq<string>>)
    requires wire != [] && Loses(out, wire[1..], m)
    ensures Loses(out, wire, m)
  {
    if !Wrong(out, m) {
      var i :| 0 <= i < |wire[1..]| && wire[1..][i].source in m && Absent(out, wire[1..][i].source);
      assert wire[i + 1].source == wire[1..][i].source;
    }
  }

  // A first lookalike anywhere but at the end of the padding.
  lemma LineLoses(bus: Bus, wire: seq<Tagged>, m: map<Source, seq<string>>, k: nat, s: Source, current: seq<string>)
    requires bus.Can29? && FromBus(bus, wire) && Foreign(bus, wire, m) && Expects(wire, m)
    requires wire != [] && ShortFrame(wire[0].body) && FirstLookalike(bus, wire[0].body, Stream(bus, wire[1..]), k)
    requires !EndsPadding(bus, wire[0].body, Stream(bus, wire[1..]), k)
    requires forall i :: 0 <= i < |wire| ==> wire[i].source != s
    ensures Loses(SplitFrom(bus, Stream(bus, wire), s, current), wire, m)
  {
    hide *;
    ForeignParts(bus, wire, m);
    var body, rest := wire[0].body, Stream(bus, wire[1..]);
    LookalikeReads(bus, body, rest, k);
    LookalikeForeign(bus, wire, m, k);
    ExpectsTail(wire, m);
    NotAtEnd(bus, body, rest, k);
    if 1 <= k <= OrZero(Control(body[0])) {
      CutPayload(bus, wire, m, k, s, current);
      WrongLoses(SplitFrom(bus, Stream(bus, wire), s, current), wire, m);
    } else {
      CutLine(bus, wire, k, s, current);
      var c := bus.Read(body[k..] + rest).value.0;
      var out := SplitFrom(bus, (body[k..] + rest)[4..], Ecu(c), []);
      FlushSource(s, current);
      FlushSource(wire[0].source, Uppers(body[..k]));
      if k == 0 {
        CutAtStart(bus, wire, m);
        FirstLost(out, wire, m);
        FlushNothing(wire[0].source);
        assert Uppers(body[..0]) == [];
        LosesBefore(Flush(s, current) + [], out, wire, m);
      } else {
        CutPadding(bus, wire, m, k, c);
        LosesBefore(Flush(s, current) + Flush(wire[0].source, Uppers(body[..k])), out, wire[1..], m);
        LosesMore(SplitFrom(bus, Stream(bus, wire), s, current), wire, m);
      }
    }
  }

  lemma NotAtEnd(bus: Bus, body: seq<string>, rest: seq<string>, k: nat)
    requires bus.Can29? && ShortFrame(body) && FirstLookalike(bus, body, rest, k) && !EndsPadding(bus, body, rest, k)
    ensures 2 <= |body| <= 8 && OrZero(Control(body[0])) >= 1
    ensures OrZero(Control(body[0])) < k ==> k + 4 != |body| && 2 <= k
    ensures k + 4 <= |body| + |rest|
  {
    hide ParseU8, Upper;
    assert |body[k..] + rest| == |body| - k + |rest|;
  }

  lemma FlushSource(s: Source, tokens: seq<string>)
    ensures forall j :: 0 <= j < |Flush(s, tokens)| ==> Flush(s, tokens)[j].0 == s
  {
    hide StripPci;
  }

  lemma FlushNothing(s: Source)
    ensures Flush(s, []) == []
  {
  }

  lemma WrongLoses(out: Frames, wire: seq<Tagged>, m: map<Source, seq<string>>)
    requires Wrong(out, m)
    ensures Loses(out, wire, m)
  {
  }

  // A readable first line leaves nothing behind but its own payload, now or at its end.
  lemma ReadableFirst(bus: Bus, wire: seq<Tagged>, m: map<Source, seq<string>>, s: Source, current: seq<string>)
    returns (before: Frames, s': Source, current': seq<string>)
    requires bus.Can29? && FromBus(bus, wire) && Foreign(bus, wire, m) && Expects(wire, m)
    requires wire != [] && ShortFrame(wire[0].body) && LineReadable(bus, wire[0].body, Stream(bus, wire[1..]))
    requires forall i :: 0 <= i < |wire| ==> wire[i].source != s
    ensures SplitFrom(bus, Stream(bus, wire), s, current) ==
            before + SplitFrom(bus, Stream(bus, wire[1..]), s', current')
    ensures forall i :: 0 <= i < |wire[1..]| ==> wire[1..][i].source != s'
    ensures forall i, j :: 0 <= i < |wire[1..]| && 0 <= j < |before| ==> before[j].0 != wire[1..][i].source
  {
    hide *;
    FrontLine(bus, wire);
    var t, rest := wire[0], Stream(bus, wire[1..]);
    var k := FindLookalike(bus, t.body, rest);
    ExpectsSources(wire, m);
    FlushSource(s, current);
    FlushSource(t.source, Uppers(t.body));
    ForeignParts(bus, wire, m);
    before := Flush(s, current);
    if k < |t.body| {
      ReadableEnds(bus, t.body, rest, k);
      LookalikeForeign(bus, wire, m, k);
      SplitPadded(bus, t, rest, s, current, k);
      before := before + Flush(t.source, Uppers(t.body));
      s', current' := Ecu(bus.Read(t.body[k..] + rest).value.0), [];
    } else {
      SplitPlain(bus, t, rest, s, current);
      s', current' := t.source, Uppers(t.body);
    }
  }

  lemma ExpectsSources(wire: seq<Tagged>, m: map<Source, seq<string>>)
    requires Expects(wire, m) && wire != []
    ensures forall i :: 0 <= i < |wire[1..]| ==> wire[1..][i].source in m && wire[1..][i].source != wire[0].source
    ensures forall i :: 0 <= i < |wire[1..]| ==> wire[1..][i] == wire[i + 1]
  {
    hide StripPci, Uppers;
  }

  lemma ReadableEnds(bus: Bus, body: seq<string>, rest: seq<string>, k: nat)
    requires LineReadable(bus, body, rest) && FirstLookalike(bus, body, rest, k)
    ensures EndsPadding(bus, body, rest, k) && bus.Read(body[k..] + rest).Some?
  {
    hide Bus.Read;
  }

  lemma NotReadable(bus: Bus, body: seq<string>, rest: seq<string>) returns (k: nat)
    requires !LineReadable(bus, body, rest)
    ensures FirstLookalike(bus, body, rest, k) && !EndsPadding(bus, body, rest, k)
  {
    k :| FirstLookalike(bus, body, rest, k) && !EndsPadding(bus, body, rest, k);
  }

  lemma HarmlessCons(bus: Bus, wire: seq<Tagged>)
    requires FromBus(bus, wire) && ShortFrames(wire)
    ensures wire == [] ==> HeadersHarmless(bus, wire)
    ensures wire != [] ==>
              && FromBus(bus, wire[1..]) && ShortFrames(wire[1..]) && ShortFrame(wire[0].body)
              && (HeadersHarmless(bus, wire) <==>
                    LineReadable(bus, wire[0].body, Stream(bus, wire[1..])) && HeadersHarmless(bus, wire[1..]))
  {
    hide LineReadable, ShortFrame;
  }

  lemma {:induction false} Unreadable(bus: Bus, wire: seq<Tagged>, m: map<Source, seq<string>>, s: Source,
                                      current: seq<string>)
    requires bus.Can29? && FromBus(bus, wire) && ShortFrames(wire) && Foreign(bus, wire, m) && Expects(wire, m)
    requires !HeadersHarmless(bus, wire) && forall i :: 0 <= i < |wire| ==> wire[i].source != s
    ensures Loses(SplitFrom(bus, Stream(bus, wire), s, current), wire, m)
  {
    hide *;
    HarmlessCons(bus, wire);
    ForeignParts(bus, wire, m);
    if LineReadable(bus, wire[0].body, Stream(bus, wire[1..])) {
      ExpectsTail(wire, m);
      var before, s', current' := ReadableFirst(bus, wire, m, s, current);
      Unreadable(bus, wire[1..], m, s', current');
      LosesBefore(before, SplitFrom(bus, Stream(bus, wire[1..]), s', current'), wire[1..], m);
      LosesMore(SplitFrom(bus, Stream(bus, wire), s, current), wire, m);
    } else {
      var k := NotReadable(bus, wire[0].body, Stream(bus, wire[1..]));
      LineLoses(bus, wire, m, k, s, current);
    }
  }

  /** `replies` are single frames, and `result` is what framing makes of their lines. */
  ghost predicate FramedSingles(bus: Bus, wire: seq<Tagged>, replies: map<nat, Reply>, result: Result<Frames, Fault>) {
    && Interleaves(bus, wire, replies) && (forall c :: c in replies ==> replies[c].SingleFrame?)
    && FramesTo(bus, RenderLines(bus, wire), result)
  }

  // Single frames always go through the walk.
  lemma SinglesWalked(bus: Bus, wire: seq<Tagged>, replies: map<nat, Reply>, result: Result<Frames, Fault>)
    requires FramedSingles(bus, wire, replies, result)
    ensures FromBus(bus, wire) && ShortFrames(wire) && Expects(wire, Expected(replies))
    ensures result == Success(SplitFrom(bus, Stream(bus, wire), Default, []))
    ensures forall i :: 0 <= i < |wire| ==> wire[i].source in Expected(replies) && wire[i].source != Default
  {
    TagRendered(bus, wire);
    MessagesRoundTrip(bus, wire, replies);
    SinglesShort(bus, wire, replies);
    SinglesExpected(bus, wire, replies);
    assert FromBus(bus, wire);
    hide Interleaves, FromBus, RenderLines, Expected, AnyTorn, AnyMessage, SplitFrom, Flatten, Tag, ShortFrames,
        Expects;
  }

  lemma SinglesExpected(bus: Bus, wire: seq<Tagged>, replies: map<nat, Reply>)
    requires Interleaves(bus, wire, replies) && forall c :: c in replies ==> replies[c].SingleFrame?
    ensures Expects(wire, Expected(replies))
    ensures forall i :: 0 <= i < |wire| ==> wire[i].source in Expected(replies) && wire[i].source != Default
  {
    StrippedExpected(bus, wire, replies);
    assert FromBus(bus, wire);
    hide Interleaves, Expected, Bus.Addresses, StripPci, Uppers;
  }

  /**
   On a 29-bit bus, for controllers that each answer with one frame: as long as whatever reads as a
   header by accident names a controller that sent nothing, framing returns exactly the payloads if and
   only if every such reading takes the last four tokens of a line's padding.
   */
  lemma SinglesExact(bus: Bus, wire: seq<Tagged>, replies: map<nat, Reply>, result: Result<Frames, Fault>)
    requires bus.Can29? && FramedSingles(bus, wire, replies, result) && Foreign(bus, wire, Expected(replies))
    ensures result.Success? && (Lists(result.value, Expected(replies)) <==> HeadersHarmless(bus, wire))
  {
    SinglesWalked(bus, wire, replies, result);
    var m := Expected(replies);
    if HeadersHarmless(bus, wire) {
      SinglesRoundTrip(bus, wire, replies);
    } else {
      hide *;
      Unreadable(bus, wire, m, Default, []);
      LosesSpoilt(SplitFrom(bus, Stream(bus, wire), Default, []), wire, m);
      SpoiltNotListed(SplitFrom(bus, Stream(bus, wire), Default, []), m);
    }
  }

  lemma LosesSpoilt(out: Frames, wire: seq<Tagged>, m: map<Source, seq<string>>)
    requires Loses(out, wire, m)
    ensures Spoilt(out, m)
  {
  }

  // ---------------------------------------------------------------- whatever a lookalike names

  /** The walk's first accidental header is at `k` of line `i`, among the bytes the line's length token declares. */
  ghost predicate CutAt(bus: Bus, wire: seq<Tagged>, i: nat, k: nat)
    requires FromBus(bus, wire) && ShortFrames(wire)
    decreases |wire|
  {
    && i < |wire|
    && (if i == 0 then
          FirstLookalike(bus, wire[0].body, Stream(bus, wire[1..]), k) && 1 <= k <= OrZero(Control(wire[0].body[0]))
        else LineReadable(bus, wire[0].body, Stream(bus, wire[1..])) && CutAt(bus, wire[1..], i - 1, k))
  }

  lemma CutCons(bus: Bus, wire: seq<Tagged>, i: nat, k: nat)
    requires FromBus(bus, wire) && ShortFrames(wire) && CutAt(bus, wire, i, k)
    ensures wire != [] && FromBus(bus, wire[1..]) && ShortFrames(wire[1..]) && ShortFrame(wire[0].body)
    ensures i > 0 ==> LineReadable(bus, wire[0].body, Stream(bus, wire[1..])) && CutAt(bus, wire[1..], i - 1, k)
    ensures i == 0 ==>
              FirstLookalike(bus, wire[0].body, Stream(bus, wire[1..]), k) && 1 <= k <= OrZero(Control(wire[0].body[0]))
  {
    hide ShortFrame, LineReadable, FirstLookalike, Stream, Bus.Addresses, ParseU8, OrZero;
  }

  lemma {:induction false} CutSpoils(bus: Bus, wire: seq<Tagged>, m: map<Source, seq<string>>, i: nat, k: nat,
                                     s: Source, current: seq<string>)
    requires FromBus(bus, wire) && ShortFrames(wire) && Expects(wire, m) && CutAt(bus, wire, i, k)
    ensures Wrong(SplitFrom(bus, Stream(bus, wire), s, current), m)
    decreases i
  {
    hide *;
    CutCons(bus, wire, i, k);
    if i == 0 {
      CutPayload(bus, wire, m, k, s, current);
    } else {
      ExpectsTail(wire, m);
      var s', current' := SplitFirst(bus, wire, s, current);
      var next := SplitFrom(bus, Stream(bus, wire[1..]), s', current');
      CutSpoils(bus, wire[1..], m, i - 1, k, s', current');
      WrongAfter(Flush(s, current), next, m);
      WrongAfter(Flush(s, current) + Flush(wire[0].source, Uppers(wire[0].body)), next, m);
    }
  }

  /**
   Whatever controller it names: the first accidental header of a wire, if it starts among the bytes of
   a payload, cuts that payload and framing does not return it.
   */
  lemma PayloadCut(bus: Bus, wire: seq<Tagged>, replies: map<nat, Reply>, result: Result<Frames, Fault>, i: nat, k: nat)
    requires FromBus(bus, wire) && ShortFrames(wire) && CutAt(bus, wire, i, k)
    requires FramedSingles(bus, wire, replies, result)
    ensures result.Success? && !Lists(result.value, Expected(replies))
  {
    SinglesWalked(bus, wire, replies, result);
    hide *;
    CutSpoils(bus, wire, Expected(replies), i, k, Default, []);
    WrongSpoilt(SplitFrom(bus, Stream(bus, wire), Default, []), Expected(replies));
    SpoiltNotListed(SplitFrom(bus, Stream(bus, wire), Default, []), Expected(replies));
  }

  lemma WrongSpoilt(out: Frames, m: map<Source, seq<string>>)
    requires Wrong(out, m)
    ensures Spoilt(out, m)
  {
  }

  // ---------------------------------------------------------------- one line

  // The line of a lone controller.
  function Lone(c: nat, r: Reply): (wire: seq<Tagged>)
    requires r.Valid() && r.SingleFrame?
  {
    [Tagged(Ecu(c), r.Bodies()[0])]
  }

  /** A lookalike that opens the body names the sender itself, and what follows it happens to repeat the payload. */
  ghost predicate RepeatsItself(bus: Bus, c: nat, r: Reply)
    requires r.Valid() && r.SingleFrame?
  {
    var body := r.Bodies()[0];
    && |body| > 4 && Reads(bus, body, Ecu(c)) && bus.Read(body[4..]).None?
    && StripPci(Uppers(body[4..])) == Hexes(r.payload)
  }

  lemma LoneLine(bus: Bus, c: nat, r: Reply)
    requires bus.Addresses(c) && r.Valid() && r.SingleFrame?
    ensures FromBus(bus, Lone(c, r)) && ShortFrames(Lone(c, r)) && Interleaves(bus, Lone(c, r), map[c := r])
    ensures Lone(c, r)[1..] == [] && Stream(bus, []) == []
    ensures ShortFrame(r.Bodies()[0]) && OrZero(Control(r.Bodies()[0][0])) == |r.payload|
    ensures |r.Bodies()[0]| == 1 + |r.payload| + |r.pad| <= 8
    ensures r.Bodies()[0] + [] == r.Bodies()[0] && r.Bodies()[0][0..] == r.Bodies()[0]
  {
    SingleShort(r);
    NothingStreamed(bus, []);
    var wire := Lone(c, r);
    hide ShortFrame, ParseU8, Hex2;
    assert BodiesOf(wire[..0], Ecu(c)) == [];
    assert BodiesOf(wire, Ecu(c)) == [r.Bodies()[0]] == r.Bodies();
  }

  lemma LoneExpected(c: nat, r: Reply)
    ensures forall s :: s in Expected(map[c := r]) <==> s == Ecu(c)
    ensures Expected(map[c := r])[Ecu(c)] == Hexes(r.payload)
  {
    assert c in map[c := r];
  }

  lemma ListedApart(out: Frames, m: map<Source, seq<string>>, i: nat, j: nat)
    requires Lists(out, m) && i < j < |out|
    ensures out[i].0 != out[j].0 && out[i].0 in m && out[j].0 in m
  {
  }

  lemma LoneListed(out: Frames, c: nat, r: Reply)
    ensures Lists(out, Expected(map[c := r])) <==> out == [(Ecu(c), Hexes(r.payload))]
  {
    LoneExpected(c, r);
    hide Hexes, Expected;
    var m := Expected(map[c := r]);
    if Lists(out, m) {
      assert Ecu(c) in m;
      if |out| >= 2 { ListedApart(out, m, 0, 1); }
      assert forall i :: 0 <= i < |out| ==> out[i].0 == Ecu(c);
    }
    if out == [(Ecu(c), Hexes(r.payload))] {
      forall s | s in m ensures exists i :: 0 <= i < |out| && out[i].0 == s {
        assert out[0].0 == s;
      }
    }
  }

  // Fewer than four tokens hold no header on a 29-bit bus.
  lemma ShortTail(bus: Bus, tokens: seq<string>, s: Source)
    requires bus.Can29? && |tokens| < 4 + 1 && (|tokens| == 4 ==> bus.Read(tokens).None?)
    ensures SplitFrom(bus, tokens, s, []) == Flush(s, Uppers(tokens))
  {
    assert tokens[0..] + [] == tokens && Uppers(tokens[..0]) == [];
    forall i | 0 <= i < |tokens| ensures bus.Read(tokens[i..] + []).None? {
      assert tokens[i..] + [] == tokens[i..];
    }
    hide Bus.Read, Upper, Flush, Uppers;
    SplitBody(bus, tokens, 0, [], s);
  }

  lemma HeaderTail(bus: Bus, tokens: seq<string>, s: Source)
    requires bus.Can29? && |tokens| == 4 && bus.Read(tokens).Some?
    ensures SplitFrom(bus, tokens, s, []) == []
  {
  }

  // The walk over a lone line whose body opens with a lookalike.
  lemma LoneOpens(bus: Bus, c: nat, r: Reply)
    requires bus.Can29? && bus.Addresses(c) && r.Valid() && r.SingleFrame?
    requires bus.Read(r.Bodies()[0]).Some? && FromBus(bus, Lone(c, r))
    ensures SplitFrom(bus, Stream(bus, Lone(c, r)), Default, []) == [(Ecu(c), Hexes(r.payload))] <==>
            RepeatsItself(bus, c, r)
  {
    LoneLine(bus, c, r);
    var wire, body := Lone(c, r), r.Bodies()[0];
    assert FirstLookalike(bus, body, Stream(bus, wire[1..]), 0);
    var a := bus.Read(body).value.0;
    CutLine(bus, wire, 0, Default, []);
    var tail := body[4..];
    assert (body[0..] + [])[4..] == tail && Uppers(body[..0]) == [];
    assert SplitFrom(bus, Stream(bus, wire), Default, []) == SplitFrom(bus, tail, Ecu(a), []) by {
      hide SplitFrom, Stream, Bus.Read;
      FlushNothing(Default);
      FlushNothing(Ecu(c));
    }
    hide SplitFrom, Stream, Bus.Read, StripPci, Uppers, Reply.Bodies, Hexes;
    if |tail| == 4 && bus.Read(tail).Some? {
      HeaderTail(bus, tail, Ecu(a));
    } else {
      ShortTail(bus, tail, Ecu(a));
    }
  }

  // The walk over a lone line with a lookalike past the payload, but not at the line's end.
  lemma LonePadding(bus: Bus, c: nat, r: Reply, k: nat)
    requires bus.Can29? && bus.Addresses(c) && r.Valid() && r.SingleFrame? && FromBus(bus, Lone(c, r))
    requires FirstLookalike(bus, r.Bodies()[0], [], k) && |r.payload| < k && k + 4 != |r.Bodies()[0]|
    ensures |SplitFrom(bus, Stream(bus, Lone(c, r)), Default, [])| > 1
  {
    LoneLine(bus, c, r);
    var wire, body := Lone(c, r), r.Bodies()[0];
    LookalikeReads(bus, body, [], k);
    assert body[k..] + [] == body[k..];
    var (a, n) := bus.Read(body[k..]).value;
    CutLine(bus, wire, k, Default, []);
    FlushNothing(Default);
    var tail := body[k..][4..];
    assert tail != [] && n == 4 && Uppers(tail) != [] && Uppers(body[..k]) != [];
    ShortTail(bus, tail, Ecu(a));
  }

  // A lone line is harmless exactly when its body is readable.
  lemma LoneHarmless(bus: Bus, c: nat, r: Reply)
    requires bus.Can29? && bus.Addresses(c) && r.Valid() && r.SingleFrame? && FromBus(bus, Lone(c, r))
    ensures HeadersHarmless(bus, Lone(c, r)) <==> LineReadable(bus, r.Bodies()[0], [])
  {
    LoneLine(bus, c, r);
    hide LineReadable, Stream, Bus.Read, Reply.Bodies;
    assert HeadersHarmless(bus, []);
  }

  /**
   One controller, one frame, any payload and any padding: framing returns exactly its payload if and
   only if nothing in the body reads as a header but the last four tokens of the padding, or the body
   opens with a header of that very controller and goes on with the payload once more.
   */
  lemma LoneExact(bus: Bus, c: nat, r: Reply, result: Result<Frames, Fault>)
    requires bus.Can29? && bus.Addresses(c) && r.Valid() && r.SingleFrame? && FromBus(bus, Lone(c, r))
    requires FramesTo(bus, RenderLines(bus, Lone(c, r)), result)
    ensures result.Success?
    ensures Lists(result.value, Expected(map[c := r])) <==> HeadersHarmless(bus, Lone(c, r)) || RepeatsItself(bus, c, r)
  {
    var wire, replies, body := Lone(c, r), map[c := r], r.Bodies()[0];
    LoneLine(bus, c, r);
    assert FramedSingles(bus, wire, replies, result);
    SinglesWalked(bus, wire, replies, result);
    LoneHarmless(bus, c, r);
    LoneListed(result.value, c, r);
    hide *;
    if HeadersHarmless(bus, wire) {
      SinglesRoundTripLone(bus, c, r);
    } else {
      var k := NotReadable(bus, body, []);
      LookalikeReads(bus, body, [], k);
      NotAtEnd(bus, body, [], k);
      if k == 0 {
        LoneOpens(bus, c, r);
      } else {
        NoHeaderInFront(bus, body, k);
        NotRepeating(bus, c, r);
        if k <= |r.payload| {
          LoneCut(bus, c, r, k);
          PayloadCut(bus, wire, replies, result, 0, k);
        } else {
          LonePadding(bus, c, r, k);
        }
      }
    }
  }

  lemma SinglesRoundTripLone(bus: Bus, c: nat, r: Reply)
    requires bus.Can29? && bus.Addresses(c) && r.Valid() && r.SingleFrame? && FromBus(bus, Lone(c, r))
    requires HeadersHarmless(bus, Lone(c, r))
    ensures Lists(SplitFrom(bus, Stream(bus, Lone(c, r)), Default, []), Expected(map[c := r]))
  {
    LoneLine(bus, c, r);
    hide Reply.Bodies, Reply.Valid, Bus.Addresses, Bus.Read;
    SinglesRoundTrip(bus, Lone(c, r), map[c := r]);
  }

  lemma NoHeaderInFront(bus: Bus, body: seq<string>, k: nat)
    requires FirstLookalike(bus, body, [], k) && k > 0
    ensures bus.Read(body).None?
  {
    assert body[0..] + [] == body;
  }

  lemma NotRepeating(bus: Bus, c: nat, r: Reply)
    requires r.Valid() && r.SingleFrame? && bus.Read(r.Bodies()[0]).None?
    ensures !RepeatsItself(bus, c, r)
  {
  }

  lemma LoneCut(bus: Bus, c: nat, r: Reply, k: nat)
    requires bus.Can29? && bus.Addresses(c) && r.Valid() && r.SingleFrame? && FromBus(bus, Lone(c, r)) &&
             ShortFrames(Lone(c, r))
    requires FirstLookalike(bus, r.Bodies()[0], [], k) && 1 <= k <= |r.payload|
    ensures CutAt(bus, Lone(c, r), 0, k)
  {
    LoneLine(bus, c, r);
  }

  /** Without padding: the payload is returned if and only if nothing in the body reads as a header. */
  lemma UnpaddedExact(bus: Bus, c: nat, r: Reply, result: Result<Frames, Fault>)
    requires bus.Can29? && bus.Addresses(c) && r.Valid() && r.SingleFrame? && r.pad == [] && FromBus(bus, Lone(c, r))
    requires FramesTo(bus, RenderLines(bus, Lone(c, r)), result)
    ensures result.Success?
    ensures Lists(result.value, Expected(map[c := r])) <==>
            forall k :: 0 <= k < |r.Bodies()[0]| ==> bus.Read(r.Bodies()[0][k..]).None?
  {
    LoneExact(bus, c, r, result);
    LoneHarmless(bus, c, r);
    LoneLine(bus, c, r);
    var body := r.Bodies()[0];
    assert !RepeatsItself(bus, c, r) by {
      if RepeatsItself(bus, c, r) { StripNotLonger(Uppers(body[4..])); }
    }
    hide *;
    UnpaddedReadable(bus, body);
  }

  lemma StripNotLonger(tokens: seq<string>)
    ensures |StripPci(tokens)| <= |tokens|
  {
  }

  // A body that ends with its declared bytes has no padding for a lookalike to hide in.
  lemma UnpaddedReadable(bus: Bus, body: seq<string>)
    requires bus.Can29? && body != [] && OrZero(Control(body[0])) + 1 == |body|
    ensures LineReadable(bus, body, []) <==> forall k :: 0 <= k < |body| ==> bus.Read(body[k..]).None?
  {
    assert forall k :: 0 <= k < |body| ==> body[k..] + [] == body[k..];
    var k := FindLookalike(bus, body, []);
    hide Bus.Read, ParseU8;
    if k < |body| {
      assert !EndsPadding(bus, body, [], k) by { LookalikeWidth(bus, body, k); }
    }
  }

  lemma LookalikeWidth(bus: Bus, body: seq<string>, k: nat)
    requires bus.Can29? && FirstLookalike(bus, body, [], k)
    ensures bus.Read(body[k..] + []).value.1 == 4
  {
  }

  // Six payload bytes whose middle reads as another controller's header.
  const LOOKALIKE := SingleFrame([0x41, 0x18, 0xDA, 0xF1, 0x28, 0x00], [])

  lemma LookalikeBody()
    ensures LOOKALIKE.Valid() && LOOKALIKE.SingleFrame? && LOOKALIKE.pad == []
    ensures Can29(0xF1).Addresses(0x10) && |LOOKALIKE.Bodies()[0]| == 7 &&
            Can29(0xF1).Read(LOOKALIKE.Bodies()[0][2..]).Some?
  {
    ReadResponseHeader(Can29(0xF1), 0x28, [Hex2(0)]);
    hide Hex2, Bus.Read;
    assert LOOKALIKE.Bodies()[0][2..] == Can29(0xF1).ResponseHeader(0x28) + [Hex2(0)];
  }

  /** One frame whose data looks like a header: the payload is lost. */
  lemma LookalikeSplits(result: Result<Frames, Fault>)
    requires FromBus(Can29(0xF1), Lone(0x10, LOOKALIKE))
    requires FramesTo(Can29(0xF1), RenderLines(Can29(0xF1), Lone(0x10, LOOKALIKE)), result)
    ensures LOOKALIKE.Valid() && result.Success? && !Lists(result.value, Expected(map[0x10 := LOOKALIKE]))
  {
    LookalikeBody();
    hide *;
    UnpaddedExact(Can29(0xF1), 0x10, LOOKALIKE, result);
    assert Can29(0xF1).Read(LOOKALIKE.Bodies()[0][2..]).Some?;
  }
}
