/**
 Framing of adapter text: lines of tokens to one payload per controller. ISO-TP messages (section 9.6
 of ISO 15765-2:2016) are reassembled when a controller answered with a first frame; otherwise the
 tokens of all lines are split at the headers.
 */
module IsoTp {
  import opened Wrappers
  import opened Text
  import opened Addressing
  import opened Sequences

  type Line = seq<string>

  /** A first frame with no length token makes the program stop with an out-of-range slice. */
  datatype Fault = TornFirstFrame

  function Uppers(tokens: seq<string>): (r: seq<string>)
    ensures |r| == |tokens|
    ensures forall i :: 0 <= i < |tokens| ==> r[i] == Upper(tokens[i])
  {
    seq(|tokens|, i requires 0 <= i < |tokens| => Upper(tokens[i]))
  }

  /** A line read by the bus: who sent it, and the tokens after the header (all of them if there is none). */
  datatype Tagged = Tagged(source: Source, body: seq<string>)

  function TagLine(bus: Bus, line: Line): Tagged {
    match bus.Read(line)
    case Some((c, n)) => Tagged(Ecu(c), line[n..])
    case None => Tagged(Default, line)
  }

  // Lines without tokens are skipped.
  function Tag(bus: Bus, lines: seq<Line>): seq<Tagged> {
    if lines == [] then []
    else
      var before := Tag(bus, lines[..|lines| - 1]);
      if lines[|lines| - 1] == [] then before else before + [TagLine(bus, lines[|lines| - 1])]
  }

  /**
   Drop the single-frame length token and bound the payload by it. Runs of more than seven tokens after
   the length are not single frames and keep their tail.
   */
  function StripPci(tokens: seq<string>): seq<string> {
    if tokens == [] then tokens
    else
      match ParseU8(tokens[0])
      case None => tokens
      case Some(b) =>
        if 0 < b < 16 then
          var rest := tokens[1..];
          if |rest| > b as nat && |rest| <= 7 then rest[..b as nat] else rest
        else tokens
  }

  method StripPciByte(tokens: seq<string>) returns (stripped: seq<string>)
    ensures stripped == StripPci(tokens)
  {
    stripped := tokens;
    if stripped == [] {
      return;
    }
    var b := ParseU8(stripped[0]);
    if b.Some? && b.value / 16 == 0 && b.value > 0 {
      stripped := stripped[1..];
      var n := b.value as nat;
      if |stripped| > n && |stripped| <= 7 {
        stripped := stripped[..n];
      }
    }
  }

  // ---------------------------------------------------------------- one controller's lines

  // The value of a frame-control token, if it is one.
  function Control(token: string): Option<byte> { ParseU8(token) }

  predicate IsFirstFrame(token: string) {
    |token| == 2 && Control(token).Some? && Control(token).value / 16 == 1
  }

  function OrZero(b: Option<byte>): nat {
    if b.Some? then b.value as nat else 0
  }

  // The data tokens a line adds to a message under assembly. A sequence token that is not hexadecimal
  // is skipped like one that is; only a parsed token with another nibble disqualifies the line.
  function ConsecutiveData(body: seq<string>): seq<string> {
    if body == [] || (Control(body[0]).Some? && Control(body[0]).value / 16 != 2) then []
    else Uppers(body[1..])
  }

  function AllConsecutive(bodies: seq<seq<string>>): seq<string> {
    if bodies == [] then [] else AllConsecutive(bodies[..|bodies| - 1]) + ConsecutiveData(bodies[|bodies| - 1])
  }

  datatype Framed = Single(tokens: seq<string>) | Complete(tokens: seq<string>) | Short

  predicate StartsMessage(bodies: seq<seq<string>>) {
    |bodies| >= 2 && bodies[0] != [] && IsFirstFrame(bodies[0][0])
  }

  predicate Torn(bodies: seq<seq<string>>) {
    StartsMessage(bodies) && |bodies[0]| < 2
  }

  function DeclaredLength(first: seq<string>): nat
    requires |first| >= 2
  {
    OrZero(Control(first[0])) % 16 * 256 + OrZero(Control(first[1]))
  }

  /** One payload from one controller's lines, in arrival order. */
  function FrameOne(bodies: seq<seq<string>>): Framed
    requires bodies != [] && !Torn(bodies)
  {
    if !StartsMessage(bodies) then Single(StripPci(Uppers(bodies[0])))
    else
      var total := DeclaredLength(bodies[0]);
      var data := Uppers(bodies[0][2..]) + AllConsecutive(bodies[1..]);
      if total > 0 && |data| < total then Short
      else Complete(if total > 0 then data[..total] else data)
  }

  lemma FrameMessage(bodies: seq<seq<string>>, total: nat, data: seq<string>)
    requires StartsMessage(bodies) && |bodies[0]| >= 2 && DeclaredLength(bodies[0]) == total > 0
    requires data == Uppers(bodies[0][2..]) + AllConsecutive(bodies[1..]) && |data| >= total
    ensures FrameOne(bodies) == Complete(data[..total])
  {
  }

  lemma AllConsecutiveStep(bodies: seq<seq<string>>, i: nat)
    requires i < |bodies|
    ensures AllConsecutive(bodies[..i + 1]) == AllConsecutive(bodies[..i]) + ConsecutiveData(bodies[i])
  {
    hide ConsecutiveData;
    assert bodies[..i + 1][..i] == bodies[..i];
  }

  method AppendConsecutive(start: seq<string>, bodies: seq<seq<string>>) returns (assembled: seq<string>)
    ensures assembled == start + AllConsecutive(bodies)
  {
    hide Control, Uppers, AllConsecutive;
    assembled := start;
    var i := 0;
    assert AllConsecutive(bodies[..0]) == [] by { NoConsecutive(bodies); }
    while i < |bodies|
      invariant 0 <= i <= |bodies|
      invariant assembled == start + AllConsecutive(bodies[..i])
    {
      AllConsecutiveStep(bodies, i);
      var body := bodies[i];
      if body != [] && !(Control(body[0]).Some? && Control(body[0]).value / 16 != 2) {
        assembled := assembled + Uppers(body[1..]);
      }
      i := i + 1;
    }
    assert bodies[..i] == bodies;
  }

  lemma NoConsecutive(bodies: seq<seq<string>>)
    ensures AllConsecutive(bodies[..0]) == []
  {
  }

  method FrameController(bodies: seq<seq<string>>) returns (framed: Framed)
    requires bodies != [] && !Torn(bodies)
    ensures framed == FrameOne(bodies)
  {
    var first := bodies[0];
    if |bodies| < 2 || first == [] || !IsFirstFrame(first[0]) {
      var single := StripPciByte(Uppers(first));
      return Single(single);
    }
    var total := OrZero(Control(first[0])) % 16 * 256 + OrZero(Control(first[1]));
    var assembled := AppendConsecutive(Uppers(first[2..]), bodies[1..]);
    if total > 0 && |assembled| > total {
      assembled := assembled[..total];
    }
    if total > 0 && |assembled| < total {
      return Short;
    }
    framed := Complete(assembled);
  }

  // ---------------------------------------------------------------- grouping by controller

  function BodiesOf(tagged: seq<Tagged>, source: Source): seq<seq<string>> {
    if tagged == [] then []
    else
      var last, before := tagged[|tagged| - 1], BodiesOf(tagged[..|tagged| - 1], source);
      if last.source == source then before + [last.body] else before
  }

  // `groups` holds each source's bodies in arrival order, and no other source.
  ghost predicate Groups(groups: map<Source, seq<seq<string>>>, tagged: seq<Tagged>) {
    forall s {:trigger s in groups} {:trigger BodiesOf(tagged, s)} ::
      if s in groups then groups[s] == BodiesOf(tagged, s) && groups[s] != [] else BodiesOf(tagged, s) == []
  }

  method GroupLines(tagged: seq<Tagged>) returns (groups: map<Source, seq<seq<string>>>)
    ensures Groups(groups, tagged)
  {
    groups := map[];
    var i := 0;
    while i < |tagged|
      invariant 0 <= i <= |tagged|
      invariant Groups(groups, tagged[..i])
    {
      assert tagged[..i + 1][..i] == tagged[..i];
      var line := tagged[i];
      groups := groups[line.source := (if line.source in groups then groups[line.source] else []) + [line.body]];
      i := i + 1;
    }
    assert tagged[..i] == tagged;
  }

  ghost predicate AnyTorn(tagged: seq<Tagged>) {
    exists s :: Torn(BodiesOf(tagged, s))
  }

  ghost predicate AnyMessage(tagged: seq<Tagged>) {
    exists s :: StartsMessage(BodiesOf(tagged, s))
  }

  type Frames = seq<(Source, seq<string>)>

  /** `out` lists the entries of `m`, each once, in some order. */
  ghost predicate Lists(out: Frames, m: map<Source, seq<string>>) {
    && (forall i, j :: 0 <= i < j < |out| ==> out[i].0 != out[j].0)
    && (forall i :: 0 <= i < |out| ==> out[i].0 in m && m[out[i].0] == out[i].1)
    && (forall s :: s in m ==> exists i :: 0 <= i < |out| && out[i].0 == s)
  }

  // The payload of each source; a message short of its declared length is left out.
  ghost predicate Payloads(m: map<Source, seq<string>>, tagged: seq<Tagged>) {
    forall s {:trigger s in m} {:trigger BodiesOf(tagged, s)} ::
      var own := BodiesOf(tagged, s);
      if own == [] || Torn(own) || FrameOne(own).Short? then s !in m
      else s in m && m[s] == FrameOne(own).tokens
  }

  lemma NothingListed()
    ensures Lists([], map[])
  {
  }

  lemma ListsAdd(out: Frames, m: map<Source, seq<string>>, s: Source, tokens: seq<string>)
    requires Lists(out, m) && s !in m
    ensures Lists(out + [(s, tokens)], m[s := tokens])
  {
    var out' := out + [(s, tokens)];
    assert out'[|out|].0 == s;
    forall q | q in m || q == s ensures exists i :: 0 <= i < |out'| && out'[i].0 == q {
      if q != s {
        var i :| 0 <= i < |out| && out[i].0 == q;
        assert out'[i].0 == q;
      }
    }
  }

  lemma ListsJoin(a: Frames, b: Frames, m: map<Source, seq<string>>, n: map<Source, seq<string>>)
    requires Lists(a, m) && Lists(b, n) && m.Keys !! n.Keys
    ensures Lists(a + b, m + n)
  {
    var out := a + b;
    forall q | q in m + n ensures exists i :: 0 <= i < |out| && out[i].0 == q {
      if q in m {
        var i :| 0 <= i < |a| && a[i].0 == q;
        assert out[i].0 == q;
      } else {
        var i :| 0 <= i < |b| && b[i].0 == q;
        assert out[|a| + i].0 == q;
      }
    }
  }

  // Where a controller's framed payload ends up.
  ghost predicate Placed(framed: Framed, s: Source, completed: map<Source, seq<string>>,
                         passed: map<Source, seq<string>>) {
    match framed
    case Complete(tokens) => s in completed && completed[s] == tokens && s !in passed
    case Single(tokens) => s in passed && passed[s] == tokens && s !in completed
    case Short => s !in completed && s !in passed
  }

  lemma AllPlaced(groups: map<Source, seq<seq<string>>>, tagged: seq<Tagged>,
                  completed: map<Source, seq<string>>, passed: map<Source, seq<string>>)
    requires Groups(groups, tagged)
    requires forall s :: s in groups ==> !Torn(groups[s]) && Placed(FrameOne(groups[s]), s, completed, passed)
    requires completed.Keys <= groups.Keys && passed.Keys <= groups.Keys
    ensures completed.Keys !! passed.Keys && Payloads(completed + passed, tagged)
  {
    hide FrameOne, Torn, StartsMessage, BodiesOf;
  }

  lemma GroupsDecide(groups: map<Source, seq<seq<string>>>, tagged: seq<Tagged>)
    requires Groups(groups, tagged)
    ensures AnyTorn(tagged) <==> exists s :: s in groups && Torn(groups[s])
    ensures AnyMessage(tagged) <==> exists s :: s in groups && StartsMessage(groups[s])
  {
    assert !Torn([]) && !StartsMessage([]);
    hide Torn, StartsMessage, BodiesOf;
  }

  // The controllers one by one, in any order; messages and single frames are collected apart.
  method FrameGroups(groups: map<Source, seq<seq<string>>>, ghost tagged: seq<Tagged>)
    returns (frames: Frames, found: bool, torn: bool)
    requires Groups(groups, tagged)
    ensures torn <==> AnyTorn(tagged)
    ensures !torn ==> (found <==> AnyMessage(tagged))
    ensures !torn ==> exists m :: Payloads(m, tagged) && Lists(frames, m)
  {
    NothingListed();
    hide FrameOne, IsFirstFrame, BodiesOf, Lists, Payloads, AnyMessage;
    var messages: Frames, singles: Frames := [], [];
    ghost var completed: map<Source, seq<string>>, passed: map<Source, seq<string>> := map[], map[];
    found, torn, frames := false, false, [];
    var todo := groups.Keys;
    while todo != {}
      invariant todo <= groups.Keys
      invariant forall s :: s in groups.Keys - todo ==> !Torn(groups[s])
      invariant found <==> exists s :: s in groups.Keys - todo && StartsMessage(groups[s])
      invariant Lists(messages, completed) && Lists(singles, passed)
      invariant completed.Keys <= groups.Keys - todo && passed.Keys <= groups.Keys - todo
      invariant forall s :: s in groups.Keys - todo ==> Placed(FrameOne(groups[s]), s, completed, passed)
    {
      var source :| source in todo;
      var own := groups[source];
      if StartsMessage(own) && |own[0]| < 2 {
        assert Torn(BodiesOf(tagged, source));
        return [], true, true;
      }
      found := found || StartsMessage(own);
      todo := todo - {source};
      var framed := FrameController(own);
      match framed {
        case Single(tokens) =>
          ListsAdd(singles, passed, source, tokens);
          singles, passed := singles + [(source, tokens)], passed[source := tokens];
        case Complete(tokens) =>
          ListsAdd(messages, completed, source, tokens);
          messages, completed := messages + [(source, tokens)], completed[source := tokens];
        case Short =>
      }
    }
    frames := messages + singles;
    GroupsDecide(groups, tagged);
    AllPlaced(groups, tagged, completed, passed);
    ListsJoin(messages, singles, completed, passed);
  }

  /** Hash-map iteration order is any order. */
  method AssembleIsoTp(bus: Bus, lines: seq<Line>) returns (result: Result<Option<Frames>, Fault>)
    ensures |lines| < 2 ==> result == Success(None)
    ensures |lines| >= 2 ==>
              var tagged := Tag(bus, lines);
              && (result.Failure? <==> AnyTorn(tagged))
              && (result.Success? ==>
                    && (result.value.Some? <==> AnyMessage(tagged))
                    && (result.value.Some? ==> exists m :: Payloads(m, tagged) && Lists(result.value.value, m)))
  {
    if |lines| < 2 {
      return Success(None);
    }
    ghost var tagged := Tag(bus, lines);
    var groups := GroupLines(Tag(bus, lines));
    var frames, found, torn := FrameGroups(groups, tagged);
    result := if torn then Failure(TornFirstFrame) else Success(if found then Some(frames) else None);
  }

  // ---------------------------------------------------------------- splitting at the headers

  function Flush(source: Source, tokens: seq<string>): Frames {
    if tokens == [] then [] else [(source, StripPci(tokens))]
  }

  /** Walk the tokens: a header closes the payload before it, anything else joins the open payload. */
  function SplitFrom(bus: Bus, tokens: seq<string>, source: Source, current: seq<string>): Frames
    decreases |tokens|
  {
    if tokens == [] then Flush(source, current)
    else
      match bus.Read(tokens)
      case Some((c, n)) => Flush(source, current) + SplitFrom(bus, tokens[n..], Ecu(c), [])
      case None => SplitFrom(bus, tokens[1..], source, current + [Upper(tokens[0])])
  }

  method FlushInto(results: Frames, source: Source, tokens: seq<string>) returns (more: Frames)
    ensures more == results + Flush(source, tokens)
  {
    more := results;
    if tokens != [] {
      var stripped := StripPciByte(tokens);
      more := more + [(source, stripped)];
    }
  }

  lemma SplitStep(bus: Bus, tokens: seq<string>, i: nat, source: Source, current: seq<string>, results: Frames)
    requires i < |tokens|
    ensures
      results + SplitFrom(bus, tokens[i..], source, current) ==
      match bus.Read(tokens[i..])
      case Some((c, n)) => results + Flush(source, current) + SplitFrom(bus, tokens[i + n..], Ecu(c), [])
      case None => results + SplitFrom(bus, tokens[i + 1..], source, current + [Upper(tokens[i])])
  {
    hide Bus.Read, Flush, Upper;
    var rest := tokens[i..];
    assert rest[1..] == tokens[i + 1..] && forall n :: 0 <= n <= |rest| ==> rest[n..] == tokens[i + n..];
  }

  lemma SplitEnd(bus: Bus, tokens: seq<string>, source: Source, current: seq<string>)
    ensures SplitFrom(bus, tokens[|tokens|..], source, current) == Flush(source, current)
  {
  }

  method SplitControllers(bus: Bus, tokens: seq<string>) returns (results: Frames)
    ensures results == SplitFrom(bus, tokens, Default, [])
  {
    hide Bus.Read, SplitFrom, Flush, Upper;
    results := [];
    var currentSource, currentTokens: seq<string> := Default, [];
    var i := 0;
    assert tokens[0..] == tokens;
    while i < |tokens|
      invariant 0 <= i <= |tokens|
      invariant results + SplitFrom(bus, tokens[i..], currentSource, currentTokens) ==
                SplitFrom(bus, tokens, Default, [])
    {
      SplitStep(bus, tokens, i, currentSource, currentTokens, results);
      match bus.Read(tokens[i..]) {
        case Some((controller, consumed)) =>
          results := FlushInto(results, currentSource, currentTokens);
          currentSource, currentTokens := Ecu(controller), [];
          i := i + consumed;
        case None =>
          currentTokens := currentTokens + [Upper(tokens[i])];
          i := i + 1;
      }
    }
    SplitEnd(bus, tokens, currentSource, currentTokens);
    results := FlushInto(results, currentSource, currentTokens);
  }

  /** Every outcome `frame_controllers` can have on these lines. */
  ghost predicate FramesTo(bus: Bus, lines: seq<Line>, result: Result<Frames, Fault>) {
    var tagged := Tag(bus, lines);
    if |lines| >= 2 && AnyTorn(tagged) then result.Failure?
    else
      result.Success? &&
      if |lines| >= 2 && AnyMessage(tagged) then exists m :: Payloads(m, tagged) && Lists(result.value, m)
      else result.value == SplitFrom(bus, Flatten(lines), Default, [])
  }

  method FrameControllers(bus: Bus, lines: seq<Line>) returns (result: Result<Frames, Fault>)
    ensures FramesTo(bus, lines, result)
  {
    var assembled := AssembleIsoTp(bus, lines);
    if assembled.Failure? {
      return Failure(assembled.error);
    }
    match assembled.value {
      case Some(frames) => result := Success(frames);
      case None =>
        var frames := SplitControllers(bus, Flatten(lines));
        result := Success(frames);
    }
  }

  // ---------------------------------------------------------------- a torn first frame

  // A first frame cut after its first byte, and another line from the same controller.
  const TORN: seq<Line> := [["7E8", "10"], ["7E8", "21", "00"]]

  lemma TornTagged()
    ensures Tag(Can11, TORN) == [Tagged(Ecu(0x7E0), ["10"]), Tagged(Ecu(0x7E0), ["21", "00"])]
  {
    var id := "7E8";
    assert id[..2][..1][..0] == [] && id[..2] == "7E" && id[..1] == "7";
    assert DigitsValue(id[..2][..1]) == 7;
    assert DigitsValue(id[..2]) == 0x7E;
    assert DigitsValue(id) == 0x7E8;
    assert Can11.Read(TORN[0]) == Some((0x7E0, 1)) && Can11.Read(TORN[1]) == Some((0x7E0, 1));
    hide Bus.Read;
    assert TORN[..1] == [TORN[0]] && TORN[..1][..0] == [];
    assert Tag(Can11, TORN[..1][..0]) == [];
    assert Tag(Can11, TORN[..1]) == [TagLine(Can11, TORN[0])];
  }

  /** Two lines on which framing stops with the fault. */
  lemma TornStops(result: Result<Frames, Fault>)
    requires FramesTo(Can11, TORN, result)
    ensures AnyTorn(Tag(Can11, TORN)) && result.Failure?
  {
    TornTagged();
    TornBodies();
    hide Tag, BodiesOf;
  }

  lemma TornBodies()
    ensures Torn(BodiesOf([Tagged(Ecu(0x7E0), ["10"]), Tagged(Ecu(0x7E0), ["21", "00"])], Ecu(0x7E0)))
  {
    var tagged := [Tagged(Ecu(0x7E0), ["10"]), Tagged(Ecu(0x7E0), ["21", "00"])];
    assert tagged[..1][..0] == [];
    assert BodiesOf(tagged[..1], Ecu(0x7E0)) == [["10"]];
    assert BodiesOf(tagged, Ecu(0x7E0)) == [["10"], ["21", "00"]];
    assert "10"[..1] == "1" && "10"[..1][..0] == [];
    assert DigitsValue("10"[..1]) == 1;
    assert DigitsValue("10") == 16;
    assert Control("10") == Some(16);
  }
}
