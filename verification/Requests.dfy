/**
 What a vehicle reads in a request: the mode once, then one identifier after another, two digits each in
 mode 01 and four in mode 22. Building the wire is undone by it.
 */
module Requests {
  import opened Text
  import opened ElmWire

  function Prefixed(mode: string, parts: seq<string>): (r: seq<string>)
    ensures |r| == |parts|
    ensures forall i :: 0 <= i < |parts| ==> r[i] == mode + parts[i]
  {
    seq(|parts|, i requires 0 <= i < |parts| => mode + parts[i])
  }

  /** The pids one request asks for; none if it is not a mode and whole identifiers. */
  function Asked(request: string): seq<string> {
    if "01" <= request && |request| % 2 == 0 then Prefixed("01", Cut(request[2..], 2))
    else if "22" <= request && |request| % 4 == 2 then Prefixed("22", Cut(request[2..], 4))
    else []
  }

  /** The pids a wire asks for, request by request. */
  function AskedAll(wire: string): (r: seq<seq<string>>)
    ensures
      var requests := Text.Split(wire, '|');
      |r| == |requests| && forall j :: 0 <= j < |requests| ==> r[j] == Asked(requests[j])
  {
    var requests := Text.Split(wire, '|');
    seq(|requests|, j requires 0 <= j < |requests| => Asked(requests[j]))
  }

  ghost predicate InMode(seg: seq<string>, mode: string, width: nat) {
    forall k :: 0 <= k < |seg| ==> |seg[k]| == 2 + width && mode <= seg[k]
  }

  /** Members of one mode, each the mode and an identifier of its width. */
  ghost predicate OneMode(seg: seq<string>) {
    seg != [] && (InMode(seg, "01", 2) || InMode(seg, "22", 4))
  }

  // The request of a segment: its mode, then the identifiers.
  lemma JoinedParts(seg: seq<string>, mode: string, width: nat)
    requires seg != [] && InMode(seg, mode, width) && |mode| == 2
    ensures Joinable(seg) && JoinChunkWire(seg) == mode + Concat(Suffixes(seg, mode))
    ensures Prefixed(mode, Suffixes(seg, mode)) == seg
    ensures forall k :: 0 <= k < |seg| ==> |Suffixes(seg, mode)[k]| == width
  {
    assert seg[0][..2] == mode;
    forall k | 0 <= k < |seg| ensures mode + Suffixes(seg, mode)[k] == seg[k] && |Suffixes(seg, mode)[k]| == width {
      assert seg[k] == seg[k][..2] + seg[k][2..] && seg[k][..2] == mode;
    }
    if |seg| == 1 {
      assert Suffixes(seg, mode)[1..] == [];
      assert Concat(Suffixes(seg, mode)) == Suffixes(seg, mode)[0];
    }
  }

  lemma AskedDigits(mode: string, digits: string, width: nat)
    requires (mode == "01" && width == 2) || (mode == "22" && width == 4)
    requires |digits| % width == 0
    ensures Asked(mode + digits) == Prefixed(mode, Cut(digits, width))
  {
    hide Cut, Prefixed;
    assert (mode + digits)[2..] == digits && (mode + digits)[0] == mode[0];
  }

  lemma AskedMode(seg: seq<string>, mode: string, width: nat)
    requires (mode == "01" && width == 2) || (mode == "22" && width == 4)
    requires seg != [] && InMode(seg, mode, width)
    ensures Joinable(seg) && Asked(JoinChunkWire(seg)) == seg
  {
    hide *;
    JoinedParts(seg, mode, width);
    CutConcat(Suffixes(seg, mode), width);
    AskedDigits(mode, Concat(Suffixes(seg, mode)), width);
  }

  /** Reading a segment's request gives back its members, in order. */
  lemma AskedJoin(seg: seq<string>)
    requires OneMode(seg)
    ensures Joinable(seg) && Asked(JoinChunkWire(seg)) == seg
  {
    hide InMode, Asked, JoinChunkWire;
    if InMode(seg, "01", 2) { AskedMode(seg, "01", 2); } else { AskedMode(seg, "22", 4); }
  }

  /** Reading a wire gives back the segments it was built from. */
  lemma AskedEncoded(segments: seq<seq<string>>)
    requires segments != []
    requires forall j :: 0 <= j < |segments| ==>
               OneMode(segments[j]) && Joinable(segments[j]) && Free(JoinChunkWire(segments[j]), '|')
    ensures AskedAll(EncodeWire(segments)) == segments
  {
    SplitJoin(ChunkWires(segments), '|');
    forall j | 0 <= j < |segments| ensures Asked(JoinChunkWire(segments[j])) == segments[j] { AskedJoin(segments[j]); }
    hide Asked, JoinChunkWire, OneMode, Joinable, Free;
  }
}
