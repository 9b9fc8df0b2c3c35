/**
 Pick-time admission and segment grouping: chunkable picks share a wire segment, one mode and (mode 22)
 one target per chunk, everything else rides alone, and an exchange is limited in segments.
 */
module Acquisition {
  import opened Wrappers
  import opened Text
  import opened Sequences
  import opened LengthCaching

  const CHUNK_MAX_PIDS: nat := 6
  const MODE22_CHUNK_MAX_DIDS: nat := 2
  const PIPE_MAX_SEGMENTS: nat := 12

  datatype DuePick = DuePick(pid: string, controller: Option<string>, timeoutMs: Option<nat>)

  datatype ChunkClass = Mode01 | Mode22

  /** What picks must share to ride one chunk. Mode 01 requests are functional, so they ignore the target. */
  datatype Slot = Slot(class_: ChunkClass, target: Option<string>)

  predicate IsPlainMode01DataPid(pid: string) {
    var p := Upper(Trim(pid));
    && |p| == 4 && "01" <= p && ParseU8(p[2..]).Some?
    && p[2..] !in {"00", "20", "40", "60", "01"}
  }

  predicate IsPlainMode22DataPid(pid: string) {
    var p := Upper(Trim(pid));
    && |p| == 6 && "22" <= p && ParseU16(p[2..]).Some?
    && !("F2" <= p[2..]) && !("00" <= p[2..])
  }

  datatype Admission = Admission(
    maxSegments: nat, chunkLimit: nat, chunk22Limit: nat, lengths: Option<Lengths>, excluded: set<string>)
  {
    function ChunkClassOf(pid: string): Option<ChunkClass> {
      if Upper(Trim(pid)) in excluded || lengths.None? || LengthOf(lengths.value, pid).None? then None
      else if chunkLimit > 1 && IsPlainMode01DataPid(pid) then Some(Mode01)
      else if chunk22Limit > 1 && IsPlainMode22DataPid(pid) then Some(Mode22)
      else None
    }

    // The chunk a pick may join; `None` rides alone.
    function SlotOf(p: DuePick): Option<Slot> {
      match ChunkClassOf(p.pid)
      case Some(Mode01) => Some(Slot(Mode01, None))
      case Some(Mode22) => Some(Slot(Mode22, p.controller))
      case None => None
    }

    function LimitOf(slot: Option<Slot>): nat {
      match slot
      case None => 1
      case Some(s) => if s.class_.Mode01? then chunkLimit else chunk22Limit
    }
  }

  datatype Chunk = Chunk(slot: Slot, members: seq<DuePick>)

  function Members(chunks: seq<Chunk>): (r: seq<seq<DuePick>>)
    ensures |r| == |chunks|
    ensures forall i :: 0 <= i < |chunks| ==> r[i] == chunks[i].members
  {
    seq(|chunks|, i requires 0 <= i < |chunks| => chunks[i].members)
  }

  function Singles(solos: seq<DuePick>): (r: seq<seq<DuePick>>)
    ensures |r| == |solos|
    ensures forall i :: 0 <= i < |solos| ==> r[i] == [solos[i]]
  {
    seq(|solos|, i requires 0 <= i < |solos| => [solos[i]])
  }

  /** Open chunks in fill order, and the picks that ride alone. */
  datatype Grouping = Grouping(chunks: seq<Chunk>, solos: seq<DuePick>) {
    function Segments(): seq<seq<DuePick>> {
      Members(chunks) + Singles(solos)
    }
  }

  predicate HasRoom(a: Admission, c: Chunk, slot: Slot) {
    c.slot == slot && |c.members| < a.LimitOf(Some(slot))
  }

  // The first chunk of the slot with room takes the pick; a new chunk if there is none.
  function Place(a: Admission, chunks: seq<Chunk>, slot: Slot, p: DuePick): seq<Chunk> {
    if chunks == [] then [Chunk(slot, [p])]
    else if HasRoom(a, chunks[0], slot) then [Chunk(slot, chunks[0].members + [p])] + chunks[1..]
    else [chunks[0]] + Place(a, chunks[1..], slot, p)
  }

  function GroupPicks(a: Admission, due: seq<DuePick>): Grouping {
    if due == [] then Grouping([], [])
    else
      var g, p := GroupPicks(a, due[..|due| - 1]), due[|due| - 1];
      match a.SlotOf(p)
      case Some(slot) => g.(chunks := Place(a, g.chunks, slot, p))
      case None => g.(solos := g.solos + [p])
  }

  function Group(a: Admission, due: seq<DuePick>): seq<seq<DuePick>> {
    GroupPicks(a, due).Segments()
  }

  predicate Fits(a: Admission, due: seq<DuePick>) {
    |Group(a, due)| <= a.maxSegments
  }

  predicate Admits(a: Admission, already: seq<DuePick>, candidate: DuePick) {
    Fits(a, already + [candidate])
  }

  lemma PlaceStep(a: Admission, chunks: seq<Chunk>, slot: Slot, p: DuePick, i: nat)
    requires i < |chunks| && !HasRoom(a, chunks[i], slot)
    ensures chunks[..i] + Place(a, chunks[i..], slot, p) == chunks[..i + 1] + Place(a, chunks[i + 1..], slot, p)
  {
    hide HasRoom;
    assert chunks[i..][1..] == chunks[i + 1..];
    assert chunks[..i + 1] == chunks[..i] + [chunks[i]];
  }

  method PlacePick(a: Admission, chunks: seq<Chunk>, slot: Slot, p: DuePick) returns (placed: seq<Chunk>)
    ensures placed == Place(a, chunks, slot, p)
  {
    hide HasRoom;
    var i := 0;
    while i < |chunks| && !HasRoom(a, chunks[i], slot)
      invariant 0 <= i <= |chunks|
      invariant Place(a, chunks, slot, p) == chunks[..i] + Place(a, chunks[i..], slot, p)
    {
      PlaceStep(a, chunks, slot, p, i);
      i := i + 1;
    }
    if i < |chunks| {
      placed := chunks[i := Chunk(slot, chunks[i].members + [p])];
      assert chunks[i..][1..] == chunks[i + 1..];
    } else {
      placed := chunks + [Chunk(slot, [p])];
    }
  }

  method GroupDue(a: Admission, due: seq<DuePick>) returns (segments: seq<seq<DuePick>>)
    ensures segments == Group(a, due)
  {
    var chunks: seq<Chunk>, solos: seq<DuePick> := [], [];
    var i := 0;
    while i < |due|
      invariant 0 <= i <= |due|
      invariant Grouping(chunks, solos) == GroupPicks(a, due[..i])
    {
      assert due[..i + 1][..i] == due[..i];
      match a.SlotOf(due[i]) {
        case Some(slot) => chunks := PlacePick(a, chunks, slot, due[i]);
        case None => solos := solos + [due[i]];
      }
      i := i + 1;
    }
    assert due[..i] == due;
    segments := Grouping(chunks, solos).Segments();
  }

  // ---------------------------------------------------------------- what a wire exchange may look like

  ghost predicate LegalSegment(a: Admission, seg: seq<DuePick>) {
    && seg != [] && |seg| <= a.LimitOf(a.SlotOf(seg[0]))
    && forall i :: 0 <= i < |seg| ==> a.SlotOf(seg[i]) == a.SlotOf(seg[0])
  }

  /** `segments` carry exactly the picks `due`, in segments that may go on the wire. */
  ghost predicate Legal(a: Admission, segments: seq<seq<DuePick>>, due: seq<DuePick>) {
    && multiset(Flatten(segments)) == multiset(due)
    && forall i :: 0 <= i < |segments| ==> LegalSegment(a, segments[i])
  }
}
