/**
 What the greedy grouping achieves: its segments are legal, carry exactly the picks, and are as few as any
 legal segments of the same picks. Hence admission ignores the order of the picks and accepts every part
 of an accepted list.
 */
module GroupingOptimal {
  import opened Wrappers
  import opened Text
  import opened LengthCaching
  import opened Sequences
  import opened Sums
  import opened Acquisition

  // ---------------------------------------------------------------- counting

  function Picks(a: Admission, due: seq<DuePick>, slot: Option<Slot>): nat {
    if due == [] then 0
    else Picks(a, due[..|due| - 1], slot) + if a.SlotOf(due[|due| - 1]) == slot then 1 else 0
  }

  function SegmentsFor(a: Admission, segments: seq<seq<DuePick>>, slot: Option<Slot>): nat {
    if segments == [] then 0
    else
      var last := segments[|segments| - 1];
      SegmentsFor(a, segments[..|segments| - 1], slot) + if last != [] && a.SlotOf(last[0]) == slot then 1 else 0
  }

  ghost function Slots(a: Admission, due: seq<DuePick>): set<Option<Slot>> {
    set i | 0 <= i < |due| :: a.SlotOf(due[i])
  }

  /** One segment per started chunk of every slot: the least an exchange can take. */
  ghost function Cost(a: Admission, due: seq<DuePick>): nat {
    Sum(Slots(a, due), slot => CeilDiv(Picks(a, due, slot), a.LimitOf(slot)))
  }

  // Every segment belongs to one slot.
  lemma {:induction false} SegmentsBySlot(a: Admission, segments: seq<seq<DuePick>>, slots: set<Option<Slot>>)
    requires forall i :: 0 <= i < |segments| ==> segments[i] != [] && a.SlotOf(segments[i][0]) in slots
    ensures Sum(slots, slot => SegmentsFor(a, segments, slot)) == |segments|
  {
    hide Admission.SlotOf;
    if segments == [] {
      SumZero(slots, slot => SegmentsFor(a, segments, slot));
    } else {
      var k := |segments| - 1;
      SegmentsBySlot(a, segments[..k], slots);
      SumAt(slots, slot => SegmentsFor(a, segments[..k], slot), slot => SegmentsFor(a, segments, slot),
            a.SlotOf(segments[k][0]));
    }
  }

  lemma {:induction false} PicksAppend(a: Admission, x: seq<DuePick>, y: seq<DuePick>, slot: Option<Slot>)
    ensures Picks(a, x + y, slot) == Picks(a, x, slot) + Picks(a, y, slot)
  {
    hide Admission.SlotOf;
    if y == [] {
      assert x + y == x;
    } else {
      var k := |y| - 1;
      assert (x + y)[..|x + y| - 1] == x + y[..k];
      PicksAppend(a, x, y[..k], slot);
    }
  }

  lemma {:induction false} SegmentsAppend(a: Admission, x: seq<seq<DuePick>>, y: seq<seq<DuePick>>, slot: Option<Slot>)
    ensures SegmentsFor(a, x + y, slot) == SegmentsFor(a, x, slot) + SegmentsFor(a, y, slot)
  {
    hide Admission.SlotOf;
    if y == [] {
      assert x + y == x;
    } else {
      var k := |y| - 1;
      assert (x + y)[..|x + y| - 1] == x + y[..k];
      SegmentsAppend(a, x, y[..k], slot);
    }
  }

  lemma {:induction false} PicksUniform(a: Admission, seg: seq<DuePick>, slot: Option<Slot>)
    requires forall i :: 0 <= i < |seg| ==> a.SlotOf(seg[i]) == a.SlotOf(seg[0])
    ensures Picks(a, seg, slot) == if seg != [] && a.SlotOf(seg[0]) == slot then |seg| else 0
  {
    hide Admission.SlotOf;
    if |seg| > 1 {
      PicksUniform(a, seg[..|seg| - 1], slot);
    }
  }

  lemma OneMore(before: nat, limit: nat, picks: nat, size: nat)
    requires picks <= before * limit && size <= limit
    ensures picks + size <= (before + 1) * limit
  {
    assert (before + 1) * limit == before * limit + limit;
  }

  // A slot's segments hold its picks, so there are enough of them.
  lemma {:induction false} EnoughSegments(a: Admission, segments: seq<seq<DuePick>>, slot: Option<Slot>)
    requires forall i :: 0 <= i < |segments| ==> LegalSegment(a, segments[i])
    ensures Picks(a, Flatten(segments), slot) <= SegmentsFor(a, segments, slot) * a.LimitOf(slot)
  {
    hide Admission.SlotOf, Admission.LimitOf;
    if segments != [] {
      var k := |segments| - 1;
      assert forall i :: 0 <= i < k ==> segments[..k][i] == segments[i];
      EnoughSegments(a, segments[..k], slot);
      PicksAppend(a, Flatten(segments[..k]), segments[k], slot);
      PicksUniform(a, segments[k], slot);
      assert LegalSegment(a, segments[k]);
      if a.SlotOf(segments[k][0]) == slot {
        OneMore(SegmentsFor(a, segments[..k], slot), a.LimitOf(slot), Picks(a, Flatten(segments[..k]), slot),
                |segments[k]|);
      }
    }
  }

  lemma {:induction false} PicksBound(a: Admission, part: seq<DuePick>, whole: seq<DuePick>, slot: Option<Slot>)
    requires multiset(part) <= multiset(whole)
    ensures Picks(a, part, slot) <= Picks(a, whole, slot)
    decreases |part|
  {
    hide Admission.SlotOf;
    if part != [] {
      var j := TakeOut(part, whole);
      PicksBound(a, part[..|part| - 1], whole[..j] + whole[j + 1..], slot);
      PicksAppend(a, whole[..j], whole[j + 1..], slot);
      PicksAppend(a, whole[..j + 1], whole[j + 1..], slot);
      assert whole[..j + 1] + whole[j + 1..] == whole;
      assert whole[..j + 1][..j] == whole[..j];
    }
  }

  lemma PicksPermute(a: Admission, x: seq<DuePick>, y: seq<DuePick>, slot: Option<Slot>)
    requires multiset(x) == multiset(y)
    ensures Picks(a, x, slot) == Picks(a, y, slot)
  {
    PicksBound(a, x, y, slot);
    PicksBound(a, y, x, slot);
  }

  // ---------------------------------------------------------------- the cost

  lemma SlotsSubset(a: Admission, part: seq<DuePick>, whole: seq<DuePick>)
    requires multiset(part) <= multiset(whole)
    ensures Slots(a, part) <= Slots(a, whole)
  {
    hide Admission.SlotOf;
    forall s | s in Slots(a, part) ensures s in Slots(a, whole) {
      var i :| 0 <= i < |part| && a.SlotOf(part[i]) == s;
      assert part[i] in multiset(part);
      assert part[i] in multiset(whole);
    }
  }

  // Fewer picks never cost more.
  lemma CostMonotone(a: Admission, part: seq<DuePick>, whole: seq<DuePick>)
    requires multiset(part) <= multiset(whole)
    ensures Cost(a, part) <= Cost(a, whole)
  {
    hide Admission.SlotOf, Admission.LimitOf, CeilDiv;
    var f := slot => CeilDiv(Picks(a, part, slot), a.LimitOf(slot));
    var g := slot => CeilDiv(Picks(a, whole, slot), a.LimitOf(slot));
    forall s ensures f(s) <= g(s) {
      PicksBound(a, part, whole, s);
      CeilDivMonotone(Picks(a, part, s), Picks(a, whole, s), a.LimitOf(s));
    }
    SlotsSubset(a, part, whole);
    SumMonotone(Slots(a, part), f, g);
    SumSubset(Slots(a, part), Slots(a, whole), g);
  }

  lemma SlotLimit(a: Admission, p: DuePick)
    ensures a.LimitOf(a.SlotOf(p)) >= 1
  {
  }

  lemma {:induction false} FlattenMember(segments: seq<seq<DuePick>>, i: nat)
    requires i < |segments| && segments[i] != []
    ensures segments[i][0] in Flatten(segments)
  {
    var k := |segments| - 1;
    if i < k { FlattenMember(segments[..k], i); }
  }

  // The slots of legal segments are the slots of the picks they carry.
  lemma LegalSlots(a: Admission, segments: seq<seq<DuePick>>, due: seq<DuePick>)
    requires Legal(a, segments, due)
    ensures forall i :: 0 <= i < |segments| ==> segments[i] != [] && a.SlotOf(segments[i][0]) in Slots(a, due)
  {
    hide Admission.SlotOf, Admission.LimitOf;
    forall i | 0 <= i < |segments| ensures segments[i] != [] && a.SlotOf(segments[i][0]) in Slots(a, due) {
      assert LegalSegment(a, segments[i]);
      FlattenMember(segments, i);
      assert segments[i][0] in multiset(Flatten(segments));
      assert segments[i][0] in multiset(due);
    }
  }

  lemma LegalSlotCost(a: Admission, segments: seq<seq<DuePick>>, due: seq<DuePick>, s: Option<Slot>)
    requires Legal(a, segments, due) && s in Slots(a, due)
    ensures a.LimitOf(s) >= 1 && Picks(a, due, s) <= SegmentsFor(a, segments, s) * a.LimitOf(s)
  {
    var i :| 0 <= i < |due| && a.SlotOf(due[i]) == s;
    SlotLimit(a, due[i]);
    hide Admission.SlotOf, Admission.LimitOf, LegalSegment;
    EnoughSegments(a, segments, s);
    PicksPermute(a, Flatten(segments), due, s);
  }

  /** No legal exchange of these picks takes fewer segments than their cost. */
  lemma LegalCost(a: Admission, segments: seq<seq<DuePick>>, due: seq<DuePick>)
    requires Legal(a, segments, due)
    ensures Cost(a, due) <= |segments|
  {
    LegalSlots(a, segments, due);
    SegmentsBySlot(a, segments, Slots(a, due));
    var f := slot => CeilDiv(Picks(a, due, slot), a.LimitOf(slot));
    var g := slot => SegmentsFor(a, segments, slot);
    hide Admission.SlotOf, Admission.LimitOf, LegalSegment, CeilDiv, Legal;
    forall s | s in Slots(a, due) ensures f(s) <= g(s) {
      LegalSlotCost(a, segments, due, s);
      CeilDivLeast(Picks(a, due, s), a.LimitOf(s), g(s));
    }
    SumMonotone(Slots(a, due), f, g);
  }

  // ---------------------------------------------------------------- the greedy grouping

  ghost predicate ChunkOk(a: Admission, c: Chunk) {
    && c.members != [] && |c.members| <= a.LimitOf(Some(c.slot))
    && forall i :: 0 <= i < |c.members| ==> a.SlotOf(c.members[i]) == Some(c.slot)
  }

  // All of a slot's segments but at most one are full.
  ghost predicate Packed(a: Admission, segments: seq<seq<DuePick>>, slot: Option<Slot>) {
    SegmentsFor(a, segments, slot) * a.LimitOf(slot) < Picks(a, Flatten(segments), slot) + a.LimitOf(slot)
  }

  lemma PlaceUnfolds(a: Admission, chunks: seq<Chunk>, slot: Slot, p: DuePick)
    ensures Place(a, chunks, slot, p) ==
            if chunks == [] then [Chunk(slot, [p])]
            else if HasRoom(a, chunks[0], slot) then [Chunk(slot, chunks[0].members + [p])] + chunks[1..]
            else [chunks[0]] + Place(a, chunks[1..], slot, p)
  {
  }

  lemma PlaceFound(a: Admission, chunks: seq<Chunk>, slot: Slot, p: DuePick) returns (i: nat)
    ensures i <= |chunks| && forall j :: 0 <= j < i ==> !HasRoom(a, chunks[j], slot)
    ensures i < |chunks| ==> HasRoom(a, chunks[i], slot)
    ensures Place(a, chunks, slot, p) ==
            if i < |chunks| then chunks[..i] + [Chunk(slot, chunks[i].members + [p])] + chunks[i + 1..]
            else chunks + [Chunk(slot, [p])]
  {
    PlaceUnfolds(a, chunks, slot, p);
    hide HasRoom, Place;
    if chunks == [] || HasRoom(a, chunks[0], slot) {
      i := 0;
    } else {
      var k := PlaceFound(a, chunks[1..], slot, p);
      i := k + 1;
      if i < |chunks| {
        ReplaceLater(chunks, k, Chunk(slot, chunks[i].members + [p]));
      } else {
        assert [chunks[0]] + (chunks[1..] + [Chunk(slot, [p])]) == chunks + [Chunk(slot, [p])];
      }
    }
  }

  // All of a slot's segments are full.
  ghost predicate AllFull(a: Admission, segments: seq<seq<DuePick>>, slot: Option<Slot>) {
    SegmentsFor(a, segments, slot) * a.LimitOf(slot) <= Picks(a, Flatten(segments), slot)
  }

  lemma FullJoin(a: Admission, x: seq<seq<DuePick>>, y: seq<seq<DuePick>>, slot: Option<Slot>)
    requires AllFull(a, x, slot) && AllFull(a, y, slot)
    ensures AllFull(a, x + y, slot)
  {
    SegmentsAppend(a, x, y, slot);
    FlattenAppend(x, y);
    PicksAppend(a, Flatten(x), Flatten(y), slot);
    hide SegmentsFor, Picks, Flatten, Admission.LimitOf;
    var i, j, limit := SegmentsFor(a, x, slot), SegmentsFor(a, y, slot), a.LimitOf(slot);
    assert (i + j) * limit == i * limit + j * limit;
  }

  lemma OneSegment(a: Admission, segment: seq<DuePick>, slot: Option<Slot>)
    requires segment != []
    ensures SegmentsFor(a, [segment], slot) == if a.SlotOf(segment[0]) == slot then 1 else 0
  {
    hide Admission.SlotOf;
    assert [segment][..0] == [];
  }

  // A chunk without room is full or of another slot.
  lemma ChunkFull(a: Admission, c: Chunk, slot: Slot)
    requires ChunkOk(a, c) && !HasRoom(a, c, slot)
    ensures AllFull(a, [c.members], Some(slot))
  {
    hide Admission.SlotOf, Admission.LimitOf, Picks, Flatten, SegmentsFor;
    PicksUniform(a, c.members, Some(slot));
    FlattenOne(c.members);
    OneSegment(a, c.members, Some(slot));
  }

  lemma {:induction false} FullSegments(a: Admission, chunks: seq<Chunk>, slot: Slot)
    requires forall i :: 0 <= i < |chunks| ==> ChunkOk(a, chunks[i]) && !HasRoom(a, chunks[i], slot)
    ensures AllFull(a, Members(chunks), Some(slot))
  {
    hide Admission.SlotOf, Admission.LimitOf, ChunkOk, HasRoom, Picks, Flatten;
    if chunks != [] {
      var k := |chunks| - 1;
      FullSegments(a, chunks[..k], slot);
      ChunkFull(a, chunks[k], slot);
      hide AllFull;
      FullJoin(a, Members(chunks[..k]), [chunks[k].members], Some(slot));
      assert Members(chunks) == Members(chunks[..k]) + [chunks[k].members];
    }
  }

  // Splitting a list of chunks at one of them.
  lemma SegmentsAround(a: Admission, before: seq<Chunk>, c: Chunk, after: seq<Chunk>, s: Option<Slot>)
    requires c.members != []
    ensures SegmentsFor(a, Members(before + [c] + after), s) ==
            SegmentsFor(a, Members(before), s) + (if a.SlotOf(c.members[0]) == s then 1 else 0) +
                SegmentsFor(a, Members(after), s)
    ensures Flatten(Members(before + [c] + after)) == Flatten(Members(before)) + c.members + Flatten(Members(after))
  {
    hide Admission.SlotOf;
    var b := Members(before) + [c.members];
    assert Members(before + [c] + after) == b + Members(after);
    assert b[..|before|] == Members(before);
    SegmentsAppend(a, b, Members(after), s);
    FlattenAppend(b, Members(after));
  }

  lemma JoinChunk(a: Admission, chunks: seq<Chunk>, i: nat, p: DuePick, s: Option<Slot>)
    requires i < |chunks| && chunks[i].members != []
    ensures
      var placed := chunks[..i] + [Chunk(chunks[i].slot, chunks[i].members + [p])] + chunks[i + 1..];
      && multiset(Flatten(Members(placed))) == multiset(Flatten(Members(chunks))) + multiset{p}
      && SegmentsFor(a, Members(placed), s) == SegmentsFor(a, Members(chunks), s)
  {
    hide Admission.SlotOf;
    var before, after := chunks[..i], chunks[i + 1..];
    assert chunks == before + [chunks[i]] + after;
    SegmentsAround(a, before, chunks[i], after, s);
    SegmentsAround(a, before, Chunk(chunks[i].slot, chunks[i].members + [p]), after, s);
  }

  lemma OpenChunk(a: Admission, chunks: seq<Chunk>, slot: Slot, p: DuePick, s: Option<Slot>)
    ensures
      var placed := chunks + [Chunk(slot, [p])];
      && multiset(Flatten(Members(placed))) == multiset(Flatten(Members(chunks))) + multiset{p}
      && SegmentsFor(a, Members(placed), s) == SegmentsFor(a, Members(chunks), s) + if a.SlotOf(p) == s then 1 else 0
  {
    hide Admission.SlotOf;
    var placed := chunks + [Chunk(slot, [p])];
    assert Members(placed)[..|chunks|] == Members(chunks);
  }

  lemma PicksAdd(a: Admission, x: seq<DuePick>, y: seq<DuePick>, p: DuePick, s: Option<Slot>)
    requires multiset(y) == multiset(x) + multiset{p}
    ensures Picks(a, y, s) == Picks(a, x, s) + if a.SlotOf(p) == s then 1 else 0
  {
    hide Admission.SlotOf;
    assert multiset(x + [p]) == multiset(y);
    PicksPermute(a, x + [p], y, s);
    assert (x + [p])[..|x|] == x;
  }

  lemma PlaceHolds(a: Admission, chunks: seq<Chunk>, slot: Slot, p: DuePick)
    requires forall i :: 0 <= i < |chunks| ==> ChunkOk(a, chunks[i])
    ensures multiset(Flatten(Members(Place(a, chunks, slot, p)))) == multiset(Flatten(Members(chunks))) + multiset{p}
  {
    var i := PlaceFound(a, chunks, slot, p);
    hide Admission.SlotOf, Admission.LimitOf, Place, Flatten;
    if i < |chunks| {
      assert ChunkOk(a, chunks[i]);
      JoinChunk(a, chunks, i, p, None);
    } else {
      OpenChunk(a, chunks, slot, p, None);
    }
  }

  // A slot gets a segment only if all it has are full.
  lemma PlaceSegments(a: Admission, chunks: seq<Chunk>, slot: Slot, p: DuePick, s: Option<Slot>)
    requires (forall i :: 0 <= i < |chunks| ==> ChunkOk(a, chunks[i])) && a.SlotOf(p) == Some(slot)
    ensures
      var before, after := SegmentsFor(a, Members(chunks), s), SegmentsFor(a, Members(Place(a, chunks, slot, p)), s);
      || after == before
      || (s == Some(slot) && after == before + 1 && before * a.LimitOf(s) <= Picks(a, Flatten(Members(chunks)), s))
  {
    var i := PlaceFound(a, chunks, slot, p);
    hide Admission.SlotOf, Admission.LimitOf, Place, Flatten, Picks;
    if i < |chunks| {
      assert ChunkOk(a, chunks[i]);
      JoinChunk(a, chunks, i, p, s);
    } else {
      OpenChunk(a, chunks, slot, p, s);
      if s == Some(slot) { FullSegments(a, chunks, slot); }
    }
  }

  lemma StillPacked(before: nat, after: nat, limit: nat, picks: nat, more: nat)
    requires before * limit < picks + limit && more >= picks
    requires after == before || (after == before + 1 && before * limit <= picks && more == picks + 1)
    ensures after * limit < more + limit
  {
    if after != before {
      assert after * limit == before * limit + limit;
    }
  }

  // Placing a pick keeps every slot packed.
  lemma PlacePacked(a: Admission, chunks: seq<Chunk>, slot: Slot, p: DuePick, s: Option<Slot>)
    requires (forall i :: 0 <= i < |chunks| ==> ChunkOk(a, chunks[i])) && a.SlotOf(p) == Some(slot)
    requires Packed(a, Members(chunks), s)
    ensures Packed(a, Members(Place(a, chunks, slot, p)), s)
  {
    hide Admission.SlotOf, Admission.LimitOf, Place, Flatten, Picks, SegmentsFor, ChunkOk;
    PlaceHolds(a, chunks, slot, p);
    PlaceSegments(a, chunks, slot, p, s);
    var placed := Place(a, chunks, slot, p);
    PicksAdd(a, Flatten(Members(chunks)), Flatten(Members(placed)), p, s);
    StillPacked(SegmentsFor(a, Members(chunks), s), SegmentsFor(a, Members(placed), s), a.LimitOf(s),
                Picks(a, Flatten(Members(chunks)), s), Picks(a, Flatten(Members(placed)), s));
  }

  lemma PlaceOk(a: Admission, chunks: seq<Chunk>, slot: Slot, p: DuePick)
    requires forall i :: 0 <= i < |chunks| ==> ChunkOk(a, chunks[i])
    requires a.SlotOf(p) == Some(slot) && a.LimitOf(Some(slot)) >= 1
    ensures forall i :: 0 <= i < |Place(a, chunks, slot, p)| ==> ChunkOk(a, Place(a, chunks, slot, p)[i])
  {
    hide Admission.SlotOf, Admission.LimitOf, Place;
    var i := PlaceFound(a, chunks, slot, p);
  }

  // What every prefix of the picks has been grouped into.
  ghost predicate GroupedOk(a: Admission, g: Grouping, due: seq<DuePick>) {
    && (forall i :: 0 <= i < |g.chunks| ==> ChunkOk(a, g.chunks[i]))
    && (forall i :: 0 <= i < |g.solos| ==> a.SlotOf(g.solos[i]) == None)
    && multiset(Flatten(Members(g.chunks))) + multiset(g.solos) == multiset(due)
    && (forall s :: a.LimitOf(s) >= 1 ==> Packed(a, Members(g.chunks), s))
  }

  lemma GroupedSlot(a: Admission, g: Grouping, due: seq<DuePick>, slot: Slot, p: DuePick)
    requires GroupedOk(a, g, due) && a.SlotOf(p) == Some(slot) && a.LimitOf(Some(slot)) >= 1
    ensures GroupedOk(a, g.(chunks := Place(a, g.chunks, slot, p)), due + [p])
  {
    hide Admission.SlotOf, Admission.LimitOf, Place, ChunkOk, Packed, Flatten;
    PlaceOk(a, g.chunks, slot, p);
    PlaceHolds(a, g.chunks, slot, p);
    forall s | a.LimitOf(s) >= 1 ensures Packed(a, Members(Place(a, g.chunks, slot, p)), s) {
      PlacePacked(a, g.chunks, slot, p, s);
    }
  }

  lemma GroupedSolo(a: Admission, g: Grouping, due: seq<DuePick>, p: DuePick)
    requires GroupedOk(a, g, due) && a.SlotOf(p) == None
    ensures GroupedOk(a, g.(solos := g.solos + [p]), due + [p])
  {
    hide Admission.SlotOf, Admission.LimitOf, ChunkOk, Packed, Flatten;
  }

  lemma GroupedNothing(a: Admission)
    ensures GroupedOk(a, Grouping([], []), [])
  {
    hide Admission.SlotOf, Admission.LimitOf;
  }

  lemma {:induction false} Grouped(a: Admission, due: seq<DuePick>)
    ensures GroupedOk(a, GroupPicks(a, due), due)
  {
    hide Admission.SlotOf, Admission.LimitOf, Place, GroupedOk;
    if due == [] {
      GroupedNothing(a);
    } else {
      var k, p := |due| - 1, due[|due| - 1];
      var g := GroupPicks(a, due[..k]);
      Grouped(a, due[..k]);
      assert due == due[..k] + [p];
      SlotLimit(a, p);
      match a.SlotOf(p)
      case Some(slot) => GroupedSlot(a, g, due[..k], slot, p);
      case None => GroupedSolo(a, g, due[..k], p);
    }
  }

  // ---------------------------------------------------------------- the results

  lemma {:induction false} SoloSegments(a: Admission, solos: seq<DuePick>, s: Option<Slot>)
    requires forall i :: 0 <= i < |solos| ==> a.SlotOf(solos[i]) == None
    ensures SegmentsFor(a, Singles(solos), s) == if s == None then |solos| else 0
    ensures Picks(a, solos, s) == if s == None then |solos| else 0
  {
    hide Admission.SlotOf;
    if solos != [] {
      var k := |solos| - 1;
      SoloSegments(a, solos[..k], s);
      assert Singles(solos)[..k] == Singles(solos[..k]);
    }
  }

  lemma {:induction false} SoloFlatten(solos: seq<DuePick>)
    ensures Flatten(Singles(solos)) == solos
  {
    if solos != [] {
      var k := |solos| - 1;
      SoloFlatten(solos[..k]);
      assert Singles(solos)[..k] == Singles(solos[..k]);
    }
  }

  lemma ChunkLegal(a: Admission, c: Chunk)
    requires ChunkOk(a, c)
    ensures LegalSegment(a, c.members)
  {
    hide Admission.SlotOf, Admission.LimitOf;
  }

  lemma GroupSegmentsLegal(a: Admission, due: seq<DuePick>)
    ensures forall i :: 0 <= i < |Group(a, due)| ==> LegalSegment(a, Group(a, due)[i])
  {
    Grouped(a, due);
    assert a.LimitOf(None) == 1;
    hide Admission.SlotOf, Admission.LimitOf, GroupPicks, Packed, Flatten, Members, Singles;
    var g := GroupPicks(a, due);
    forall i | 0 <= i < |Group(a, due)| ensures LegalSegment(a, Group(a, due)[i]) {
      if i < |g.chunks| {
        ChunkLegal(a, g.chunks[i]);
      }
    }
  }

  /** The greedy segments may go on the wire and carry exactly the picks. */
  lemma GroupLegal(a: Admission, due: seq<DuePick>)
    ensures Legal(a, Group(a, due), due)
  {
    GroupSegmentsLegal(a, due);
    Grouped(a, due);
    hide Admission.SlotOf, Admission.LimitOf, GroupPicks, Packed, ChunkOk, LegalSegment, Members, Singles;
    var g := GroupPicks(a, due);
    SoloFlatten(g.solos);
    FlattenAppend(Members(g.chunks), Singles(g.solos));
  }

  // Chunk members have a slot, so the picks without one are the solos.
  lemma {:induction false} ChunksSlotted(a: Admission, chunks: seq<Chunk>)
    requires forall i :: 0 <= i < |chunks| ==> ChunkOk(a, chunks[i])
    ensures Picks(a, Flatten(Members(chunks)), None) == 0 && SegmentsFor(a, Members(chunks), None) == 0
  {
    hide Admission.SlotOf, Admission.LimitOf;
    if chunks != [] {
      var k := |chunks| - 1;
      ChunksSlotted(a, chunks[..k]);
      assert Members(chunks)[..k] == Members(chunks[..k]);
      assert ChunkOk(a, chunks[k]);
      PicksAppend(a, Flatten(Members(chunks[..k])), chunks[k].members, None);
      PicksUniform(a, chunks[k].members, None);
    }
  }

  lemma GroupCounts(a: Admission, due: seq<DuePick>, s: Option<Slot>)
    ensures
      var g := GroupPicks(a, due);
      && SegmentsFor(a, Group(a, due), s) == SegmentsFor(a, Members(g.chunks), s) + SegmentsFor(a, Singles(g.solos), s)
      && Picks(a, due, s) == Picks(a, Flatten(Members(g.chunks)), s) + Picks(a, g.solos, s)
  {
    Grouped(a, due);
    hide Admission.SlotOf, Admission.LimitOf, GroupPicks, ChunkOk, Packed, Flatten, Picks, SegmentsFor, Members,
        Singles;
    var g := GroupPicks(a, due);
    SegmentsAppend(a, Members(g.chunks), Singles(g.solos), s);
    assert multiset(Flatten(Members(g.chunks)) + g.solos) == multiset(due);
    PicksPermute(a, Flatten(Members(g.chunks)) + g.solos, due, s);
    PicksAppend(a, Flatten(Members(g.chunks)), g.solos, s);
  }

  lemma GroupPacked(a: Admission, due: seq<DuePick>, s: Option<Slot>)
    requires a.LimitOf(s) >= 1
    ensures SegmentsFor(a, Group(a, due), s) * a.LimitOf(s) < Picks(a, due, s) + a.LimitOf(s)
  {
    Grouped(a, due);
    assert a.LimitOf(None) == 1;
    hide Admission.SlotOf, Admission.LimitOf, GroupPicks, ChunkOk, Flatten, Picks, SegmentsFor, Members, Singles, Group;
    var g := GroupPicks(a, due);
    GroupCounts(a, due, s);
    SoloSegments(a, g.solos, s);
    ChunksSlotted(a, g.chunks);
    assert Packed(a, Members(g.chunks), s);
    if s == None {
      assert SegmentsFor(a, Group(a, due), s) == |g.solos|;
    } else {
      assert SegmentsFor(a, Group(a, due), s) == SegmentsFor(a, Members(g.chunks), s);
    }
  }

  /** One segment per started chunk of every slot, and one per pick without a slot. */
  lemma GroupCost(a: Admission, due: seq<DuePick>)
    ensures |Group(a, due)| == Cost(a, due)
  {
    GroupLegal(a, due);
    var segments := Group(a, due);
    LegalSlots(a, segments, due);
    SegmentsBySlot(a, segments, Slots(a, due));
    var f := slot => CeilDiv(Picks(a, due, slot), a.LimitOf(slot));
    var g := slot => SegmentsFor(a, segments, slot);
    hide Admission.SlotOf, Admission.LimitOf, LegalSegment, CeilDiv, Legal, Group;
    forall s | s in Slots(a, due) ensures f(s) == g(s) {
      LegalSlotCost(a, segments, due, s);
      GroupPacked(a, due, s);
      CeilDivExact(Picks(a, due, s), a.LimitOf(s), g(s));
    }
    SumMonotone(Slots(a, due), f, g);
    SumMonotone(Slots(a, due), g, f);
  }

  /** The greedy grouping is optimal: no legal segments of the same picks are fewer. */
  lemma GroupOptimal(a: Admission, due: seq<DuePick>, segments: seq<seq<DuePick>>)
    requires Legal(a, segments, due)
    ensures Legal(a, Group(a, due), due) && |Group(a, due)| <= |segments|
  {
    GroupLegal(a, due);
    GroupCost(a, due);
    LegalCost(a, segments, due);
  }

  /** Admission does not depend on the order of the picks, and every part of an admitted list is admitted. */
  lemma FitsMonotone(a: Admission, part: seq<DuePick>, whole: seq<DuePick>)
    requires multiset(part) <= multiset(whole) && Fits(a, whole)
    ensures Fits(a, part)
  {
    GroupCost(a, part);
    GroupCost(a, whole);
    CostMonotone(a, part, whole);
  }

  /** Admission is exact: a list fits if and only if some legal segments of it fit. */
  lemma FitsExact(a: Admission, due: seq<DuePick>)
    ensures Fits(a, due) <==> exists segments :: Legal(a, segments, due) && |segments| <= a.maxSegments
  {
    GroupLegal(a, due);
    if segments :| Legal(a, segments, due) && |segments| <= a.maxSegments {
      GroupOptimal(a, due, segments);
    }
  }

  lemma {:induction false} FlattenBound(a: Admission, segments: seq<seq<DuePick>>, limit: nat)
    requires forall i :: 0 <= i < |segments| ==> |segments[i]| <= limit
    ensures |Flatten(segments)| <= |segments| * limit
  {
    if segments != [] {
      var k := |segments| - 1;
      FlattenBound(a, segments[..k], limit);
      assert |segments| * limit == k * limit + limit;
    }
  }

  lemma TimesMonotone(m: nat, n: nat, d: nat)
    requires m <= n
    ensures m * d <= n * d
  {
  }

  /** An admitted list is at most `max_picks` long: segments times the larger chunk limit. */
  lemma FitsBound(a: Admission, due: seq<DuePick>, limit: nat)
    requires Fits(a, due) && limit >= 1 && a.chunkLimit <= limit && a.chunk22Limit <= limit
    ensures |due| <= a.maxSegments * limit
  {
    GroupLegal(a, due);
    var segments := Group(a, due);
    forall i | 0 <= i < |segments| ensures |segments[i]| <= limit { assert LegalSegment(a, segments[i]); }
    hide *;
    FlattenBound(a, segments, limit);
    assert |Flatten(segments)| == |multiset(Flatten(segments))| == |multiset(due)| == |due|;
    TimesMonotone(|segments|, a.maxSegments, limit);
  }

  // ---------------------------------------------------------------- which picks share a segment

  /** The vehicle's answer to the pid has a known length, and no chunk with it has failed. */
  predicate Known(a: Admission, pid: string) {
    a.lengths.Some? && LengthOf(a.lengths.value, pid).Some? && Upper(Trim(pid)) !in a.excluded
  }

  /** Two picks of mode 01, or two of mode 22 for one controller, where chunks of two are allowed. */
  predicate MayShare(a: Admission, p: DuePick, q: DuePick) {
    && Known(a, p.pid) && Known(a, q.pid)
    && (|| (a.chunkLimit >= 2 && IsPlainMode01DataPid(p.pid) && IsPlainMode01DataPid(q.pid))
        || (a.chunk22Limit >= 2 && IsPlainMode22DataPid(p.pid) && IsPlainMode22DataPid(q.pid)
            && p.controller == q.controller))
  }

  lemma NotBothModes(pid: string)
    ensures !(IsPlainMode01DataPid(pid) && IsPlainMode22DataPid(pid))
  {
  }

  lemma SameSlot(a: Admission, p: DuePick, q: DuePick)
    ensures MayShare(a, p, q) <==>
            a.SlotOf(p) == a.SlotOf(q) && a.SlotOf(p).Some? && a.LimitOf(a.SlotOf(p)) >= 2
  {
    NotBothModes(p.pid);
    NotBothModes(q.pid);
    hide IsPlainMode01DataPid, IsPlainMode22DataPid, LengthOf, Upper, Trim;
  }

  lemma GroupStep(a: Admission, due: seq<DuePick>, p: DuePick)
    ensures
      var g := GroupPicks(a, due);
      GroupPicks(a, due + [p]) ==
      match a.SlotOf(p)
      case Some(s) => g.(chunks := Place(a, g.chunks, s, p))
      case None => g.(solos := g.solos + [p])
  {
    assert (due + [p])[..|due|] == due;
    hide Admission.SlotOf, Place;
  }

  lemma PlaceSecond(a: Admission, c: Chunk, slot: Slot, q: DuePick)
    ensures Place(a, [], slot, q) == [Chunk(slot, [q])]
    ensures |Place(a, [c], slot, q)| == if HasRoom(a, c, slot) then 1 else 2
  {
    hide HasRoom;
    assert [c][1..] == [];
  }

  lemma GroupSize(a: Admission, due: seq<DuePick>)
    ensures |Group(a, due)| == |GroupPicks(a, due).chunks| + |GroupPicks(a, due).solos|
  {
    hide GroupPicks;
  }

  lemma NothingGrouped(a: Admission)
    ensures GroupPicks(a, []) == Grouping([], [])
  {
  }

  /** Two picks are grouped into one segment exactly when they may share one. */
  lemma PairExact(a: Admission, p: DuePick, q: DuePick)
    ensures |Group(a, [p, q])| == if MayShare(a, p, q) then 1 else 2
  {
    SameSlot(a, p, q);
    GroupSize(a, [p, q]);
    hide Admission.SlotOf, Admission.LimitOf, MayShare, GroupPicks, Place, Group;
    NothingGrouped(a);
    GroupStep(a, [], p);
    GroupStep(a, [p], q);
    assert [] + [p] == [p] && [p] + [q] == [p, q];
    if a.SlotOf(q).Some? {
      var s := a.SlotOf(q).value;
      PlaceSecond(a, Chunk(if a.SlotOf(p).Some? then a.SlotOf(p).value else s, [p]), s, q);
      if a.SlotOf(p).Some? { PlaceSecond(a, Chunk(s, [p]), a.SlotOf(p).value, p); }
    } else if a.SlotOf(p).Some? {
      PlaceSecond(a, Chunk(a.SlotOf(p).value, [p]), a.SlotOf(p).value, p);
    }
  }
}
