/** Request/response acquisition: the limits a connection has earned, and the next exchange for the due picks. */
module PollPlugins {
  import opened Wrappers
  import opened Text
  import opened Sequences
  import opened LengthCaching
  import opened Acquisition
  import opened GroupingOptimal
  import opened ElmWire

  // ---------------------------------------------------------------- deterministic member order

  predicate LessEq(s: string, t: string) {
    s == [] || (t != [] && (s[0] < t[0] || (s[0] == t[0] && LessEq(s[1..], t[1..]))))
  }

  function Insert(s: string, sorted: seq<string>): seq<string> {
    if sorted == [] || LessEq(s, sorted[0]) then [s] + sorted else [sorted[0]] + Insert(s, sorted[1..])
  }

  function SortPids(pids: seq<string>): seq<string> {
    if pids == [] then [] else Insert(pids[0], SortPids(pids[1..]))
  }

  predicate Sorted(pids: seq<string>) {
    forall i, j :: 0 <= i < j < |pids| ==> LessEq(pids[i], pids[j])
  }

  lemma {:induction false} LessEqTotal(s: string, t: string)
    ensures LessEq(s, t) || LessEq(t, s)
    ensures LessEq(s, t) && LessEq(t, s) ==> s == t
  {
    if s != [] && t != [] && s[0] == t[0] {
      LessEqTotal(s[1..], t[1..]);
      assert s == [s[0]] + s[1..] && t == [t[0]] + t[1..];
    }
  }

  lemma {:induction false} LessEqTransitive(s: string, t: string, u: string)
    requires LessEq(s, t) && LessEq(t, u)
    ensures LessEq(s, u)
  {
    if s != [] && s[0] == t[0] && t[0] == u[0] { LessEqTransitive(s[1..], t[1..], u[1..]); }
  }

  predicate Below(s: string, pids: seq<string>) {
    forall k :: 0 <= k < |pids| ==> LessEq(s, pids[k])
  }

  lemma {:induction false} InsertBelow(t: string, s: string, sorted: seq<string>)
    requires LessEq(t, s) && Below(t, sorted)
    ensures Below(t, Insert(s, sorted))
  {
    hide LessEq;
    if sorted != [] && !LessEq(s, sorted[0]) { InsertBelow(t, s, sorted[1..]); }
  }

  lemma {:induction false} InsertSorted(s: string, sorted: seq<string>)
    requires Sorted(sorted)
    ensures Sorted(Insert(s, sorted))
  {
    hide LessEq;
    if sorted != [] {
      LessEqTotal(s, sorted[0]);
      if LessEq(s, sorted[0]) {
        forall j | 0 < j < |sorted| ensures LessEq(s, sorted[j]) { LessEqTransitive(s, sorted[0], sorted[j]); }
      } else {
        InsertSorted(s, sorted[1..]);
        InsertBelow(sorted[0], s, sorted[1..]);
      }
    }
  }

  lemma {:induction false} InsertMembers(s: string, sorted: seq<string>)
    ensures multiset(Insert(s, sorted)) == multiset(sorted) + multiset{s}
  {
    hide LessEq;
    if sorted != [] {
      InsertMembers(s, sorted[1..]);
      assert sorted == [sorted[0]] + sorted[1..];
    }
  }

  lemma {:induction false} SortSorted(pids: seq<string>)
    ensures Sorted(SortPids(pids)) && multiset(SortPids(pids)) == multiset(pids) && |SortPids(pids)| == |pids|
  {
    hide LessEq, Insert;
    if pids != [] {
      SortSorted(pids[1..]);
      InsertSorted(pids[0], SortPids(pids[1..]));
      InsertMembers(pids[0], SortPids(pids[1..]));
      assert pids == [pids[0]] + pids[1..];
    }
    assert |multiset(SortPids(pids))| == |multiset(pids)|;
  }

  lemma HeadLeast(x: seq<string>, s: string)
    requires Sorted(x) && s in x
    ensures LessEq(x[0], s)
  {
    LessEqTotal(s, s);
    hide LessEq;
  }

  lemma HeadRemoved(x: seq<string>)
    requires x != []
    ensures multiset(x[1..]) == multiset(x) - multiset{x[0]}
  {
    assert x == [x[0]] + x[1..];
  }

  lemma SortedHead(x: seq<string>, y: seq<string>)
    requires Sorted(x) && Sorted(y) && multiset(x) == multiset(y) && x != [] && y != []
    ensures x[0] == y[0] && multiset(x[1..]) == multiset(y[1..])
  {
    hide LessEq, Sorted;
    assert x[0] in multiset(x) && y[0] in multiset(y);
    assert x[0] in multiset(y) && y[0] in multiset(x);
    HeadLeast(x, y[0]);
    HeadLeast(y, x[0]);
    LessEqTotal(x[0], y[0]);
    HeadRemoved(x);
    HeadRemoved(y);
  }

  lemma {:induction false} SortedUnique(x: seq<string>, y: seq<string>)
    requires Sorted(x) && Sorted(y) && multiset(x) == multiset(y)
    ensures x == y
    decreases |x|
  {
    assert |x| == |multiset(x)| == |multiset(y)| == |y|;
    if x != [] {
      SortedHead(x, y);
      hide LessEq;
      SortedUnique(x[1..], y[1..]);
      assert x == [x[0]] + x[1..] && y == [y[0]] + y[1..];
    }
  }

  /** The same members make the same segment, whatever order they were picked in. */
  lemma SortCanonical(x: seq<string>, y: seq<string>)
    requires multiset(x) == multiset(y)
    ensures SortPids(x) == SortPids(y)
  {
    SortSorted(x);
    SortSorted(y);
    SortedUnique(SortPids(x), SortPids(y));
  }

  // ---------------------------------------------------------------- the next exchange

  function Pids(picks: seq<DuePick>): (r: seq<string>)
    ensures |r| == |picks|
    ensures forall i :: 0 <= i < |picks| ==> r[i] == picks[i].pid
  {
    seq(|picks|, i requires 0 <= i < |picks| => picks[i].pid)
  }

  function SegmentPids(group: seq<DuePick>): seq<string> {
    if |group| > 1 then SortPids(Pids(group)) else Pids(group)
  }

  function NextSegments(a: Admission, due: seq<DuePick>): (r: seq<seq<string>>) {
    if |due| == 1 then [[due[0].pid]]
    else
      var groups := Group(a, due);
      seq(|groups|, i requires 0 <= i < |groups| => SegmentPids(groups[i]))
  }

  function MaxTimeout(due: seq<DuePick>): Option<nat> {
    if due == [] then None
    else
      match (MaxTimeout(due[..|due| - 1]), due[|due| - 1].timeoutMs)
      case (Some(m), Some(t)) => Some(if m < t then t else m)
      case (None, t) => t
      case (m, None) => m
  }

  datatype NextCommand = NextCommand(wire: string, segments: seq<seq<string>>, target: Option<string>,
                                     timeoutMs: Option<nat>)

  // A chunk holds at least its members' shared mode.
  lemma ChunkMemberLength(a: Admission, pid: string)
    requires a.ChunkClassOf(pid).Some?
    ensures |pid| >= 4
  {
    TrimShorter(Upper(pid));
    TrimShorter(pid);
  }

  lemma {:induction false} TrimShorter(s: string)
    ensures |Trim(s)| <= |s|
  {
    TrimLeftShorter(s);
    TrimRightShorter(TrimLeft(s));
  }

  lemma {:induction false} TrimLeftShorter(s: string)
    ensures |TrimLeft(s)| <= |s|
  {
    if s != [] && IsSpace(s[0]) { TrimLeftShorter(s[1..]); }
  }

  lemma {:induction false} TrimRightShorter(s: string)
    ensures |TrimRight(s)| <= |s|
  {
    if s != [] && IsSpace(s[|s| - 1]) { TrimRightShorter(s[..|s| - 1]); }
  }

  // A segment of several picks is one chunk: every pick has the same slot.
  lemma SharedSegment(a: Admission, due: seq<DuePick>, i: nat)
    requires i < |Group(a, due)| && |Group(a, due)[i]| > 1
    ensures
      var seg := Group(a, due)[i];
      forall k :: 0 <= k < |seg| ==> a.SlotOf(seg[k]) == a.SlotOf(seg[0]) && a.SlotOf(seg[k]).Some?
  {
    GroupSegmentsLegal(a, due);
    var seg := Group(a, due)[i];
    assert LegalSegment(a, seg);
    assert a.LimitOf(None) == 1;
    hide Admission.SlotOf, Admission.LimitOf, Group;
  }

  // What a segment's pids are: the group's pids in some order.
  lemma SegmentMembers(group: seq<DuePick>, k: nat) returns (j: nat)
    requires k < |SegmentPids(group)|
    ensures |SegmentPids(group)| == |group| && j < |group| && SegmentPids(group)[k] == group[j].pid
  {
    SortSorted(Pids(group));
    assert SegmentPids(group)[k] in multiset(SegmentPids(group));
    assert SegmentPids(group)[k] in multiset(Pids(group));
    j :| 0 <= j < |Pids(group)| && Pids(group)[j] == SegmentPids(group)[k];
  }

  lemma SegmentSize(group: seq<DuePick>)
    ensures |SegmentPids(group)| == |group|
  {
    SortSorted(Pids(group));
  }

  lemma GroupNonEmpty(a: Admission, due: seq<DuePick>, i: nat)
    requires i < |Group(a, due)|
    ensures Group(a, due)[i] != []
  {
    GroupSegmentsLegal(a, due);
    assert LegalSegment(a, Group(a, due)[i]);
  }

  lemma SegmentsJoinable(a: Admission, due: seq<DuePick>)
    ensures forall i :: 0 <= i < |NextSegments(a, due)| ==> Joinable(NextSegments(a, due)[i])
  {
    hide Group, SegmentPids, Admission.ChunkClassOf;
    if |due| != 1 {
      forall i | 0 <= i < |NextSegments(a, due)| ensures Joinable(NextSegments(a, due)[i]) {
        var group := Group(a, due)[i];
        GroupNonEmpty(a, due, i);
        SegmentSize(group);
        if |group| > 1 {
          SharedSegment(a, due, i);
          var j := SegmentMembers(group, 0);
          ChunkMemberLength(a, group[j].pid);
        }
      }
    }
  }

  function NextCommandOf(a: Admission, due: seq<DuePick>): Option<NextCommand> {
    if due == [] then None
    else if |due| == 1 then Some(NextCommand(due[0].pid, [[due[0].pid]], due[0].controller, due[0].timeoutMs))
    else
      SegmentsJoinable(a, due);
      var segments := NextSegments(a, due);
      Some(NextCommand(EncodeWire(segments), segments, due[0].controller, MaxTimeout(due)))
  }

  /** The wire is always the encoding of the segments, a lone pick included. */
  lemma NextWire(a: Admission, due: seq<DuePick>)
    requires due != []
    ensures
      var next := NextCommandOf(a, due).value;
      && next.segments == NextSegments(a, due) && (forall i :: 0 <= i < |next.segments| ==> Joinable(next.segments[i]))
      && next.wire == EncodeWire(next.segments)
  {
    SegmentsJoinable(a, due);
    hide Group, SegmentPids;
  }

  lemma {:induction false} MaxOfTimeouts(due: seq<DuePick>)
    ensures MaxTimeout(due).None? <==> forall k :: 0 <= k < |due| ==> due[k].timeoutMs.None?
    ensures MaxTimeout(due).Some? ==> exists k :: 0 <= k < |due| && due[k].timeoutMs == MaxTimeout(due)
    ensures forall k :: 0 <= k < |due| && due[k].timeoutMs.Some? ==>
              MaxTimeout(due).Some? && due[k].timeoutMs.value <= MaxTimeout(due).value
  {
    if due != [] {
      var last := |due| - 1;
      MaxOfTimeouts(due[..last]);
      forall k | 0 <= k < |due| && due[k].timeoutMs.Some?
        ensures MaxTimeout(due).Some? && due[k].timeoutMs.value <= MaxTimeout(due).value
      {
        assert k < last ==> due[..last][k] == due[k];
      }
      assert due[last].timeoutMs.None? ==> MaxTimeout(due) == MaxTimeout(due[..last]);
    }
  }

  /**
   What the next command carries besides its wire: the target of its picks when they share one, the longest
   timeout any of them asks for, and chunk members in sorted order.
   */
  lemma NextCarries(a: Admission, due: seq<DuePick>, target: Option<string>)
    requires due != [] && forall k :: 0 <= k < |due| ==> due[k].controller == target
    ensures
      var next := NextCommandOf(a, due).value;
      && next.target == target
      && (next.timeoutMs.None? <==> forall k :: 0 <= k < |due| ==> due[k].timeoutMs.None?)
      && (next.timeoutMs.Some? ==> exists k :: 0 <= k < |due| && due[k].timeoutMs == next.timeoutMs)
      && (forall k :: 0 <= k < |due| && due[k].timeoutMs.Some? ==>
            next.timeoutMs.Some? && due[k].timeoutMs.value <= next.timeoutMs.value)
      && forall i :: 0 <= i < |next.segments| ==> Sorted(next.segments[i])
  {
    MaxOfTimeouts(due);
    SegmentsJoinable(a, due);
    hide Group, SortPids, EncodeWire, MaxTimeout, Joinable;
    if |due| > 1 {
      forall i | 0 <= i < |NextSegments(a, due)| ensures Sorted(NextSegments(a, due)[i]) {
        SortSorted(Pids(Group(a, due)[i]));
      }
    }
  }

  lemma {:induction false} FlattenPids(groups: seq<seq<DuePick>>, segments: seq<seq<string>>)
    requires |segments| == |groups| && forall i :: 0 <= i < |groups| ==> segments[i] == SegmentPids(groups[i])
    ensures multiset(Flatten(segments)) == multiset(Pids(Flatten(groups)))
  {
    if groups != [] {
      var k := |groups| - 1;
      FlattenPids(groups[..k], segments[..k]);
      SortSorted(Pids(groups[k]));
      hide SortPids, Flatten;
      assert Pids(Flatten(groups[..k]) + groups[k]) == Pids(Flatten(groups[..k])) + Pids(groups[k]);
      assert Flatten(groups) == Flatten(groups[..k]) + groups[k] by { FlattenLast(groups); }
      assert Flatten(segments) == Flatten(segments[..k]) + segments[k] by { FlattenLast(segments); }
    } else {
      assert Pids(Flatten(groups)) == [];
    }
  }

  lemma PidsRemove(y: seq<DuePick>, j: nat)
    requires j < |y|
    ensures multiset(Pids(y)) == multiset(Pids(y[..j] + y[j + 1..])) + multiset{y[j].pid}
  {
    assert Pids(y) == Pids(y[..j]) + [y[j].pid] + Pids(y[j + 1..]);
    assert Pids(y[..j] + y[j + 1..]) == Pids(y[..j]) + Pids(y[j + 1..]);
  }

  lemma {:induction false} PidsPermute(x: seq<DuePick>, y: seq<DuePick>)
    requires multiset(x) == multiset(y)
    ensures multiset(Pids(x)) == multiset(Pids(y))
    decreases |x|
  {
    hide Pids;
    if x == [] {
      assert |multiset(y)| == 0;
      assert x == y;
    } else {
      var j := TakeOut(x, y);
      var k := |x| - 1;
      PidsPermute(x[..k], y[..j] + y[j + 1..]);
      assert x[..k] + x[k + 1..] == x[..k];
      PidsRemove(x, k);
      PidsRemove(y, j);
    }
  }

  /** The segments ask for exactly the due pids, each as often as it is due. */
  lemma NextSegmentsExact(a: Admission, due: seq<DuePick>)
    ensures multiset(Flatten(NextSegments(a, due))) == multiset(Pids(due))
  {
    if |due| == 1 {
      var segments := [[due[0].pid]];
      assert segments[..0] == [] && Flatten(segments[..0]) == [];
      assert Flatten(segments) == [] + [due[0].pid] == Pids(due);
    } else {
      GroupLegal(a, due);
      hide SegmentPids, Group, LegalSegment;
      FlattenPids(Group(a, due), NextSegments(a, due));
      PidsPermute(Flatten(Group(a, due)), due);
    }
  }

  // ---------------------------------------------------------------- the plugin

  function AtLeastOne(n: nat): (r: nat)
    ensures r >= 1 && r >= n && (r == n || r == 1)
  {
    if n < 1 then 1 else n
  }

  datatype Mode22State = Disabled | Untried | Capable | Refused

  class PollPlugin {
    var pipeLimit: nat
    var chunkLimit: nat
    var excluded: set<string>
    var chunk22: Mode22State
    var chunk22Cap: nat

    // Every limit is at least one pick, and no limit exceeds what the protocol allows.
    predicate Valid()
      reads this
    {
      && pipeLimit in {1, PIPE_MAX_SEGMENTS} && 1 <= chunkLimit <= CHUNK_MAX_PIDS &&
         1 <= chunk22Cap <= MODE22_CHUNK_MAX_DIDS
    }

    function Chunk22Limit(): (r: nat)
      requires Valid()
      reads this
      ensures 1 <= r <= MODE22_CHUNK_MAX_DIDS
    {
      var limit := if chunk22.Disabled? || chunk22.Refused? then 1 else MODE22_CHUNK_MAX_DIDS;
      if limit < chunk22Cap then limit else chunk22Cap
    }

    function AdmissionNow(lengths: Lengths): Admission
      requires Valid()
      reads this
    {
      Admission(pipeLimit, chunkLimit, Chunk22Limit(), Some(lengths), excluded)
    }

    constructor ()
      ensures Valid() && pipeLimit == 1 && chunkLimit == 1 && Chunk22Limit() == 1 && excluded == {}
    {
      pipeLimit, chunkLimit, excluded, chunk22, chunk22Cap := 1, 1, {}, Disabled, MODE22_CHUNK_MAX_DIDS;
    }

    /** Enough picks for any exchange the admission can grant. */
    method MaxPicks() returns (n: nat)
      requires Valid()
      ensures n <= PIPE_MAX_SEGMENTS * CHUNK_MAX_PIDS
      ensures forall lengths, due :: Fits(AdmissionNow(lengths), due) ==> |due| <= n
    {
      var limit := if chunkLimit < Chunk22Limit() then Chunk22Limit() else chunkLimit;
      n := pipeLimit * limit;
      forall lengths, due | Fits(AdmissionNow(lengths), due) ensures |due| <= n {
        FitsBound(AdmissionNow(lengths), due, limit);
      }
    }

    method SetPipeCapable(capable: bool)
      requires Valid()
      modifies this`pipeLimit
      ensures Valid() && pipeLimit == if capable then 12 else 1
    {
      pipeLimit := if capable then PIPE_MAX_SEGMENTS else 1;
    }

    // Losing the capability is a new vehicle: what was learned about the old one goes too.
    method SetChunkCapable(capable: bool)
      requires Valid()
      modifies this`chunkLimit, this`excluded, this`chunk22, this`chunk22Cap
      ensures Valid()
      ensures capable ==>
                && chunkLimit == 6 && excluded == old(excluded)
                && chunk22 == old(chunk22) && chunk22Cap == old(chunk22Cap)
      ensures !capable ==>
              chunkLimit == 1 && excluded == {} && Chunk22Limit() == 1 && chunk22Cap == 2
    {
      chunkLimit := if capable then CHUNK_MAX_PIDS else 1;
      if !capable {
        excluded, chunk22, chunk22Cap := {}, Disabled, MODE22_CHUNK_MAX_DIDS;
      }
    }

    // A pid the vehicle omits from chunks rides alone from now on.
    method ExcludeFromChunks(pid: string)
      requires Valid()
      modifies this`excluded
      ensures Valid() && excluded == old(excluded) + {Upper(Trim(pid))}
      ensures forall lengths :: AdmissionNow(lengths).ChunkClassOf(pid) == None
    {
      excluded := excluded + {Upper(Trim(pid))};
    }

    // The ladder 6, 3, 1 for mode 01 and 2, 1 for mode 22: two steps end chunking.
    method ClampChunk() returns (limit: nat)
      requires Valid()
      modifies this`chunkLimit, this`chunk22Cap
      ensures Valid() && limit == chunkLimit <= old(chunkLimit) &&
              (old(chunkLimit) > 1 ==> chunkLimit < old(chunkLimit))
      ensures old(chunkLimit) <= 3 ==> chunkLimit == 1
      ensures old(chunkLimit) > 1 ==> 2 * chunkLimit <= old(chunkLimit) <= 2 * chunkLimit + 1
      ensures old(chunkLimit) == 6 ==> chunkLimit == 3
      ensures Chunk22Limit() == 1
    {
      chunkLimit, chunk22Cap := AtLeastOne(chunkLimit / 2), AtLeastOne(chunk22Cap / 2);
      limit := chunkLimit;
    }

    // A cap only ever lowers the limits.
    method SetChunkCap(cap: nat)
      requires Valid()
      modifies this`chunkLimit, this`chunk22Cap
      ensures Valid() && chunkLimit <= old(chunkLimit) && chunk22Cap <= old(chunk22Cap)
      ensures cap >= 1 ==> chunkLimit <= cap && chunk22Cap <= cap
      ensures cap >= old(chunkLimit) ==> chunkLimit == old(chunkLimit)
      ensures cap >= old(chunk22Cap) ==> chunk22Cap == old(chunk22Cap)
      ensures 1 <= cap <= old(chunkLimit) ==> chunkLimit == cap
      ensures 1 <= cap <= old(chunk22Cap) ==> chunk22Cap == cap
      ensures cap == 0 ==> chunkLimit == 1 && chunk22Cap == 1
    {
      var floor := AtLeastOne(cap);
      chunkLimit := if chunkLimit < floor then chunkLimit else floor;
      chunk22Cap := if chunk22Cap < floor then chunk22Cap else floor;
    }

    method SetMode22Enabled(enabled: bool)
      requires Valid()
      modifies this`chunk22
      ensures Valid() && chunk22 == if enabled then Untried else Disabled
    {
      chunk22 := if enabled then Untried else Disabled;
    }

    // The first pair decides; a refusal means solos until the mode is armed again.
    method NoteMode22Outcome(ok: bool) returns (changed: bool)
      requires Valid()
      modifies this`chunk22
      ensures Valid() && chunk22 == (if ok then Capable else Refused) && changed == (chunk22 != old(chunk22))
      ensures !ok ==> Chunk22Limit() == 1
    {
      var next := if ok then Capable else Refused;
      changed := chunk22 != next;
      chunk22 := next;
    }

    method Next(lengths: Lengths, due: seq<DuePick>) returns (next: Option<NextCommand>)
      requires Valid()
      ensures next == NextCommandOf(AdmissionNow(lengths), due)
    {
      if due == [] {
        return None;
      }
      if |due| == 1 {
        return Some(NextCommand(due[0].pid, [[due[0].pid]], due[0].controller, due[0].timeoutMs));
      }
      var admission := AdmissionNow(lengths);
      SegmentsJoinable(admission, due);
      hide Group, SegmentPids, EncodeWire, MaxTimeout;
      var groups := GroupDue(admission, due);
      var segments: seq<seq<string>> := [];
      while |segments| < |groups|
        invariant |segments| <= |groups|
        invariant forall i :: 0 <= i < |segments| ==> segments[i] == SegmentPids(groups[i])
      {
        segments := segments + [SegmentPids(groups[|segments|])];
      }
      assert segments == NextSegments(admission, due);
      next := Some(NextCommand(EncodeWire(segments), segments, due[0].controller, MaxTimeout(due)));
    }
  }
}
