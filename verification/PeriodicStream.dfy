/**
 UDS periodic streaming (section 10.6 of ISO 14229-1:2013): packing signals into periodic identifiers of seven
 data bytes, giving up refused records, and decoding the frames the vehicle then sends.
 */
module PeriodicStream {
  import opened Wrappers
  import opened Text

  const SLOT_DATA_BYTES: nat := 7

  datatype Signal = Signal(pid: string, len: byte, target: Option<string>)

  datatype BuildError = MixedTarget

  /** One record of the define sequence: the slot its bytes are appended to. */
  datatype Record = Record(slot: nat, pid: string, len: nat)

  datatype Packed = Packed(pid: string, offset: nat, len: nat)

  type UnpackMap = map<nat, seq<Packed>>

  /** A mode 22 pid is its own source; a mode 01 pid is read through its F4 mirror. */
  function SourceDid(pid: string): Option<string> {
    var p := Upper(Trim(pid));
    if |p| == 6 && "22" <= p && AllHex(p[2..]) then Some(p[2..])
    else if |p| == 4 && "01" <= p && AllHex(p[2..]) then Some("F4" + p[2..])
    else None
  }

  // ---------------------------------------------------------------- packing

  /** Packing so far: how full each slot is, what was defined in order, and what stays on the poll side. */
  datatype Packing = Packing(fill: seq<nat>, records: seq<Record>, unpack: UnpackMap, dropped: seq<string>)

  predicate Streamable(s: Signal) {
    1 <= s.len as nat <= SLOT_DATA_BYTES && SourceDid(s.pid).Some?
  }

  // The lowest slot with room; the number of slots if there is none.
  function FirstFit(fill: seq<nat>, len: nat): (slot: nat)
    ensures slot <= |fill|
    ensures forall s :: 0 <= s < slot ==> fill[s] + len > SLOT_DATA_BYTES
    ensures slot < |fill| ==> fill[slot] + len <= SLOT_DATA_BYTES
  {
    if fill == [] || fill[0] + len <= SLOT_DATA_BYTES then 0 else 1 + FirstFit(fill[1..], len)
  }

  function SlotOf(unpack: UnpackMap, slot: nat): seq<Packed> {
    if slot in unpack then unpack[slot] else []
  }

  function PackOne(p: Packing, s: Signal): Packing {
    var pid, len := Upper(s.pid), s.len as nat;
    var slot := FirstFit(p.fill, len);
    if !Streamable(s) || slot == |p.fill| then p.(dropped := p.dropped + [pid])
    else
      p.(fill := p.fill[slot := p.fill[slot] + len],
         records := p.records + [Record(slot, pid, len)],
         unpack := p.unpack[slot := SlotOf(p.unpack, slot) + [Packed(pid, p.fill[slot], len)]])
  }

  function Empty(slots: nat): Packing {
    Packing(seq(slots, i requires 0 <= i < slots => 0), [], map[], [])
  }

  function Pack(signals: seq<Signal>, slots: nat): Packing {
    if signals == [] then Empty(slots)
    else PackOne(Pack(signals[..|signals| - 1], slots), signals[|signals| - 1])
  }

  function SlotsUsed(fill: seq<nat>): nat {
    if fill == [] then 0 else SlotsUsed(fill[..|fill| - 1]) + if fill[|fill| - 1] > 0 then 1 else 0
  }

  predicate Mixed(signals: seq<Signal>, target: string) {
    exists i :: 0 <= i < |signals| && signals[i].target.Some? && Upper(signals[i].target.value) != target
  }

  // `{:02X}` of a number that a slot or a length can be.
  function PrintHex(v: nat): string {
    if v < 0x100 then Hex2(v as byte) else Hex4(v % 0x1_0000)
  }

  // The whole source record, from its first byte, appended to the slot.
  function DefineCommand(r: Record): string {
    "2C01F2" + PrintHex(r.slot) + (match SourceDid(r.pid) case Some(source) => source case None => []) + "01" +
        PrintHex(r.len)
  }

  function DefineCommands(records: seq<Record>): (r: seq<string>)
    ensures |r| == |records|
    ensures forall i :: 0 <= i < |records| ==> r[i] == DefineCommand(records[i])
  {
    seq(|records|, i requires 0 <= i < |records| => DefineCommand(records[i]))
  }

  function StartSlots(n: nat): string
    requires n <= 256
  {
    if n == 0 then [] else StartSlots(n - 1) + Hex2((n - 1) as byte)
  }

  // ---------------------------------------------------------------- reading the commands

  /** What a vehicle reads in a define request: the slot, and the bytes of the source to append to it. */
  datatype Define = Define(slot: byte, source: string, position: byte, size: byte)

  function ReadDefine(c: string): Option<Define> {
    if |c| == 16 && c[..6] == "2C01F2" && ParseU8(c[6..8]).Some? && AllHex(c[8..12]) && ParseU8(c[12..14]).Some?
      && ParseU8(c[14..]).Some?
    then Some(Define(ParseU8(c[6..8]).value, c[8..12], ParseU8(c[12..14]).value, ParseU8(c[14..]).value))
    else None
  }

  /** What it reads in a start request: the rate, and the slots to send. */
  datatype Start = Start(rateMode: byte, slots: seq<byte>)

  function BytesRead(tokens: seq<string>): Option<seq<byte>> {
    if tokens == [] then Some([])
    else
      var k := |tokens| - 1;
      match (BytesRead(tokens[..k]), ParseU8(tokens[k]))
      case (Some(before), Some(b)) => Some(before + [b])
      case _ => None
  }

  function ReadStart(c: string): Option<Start> {
    if |c| < 4 || c[..2] != "2A" || |c| % 2 != 0 then None
    else
      match (ParseU8(c[2..4]), BytesRead(Cut(c[4..], 2)))
      case (Some(rate), Some(slots)) => Some(Start(rate, slots))
      case _ => None
  }

  /** A mode 22 pid is read at its own identifier, a mode 01 pid at its mirror. */
  ghost predicate ReadsAt(pid: string, source: string) {
    var p := Upper(Trim(pid));
    p == "22" + source || exists id :: p == "01" + id && source == "F4" + id
  }

  lemma SourceReads(pid: string)
    ensures SourceDid(pid).Some? ==>
              AllHex(SourceDid(pid).value) && |SourceDid(pid).value| == 4 && ReadsAt(pid, SourceDid(pid).value)
  {
    var p := Upper(Trim(pid));
    hide Upper, Trim;
    if |p| == 6 && "22" <= p && AllHex(p[2..]) {
      assert p == "22" + p[2..];
    } else if |p| == 4 && "01" <= p && AllHex(p[2..]) {
      assert p == "01" + p[2..];
      assert forall i :: 0 <= i < 4 ==> ("F4" + p[2..])[i] == if i < 2 then "F4"[i] else p[i];
    }
  }

  /** A define command asks for the whole source from its first byte, into the record's slot. */
  lemma DefineRead(r: Record)
    requires r.slot < 256 && r.len < 256 && SourceDid(r.pid).Some?
    ensures ReadDefine(DefineCommand(r)) == Some(Define(r.slot as byte, SourceDid(r.pid).value, 1, r.len as byte))
  {
    SourceReads(r.pid);
    var slot, source, size := Hex2(r.slot as byte), SourceDid(r.pid).value, Hex2(r.len as byte);
    Hex2Value(r.slot as byte);
    Hex2Value(r.len as byte);
    Hex2Value(1);
    assert "01" == Hex2(1);
    assert DefineCommand(r) == "2C01F2" + slot + source + "01" + size;
    hide Hex2, ParseU8, SourceDid, DefineCommand, AllHex;
    DefineParts("2C01F2", slot, source, "01", size);
  }

  lemma DefineParts(head: string, slot: string, source: string, position: string, size: string)
    requires |head| == 6 && |slot| == 2 && |source| == 4 && |position| == 2 && |size| == 2
    ensures
      var c := head + slot + source + position + size;
      |c| == 16 && c[..6] == head && c[6..8] == slot && c[8..12] == source && c[12..14] == position && c[14..] == size
  {
  }

  function SlotTokens(n: nat): (r: seq<string>)
    requires n <= 256
    ensures |r| == n
    ensures forall s :: 0 <= s < n ==> r[s] == Hex2(s as byte)
  {
    seq(n, s requires 0 <= s < n => Hex2(s as byte))
  }

  function FirstSlots(n: nat): (r: seq<byte>)
    requires n <= 256
    ensures |r| == n
    ensures forall s :: 0 <= s < n ==> r[s] == s as byte
  {
    seq(n, s requires 0 <= s < n => s as byte)
  }

  lemma {:induction false} ConcatSnoc(parts: seq<string>, last: string)
    ensures Concat(parts + [last]) == Concat(parts) + last
  {
    if parts == [] {
      assert ([] + [last])[1..] == [];
    } else {
      ConcatSnoc(parts[1..], last);
      assert (parts + [last])[1..] == parts[1..] + [last];
    }
  }

  lemma {:induction false} StartTokens(n: nat)
    requires n <= 256
    ensures StartSlots(n) == Concat(SlotTokens(n))
  {
    hide Hex2;
    if n > 0 {
      StartTokens(n - 1);
      assert SlotTokens(n) == SlotTokens(n - 1) + [Hex2((n - 1) as byte)];
      ConcatSnoc(SlotTokens(n - 1), Hex2((n - 1) as byte));
    }
  }

  lemma {:induction false} TokensRead(n: nat)
    requires n <= 256
    ensures BytesRead(SlotTokens(n)) == Some(FirstSlots(n))
  {
    hide Hex2, ParseU8;
    if n > 0 {
      TokensRead(n - 1);
      Hex2Value((n - 1) as byte);
      assert SlotTokens(n)[..n - 1] == SlotTokens(n - 1);
      assert FirstSlots(n) == FirstSlots(n - 1) + [(n - 1) as byte];
    }
  }

  /** The start command asks for the first `n` slots, in order, at the given rate. */
  lemma StartRead(rateMode: byte, n: nat)
    requires n <= 256
    ensures ReadStart("2A" + Hex2(rateMode) + StartSlots(n)) == Some(Start(rateMode, FirstSlots(n)))
  {
    hide *;
    Hex2Value(rateMode);
    StartTokens(n);
    TokensRead(n);
    TokenWidths(n);
    CutConcat(SlotTokens(n), 2);
    StartParts(Hex2(rateMode), StartSlots(n));
  }

  lemma TokenWidths(n: nat)
    requires n <= 256
    ensures forall s :: 0 <= s < n ==> |SlotTokens(n)[s]| == 2
  {
  }

  lemma StartParts(rate: string, slots: string)
    requires |rate| == 2 && |slots| % 2 == 0
    ensures ReadStart("2A" + rate + slots) ==
            match (ParseU8(rate), BytesRead(Cut(slots, 2)))
            case (Some(r), Some(s)) => Some(Start(r, s))
            case _ => None
  {
    hide *;
    ThreeParts("2A", rate, slots);
    StartCut("2A" + rate + slots, rate, slots);
  }

  lemma ThreeParts(x: string, y: string, z: string)
    ensures
      var c := x + y + z;
      && |c| == |x| + |y| + |z| && c[..|x|] == x && c[|x|..|x| + |y|] == y && c[|x| + |y|..] == z
  {
  }

  lemma StartCut(c: string, rate: string, slots: string)
    requires |c| == 4 + |slots| && |slots| % 2 == 0 && c[..2] == "2A" && c[2..4] == rate && c[4..] == slots
    ensures ReadStart(c) ==
            match (ParseU8(rate), BytesRead(Cut(slots, 2)))
            case (Some(r), Some(s)) => Some(Start(r, s))
            case _ => None
  {
    hide ParseU8, BytesRead, Cut;
  }

  // ---------------------------------------------------------------- building the commands

  /** The command of a record, read back. */
  ghost predicate DefineOk(c: string, r: Record) {
    var d := ReadDefine(c);
    && d.Some? && d.value.slot as nat == r.slot && d.value.position == 1 && d.value.size as nat == r.len
    && ReadsAt(r.pid, d.value.source)
  }

  /** The commands read back: one define per record, and a start that asks for the used slots, each once. */
  ghost predicate Commands(d: DefineSet, rateMode: byte) {
    && |d.commands| == |d.packing.records|
    && (forall i :: 0 <= i < |d.commands| ==> DefineOk(d.commands[i], d.packing.records[i]))
    && ReadStart(d.start).Some?
    && var start := ReadStart(d.start).value;
       && start.rateMode == rateMode && |start.slots| == d.slotsUsed
       && (forall i, j :: 0 <= i < j < |start.slots| ==> start.slots[i] < start.slots[j])
       && forall s: byte :: s in start.slots <==> s as nat < |d.packing.fill| && d.packing.fill[s] > 0
  }

  datatype DefineSet = DefineSet(commands: seq<string>, packing: Packing, start: string, slotsUsed: nat)

  /** One explicit target at most, and it is the profile's. */
  method CheckTargets(signals: seq<Signal>, target: string) returns (mixed: bool)
    ensures mixed <==> Mixed(signals, target)
  {
    var seen: Option<string> := None;
    for i := 0 to |signals|
      invariant seen.None? ==> forall j :: 0 <= j < i ==> signals[j].target.None?
      invariant seen.Some? ==>
                  && (exists j :: 0 <= j < i && signals[j].target.Some? && Upper(signals[j].target.value) == seen.value)
                  && forall j :: 0 <= j < i && signals[j].target.Some? ==> Upper(signals[j].target.value) == seen.value
    {
      if signals[i].target.Some? {
        var t := Upper(signals[i].target.value);
        if seen.None? {
          seen := Some(t);
        } else if seen.value != t {
          assert t != target || seen.value != target;
          return true;
        }
      }
    }
    mixed := seen.Some? && seen.value != target;
  }

  method FindSlot(fill: array<nat>, len: nat) returns (slot: nat)
    ensures slot == FirstFit(fill[..], len)
  {
    slot := 0;
    while slot < fill.Length && fill[slot] + len > SLOT_DATA_BYTES
      invariant slot <= fill.Length
      invariant FirstFit(fill[..], len) == slot + FirstFit(fill[slot..], len)
    {
      assert fill[slot..][1..] == fill[slot + 1..];
      slot := slot + 1;
    }
  }

  method BuildDefines(signals: seq<Signal>, target: string, slots: nat, rateMode: byte)
    returns (r: Result<DefineSet, BuildError>)
    requires slots <= 256
    ensures r.Failure? <==> Mixed(signals, target)
    ensures r.Success? ==>
              && r.value.packing == Pack(signals, slots) && r.value.commands == DefineCommands(r.value.packing.records)
              && r.value.slotsUsed == SlotsUsed(r.value.packing.fill) <= 256
              && r.value.start == "2A" + Hex2(rateMode) + StartSlots(r.value.slotsUsed)
    ensures r.Success? ==> Commands(r.value, rateMode)
  {
    var mixed := CheckTargets(signals, target);
    if mixed {
      return Failure(MixedTarget);
    }
    hide Mixed, Pack, DefineCommands, SlotsUsed, StartSlots, Hex2, Commands;
    var packing, commands := PackSignals(signals, slots);
    FillSize(signals, slots);
    var used := CountUsed(packing.fill);
    UsedBound(packing.fill);
    r := Success(DefineSet(commands, packing, "2A" + Hex2(rateMode) + StartSlots(used), used));
    CommandsRead(signals, slots, rateMode);
  }

  lemma FillSize(signals: seq<Signal>, slots: nat)
    ensures |Pack(signals, slots).fill| == slots
  {
    PackOk(signals, slots);
  }

  // First fit, in order.
  method PackSignals(signals: seq<Signal>, slots: nat) returns (packing: Packing, commands: seq<string>)
    ensures packing == Pack(signals, slots) && commands == DefineCommands(packing.records)
  {
    var fill := new nat[slots](_ => 0);
    packing, commands := Empty(slots), [];
    assert fill[..] == packing.fill;
    assert signals[..0] == [];
    PackNothing(slots);
    hide PackOne, Pack, DefineCommands, Empty;
    for i := 0 to |signals|
      invariant packing == Pack(signals[..i], slots) && fill[..] == packing.fill
      invariant commands == DefineCommands(packing.records)
    {
      PackStep(signals, i, slots);
      packing, commands := PackSignal(fill, packing, commands, signals[i]);
    }
    assert signals[..|signals|] == signals;
  }

  // One signal: defined in the slot it fits first, or dropped.
  method PackSignal(fill: array<nat>, packing: Packing, commands: seq<string>, s: Signal)
    returns (next: Packing, more: seq<string>)
    requires fill[..] == packing.fill && commands == DefineCommands(packing.records)
    modifies fill
    ensures next == PackOne(packing, s) && fill[..] == next.fill && more == DefineCommands(next.records)
  {
    hide SourceDid, FirstFit, Upper, DefineCommand;
    var one, found := PlaceOne(fill, s);
    if found {
      more := commands + [DefineCommand(one)];
      next := Packing(packing.fill[one.slot := fill[one.slot] + one.len], packing.records + [one],
                      packing.unpack[one.slot := SlotOf(packing.unpack, one.slot) +
                                     [Packed(one.pid, fill[one.slot], one.len)]],
                      packing.dropped);
      fill[one.slot] := fill[one.slot] + one.len;
    } else {
      more := commands;
      next := packing.(dropped := packing.dropped + [Upper(s.pid)]);
    }
  }

  // The record a signal becomes, unless it cannot stream or no slot has room.
  method PlaceOne(fill: array<nat>, s: Signal) returns (one: Record, found: bool)
    ensures found <==> Streamable(s) && FirstFit(fill[..], s.len as nat) < fill.Length
    ensures found ==>
            one == Record(FirstFit(fill[..], s.len as nat), Upper(s.pid), s.len as nat) && SourceDid(one.pid).Some?
  {
    UpperSource(s.pid);
    one, found := Record(0, [], 0), false;
    if s.len == 0 || s.len as nat > SLOT_DATA_BYTES || SourceDid(s.pid).None? {
      return;
    }
    var slot := FindSlot(fill, s.len as nat);
    if slot < fill.Length {
      one, found := Record(slot, Upper(s.pid), s.len as nat), true;
    }
  }

  lemma PackNothing(slots: nat)
    ensures Pack([], slots) == Empty(slots)
  {
  }

  lemma PackStep(signals: seq<Signal>, i: nat, slots: nat)
    requires i < |signals|
    ensures Pack(signals[..i + 1], slots) == PackOne(Pack(signals[..i], slots), signals[i])
  {
    hide PackOne;
    assert signals[..i + 1][..i] == signals[..i];
  }

  method CountUsed(fill: seq<nat>) returns (used: nat)
    ensures used == SlotsUsed(fill)
  {
    used := 0;
    assert fill[..0] == [];
    for i := 0 to |fill|
      invariant used == SlotsUsed(fill[..i])
    {
      assert fill[..i + 1][..i] == fill[..i];
      if fill[i] > 0 {
        used := used + 1;
      }
    }
    assert fill[..|fill|] == fill;
  }

  lemma {:induction false} UsedBound(fill: seq<nat>)
    ensures SlotsUsed(fill) <= |fill|
  {
    if fill != [] { UsedBound(fill[..|fill| - 1]); }
  }

  lemma {:induction false} UpperTwice(s: string)
    ensures Upper(Upper(s)) == Upper(s)
  {
    forall i | 0 <= i < |s| ensures Upper(Upper(s))[i] == Upper(s)[i] {
    }
  }

  lemma {:induction false} TrimLeftUpper(s: string)
    ensures TrimLeft(Upper(s)) == Upper(TrimLeft(s))
  {
    if s != [] && IsSpace(s[0]) {
      TrimLeftUpper(s[1..]);
      assert Upper(s)[1..] == Upper(s[1..]);
    } else if s != [] {
      assert !IsSpace(Upper(s)[0]);
    }
  }

  lemma {:induction false} TrimRightUpper(s: string)
    ensures TrimRight(Upper(s)) == Upper(TrimRight(s))
  {
    if s != [] && IsSpace(s[|s| - 1]) {
      TrimRightUpper(s[..|s| - 1]);
      assert Upper(s)[..|s| - 1] == Upper(s[..|s| - 1]);
    } else if s != [] {
      assert !IsSpace(Upper(s)[|s| - 1]);
    }
  }

  // The source of a pid does not depend on its letter case.
  lemma UpperSource(pid: string)
    ensures SourceDid(Upper(pid)) == SourceDid(pid)
  {
    TrimLeftUpper(pid);
    TrimRightUpper(TrimLeft(pid));
    UpperTwice(Trim(pid));
  }

  // ---------------------------------------------------------------- what first fit achieves

  function TotalLen(records: seq<Record>): nat {
    if records == [] then 0 else TotalLen(records[..|records| - 1]) + records[|records| - 1].len
  }

  function Own(records: seq<Record>, slot: nat): seq<Record> {
    if records == [] then []
    else
      var last, before := records[|records| - 1], Own(records[..|records| - 1], slot);
      if last.slot == slot then before + [last] else before
  }

  predicate Follows(signals: seq<Packed>, i: nat)
    requires i < |signals|
  {
    signals[i].len >= 1 && signals[i].offset == if i == 0 then 0 else signals[i - 1].offset + signals[i - 1].len
  }

  /** Each signal right after the one before it. */
  predicate Laid(signals: seq<Packed>) {
    forall i :: 0 <= i < |signals| ==> Follows(signals, i)
  }

  function End(signals: seq<Packed>): nat {
    if signals == [] then 0 else signals[|signals| - 1].offset + signals[|signals| - 1].len
  }

  /** A slot's signals, in define order without gaps, fill exactly `fill` of its seven bytes. */
  predicate SlotOk(fill: nat, signals: seq<Packed>) {
    fill <= SLOT_DATA_BYTES && End(signals) == fill && Laid(signals)
  }

  /** A record's slot exists, and no slot before it had, or will ever have, room for it. */
  predicate RecordOk(fill: seq<nat>, r: Record) {
    && 1 <= r.len <= SLOT_DATA_BYTES && r.slot < |fill| && r.len <= fill[r.slot]
    && forall s :: 0 <= s < r.slot ==> fill[s] + r.len > SLOT_DATA_BYTES
  }

  ghost predicate PackedOk(p: Packing, slots: nat) {
    && |p.fill| == slots
    && (forall s :: 0 <= s < slots ==> SlotOk(p.fill[s], SlotOf(p.unpack, s)))
    && (forall s :: s in p.unpack ==> s < slots && p.unpack[s] != [])
    && (forall i :: 0 <= i < |p.records| ==> RecordOk(p.fill, p.records[i]))
    && (forall s :: 0 <= s < slots && p.fill[s] > 0 ==> exists i :: 0 <= i < |p.records| && p.records[i].slot == s)
  }

  lemma SlotGrows(fill: nat, signals: seq<Packed>, pid: string, len: nat)
    requires SlotOk(fill, signals) && len >= 1 && fill + len <= SLOT_DATA_BYTES
    ensures SlotOk(fill + len, signals + [Packed(pid, fill, len)])
  {
    var more := signals + [Packed(pid, fill, len)];
    forall i | 0 <= i < |more| ensures Follows(more, i) {
      if i < |signals| { assert Follows(signals, i); }
    }
  }

  lemma RecordKept(fill: seq<nat>, r: Record, slot: nat, len: nat)
    requires RecordOk(fill, r) && slot < |fill|
    ensures RecordOk(fill[slot := fill[slot] + len], r)
  {
  }

  lemma RecordAdded(fill: seq<nat>, pid: string, len: nat)
    requires 1 <= len <= SLOT_DATA_BYTES && FirstFit(fill, len) < |fill|
    ensures
      var slot := FirstFit(fill, len);
      RecordOk(fill[slot := fill[slot] + len], Record(slot, pid, len))
  {
  }

  lemma RecordsKept(p: Packing, q: Packing, slot: nat, r: Record, slots: nat)
    requires PackedOk(p, slots) && slot < slots && r.slot == slot
    requires q.fill == p.fill[slot := p.fill[slot] + r.len] && q.records == p.records + [r] && RecordOk(q.fill, r)
    ensures forall i :: 0 <= i < |q.records| ==> RecordOk(q.fill, q.records[i])
    ensures forall t :: 0 <= t < slots && q.fill[t] > 0 ==> exists i :: 0 <= i < |q.records| && q.records[i].slot == t
  {
    var k := |p.records|;
    hide RecordOk, SlotOk;
    forall i | 0 <= i < |q.records| ensures RecordOk(q.fill, q.records[i]) {
      if i < k { RecordKept(p.fill, p.records[i], slot, r.len); }
    }
    forall t | 0 <= t < slots && q.fill[t] > 0 ensures exists i :: 0 <= i < |q.records| && q.records[i].slot == t {
      if t == slot {
        assert q.records[k].slot == t;
      } else {
        var i :| 0 <= i < k && p.records[i].slot == t;
        assert q.records[i].slot == t;
      }
    }
  }

  lemma SlotsKept(p: Packing, q: Packing, slot: nat, r: Record, slots: nat)
    requires PackedOk(p, slots) && slot < slots && q.fill == p.fill[slot := p.fill[slot] + r.len]
    requires q.unpack == p.unpack[slot := SlotOf(p.unpack, slot) + [Packed(r.pid, p.fill[slot], r.len)]]
    requires SlotOk(q.fill[slot], q.unpack[slot])
    ensures forall s :: 0 <= s < slots ==> SlotOk(q.fill[s], SlotOf(q.unpack, s))
    ensures forall s :: s in q.unpack ==> s < slots && q.unpack[s] != []
  {
    hide RecordOk, SlotOk;
    forall s | 0 <= s < slots ensures SlotOk(q.fill[s], SlotOf(q.unpack, s)) {
      assert SlotOk(p.fill[s], SlotOf(p.unpack, s));
    }
  }

  lemma PlacedOk(p: Packing, q: Packing, r: Record, slots: nat)
    requires PackedOk(p, slots) && 1 <= r.len <= SLOT_DATA_BYTES && r.slot == FirstFit(p.fill, r.len) < slots
    requires q.fill == p.fill[r.slot := p.fill[r.slot] + r.len] && q.records == p.records + [r]
    requires q.unpack == p.unpack[r.slot := SlotOf(p.unpack, r.slot) + [Packed(r.pid, p.fill[r.slot], r.len)]]
    ensures PackedOk(q, slots)
  {
    RecordAdded(p.fill, r.pid, r.len);
    hide FirstFit, RecordOk, SlotOk;
    assert SlotOk(p.fill[r.slot], SlotOf(p.unpack, r.slot));
    SlotGrows(p.fill[r.slot], SlotOf(p.unpack, r.slot), r.pid, r.len);
    RecordsKept(p, q, r.slot, r, slots);
    SlotsKept(p, q, r.slot, r, slots);
  }

  lemma PackOneOk(p: Packing, s: Signal, slots: nat)
    requires PackedOk(p, slots)
    ensures PackedOk(PackOne(p, s), slots)
  {
    hide SourceDid, Upper, FirstFit, RecordOk, SlotOk;
    if Streamable(s) && FirstFit(p.fill, s.len as nat) < |p.fill| {
      PlacedOk(p, PackOne(p, s), Record(FirstFit(p.fill, s.len as nat), Upper(s.pid), s.len as nat), slots);
    }
  }

  lemma EmptyOk(slots: nat)
    ensures PackedOk(Empty(slots), slots)
  {
    forall s | 0 <= s < slots ensures SlotOk(Empty(slots).fill[s], SlotOf(Empty(slots).unpack, s)) {
    }
  }

  lemma {:induction false} PackOk(signals: seq<Signal>, slots: nat)
    ensures PackedOk(Pack(signals, slots), slots)
  {
    hide PackOne, PackedOk, Empty;
    if signals == [] {
      EmptyOk(slots);
    } else {
      var k := |signals| - 1;
      PackOk(signals[..k], slots);
      PackOneOk(Pack(signals[..k], slots), signals[k], slots);
    }
  }

  function UpperPids(signals: seq<Signal>): (r: seq<string>)
    ensures |r| == |signals|
    ensures forall i :: 0 <= i < |signals| ==> r[i] == Upper(signals[i].pid)
  {
    seq(|signals|, i requires 0 <= i < |signals| => Upper(signals[i].pid))
  }

  function RecordPids(records: seq<Record>): (r: seq<string>)
    ensures |r| == |records|
    ensures forall i :: 0 <= i < |records| ==> r[i] == records[i].pid
  {
    seq(|records|, i requires 0 <= i < |records| => records[i].pid)
  }

  // What one signal adds: a record at the end of a slot, or a drop.
  lemma PackOneParts(p: Packing, s: Signal)
    ensures
      var q, slot, pid, len := PackOne(p, s), FirstFit(p.fill, s.len as nat), Upper(s.pid), s.len as nat;
      if Streamable(s) && slot < |p.fill| then
        && q.records == p.records + [Record(slot, pid, len)] && q.dropped == p.dropped
        && q.unpack == p.unpack[slot := SlotOf(p.unpack, slot) + [Packed(pid, p.fill[slot], len)]]
      else q == p.(dropped := p.dropped + [pid])
  {
    hide FirstFit, SourceDid, Upper;
  }

  lemma PidsAdd(signals: seq<Signal>, s: Signal, records: seq<Record>, r: Record)
    ensures UpperPids(signals + [s]) == UpperPids(signals) + [Upper(s.pid)]
    ensures RecordPids(records + [r]) == RecordPids(records) + [r.pid]
  {
    hide Upper;
  }

  lemma PackLast(signals: seq<Signal>, slots: nat)
    requires signals != []
    ensures Pack(signals, slots) == PackOne(Pack(signals[..|signals| - 1], slots), signals[|signals| - 1])
    ensures signals == signals[..|signals| - 1] + [signals[|signals| - 1]]
  {
    hide PackOne;
  }

  lemma NothingPacked(slots: nat)
    ensures Pack([], slots).records == [] && Pack([], slots).dropped == [] && UpperPids([]) == [] &&
            RecordPids([]) == []
    ensures forall slot :: SlotOf(Pack([], slots).unpack, slot) == []
  {
  }

  /** Every signal is either defined once or dropped once. */
  lemma {:induction false} PackConserves(signals: seq<Signal>, slots: nat)
    ensures
      var p := Pack(signals, slots);
      multiset(RecordPids(p.records)) + multiset(p.dropped) == multiset(UpperPids(signals))
  {
    hide *;
    if signals == [] {
      NothingPacked(slots);
    } else {
      var k := |signals| - 1;
      var p, s := Pack(signals[..k], slots), signals[k];
      PackConserves(signals[..k], slots);
      PackLast(signals, slots);
      PackOneParts(p, s);
      PidsAdd(signals[..k], s, p.records, Record(FirstFit(p.fill, s.len as nat), Upper(s.pid), s.len as nat));
    }
  }

  lemma {:induction false} FillGrows(signals: seq<Signal>, i: nat, slots: nat)
    requires i <= |signals|
    ensures
      var p, q := Pack(signals[..i], slots), Pack(signals, slots);
      |p.fill| == |q.fill| && forall s :: 0 <= s < |p.fill| ==> p.fill[s] <= q.fill[s]
    decreases |signals|
  {
    hide FirstFit, SourceDid, Upper;
    if i == |signals| {
      assert signals[..i] == signals;
    } else {
      var k := |signals| - 1;
      assert signals[..k][..i] == signals[..i];
      FillGrows(signals[..k], i, slots);
    }
  }

  /** A signal dropped for want of room fits no slot at the end either. */
  lemma DroppedFitsNowhere(signals: seq<Signal>, i: nat, slots: nat)
    requires i < |signals| && Streamable(signals[i])
    requires Pack(signals[..i + 1], slots).dropped != Pack(signals[..i], slots).dropped
    ensures forall s :: 0 <= s < slots ==>
            s < |Pack(signals, slots).fill| && Pack(signals, slots).fill[s] + signals[i].len as nat > SLOT_DATA_BYTES
  {
    FillSize(signals, slots);
    FillGrows(signals, i, slots);
    PackStep(signals, i, slots);
    var p, len := Pack(signals[..i], slots), signals[i].len as nat;
    hide Pack, SourceDid, Upper;
    assert FirstFit(p.fill, len) == |p.fill|;
    hide FirstFit;
  }

  /** Used slots come first, so the start command, which lists that many from zero, lists exactly them. */
  lemma UsedPrefix(signals: seq<Signal>, slots: nat)
    ensures
      var fill := Pack(signals, slots).fill;
      |fill| == slots && forall s :: 0 <= s < slots ==> (fill[s] > 0 <==> s < SlotsUsed(fill))
  {
    PackOk(signals, slots);
    var p := Pack(signals, slots);
    forall s, t | 0 <= s < t < slots && p.fill[t] > 0 ensures p.fill[s] > 0 {
      var i :| 0 <= i < |p.records| && p.records[i].slot == t;
      assert RecordOk(p.fill, p.records[i]);
    }
    hide PackedOk, Pack;
    PrefixCount(p.fill);
  }

  lemma {:induction false} SourcedRecords(signals: seq<Signal>, slots: nat, i: nat)
    requires i < |Pack(signals, slots).records|
    ensures SourceDid(Pack(signals, slots).records[i].pid).Some?
  {
    hide SourceDid, FirstFit, Upper;
    if signals != [] {
      var k := |signals| - 1;
      if i < |Pack(signals[..k], slots).records| { SourcedRecords(signals[..k], slots, i); }
      UpperSource(signals[k].pid);
    }
  }

  lemma RecordRead(signals: seq<Signal>, slots: nat, i: nat)
    requires slots <= 256 && i < |Pack(signals, slots).records|
    ensures DefineOk(DefineCommand(Pack(signals, slots).records[i]), Pack(signals, slots).records[i])
  {
    PackOk(signals, slots);
    var r := Pack(signals, slots).records[i];
    assert RecordOk(Pack(signals, slots).fill, r);
    SourcedRecords(signals, slots, i);
    SourceReads(r.pid);
    hide Pack, PackedOk, SourceDid, DefineCommand, ReadDefine, ReadsAt;
    DefineRead(r);
  }

  /** What the vehicle reads in the commands of a packing. */
  lemma CommandsRead(signals: seq<Signal>, slots: nat, rateMode: byte)
    requires slots <= 256
    ensures
      var p := Pack(signals, slots);
      var used := SlotsUsed(p.fill);
      used <= 256 &&
      Commands(DefineSet(DefineCommands(p.records), p, "2A" + Hex2(rateMode) + StartSlots(used), used), rateMode)
  {
    UsedPrefix(signals, slots);
    hide Pack, SlotsUsed, StartSlots, Hex2, ReadStart, DefineOk, DefineCommand;
    var p := Pack(signals, slots);
    UsedBound(p.fill);
    var used := SlotsUsed(p.fill);
    StartRead(rateMode, used);
    forall i | 0 <= i < |p.records| ensures DefineOk(DefineCommand(p.records[i]), p.records[i]) {
      RecordRead(signals, slots, i);
    }
    forall s: byte ensures s in FirstSlots(used) <==> s as nat < used {
      if s as nat < used { assert FirstSlots(used)[s] == s; }
    }
  }

  /** What a slot sends fits one CAN frame: its identifier and its data are at most eight bytes. */
  lemma SlotFitsFrame(signals: seq<Signal>, slots: nat, s: nat)
    requires s < |Pack(signals, slots).fill|
    ensures 1 + Pack(signals, slots).fill[s] <= 8
  {
    PackOk(signals, slots);
    assert SlotOk(Pack(signals, slots).fill[s], SlotOf(Pack(signals, slots).unpack, s));
    hide Pack;
  }

  lemma {:induction false} PrefixCount(fill: seq<nat>)
    requires forall s, t :: 0 <= s < t < |fill| && fill[t] > 0 ==> fill[s] > 0
    ensures forall s :: 0 <= s < |fill| ==> (fill[s] > 0 <==> s < SlotsUsed(fill))
    ensures SlotsUsed(fill) <= |fill|
  {
    if fill != [] {
      var k := |fill| - 1;
      PrefixCount(fill[..k]);
      assert forall s :: 0 <= s < k ==> fill[..k][s] == fill[s];
      if fill[k] > 0 {
        assert forall s :: 0 <= s < k ==> fill[..k][s] > 0;
        assert SlotsUsed(fill[..k]) == k by { if k > 0 { assert fill[..k][k - 1] > 0; } }
      }
    }
  }

  function Total(fill: seq<nat>): nat {
    if fill == [] then 0 else Total(fill[..|fill| - 1]) + fill[|fill| - 1]
  }

  /** Two used slots never share what one could hold. */
  lemma PairsFull(signals: seq<Signal>, slots: nat, s: nat, t: nat)
    requires s < t < slots && |Pack(signals, slots).fill| == slots && Pack(signals, slots).fill[t] > 0
    ensures Pack(signals, slots).fill[s] + Pack(signals, slots).fill[t] >= SLOT_DATA_BYTES + 1
  {
    PackOk(signals, slots);
    var p := Pack(signals, slots);
    var i :| 0 <= i < |p.records| && p.records[i].slot == t;
    assert RecordOk(p.fill, p.records[i]);
  }

  lemma {:induction false} PairsBound(fill: seq<nat>, used: nat)
    requires used <= |fill| && forall s, t :: 0 <= s < t < used ==> fill[s] + fill[t] >= 8
    ensures Total(fill[..used]) >= 8 * (used / 2)
    decreases used
  {
    if used >= 2 {
      PairsBound(fill, used - 2);
      assert fill[..used][..used - 1] == fill[..used - 1] && fill[..used - 1][..used - 2] == fill[..used - 2];
      assert Total(fill[..used]) == Total(fill[..used - 2]) + fill[used - 2] + fill[used - 1];
    }
  }

  lemma {:induction false} TotalMonotone(fill: seq<nat>, n: nat)
    requires n <= |fill|
    ensures Total(fill[..n]) <= Total(fill)
    decreases |fill|
  {
    if n == |fill| {
      assert fill[..n] == fill;
    } else {
      var k := |fill| - 1;
      assert fill[..k][..n] == fill[..n];
      TotalMonotone(fill[..k], n);
    }
  }

  /** First fit wastes little: the slots used are at most one more than a quarter of the bytes packed. */
  lemma FirstFitBound(signals: seq<Signal>, slots: nat)
    ensures SlotsUsed(Pack(signals, slots).fill) <= 1 + TotalLen(Pack(signals, slots).records) / 4
  {
    var fill := Pack(signals, slots).fill;
    PackTotal(signals, slots);
    UsedPrefix(signals, slots);
    UsedBound(fill);
    var used := SlotsUsed(fill);
    forall s, t | 0 <= s < t < used ensures fill[s] + fill[t] >= 8 { PairsFull(signals, slots, s, t); }
    hide Pack, SlotsUsed;
    PairsBound(fill, used);
    TotalMonotone(fill, used);
  }

  /** A slot's signals are its records: the same pids and lengths, in define order. */
  predicate SameOrder(signals: seq<Packed>, records: seq<Record>) {
    |signals| == |records| && forall k :: 0 <= k < |signals| ==>
        signals[k].pid == records[k].pid && signals[k].len == records[k].len
  }

  lemma OwnAdd(records: seq<Record>, r: Record, slot: nat)
    ensures Own(records + [r], slot) == if r.slot == slot then Own(records, slot) + [r] else Own(records, slot)
  {
    assert (records + [r])[..|records|] == records;
  }

  lemma SlotOfUpdate(unpack: UnpackMap, at: nat, signals: seq<Packed>, slot: nat)
    ensures SlotOf(unpack[at := signals], slot) == if slot == at then signals else SlotOf(unpack, slot)
  {
  }

  lemma SameOrderAdd(signals: seq<Packed>, records: seq<Record>, s: Packed, r: Record)
    requires SameOrder(signals, records) && s.pid == r.pid && s.len == r.len
    ensures SameOrder(signals + [s], records + [r])
  {
  }

  lemma NothingOrdered()
    ensures SameOrder([], Own([], 0)) && forall slot :: Own([], slot) == []
  {
  }

  lemma {:induction false} PackOrder(signals: seq<Signal>, slots: nat, slot: nat)
    ensures
      var p := Pack(signals, slots);
      SameOrder(SlotOf(p.unpack, slot), Own(p.records, slot))
  {
    hide *;
    if signals == [] {
      NothingPacked(slots);
      NothingOrdered();
    } else {
      var k := |signals| - 1;
      var p, s := Pack(signals[..k], slots), signals[k];
      PackOrder(signals[..k], slots, slot);
      PackLast(signals, slots);
      PackOneParts(p, s);
      var at := FirstFit(p.fill, s.len as nat);
      if Streamable(s) && at < |p.fill| {
        var r, packed := Record(at, Upper(s.pid), s.len as nat), Packed(Upper(s.pid), p.fill[at], s.len as nat);
        OwnAdd(p.records, r, slot);
        SlotOfUpdate(p.unpack, at, SlotOf(p.unpack, at) + [packed], slot);
        if at == slot { SameOrderAdd(SlotOf(p.unpack, slot), Own(p.records, slot), packed, r); }
      }
    }
  }

  lemma {:induction false} TotalUpdate(fill: seq<nat>, slot: nat, len: nat)
    requires slot < |fill|
    ensures Total(fill[slot := fill[slot] + len]) == Total(fill) + len
  {
    var k := |fill| - 1;
    var more := fill[slot := fill[slot] + len];
    if slot < k {
      TotalUpdate(fill[..k], slot, len);
      assert more[..k] == fill[..k][slot := fill[..k][slot] + len];
    } else {
      assert more[..k] == fill[..k];
    }
  }

  lemma {:induction false} TotalZero(n: nat)
    ensures Total(Empty(n).fill) == 0
  {
    if n > 0 {
      assert Empty(n).fill[..n - 1] == Empty(n - 1).fill;
      TotalZero(n - 1);
    }
  }

  lemma PackOneTotal(p: Packing, s: Signal)
    requires Total(p.fill) == TotalLen(p.records)
    ensures Total(PackOne(p, s).fill) == TotalLen(PackOne(p, s).records)
  {
    hide FirstFit, Streamable, Upper, Total, TotalLen, SlotOf;
    var slot, len := FirstFit(p.fill, s.len as nat), s.len as nat;
    if Streamable(s) && slot < |p.fill| {
      TotalUpdate(p.fill, slot, len);
      LastLen(p.records, Record(slot, Upper(s.pid), len));
    }
  }

  lemma LastLen(records: seq<Record>, r: Record)
    ensures TotalLen(records + [r]) == TotalLen(records) + r.len
  {
    assert (records + [r])[..|records|] == records;
  }

  /** The slots hold exactly the bytes of the defined records. */
  lemma {:induction false} PackTotal(signals: seq<Signal>, slots: nat)
    ensures Total(Pack(signals, slots).fill) == TotalLen(Pack(signals, slots).records)
  {
    hide PackOne, Empty;
    if signals == [] {
      TotalZero(slots);
      NoRecords(slots);
    } else {
      var k := |signals| - 1;
      PackTotal(signals[..k], slots);
      PackOneTotal(Pack(signals[..k], slots), signals[k]);
    }
  }

  lemma NoRecords(slots: nat)
    ensures Empty(slots).records == []
  {
  }

  // ---------------------------------------------------------------- refusals

  function MovedUp(s: Packed, removed: Packed): Packed {
    if s.offset > removed.offset && s.offset >= removed.len then s.(offset := s.offset - removed.len) else s
  }

  // A record leaves, and every later one moves up by its length.
  function Without(signals: seq<Packed>, i: nat): (r: seq<Packed>)
    requires i < |signals|
    ensures |r| == |signals| - 1
    ensures forall k :: 0 <= k < |r| ==> r[k] == MovedUp(signals[if k < i then k else k + 1], signals[i])
  {
    seq(|signals| - 1, k requires 0 <= k < |signals| - 1 => MovedUp(signals[if k < i then k else k + 1], signals[i]))
  }

  predicate IsFirst(signals: seq<Packed>, pid: string, i: nat) {
    i < |signals| && signals[i].pid == pid && forall k :: 0 <= k < i ==> signals[k].pid != pid
  }

  predicate Present(unpack: UnpackMap, slot: nat, pid: string) {
    slot in unpack && exists k :: 0 <= k < |unpack[slot]| && unpack[slot][k].pid == pid
  }

  /** What a refusal leaves: the slot without the record, and no slot without records. */
  ghost predicate Refused(unpack: UnpackMap, slot: nat, pid: string, left: UnpackMap) {
    if !Present(unpack, slot, pid) then left == unpack
    else exists i :: && IsFirst(unpack[slot], pid, i)
                     && left == if |unpack[slot]| == 1 then unpack - {slot}
                        else unpack[slot := Without(unpack[slot], i)]
  }

  /** Taking a record out of a gap-free slot leaves a gap-free slot in the same order. */
  lemma WithoutLaid(signals: seq<Packed>, i: nat)
    requires Laid(signals) && i < |signals|
    ensures Laid(Without(signals, i))
    ensures forall k :: 0 <= k < |signals| - 1 ==>
              var from := signals[if k < i then k else k + 1];
              Without(signals, i)[k].pid == from.pid && Without(signals, i)[k].len == from.len
  {
    var w := Without(signals, i);
    forall k | 0 <= k < |w|
      ensures w[k].pid == signals[if k < i then k else k + 1].pid &&
              w[k].len == signals[if k < i then k else k + 1].len {
      MovedExactly(signals, i, k);
    }
    forall k | 0 <= k < |w| ensures Follows(w, k) { NextFollows(signals, i, k); }
  }

  lemma MovedExactly(signals: seq<Packed>, i: nat, k: nat)
    requires Laid(signals) && i < |signals| && k < |signals| - 1
    ensures k >= i ==> signals[k + 1].offset >= signals[i].len
    ensures MovedUp(signals[if k < i then k else k + 1], signals[i]) ==
            if k < i then signals[k] else signals[k + 1].(offset := signals[k + 1].offset - signals[i].len)
  {
    if k < i { OffsetsRise(signals, k, i); } else { OffsetsRise(signals, i, k + 1); }
    assert Follows(signals, i);
  }

  lemma NextFollows(signals: seq<Packed>, i: nat, k: nat)
    requires Laid(signals) && i < |signals| && k < |signals| - 1
    ensures Follows(Without(signals, i), k)
  {
    MovedExactly(signals, i, k);
    if k > 0 { MovedExactly(signals, i, k - 1); }
    assert Follows(signals, k) && Follows(signals, k + 1) && Follows(signals, i);
    hide MovedUp, Laid;
  }

  lemma {:induction false} OffsetsRise(signals: seq<Packed>, i: nat, k: nat)
    requires Laid(signals) && i < k < |signals|
    ensures signals[i].offset + signals[i].len <= signals[k].offset
  {
    assert Follows(signals, k);
    if i + 1 < k { OffsetsRise(signals, i, k - 1); }
  }

  /**
   A refusal names a pid, and the first record of that pid leaves. When the refused record is a later one
   of the same pid, the layout comes out right exactly if every record from the first to it is the same
   pid of the same length.
   */
  lemma RefusedDuplicate(signals: seq<Packed>, first: nat, refused: nat)
    requires Laid(signals) && first <= refused < |signals|
    ensures Without(signals, first) == Without(signals, refused)
            <==> forall k :: first <= k < refused ==> SameRecord(signals[k], signals[k + 1])
  {
    var a, b := Without(signals, first), Without(signals, refused);
    if a == b {
      forall k | first <= k < refused ensures SameRecord(signals[k], signals[k + 1]) {
        assert a[k] == b[k];
      }
    }
    if forall k :: first <= k < refused ==> SameRecord(signals[k], signals[k + 1]) {
      forall k | 0 <= k < |a| ensures a[k] == b[k] { SameMoved(signals, first, refused, k); }
    }
  }

  predicate SameRecord(s: Packed, t: Packed) {
    s.pid == t.pid && s.len == t.len
  }

  lemma {:induction false} SameRun(signals: seq<Packed>, first: nat, k: nat)
    requires first <= k < |signals| && forall i :: first <= i < k ==> SameRecord(signals[i], signals[i + 1])
    ensures signals[k].len == signals[first].len
  {
    if first < k {
      SameRun(signals, first, k - 1);
      assert SameRecord(signals[k - 1], signals[k]);
    }
  }

  lemma SameMoved(signals: seq<Packed>, first: nat, refused: nat, k: nat)
    requires Laid(signals) && first <= refused < |signals| && k < |signals| - 1
    requires forall k :: first <= k < refused ==> SameRecord(signals[k], signals[k + 1])
    ensures Without(signals, first)[k] == Without(signals, refused)[k]
  {
    MovedExactly(signals, first, k);
    MovedExactly(signals, refused, k);
    SameRun(signals, first, refused);
    if first <= k < refused {
      SameRun(signals, first, k);
      assert Follows(signals, k + 1);
      assert SameRecord(signals[k], signals[k + 1]);
    }
    hide MovedUp, Laid;
  }

  /**
   Three subscribed pids whose last differs from the first only by case. They sort apart and are put in
   upper case afterwards, so one slot defines `010C` twice with another pid in between.
   */
  const REPEATED := [Signal("010C", 2, None), Signal("010D", 1, None), Signal("010c", 2, None)]

  const REPEATED_SLOT := [Packed("010C", 0, 2), Packed("010D", 2, 1), Packed("010C", 3, 2)]

  lemma DataPidStreams(pid: string, len: byte)
    requires |pid| == 4 && AllHex(pid) && "01" <= pid && 1 <= len <= 7
    ensures Streamable(Signal(pid, len, None))
  {
    assert Trimmed(pid);
    TrimTrimmed(pid);
    var p := Upper(pid);
    assert p[0] == pid[0] && p[1] == pid[1] && pid[0] == "01"[0] && pid[1] == "01"[1];
    assert p == p[..2] + p[2..] && p[..2] == "01";
  }

  // One more record in the only slot.
  lemma PackedInto(signals: seq<Signal>, s: Signal, slot: seq<Packed>, used: nat)
    requires Pack(signals, 1).fill == [used] && SlotOf(Pack(signals, 1).unpack, 0) == slot
    requires Streamable(s) && used + s.len as nat <= SLOT_DATA_BYTES
    ensures Pack(signals + [s], 1).fill == [used + s.len as nat]
    ensures SlotOf(Pack(signals + [s], 1).unpack, 0) == slot + [Packed(Upper(s.pid), used, s.len as nat)]
  {
    assert (signals + [s])[..|signals|] == signals;
    hide Upper, SourceDid;
  }

  lemma RepeatedStreams()
    ensures forall i :: 0 <= i < 3 ==> Streamable(REPEATED[i])
    ensures Upper("010C") == "010C" && Upper("010D") == "010D" && Upper("010c") == "010C"
  {
    DataPidStreams("010C", 2);
    DataPidStreams("010D", 1);
    DataPidStreams("010c", 2);
    hide Streamable;
  }

  lemma NothingIn()
    ensures Pack([], 1).fill == [0] && SlotOf(Pack([], 1).unpack, 0) == []
  {
  }

  lemma RepeatedPacked()
    ensures SlotOf(Pack(REPEATED, 1).unpack, 0) == REPEATED_SLOT
  {
    hide Streamable, Pack, Upper, SlotOf;
    NothingIn();
    RepeatedStreams();
    var a, b, c := REPEATED[0], REPEATED[1], REPEATED[2];
    PackedInto([], a, [], 0);
    PackedInto([] + [a], b, [] + [REPEATED_SLOT[0]], 2);
    PackedInto([] + [a] + [b], c, [] + [REPEATED_SLOT[0]] + [REPEATED_SLOT[1]], 3);
    assert [] + [a] + [b] + [c] == REPEATED;
  }

  // ---------------------------------------------------------------- frames

  function Decoded(signals: seq<Packed>, data: seq<byte>): seq<(string, seq<byte>)> {
    if signals == [] then []
    else
      var s, before := signals[|signals| - 1], Decoded(signals[..|signals| - 1], data);
      if s.offset + s.len <= |data| then before + [(s.pid, data[s.offset..s.offset + s.len])] else before
  }

  lemma DecodedTwo(s: Packed, t: Packed, data: seq<byte>)
    requires s.offset + s.len <= |data| && t.offset + t.len <= |data|
    ensures Decoded([s, t], data) ==
            [(s.pid, data[s.offset..s.offset + s.len]), (t.pid, data[t.offset..t.offset + t.len])]
  {
    assert [s, t][..1] == [s] && [s][..0] == [];
    assert Decoded([s], data) == [(s.pid, data[s.offset..s.offset + s.len])];
  }

  /**
   When the vehicle refuses the later definition, the earlier record is given up instead: the bytes of
   the two accepted records, 1, 2 and 3, are then decoded under the wrong pids.
   */
  lemma RepeatedMisread(left: UnpackMap)
    requires Refused(Pack(REPEATED, 1).unpack, 0, "010C", left)
    ensures SlotOf(Pack(REPEATED, 1).unpack, 0) == REPEATED_SLOT
    ensures Decoded(Without(REPEATED_SLOT, 2), [1, 2, 3]) == [("010C", [1, 2]), ("010D", [3])]
    ensures Decoded(SlotOf(left, 0), [1, 2, 3]) == [("010D", [1]), ("010C", [2, 3])]
  {
    RepeatedPacked();
    hide Pack, Decoded;
    assert REPEATED_SLOT[0].pid == "010C";
    assert IsFirst(REPEATED_SLOT, "010C", 0);
    assert SlotOf(left, 0) == Without(REPEATED_SLOT, 0) == [Packed("010D", 0, 1), Packed("010C", 1, 2)];
    assert Without(REPEATED_SLOT, 2) == [Packed("010C", 0, 2), Packed("010D", 2, 1)];
    var data: seq<byte> := [1, 2, 3];
    assert data[0..1] == [1] && data[1..3] == [2, 3] && data[0..2] == [1, 2] && data[2..3] == [3];
    DecodedTwo(Packed("010D", 0, 1), Packed("010C", 1, 2), data);
    DecodedTwo(Packed("010C", 0, 2), Packed("010D", 2, 1), data);
  }

  function DecodeFrame(id: string, frame: seq<byte>, responseIds: seq<string>, unpack: UnpackMap)
    : seq<(string, seq<byte>)>
  {
    if id !in responseIds || frame == [] || frame[0] as nat !in unpack then []
    else Decoded(unpack[frame[0] as nat], frame[1..])
  }

  class UnpackTable {
    var slots: UnpackMap

    constructor (unpack: UnpackMap)
      ensures slots == unpack
    {
      slots := unpack;
    }

    /** Give up a record the vehicle refused; false if there is none. */
    method DropRefused(slot: nat, pid: string) returns (found: bool)
      modifies this
      ensures found <==> Present(old(slots), slot, pid)
      ensures Refused(old(slots), slot, pid, slots)
    {
      if slot !in slots {
        return false;
      }
      var signals := slots[slot];
      var i := 0;
      while i < |signals| && signals[i].pid != pid
        invariant i <= |signals| && forall k :: 0 <= k < i ==> signals[k].pid != pid
      {
        i := i + 1;
      }
      if i == |signals| {
        return false;
      }
      assert IsFirst(signals, pid, i);
      var left := Without(signals, i);
      slots := if left == [] then slots - {slot} else slots[slot := left];
      found := true;
    }

    method Decode(id: string, frame: seq<byte>, responseIds: seq<string>) returns (out: seq<(string, seq<byte>)>)
      ensures out == DecodeFrame(id, frame, responseIds, slots)
    {
      if id !in responseIds || frame == [] || frame[0] as nat !in slots {
        return [];
      }
      var signals, data := slots[frame[0] as nat], frame[1..];
      out := [];
      assert signals[..0] == [];
      for i := 0 to |signals|
        invariant out == Decoded(signals[..i], data)
      {
        assert signals[..i + 1][..i] == signals[..i];
        var s := signals[i];
        if s.offset + s.len <= |data| {
          out := out + [(s.pid, data[s.offset..s.offset + s.len])];
        }
      }
      assert signals[..|signals|] == signals;
    }
  }

  // The bytes the surviving sources put in a slot's frame, in define order.
  function SourceBytes(sources: seq<seq<byte>>): seq<byte> {
    if sources == [] then [] else SourceBytes(sources[..|sources| - 1]) + sources[|sources| - 1]
  }

  function Answers(signals: seq<Packed>, sources: seq<seq<byte>>): (r: seq<(string, seq<byte>)>)
    requires |sources| == |signals|
    ensures |r| == |signals|
    ensures forall i :: 0 <= i < |signals| ==> r[i] == (signals[i].pid, sources[i])
  {
    seq(|signals|, i requires 0 <= i < |signals| => (signals[i].pid, sources[i]))
  }

  lemma {:induction false} SourceEnd(signals: seq<Packed>, sources: seq<seq<byte>>)
    requires Laid(signals) && |sources| == |signals| && forall i :: 0 <= i < |signals| ==>
             |sources[i]| == signals[i].len
    ensures |SourceBytes(sources)| == End(signals)
  {
    if signals != [] {
      var k := |signals| - 1;
      PrefixLaid(signals, k);
      SourceEnd(signals[..k], sources[..k]);
      assert Follows(signals, k);
    }
  }

  lemma LastBytes(front: seq<byte>, source: seq<byte>, trailing: seq<byte>)
    ensures (front + source + trailing)[|front|..|front| + |source|] == source
  {
  }

  /**
   Decoding a gap-free slot: a frame of the survivors' bytes in define order, with anything after them,
   gives every survivor exactly its own bytes.
   */
  lemma {:induction false} DecodeExact(signals: seq<Packed>, sources: seq<seq<byte>>, trailing: seq<byte>)
    requires Laid(signals) && |sources| == |signals| && forall i :: 0 <= i < |signals| ==>
             |sources[i]| == signals[i].len
    ensures Decoded(signals, SourceBytes(sources) + trailing) == Answers(signals, sources)
  {
    if signals != [] {
      var k := |signals| - 1;
      var s, front := signals[k], SourceBytes(sources[..k]);
      PrefixLaid(signals, k);
      DecodeExact(signals[..k], sources[..k], sources[k] + trailing);
      SourceEnd(signals[..k], sources[..k]);
      assert Follows(signals, k);
      assert s.offset == |front|;
      LastBytes(front, sources[k], trailing);
      hide Laid, Follows;
      assert SourceBytes(sources) + trailing == front + (sources[k] + trailing) == front + sources[k] + trailing;
      assert Answers(signals, sources) == Answers(signals[..k], sources[..k]) + [(s.pid, sources[k])];
    }
  }

  function EndOf(s: Packed): nat { s.offset + s.len }

  /** How many signals end by `n`. */
  function Whole(signals: seq<Packed>, n: nat): (m: nat)
    ensures m <= |signals|
  {
    if signals == [] then 0
    else if EndOf(signals[|signals| - 1]) <= n then |signals|
    else Whole(signals[..|signals| - 1], n)
  }

  lemma PrefixLaid(signals: seq<Packed>, k: nat)
    requires Laid(signals) && k <= |signals|
    ensures Laid(signals[..k])
  {
    forall i | 0 <= i < k ensures Follows(signals[..k], i) { assert Follows(signals, i); }
  }

  lemma {:induction false} WholeExact(signals: seq<Packed>, n: nat, i: nat)
    requires Laid(signals) && i < |signals|
    ensures i < Whole(signals, n) <==> EndOf(signals[i]) <= n
  {
    var k := |signals| - 1;
    if i < k {
      OffsetsRise(signals, i, k);
      PrefixLaid(signals, k);
      WholeExact(signals[..k], n, i);
    }
  }

  lemma {:induction false} DecodeWhole(signals: seq<Packed>, data: seq<byte>, n: nat)
    requires n <= |data| && forall i :: 0 <= i < |signals| ==> EndOf(signals[i]) <= n
    ensures Decoded(signals, data[..n]) == Decoded(signals, data)
  {
    if signals != [] {
      var k := |signals| - 1;
      var s := signals[k];
      assert EndOf(s) <= n;
      DecodeWhole(signals[..k], data, n);
      assert data[..n][s.offset..EndOf(s)] == data[s.offset..EndOf(s)];
    }
  }

  /** A frame cut at `n` bytes gives exactly the signals that end by `n`, with their bytes. */
  lemma {:induction false} DecodeTorn(signals: seq<Packed>, data: seq<byte>, n: nat)
    requires Laid(signals) && n <= |data|
    ensures Decoded(signals, data[..n]) == Decoded(signals[..Whole(signals, n)], data)
    ensures forall i :: 0 <= i < |signals| ==> (i < Whole(signals, n) <==> EndOf(signals[i]) <= n)
  {
    forall i | 0 <= i < |signals|
      ensures i < Whole(signals, n) <==> EndOf(signals[i]) <= n { WholeExact(signals, n, i); }
    hide Laid;
    var m := Whole(signals, n);
    DecodeWhole(signals[..m], data, n);
    LateSkipped(signals, data[..n], m);
  }

  lemma {:induction false} LateSkipped(signals: seq<Packed>, data: seq<byte>, m: nat)
    requires m <= |signals| && forall i :: m <= i < |signals| ==> EndOf(signals[i]) > |data|
    ensures Decoded(signals, data) == Decoded(signals[..m], data)
  {
    if m < |signals| {
      var k := |signals| - 1;
      assert EndOf(signals[k]) > |data|;
      LateSkipped(signals[..k], data, m);
      assert signals[..k][..m] == signals[..m];
    } else {
      assert signals[..m] == signals;
    }
  }

  // ---------------------------------------------------------------- the round trip

  ghost predicate LaidMap(unpack: UnpackMap) {
    forall s :: s in unpack ==> unpack[s] != [] && Laid(unpack[s])
  }

  ghost predicate RefusedAll(unpack: UnpackMap, refusals: seq<(nat, string)>, left: UnpackMap) {
    if refusals == [] then left == unpack
    else
      var k := |refusals| - 1;
      exists mid :: RefusedAll(unpack, refusals[..k], mid) && Refused(mid, refusals[k].0, refusals[k].1, left)
  }

  lemma RefusedLaid(unpack: UnpackMap, slot: nat, pid: string, left: UnpackMap)
    requires LaidMap(unpack) && Refused(unpack, slot, pid, left)
    ensures LaidMap(left)
  {
    if Present(unpack, slot, pid) {
      var i :| && IsFirst(unpack[slot], pid, i)
               && left == if |unpack[slot]| == 1 then unpack - {slot} else unpack[slot := Without(unpack[slot], i)];
      WithoutLaid(unpack[slot], i);
      hide Laid, Without;
    }
  }

  lemma {:induction false} RefusedAllLaid(unpack: UnpackMap, refusals: seq<(nat, string)>, left: UnpackMap)
    requires LaidMap(unpack) && RefusedAll(unpack, refusals, left)
    ensures LaidMap(left)
  {
    hide LaidMap, Refused;
    if refusals != [] {
      var k := |refusals| - 1;
      var mid :| RefusedAll(unpack, refusals[..k], mid) && Refused(mid, refusals[k].0, refusals[k].1, left);
      RefusedAllLaid(unpack, refusals[..k], mid);
      RefusedLaid(mid, refusals[k].0, refusals[k].1, left);
    }
  }

  lemma PackLaid(signals: seq<Signal>, slots: nat)
    ensures LaidMap(Pack(signals, slots).unpack)
  {
    PackOk(signals, slots);
    hide Pack, Laid;
    var p := Pack(signals, slots);
    forall s | s in p.unpack ensures p.unpack[s] != [] && Laid(p.unpack[s]) {
      assert SlotOk(p.fill[s], SlotOf(p.unpack, s));
    }
  }

  /**
   The streaming round trip. Whatever signals are packed and whatever records the vehicle then refuses, a
   frame of any slot still in use decodes to every survivor's bytes, whole and in order, if the vehicle
   appends each survivor's bytes in define order; what follows them is ignored.
   */
  lemma StreamRoundTrip(signals: seq<Signal>, slots: nat, refusals: seq<(nat, string)>, left: UnpackMap,
                        slot: byte, sources: seq<seq<byte>>, trailing: seq<byte>, id: string, responseIds: seq<string>)
    requires RefusedAll(Pack(signals, slots).unpack, refusals, left) && slot as nat in left && id in responseIds
    requires |sources| == |left[slot as nat]| && forall i :: 0 <= i < |sources| ==>
             |sources[i]| == left[slot as nat][i].len
    ensures DecodeFrame(id, [slot] + (SourceBytes(sources) + trailing), responseIds, left) ==
            Answers(left[slot as nat], sources)
  {
    PackLaid(signals, slots);
    hide Pack, Laid;
    RefusedAllLaid(Pack(signals, slots).unpack, refusals, left);
    var survivors := left[slot as nat];
    assert Laid(survivors);
    DecodeExact(survivors, sources, trailing);
    assert ([slot] + (SourceBytes(sources) + trailing))[1..] == SourceBytes(sources) + trailing;
  }
}
