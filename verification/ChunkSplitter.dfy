/**
 The echo-driven splitter for multi-PID (mode 01) and multi-DID (mode 22, section 10.2 of
 ISO 14229-1:2013) replies: a payload is the reply byte, then member blocks of learned length in any
 order, then nothing or padding that starts with 00.
 */
module ChunkSplitter {
  import opened Wrappers
  import opened Text
  import opened Addressing

  datatype SplitError = NonData | Validation

  datatype Payload = Payload(controller: Source, bytes: seq<byte>)

  datatype Member = Member(pid: string, len: byte)

  /** One member's part of one controller's payload, shaped like a solo reply to that member. */
  datatype Slice = Slice(raw: seq<byte>, data: seq<byte>)

  datatype Mode = Mode(prefix: string, reply: byte, width: nat)

  const MODE01 := Mode("01", 0x41, 1)
  const MODE22 := Mode("22", 0x62, 2)

  function ChunkMode(members: seq<Member>): (r: Result<Mode, SplitError>)
    requires members != [] ==> |members[0].pid| >= 2
    ensures r.Success? ==> r.value == MODE01 || r.value == MODE22
  {
    if members == [] then Failure(Validation)
    else
      var mode := members[0].pid[..2];
      if mode == "01" then Success(MODE01)
      else if mode == "22" then Success(MODE22)
      else Failure(Validation)
  }

  /** Echo value to the member it stands for. */
  type EchoTable = map<nat, Member>

  function EchoTableOf(mode: Mode, members: seq<Member>): Result<EchoTable, SplitError> {
    if members == [] then Success(map[])
    else
      var before, m := EchoTableOf(mode, members[..|members| - 1]), members[|members| - 1];
      if before.Failure? then before
      else if !(mode.prefix <= Upper(m.pid)) then Failure(Validation)
      else
        match ParseU16(if mode.prefix <= m.pid then m.pid[|mode.prefix|..] else m.pid)
        case None => Failure(Validation)
        case Some(echo) => Success(before.value[echo := Member(Upper(m.pid), m.len)])
  }

  method BuildEchoTable(mode: Mode, members: seq<Member>) returns (r: Result<EchoTable, SplitError>)
    ensures r == EchoTableOf(mode, members)
  {
    hide ParseU16, Upper;
    var table: EchoTable := map[];
    var i := 0;
    while i < |members|
      invariant 0 <= i <= |members|
      invariant EchoTableOf(mode, members[..i]) == Success(table)
      invariant EchoTableOf(mode, members).Success? ==> EchoTableOf(mode, members[..i]).Success?
    {
      assert members[..i + 1][..i] == members[..i];
      var m := members[i];
      if !(mode.prefix <= Upper(m.pid)) {
        EchoTablePrefix(mode, members, i + 1);
        return Failure(Validation);
      }
      var suffix := if mode.prefix <= m.pid then m.pid[|mode.prefix|..] else m.pid;
      var echo := ParseU16(suffix);
      if echo.None? {
        EchoTablePrefix(mode, members, i + 1);
        return Failure(Validation);
      }
      table := table[echo.value := Member(Upper(m.pid), m.len)];
      i := i + 1;
    }
    assert members[..i] == members;
    r := Success(table);
  }

  lemma {:induction false} EchoTablePrefix(mode: Mode, members: seq<Member>, i: nat)
    requires i <= |members| && EchoTableOf(mode, members[..i]) == Failure(Validation)
    ensures EchoTableOf(mode, members) == Failure(Validation)
    decreases |members| - i
  {
    hide ParseU16, Upper;
    if i < |members| {
      assert members[..i + 1][..i] == members[..i];
      EchoTablePrefix(mode, members, i + 1);
    } else {
      assert members[..i] == members;
    }
  }

  // ---------------------------------------------------------------- one payload

  datatype Block = Block(echo: nat, data: seq<byte>)

  function EchoAt(width: nat, bytes: seq<byte>): nat
    requires 1 <= width <= |bytes|
  {
    if width == 1 then bytes[0] as nat else bytes[0] as nat * 256 + bytes[1] as nat
  }

  // A 00 lead byte ends the members unless 00 itself is a member of a one-byte mode.
  predicate Padding(width: nat, table: EchoTable, bytes: seq<byte>)
    requires bytes != []
  {
    bytes[0] == 0 && (width == 2 || 0 !in table)
  }

  function Scan(width: nat, table: EchoTable, bytes: seq<byte>, seen: set<nat>): Result<seq<Block>, SplitError>
    requires 1 <= width <= 2
    decreases |bytes|
  {
    if bytes == [] || Padding(width, table, bytes) then Success([])
    else if width > |bytes| then Failure(Validation)
    else
      var echo := EchoAt(width, bytes);
      if echo !in table || echo in seen then Failure(Validation)
      else
        var end := width + table[echo].len as nat;
        if end > |bytes| then Failure(Validation)
        else
          match Scan(width, table, bytes[end..], seen + {echo})
          case Success(rest) => Success([Block(echo, bytes[width..end])] + rest)
          case Failure(e) => Failure(e)
  }

  function SplitPayload(mode: Mode, table: EchoTable, bytes: seq<byte>): Result<seq<Block>, SplitError>
    requires 1 <= mode.width <= 2
  {
    if bytes == [] || bytes[0] != mode.reply then Failure(Validation) else Scan(mode.width, table, bytes[1..], {})
  }

  function EchoBytes(width: nat, echo: nat): (bytes: seq<byte>)
    ensures |bytes| == if width == 1 then 1 else 2
  {
    var lo := (echo % 256) as byte;
    if width == 1 then [lo] else [(echo / 256 % 256) as byte, lo]
  }

  /** A block the scan can recognize: a member's echo that is not mistaken for padding, with its learned length. */
  ghost predicate Recognizable(width: nat, table: EchoTable, b: Block) {
    && b.echo in table && |b.data| == table[b.echo].len as nat
    && b.echo < 0x1_0000 && (if width == 1 then b.echo < 0x100 else b.echo >= 0x100)
  }

  ghost predicate Distinct(blocks: seq<Block>) {
    forall i, j :: 0 <= i < j < |blocks| ==> blocks[i].echo != blocks[j].echo
  }

  ghost predicate AllRecognizable(width: nat, table: EchoTable, blocks: seq<Block>) {
    forall i :: 0 <= i < |blocks| ==> Recognizable(width, table, blocks[i])
  }

  function Render(width: nat, table: EchoTable, blocks: seq<Block>): seq<byte>
    requires 1 <= width <= 2 && AllRecognizable(width, table, blocks)
  {
    if blocks == [] then []
    else EchoBytes(width, blocks[0].echo) + blocks[0].data + Render(width, table, blocks[1..])
  }

  /** `bytes` are the blocks in order, then nothing or padding. */
  ghost predicate Lays(width: nat, table: EchoTable, bytes: seq<byte>, blocks: seq<Block>)
    requires 1 <= width <= 2
  {
    && AllRecognizable(width, table, blocks)
    && Render(width, table, blocks) <= bytes
    && (var tail := bytes[|Render(width, table, blocks)|..];
        tail == [] || Padding(width, table, tail))
  }

  // The bytes of one block.
  function BlockBytes(width: nat, table: EchoTable, b: Block): seq<byte>
    requires 1 <= width <= 2 && Recognizable(width, table, b)
  {
    EchoBytes(width, b.echo) + b.data
  }

  lemma LaysCons(width: nat, table: EchoTable, bytes: seq<byte>, b: Block, rest: seq<Block>)
    requires 1 <= width <= 2
    ensures Lays(width, table, bytes, [b] + rest)
            <==> Recognizable(width, table, b) && BlockBytes(width, table, b) <= bytes
                 && Lays(width, table, bytes[|BlockBytes(width, table, b)|..], rest)
  {
    hide EchoBytes, Recognizable, Padding;
    var blocks := [b] + rest;
    assert blocks[1..] == rest && blocks[0] == b;
    if Recognizable(width, table, b) && AllRecognizable(width, table, rest) {
      var first, others := BlockBytes(width, table, b), Render(width, table, rest);
      assert Render(width, table, blocks) == first + others;
      if first <= bytes {
        assert bytes == first + bytes[|first|..];
        assert first + others <= bytes <==> others <= bytes[|first|..];
        if others <= bytes[|first|..] {
          assert bytes[|first + others|..] == bytes[|first|..][|others|..];
        }
      }
    }
    if AllRecognizable(width, table, blocks) {
      forall i | 0 <= i < |rest| ensures Recognizable(width, table, rest[i]) { assert blocks[i + 1] == rest[i]; }
    }
  }

  lemma EchoRead(width: nat, table: EchoTable, bytes: seq<byte>, b: Block)
    requires 1 <= width <= 2 && bytes != [] && !Padding(width, table, bytes) && width <= |bytes|
    requires b.echo == EchoAt(width, bytes) && b.echo in table && width + |b.data| <= |bytes|
    requires |b.data| == table[b.echo].len as nat && b.data == bytes[width..width + |b.data|]
    ensures Recognizable(width, table, b) && BlockBytes(width, table, b) == bytes[..width + |b.data|]
  {
    assert EchoBytes(width, b.echo) == bytes[..width];
  }

  lemma EchoWritten(width: nat, table: EchoTable, bytes: seq<byte>, b: Block)
    requires 1 <= width <= 2 && Recognizable(width, table, b) && BlockBytes(width, table, b) <= bytes
    ensures bytes != [] && !Padding(width, table, bytes) && width + |b.data| <= |bytes|
    ensures EchoAt(width, bytes) == b.echo && bytes[width..width + |b.data|] == b.data
    ensures |BlockBytes(width, table, b)| == width + |b.data|
  {
    var block := BlockBytes(width, table, b);
    assert bytes[0] == block[0] && (width == 2 ==> bytes[1] == block[1]);
    assert block[width..] == b.data;
  }

  // A successful scan that has not reached the padding read a block and went on.
  lemma ScanParts(width: nat, table: EchoTable, bytes: seq<byte>, seen: set<nat>) returns (b: Block, rest: seq<Block>)
    requires 1 <= width <= 2 && bytes != [] && !Padding(width, table, bytes) && Scan(width, table, bytes, seen).Success?
    ensures width + |b.data| <= |bytes| && b.echo == EchoAt(width, bytes) && b.echo in table && b.echo !in seen
    ensures |b.data| == table[b.echo].len as nat && b.data == bytes[width..width + |b.data|]
    ensures Scan(width, table, bytes[width + |b.data|..], seen + {b.echo}) == Success(rest)
    ensures Scan(width, table, bytes, seen) == Success([b] + rest)
  {
    hide EchoAt, Padding;
    var echo := EchoAt(width, bytes);
    var end := width + table[echo].len as nat;
    b, rest := Block(echo, bytes[width..end]), Scan(width, table, bytes[end..], seen + {echo}).value;
  }

  lemma NothingScanned(width: nat, table: EchoTable, bytes: seq<byte>, seen: set<nat>)
    requires 1 <= width <= 2 && (bytes == [] || Padding(width, table, bytes))
    ensures Scan(width, table, bytes, seen) == Success([]) && Lays(width, table, bytes, []) && Distinct([])
  {
  }

  lemma DistinctCons(b: Block, rest: seq<Block>, seen: set<nat>)
    requires Distinct(rest) && b.echo !in seen && forall i :: 0 <= i < |rest| ==> rest[i].echo !in seen + {b.echo}
    ensures Distinct([b] + rest) && forall i :: 0 <= i < |[b] + rest| ==> ([b] + rest)[i].echo !in seen
  {
  }

  // Soundness: what the scan returns is laid out in the bytes it was given.
  lemma {:induction false} ScanSound(width: nat, table: EchoTable, bytes: seq<byte>, seen: set<nat>)
    requires 1 <= width <= 2 && Scan(width, table, bytes, seen).Success?
    ensures
      var blocks := Scan(width, table, bytes, seen).value;
      Lays(width, table, bytes, blocks) && Distinct(blocks) && forall i :: 0 <= i < |blocks| ==> blocks[i].echo !in seen
    decreases |bytes|
  {
    hide *;
    if bytes == [] || Padding(width, table, bytes) {
      NothingScanned(width, table, bytes, seen);
    } else {
      var b, rest := ScanParts(width, table, bytes, seen);
      ScanSound(width, table, bytes[width + |b.data|..], seen + {b.echo});
      EchoRead(width, table, bytes, b);
      assert |BlockBytes(width, table, b)| == width + |b.data|;
      LaysCons(width, table, bytes, b, rest);
      DistinctCons(b, rest, seen);
    }
  }

  // Completeness: any such layout is what the scan returns.
  lemma {:induction false} ScanComplete(width: nat, table: EchoTable, bytes: seq<byte>, seen: set<nat>,
                                        blocks: seq<Block>)
    requires 1 <= width <= 2 && Lays(width, table, bytes, blocks) && Distinct(blocks)
    requires forall i :: 0 <= i < |blocks| ==> blocks[i].echo !in seen
    ensures Scan(width, table, bytes, seen) == Success(blocks)
    decreases |blocks|
  {
    if blocks != [] {
      var b, rest := blocks[0], blocks[1..];
      LaysCons(width, table, bytes, b, rest);
      assert blocks == [b] + rest;
      assert |b.data| == table[b.echo].len as nat;
      hide EchoBytes, Recognizable, Render, Lays, Padding, BlockBytes, EchoAt;
      EchoWritten(width, table, bytes, b);
      ScanComplete(width, table, bytes[width + |b.data|..], seen + {b.echo}, rest);
    }
  }

  /**
   The splitter accepts a payload exactly when it is the reply byte, distinct member blocks of learned
   length, and nothing or padding; the blocks it returns are those blocks, so every byte before the
   padding belongs to exactly one member.
   */
  lemma SplitPayloadExact(mode: Mode, table: EchoTable, bytes: seq<byte>, blocks: seq<Block>)
    requires 1 <= mode.width <= 2
    ensures SplitPayload(mode, table, bytes) == Success(blocks) <==>
            bytes != [] && bytes[0] == mode.reply && Lays(mode.width, table, bytes[1..], blocks) && Distinct(blocks)
  {
    if SplitPayload(mode, table, bytes) == Success(blocks) {
      ScanSound(mode.width, table, bytes[1..], {});
    }
    if bytes != [] && bytes[0] == mode.reply && Lays(mode.width, table, bytes[1..], blocks) && Distinct(blocks) {
      ScanComplete(mode.width, table, bytes[1..], {}, blocks);
    }
  }

  // ---------------------------------------------------------------- all payloads

  type Split = map<string, map<Source, Slice>>

  function Put(out: Split, pid: string, controller: Source, slice: Slice): Split {
    out[pid := (if pid in out then out[pid] else map[])[controller := slice]]
  }

  function SliceOf(mode: Mode, b: Block): Slice {
    Slice([mode.reply] + EchoBytes(mode.width, b.echo) + b.data, b.data)
  }

  function Collect(mode: Mode, table: EchoTable, controller: Source, blocks: seq<Block>, out: Split): Split
    requires 1 <= mode.width <= 2 && AllRecognizable(mode.width, table, blocks)
  {
    if blocks == [] then out
    else
      var b := blocks[|blocks| - 1];
      Put(Collect(mode, table, controller, blocks[..|blocks| - 1], out), table[b.echo].pid, controller,
          SliceOf(mode, b))
  }

  function SplitAll(mode: Mode, table: EchoTable, payloads: seq<Payload>): Result<Split, SplitError>
    requires 1 <= mode.width <= 2
  {
    if payloads == [] then Success(map[])
    else
      var before, p := SplitAll(mode, table, payloads[..|payloads| - 1]), payloads[|payloads| - 1];
      if before.Failure? then before
      else
        match SplitPayload(mode, table, p.bytes)
        case Failure(e) => Failure(e)
        case Success(blocks) =>
          SplitPayloadExact(mode, table, p.bytes, blocks);
          Success(Collect(mode, table, p.controller, blocks, before.value))
  }

  function SplitMulti(members: seq<Member>, payloads: seq<Payload>): Result<Split, SplitError>
    requires members != [] ==> |members[0].pid| >= 2
  {
    match ChunkMode(members)
    case Failure(e) => Failure(e)
    case Success(mode) =>
      if payloads == [] then Failure(NonData)
      else
        match EchoTableOf(mode, members)
        case Failure(e) => Failure(e)
        case Success(table) => SplitAll(mode, table, payloads)
  }

  // ---------------------------------------------------------------- what the result holds

  function Get(out: Split, pid: string, controller: Source): Option<Slice> {
    if pid in out && controller in out[pid] then Some(out[pid][controller]) else None
  }

  // Different echoes stand for different pids.
  ghost predicate Injective(table: EchoTable) {
    forall a, b :: a in table && b in table && table[a].pid == table[b].pid ==> a == b
  }

  // The block of `blocks` that stands for `pid`.
  ghost predicate Answers(table: EchoTable, blocks: seq<Block>, pid: string, b: Block) {
    b in blocks && b.echo in table && table[b.echo].pid == pid
  }

  ghost predicate Silent(table: EchoTable, blocks: seq<Block>, pid: string) {
    forall b :: !Answers(table, blocks, pid, b)
  }

  lemma PutLookup(out: Split, pid: string, controller: Source, slice: Slice, pid': string, controller': Source)
    ensures Get(Put(out, pid, controller, slice), pid', controller') ==
            if pid' == pid && controller' == controller then Some(slice) else Get(out, pid', controller')
  {
  }

  lemma AnswersLast(table: EchoTable, blocks: seq<Block>, pid: string, b: Block)
    requires blocks != [] && Distinct(blocks) && Injective(table) && blocks[|blocks| - 1].echo in table
    ensures
      var last := blocks[|blocks| - 1];
      Answers(table, blocks, pid, b) <==> if table[last.echo].pid == pid then b == last
          else Answers(table, blocks[..|blocks| - 1], pid, b)
  {
    var k := |blocks| - 1;
    assert blocks == blocks[..k] + [blocks[k]];
    if b in blocks[..k] {
      var j :| 0 <= j < k && blocks[..k][j] == b;
      assert blocks[j].echo != blocks[k].echo;
    }
  }

  // One more block collected, seen from one pid.
  lemma CollectStep(mode: Mode, table: EchoTable, controller: Source, blocks: seq<Block>, out: Split, pid: string)
    requires 1 <= mode.width <= 2 && AllRecognizable(mode.width, table, blocks) && blocks != []
    ensures
      var k := |blocks| - 1;
      && blocks[k].echo in table
      && Get(Collect(mode, table, controller, blocks, out), pid, controller) ==
         if table[blocks[k].echo].pid == pid then Some(SliceOf(mode, blocks[k]))
         else Get(Collect(mode, table, controller, blocks[..k], out), pid, controller)
  {
    hide SliceOf, Put, Get;
    var k := |blocks| - 1;
    assert Recognizable(mode.width, table, blocks[k]);
    PutLookup(Collect(mode, table, controller, blocks[..k], out), table[blocks[k].echo].pid, controller,
              SliceOf(mode, blocks[k]), pid, controller);
  }

  lemma {:induction false} CollectAnswered(mode: Mode, table: EchoTable, controller: Source, blocks: seq<Block>,
                                           out: Split, pid: string, b: Block)
    requires 1 <= mode.width <= 2 && AllRecognizable(mode.width, table, blocks) && Distinct(blocks) && Injective(table)
    requires Answers(table, blocks, pid, b)
    ensures Get(Collect(mode, table, controller, blocks, out), pid, controller) == Some(SliceOf(mode, b))
    decreases |blocks|
  {
    var k := |blocks| - 1;
    CollectStep(mode, table, controller, blocks, out, pid);
    AnswersLast(table, blocks, pid, b);
    hide SliceOf, Put, Get, Answers, Collect;
    if table[blocks[k].echo].pid != pid {
      CollectAnswered(mode, table, controller, blocks[..k], out, pid, b);
    }
  }

  lemma {:induction false} CollectSilent(mode: Mode, table: EchoTable, controller: Source, blocks: seq<Block>,
                                         out: Split, pid: string)
    requires 1 <= mode.width <= 2 && AllRecognizable(mode.width, table, blocks) && Silent(table, blocks, pid)
    ensures Get(Collect(mode, table, controller, blocks, out), pid, controller) == Get(out, pid, controller)
    decreases |blocks|
  {
    if blocks != [] {
      var k := |blocks| - 1;
      CollectStep(mode, table, controller, blocks, out, pid);
      assert !Answers(table, blocks, pid, blocks[k]);
      forall b ensures !Answers(table, blocks[..k], pid, b) {
        assert !Answers(table, blocks, pid, b);
      }
      hide SliceOf, Put, Get, Collect;
      CollectSilent(mode, table, controller, blocks[..k], out, pid);
    }
  }

  lemma CollectLookup(mode: Mode, table: EchoTable, controller: Source, blocks: seq<Block>, out: Split, pid: string)
    requires 1 <= mode.width <= 2 && AllRecognizable(mode.width, table, blocks) && Distinct(blocks) && Injective(table)
    ensures
      var got := Get(Collect(mode, table, controller, blocks, out), pid, controller);
      && (forall b :: Answers(table, blocks, pid, b) ==> got == Some(SliceOf(mode, b)))
      && (Silent(table, blocks, pid) ==> got == Get(out, pid, controller))
  {
    hide SliceOf, Get, Answers, Collect, Silent, Injective, AllRecognizable, Distinct;
    forall b | Answers(table, blocks, pid, b)
      ensures Get(Collect(mode, table, controller, blocks, out), pid, controller) == Some(SliceOf(mode, b))
    {
      CollectAnswered(mode, table, controller, blocks, out, pid, b);
    }
    if Silent(table, blocks, pid) {
      CollectSilent(mode, table, controller, blocks, out, pid);
    }
  }

  lemma {:induction false} CollectElsewhere(mode: Mode, table: EchoTable, controller: Source, blocks: seq<Block>,
                                            out: Split, pid: string, other: Source)
    requires 1 <= mode.width <= 2 && AllRecognizable(mode.width, table, blocks) && other != controller
    ensures Get(Collect(mode, table, controller, blocks, out), pid, other) == Get(out, pid, other)
  {
    hide SliceOf, Put, Get;
    if blocks != [] {
      var k := |blocks| - 1;
      assert Recognizable(mode.width, table, blocks[k]);
      CollectElsewhere(mode, table, controller, blocks[..k], out, pid, other);
      PutLookup(Collect(mode, table, controller, blocks[..k], out), table[blocks[k].echo].pid, controller,
                SliceOf(mode, blocks[k]), pid, other);
    }
  }

  lemma {:induction false} UpperDigits(s: string)
    ensures AllHex(Upper(s)) <==> AllHex(s)
    ensures AllHex(s) ==> DigitsValue(Upper(s)) == DigitsValue(s)
  {
    assert forall i :: 0 <= i < |s| ==> Upper(s)[i] == UpperChar(s[i]);
    if s != [] && AllHex(s) {
      UpperDigits(s[..|s| - 1]);
      assert Upper(s)[..|s| - 1] == Upper(s[..|s| - 1]);
      assert HexValue(UpperChar(s[|s| - 1])) == HexValue(s[|s| - 1]);
    }
    if AllHex(Upper(s)) {
      forall i | 0 <= i < |s| ensures IsHexDigit(s[i]) { assert IsHexDigit(Upper(s)[i]); }
    }
  }

  lemma UpperParse(s: string)
    ensures ParseU16(Upper(s)) == ParseU16(s)
  {
    UpperDigits(s);
    if |s| > 1 && s[0] == '+' {
      UpperDigits(s[1..]);
      assert Upper(s)[1..] == Upper(s[1..]);
    } else {
      assert s != [] ==> (Upper(s)[0] == '+' <==> s[0] == '+');
    }
  }

  // Every entry of an echo table carries the mode's prefix and its own echo.
  ghost predicate Faithful(mode: Mode, table: EchoTable) {
    forall e :: e in table ==> mode.prefix <= table[e].pid && ParseU16(table[e].pid[|mode.prefix|..]) == Some(e)
  }

  // One member's entry: its key is the echo its stored pid names.
  lemma EntryFaithful(mode: Mode, pid: string, echo: nat)
    requires (mode == MODE01 || mode == MODE22) && mode.prefix <= Upper(pid)
    requires ParseU16(if mode.prefix <= pid then pid[|mode.prefix|..] else pid) == Some(echo)
    ensures mode.prefix <= pid && ParseU16(Upper(pid)[|mode.prefix|..]) == Some(echo)
  {
    assert Upper(pid)[0] == UpperChar(pid[0]) && Upper(pid)[1] == UpperChar(pid[1]);
    assert mode.prefix <= pid by { assert pid[..2] == mode.prefix; }
    UpperParse(pid[2..]);
    assert Upper(pid)[2..] == Upper(pid[2..]);
    hide *;
  }

  lemma {:induction false} EchoTableFaithful(mode: Mode, members: seq<Member>)
    requires (mode == MODE01 || mode == MODE22) && EchoTableOf(mode, members).Success?
    ensures Faithful(mode, EchoTableOf(mode, members).value) && Injective(EchoTableOf(mode, members).value)
  {
    hide ParseU16, Upper;
    if members != [] {
      var k := |members| - 1;
      EchoTableFaithful(mode, members[..k]);
      var pid := members[k].pid;
      var suffix := if mode.prefix <= pid then pid[|mode.prefix|..] else pid;
      EntryFaithful(mode, pid, ParseU16(suffix).value);
    }
  }

  ghost predicate DistinctControllers(payloads: seq<Payload>) {
    forall i, j :: 0 <= i < j < |payloads| ==> payloads[i].controller != payloads[j].controller
  }

  ghost predicate AllSplit(mode: Mode, table: EchoTable, payloads: seq<Payload>, blocks: seq<seq<Block>>)
    requires 1 <= mode.width <= 2
  {
    |blocks| == |payloads| &&
    forall i :: 0 <= i < |payloads| ==> SplitPayload(mode, table, payloads[i].bytes) == Success(blocks[i])
  }

  /** The last of `controller`'s payloads to echo `pid` at all carries `slice` after that echo. */
  ghost predicate Carries(mode: Mode, table: EchoTable, payloads: seq<Payload>, blocks: seq<seq<Block>>,
                          pid: string, controller: Source, slice: Slice)
    requires |blocks| == |payloads|
  {
    exists i, b :: && 0 <= i < |payloads| && payloads[i].controller == controller
                   && Answers(table, blocks[i], pid, b) && slice == SliceOf(mode, b)
                   && forall j :: i < j < |payloads| && payloads[j].controller == controller ==>
                      Silent(table, blocks[j], pid)
  }

  lemma {:induction false} SplitAllSucceeds(mode: Mode, table: EchoTable, payloads: seq<Payload>,
                                            blocks: seq<seq<Block>>, pid: string, controller: Source)
    requires 1 <= mode.width <= 2 && AllSplit(mode, table, payloads, blocks)
    requires Injective(table)
    ensures SplitAll(mode, table, payloads).Success?
    ensures
      var got := Get(SplitAll(mode, table, payloads).value, pid, controller);
      forall slice :: got == Some(slice) <==> Carries(mode, table, payloads, blocks, pid, controller, slice)
  {
    hide Collect, SplitPayload, Lays, Render, Answers, SliceOf, Get;
    if payloads == [] {
      assert Get(map[], pid, controller) == None by { GetNothing(pid, controller); }
    } else {
      var k := |payloads| - 1;
      SplitAllSucceeds(mode, table, payloads[..k], blocks[..k], pid, controller);
      SplitPayloadExact(mode, table, payloads[k].bytes, blocks[k]);
      var before := SplitAll(mode, table, payloads[..k]).value;
      LaysRecognizable(mode, table, payloads[k].bytes, blocks[k]);
      if payloads[k].controller == controller {
        CollectLookup(mode, table, controller, blocks[k], before, pid);
      } else {
        CollectElsewhere(mode, table, payloads[k].controller, blocks[k], before, pid, controller);
      }
      if payloads[k].controller == controller && !Silent(table, blocks[k], pid) {
        CarriesHere(mode, table, payloads, blocks, pid, controller);
      } else {
        CarriesBefore(mode, table, payloads, blocks, pid, controller);
      }
    }
  }

  lemma GetNothing(pid: string, controller: Source)
    ensures Get(map[], pid, controller) == None
  {
  }

  lemma LaysRecognizable(mode: Mode, table: EchoTable, bytes: seq<byte>, blocks: seq<Block>)
    requires 1 <= mode.width <= 2 && SplitPayload(mode, table, bytes) == Success(blocks)
    ensures AllRecognizable(mode.width, table, blocks) && Distinct(blocks)
  {
    SplitPayloadExact(mode, table, bytes, blocks);
  }

  /** Where no controller has two payloads, its one payload carries what it echoes. */
  lemma CarriesOnce(mode: Mode, table: EchoTable, payloads: seq<Payload>, blocks: seq<seq<Block>>, pid: string, i: nat,
                    b: Block)
    requires |blocks| == |payloads| && DistinctControllers(payloads) && i < |payloads| &&
             Answers(table, blocks[i], pid, b)
    ensures Carries(mode, table, payloads, blocks, pid, payloads[i].controller, SliceOf(mode, b))
  {
    hide Answers, SliceOf, Silent;
  }

  // The last payload echoes the pid for the controller: earlier ones do not matter.
  lemma CarriesHere(mode: Mode, table: EchoTable, payloads: seq<Payload>, blocks: seq<seq<Block>>, pid: string,
                    controller: Source)
    requires payloads != [] && |blocks| == |payloads|
    requires payloads[|payloads| - 1].controller == controller && !Silent(table, blocks[|payloads| - 1], pid)
    ensures forall slice :: Carries(mode, table, payloads, blocks, pid, controller, slice)
                            <==> exists b :: Answers(table, blocks[|payloads| - 1], pid, b) && slice == SliceOf(mode, b)
  {
    hide Answers, SliceOf, Silent;
  }

  lemma CarriesBefore(mode: Mode, table: EchoTable, payloads: seq<Payload>, blocks: seq<seq<Block>>, pid: string,
                      controller: Source)
    requires payloads != [] && |blocks| == |payloads|
    requires payloads[|payloads| - 1].controller != controller || Silent(table, blocks[|payloads| - 1], pid)
    ensures
      var k := |payloads| - 1;
      forall slice :: Carries(mode, table, payloads, blocks, pid, controller, slice)
                      <==> Carries(mode, table, payloads[..k], blocks[..k], pid, controller, slice)
  {
    var k := |payloads| - 1;
    assert payloads[k].controller == controller ==> forall b :: !Answers(table, blocks[k], pid, b);
    hide Answers, SliceOf, Silent;
    forall slice | Carries(mode, table, payloads, blocks, pid, controller, slice)
      ensures Carries(mode, table, payloads[..k], blocks[..k], pid, controller, slice)
    {
      var i, b :| && 0 <= i < |payloads| && payloads[i].controller == controller
                  && Answers(table, blocks[i], pid, b) && slice == SliceOf(mode, b)
                  && forall j :: i < j < |payloads| && payloads[j].controller == controller ==>
                     Silent(table, blocks[j], pid);
      assert payloads[..k][i].controller == controller && Answers(table, blocks[..k][i], pid, b);
    }
    forall slice | Carries(mode, table, payloads[..k], blocks[..k], pid, controller, slice)
      ensures Carries(mode, table, payloads, blocks, pid, controller, slice)
    {
      var i, b :| && 0 <= i < k && payloads[..k][i].controller == controller
                  && Answers(table, blocks[..k][i], pid, b) && slice == SliceOf(mode, b)
                  && forall j :: i < j < k && payloads[..k][j].controller == controller ==>
                     Silent(table, blocks[..k][j], pid);
      forall j | i < j < |payloads| && payloads[j].controller == controller ensures Silent(table, blocks[j], pid) {
        if j < k { assert payloads[..k][j].controller == controller && blocks[..k][j] == blocks[j]; }
      }
      assert payloads[i].controller == controller && Answers(table, blocks[i], pid, b);
    }
  }

  lemma {:induction false} SplitAllFails(mode: Mode, table: EchoTable, payloads: seq<Payload>, i: nat)
    requires 1 <= mode.width <= 2 && i < |payloads| && SplitPayload(mode, table, payloads[i].bytes).Failure?
    ensures SplitAll(mode, table, payloads).Failure?
  {
    hide SplitPayload, Collect;
    var k := |payloads| - 1;
    if i < k && SplitAll(mode, table, payloads[..k]).Success? {
      SplitAllFails(mode, table, payloads[..k], i);
    }
  }

  /**
   The whole splitter. It succeeds exactly when every payload is laid out in member blocks, and then
   holds, for each pid and controller, exactly the bytes after that pid's echo in the last of the
   controller's payloads that echoes it; a member the controller never echoed is absent.
   */
  lemma SplitMultiExact(members: seq<Member>, payloads: seq<Payload>, mode: Mode, table: EchoTable,
                        blocks: seq<seq<Block>>, pid: string, controller: Source)
    requires members != [] && |members[0].pid| >= 2 && payloads != []
    requires ChunkMode(members) == Success(mode) && EchoTableOf(mode, members) == Success(table)
    requires AllSplit(mode, table, payloads, blocks)
    ensures SplitMulti(members, payloads).Success?
    ensures
      var got := Get(SplitMulti(members, payloads).value, pid, controller);
      forall slice :: got == Some(slice) <==> Carries(mode, table, payloads, blocks, pid, controller, slice)
  {
    EchoTableFaithful(mode, members);
    SplitAllSucceeds(mode, table, payloads, blocks, pid, controller);
    hide SplitPayload, SliceOf, Answers, EchoTableOf, ChunkMode, Carries, Get, SplitAll;
  }

  /** One payload that is not laid out in member blocks demotes the whole chunk. */
  lemma SplitMultiFails(members: seq<Member>, payloads: seq<Payload>, mode: Mode, table: EchoTable, i: nat)
    requires members != [] && |members[0].pid| >= 2 && i < |payloads|
    requires ChunkMode(members) == Success(mode) && EchoTableOf(mode, members) == Success(table)
    requires forall blocks :: !(&& payloads[i].bytes != [] && payloads[i].bytes[0] == mode.reply
                                && Lays(mode.width, table, payloads[i].bytes[1..], blocks) && Distinct(blocks))
    ensures SplitMulti(members, payloads).Failure?
  {
    if SplitPayload(mode, table, payloads[i].bytes).Success? {
      SplitPayloadExact(mode, table, payloads[i].bytes, SplitPayload(mode, table, payloads[i].bytes).value);
    }
    hide SplitPayload, EchoTableOf, ChunkMode, Lays;
    SplitAllFails(mode, table, payloads, i);
  }

  // ---------------------------------------------------------------- the loops

  // Read the block at the front of `bytes`, if there is a good one.
  method ReadBlock(width: nat, table: EchoTable, bytes: seq<byte>, seen: set<nat>) returns (r: Option<Block>)
    requires 1 <= width <= 2 && bytes != [] && !Padding(width, table, bytes)
    ensures r.None? ==> Scan(width, table, bytes, seen) == Failure(Validation)
    ensures r.Some? ==> FrontBlock(width, table, bytes, r.value) && r.value.echo !in seen
  {
    if width > |bytes| {
      return None;
    }
    var echo := EchoAt(width, bytes);
    if echo !in table || echo in seen {
      return None;
    }
    var end := width + table[echo].len as int;
    if end > |bytes| {
      return None;
    }
    r := Some(Block(echo, bytes[width..end]));
  }

  ghost predicate FrontBlock(width: nat, table: EchoTable, bytes: seq<byte>, b: Block)
    requires 1 <= width <= 2
  {
    && width + |b.data| <= |bytes| && b.echo == EchoAt(width, bytes) && b.echo in table
    && |b.data| == table[b.echo].len as nat && b.data == bytes[width..width + |b.data|]
  }

  // `r` is `out` with the blocks of one payload's reading collected into it, or that reading's error.
  ghost predicate Collected(mode: Mode, table: EchoTable, controller: Source, read: Result<seq<Block>, SplitError>,
                            out: Split, r: Result<Split, SplitError>)
    requires 1 <= mode.width <= 2
  {
    match read
    case Success(blocks) =>
      AllRecognizable(mode.width, table, blocks) && r == Success(Collect(mode, table, controller, blocks, out))
    case Failure(e) => r == Failure(e)
  }

  method SplitOne(mode: Mode, table: EchoTable, p: Payload, out: Split) returns (r: Result<Split, SplitError>)
    requires 1 <= mode.width <= 2
    ensures Collected(mode, table, p.controller, SplitPayload(mode, table, p.bytes), out, r)
  {
    if p.bytes == [] || p.bytes[0] != mode.reply {
      return Failure(Validation);
    }
    r := ScanBlocks(mode, table, p.controller, p.bytes[1..], out);
  }

  // The scan of `bytes` has got to `i`: the blocks in `done` are read, their echoes seen, their slices collected.
  ghost predicate Scanning(mode: Mode, table: EchoTable, controller: Source, bytes: seq<byte>, out: Split,
                           i: nat, seen: set<nat>, done: seq<Block>, result: Split) {
    && 1 <= mode.width <= 2 && i <= |bytes| && AllRecognizable(mode.width, table, done)
    && result == Collect(mode, table, controller, done, out)
    && Continues(Scan(mode.width, table, bytes, {}), done, Scan(mode.width, table, bytes[i..], seen))
  }

  // One round of the scan: read the block at `i` and collect it.
  method ScanBlock(mode: Mode, table: EchoTable, controller: Source, bytes: seq<byte>, ghost out: Split,
                   i: nat, seen: set<nat>, ghost done: seq<Block>, result: Split)
    returns (next: Option<Block>, more: Split)
    requires Scanning(mode, table, controller, bytes, out, i, seen, done, result)
    requires 1 <= mode.width <= 2 && i < |bytes| && !Padding(mode.width, table, bytes[i..])
    ensures next.None? ==> Collected(mode, table, controller, Scan(mode.width, table, bytes, {}), out,
                                     Failure(Validation))
    ensures next.Some? ==>
              var b := next.value;
              var i' := i + mode.width + |b.data|;
              i' <= |bytes| && Scanning(mode, table, controller, bytes, out, i', seen + {b.echo}, done + [b], more)
  {
    hide Scan, Padding, EchoAt, Recognizable, AllRecognizable, Collect, Continues, FrontBlock;
    ghost var scanned := Scan(mode.width, table, bytes, {});
    more := result;
    next := ReadBlock(mode.width, table, bytes[i..], seen);
    if next.None? {
      ScanFailed(scanned, done, Scan(mode.width, table, bytes[i..], seen));
    } else {
      ScanStep(mode.width, table, bytes[i..], seen, scanned, done, next.value);
      more := AddSlice(mode, table, controller, next.value, done, out, result);
      DropTwice(bytes, i, mode.width + |next.value.data|);
    }
  }

  method ScanBlocks(mode: Mode, table: EchoTable, controller: Source, bytes: seq<byte>, out: Split)
    returns (r: Result<Split, SplitError>)
    requires 1 <= mode.width <= 2
    ensures Collected(mode, table, controller, Scan(mode.width, table, bytes, {}), out, r)
  {
    hide *;
    var i, seen: set<nat>, result := 0, {}, out;
    ghost var done: seq<Block> := [];
    ScanStart(mode, table, controller, bytes, out);
    while i < |bytes| && !Padding(mode.width, table, bytes[i..])
      invariant i <= |bytes| && Scanning(mode, table, controller, bytes, out, i, seen, done, result)
      decreases |bytes| - i
    {
      var next, more := ScanBlock(mode, table, controller, bytes, out, i, seen, done, result);
      if next.None? {
        return Failure(Validation);
      }
      var b := next.value;
      result, done, seen, i := more, done + [b], seen + {b.echo}, i + mode.width + |b.data|;
    }
    ScanStop(mode, table, controller, bytes, out, i, seen, done, result);
    r := Success(result);
  }

  lemma DropTwice(bytes: seq<byte>, i: nat, n: nat)
    requires i + n <= |bytes|
    ensures bytes[i..][n..] == bytes[i + n..]
  {
  }

  // At the end, or at the padding, everything is collected.
  lemma ScanStop(mode: Mode, table: EchoTable, controller: Source, bytes: seq<byte>, out: Split,
                 i: nat, seen: set<nat>, done: seq<Block>, result: Split)
    requires Scanning(mode, table, controller, bytes, out, i, seen, done, result)
    requires 1 <= mode.width <= 2 && i <= |bytes| && (i == |bytes| || Padding(mode.width, table, bytes[i..]))
    ensures Collected(mode, table, controller, Scan(mode.width, table, bytes, {}), out, Success(result))
  {
    hide Scan, Padding, AllRecognizable, Collect, Continues;
    ScanEnd(mode.width, table, bytes[i..], seen, Scan(mode.width, table, bytes, {}), done);
  }

  lemma ScanStart(mode: Mode, table: EchoTable, controller: Source, bytes: seq<byte>, out: Split)
    requires 1 <= mode.width <= 2
    ensures Scanning(mode, table, controller, bytes, out, 0, {}, [], out)
  {
    hide Scan;
    assert bytes[0..] == bytes;
    var scanned := Scan(mode.width, table, bytes, {});
    if scanned.Success? {
      assert [] + scanned.value == scanned.value;
    }
  }

  // A scan that has read `done` goes on as `rest`.
  ghost predicate Continues(whole: Result<seq<Block>, SplitError>, done: seq<Block>,
                            rest: Result<seq<Block>, SplitError>) {
    match rest
    case Success(blocks) => whole == Success(done + blocks)
    case Failure(e) => whole == Failure(e)
  }

  lemma ScanEnd(width: nat, table: EchoTable, bytes: seq<byte>, seen: set<nat>, whole: Result<seq<Block>, SplitError>,
                done: seq<Block>)
    requires 1 <= width <= 2 && (bytes == [] || Padding(width, table, bytes))
    requires Continues(whole, done, Scan(width, table, bytes, seen))
    ensures whole == Success(done)
  {
    assert done + [] == done;
  }

  lemma ScanFailed(whole: Result<seq<Block>, SplitError>, done: seq<Block>, rest: Result<seq<Block>, SplitError>)
    requires Continues(whole, done, rest) && rest.Failure?
    ensures whole == Failure(rest.error)
  {
  }

  lemma ScanUnfold(width: nat, table: EchoTable, bytes: seq<byte>, seen: set<nat>, b: Block)
    requires 1 <= width <= 2 && bytes != [] && !Padding(width, table, bytes)
    requires FrontBlock(width, table, bytes, b) && b.echo !in seen
    ensures width + |b.data| <= |bytes|
    ensures
      Scan(width, table, bytes, seen) ==
      match Scan(width, table, bytes[width + |b.data|..], seen + {b.echo})
      case Success(rest) => Success([b] + rest)
      case Failure(e) => Failure(e)
  {
    hide EchoAt, Padding;
  }

  // One more block, seen from the front of the payload.
  lemma ScanStep(width: nat, table: EchoTable, bytes: seq<byte>, seen: set<nat>, whole: Result<seq<Block>, SplitError>,
                 done: seq<Block>, b: Block)
    requires 1 <= width <= 2 && bytes != [] && !Padding(width, table, bytes)
    requires FrontBlock(width, table, bytes, b) && b.echo !in seen
    requires Continues(whole, done, Scan(width, table, bytes, seen))
    ensures Recognizable(width, table, b) && width + |b.data| <= |bytes|
    ensures Continues(whole, done + [b], Scan(width, table, bytes[width + |b.data|..], seen + {b.echo}))
  {
    hide *;
    FrontParts(width, table, bytes, b);
    EchoRead(width, table, bytes, b);
    ScanUnfold(width, table, bytes, seen, b);
    ContinuesOn(whole, done, b, Scan(width, table, bytes, seen),
                Scan(width, table, bytes[width + |b.data|..], seen + {b.echo}));
  }

  lemma FrontParts(width: nat, table: EchoTable, bytes: seq<byte>, b: Block)
    requires 1 <= width <= 2 && FrontBlock(width, table, bytes, b)
    ensures width + |b.data| <= |bytes| && b.echo == EchoAt(width, bytes) && b.echo in table
    ensures |b.data| == table[b.echo].len as nat && b.data == bytes[width..width + |b.data|]
  {
  }

  lemma ContinuesOn(whole: Result<seq<Block>, SplitError>, done: seq<Block>, b: Block,
                    here: Result<seq<Block>, SplitError>, there: Result<seq<Block>, SplitError>)
    requires Continues(whole, done, here)
    requires here == match there case Success(rest) => Success([b] + rest) case Failure(e) => Failure(e)
    ensures Continues(whole, done + [b], there)
  {
    if there.Success? {
      assert done + ([b] + there.value) == (done + [b]) + there.value;
    }
  }

  method AddSlice(mode: Mode, table: EchoTable, controller: Source, b: Block, ghost done: seq<Block>,
                  ghost start: Split, out: Split)
    returns (more: Split)
    requires 1 <= mode.width <= 2 && Recognizable(mode.width, table, b)
    requires AllRecognizable(mode.width, table, done) && out == Collect(mode, table, controller, done, start)
    ensures AllRecognizable(mode.width, table, done + [b]) &&
            more == Collect(mode, table, controller, done + [b], start)
  {
    hide EchoBytes, Put, SliceOf;
    assert (done + [b])[..|done|] == done;
    more := Put(out, table[b.echo].pid, controller, SliceOf(mode, b));
  }

  method SplitMultiPid(members: seq<Member>, payloads: seq<Payload>) returns (r: Result<Split, SplitError>)
    requires members != [] ==> |members[0].pid| >= 2
    ensures r == SplitMulti(members, payloads)
  {
    var mode := ChunkMode(members);
    if mode.Failure? {
      return Failure(mode.error);
    }
    if payloads == [] {
      return Failure(NonData);
    }
    var table := BuildEchoTable(mode.value, members);
    if table.Failure? {
      return Failure(table.error);
    }
    hide SplitPayload, EchoTableOf, ChunkMode, Collect, AllRecognizable;
    var out: Split := map[];
    var i := 0;
    while i < |payloads|
      invariant 0 <= i <= |payloads|
      invariant SplitAll(mode.value, table.value, payloads[..i]) == Success(out)
    {
      assert payloads[..i + 1][..i] == payloads[..i];
      var next := SplitOne(mode.value, table.value, payloads[i], out);
      if next.Failure? {
        SplitAllPrefix(mode.value, table.value, payloads, i + 1, next.error);
        return Failure(next.error);
      }
      out := next.value;
      i := i + 1;
    }
    assert payloads[..i] == payloads;
    r := Success(out);
  }

  lemma {:induction false} SplitAllPrefix(mode: Mode, table: EchoTable, payloads: seq<Payload>, i: nat, e: SplitError)
    requires 1 <= mode.width <= 2 && i <= |payloads| && SplitAll(mode, table, payloads[..i]) == Failure(e)
    ensures SplitAll(mode, table, payloads) == Failure(e)
    decreases |payloads| - i
  {
    hide SplitPayload, Collect;
    if i < |payloads| {
      assert payloads[..i + 1][..i] == payloads[..i];
      SplitAllPrefix(mode, table, payloads, i + 1, e);
    } else {
      assert payloads[..i] == payloads;
    }
  }
}
