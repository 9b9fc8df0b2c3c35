/** How much of a reply repeats the request: what a lone command's parse takes off in front of the data. */
module SoloParse {
  import opened Wrappers
  import opened Text
  import opened Addressing
  import opened IsoTp
  import opened IsoTpRoundTrip
  import opened ChunkSplitter
  import opened ElmWire
  import opened Completions

  /** A request of one mode and the bytes behind it, as text. */
  function RequestText(mode: byte, ids: seq<byte>): string {
    Concat(Hexes([mode] + ids))
  }

  /**
   Bytes of a positive response that repeat the request (ISO 15031-5): the mode, and then the identifiers,
   which stored and pending codes, their clearing, and the results of a test leave out.
   */
  function Repeated(mode: byte, ids: seq<byte>): nat {
    if mode in {0x03, 0x04, 0x07, 0x0A} then 1
    else if mode == 0x06 then (if |ids| == 1 && ids[0] in {0x00, 0x20, 0x40, 0x60} then 2 else 1)
    else if mode == 0x22 then (if |ids| == 2 then 3 else 1)
    else 1 + |ids|
  }

  lemma {:induction false} HexConcat(bytes: seq<byte>)
    ensures |Concat(Hexes(bytes))| == 2 * |bytes| && AllHex(Concat(Hexes(bytes)))
    ensures Upper(Concat(Hexes(bytes))) == Concat(Hexes(bytes))
  {
    hide Hex2, HexDigit;
    if bytes != [] {
      var rest := Concat(Hexes(bytes[1..]));
      assert Hexes(bytes)[1..] == Hexes(bytes[1..]);
      HexConcat(bytes[1..]);
      var whole, head := Concat(Hexes(bytes)), Hex2(bytes[0]);
      assert whole == head + rest;
      forall i | 0 <= i < |whole| ensures IsHexDigit(whole[i]) && UpperChar(whole[i]) == whole[i] {
        assert i < 2 ==> whole[i] == head[i] && Upper(head)[i] == head[i];
        assert i >= 2 ==> whole[i] == rest[i - 2] && Upper(rest)[i - 2] == rest[i - 2];
      }
    }
  }

  lemma RequestParts(mode: byte, ids: seq<byte>)
    ensures
      var text := RequestText(mode, ids);
      && text == Hex2(mode) + Concat(Hexes(ids)) && |text| == 2 + 2 * |ids| && AllHex(text)
      && Upper(text) == text && text[..2] == Hex2(mode) && text[2..] == Concat(Hexes(ids))
  {
    HexConcat([mode] + ids);
    HexConcat(ids);
    hide Hex2, HexDigit;
    assert Hexes([mode] + ids)[1..] == Hexes(ids);
    assert Hexes([mode] + ids)[0] == Hex2(mode);
  }

  lemma ModeTexts(mode: byte)
    ensures (Hex2(mode) == "03" <==> mode == 0x03) && (Hex2(mode) == "04" <==> mode == 0x04)
    ensures (Hex2(mode) == "06" <==> mode == 0x06) && (Hex2(mode) == "07" <==> mode == 0x07)
    ensures (Hex2(mode) == "0A" <==> mode == 0x0A) && (Hex2(mode) == "22" <==> mode == 0x22)
  {
    MarkerByte(mode, "03", 0x03);
    MarkerByte(mode, "04", 0x04);
    MarkerByte(mode, "06", 0x06);
    MarkerByte(mode, "07", 0x07);
    MarkerByte(mode, "0A", 0x0A);
    MarkerByte(mode, "22", 0x22);
  }

  lemma SupportTexts(ids: seq<byte>)
    ensures Concat(Hexes(ids)) in {"00", "20", "40", "60"} <==> |ids| == 1 && ids[0] in {0x00, 0x20, 0x40, 0x60}
  {
    HexConcat(ids);
    if |ids| == 1 {
      assert Hexes(ids)[1..] == [] && Concat(Hexes(ids)) == Hex2(ids[0]);
      MarkerByte(ids[0], "00", 0x00);
      MarkerByte(ids[0], "20", 0x20);
      MarkerByte(ids[0], "40", 0x40);
      MarkerByte(ids[0], "60", 0x60);
    }
    hide Hex2, Concat;
  }

  lemma HexCommand(text: string)
    requires AllHex(text) && Upper(text) == text && text != []
    ensures Trim(text) == text && !IsAtCommand(text)
  {
    assert IsHexDigit(text[0]) && IsHexDigit(text[|text| - 1]);
    TrimTrimmed(text);
    if |text| >= 2 { assert IsHexDigit(text[1]); }
    hide Trim;
  }

  /** The parse takes off exactly what a positive response repeats of the request. */
  lemma EchoExact(mode: byte, ids: seq<byte>)
    ensures CommandEcho(RequestText(mode, ids)) == Repeated(mode, ids) && !IsAtCommand(RequestText(mode, ids))
  {
    RequestParts(mode, ids);
    ModeTexts(mode);
    SupportTexts(ids);
    HexCommand(RequestText(mode, ids));
    hide Hex2, Concat, Hexes, RequestText, Upper, Trim, AllHex;
  }

  /** A hexadecimal command's reply is parsed: per controller, the last payload without what it repeats. */
  lemma ParsedExact(mode: byte, ids: seq<byte>, payloads: seq<Payload>, k: nat)
    requires k < |payloads| && forall j :: k < j < |payloads| ==> payloads[j].controller != payloads[k].controller
    ensures
      var parsed := FromPayloads(RequestText(mode, ids), payloads);
      var bytes := payloads[k].bytes;
      && parsed.Some? && payloads[k].controller in parsed.value
      && parsed.value[payloads[k].controller] ==
         Slice(bytes, if Repeated(mode, ids) <= |bytes| then bytes[Repeated(mode, ids)..] else [])
  {
    EchoExact(mode, ids);
    hide CommandEcho, IsAtCommand, RequestText, Repeated;
    ParsedLast(payloads, Repeated(mode, ids), k);
  }

  lemma {:induction false} ParsedLast(payloads: seq<Payload>, skip: nat, k: nat)
    requires k < |payloads| && forall j :: k < j < |payloads| ==> payloads[j].controller != payloads[k].controller
    ensures
      var bytes := payloads[k].bytes;
      && payloads[k].controller in Parsed(payloads, skip)
      && Parsed(payloads, skip)[payloads[k].controller] == Slice(bytes, if skip <= |bytes| then bytes[skip..] else [])
  {
    var last := |payloads| - 1;
    if k < last {
      assert payloads[..last][k] == payloads[k];
      ParsedLast(payloads[..last], skip, k);
    }
  }

  /** An adapter command's reply is not: in any letter case, with blanks around it. */
  lemma AdapterUnparsed(command: string, payloads: seq<Payload>, rest: string)
    requires Upper(Trim(command)) == "AT" + rest || Upper(Trim(command)) == "ST" + rest
    ensures FromPayloads(command, payloads) == None
  {
    hide Upper, Trim;
  }
}
