/** Controller identities and the header a bus prints in front of a response. */
module Addressing {
  import opened Wrappers
  import opened Text

  datatype Bus = Can11 | Can29(tester: byte) {

    /** Recognize a response header at the start of `tokens`: the controller and the tokens it takes. */
    function Read(tokens: seq<string>): (r: Option<(nat, nat)>)
      ensures r.Some? ==> 1 <= r.value.1 <= |tokens|
    {
      match this
      case Can11 =>
        if tokens == [] || |tokens[0]| != 3 || !AllHex(tokens[0]) then None
        else
          var id := DigitsValue(tokens[0]);
          if 0x7E8 <= id <= 0x7EF then Some((id - 8, 1))
          else if 0x7E0 <= id <= 0x7E7 then Some((id, 1))
          else if 0x708 <= id <= 0x7DF then Some((id - 8, 1))
          else if 0x641 <= id <= 0x65F then Some((id - 0x400, 1))
          else None
      case Can29(tester) =>
        if |tokens| < 4 || ParseU8(tokens[0]).None? then None
        else if ParseU8(tokens[1]) != Some(0xDA) || ParseU8(tokens[2]) != Some(tester) then None
        else match ParseU8(tokens[3])
             case Some(b) => Some((b as nat, 4))
             case None => None
    }

    /** The controllers whose responses this bus can attribute. */
    predicate Addresses(controller: nat) {
      match this
      case Can11 => 0x7E0 <= controller <= 0x7E7 || 0x700 <= controller <= 0x7D7 || 0x241 <= controller <= 0x25F
      case Can29(_) => controller < 256
    }

    /** The header in front of `controller`'s responses. */
    function ResponseHeader(controller: nat): (tokens: seq<string>)
      requires Addresses(controller)
    {
      match this
      case Can11 => [Hex4(if controller < 0x300 then controller + 0x400 else controller + 8)[1..]]
      case Can29(tester) => [Hex2(0x18), Hex2(0xDA), Hex2(tester), Hex2(controller as byte)]
    }
  }

  /** Who a frame is attributed to: a controller, or the catch-all for headerless text. */
  datatype Source = Ecu(id: nat) | Default

  /** The key a source has in maps and messages: `{:02X}` of the id. */
  function Key(s: Source): string
    requires s.Ecu? ==> s.id < 0x1_0000
  {
    match s
    case Ecu(id) => if id < 0x100 then Hex4(id)[2..] else if id < 0x1000 then Hex4(id)[1..] else Hex4(id)
    case Default => "DEFAULT"
  }

  lemma HexTail(v: nat)
    requires v < 0x1_0000
    ensures v < 0x100 ==> DigitsValue(Hex4(v)[2..]) == v
    ensures v < 0x1000 ==> DigitsValue(Hex4(v)[1..]) == v
    ensures DigitsValue(Hex4(v)) == v
  {
    Hex4Value(v);
    Hex2Value((v % 256) as byte);
    var s := Hex4(v);
    assert s[2..] == Hex2((v % 256) as byte);
    assert s[1..][..2][..1][..0] == [];
    assert DigitsValue(s[1..][..2][..1]) == HexValue(s[1]);
    assert DigitsValue(s[1..][..2]) == 16 * HexValue(s[1]) + HexValue(s[2]);
  }

  /** Keys identify their sources, so a map keyed by them loses nothing. */
  lemma KeyInjective(a: Source, b: Source)
    requires a.Ecu? ==> a.id < 0x1_0000
    requires b.Ecu? ==> b.id < 0x1_0000
    requires Key(a) == Key(b)
    ensures a == b
  {
    if a.Ecu? && b.Ecu? {
      HexTail(a.id);
      HexTail(b.id);
    }
  }

  /** A response header names the controller that sent it. */
  lemma ReadResponseHeader(bus: Bus, controller: nat, rest: seq<string>)
    requires bus.Addresses(controller)
    ensures
      var header := bus.ResponseHeader(controller);
      bus.Read(header + rest) == Some((controller, |header|))
  {
    match bus
    case Can11 => HexTail(if controller < 0x300 then controller + 0x400 else controller + 8);
    case Can29(tester) =>
      Hex2Value(0x18);
      Hex2Value(0xDA);
      Hex2Value(tester);
      Hex2Value(controller as byte);
  }
}
