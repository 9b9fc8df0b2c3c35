/** The data pids a chunk may carry, by number: which mode 01 pids and which mode 22 identifiers are plain. */
module PlainPids {
  import opened Wrappers
  import opened Text
  import opened LengthCaching
  import opened Acquisition
  import opened Exchange
  import opened Completions

  lemma PairText(b: byte)
    ensures (Hex2(b) == "00" <==> b == 0) && (Hex2(b) == "01" <==> b == 1) && (Hex2(b) == "20" <==> b == 0x20)
    ensures (Hex2(b) == "40" <==> b == 0x40) && (Hex2(b) == "60" <==> b == 0x60) && (Hex2(b) == "F2" <==> b == 0xF2)
  {
    MarkerByte(b, "00", 0);
    MarkerByte(b, "01", 1);
    MarkerByte(b, "20", 0x20);
    MarkerByte(b, "40", 0x40);
    MarkerByte(b, "60", 0x60);
    MarkerByte(b, "F2", 0xF2);
  }

  lemma HexAll(mode: string, digits: string)
    requires AllHex(mode) && AllHex(digits)
    ensures AllHex(mode + digits)
  {
  }

  lemma Shape01(pid: string, digits: string)
    requires pid == "01" + digits && |digits| == 2 && AllHex(pid) && Upper(pid) == pid && ParseU8(digits).Some?
    ensures PlainPid(pid) <==> digits !in {"00", "20", "40", "60", "01"}
  {
    HexTrim(pid);
    assert pid[2..] == digits;
    hide ParseU8, ParseU16, Upper, Trim, AllHex;
  }

  lemma Shape22(pid: string, digits: string)
    requires pid == "22" + digits && |digits| == 4 && AllHex(pid) && Upper(pid) == pid && ParseU16(digits).Some?
    ensures PlainPid(pid) <==> digits[..2] != "F2" && digits[..2] != "00"
  {
    HexTrim(pid);
    assert pid[2..] == digits;
    assert "F2" <= digits <==> digits[..2] == "F2";
    assert "00" <= digits <==> digits[..2] == "00";
    hide ParseU8, ParseU16, Upper, Trim, AllHex;
  }

  lemma Modes()
    ensures Upper("01") == "01" && Upper("22") == "22" && AllHex("01") && AllHex("22")
  {
  }

  lemma Pair(b: byte)
    ensures |Hex2(b)| == 2 && AllHex(Hex2(b))
  {
  }

  /** A mode 01 pid is plain unless it is a support bitmap up to 60 or the monitor status. */
  lemma PlainMode01Exact(b: byte)
    ensures PlainPid("01" + Hex2(b)) <==> b !in {0x00, 0x01, 0x20, 0x40, 0x60}
  {
    PairText(b);
    hide *;
    Modes();
    Pair(b);
    UpperPair("01", b);
    HexAll("01", Hex2(b));
    Hex2Value(b);
    Shape01("01" + Hex2(b), Hex2(b));
  }

  /** A mode 22 identifier is plain unless its high byte is 00 or F2. */
  lemma PlainMode22Exact(hi: byte, lo: byte)
    ensures PlainPid("22" + (Hex2(hi) + Hex2(lo))) <==> hi !in {0x00, 0xF2}
  {
    PairText(hi);
    FourParses(hi, lo);
    hide *;
    Modes();
    Pair(hi);
    Pair(lo);
    UpperPair("22", hi);
    UpperPair("22" + Hex2(hi), lo);
    HexAll(Hex2(hi), Hex2(lo));
    HexAll("22", Hex2(hi) + Hex2(lo));
    assert "22" + Hex2(hi) + Hex2(lo) == "22" + (Hex2(hi) + Hex2(lo));
    assert (Hex2(hi) + Hex2(lo))[..2] == Hex2(hi);
    Shape22("22" + (Hex2(hi) + Hex2(lo)), Hex2(hi) + Hex2(lo));
  }

  lemma FourParses(hi: byte, lo: byte)
    ensures ParseU16(Hex2(hi) + Hex2(lo)).Some? && |Hex2(hi) + Hex2(lo)| == 4
  {
    var v := hi as nat * 256 + lo as nat;
    Hex4Value(v);
    assert v / 256 == hi as nat && v % 256 == lo as nat;
    assert Hex4(v) == Hex2(hi) + Hex2(lo);
    hide Hex2, ParseU16;
  }
}
