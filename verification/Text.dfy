/**
 Adapter text: ASCII strings, the string operations the codec uses, and their inverses on the strings
 the adapter and the wire builder produce.
 */
module Text {
  import opened Wrappers

  newtype byte = x: int | 0 <= x < 256

  // ---------------------------------------------------------------- characters

  predicate IsSpace(c: char) {
    c == ' ' || '\t' <= c <= '\r'
  }

  predicate IsHexDigit(c: char) {
    '0' <= c <= '9' || 'A' <= c <= 'F' || 'a' <= c <= 'f'
  }

  function HexValue(c: char): (v: nat)
    requires IsHexDigit(c)
    ensures v < 16
  {
    if '0' <= c <= '9' then (c as int) - 48
    else if 'A' <= c <= 'F' then (c as int) - 55
    else (c as int) - 87
  }

  function HexDigit(v: nat): (c: char)
    requires v < 16
    ensures IsHexDigit(c) && UpperChar(c) == c && HexValue(c) == v
  {
    if v < 10 then (v + 48) as char else (v + 55) as char
  }

  function UpperChar(c: char): char {
    if 'a' <= c <= 'z' then ((c as int) - 32) as char else c
  }

  predicate AllHex(s: string) {
    forall i :: 0 <= i < |s| ==> IsHexDigit(s[i])
  }

  predicate NoSpace(s: string) {
    forall i :: 0 <= i < |s| ==> !IsSpace(s[i])
  }

  // ---------------------------------------------------------------- strings

  function Upper(s: string): (r: string)
    ensures |r| == |s|
    ensures forall i :: 0 <= i < |s| ==> r[i] == UpperChar(s[i])
  {
    seq(|s|, i requires 0 <= i < |s| => UpperChar(s[i]))
  }

  function TrimLeft(s: string): string {
    if s != [] && IsSpace(s[0]) then TrimLeft(s[1..]) else s
  }

  function TrimRight(s: string): string {
    if s != [] && IsSpace(s[|s| - 1]) then TrimRight(s[..|s| - 1]) else s
  }

  function Trim(s: string): string {
    TrimRight(TrimLeft(s))
  }

  // A string that neither starts nor ends in whitespace is its own trim.
  predicate Trimmed(s: string) {
    s == [] || (!IsSpace(s[0]) && !IsSpace(s[|s| - 1]))
  }

  lemma TrimTrimmed(s: string)
    requires Trimmed(s)
    ensures Trim(s) == s
  {
  }

  // Unsigned hexadecimal as the standard parser reads it: digits, after an optional plus sign.
  function DigitsValue(s: string): nat
    requires AllHex(s)
  {
    if s == [] then 0 else 16 * DigitsValue(s[..|s| - 1]) + HexValue(s[|s| - 1])
  }

  function ParseHex(s: string): Option<nat> {
    var digits := if |s| > 1 && s[0] == '+' then s[1..] else s;
    if digits != [] && AllHex(digits) then Some(DigitsValue(digits)) else None
  }

  function ParseU8(s: string): Option<byte> {
    match ParseHex(s)
    case Some(v) => if v < 0x100 then Some(v as byte) else None
    case None => None
  }

  function ParseU16(s: string): (r: Option<nat>)
    ensures r.Some? ==> r.value < 0x1_0000
  {
    match ParseHex(s)
    case Some(v) => if v < 0x1_0000 then Some(v) else None
    case None => None
  }

  // `{:02X}` of a byte.
  function Hex2(b: byte): (s: string)
    ensures |s| == 2 && AllHex(s) && NoSpace(s) && Upper(s) == s
  {
    [HexDigit(b as nat / 16), HexDigit(b as nat % 16)]
  }

  function Hex4(v: nat): (s: string)
    requires v < 0x1_0000
    ensures |s| == 4 && AllHex(s) && NoSpace(s) && Upper(s) == s
  {
    Hex2((v / 256) as byte) + Hex2((v % 256) as byte)
  }

  lemma Hex2Value(b: byte)
    ensures DigitsValue(Hex2(b)) == b as nat
    ensures ParseU8(Hex2(b)) == Some(b)
  {
    var s := Hex2(b);
    assert s[..1][..0] == [];
    assert DigitsValue(s[..1]) == HexValue(s[0]);
  }

  lemma Hex4Value(v: nat)
    requires v < 0x1_0000
    ensures ParseU16(Hex4(v)) == Some(v)
  {
    var s, hi, lo := Hex4(v), (v / 256) as byte, (v % 256) as byte;
    Hex2Value(hi);
    assert s[..3][..2] == Hex2(hi);
    assert DigitsValue(s[..3]) == 16 * DigitsValue(Hex2(hi)) + HexValue(s[2]);
    assert DigitsValue(s) == 16 * DigitsValue(s[..3]) + HexValue(s[3]);
    Hex2Value(lo);
  }

  // ---------------------------------------------------------------- splitting and joining

  function Split(s: string, sep: char): (parts: seq<string>)
    ensures |parts| > 0
  {
    if s == [] then [[]]
    else
      var rest := Split(s[1..], sep);
      if s[0] == sep then [[]] + rest else [[s[0]] + rest[0]] + rest[1..]
  }

  function Join(parts: seq<string>, sep: char): string {
    if parts == [] then []
    else if |parts| == 1 then parts[0]
    else parts[0] + [sep] + Join(parts[1..], sep)
  }

  function Concat(parts: seq<string>): string {
    if parts == [] then [] else parts[0] + Concat(parts[1..])
  }

  // Consecutive pieces of `width` digits.
  function Cut(digits: string, width: nat): seq<string>
    requires width > 0
  {
    if |digits| < width then [] else [digits[..width]] + Cut(digits[width..], width)
  }

  lemma {:induction false} CutConcat(parts: seq<string>, width: nat)
    requires width in {2, 4} && forall k :: 0 <= k < |parts| ==> |parts[k]| == width
    ensures Cut(Concat(parts), width) == parts && |Concat(parts)| % width == 0
  {
    if parts != [] {
      CutConcat(parts[1..], width);
      var digits, rest := Concat(parts), Concat(parts[1..]);
      assert digits == parts[0] + rest;
      assert digits[..width] == parts[0] && digits[width..] == rest;
    }
  }

  predicate Free(s: string, sep: char) {
    forall i :: 0 <= i < |s| ==> s[i] != sep
  }

  lemma {:induction false} SplitFree(s: string, sep: char)
    requires Free(s, sep)
    ensures Split(s, sep) == [s]
  {
    if s != [] {
      SplitFree(s[1..], sep);
      assert s == [s[0]] + s[1..];
    }
  }

  lemma {:induction false} SplitCons(s: string, sep: char, rest: string)
    requires Free(s, sep)
    ensures Split(s + [sep] + rest, sep) == [s] + Split(rest, sep)
  {
    var whole := s + [sep] + rest;
    if s == [] {
      assert whole[1..] == rest;
    } else {
      assert whole[1..] == s[1..] + [sep] + rest;
      SplitCons(s[1..], sep, rest);
      assert s == [s[0]] + s[1..];
    }
  }

  /** Splitting a joined list gives the list back, if no part holds the separator. */
  lemma {:induction false} SplitJoin(parts: seq<string>, sep: char)
    requires parts != [] && forall i :: 0 <= i < |parts| ==> Free(parts[i], sep)
    ensures Split(Join(parts, sep), sep) == parts
  {
    if |parts| == 1 {
      SplitFree(parts[0], sep);
    } else {
      SplitJoin(parts[1..], sep);
      SplitCons(parts[0], sep, Join(parts[1..], sep));
    }
  }

  // ---------------------------------------------------------------- whitespace tokens

  function NonEmpty(parts: seq<string>): seq<string> {
    if parts == [] then []
    else if parts[0] == [] then NonEmpty(parts[1..])
    else [parts[0]] + NonEmpty(parts[1..])
  }

  function Blanks(s: string): (r: string)
    ensures |r| == |s|
  {
    seq(|s|, i requires 0 <= i < |s| => if IsSpace(s[i]) then ' ' else s[i])
  }

  /** `split_whitespace`. */
  function Tokens(line: string): seq<string> {
    NonEmpty(Split(Blanks(line), ' '))
  }

  predicate IsToken(t: string) { t != [] && NoSpace(t) }

  lemma {:induction false} NonEmptyAll(parts: seq<string>)
    requires forall i :: 0 <= i < |parts| ==> parts[i] != []
    ensures NonEmpty(parts) == parts
  {
    if parts != [] { NonEmptyAll(parts[1..]); }
  }

  lemma {:induction false} JoinBlanks(tokens: seq<string>)
    requires forall i :: 0 <= i < |tokens| ==> IsToken(tokens[i])
    ensures Blanks(Join(tokens, ' ')) == Join(tokens, ' ')
  {
    if |tokens| > 1 {
      JoinBlanks(tokens[1..]);
      var rest := Join(tokens[1..], ' ');
      var whole := Join(tokens, ' ');
      forall i | 0 <= i < |whole| ensures Blanks(whole)[i] == whole[i] {
        if i > |tokens[0]| { assert whole[i] == rest[i - |tokens[0]| - 1] == Blanks(rest)[i - |tokens[0]| - 1]; }
      }
    }
  }

  /** Tokens joined by single spaces are read back exactly. */
  lemma TokensJoin(tokens: seq<string>)
    requires tokens != [] && forall i :: 0 <= i < |tokens| ==> IsToken(tokens[i])
    ensures Tokens(Join(tokens, ' ')) == tokens
  {
    JoinBlanks(tokens);
    SplitJoin(tokens, ' ');
    NonEmptyAll(tokens);
  }
}
