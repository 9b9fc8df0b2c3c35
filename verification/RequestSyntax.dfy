/** Which commands a subscription accepts, as a grammar. */
module RequestSyntax {
  import opened Wrappers
  import opened Text
  import opened Subscriptions

  // ---------------------------------------------------------------- the grammar

  /** One to thirteen bytes in hexadecimal. */
  predicate HexRequest(s: string) {
    AllHex(s) && 2 <= |s| <= 26 && |s| % 2 == 0
  }

  /** An adapter command: its two letters and something behind them. */
  ghost predicate AdapterRequest(s: string) {
    exists rest: string :: rest != [] && (s == "AT" + rest || s == "ST" + rest)
  }

  /** A request, a blank, and how many responses to expect: at most two digits. */
  ghost predicate CountedRequest(s: string) {
    exists head: string, count: string ::
      s == head + " " + count && HexRequest(head) && |count| <= 2 && AllIn(count, "0123456789")
  }

  predicate AllIn(s: string, chars: string) {
    forall i :: 0 <= i < |s| ==> s[i] in chars
  }

  lemma Digits(s: string)
    ensures IsDigits(s) <==> AllIn(s, "0123456789")
  {
    var ten := "0123456789";
    forall i | 0 <= i < |s| ensures '0' <= s[i] <= '9' <==> s[i] in ten {
      if '0' <= s[i] <= '9' { assert s[i] == ten[s[i] as int - '0' as int]; }
    }
  }

  ghost predicate SimpleRequest(s: string) {
    AdapterRequest(s) || HexRequest(s) || CountedRequest(s)
  }

  // ---------------------------------------------------------------- the check accepts exactly that

  lemma AdapterPrefix(s: string)
    ensures AdapterRequest(s) <==> ("AT" <= s || "ST" <= s) && |s| >= 3
  {
    if ("AT" <= s || "ST" <= s) && |s| >= 3 {
      assert s == s[..2] + s[2..];
      assert s[2..] != [] && (s == "AT" + s[2..] || s == "ST" + s[2..]);
    }
  }

  // Neither letter pair is hexadecimal.
  lemma NotAdapter(s: string)
    requires |s| >= 2 && AllHex(s[..2])
    ensures !("AT" <= s) && !("ST" <= s)
  {
    assert IsHexDigit(s[..2][0]) && IsHexDigit(s[..2][1]);
  }

  lemma {:induction false} JoinSplit(s: string, sep: char)
    ensures Join(Text.Split(s, sep), sep) == s && Free(Text.Split(s, sep)[0], sep)
  {
    if s != [] {
      JoinSplit(s[1..], sep);
      var rest, parts := Text.Split(s[1..], sep), Text.Split(s, sep);
      assert s == [s[0]] + s[1..];
      if s[0] == sep {
        assert parts == [[]] + rest && parts[1..] == rest;
        assert Join(parts, sep) == [] + [sep] + Join(rest, sep);
      } else {
        assert parts == [[s[0]] + rest[0]] + rest[1..];
        JoinHead(s[0], rest, sep);
      }
    }
  }

  lemma JoinHead(c: char, parts: seq<string>, sep: char)
    requires parts != []
    ensures Join([[c] + parts[0]] + parts[1..], sep) == [c] + Join(parts, sep)
  {
    var longer := [[c] + parts[0]] + parts[1..];
    assert longer[1..] == parts[1..];
    if |parts| > 1 {
      assert ([c] + parts[0]) + [sep] + Join(parts[1..], sep) == [c] + (parts[0] + [sep] + Join(parts[1..], sep));
    }
  }

  // What the check looks at: the part before the first blank, and the rest.
  lemma FirstBlank(s: string)
    ensures
      var parts := Text.Split(s, ' ');
      if |parts| == 1 then s == parts[0]
      else s == parts[0] + " " + Join(parts[1..], ' ')
  {
    JoinSplit(s, ' ');
  }

  lemma HexFree(s: string)
    requires AllHex(s)
    ensures Free(s, ' ')
  {
    forall i | 0 <= i < |s| ensures s[i] != ' ' { assert IsHexDigit(s[i]); }
  }

  lemma AcceptsHex(s: string)
    requires HexRequest(s)
    ensures IsValidSimple(s)
  {
    HexFree(s);
    SplitFree(s, ' ');
    NotAdapter(s);
    assert [s][1..] == [];
  }

  lemma AcceptsCounted(head: string, count: string)
    requires HexRequest(head) && |count| <= 2 && IsDigits(count)
    ensures IsValidSimple(head + " " + count)
  {
    var s := head + " " + count;
    HexFree(head);
    SplitCons(head, ' ', count);
    JoinSplit(count, ' ');
    assert s == head + [' '] + count;
    assert s[..2] == head[..2];
    NotAdapter(s);
    var parts := Text.Split(s, ' ');
    hide Text.Split, Join, AllHex, IsDigits;
    assert parts[0] == head && parts[1..] == Text.Split(count, ' ');
  }

  /** The check of one command accepts exactly the grammar. */
  lemma ValidSimpleExact(s: string)
    ensures IsValidSimple(s) <==> SimpleRequest(s)
  {
    AdapterPrefix(s);
    FirstBlank(s);
    if HexRequest(s) { AcceptsHex(s); }
    if CountedRequest(s) {
      var head: string, count: string :|
        s == head + " " + count && HexRequest(head) && |count| <= 2 && AllIn(count, "0123456789");
      Digits(count);
      AcceptsCounted(head, count);
    }
    if IsValidSimple(s) && !("AT" <= s) && !("ST" <= s) {
      var parts := Text.Split(s, ' ');
      Digits(Join(parts[1..], ' '));
      hide AllHex, IsDigits, Text.Split, Join, AllIn;
      assert |parts| > 1 ==> s == parts[0] + " " + Join(parts[1..], ' ') && HexRequest(parts[0]);
    }
  }

  /**
   A subscription accepts a batch exactly when every command between the pipes is one of the grammar, and a
   command without pipes when it is one itself. Letter case and outer blanks do not matter.
   */
  lemma ValidPidExact(cmd: string, parts: seq<string>)
    requires parts != [] && Trim(Upper(cmd)) == Join(parts, '|')
    requires forall i :: 0 <= i < |parts| ==> Free(parts[i], '|')
    ensures IsValidPid(cmd) <==>
            if |parts| == 1 then SimpleRequest(parts[0])
            else forall i :: 0 <= i < |parts| ==> Trim(parts[i]) != [] && SimpleRequest(Trim(parts[i]))
  {
    SplitJoin(parts, '|');
    hide IsValidSimple, SimpleRequest, Trim, Upper, Text.Split, Join, Free;
    forall i | 0 <= i < |parts| ensures IsValidSimple(Trim(parts[i])) <==> SimpleRequest(Trim(parts[i])) {
      ValidSimpleExact(Trim(parts[i]));
    }
    ValidSimpleExact(parts[0]);
    if |parts| == 1 { assert Join(parts, '|') == parts[0] by { JoinOne(parts); } }
  }

  lemma JoinOne(parts: seq<string>)
    requires |parts| == 1
    ensures Join(parts, '|') == parts[0]
  {
  }
}
