/** Learned data lengths per pid: observed on solo replies, required for joining a chunk. */
module LengthCaching {
  import opened Wrappers
  import opened Text
  import opened ChunkSplitter

  type Lengths = map<string, byte>

  function LengthOf(lengths: Lengths, pid: string): Option<byte> {
    if Upper(pid) in lengths then Some(lengths[Upper(pid)]) else None
  }

  /** The reply echo a plain single pid implies; other commands teach nothing. */
  function EchoOf(pid: string): Option<seq<byte>> {
    var p := Upper(pid);
    if |p| == 4 && "01" <= p then
      match ParseU8(p[2..])
      case Some(b) => Some([0x41, b])
      case None => None
    else if |p| == 6 && "22" <= p then
      match (ParseU8(p[2..4]), ParseU8(p[4..]))
      case (Some(hi), Some(lo)) => Some([0x62, hi, lo])
      case _ => None
    else None
  }

  function FirstEchoed(echo: seq<byte>, payloads: seq<Payload>): Option<seq<byte>> {
    if payloads == [] then None
    else if echo <= payloads[0].bytes then Some(payloads[0].bytes[|echo|..])
    else FirstEchoed(echo, payloads[1..])
  }

  /** What a reply teaches: the data length of the first payload that opens with the pid's echo. */
  function ObservedLen(pid: string, payloads: seq<Payload>): Option<byte> {
    match EchoOf(pid)
    case None => None
    case Some(echo) =>
      match FirstEchoed(echo, payloads)
      case None => None
      case Some(data) => if 0 < |data| < 256 then Some(|data| as byte) else None
  }

  /** Payload `i` is the first to open with `echo`. */
  ghost predicate FirstToEcho(echo: seq<byte>, payloads: seq<Payload>, i: int) {
    0 <= i < |payloads| && echo <= payloads[i].bytes && forall j :: 0 <= j < i ==> !(echo <= payloads[j].bytes)
  }

  lemma {:induction false} FirstEchoedExact(echo: seq<byte>, payloads: seq<Payload>, data: seq<byte>)
    ensures FirstEchoed(echo, payloads) == Some(data)
            <==> exists i :: FirstToEcho(echo, payloads, i) && payloads[i].bytes == echo + data
  {
    if payloads != [] {
      var rest := payloads[1..];
      FirstEchoedExact(echo, rest, data);
      if echo <= payloads[0].bytes {
        assert payloads[0].bytes == echo + payloads[0].bytes[|echo|..];
        assert FirstToEcho(echo, payloads, 0);
        assert (echo + data)[|echo|..] == data;
      } else {
        if i :| FirstToEcho(echo, payloads, i) && payloads[i].bytes == echo + data {
          assert rest[i - 1] == payloads[i];
          assert FirstToEcho(echo, rest, i - 1);
        }
        if i :| FirstToEcho(echo, rest, i) && rest[i].bytes == echo + data {
          assert payloads[i + 1] == rest[i];
          assert FirstToEcho(echo, payloads, i + 1);
        }
      }
    }
  }

  /**
   What is learned, exactly: `n` from 1 to 255 if and only if the pid is a plain one and the first payload
   that opens with its echo carries `n` bytes after it. An empty or oversized first one teaches nothing,
   whatever later payloads carry.
   */
  lemma ObservedExact(pid: string, payloads: seq<Payload>, n: byte)
    ensures ObservedLen(pid, payloads) == Some(n)
            <==> && n > 0 && EchoOf(pid).Some?
                 && exists i :: && FirstToEcho(EchoOf(pid).value, payloads, i)
                                && |payloads[i].bytes| == |EchoOf(pid).value| + n as nat
  {
    if EchoOf(pid).Some? {
      var echo, learned := EchoOf(pid).value, FirstEchoed(EchoOf(pid).value, payloads);
      hide EchoOf, FirstEchoed;
      if learned.Some? {
        FirstEchoedExact(echo, payloads, learned.value);
      }
      forall i | FirstToEcho(echo, payloads, i) ensures learned == Some(payloads[i].bytes[|echo|..]) {
        FirstEchoedExact(echo, payloads, payloads[i].bytes[|echo|..]);
        assert payloads[i].bytes == echo + payloads[i].bytes[|echo|..];
      }
    }
  }

  class LengthCache {
    var lengths: Lengths

    constructor ()
      ensures lengths == map[]
    {
      lengths := map[];
    }

    method Get(pid: string) returns (r: Option<byte>)
      ensures r == LengthOf(lengths, pid)
    {
      r := if Upper(pid) in lengths then Some(lengths[Upper(pid)]) else None;
    }

    // A derived length fills a hole; an observation is never overwritten by it.
    method Seed(pid: string, len: byte)
      modifies this
      ensures LengthOf(lengths, pid) ==
              Some(match old(LengthOf(lengths, pid)) case Some(known) => known case None => len)
      ensures forall other :: Upper(other) != Upper(pid) ==> LengthOf(lengths, other) == old(LengthOf(lengths, other))
    {
      if Upper(pid) in lengths {
        return;
      }
      lengths := lengths[Upper(pid) := len];
    }

    // The last observation wins.
    method Record(pid: string, len: byte)
      modifies this
      ensures LengthOf(lengths, pid) == Some(len)
      ensures forall other :: Upper(other) != Upper(pid) ==> LengthOf(lengths, other) == old(LengthOf(lengths, other))
    {
      if Upper(pid) in lengths && lengths[Upper(pid)] == len {
        return;
      }
      lengths := lengths[Upper(pid) := len];
    }

    method Invalidate(pid: string)
      modifies this
      ensures LengthOf(lengths, pid) == None
      ensures forall other :: Upper(other) != Upper(pid) ==> LengthOf(lengths, other) == old(LengthOf(lengths, other))
    {
      lengths := lengths - {Upper(pid)};
    }
  }
}
