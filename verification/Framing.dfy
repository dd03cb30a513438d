/** Packet framing on a byte stream: the pure parser that both stream readers implement, and what
    the continuation offset does to a packet that arrives in several pieces. */
module Framing {

  import opened Protocol

  type byte = x: int | 0 <= x < 256

  /** The length field, in the host's little-endian order. */
  function FieldLength(lo: byte, hi: byte): nat {
    lo + 256 * hi
  }

  predicate LengthOk(n: int) {
    PACKET_HEADER_LEN <= n <= MAX_PACKET_LEN
  }

  // ---------------------------------------------------------------- the parser

  datatype Parsed = Parsed(packets: seq<seq<byte>>, rest: seq<byte>, bad: bool)

  /** Cuts a stream into packets. rest is the unfinished packet at the end; parsing stops at a length
      that is out of range. */
  function Parse(s: seq<byte>): Parsed
    decreases |s|
  {
    if |s| < 2 then Parsed([], s, false)
    else
      var n := FieldLength(s[0], s[1]);
      if !LengthOk(n) then Parsed([], [], true)
      else if |s| < n then Parsed([], s, false)
      else
        var p := Parse(s[n..]);
        Parsed([s[..n]] + p.packets, p.rest, p.bad)
  }

  /** p is one complete packet. */
  predicate IsPacket(p: seq<byte>) {
    PACKET_HEADER_LEN <= |p| <= MAX_PACKET_LEN && |p| == p[0] as int + 256 * p[1] as int
  }

  /** s is the beginning of a packet, or nothing. */
  predicate IsPartial(s: seq<byte>) {
    |s| < 2 ||
    var n := s[0] as int + 256 * s[1] as int;
    |s| < n && PACKET_HEADER_LEN <= n <= MAX_PACKET_LEN
  }

  /** t begins with a length that no packet has. */
  predicate BeginsBadly(t: seq<byte>) {
    |t| >= 2 && !(PACKET_HEADER_LEN <= t[0] as int + 256 * t[1] as int <= MAX_PACKET_LEN)
  }

  function Concat(c: seq<seq<byte>>): seq<byte> {
    if c == [] then [] else c[0] + Concat(c[1..])
  }

  /** p in front of what parses to q. */
  function Prepend(p: seq<byte>, q: Parsed): Parsed {
    Parsed([p] + q.packets, q.rest, q.bad)
  }

  lemma {:induction false} ParsePush(p: seq<byte>, t: seq<byte>)
    requires IsPacket(p)
    ensures Parse(p + t) == Prepend(p, Parse(t))
  {
    var s := p + t;
    assert s[0] == p[0] && s[1] == p[1];
    assert s[..|p|] == p && s[|p|..] == t;
  }

  lemma ParsePop(s: seq<byte>) returns (p: seq<byte>, t: seq<byte>)
    requires |s| >= 2 && LengthOk(FieldLength(s[0], s[1])) && |s| >= FieldLength(s[0], s[1])
    ensures s == p + t && IsPacket(p) && |t| < |s|
  {
    var n := FieldLength(s[0], s[1]);
    p, t := s[..n], s[n..];
  }

  lemma {:induction false} ConcatPush(c: seq<seq<byte>>, rest: seq<byte>)
    requires c != []
    ensures Concat(c) + rest == c[0] + (Concat(c[1..]) + rest)
    ensures [c[0]] + c[1..] == c
  {
  }

  lemma {:induction false} ParseOfConcat(packets: seq<seq<byte>>, rest: seq<byte>)
    requires (forall p :: p in packets ==> IsPacket(p)) && IsPartial(rest)
    ensures Parse(Concat(packets) + rest) == Parsed(packets, rest, false)
  {
    if packets == [] {
      assert Concat(packets) + rest == rest;
    } else {
      hide Parse, Concat;
      ParseOfConcat(packets[1..], rest);
      ParsePush(packets[0], Concat(packets[1..]) + rest);
      ConcatPush(packets, rest);
    }
  }

  lemma {:induction false} ParseSound(s: seq<byte>)
    requires !Parse(s).bad
    ensures s == Concat(Parse(s).packets) + Parse(s).rest
    decreases |s|
  {
    if |s| >= 2 && |s| >= FieldLength(s[0], s[1]) {
      var p, t := ParsePop(s);
      ParsePush(p, t);
      ParseSound(t);
      assert ([p] + Parse(t).packets)[1..] == Parse(t).packets;
      ConcatPush([p] + Parse(t).packets, Parse(t).rest);
    } else {
      assert Concat([]) + s == s;
    }
  }

  /** The parse is the only way to write the stream as packets followed by a partial packet. */
  lemma {:induction false} ParseUnique(s: seq<byte>, packets: seq<seq<byte>>, rest: seq<byte>)
    requires (forall p :: p in packets ==> IsPacket(p)) && IsPartial(rest)
    ensures s == Concat(packets) + rest <==> Parse(s) == Parsed(packets, rest, false)
  {
    ParseOfConcat(packets, rest);
    if !Parse(s).bad {
      ParseSound(s);
    }
  }

  /** The parse fails exactly if the stream is packets followed by a bad length, and then it finds these packets
      and no others. */
  lemma {:induction false} ParseFails(s: seq<byte>, packets: seq<seq<byte>>)
    requires forall p :: p in packets ==> IsPacket(p)
    ensures Parse(s) == Parsed(packets, [], true) <==> exists t :: s == Concat(packets) + t && BeginsBadly(t)
  {
    if Parse(s) == Parsed(packets, [], true) {
      var t := BadLengthFound(s);
    }
    if t :| s == Concat(packets) + t && BeginsBadly(t) {
      BadLengthEnds(packets, t);
    }
  }

  lemma {:induction false} BadLengthFound(s: seq<byte>) returns (t: seq<byte>)
    requires Parse(s).bad
    ensures s == Concat(Parse(s).packets) + t && BeginsBadly(t)
    decreases |s|
  {
    if |s| >= FieldLength(s[0], s[1]) && LengthOk(FieldLength(s[0], s[1])) {
      var p, rest := ParsePop(s);
      ParsePush(p, rest);
      t := BadLengthFound(rest);
      assert ([p] + Parse(rest).packets)[1..] == Parse(rest).packets;
      ConcatPush([p] + Parse(rest).packets, t);
    } else {
      t := s;
      assert Concat([]) + s == s;
    }
  }

  lemma {:induction false} BadLengthEnds(packets: seq<seq<byte>>, t: seq<byte>)
    requires (forall p :: p in packets ==> IsPacket(p)) && BeginsBadly(t)
    ensures Parse(Concat(packets) + t) == Parsed(packets, [], true)
  {
    if packets == [] {
      assert Concat(packets) + t == t;
    } else {
      hide Parse, Concat;
      BadLengthEnds(packets[1..], t);
      ParsePush(packets[0], Concat(packets[1..]) + t);
      ConcatPush(packets, t);
    }
  }

  /** Parsing in two parts: what is left of the first part goes in front of the second. */
  lemma {:induction false} ParseConcat(a: seq<byte>, b: seq<byte>)
    ensures Parse(a).bad ==> Parse(a + b) == Parse(a)
    ensures !Parse(a).bad ==> Parse(a + b) == Append(Parse(a).packets, Parse(Parse(a).rest + b))
    decreases |a|
  {
    if |a| >= 2 && LengthOk(FieldLength(a[0], a[1])) && |a| >= FieldLength(a[0], a[1]) {
      var p, t := ParsePop(a);
      ParsePush(p, t);
      ParseConcat(t, b);
      ParsePush(p, t + b);
      assert a + b == p + (t + b);
      if !Parse(t).bad {
        AppendPrepend(p, Parse(t).packets, Parse(Parse(t).rest + b));
      }
    } else {
      AppendNothing(Parse(a + b));
    }
  }

  /** The packets ps in front of what parses to q. */
  function Append(ps: seq<seq<byte>>, q: Parsed): Parsed {
    Parsed(ps + q.packets, q.rest, q.bad)
  }

  lemma AppendNothing(q: Parsed)
    ensures Append([], q) == q
  {
  }

  lemma AppendEmpty(ps: seq<seq<byte>>, rest: seq<byte>)
    ensures Append(ps, Parsed([], rest, false)) == Parsed(ps, rest, false)
  {
  }

  lemma AppendPrepend(p: seq<byte>, ps: seq<seq<byte>>, q: Parsed)
    ensures Prepend(p, Append(ps, q)) == Append([p] + ps, q)
  {
    assert [p] + (ps + q.packets) == ([p] + ps) + q.packets;
  }

  lemma AppendAppend(a: seq<seq<byte>>, b: seq<seq<byte>>, q: Parsed)
    ensures Append(a, Append(b, q)) == Append(a + b, q)
  {
    assert a + (b + q.packets) == (a + b) + q.packets;
  }

  // ---------------------------------------------------------------- reading chunk by chunk

  /** What a reader has made of a stream: the completed packets, the bytes of the unfinished one, and
      whether a read has failed. */
  datatype Progress = Progress(packets: seq<seq<byte>>, got: seq<byte>, failed: bool)

  /** One read of a chunk. */
  function Feed(p: Progress, chunk: seq<byte>): Progress {
    Made(Append(p.packets, Parse(p.got + chunk)))
  }

  function Made(q: Parsed): Progress {
    Progress(q.packets, q.rest, q.bad)
  }

  /** Reads of successive chunks up to the first that fails. */
  function FeedAll(p: Progress, chunks: seq<seq<byte>>): Progress
    decreases |chunks|
  {
    if chunks == [] || p.failed then p else FeedAll(Feed(p, chunks[0]), chunks[1..])
  }

  lemma {:induction false} ParseLeavesPartial(s: seq<byte>)
    ensures IsPartial(Parse(s).rest) && forall p :: p in Parse(s).packets ==> IsPacket(p)
    decreases |s|
  {
    if |s| >= 2 && LengthOk(FieldLength(s[0], s[1])) && |s| >= FieldLength(s[0], s[1]) {
      ParseLeavesPartial(s[FieldLength(s[0], s[1])..]);
    }
  }

  /** However the stream is cut into chunks, the reads make of it what the parser makes of the whole,
      and some read fails exactly when the stream contains a bad length. */
  lemma {:induction false} ChunkIndependence(p: Progress, chunks: seq<seq<byte>>)
    requires !p.failed
    ensures FeedAll(p, chunks) == if chunks == [] then p else Feed(p, Concat(chunks))
    decreases |chunks|
  {
    if chunks != [] {
      var c, rest := chunks[0], chunks[1..];
      FeedTwice(p, c, Concat(rest));
      if rest == [] {
        assert c + Concat(rest) == c;
      } else if !Feed(p, c).failed {
        ChunkIndependence(Feed(p, c), rest);
      }
    }
  }

  /** Two reads that do not fail make of their chunks what one read makes of both. */
  lemma FeedTwice(p: Progress, a: seq<byte>, b: seq<byte>)
    ensures Feed(p, a).failed ==> Feed(p, a + b) == Feed(p, a)
    ensures !Feed(p, a).failed ==> Feed(Feed(p, a), b) == Feed(p, a + b)
  {
    assert p.got + (a + b) == (p.got + a) + b;
    ParseConcat(p.got + a, b);
    var q := Parse(p.got + a);
    if !q.bad {
      AppendAppend(p.packets, q.packets, Parse(q.rest + b));
    }
  }

  // ---------------------------------------------------------------- one step of a reader

  lemma {:induction false} ParsePartial(s: seq<byte>)
    requires IsPartial(s)
    ensures Parse(s) == Parsed([], s, false)
  {
  }

  /** The unfinished packet grows by d but is still unfinished. */
  lemma {:induction false} StepGrows(whole: seq<seq<byte>>, got: seq<byte>, d: seq<byte>, buf: seq<byte>)
    ensures Append(whole, Parse((got + d) + buf)) == Append(whole, Parse(got + (d + buf)))
  {
    assert (got + d) + buf == got + (d + buf);
  }

  /** The unfinished packet is completed by d. */
  lemma {:induction false} StepCompletes(whole: seq<seq<byte>>, got: seq<byte>, d: seq<byte>, buf: seq<byte>)
    requires IsPacket(got + d)
    ensures Append(whole + [got + d], Parse([] + buf)) == Append(whole, Parse(got + (d + buf)))
  {
    assert (got + d) + buf == got + (d + buf) && [] + buf == buf;
    ParsePush(got + d, buf);
    assert (whole + [got + d]) + Parse(buf).packets == whole + ([got + d] + Parse(buf).packets);
  }

  /** A bad length ends the parse. */
  lemma {:induction false} StepFails(whole: seq<seq<byte>>, s: seq<byte>)
    requires |s| >= 2 && !LengthOk(FieldLength(s[0], s[1]))
    ensures Append(whole, Parse(s)) == Parsed(whole, [], true)
  {
  }
}
