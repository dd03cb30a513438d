/** The connection server's stream reader: the unfinished packet is already the last one on the
    receive list, and processing the list takes it along. */
module ServerReader {
  import opened Protocol
  import opened Framing
  import opened PacketMemory
  import opened ClientReader

  class ConnReader {
    const stride: nat
    var recvPacketList: seq<Block>
    var expectBytes: int
    var length0: byte
    var length1: byte
    var lengthIncomplete: bool
    ghost var got: seq<byte>
    ghost var whole: seq<seq<byte>>

    ghost predicate Valid()
      reads this
    {
      && stride >= 1 && IsPartial(got) && |whole| <= |recvPacketList|
      && ListHolds(recvPacketList[..|whole|], whole, stride)
      && (if |got| < 2
          then |recvPacketList| == |whole| && expectBytes == 0 && lengthIncomplete == (|got| == 1)
               && (|got| == 1 ==> length0 == got[0])
          else |recvPacketList| == |whole| + 1 && !lengthIncomplete && Held(recvPacketList[|whole|], got, stride)
               && expectBytes == FieldLength(got[0], got[1]) - |got|)
    }

    /** More of a packet is expected, but the packet is no longer on the list. */
    ghost predicate Stranded()
      reads this
    {
      recvPacketList == [] && expectBytes > 0
    }

    constructor (stride: nat)
      requires stride >= 1
      ensures Valid() && this.stride == stride && got == [] && whole == [] && recvPacketList == []
    {
      this.stride := stride;
      recvPacketList, expectBytes, lengthIncomplete := [], 0, false;
      length0, length1 := 0, 0;
      got, whole := [], [];
    }

    predicate Broken()
      reads this
    {
      var n := |recvPacketList|;
      n == 0 || !LengthOk(GetLength(recvPacketList[n - 1])) || GetLength(recvPacketList[n - 1]) < expectBytes
    }

    /** 1st: the length of the last packet is known; store the rest of it, or as much as there is. */
    method LastPacketIncomplete(buf: seq<byte>) returns (n: int)
      requires buf != [] && expectBytes > 0
      modifies this
      ensures lengthIncomplete == old(lengthIncomplete) && length0 == old(length0)
      ensures old(Broken()) ==>
                n == -1 && expectBytes == 0 && recvPacketList == old(recvPacketList)
                && got == old(got) && whole == old(whole)
      ensures !old(Broken()) ==>
                0 < n <= |buf| && expectBytes == old(expectBytes) - n >= 0
                && (expectBytes > 0 ==> n == |buf|)
                && var l := |old(recvPacketList)| - 1;
                var last := old(recvPacketList)[l];
                && recvPacketList
                   == old(recvPacketList)[l := Store(last, stride * (GetLength(last) - old(expectBytes)), buf[..n])]
                && (if expectBytes > 0 then got == old(got) + buf[..n] && whole == old(whole)
                    else got == [] && whole == old(whole) + [old(got) + buf[..n]])
    {
      if |recvPacketList| == 0 {
        expectBytes := 0;
        return -1;
      }
      var last := |recvPacketList| - 1;
      var packetLength := GetLength(recvPacketList[last]);
      if packetLength < PACKET_HEADER_LEN {
        expectBytes := 0;
        return -1;
      } else if packetLength > MAX_PACKET_LEN {
        expectBytes := 0;
        return -1;
      }
      var haveRead := packetLength - expectBytes;
      if haveRead < 0 {
        expectBytes := 0;
        return -1;
      }
      n := if |buf| < expectBytes then |buf| else expectBytes;
      recvPacketList := recvPacketList[last := Store(recvPacketList[last], stride * haveRead, buf[..n])];
      got := got + buf[..n];
      if |buf| < expectBytes {
        expectBytes := expectBytes - |buf|;
      } else {
        expectBytes := 0;
        whole, got := whole + [got], [];
      }
    }

    /** 2nd: only the first byte of the length has been read; with the second one the packet begins. */
    method LastPacketIncomplete1Byte(buf: seq<byte>) returns (n: int)
      requires buf != []
      modifies this
      ensures whole == old(whole) && !lengthIncomplete
      ensures var len := FieldLength(old(length0), buf[0]);
              if !LengthOk(len) then
                n == -1 && expectBytes == old(expectBytes) && got == [] && recvPacketList == old(recvPacketList)
              else
                && n == 1 && expectBytes == len - 2 && got == old(got) + [buf[0]]
                && recvPacketList == old(recvPacketList) + [Store(Filled(0), 0, [old(length0), buf[0]])]
    {
      length1 := buf[0];
      var packetLength := FieldLength(length0, length1);
      if packetLength < PACKET_HEADER_LEN {
        lengthIncomplete, got := false, [];
        return -1;
      } else if packetLength > MAX_PACKET_LEN {
        lengthIncomplete, got := false, [];
        return -1;
      }
      var packet := Store(Filled(0), 0, [length0, length1]);
      lengthIncomplete := false;
      expectBytes := packetLength - 2;
      recvPacketList := recvPacketList + [packet];
      got := got + [buf[0]];
      return 1;
    }

    /** 3rd: a new packet begins; it may be complete, lack its end, or lack even half its length. */
    method LastPacketComplete(buf: seq<byte>) returns (n: int)
      requires buf != [] && got == []
      modifies this
      ensures |buf| < 2 ==>
                n == 1 && lengthIncomplete && length0 == buf[0] && got == buf && expectBytes == old(expectBytes)
                && recvPacketList == old(recvPacketList) && whole == old(whole)
      ensures |buf| >= 2 ==> lengthIncomplete == old(lengthIncomplete)
      ensures |buf| >= 2 && !LengthOk(FieldLength(buf[0], buf[1])) ==>
                n == -1 && expectBytes == old(expectBytes) && got == []
                && recvPacketList == old(recvPacketList) && whole == old(whole)
      ensures |buf| >= 2 && LengthOk(FieldLength(buf[0], buf[1])) ==>
                var len := FieldLength(buf[0], buf[1]);
                && 2 <= n <= |buf| && n == (if |buf| < len then |buf| else len)
                && recvPacketList == old(recvPacketList) + [Store(Filled(0), 0, buf[..n])]
                && (if |buf| < len then got == buf && expectBytes == len - n && whole == old(whole)
                    else got == [] && expectBytes == old(expectBytes) && whole == old(whole) + [buf[..n]])
    {
      if |buf| < 2 {
        n := |buf|;
        lengthIncomplete := true;
        length0, got := buf[0], buf;
      } else {
        var packetLength := FieldLength(buf[0], buf[1]);
        if packetLength < PACKET_HEADER_LEN {
          return -1;
        } else if packetLength > MAX_PACKET_LEN {
          return -1;
        }
        n := if |buf| < packetLength then |buf| else packetLength;
        var packet := Store(Filled(0), 0, buf[..n]);
        if |buf| < packetLength {
          expectBytes, got := packetLength - n, buf;
        } else {
          whole := whole + [buf[..n]];
        }
        recvPacketList := recvPacketList + [packet];
      }
    }

    /** Continuing a packet whose length is known. */
    method Continue(buf: seq<byte>) returns (n: int)
      requires (Valid() || Stranded()) && buf != [] && expectBytes > 0
      modifies this
      ensures old(Stranded()) ==> n == -1
      ensures !old(Stranded()) ==>
                && Valid() && 0 < n <= |buf|
                && Append(whole, Parse(got + buf[n..])) == Append(old(whole), Parse(old(got) + buf))
    {
      hide Parse, Append;
      ghost var g, w, list := got, whole, recvPacketList;
      ghost var stranded := Stranded();
      n := LastPacketIncomplete(buf);
      if !stranded {
        ghost var d := buf[..n];
        assert buf == d + buf[n..] && (g + d)[0] == g[0] && (g + d)[1] == g[1];
        HeldContinued(list[|w|], g, d, stride);
        assert recvPacketList[..|w|] == list[..|w|];
        if expectBytes > 0 {
          StepGrows(w, g, d, buf[n..]);
        } else {
          StepCompletes(w, g, d, buf[n..]);
          ListGrows(list[..|w|], w, recvPacketList[|w|], g + d, stride);
          assert recvPacketList[..|whole|] == list[..|w|] + [recvPacketList[|w|]];
        }
      }
    }

    /** Completing a length of which one byte is known. */
    method SecondByte(buf: seq<byte>) returns (n: int)
      requires Valid() && buf != [] && lengthIncomplete
      modifies this
      ensures Valid() && n <= |buf|
      ensures n > 0 ==> Append(whole, Parse(got + buf[n..])) == Append(old(whole), Parse(old(got) + buf))
      ensures n <= 0 ==> n == -1 && Append(old(whole), Parse(old(got) + buf)) == Parsed(whole, got, true) && got == []
    {
      ghost var g, w, list := got, whole, recvPacketList;
      n := LastPacketIncomplete1Byte(buf);
      ghost var s := g + buf;
      assert s[0] == g[0] && s[1] == buf[0];
      if n == -1 {
        StepFails(w, s);
      } else {
        assert buf == [buf[0]] + buf[1..] && [g[0], buf[0]] == got;
        StepGrows(w, g, [buf[0]], buf[1..]);
        HeldFirst(Filled(0), got, stride);
        assert recvPacketList[..|w|] == list[..|w|];
      }
    }

    /** Beginning a new packet. */
    method Begin(buf: seq<byte>) returns (n: int)
      requires Valid() && buf != [] && got == []
      modifies this
      ensures Valid() && n <= |buf|
      ensures n > 0 ==> Append(whole, Parse(got + buf[n..])) == Append(old(whole), Parse(old(got) + buf))
      ensures n <= 0 ==> n == -1 && Append(old(whole), Parse(old(got) + buf)) == Parsed(whole, got, true) && got == []
    {
      ghost var w, list := whole, recvPacketList;
      assert [] + buf == buf;
      n := LastPacketComplete(buf);
      if n == -1 {
        StepFails(w, buf);
      } else {
        ghost var d := buf[..n];
        assert buf == d + buf[n..] && [] + d == d;
        if |buf| >= 2 {
          HeldFirst(Filled(0), d, stride);
          assert recvPacketList[..|w|] == list[..|w|] == list;
        }
        if got == [] {
          assert IsPacket(d);
          StepCompletes(w, [], d, buf[n..]);
          ListGrows(list, w, Store(Filled(0), 0, d), d, stride);
          assert recvPacketList[..|whole|] == recvPacketList;
        } else {
          assert buf[n..] == [] && got + [] == got && d == buf;
        }
      }
    }

    /** Dispatches on what is known of the last packet. A stranded reader refuses the bytes. */
    method ReadSome(buf: seq<byte>) returns (readBytes: int)
      requires buf != [] && (Valid() || Stranded())
      modifies this
      ensures readBytes <= |buf|
      ensures old(Stranded()) ==> readBytes == -1
      ensures !old(Stranded()) ==> Valid()
      ensures !old(Stranded()) && readBytes > 0 ==>
                Append(whole, Parse(got + buf[readBytes..])) == Append(old(whole), Parse(old(got) + buf))
      ensures !old(Stranded()) && readBytes <= 0 ==>
                readBytes == -1 && got == [] && Append(old(whole), Parse(old(got) + buf)) == Parsed(whole, got, true)
    {
      hide Parse, Held, ListHolds, Append;
      if expectBytes > 0 {
        readBytes := Continue(buf);
      } else if lengthIncomplete {
        readBytes := SecondByte(buf);
      } else {
        readBytes := Begin(buf);
      }
    }

    lemma GotIsPartial()
      requires Valid()
      ensures IsPartial(got)
    {
    }

    /** Generates packets from a chunk. */
    method ReadPacket(data: seq<byte>) returns (r: int)
      requires Valid() || Stranded()
      modifies this
      ensures r == -1 || r == 0
      ensures old(Stranded()) && data != [] ==> r == -1
      ensures !old(Stranded()) ==>
                Valid() && Progress(whole, got, r == -1) == Feed(Progress(old(whole), old(got), false), data)
    {
      ghost var stranded := Stranded();
      var pos := 0;
      assert data[0..] == data;
      hide Parse, Held, ListHolds, Append, Valid, Stranded;
      while pos < |data|
        invariant 0 <= pos <= |data| && (if stranded then Stranded() && pos == 0 else Valid() && !Stranded())
        invariant !stranded ==>
                    Append(whole, Parse(got + data[pos..])) == Append(old(whole), Parse(old(got) + data))
        decreases |data| - pos
      {
        var rest := data[pos..];
        var readBytes := ReadSome(rest);
        if readBytes < 0 {
          return -1;
        }
        assert rest[readBytes..] == data[pos + readBytes..];
        ValidNotStranded();
        pos := pos + readBytes;
      }
      if !stranded {
        assert got + data[pos..] == got;
        GotIsPartial();
        ParsePartial(got);
        AppendEmpty(whole, got);
      }
      return 0;
    }

    lemma ValidNotStranded()
      requires Valid()
      ensures !Stranded()
    {
    }

    /** Reads all that a socket holds, chunk by chunk. */
    method ReadAll(chunks: seq<seq<byte>>) returns (err: bool)
      requires Valid() || Stranded()
      requires forall i :: 0 <= i < |chunks| ==> chunks[i] != []
      modifies this
      ensures old(Stranded()) ==> err == (chunks != []) && (!err ==> Stranded())
      ensures !old(Stranded()) ==>
                Valid() && Progress(whole, got, err) == FeedAll(Progress(old(whole), old(got), false), chunks)
    {
      err := false;
      ghost var start := Progress(whole, got, false);
      ghost var stranded := Stranded();
      var k := 0;
      hide Valid, Stranded;
      while k < |chunks|
        invariant 0 <= k <= |chunks| && !err
        invariant if stranded then Stranded() && k == 0 else Valid() && !Stranded()
        invariant !stranded ==> FeedAll(Progress(whole, got, false), chunks[k..]) == FeedAll(start, chunks)
      {
        var r := ReadPacket(chunks[k]);
        assert chunks[k..][1..] == chunks[k + 1..];
        if r < 0 {
          return true;
        }
        ValidNotStranded();
        k := k + 1;
      }
    }

    /** Takes every packet off the receive list, the unfinished one included. */
    method ProcessPacket() returns (handled: seq<Block>)
      modifies this`recvPacketList, this`whole
      ensures handled == old(recvPacketList) && recvPacketList == [] && whole == []
    {
      handled := [];
      while recvPacketList != []
        invariant handled + recvPacketList == old(recvPacketList)
        decreases |recvPacketList|
      {
        handled := handled + [recvPacketList[0]];
        recvPacketList := recvPacketList[1..];
      }
      whole := [];
    }

    /** One drain of the socket: read everything, then process what was received. Without a bad length
        all completed packets are handled in order; an unfinished packet of known length is handled with
        them, and after that the reader is stranded. A stranded reader refuses whatever comes next. */
    method ReadHandler(chunks: seq<seq<byte>>) returns (err: bool, handled: seq<Block>)
      requires (Valid() && whole == []) || Stranded()
      requires forall i :: 0 <= i < |chunks| ==> chunks[i] != []
      modifies this
      ensures old(Stranded()) ==> err == (chunks != []) && handled == [] && (!err ==> Stranded())
      ensures !old(Stranded()) ==>
                var p := FeedAll(Progress([], old(got), false), chunks);
                && err == p.failed
                && (!err ==>
                      && |handled| == |p.packets| + (if |p.got| >= 2 then 1 else 0)
                      && ListHolds(handled[..|p.packets|], p.packets, stride)
                      && (if |p.got| >= 2 then Stranded() && Held(handled[|p.packets|], p.got, stride)
                          else Valid() && whole == [] && got == p.got))
    {
      handled := [];
      err := ReadAll(chunks);
      if !err {
        handled := ProcessPacket();
      }
    }

    /** Successive drains of the socket, up to the first that fails. */
    method ReadDrains(drains: seq<seq<seq<byte>>>) returns (err: bool)
      requires Valid() && whole == [] && AllNonEmpty(drains)
      modifies this
      ensures err <==> !Survives(old(got), drains)
    {
      err := false;
      var k := 0;
      ghost var ok := Survives(got, drains);
      while k < |drains|
        invariant 0 <= k <= |drains| && !err
        invariant (Valid() && whole == [] && (ok <==> Survives(got, drains[k..])))
                  || (Stranded() && (ok <==> k == |drains|))
      {
        assert drains[k..][0] == drains[k] && drains[k..][1..] == drains[k + 1..];
        var handled;
        err, handled := ReadHandler(drains[k]);
        if err {
          return;
        }
        k := k + 1;
      }
    }
  }

  /** Every drain delivers data, in chunks that are not empty. */
  ghost predicate AllNonEmpty(drains: seq<seq<seq<byte>>>) {
    forall k :: 0 <= k < |drains| ==> drains[k] != [] && forall i :: 0 <= i < |drains[k]| ==> drains[k][i] != []
  }

  /** The connection outlives the drains: no bad length, and only the last one ends inside a packet
      whose length has been read. */
  ghost predicate Survives(got: seq<byte>, drains: seq<seq<seq<byte>>>)
    decreases |drains|
  {
    drains == [] ||
    var p := FeedAll(Progress([], got, false), drains[0]);
    !p.failed && (if |p.got| < 2 then Survives(p.got, drains[1..]) else |drains| == 1)
  }

  /** The bytes that the drains deliver. */
  ghost function Bytes(drains: seq<seq<seq<byte>>>): seq<byte> {
    if drains == [] then [] else Concat(drains[0]) + Bytes(drains[1..])
  }

  /** The stream is cut within drain limits: after drain k the stream has no bad length yet, and unless
      it is the last drain the stream so far ends between packets or after one byte of a length. */
  ghost predicate CutBetweenPackets(got: seq<byte>, drains: seq<seq<seq<byte>>>, k: nat)
    requires k < |drains|
  {
    var q := Parse(got + Bytes(drains[..k + 1]));
    !q.bad && (k + 1 < |drains| ==> |q.rest| < 2)
  }

  /** The condition under which the server's reader works on the stream as the parser does. */
  lemma {:induction false} SurvivesExactly(got: seq<byte>, drains: seq<seq<seq<byte>>>)
    requires AllNonEmpty(drains)
    ensures Survives(got, drains) <==> forall k :: 0 <= k < |drains| ==> CutBetweenPackets(got, drains, k)
    decreases |drains|
  {
    if drains != [] {
      var d, rest := drains[0], drains[1..];
      var p := FeedAll(Progress([], got, false), d);
      ChunkIndependence(Progress([], got, false), d);
      FirstDrain(got, drains, p);
      if !p.failed && |p.got| < 2 {
        SurvivesExactly(p.got, rest);
        forall k | 0 <= k < |rest|
          ensures CutBetweenPackets(p.got, rest, k) <==> CutBetweenPackets(got, drains, k + 1)
        {
          LaterDrain(got, drains, p, k);
        }
        if forall k :: 0 <= k < |rest| ==> CutBetweenPackets(p.got, rest, k) {
          forall k | 0 <= k < |drains| ensures CutBetweenPackets(got, drains, k) {
            if k > 0 {
              assert CutBetweenPackets(p.got, rest, k - 1);
            }
          }
        }
        if forall k :: 0 <= k < |drains| ==> CutBetweenPackets(got, drains, k) {
          forall k | 0 <= k < |rest| ensures CutBetweenPackets(p.got, rest, k) {
            assert CutBetweenPackets(got, drains, k + 1);
          }
        }
      }
    }
  }

  lemma TwoDrains(d: seq<byte>, e: seq<byte>)
    ensures Bytes([[d], [e]]) == d + e && Bytes([[d], [e]][..1]) == d
  {
    assert [[d], [e]][1..] == [[e]] && [[e]][1..] == [];
    assert [[d], [e]][..1] == [[d]] && [[d]][1..] == [];
    OneDrain(d);
    OneDrain(e);
  }

  lemma OneDrain(d: seq<byte>)
    ensures Bytes([[d]]) == d
  {
    assert [[d]][1..] == [] && [d][1..] == [];
    assert Concat([d]) == d;
  }

  /** A well-formed packet that two drains deliver is refused once the first of them ends behind the
      length: the bytes are a packet of the stream, but the connection does not outlive them. */
  lemma {:induction false} CutPacketRefused(p: seq<byte>, k: nat)
    requires IsPacket(p) && 2 <= k < |p|
    ensures Parse(p) == Parsed([p], [], false) && p[..k] + p[k..] == p
    ensures AllNonEmpty([[p[..k]], [p[k..]]]) && !Survives([], [[p[..k]], [p[k..]]])
  {
    hide Survives, Bytes, Concat, Parse, IsPacket, CutBetweenPackets;
    var d, e := p[..k], p[k..];
    CutPacketParses(p, k);
    TwoDrains(d, e);
    SurvivesExactly([], [[d], [e]]);
    LateCut(d, e);
  }

  lemma {:induction false} CutPacketParses(p: seq<byte>, k: nat)
    requires IsPacket(p) && 2 <= k < |p|
    ensures Parse(p) == Parsed([p], [], false) && Parse(p[..k]) == Parsed([], p[..k], false)
  {
    assert p + [] == p;
    ParsePush(p, []);
    ParsePartial([]);
    ParsePartial(p[..k]);
    hide Parse;
  }

  /** A drain that ends behind the length of an unfinished packet, with another to come. */
  lemma {:induction false} LateCut(d: seq<byte>, e: seq<byte>)
    requires |d| >= 2 && Parse(d) == Parsed([], d, false) && Bytes([[d], [e]][..1]) == d
    ensures !CutBetweenPackets([], [[d], [e]], 0)
  {
    hide Parse, Bytes;
    assert [] + d == d;
  }

  lemma FirstDrain(got: seq<byte>, drains: seq<seq<seq<byte>>>, p: Progress)
    requires drains != [] && p == Feed(Progress([], got, false), Concat(drains[0]))
    ensures CutBetweenPackets(got, drains, 0) <==> !p.failed && (|drains| > 1 ==> |p.got| < 2)
  {
    assert drains[..1] == [drains[0]] && Bytes([drains[0]]) == Concat(drains[0]) + [] == Concat(drains[0]);
  }

  lemma LaterDrain(got: seq<byte>, drains: seq<seq<seq<byte>>>, p: Progress, k: nat)
    requires drains != [] && p == Feed(Progress([], got, false), Concat(drains[0])) && !p.failed
    requires k + 1 < |drains|
    ensures CutBetweenPackets(p.got, drains[1..], k) <==> CutBetweenPackets(got, drains, k + 1)
  {
    var a, b := Concat(drains[0]), Bytes(drains[1..][..k + 1]);
    assert drains[..k + 2][0] == drains[0] && drains[..k + 2][1..] == drains[1..][..k + 1];
    assert got + (a + b) == (got + a) + b;
    ParseConcat(got + a, b);
  }
}
