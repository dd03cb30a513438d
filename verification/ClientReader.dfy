/** The client's stream reader: completed packets move to the receive list, the unfinished one stays
    with the reader. */
module ClientReader {
  import opened Protocol
  import opened Framing
  import opened PacketMemory

  datatype Pending = NoPacket | Packet(mem: Block)

  class PacketReader {
    const stride: nat
    var recvPacketList: seq<Block>
    var lp: Pending
    var expectBytes: int
    var length0: byte
    var length1: byte
    var lengthIncomplete: bool
    /** The bytes received of the unfinished packet, and those of every completed one. */
    ghost var got: seq<byte>
    ghost var whole: seq<seq<byte>>

    ghost predicate Valid()
      reads this
    {
      && stride >= 1
      && ListHolds(recvPacketList, whole, stride)
      && IsPartial(got)
      && (if |got| < 2
          then expectBytes == 0 && lp.NoPacket? && lengthIncomplete == (|got| == 1)
               && (|got| == 1 ==> length0 == got[0])
          else !lengthIncomplete && lp.Packet? && Held(lp.mem, got, stride)
               && expectBytes == FieldLength(got[0], got[1]) - |got|)
    }

    constructor (stride: nat)
      requires stride >= 1
      ensures Valid() && this.stride == stride && got == [] && whole == [] && recvPacketList == []
    {
      this.stride := stride;
      recvPacketList, lp, expectBytes, lengthIncomplete := [], NoPacket, 0, false;
      length0, length1 := 0, 0;
      got, whole := [], [];
    }

    /** The state in which a continuation cannot be stored. */
    predicate Broken()
      reads this
    {
      lp.NoPacket? || !LengthOk(GetLength(lp.mem)) || GetLength(lp.mem) < expectBytes
    }

    /** 1st: the length of the last packet is known; store the rest of it, or as much as there is. */
    method LastPacketIncomplete(buf: seq<byte>) returns (n: int)
      requires buf != [] && expectBytes > 0
      modifies this
      ensures lengthIncomplete == old(lengthIncomplete) && length0 == old(length0)
      ensures old(Broken()) ==>
                n == -1 && expectBytes == 0 && lp == old(lp) && got == []
                && recvPacketList == old(recvPacketList) && whole == old(whole)
      ensures !old(Broken()) ==>
                0 < n <= |buf| && expectBytes == old(expectBytes) - n >= 0
                && (expectBytes > 0 ==> n == |buf|)
                && var mem := Store(old(lp).mem, stride * (GetLength(old(lp).mem) - old(expectBytes)), buf[..n]);
                if expectBytes > 0 then
                  && lp == Packet(mem) && got == old(got) + buf[..n]
                  && recvPacketList == old(recvPacketList) && whole == old(whole)
                else
                  && lp == NoPacket && got == []
                  && recvPacketList == old(recvPacketList) + [mem] && whole == old(whole) + [old(got) + buf[..n]]
    {
      if lp.NoPacket? {
        expectBytes, got := 0, [];
        return -1;
      }
      var packetLength := GetLength(lp.mem);
      if packetLength < PACKET_HEADER_LEN {
        expectBytes, got := 0, [];
        return -1;
      } else if packetLength > MAX_PACKET_LEN {
        expectBytes, got := 0, [];
        return -1;
      }
      var haveRead := packetLength - expectBytes;
      if haveRead < 0 {
        expectBytes, got := 0, [];
        return -1;
      }
      n := if |buf| < expectBytes then |buf| else expectBytes;
      lp := Packet(Store(lp.mem, stride * haveRead, buf[..n]));
      got := got + buf[..n];
      if |buf| < expectBytes {
        expectBytes := expectBytes - |buf|;
      } else {
        recvPacketList := recvPacketList + [lp.mem];
        whole := whole + [got];
        expectBytes := 0;
        lp, got := NoPacket, [];
      }
    }

    /** 2nd: only the first byte of the length has been read; with the second one the packet begins. */
    method LastPacketIncomplete1Byte(buf: seq<byte>) returns (n: int)
      requires buf != []
      modifies this
      ensures recvPacketList == old(recvPacketList) && whole == old(whole) && !lengthIncomplete
      ensures var len := FieldLength(old(length0), buf[0]);
              if !LengthOk(len) then n == -1 && lp == old(lp) && expectBytes == old(expectBytes) && got == []
              else n == 1 && expectBytes == len - 2 && got == old(got) + [buf[0]]
                   && lp.Packet? && exists m: Block :: lp.mem == Store(m, 0, [old(length0), buf[0]])
    {
      length1 := buf[0];
      var packetLength := FieldLength(length0, length1);
      if packetLength < PACKET_HEADER_LEN {
        lengthIncomplete, got := false, [];
        return -1;
      } else if packetLength > MAX_PACKET_LEN {
        lengthIncomplete, got := false, [];
        return -1;
      }
      var packet := Malloc();
      lp := Packet(Store(packet, 0, [length0, length1]));
      lengthIncomplete := false;
      expectBytes := packetLength - 2;
      got := got + [buf[0]];
      return 1;
    }

    /** 3rd: a new packet begins; it may be complete, lack its end, or lack even half its length. */
    method LastPacketComplete(buf: seq<byte>) returns (n: int)
      requires buf != [] && got == []
      modifies this
      ensures |buf| < 2 ==>
                n == 1 && lengthIncomplete && length0 == buf[0] && got == buf
                && lp == old(lp) && expectBytes == old(expectBytes)
                && recvPacketList == old(recvPacketList) && whole == old(whole)
      ensures |buf| >= 2 ==> lengthIncomplete == old(lengthIncomplete)
      ensures |buf| >= 2 && !LengthOk(FieldLength(buf[0], buf[1])) ==>
                n == -1 && lp == old(lp) && expectBytes == old(expectBytes) && got == []
                && recvPacketList == old(recvPacketList) && whole == old(whole)
      ensures |buf| >= 2 && LengthOk(FieldLength(buf[0], buf[1])) ==>
                var len := FieldLength(buf[0], buf[1]);
                2 <= n <= |buf| && n <= len
                && exists m: Block ::
                     if |buf| < len then
                       && n == |buf| && got == buf && lp == Packet(Store(m, 0, buf)) && expectBytes == len - n
                       && recvPacketList == old(recvPacketList) && whole == old(whole)
                     else
                       && n == len && got == [] && lp == old(lp) && expectBytes == old(expectBytes)
                       && recvPacketList == old(recvPacketList) + [Store(m, 0, buf[..n])]
                       && whole == old(whole) + [buf[..n]]
    {
      if |buf| < 2 {
        n := |buf|;
        lengthIncomplete := true;
        length0, got := buf[0], buf;
      } else {
        var packetLength := FieldLength(buf[0], buf[1]);
        if packetLength < PACKET_HEADER_LEN {
          return -1;
        } else if packetLength > MAX_PACKET_LEN {
          return -1;
        }
        var packet := Malloc();
        n := if |buf| < packetLength then |buf| else packetLength;
        ghost var m := packet;
        packet := Store(packet, 0, buf[..n]);
        if |buf| < packetLength {
          expectBytes := packetLength - n;
          lp, got := Packet(packet), buf;
          assert buf[..n] == buf;
          assert lp == Packet(Store(m, 0, buf));
        } else {
          recvPacketList := recvPacketList + [packet];
          whole := whole + [buf[..n]];
        }
      }
    }

    /** Continuing a packet whose length is known. */
    method Continue(buf: seq<byte>) returns (n: int)
      requires Valid() && buf != [] && expectBytes > 0
      modifies this
      ensures Valid() && 0 < n <= |buf|
      ensures Append(whole, Parse(got + buf[n..])) == Append(old(whole), Parse(old(got) + buf))
    {
      ghost var g, w := got, whole;
      n := LastPacketIncomplete(buf);
      ghost var d := buf[..n];
      assert buf == d + buf[n..] && (g + d)[0] == g[0] && (g + d)[1] == g[1];
      HeldContinued(old(lp).mem, g, d, stride);
      if expectBytes > 0 {
        StepGrows(w, g, d, buf[n..]);
      } else {
        StepCompletes(w, g, d, buf[n..]);
        ListGrows(old(recvPacketList), w, Store(old(lp).mem, stride * |g|, d), g + d, stride);
      }
    }

    /** Completing a length of which one byte is known. */
    method SecondByte(buf: seq<byte>) returns (n: int)
      requires Valid() && buf != [] && lengthIncomplete
      modifies this
      ensures Valid() && n <= |buf|
      ensures n > 0 ==> Append(whole, Parse(got + buf[n..])) == Append(old(whole), Parse(old(got) + buf))
      ensures n <= 0 ==> n == -1 && Append(old(whole), Parse(old(got) + buf)) == Parsed(whole, got, true) && got == []
    {
      ghost var g, w := got, whole;
      n := LastPacketIncomplete1Byte(buf);
      ghost var s := g + buf;
      assert s[0] == g[0] && s[1] == buf[0];
      if n == -1 {
        StepFails(w, s);
      } else {
        assert buf == [buf[0]] + buf[1..];
        StepGrows(w, g, [buf[0]], buf[1..]);
        ghost var m: Block :| lp.mem == Store(m, 0, [g[0], buf[0]]);
        assert [g[0], buf[0]] == got;
        HeldFirst(m, got, stride);
      }
    }

    /** Beginning a new packet. */
    method Begin(buf: seq<byte>) returns (n: int)
      requires Valid() && buf != [] && got == []
      modifies this
      ensures Valid() && n <= |buf|
      ensures n > 0 ==> Append(whole, Parse(got + buf[n..])) == Append(old(whole), Parse(old(got) + buf))
      ensures n <= 0 ==> n == -1 && Append(old(whole), Parse(old(got) + buf)) == Parsed(whole, got, true) && got == []
    {
      ghost var w := whole;
      assert [] + buf == buf;
      n := LastPacketComplete(buf);
      if n == -1 {
        StepFails(w, buf);
      } else {
        ghost var d := buf[..n];
        assert buf == d + buf[n..] && [] + d == d;
        if got == [] {
          ghost var len := FieldLength(buf[0], buf[1]);
          ghost var m: Block :| recvPacketList == old(recvPacketList) + [Store(m, 0, d)];
          assert IsPacket(d);
          HeldFirst(m, d, stride);
          StepCompletes(w, [], d, buf[n..]);
          ListGrows(old(recvPacketList), w, Store(m, 0, d), d, stride);
        } else {
          assert buf[n..] == [] && got + [] == got;
          if |buf| >= 2 {
            ghost var m: Block :| lp == Packet(Store(m, 0, buf));
            HeldFirst(m, buf, stride);
          }
        }
      }
    }

    /** Dispatches on what is known of the last packet. */
    method ReadSome(buf: seq<byte>) returns (readBytes: int)
      requires Valid() && buf != []
      modifies this
      ensures Valid() && readBytes <= |buf|
      ensures readBytes > 0 ==>
                Append(whole, Parse(got + buf[readBytes..])) == Append(old(whole), Parse(old(got) + buf))
      ensures readBytes <= 0 ==>
                readBytes == -1 && got == [] && Append(old(whole), Parse(old(got) + buf)) == Parsed(whole, got, true)
    {
      hide Parse, Held, ListHolds, Append;
      if expectBytes > 0 {
        readBytes := Continue(buf);
      } else if lengthIncomplete {
        readBytes := SecondByte(buf);
      } else {
        readBytes := Begin(buf);
      }
    }

    lemma GotIsPartial()
      requires Valid()
      ensures IsPartial(got)
    {
    }

    /** Generates packets from the first count bytes of a buffer. */
    method ReadPacket(buf: seq<byte>, count: int) returns (r: int)
      requires Valid() && count <= |buf|
      modifies this
      ensures Valid()
      ensures count < 0 ==> r == -1 && got == old(got) && whole == old(whole) && recvPacketList == old(recvPacketList)
      ensures count >= 0 ==>
                Progress(whole, got, r == -1) == Feed(Progress(old(whole), old(got), false), buf[..count])
                && (r == -1 || r == 0)
    {
      hide Parse, Held, ListHolds, Append, Valid;
      if count < 0 {
        return -1;
      }
      ghost var data := buf[..count];
      var pos := 0;
      assert data[0..] == data;
      while pos < count
        invariant 0 <= pos <= count && Valid()
        invariant Append(whole, Parse(got + data[pos..])) == Append(old(whole), Parse(old(got) + data))
        decreases count - pos
      {
        var rest := buf[pos..count];
        assert rest == data[pos..];
        var readBytes := ReadSome(rest);
        if readBytes < 0 {
          return -1;
        }
        assert rest[readBytes..] == data[pos + readBytes..];
        pos := pos + readBytes;
      }
      assert got + data[pos..] == got;
      GotIsPartial();
      ParsePartial(got);
      AppendEmpty(whole, got);
      return 0;
    }
  }

  /** Reads successive chunks until a read fails. */
  method ReadChunks(reader: PacketReader, chunks: seq<seq<byte>>) returns (r: int)
    requires reader.Valid()
    modifies reader
    ensures reader.Valid()
    ensures Progress(reader.whole, reader.got, r == -1)
         == FeedAll(Progress(old(reader.whole), old(reader.got), false), chunks)
  {
    r := 0;
    ghost var start := Progress(reader.whole, reader.got, false);
    var k := 0;
    while k < |chunks|
      invariant 0 <= k <= |chunks| && reader.Valid() && r == 0
      invariant FeedAll(Progress(reader.whole, reader.got, false), chunks[k..]) == FeedAll(start, chunks)
    {
      assert chunks[k] == chunks[k][..|chunks[k]|];
      r := reader.ReadPacket(chunks[k], |chunks[k]|);
      assert chunks[k..][1..] == chunks[k + 1..];
      if r == -1 {
        return;
      }
      k := k + 1;
    }
  }

  lemma ListGrows(list: seq<Block>, whole: seq<seq<byte>>, mem: Block, p: seq<byte>, stride: nat)
    requires ListHolds(list, whole, stride) && IsPacket(p) && Held(mem, p, stride)
    ensures ListHolds(list + [mem], whole + [p], stride)
  {
  }

  /** The receive list holds the packets of whole. */
  ghost predicate ListHolds(list: seq<Block>, whole: seq<seq<byte>>, stride: nat) {
    && |list| == |whole|
    && forall i :: 0 <= i < |list| ==> IsPacket(whole[i]) && Held(list[i], whole[i], stride)
  }
}
