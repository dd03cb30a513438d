/** The memory of a packet that is filled piece by piece. */
module PacketMemory {
  import opened Protocol
  import opened Framing

  /** The offset by which a continuation is meant to advance per byte already read. */
  const BYTE_STRIDE := 1
  /** The offset by which it does advance: the byte count is added to a pointer to a packet header. */
  const HEADER_STRIDE := PACKET_HEADER_LEN

  /** A memory block for one packet. */
  type Block = m: seq<byte> | |m| == MAX_PACKET_LEN witness Filled(0)

  function Filled(b: byte): (mem: seq<byte>)
    ensures |mem| == MAX_PACKET_LEN && forall i :: 0 <= i < MAX_PACKET_LEN ==> mem[i] == b
  {
    seq(MAX_PACKET_LEN, _ => b)
  }

  /** The length field of the packet in a block. */
  function GetLength(mem: Block): nat {
    FieldLength(mem[0], mem[1])
  }

  /** Copies data to an offset of a memory block; what lies behind the block is not part of it. */
  function Store(mem: seq<byte>, off: nat, data: seq<byte>): (r: seq<byte>)
    ensures |r| == |mem|
    ensures forall i :: 0 <= i < |mem| ==> r[i] == if off <= i < off + |data| then data[i - off] else mem[i]
  {
    seq(|mem|, i requires 0 <= i < |mem| => if off <= i < off + |data| then data[i - off] else mem[i])
  }

  /** A block whose contents are not known. */
  method Malloc() returns (mem: Block)
    ensures |mem| == MAX_PACKET_LEN
  {
    var a := new byte[MAX_PACKET_LEN];
    mem := a[..];
  }

  /** The block after the pieces of a packet have been stored behind the have bytes already read. */
  function Assemble(mem: seq<byte>, stride: nat, have: nat, pieces: seq<seq<byte>>): (r: seq<byte>)
    ensures |r| == |mem|
    decreases |pieces|
  {
    if pieces == [] then mem
    else Assemble(Store(mem, stride * have, pieces[0]), stride, have + |pieces[0]|, pieces[1..])
  }

  lemma {:induction false} ByteStrideKeeps(mem: seq<byte>, have: nat, pieces: seq<seq<byte>>, s: seq<byte>)
    requires |s| == have && have + |Concat(pieces)| <= |mem| && mem[..have] == s
    ensures Assemble(mem, BYTE_STRIDE, have, pieces)[..have + |Concat(pieces)|] == s + Concat(pieces)
    decreases |pieces|
  {
    if pieces != [] {
      var p := pieces[0];
      var m := Store(mem, have, p);
      assert m[..have + |p|] == s + p;
      ByteStrideKeeps(m, have + |p|, pieces[1..], s + p);
      assert (s + p) + Concat(pieces[1..]) == s + (p + Concat(pieces[1..]));
    }
  }

  /** No continuation reaches the position at which the first of them should have begun. */
  lemma {:induction false} HeaderStrideMisses(mem: seq<byte>, have: nat, pieces: seq<seq<byte>>, k: nat)
    requires 1 <= k <= have && k < |mem|
    ensures Assemble(mem, HEADER_STRIDE, have, pieces)[k] == mem[k]
    decreases |pieces|
  {
    if pieces != [] {
      HeaderStrideMisses(Store(mem, HEADER_STRIDE * have, pieces[0]), have + |pieces[0]|, pieces[1..], k);
    }
  }

  /** With byte offsets a packet's block holds the stream's bytes however the packet was cut up. */
  lemma {:induction false} ByteOffsetsFaithful(mem: seq<byte>, pieces: seq<seq<byte>>)
    requires |Concat(pieces)| <= |mem|
    ensures Assemble(mem, BYTE_STRIDE, 0, pieces)[..|Concat(pieces)|] == Concat(pieces)
  {
    ByteStrideKeeps(mem, 0, pieces, []);
    assert [] + Concat(pieces) == Concat(pieces);
  }

  ghost predicate Faithful(stride: nat, pieces: seq<seq<byte>>) {
    forall mem: seq<byte> :: |mem| == MAX_PACKET_LEN && |Concat(pieces)| <= MAX_PACKET_LEN ==>
      Assemble(mem, stride, 0, pieces)[..|Concat(pieces)|] == Concat(pieces)
  }

  lemma OnePieceFaithful(stride: nat, p: seq<byte>)
    ensures Faithful(stride, [p])
  {
    assert Concat([p]) == p;
    forall mem: seq<byte> | |mem| == MAX_PACKET_LEN && |p| <= MAX_PACKET_LEN
      ensures Assemble(mem, stride, 0, [p])[..|p|] == p
    {
      assert Assemble(mem, stride, 0, [p]) == Store(mem, 0, p);
    }
  }

  lemma {:induction false} ConcatTwo(pieces: seq<seq<byte>>)
    requires |pieces| >= 2 && pieces[1] != []
    ensures |pieces[0]| < |Concat(pieces)|
  {
    assert Concat(pieces[1..]) == pieces[1] + Concat(pieces[1..][1..]);
  }

  lemma {:induction false} AssembleFirst(mem: seq<byte>, pieces: seq<seq<byte>>)
    requires pieces != []
    ensures Assemble(mem, HEADER_STRIDE, 0, pieces)
         == Assemble(Store(mem, 0, pieces[0]), HEADER_STRIDE, |pieces[0]|, pieces[1..])
  {
  }

  lemma {:induction false} StaleByteShows(mem: seq<byte>, pieces: seq<seq<byte>>)
    requires |pieces| >= 2 && pieces[0] != [] && pieces[1] != [] && |Concat(pieces)| <= |mem|
    requires |pieces[0]| < |Concat(pieces)| && mem[|pieces[0]|] != Concat(pieces)[|pieces[0]|]
    ensures Assemble(mem, HEADER_STRIDE, 0, pieces)[..|Concat(pieces)|] != Concat(pieces)
  {
    var k := |pieces[0]|;
    HeaderStrideMisses(Store(mem, 0, pieces[0]), k, pieces[1..], k);
    AssembleFirst(mem, pieces);
    hide Assemble, Concat;
    assert Assemble(mem, HEADER_STRIDE, 0, pieces)[..|Concat(pieces)|][k] == mem[k];
  }

  lemma {:induction false} SeveralPiecesUnfaithful(pieces: seq<seq<byte>>)
    requires |pieces| >= 2 && pieces[0] != [] && pieces[1] != [] && |Concat(pieces)| <= MAX_PACKET_LEN
    ensures !Faithful(HEADER_STRIDE, pieces)
  {
    ConcatTwo(pieces);
    var b: byte := if Concat(pieces)[|pieces[0]|] == 0 then 1 else 0;
    var mem := Filled(b);
    StaleByteShows(mem, pieces);
    hide Assemble, Concat;
  }

  /** With the offsets as they are computed, the block is sure to hold the stream's bytes exactly when
      the packet arrived in one piece. */
  lemma {:induction false} HeaderOffsetsFaithful(pieces: seq<seq<byte>>)
    requires pieces != [] && (forall i :: 0 <= i < |pieces| ==> pieces[i] != []) && |Concat(pieces)| <= MAX_PACKET_LEN
    ensures Faithful(HEADER_STRIDE, pieces) <==> |pieces| == 1
  {
    if |pieces| == 1 {
      assert pieces == [pieces[0]];
      OnePieceFaithful(HEADER_STRIDE, pieces[0]);
    } else {
      SeveralPiecesUnfaithful(pieces);
    }
  }

  // ---------------------------------------------------------------- zero-filled blocks

  /** The stream is zero from k on. */
  ghost predicate ZeroFrom(s: seq<byte>, k: nat) {
    forall i :: k <= i < |s| ==> s[i] == 0
  }

  /** What ends up in a zero byte behind the first piece is zero, or a byte that comes earlier in the
      stream but still behind the first piece. */
  lemma {:induction false} ShownByteIsEarlier(mem: seq<byte>, have: nat, pieces: seq<seq<byte>>, s: seq<byte>,
                                              base: nat, k: nat)
    requires 1 <= base <= have <= |s| && s[..have] + Concat(pieces) == s
    requires base <= k < |s| <= |mem| && mem[k] == 0
    requires forall i :: base <= i < k ==> s[i] == 0
    ensures Assemble(mem, HEADER_STRIDE, have, pieces)[k] == 0
    decreases |pieces|
  {
    if pieces != [] {
      var p, off := pieces[0], HEADER_STRIDE * have;
      assert s[have..] == Concat(pieces) == p + Concat(pieces[1..]);
      assert s[have..have + |p|] == p;
      assert s[..have + |p|] + Concat(pieces[1..]) == s;
      assert off <= k < off + |p| ==> p[k - off] == s[have + k - off];
      ShownByteIsEarlier(Store(mem, off, p), have + |p|, pieces[1..], s, base, k);
    }
  }

  /** If the block shows the stream, every byte of the stream behind the first piece is zero. */
  lemma {:induction false} ShownIsZero(pieces: seq<seq<byte>>, k: nat)
    requires pieces != [] && pieces[0] != [] && |pieces[0]| <= k <= |Concat(pieces)| <= MAX_PACKET_LEN
    requires Assemble(Filled(0), HEADER_STRIDE, 0, pieces)[..|Concat(pieces)|] == Concat(pieces)
    ensures forall i :: |pieces[0]| <= i < k ==> Concat(pieces)[i] == 0
    decreases k
  {
    var p, s := pieces[0], Concat(pieces);
    if k > |p| {
      ShownIsZero(pieces, k - 1);
      assert s[..|p|] + Concat(pieces[1..]) == s;
      ShownByteIsEarlier(Store(Filled(0), 0, p), |p|, pieces[1..], s, |p|, k - 1);
      AssembleFirst(Filled(0), pieces);
      assert s[k - 1] == Assemble(Filled(0), HEADER_STRIDE, 0, pieces)[..|s|][k - 1];
    }
  }

  /** Zeros stored behind the first piece change nothing. */
  lemma {:induction false} ZerosChangeNothing(mem: seq<byte>, have: nat, pieces: seq<seq<byte>>)
    requires ZeroFrom(mem, have) && ZeroFrom(Concat(pieces), 0)
    ensures Assemble(mem, HEADER_STRIDE, have, pieces) == mem
    decreases |pieces|
  {
    if pieces != [] {
      var p := pieces[0];
      assert forall i :: 0 <= i < |p| ==> p[i] == Concat(pieces)[i];
      assert Store(mem, HEADER_STRIDE * have, p) == mem;
      assert forall i :: 0 <= i < |Concat(pieces[1..])| ==> Concat(pieces[1..])[i] == Concat(pieces)[|p| + i];
      ZerosChangeNothing(mem, have + |p|, pieces[1..]);
    }
  }

  /** On a zero-filled block, which is what the server begins a packet with, the offsets as they are
      computed yield the stream's bytes exactly when every byte behind the first piece is zero. */
  lemma {:induction false} ZeroBlockFaithful(pieces: seq<seq<byte>>)
    requires pieces != [] && pieces[0] != [] && |Concat(pieces)| <= MAX_PACKET_LEN
    ensures Assemble(Filled(0), HEADER_STRIDE, 0, pieces)[..|Concat(pieces)|] == Concat(pieces)
       <==> ZeroFrom(Concat(pieces), |pieces[0]|)
  {
    var p, s := pieces[0], Concat(pieces);
    if Assemble(Filled(0), HEADER_STRIDE, 0, pieces)[..|s|] == s {
      ShownIsZero(pieces, |s|);
    }
    if ZeroFrom(s, |p|) {
      var m := Store(Filled(0), 0, p);
      assert forall i :: 0 <= i < |Concat(pieces[1..])| ==> Concat(pieces[1..])[i] == s[|p| + i];
      ZerosChangeNothing(m, |p|, pieces[1..]);
      AssembleFirst(Filled(0), pieces);
      assert m[..|s|] == s;
    }
  }

  // ---------------------------------------------------------------- staying inside the block

  lemma MulGrows(a: nat, b: nat)
    requires a >= 1
    ensures a * b >= b
  {
    if a > 1 {
      assert a * b == (a - 1) * b + b;
    }
  }

  /** Whatever lies behind the block, storing the pieces leaves it as it was. */
  ghost predicate Confined(stride: nat, pieces: seq<seq<byte>>) {
    forall mem: seq<byte>, behind: seq<byte> :: |mem| == MAX_PACKET_LEN ==>
      Assemble(mem + behind, stride, 0, pieces)[MAX_PACKET_LEN..] == behind
  }

  function Last(pieces: seq<seq<byte>>): seq<byte>
    requires pieces != []
  {
    pieces[|pieces| - 1]
  }

  /** The first position behind the last piece. */
  function End(stride: nat, have: nat, pieces: seq<seq<byte>>): nat
    requires pieces != []
    decreases |pieces|
  {
    if |pieces| == 1 then stride * have + |pieces[0]| else End(stride, have + |pieces[0]|, pieces[1..])
  }

  lemma {:induction false} EndIsStretched(stride: nat, have: nat, pieces: seq<seq<byte>>)
    requires pieces != [] && stride >= 1
    ensures |Last(pieces)| <= |Concat(pieces)|
    ensures End(stride, have, pieces) == stride * (have + |Concat(pieces)| - |Last(pieces)|) + |Last(pieces)|
    ensures stride * have + |pieces[0]| <= End(stride, have, pieces)
    decreases |pieces|
  {
    if |pieces| == 1 {
      assert Concat(pieces[1..]) == [];
      assert Concat(pieces) == pieces[0] + [] == Last(pieces);
    } else {
      var p := pieces[0];
      EndIsStretched(stride, have + |p|, pieces[1..]);
      assert |Concat(pieces)| == |p| + |Concat(pieces[1..])| && Last(pieces) == Last(pieces[1..]);
      assert stride * (have + |p|) == stride * have + stride * |p|;
      MulGrows(stride, |p|);
    }
  }

  lemma {:induction false} BehindUntouched(block: seq<byte>, stride: nat, have: nat, pieces: seq<seq<byte>>)
    requires |block| >= MAX_PACKET_LEN && stride >= 1
    requires pieces != [] ==> End(stride, have, pieces) <= MAX_PACKET_LEN
    ensures Assemble(block, stride, have, pieces)[MAX_PACKET_LEN..] == block[MAX_PACKET_LEN..]
    decreases |pieces|
  {
    if pieces != [] {
      EndIsStretched(stride, have, pieces);
      BehindUntouched(Store(block, stride * have, pieces[0]), stride, have + |pieces[0]|, pieces[1..]);
    }
  }

  lemma {:induction false} LastByteStays(block: seq<byte>, stride: nat, have: nat, pieces: seq<seq<byte>>)
    requires pieces != [] && Last(pieces) != [] && 1 <= End(stride, have, pieces) <= |block|
    ensures Assemble(block, stride, have, pieces)[End(stride, have, pieces) - 1] == Last(pieces)[|Last(pieces)| - 1]
    decreases |pieces|
  {
    var m := Store(block, stride * have, pieces[0]);
    if |pieces| == 1 {
      assert Assemble(m, stride, have + |pieces[0]|, pieces[1..]) == m;
    } else {
      LastByteStays(m, stride, have + |pieces[0]|, pieces[1..]);
    }
  }

  /** A packet that arrives in pieces stays inside its block exactly when its last piece ends there:
      with the offsets as computed, when 12 times the bytes before the last piece leave room for it. */
  lemma {:induction false} ConfinedExactly(stride: nat, pieces: seq<seq<byte>>)
    requires stride >= 1 && pieces != [] && Last(pieces) != []
    ensures |Last(pieces)| <= |Concat(pieces)|
    ensures Confined(stride, pieces)
       <==> stride * (|Concat(pieces)| - |Last(pieces)|) + |Last(pieces)| <= MAX_PACKET_LEN
  {
    hide Assemble, End, Store, Concat, Last;
    EndIsStretched(stride, 0, pieces);
    if End(stride, 0, pieces) <= MAX_PACKET_LEN {
      forall mem: seq<byte>, behind: seq<byte> | |mem| == MAX_PACKET_LEN
        ensures Assemble(mem + behind, stride, 0, pieces)[MAX_PACKET_LEN..] == behind
      {
        BehindUntouched(mem + behind, stride, 0, pieces);
      }
    } else {
      SpillsOver(stride, pieces);
    }
  }

  /** A last piece that ends behind the block changes what lies there. */
  lemma {:induction false} SpillsOver(stride: nat, pieces: seq<seq<byte>>)
    requires pieces != [] && Last(pieces) != [] && End(stride, 0, pieces) > MAX_PACKET_LEN
    ensures !Confined(stride, pieces)
  {
    hide Assemble, End, Store, Concat, Last;
    var end := End(stride, 0, pieces);
    var b: byte := if Last(pieces)[|Last(pieces)| - 1] == 0 then 1 else 0;
    var behind: seq<byte> := seq(end - MAX_PACKET_LEN, _ => b);
    LastByteStays(Filled(0) + behind, stride, 0, pieces);
    var r := Assemble(Filled(0) + behind, stride, 0, pieces);
    assert r[MAX_PACKET_LEN..][end - 1 - MAX_PACKET_LEN] == r[end - 1];
  }

  // ---------------------------------------------------------------- what a block holds

  /** The block holds the beginning s of a packet: always the length field, and with byte offsets all of s. */
  ghost predicate Held(mem: Block, s: seq<byte>, stride: nat) {
    && 2 <= |s| <= MAX_PACKET_LEN && mem[0] == s[0] && mem[1] == s[1]
    && (stride == BYTE_STRIDE ==> mem[..|s|] == s)
  }

  lemma HeldFirst(mem: Block, s: seq<byte>, stride: nat)
    requires 2 <= |s| <= MAX_PACKET_LEN
    ensures Held(Store(mem, 0, s), s, stride)
  {
  }

  /** Storing a continuation keeps the length field, and with byte offsets extends what is held. */
  lemma HeldContinued(mem: Block, s: seq<byte>, d: seq<byte>, stride: nat)
    requires stride >= 1 && Held(mem, s, stride) && |s + d| <= MAX_PACKET_LEN
    ensures Held(Store(mem, stride * |s|, d), s + d, stride)
  {
    assert stride * |s| >= |s| by {
      MulGrows(stride, |s|);
    }
  }
}
