/** Fields in byte buffers, and the two packed lists the servers send to clients: offline messages and
    contact information. The server packs records one after another; the client walks them. */
module Codec {
  import opened Protocol
  import opened Framing

  const PARAMS_LEN := MAX_PACKET_LEN - PACKET_HEADER_LEN
  const RECORD_HEADER_LEN := 12
  const CONTACT_HEADER_LEN := 8
  const MAX_NICK_LENGTH := 31

  /** The contents of a C string. */
  type Text = t: seq<byte> | forall i :: 0 <= i < |t| ==> t[i] != 0

  // ---------------------------------------------------------------- fields

  function GetU16(buf: seq<byte>, off: nat): (v: nat)
    requires off + 2 <= |buf|
    ensures v < 0x1_0000
  {
    FieldLength(buf[off], buf[off + 1])
  }

  function GetU32(buf: seq<byte>, off: nat): (v: nat)
    requires off + 4 <= |buf|
    ensures v < 0x1_0000_0000
  {
    GetU16(buf, off) + 0x1_0000 * GetU16(buf, off + 2)
  }

  /** Fields stand in the order of the host, the lowest byte first. */
  lemma FieldsAreLittleEndian(buf: seq<byte>, off: nat)
    requires off + 4 <= |buf|
    ensures GetU16(buf, off) == buf[off] as int + 0x100 * buf[off + 1] as int
    ensures GetU32(buf, off) == buf[off] as int + 0x100 * buf[off + 1] as int
                                + 0x1_0000 * buf[off + 2] as int + 0x100_0000 * buf[off + 3] as int
  {
  }

  /** a and b agree on the bytes from lo up to hi. */
  ghost predicate Same(a: seq<byte>, b: seq<byte>, lo: int, hi: int) {
    0 <= lo && hi <= |a| && hi <= |b| && forall i :: lo <= i < hi ==> a[i] == b[i]
  }

  method SetU16(buf: array<byte>, off: nat, v: nat)
    requires off + 2 <= buf.Length && v < 0x1_0000
    modifies buf
    ensures GetU16(buf[..], off) == v
    ensures Same(buf[..], old(buf[..]), 0, off) && Same(buf[..], old(buf[..]), off + 2, buf.Length)
  {
    buf[off], buf[off + 1] := v % 0x100, v / 0x100;
  }

  method SetU32(buf: array<byte>, off: nat, v: nat)
    requires off + 4 <= buf.Length && v < 0x1_0000_0000
    modifies buf
    ensures GetU32(buf[..], off) == v
    ensures Same(buf[..], old(buf[..]), 0, off) && Same(buf[..], old(buf[..]), off + 4, buf.Length)
  {
    SetU16(buf, off, v % 0x1_0000);
    ghost var low := buf[..];
    SetU16(buf, off + 2, v / 0x1_0000);
    assert buf[..][off] == low[off] && buf[..][off + 1] == low[off + 1];
  }

  /** Copies a C string with its terminator. */
  method StrCpy(buf: array<byte>, off: nat, text: Text)
    requires off + |text| + 1 <= buf.Length
    modifies buf
    ensures buf[off..off + |text| + 1] == text + [0]
    ensures Same(buf[..], old(buf[..]), 0, off) && Same(buf[..], old(buf[..]), off + |text| + 1, buf.Length)
  {
    var i := 0;
    while i < |text|
      invariant 0 <= i <= |text| && forall k :: 0 <= k < i ==> buf[off + k] == text[k]
      invariant Same(buf[..], old(buf[..]), 0, off) && Same(buf[..], old(buf[..]), off + |text| + 1, buf.Length)
    {
      buf[off + i] := text[i];
      i := i + 1;
    }
    buf[off + i] := 0;
  }

  // ---------------------------------------------------------------- offline message records

  /** A row of the offline message table. */
  datatype Row = Row(fromUin: nat, kind: nat, text: Text)

  ghost predicate Storable(r: Row) {
    r.fromUin < 0x1_0000_0000 && r.kind < 0x1_0000
  }

  /** The record's length field: a message that is not chat carries no text. */
  function ContentLen(r: Row): nat {
    if r.kind == MSG_TYPE_CHAT then |r.text| + 1 else 0
  }

  function RecordSize(r: Row): nat {
    RECORD_HEADER_LEN + ContentLen(r)
  }

  function TotalSize(rows: seq<Row>): nat {
    if rows == [] then 0 else RecordSize(rows[0]) + TotalSize(rows[1..])
  }

  /** A buffer holds the record of r at off. The four bytes of the timestamp are not written. */
  ghost predicate RecordAt(buf: seq<byte>, off: nat, r: Row) {
    && off + RecordSize(r) <= |buf|
    && GetU32(buf, off) == r.fromUin
    && GetU16(buf, off + 8) == r.kind
    && GetU16(buf, off + 10) == ContentLen(r)
    && (r.kind == MSG_TYPE_CHAT ==> buf[off + 12..off + 12 + ContentLen(r)] == r.text + [0])
  }

  ghost predicate RecordsAt(buf: seq<byte>, off: nat, rows: seq<Row>)
    decreases |rows|
  {
    rows == [] || (RecordAt(buf, off, rows[0]) && RecordsAt(buf, off + RecordSize(rows[0]), rows[1..]))
  }

  lemma RecordElsewhere(a: seq<byte>, b: seq<byte>, off: nat, r: Row)
    requires RecordAt(a, off, r) && Same(a, b, off, off + RecordSize(r))
    ensures RecordAt(b, off, r)
  {
    if r.kind == MSG_TYPE_CHAT {
      assert a[off + 12..off + 12 + ContentLen(r)] == b[off + 12..off + 12 + ContentLen(r)];
    }
  }

  /** Records depend only on the bytes they occupy. */
  lemma {:induction false} RecordsElsewhere(a: seq<byte>, b: seq<byte>, off: nat, rows: seq<Row>)
    requires RecordsAt(a, off, rows) && Same(a, b, off, off + TotalSize(rows))
    ensures RecordsAt(b, off, rows)
    decreases |rows|
  {
    if rows != [] {
      RecordElsewhere(a, b, off, rows[0]);
      RecordsElsewhere(a, b, off + RecordSize(rows[0]), rows[1..]);
    }
  }

  lemma {:induction false} RecordsAppend(buf: seq<byte>, off: nat, rows: seq<Row>, r: Row)
    requires RecordsAt(buf, off, rows) && RecordAt(buf, off + TotalSize(rows), r)
    ensures RecordsAt(buf, off, rows + [r]) && TotalSize(rows + [r]) == TotalSize(rows) + RecordSize(r)
    decreases |rows|
  {
    if rows != [] {
      assert (rows + [r])[1..] == rows[1..] + [r];
      RecordsAppend(buf, off + RecordSize(rows[0]), rows[1..], r);
    }
  }

  /** How many of the rows go into left bytes. The room asked for counts the text of every message,
      also where no text is packed. */
  function Fits(rows: seq<Row>, left: int): (k: nat)
    ensures k <= |rows|
  {
    if rows == [] || left < |rows[0].text| + 1 + RECORD_HEADER_LEN then 0
    else 1 + Fits(rows[1..], left - RecordSize(rows[0]))
  }

  /** Row k finds the room asked for behind the rows before it. */
  ghost predicate HasRoom(rows: seq<Row>, left: int, k: nat)
    requires k < |rows|
  {
    TotalSize(rows[..k]) + |rows[k].text| + 1 + RECORD_HEADER_LEN <= left
  }

  ghost predicate AllHaveRoom(rows: seq<Row>, left: int) {
    forall k :: 0 <= k < |rows| ==> HasRoom(rows, left, k)
  }

  lemma RoomShift(rows: seq<Row>, left: int, k: nat)
    requires k + 1 < |rows|
    ensures HasRoom(rows, left, k + 1) <==> HasRoom(rows[1..], left - RecordSize(rows[0]), k)
  {
    assert rows[..k + 1][1..] == rows[1..][..k];
  }

  /** All rows go into a packet exactly if each finds room. */
  lemma {:induction false} FitsAll(rows: seq<Row>, left: int)
    ensures Fits(rows, left) == |rows| <==> forall k :: 0 <= k < |rows| ==> HasRoom(rows, left, k)
  {
    if rows != [] {
      var rest, room := rows[1..], left - RecordSize(rows[0]);
      FitsAll(rest, room);
      assert HasRoom(rows, left, 0) <==> left >= |rows[0].text| + 1 + RECORD_HEADER_LEN;
      hide HasRoom;
      forall k | 0 <= k < |rest| ensures HasRoom(rows, left, k + 1) <==> HasRoom(rest, room, k) {
        RoomShift(rows, left, k);
      }
      if forall k :: 0 <= k < |rest| ==> HasRoom(rest, room, k) {
        forall k | 1 <= k < |rows| ensures HasRoom(rows, left, k) {
          assert HasRoom(rest, room, k - 1);
        }
      }
      if forall k :: 0 <= k < |rows| ==> HasRoom(rows, left, k) {
        forall k | 0 <= k < |rest| ensures HasRoom(rest, room, k) {
          assert HasRoom(rows, left, k + 1);
        }
      }
    }
  }

  /** The room asked for is not the room used: a friend request with a long text is turned away by an
      empty packet, although its record would take twelve bytes. */
  lemma LongRequestTurnedAway(r: Row)
    requires r.kind != MSG_TYPE_CHAT && |r.text| >= PARAMS_LEN
    ensures RecordSize(r) == 12 && Fits([r], PARAMS_LEN - 2) == 0
  {
  }

  lemma {:induction false} FitsStep(rows: seq<Row>, left: int, k: nat)
    requires k < |rows|
    ensures k <= Fits(rows, left) ==>
              (k < Fits(rows, left) <==> |rows[k].text| + 1 + RECORD_HEADER_LEN <= left - TotalSize(rows[..k]))
  {
    if k > 0 && Fits(rows, left) > 0 {
      FitsStep(rows[1..], left - RecordSize(rows[0]), k - 1);
      assert rows[..k][1..] == rows[1..][..k - 1];
    }
  }

  // ---------------------------------------------------------------- the server packs

  /** What the database answers to a query. */
  datatype Answer = QueryError | NoResult | Result(rows: seq<Row>)

  /** message_get's result: the number of rows it still has to deliver, or -1; NullRow where it looks up
      the lengths of a row that is not there. */
  datatype Fetched = Rows(n: int) | NullRow

  /** A packet that message_packet sends in answer to a request for offline messages. */
  datatype OutPacket = OutPacket(done: bool, len: int, params: seq<byte>)

  ghost predicate AllStorable(rows: seq<Row>) {
    forall k :: 0 <= k < |rows| ==> Storable(rows[k])
  }

  /** A buffer holds a packed list: the count, then the records. */
  ghost predicate Packed(buf: seq<byte>, rows: seq<Row>) {
    |buf| >= 2 && GetU16(buf, 0) == |rows| && RecordsAt(buf, 2, rows)
  }

  method PackRow(buf: array<byte>, off: nat, r: Row)
    requires Storable(r) && off + RecordSize(r) <= buf.Length && ContentLen(r) < 0x1_0000
    modifies buf
    ensures RecordAt(buf[..], off, r)
    ensures Same(buf[..], old(buf[..]), 0, off)
  {
    SetU32(buf, off, r.fromUin);
    ghost var b1 := buf[..];
    SetU16(buf, off + 8, r.kind);
    ghost var b2 := buf[..];
    SetU16(buf, off + 10, ContentLen(r));
    ghost var b3 := buf[..];
    if r.kind == MSG_TYPE_CHAT {
      StrCpy(buf, off + 12, r.text);
    }
    assert Same(buf[..], b3, off, off + 12) && Same(b3, b2, off, off + 10) && Same(b2, b1, off, off + 8);
    hide Same;
    FieldsKept(b1, b2, b3, buf[..], off);
  }

  /** Appends a record to a packed list and counts it. */
  method PackNext(buf: array<byte>, pos: nat, r: Row, count: nat, ghost done: seq<Row>)
    requires Packed(buf[..], done) && |done| == count && count + 1 < 0x1_0000 && pos == 2 + TotalSize(done)
    requires Storable(r) && pos + RecordSize(r) <= buf.Length && ContentLen(r) < 0x1_0000
    modifies buf
    ensures Packed(buf[..], done + [r]) && TotalSize(done + [r]) == TotalSize(done) + RecordSize(r)
  {
    hide RecordsAt, RecordAt, TotalSize;
    ghost var before := buf[..];
    PackRow(buf, pos, r);
    ghost var packed := buf[..];
    SetU16(buf, 0, count + 1);
    PackedAppend(before, packed, buf[..], done, r);
  }

  lemma FieldsKept(b1: seq<byte>, b2: seq<byte>, b3: seq<byte>, b4: seq<byte>, off: nat)
    requires |b1| == |b2| == |b3| == |b4| && off + 12 <= |b1|
    requires Same(b4, b3, off, off + 12) && Same(b3, b2, off, off + 10) && Same(b2, b1, off, off + 8)
    ensures GetU32(b4, off) == GetU32(b1, off) && GetU16(b4, off + 8) == GetU16(b2, off + 8)
    ensures GetU16(b4, off + 10) == GetU16(b3, off + 10)
  {
  }

  /** The rows that the packets hold when not all fit into one: as many as fit, then one is dropped. */
  ghost function Chunks(rows: seq<Row>): seq<seq<Row>> {
    var k := Fits(rows, PARAMS_LEN - 2);
    if k == |rows| then [] else [rows[..k]] + Chunks(rows[k + 1..])
  }

  /** Every chunk followed by one more row. */
  ghost function Interleaved(chunks: seq<seq<Row>>, more: seq<Row>): seq<Row>
    requires |more| == |chunks|
  {
    if chunks == [] then [] else chunks[0] + [more[0]] + Interleaved(chunks[1..], more[1..])
  }

  /** The rows of a request that does not fit into one packet: behind every packet's rows comes one that found
      no room there, which is dropped, and behind the last such row come those that would all have fitted and
      are not sent either. */
  lemma {:induction false} ChunksCover(rows: seq<Row>) returns (dropped: seq<Row>, tail: seq<Row>)
    ensures |dropped| == |Chunks(rows)| && rows == Interleaved(Chunks(rows), dropped) + tail
    ensures (forall i :: 0 <= i < |dropped| ==> DropsNext(Chunks(rows)[i], dropped[i]))
    ensures AllHaveRoom(tail, PARAMS_LEN - 2)
    decreases |rows|
  {
    hide DropsNext, AllHaveRoom, Fits;
    var k := Fits(rows, PARAMS_LEN - 2);
    if k == |rows| {
      AllRoomIfFit(rows);
      dropped, tail := [], rows;
      assert [] + rows == rows;
    } else {
      var rest;
      rest, tail := ChunksCover(rows[k + 1..]);
      FirstChunk(rows);
      dropped := [rows[k]] + rest;
      var first, others := rows[..k], Chunks(rows[k + 1..]);
      assert Chunks(rows) == [first] + others;
      assert Interleaved(Chunks(rows), dropped) == first + [rows[k]] + Interleaved(others, rest);
      assert rows == first + [rows[k]] + rows[k + 1..];
    }
  }

  /** The chunk fits into a packet, and the row finds no room behind it. */
  ghost predicate DropsNext(chunk: seq<Row>, r: Row) {
    AllHaveRoom(chunk, PARAMS_LEN - 2) && TotalSize(chunk) + |r.text| + 1 + RECORD_HEADER_LEN > PARAMS_LEN - 2
  }

  lemma {:induction false} AllRoomIfFit(rows: seq<Row>)
    requires Fits(rows, PARAMS_LEN - 2) == |rows|
    ensures AllHaveRoom(rows, PARAMS_LEN - 2)
  {
    hide HasRoom, Fits;
    FitsAll(rows, PARAMS_LEN - 2);
  }

  lemma {:induction false} FirstChunk(rows: seq<Row>)
    requires Fits(rows, PARAMS_LEN - 2) < |rows|
    ensures var k := Fits(rows, PARAMS_LEN - 2); DropsNext(rows[..k], rows[k])
  {
    hide Fits, AllHaveRoom, TotalSize;
    var k := Fits(rows, PARAMS_LEN - 2);
    FitsPrefix(rows, PARAMS_LEN - 2);
    AllRoomIfFit(rows[..k]);
    FitsStep(rows, PARAMS_LEN - 2, k);
  }

  lemma {:induction false} FitsPrefix(rows: seq<Row>, left: int)
    ensures Fits(rows[..Fits(rows, left)], left) == Fits(rows, left)
  {
    var k := Fits(rows, left);
    if k > 0 {
      FitsPrefix(rows[1..], left - RecordSize(rows[0]));
      assert rows[..k][1..] == rows[1..][..k - 1];
    }
  }

  /** Every packet holds its rows, and says that more are to come. */
  ghost predicate Sent(packets: seq<OutPacket>, chunks: seq<seq<Row>>) {
    && |packets| == |chunks|
    && forall i :: 0 <= i < |packets| ==>
         && !packets[i].done && Packed(packets[i].params, chunks[i])
         && packets[i].len == PACKET_HEADER_LEN + 2 + TotalSize(chunks[i])
  }

  /** The parameters hold as many of the rows as fit, but not all. */
  ghost predicate Filled(params: seq<byte>, sizeleft: int, rows: seq<Row>) {
    var k := Fits(rows, PARAMS_LEN - 2);
    k < |rows| && Packed(params, rows[..k]) && sizeleft == PARAMS_LEN - 2 - TotalSize(rows[..k])
  }

  /** What is left to fetch once a packet is full and the row that found no room is dropped. */
  ghost function Remaining(rows: seq<Row>): seq<Row> {
    var k := Fits(rows, PARAMS_LEN - 2);
    if k < |rows| then rows[k + 1..] else []
  }

  lemma {:induction false} NoChunks(rows: seq<Row>)
    requires Fits(rows, PARAMS_LEN - 2) == |rows|
    ensures Chunks(rows) == []
  {
  }

  lemma {:induction false} NoChunksIfAllFit(rows: seq<Row>)
    ensures Fits(rows, PARAMS_LEN - 2) == |rows| ==> Sent([], Chunks(rows))
  {
  }

  lemma {:induction false} AllRows(rows: seq<Row>)
    ensures rows[..|rows|] == rows && Sent([], []) && [] + Chunks(rows) == Chunks(rows)
  {
  }

  lemma {:induction false} TotalPositive(rows: seq<Row>)
    ensures TotalSize(rows) > 0 <==> rows != []
  {
  }

  lemma {:induction false} SentOneMore(packets: seq<OutPacket>, sent: seq<seq<Row>>, o: OutPacket, chunk: seq<Row>)
    requires Sent(packets, sent)
    requires !o.done && o.len == PACKET_HEADER_LEN + 2 + TotalSize(chunk) && Packed(o.params, chunk)
    ensures Sent(packets + [o], sent + [chunk])
  {
    hide Packed, TotalSize;
  }

  lemma {:induction false} ChunksStep(sent: seq<seq<Row>>, rows: seq<Row>)
    requires Fits(rows, PARAMS_LEN - 2) < |rows|
    ensures sent + Chunks(rows) == (sent + [rows[..Fits(rows, PARAMS_LEN - 2)]]) + Chunks(Remaining(rows))
  {
    hide Fits;
  }

  class MessageDb {
    /** The rows of the last query that have not been fetched, and the number still to be delivered. */
    var cursor: seq<Row>
    var rows: nat

    constructor ()
      ensures cursor == [] && rows == 0
    {
      cursor, rows := [], 0;
    }

    /** The number counted is never too small. It is too large once a fetched row did not fit: the row is
        gone from the result, but still counted. */
    ghost predicate Valid()
      reads this
    {
      |cursor| <= rows && AllStorable(cursor)
    }

    /** Packs as many rows as fit, of a new query if uin is not zero and of the last one otherwise. The
        first row that does not fit is dropped, and with rows left to deliver but none left to fetch the
        code reads through a null pointer. */
    method MessageGet(uin: nat, answer: Answer, buff: array<byte>, pleft: nat) returns (r: Fetched, left: int)
      requires Valid() && 2 <= pleft <= buff.Length && pleft <= PARAMS_LEN
      requires answer.Result? ==> AllStorable(answer.rows)
      modifies this, buff
      ensures Valid()
      ensures uin != 0 && !answer.Result? ==>
                && r == Rows(-1) && left == pleft && buff[..] == old(buff[..])
                && (answer.QueryError? ==> cursor == old(cursor) && rows == old(rows))
                && (answer.NoResult? ==> cursor == [] && rows == 0)
      ensures uin == 0 || answer.Result? ==>
                var c := if uin != 0 then answer.rows else old(cursor);
                var n := if uin != 0 then |answer.rows| else old(rows);
                var k := Fits(c, pleft - 2);
                && Packed(buff[..], c[..k])
                && left == pleft - 2 - TotalSize(c[..k]) && 0 <= left
                && (r == NullRow <==> n > |c| == k)
                && (r != NullRow ==> r == Rows(n - k) && rows == n - k)
                && (cursor == if k < |c| then c[k + 1..] else [])
    {
      left := pleft;
      if uin != 0 {
        match answer {
          case QueryError =>
            return Rows(-1), left;
          case NoResult =>
            cursor, rows := [], 0;
            return Rows(-1), left;
          case Result(result) =>
            cursor, rows := result, |result|;
        }
      }
      r, left := PackRows(buff, left);
    }

    /** Packs what the last query still has to deliver. */
    method PackRows(buff: array<byte>, pleft: nat) returns (r: Fetched, left: int)
      requires Valid() && 2 <= pleft <= buff.Length && pleft <= PARAMS_LEN
      modifies this, buff
      ensures Valid()
      ensures var c, n := old(cursor), old(rows);
              var k := Fits(c, pleft - 2);
              && Packed(buff[..], c[..k])
              && left == pleft - 2 - TotalSize(c[..k]) && 0 <= left
              && (r == NullRow <==> n > |c| == k)
              && (r != NullRow ==> r == Rows(n - k) && rows == n - k)
              && (cursor == if k < |c| then c[k + 1..] else [])
    {
      hide Packed, TotalSize, Fits, AllStorable, Storable;
      ghost var c, n := cursor, rows;
      var count, pos := 0, 2;
      SetU16(buff, 0, 0);
      left := pleft - 2;
      NothingPacked(buff[..], c);
      while rows > 0
        invariant 0 <= count <= |c| <= n && count <= Fits(c, pleft - 2)
        invariant AllStorable(c) && AllStorable(cursor) && cursor == c[count..] && rows == n - count
        invariant Packed(buff[..], c[..count]) && pos == 2 + TotalSize(c[..count]) && left == pleft - pos
        invariant 0 <= left && 12 * count <= pos
        decreases rows
      {
        if cursor == [] {
          return NullRow, left;
        }
        NextRow(c, count);
        StorableTail(c, count);
        var row := cursor[0];
        cursor := cursor[1..];
        FitsStep(c, pleft - 2, count);
        if left < |row.text| + 1 + RECORD_HEADER_LEN {
          return Rows(rows), left;
        }
        PackNext(buff, pos, row, count, c[..count]);
        count, pos, left, rows := count + 1, pos + RecordSize(row), left - RecordSize(row), rows - 1;
      }
      assert c[..count] == c[..Fits(c, pleft - 2)];
      r := Rows(rows);
    }

    /** Answers a request for the offline messages of uin: sends packets until no row is left, and deletes
        the messages if there were any. It comes to an end exactly if the first packet takes all rows;
        otherwise every row that finds no room is dropped, and the packets hold the rows between them. A
        request in the name of user 0 asks nothing of the database and goes on with the last query. */
    method OfflineRequest(uin: nat, answer: Answer, params: array<byte>)
      returns (r: Fetched, packets: seq<OutPacket>, deleted: bool)
      requires Valid() && params.Length == PARAMS_LEN && (answer.Result? ==> AllStorable(answer.rows))
      modifies this, params
      ensures uin != 0 && !answer.Result? ==> r == Rows(-1) && packets == [] && !deleted
      ensures uin == 0 || answer.Result? ==>
                var c := if uin != 0 then answer.rows else old(cursor);
                var n := if uin != 0 then |answer.rows| else old(rows);
                if Fits(c, PARAMS_LEN - 2) == |c| == n then
                  && r == Rows(0) && |packets| == 1 && packets[0].done && Packed(packets[0].params, c)
                  && packets[0].len == PACKET_HEADER_LEN + 2 + TotalSize(c) <= MAX_PACKET_LEN
                  && (deleted <==> c != [])
                else
                  r == NullRow && !deleted && Sent(packets, Chunks(c))
    {
      hide Packed, TotalSize, Sent, Fits, Chunks, AllStorable;
      packets, deleted := [], false;
      ghost var all := if uin != 0 && answer.Result? then answer.rows else cursor;
      ghost var n := if uin != 0 && answer.Result? then |answer.rows| else rows;
      var sizeleft;
      r, sizeleft := MessageGet(uin, answer, params, PARAMS_LEN);
      AllRows(all);
      if r.NullRow? || r.n < 0 {
        NoChunksIfAllFit(all);
        return;
      }
      ghost var sent, rest := [], all;
      while r.n > 0
        invariant Valid() && r.Rows? && n >= |all|
        invariant if Fits(all, PARAMS_LEN - 2) == |all|
                  then n == |all| && r.n == 0 && packets == [] && Packed(params[..], all)
                       && sizeleft == PARAMS_LEN - 2 - TotalSize(all) && 0 <= sizeleft
                  else r.n > 0 && rows > |cursor| && cursor == Remaining(rest) && Filled(params[..], sizeleft, rest)
                       && Sent(packets, sent) && sent + Chunks(rest) == Chunks(all)
        decreases |cursor|
      {
        ghost var chunk := rest[..Fits(rest, PARAMS_LEN - 2)];
        var outpack := OutPacket(false, PACKET_HEADER_LEN + PARAMS_LEN - sizeleft, params[..]);
        SentOneMore(packets, sent, outpack, chunk);
        ChunksStep(sent, rest);
        packets, sent, rest := packets + [outpack], sent + [chunk], Remaining(rest);
        r, sizeleft := MessageGet(0, QueryError, params, PARAMS_LEN);
        if r.NullRow? || r.n < 0 {
          NoChunks(rest);
          assert sent + [] == sent;
          return;
        }
      }
      var outpack := OutPacket(true, PACKET_HEADER_LEN + PARAMS_LEN - sizeleft, params[..]);
      packets := packets + [outpack];
      deleted := outpack.len > 14;
      TotalPositive(all);
    }
  }

  lemma NothingPacked(buf: seq<byte>, c: seq<Row>)
    requires |buf| >= 2 && GetU16(buf, 0) == 0
    ensures Packed(buf, c[..0]) && TotalSize(c[..0]) == 0
  {
    assert c[..0] == [];
  }

  lemma StorableTail(c: seq<Row>, count: nat)
    requires count < |c| && AllStorable(c)
    ensures Storable(c[count]) && AllStorable(c[count + 1..])
  {
  }

  lemma NextRow(c: seq<Row>, count: nat)
    requires count < |c|
    ensures c[..count + 1] == c[..count] + [c[count]] && c[count..][1..] == c[count + 1..]
  {
  }

  lemma {:induction false} PackedAppend(before: seq<byte>, packed: seq<byte>, after: seq<byte>, rows: seq<Row>, r: Row)
    requires |before| == |packed| == |after| && Packed(before, rows) && 2 + TotalSize(rows) + RecordSize(r) <= |after|
    requires Same(packed, before, 0, 2 + TotalSize(rows)) && RecordAt(packed, 2 + TotalSize(rows), r)
    requires Same(after, packed, 2, |after|) && GetU16(after, 0) == |rows| + 1
    ensures Packed(after, rows + [r]) && TotalSize(rows + [r]) == TotalSize(rows) + RecordSize(r)
  {
    hide RecordsAt, RecordAt, TotalSize, GetU16;
    RecordsElsewhere(before, after, 2, rows);
    RecordElsewhere(packed, after, 2 + TotalSize(rows), r);
    RecordsAppend(after, 2, rows, r);
  }
}
