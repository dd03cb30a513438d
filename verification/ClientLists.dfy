/** The client's side of the packed lists: it walks the records of a packet and files what it finds. */
module ClientLists {
  import opened Protocol
  import opened Framing
  import opened Codec
  import opened ContactCodec

  // ---------------------------------------------------------------- messages

  /** A message as the client keeps it; without text it has no buffer at all. */
  datatype Received = NoText(uin: nat, kind: nat) | WithText(uin: nat, kind: nat, text: seq<byte>)

  /** The record at p lies within the buffer. */
  ghost predicate RecordWithin(buf: seq<byte>, p: nat) {
    p + RECORD_HEADER_LEN <= |buf| && p + RECORD_HEADER_LEN + GetU16(buf, p + 10) <= |buf|
  }

  /** A buffer of len bytes with a terminator forced into its last one. */
  function Terminated(s: seq<byte>): seq<byte>
    requires s != []
  {
    s[|s| - 1 := 0]
  }

  function Decode(buf: seq<byte>, p: nat): Received
    requires RecordWithin(buf, p)
  {
    var n := GetU16(buf, p + 10);
    if n > 0 then WithText(GetU32(buf, p), GetU16(buf, p + 8), Terminated(buf[p + 12..p + 12 + n]))
    else NoText(GetU32(buf, p), GetU16(buf, p + 8))
  }

  function NextPtr(buf: seq<byte>, p: nat): (q: nat)
    requires RecordWithin(buf, p)
    ensures p + RECORD_HEADER_LEN <= q <= |buf|
  {
    p + RECORD_HEADER_LEN + GetU16(buf, p + 10)
  }

  ghost predicate Walkable(buf: seq<byte>, p: nat, count: nat)
    decreases count
  {
    count == 0 || (RecordWithin(buf, p) && Walkable(buf, NextPtr(buf, p), count - 1))
  }

  ghost function Walk(buf: seq<byte>, p: nat, count: nat): (r: seq<Received>)
    requires Walkable(buf, p, count)
    ensures |r| == count
    decreases count
  {
    if count == 0 then [] else [Decode(buf, p)] + Walk(buf, NextPtr(buf, p), count - 1)
  }

  /** What the client makes of a row: the text of a chat message comes back whole. */
  ghost function Recovered(r: Row): Received {
    if r.kind == MSG_TYPE_CHAT then WithText(r.fromUin, r.kind, r.text + [0]) else NoText(r.fromUin, r.kind)
  }

  ghost function RecoveredAll(rows: seq<Row>): seq<Received> {
    seq(|rows|, i requires 0 <= i < |rows| => Recovered(rows[i]))
  }

  lemma RecordRoundTrip(buf: seq<byte>, p: nat, r: Row)
    requires RecordAt(buf, p, r)
    ensures RecordWithin(buf, p) && Decode(buf, p) == Recovered(r) && NextPtr(buf, p) == p + RecordSize(r)
  {
    if r.kind == MSG_TYPE_CHAT {
      var s := r.text + [0];
      assert buf[p + 12..p + 12 + GetU16(buf, p + 10)] == s && Terminated(s) == s;
    }
  }

  /** The client finds in a packed buffer exactly the rows the server packed, in order. */
  lemma {:induction false} WalkRecovers(buf: seq<byte>, p: nat, rows: seq<Row>)
    requires RecordsAt(buf, p, rows)
    ensures Walkable(buf, p, |rows|) && Walk(buf, p, |rows|) == RecoveredAll(rows)
    decreases |rows|
  {
    if rows != [] {
      RecordRoundTrip(buf, p, rows[0]);
      WalkRecovers(buf, p + RecordSize(rows[0]), rows[1..]);
      assert RecoveredAll(rows) == [Recovered(rows[0])] + RecoveredAll(rows[1..]);
    }
  }

  function Filed(m: map<nat, seq<Received>>, u: nat): seq<Received> {
    if u in m then m[u] else []
  }

  function File(m: map<nat, seq<Received>>, r: Received): map<nat, seq<Received>> {
    m[r.uin := Filed(m, r.uin) + [r]]
  }

  ghost function FileAll(m: map<nat, seq<Received>>, rs: seq<Received>): map<nat, seq<Received>>
    decreases |rs|
  {
    if rs == [] then m else FileAll(File(m, rs[0]), rs[1..])
  }

  /** The messages from one sender. */
  ghost function From(rs: seq<Received>, u: nat): seq<Received> {
    if rs == [] then []
    else if rs[0].uin == u then [rs[0]] + From(rs[1..], u)
    else From(rs[1..], u)
  }

  /** Each sender's messages are appended in order, and no other sender's list changes. */
  lemma {:induction false} FiledBySender(m: map<nat, seq<Received>>, rs: seq<Received>, u: nat)
    ensures Filed(FileAll(m, rs), u) == Filed(m, u) + From(rs, u)
    ensures u in FileAll(m, rs) <==> u in m || From(rs, u) != []
    decreases |rs|
  {
    if rs == [] {
      assert Filed(m, u) + [] == Filed(m, u);
    } else {
      FiledBySender(File(m, rs[0]), rs[1..], u);
      assert (Filed(m, u) + [rs[0]]) + From(rs[1..], u) == Filed(m, u) + ([rs[0]] + From(rs[1..], u));
    }
  }

  // ---------------------------------------------------------------- contacts

  datatype Entry = Entry(uin: nat, isOnline: nat, nick: seq<byte>)

  /** A contact's record lies within the buffer, and its nickname with terminator fits the client's. */
  predicate ContactWithin(buf: seq<byte>, p: nat) {
    && p + CONTACT_HEADER_LEN <= |buf|
    && 1 <= GetU16(buf, p + 6) <= MAX_NICK_LENGTH + 1
    && p + CONTACT_HEADER_LEN + GetU16(buf, p + 6) <= |buf|
  }

  /** The entry a record gives; its nickname is what stands in front of the forced terminator. */
  function ReadContact(buf: seq<byte>, p: nat): Entry
    requires ContactWithin(buf, p)
  {
    Entry(GetU32(buf, p), GetU16(buf, p + 4), buf[p + 8..p + 8 + GetU16(buf, p + 6) - 1])
  }

  function NextContact(buf: seq<byte>, p: nat): nat
    requires ContactWithin(buf, p)
  {
    p + CONTACT_HEADER_LEN + GetU16(buf, p + 6)
  }

  ghost predicate ContactsWalkable(buf: seq<byte>, p: nat, count: nat)
    decreases count
  {
    count == 0 || (ContactWithin(buf, p) && ContactsWalkable(buf, NextContact(buf, p), count - 1))
  }

  ghost function WalkContacts(buf: seq<byte>, p: nat, count: nat): (r: seq<Entry>)
    requires ContactsWalkable(buf, p, count)
    ensures |r| == count
    decreases count
  {
    if count == 0 then [] else [ReadContact(buf, p)] + WalkContacts(buf, NextContact(buf, p), count - 1)
  }

  /** How many of the contacts can be read before one cannot. */
  ghost function Readable(buf: seq<byte>, p: nat, count: nat): (n: nat)
    ensures n <= count && ContactsWalkable(buf, p, n)
    ensures n == count <==> ContactsWalkable(buf, p, count)
    decreases count
  {
    if count == 0 || !ContactWithin(buf, p) then 0 else 1 + Readable(buf, NextContact(buf, p), count - 1)
  }

  ghost predicate AllKnown(cs: seq<Contact>) {
    forall k :: 0 <= k < |cs| ==> cs[k].known && |cs[k].nick| <= MAX_NICK_LENGTH
  }

  ghost function EntriesFor(cs: seq<Contact>): seq<Entry> {
    seq(|cs|, i requires 0 <= i < |cs| => Entry(cs[i].uin, cs[i].stat, cs[i].nick))
  }

  /** The client can read a contact exactly when the user database knows it and its nickname fits. */
  lemma ContactRoundTrip(buf: seq<byte>, p: nat, c: Contact)
    requires ContactAt(buf, p, c)
    ensures ContactWithin(buf, p) <==> c.known && |c.nick| <= MAX_NICK_LENGTH
    ensures ContactWithin(buf, p) ==>
              NextContact(buf, p) == p + ContactSize(c) && ReadContact(buf, p) == Entry(c.uin, c.stat, c.nick)
  {
    var n := NickLen(c);
    if c.known {
      assert buf[p + 8..p + 8 + n - 1] == buf[p + 8..p + 8 + n][..n - 1] == (c.nick + [0])[..n - 1] == c.nick;
    }
  }

  /** The client gets through a packet's contacts exactly when the user database knows them all, and then
      finds the contacts the server packed, in order. */
  lemma {:induction false} WalkContactsRecovers(buf: seq<byte>, p: nat, cs: seq<Contact>)
    requires ContactsAt(buf, p, cs)
    ensures ContactsWalkable(buf, p, |cs|) <==> AllKnown(cs)
    ensures AllKnown(cs) ==> WalkContacts(buf, p, |cs|) == EntriesFor(cs)
    decreases |cs|
  {
    if cs != [] {
      ContactRoundTrip(buf, p, cs[0]);
      if ContactWithin(buf, p) {
        WalkContactsRecovers(buf, p + ContactSize(cs[0]), cs[1..]);
        assert AllKnown(cs) <==> AllKnown(cs[1..]);
        assert EntriesFor(cs) == [Entry(cs[0].uin, cs[0].stat, cs[0].nick)] + EntriesFor(cs[1..]);
      }
    }
  }

  function Without(es: seq<Entry>, u: nat): seq<Entry> {
    if es == [] then []
    else if es[0].uin == u then Without(es[1..], u)
    else [es[0]] + Without(es[1..], u)
  }

  /** An entry already known moves to the end of the contact list with its new contents. */
  function Refresh(es: seq<Entry>, e: Entry): seq<Entry> {
    Without(es, e.uin) + [e]
  }

  ghost function RefreshAll(es: seq<Entry>, news: seq<Entry>): seq<Entry>
    decreases |news|
  {
    if news == [] then es else RefreshAll(Refresh(es, news[0]), news[1..])
  }

  ghost predicate Distinct(es: seq<Entry>) {
    forall i, j :: 0 <= i < j < |es| ==> es[i].uin != es[j].uin
  }

  lemma {:induction false} WithoutMembers(es: seq<Entry>, u: nat)
    requires Distinct(es)
    ensures Distinct(Without(es, u))
    ensures forall i :: 0 <= i < |Without(es, u)| ==> Without(es, u)[i].uin != u && Without(es, u)[i] in es
  {
    if es != [] {
      WithoutMembers(es[1..], u);
      assert forall i :: 0 <= i < |es[1..]| ==> es[1..][i] == es[i + 1];
    }
  }

  /** The contact list never holds a user twice. */
  lemma RefreshKeepsDistinct(es: seq<Entry>, e: Entry)
    requires Distinct(es)
    ensures Distinct(Refresh(es, e))
  {
    WithoutMembers(es, e.uin);
  }

  ghost predicate Mentions(es: seq<Entry>, u: nat) {
    es != [] && (es[0].uin == u || Mentions(es[1..], u))
  }

  /** The entries that a list of new ones does not mention. */
  ghost function Unmentioned(es: seq<Entry>, news: seq<Entry>): seq<Entry> {
    if es == [] then []
    else if Mentions(news, es[0].uin) then Unmentioned(es[1..], news)
    else [es[0]] + Unmentioned(es[1..], news)
  }

  lemma {:induction false} WithoutUnmentioned(es: seq<Entry>, e: Entry, rest: seq<Entry>)
    ensures Unmentioned(Without(es, e.uin), rest) == Unmentioned(es, [e] + rest)
  {
    if es != [] {
      WithoutUnmentioned(es[1..], e, rest);
      assert ([e] + rest)[1..] == rest;
      if es[0].uin != e.uin {
        assert Without(es, e.uin)[1..] == Without(es[1..], e.uin);
      }
    }
  }

  /** The last entry of every user. */
  ghost function Latest(news: seq<Entry>): seq<Entry> {
    if news == [] then []
    else (if Mentions(news[1..], news[0].uin) then [] else [news[0]]) + Latest(news[1..])
  }

  lemma {:induction false} LatestOfDistinct(news: seq<Entry>)
    requires Distinct(news)
    ensures Latest(news) == news
  {
    if news != [] {
      LatestOfDistinct(news[1..]);
      NotMentioned(news[1..], news[0].uin);
    }
  }

  lemma {:induction false} NotMentioned(es: seq<Entry>, u: nat)
    requires forall i :: 0 <= i < |es| ==> es[i].uin != u
    ensures !Mentions(es, u)
  {
    if es != [] {
      NotMentioned(es[1..], u);
    }
  }

  lemma {:induction false} UnmentionedAppend(es: seq<Entry>, e: Entry, news: seq<Entry>)
    ensures Unmentioned(es + [e], news) == Unmentioned(es, news) + if Mentions(news, e.uin) then [] else [e]
  {
    if es != [] {
      assert (es + [e])[1..] == es[1..] + [e];
      UnmentionedAppend(es[1..], e, news);
    }
  }

  lemma {:induction false} UnmentionedNone(es: seq<Entry>)
    ensures Unmentioned(es, []) == es
  {
    if es != [] {
      UnmentionedNone(es[1..]);
    }
  }

  /** Reading contact information keeps the other contacts in their order and puts those of the packet
      behind them, each with its last contents and at its last place in the packet. */
  lemma {:induction false} RefreshedList(es: seq<Entry>, news: seq<Entry>)
    ensures RefreshAll(es, news) == Unmentioned(es, news) + Latest(news)
    decreases |news|
  {
    if news == [] {
      UnmentionedNone(es);
      assert es + [] == es;
    } else {
      var e, rest := news[0], news[1..];
      assert news == [e] + rest;
      RefreshedList(Refresh(es, e), rest);
      UnmentionedAppend(Without(es, e.uin), e, rest);
      WithoutUnmentioned(es, e, rest);
      var kept := if Mentions(rest, e.uin) then [] else [e];
      assert (Unmentioned(es, news) + kept) + Latest(rest) == Unmentioned(es, news) + (kept + Latest(rest));
    }
  }

  // ---------------------------------------------------------------- the client

  class ClientUser {
    /** Messages by sender, and the contacts in the order in which they were added. */
    var msgMap: map<nat, seq<Received>>
    var contacts: seq<Entry>

    constructor ()
      ensures msgMap == map[] && contacts == []
    {
      msgMap, contacts := map[], [];
    }

    /** Files the message whose record starts at p, under its sender. */
    method ReadMessageFromBuffer(buf: seq<byte>, p: nat)
      requires RecordWithin(buf, p)
      modifies this`msgMap
      ensures msgMap == File(old(msgMap), Decode(buf, p))
    {
      var uin := GetU32(buf, p);
      if uin !in msgMap {
        msgMap := msgMap[uin := []];
      }
      var msgLen := GetU16(buf, p + 10);
      var msg;
      if msgLen > 0 {
        var text := buf[p + 12..p + 12 + msgLen];
        msg := WithText(uin, GetU16(buf, p + 8), text[msgLen - 1 := 0]);
      } else {
        msg := NoText(uin, GetU16(buf, p + 8));
      }
      msgMap := msgMap[uin := msgMap[uin] + [msg]];
    }

    /** Files all messages of a packet's parameters. */
    method ReadOfflineMsg(buf: seq<byte>)
      requires |buf| >= 2 && Walkable(buf, 2, GetU16(buf, 0))
      modifies this`msgMap
      ensures msgMap == FileAll(old(msgMap), Walk(buf, 2, GetU16(buf, 0)))
    {
      var count := GetU16(buf, 0);
      var ptr := 2;
      ghost var all := Walk(buf, 2, count);
      hide File, Decode, RecordWithin, NextPtr;
      for i := 0 to count
        invariant Walkable(buf, ptr, count - i)
        invariant FileAll(msgMap, Walk(buf, ptr, count - i)) == FileAll(old(msgMap), all)
      {
        ReadMessageFromBuffer(buf, ptr);
        assert Walk(buf, ptr, count - i)[1..] == Walk(buf, NextPtr(buf, ptr), count - i - 1);
        ptr := NextPtr(buf, ptr);
      }
    }

    /** Takes over one contact; an entry of that user is removed from the table and added again. With a
        nickname of length 0 or one that is too long, the program writes outside the entry's nickname. */
    method ReadContactInfo(buf: seq<byte>, ptr: nat) returns (inside: bool)
      modifies this`contacts
      ensures inside <==> ContactWithin(buf, ptr)
      ensures contacts == if inside then Refresh(old(contacts), ReadContact(buf, ptr)) else old(contacts)
    {
      inside := ContactWithin(buf, ptr);
      if inside {
        var uin := GetU32(buf, ptr);
        var nickLen := GetU16(buf, ptr + 6);
        var nick := buf[ptr + 8..ptr + 8 + nickLen];
        contacts := Without(contacts, uin) + [Entry(uin, GetU16(buf, ptr + 4), nick[..nickLen - 1])];
        assert nick[..nickLen - 1] == buf[ptr + 8..ptr + 8 + nickLen - 1];
      }
    }

    /** Takes over the contacts of a packet's parameters, up to the first that cannot be read. */
    method ReadContactInfoMulti(buf: seq<byte>) returns (inside: bool)
      requires |buf| >= 2
      modifies this`contacts
      ensures inside <==> ContactsWalkable(buf, 2, GetU16(buf, 0))
      ensures contacts == RefreshAll(old(contacts), WalkContacts(buf, 2, Readable(buf, 2, GetU16(buf, 0))))
    {
      hide *;
      var count := GetU16(buf, 0);
      var ptr := 2;
      ghost var all := WalkContacts(buf, 2, Readable(buf, 2, count));
      for i := 0 to count
        invariant ContactsWalkable(buf, ptr, count - i) <==> ContactsWalkable(buf, 2, count)
        invariant RefreshAll(contacts, WalkContacts(buf, ptr, Readable(buf, ptr, count - i)))
               == RefreshAll(old(contacts), all)
      {
        ReadOneMore(contacts, buf, ptr, count - i);
        inside := ReadContactInfo(buf, ptr);
        if !inside {
          return;
        }
        ptr := NextContact(buf, ptr);
      }
      ReadNoMore(contacts, buf, ptr);
      inside := true;
    }
  }

  /** Reading the contacts in turn: the first one, if it can be read, and the others after it. */
  lemma ReadOneMore(es: seq<Entry>, buf: seq<byte>, p: nat, count: nat)
    requires count > 0
    ensures ContactsWalkable(buf, p, count)
       <==> ContactWithin(buf, p) && ContactsWalkable(buf, NextContact(buf, p), count - 1)
    ensures RefreshAll(es, WalkContacts(buf, p, Readable(buf, p, count)))
         == if !ContactWithin(buf, p) then es
            else var next := NextContact(buf, p);
                 RefreshAll(Refresh(es, ReadContact(buf, p)), WalkContacts(buf, next, Readable(buf, next, count - 1)))
  {
    hide ContactWithin, ReadContact, NextContact, Refresh;
    if ContactWithin(buf, p) {
      var n := Readable(buf, p, count);
      assert WalkContacts(buf, p, n)[1..] == WalkContacts(buf, NextContact(buf, p), n - 1);
    }
  }

  lemma {:induction false} ReadNoMore(es: seq<Entry>, buf: seq<byte>, p: nat)
    ensures RefreshAll(es, WalkContacts(buf, p, Readable(buf, p, 0))) == es && ContactsWalkable(buf, p, 0)
  {
  }

  // ---------------------------------------------------------------- from the server to the client

  /** What the server packed arrives at the client in the first len - PACKET_HEADER_LEN bytes of the
      parameters; the client files every row under its sender, in the order of the database. */
  lemma {:induction false} OfflineRoundTrip(sent: seq<byte>, received: seq<byte>, rows: seq<Row>,
                                            m: map<nat, seq<Received>>, u: nat)
    requires Packed(sent, rows) && Same(sent, received, 0, 2 + TotalSize(rows))
    ensures |received| >= 2 && GetU16(received, 0) == |rows| && Walkable(received, 2, |rows|)
    ensures Filed(FileAll(m, Walk(received, 2, |rows|)), u) == Filed(m, u) + From(RecoveredAll(rows), u)
  {
    RecordsElsewhere(sent, received, 2, rows);
    WalkRecovers(received, 2, rows);
    FiledBySender(m, RecoveredAll(rows), u);
  }

  /** The same for contact information: the client gets through it exactly when the user database knows
      every contact, and then its list is the other contacts followed by the packet's. */
  lemma {:induction false} ContactsRoundTrip(sent: seq<byte>, received: seq<byte>, cs: seq<Contact>, es: seq<Entry>)
    requires |sent| >= 2 && GetU16(sent, 0) == |cs| && ContactsAt(sent, 2, cs)
    requires Same(sent, received, 0, 2 + ContactsSize(cs))
    ensures |received| >= 2 && GetU16(received, 0) == |cs|
    ensures ContactsWalkable(received, 2, |cs|) <==> AllKnown(cs)
    ensures AllKnown(cs) ==>
              RefreshAll(es, WalkContacts(received, 2, |cs|))
              == Unmentioned(es, EntriesFor(cs)) + Latest(EntriesFor(cs))
    ensures Distinct(EntriesFor(cs)) ==> Latest(EntriesFor(cs)) == EntriesFor(cs)
  {
    ContactsElsewhere(sent, received, 2, cs);
    WalkContactsRecovers(received, 2, cs);
    RefreshedList(es, EntriesFor(cs));
    if Distinct(EntriesFor(cs)) {
      LatestOfDistinct(EntriesFor(cs));
    }
  }

  /** And from the status reply and the nicknames that the packet was made of. */
  lemma {:induction false} StatusRoundTrip(sent: seq<byte>, stats: seq<StatusInfo>, nicks: map<nat, Text>)
    requires |sent| >= 2 && GetU16(sent, 0) == |stats| && ContactsAt(sent, 2, ContactsFor(stats, nicks))
    ensures ContactsWalkable(sent, 2, |stats|)
       <==> forall k :: 0 <= k < |stats| ==> stats[k].uin in nicks && |nicks[stats[k].uin]| <= MAX_NICK_LENGTH
    ensures ContactsWalkable(sent, 2, |stats|) ==>
              forall k :: 0 <= k < |stats| ==>
                stats[k].uin in nicks
                && WalkContacts(sent, 2, |stats|)[k] == Entry(stats[k].uin, stats[k].stat, nicks[stats[k].uin])
  {
    hide ContactsAt, ContactsWalkable, WalkContacts;
    WalkContactsRecovers(sent, 2, ContactsFor(stats, nicks));
  }

  /** The server packs the contacts of a status reply, and the client takes them over. If all find room, the
      client gets through exactly if every user has a nickname that fits, and then lists them behind its other
      contacts with their status and nickname. */
  method RefreshContacts(stats: seq<StatusInfo>, nicks: map<nat, Text>, params: array<byte>, client: ClientUser)
    returns (packed: bool, inside: bool, ghost news: seq<Entry>)
    requires |stats| < 0x1_0000 && params.Length >= 2
    requires forall k :: 0 <= k < |stats| ==> stats[k].uin < 0x1_0000_0000 && stats[k].stat < 0x1_0000
    requires forall u :: u in nicks ==> |nicks[u]| < 0xFFFF
    modifies params, client`contacts
    ensures packed <==> 2 + WireSize(stats, nicks) <= params.Length
    ensures packed ==>
              (inside <==>
                 forall k :: 0 <= k < |stats| ==> stats[k].uin in nicks && |nicks[stats[k].uin]| <= MAX_NICK_LENGTH)
    ensures packed && inside ==>
              && |news| == |stats|
              && (forall k :: 0 <= k < |stats| ==>
                    stats[k].uin in nicks && news[k] == Entry(stats[k].uin, stats[k].stat, nicks[stats[k].uin]))
              && client.contacts == Unmentioned(old(client.contacts), news) + Latest(news)
  {
    hide ContactsAt, ContactsWalkable, WalkContacts, RefreshAll, Unmentioned, Latest, ContactsSize, ContactFor;
    var len, n := GetContactsInfo(stats, nicks, params);
    packed, inside, news := n == |stats|, false, [];
    WireSizeIsSize(stats, nicks);
    if packed {
      var sent := params[..];
      assert ContactsFor(stats, nicks)[..n] == ContactsFor(stats, nicks);
      StatusRoundTrip(sent, stats, nicks);
      news := if ContactsWalkable(sent, 2, |stats|) then WalkContacts(sent, 2, |stats|) else [];
      ghost var was := client.contacts;
      inside := client.ReadContactInfoMulti(sent);
      RefreshedList(was, news);
    }
  }

  /** The bytes that the contacts of a status reply take: eight, and for a known user the nickname and its
      terminator. */
  ghost function WireSize(stats: seq<StatusInfo>, nicks: map<nat, Text>): nat {
    if stats == [] then 0
    else (if stats[0].uin in nicks then 8 + |nicks[stats[0].uin]| + 1 else 8) + WireSize(stats[1..], nicks)
  }

  lemma {:induction false} WireSizeIsSize(stats: seq<StatusInfo>, nicks: map<nat, Text>)
    ensures WireSize(stats, nicks) == ContactsSize(ContactsFor(stats, nicks))
  {
    if stats != [] {
      WireSizeIsSize(stats[1..], nicks);
      assert ContactsFor(stats, nicks)[1..] == ContactsFor(stats[1..], nicks);
    }
  }
}
