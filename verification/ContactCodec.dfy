/** The contact information packet as the friend module packs it. */
module ContactCodec {
  import opened Protocol
  import opened Framing
  import opened Codec

  /** A contact: whether it is online, and its nickname if the user database knows it. */
  datatype Contact = Contact(uin: nat, stat: nat, known: bool, nick: Text)

  /** A user's status as the status module reports it. */
  datatype StatusInfo = StatusInfo(uin: nat, stat: nat)

  ghost predicate Packable(c: Contact) {
    c.uin < 0x1_0000_0000 && c.stat < 0x1_0000 && NickLen(c) < 0x1_0000
  }

  function NickLen(c: Contact): nat {
    if c.known then |c.nick| + 1 else 0
  }

  function ContactSize(c: Contact): nat {
    CONTACT_HEADER_LEN + NickLen(c)
  }

  function ContactsSize(cs: seq<Contact>): nat {
    if cs == [] then 0 else ContactSize(cs[0]) + ContactsSize(cs[1..])
  }

  ghost predicate ContactAt(buf: seq<byte>, off: nat, c: Contact) {
    && off + ContactSize(c) <= |buf|
    && GetU32(buf, off) == c.uin
    && GetU16(buf, off + 4) == c.stat
    && GetU16(buf, off + 6) == NickLen(c)
    && (c.known ==> buf[off + 8..off + 8 + NickLen(c)] == c.nick + [0])
  }

  ghost predicate ContactsAt(buf: seq<byte>, off: nat, cs: seq<Contact>)
    decreases |cs|
  {
    cs == [] || (ContactAt(buf, off, cs[0]) && ContactsAt(buf, off + ContactSize(cs[0]), cs[1..]))
  }

  lemma ContactElsewhere(a: seq<byte>, b: seq<byte>, off: nat, c: Contact)
    requires ContactAt(a, off, c) && Same(a, b, off, off + ContactSize(c))
    ensures ContactAt(b, off, c)
  {
    if c.known {
      assert a[off + 8..off + 8 + NickLen(c)] == b[off + 8..off + 8 + NickLen(c)];
    }
  }

  lemma {:induction false} ContactsElsewhere(a: seq<byte>, b: seq<byte>, off: nat, cs: seq<Contact>)
    requires ContactsAt(a, off, cs) && Same(a, b, off, off + ContactsSize(cs))
    ensures ContactsAt(b, off, cs)
    decreases |cs|
  {
    if cs != [] {
      ContactElsewhere(a, b, off, cs[0]);
      ContactsElsewhere(a, b, off + ContactSize(cs[0]), cs[1..]);
    }
  }

  lemma {:induction false} ContactsAppend(buf: seq<byte>, off: nat, cs: seq<Contact>, c: Contact)
    requires ContactsAt(buf, off, cs) && ContactAt(buf, off + ContactsSize(cs), c)
    ensures ContactsAt(buf, off, cs + [c])
    decreases |cs|
  {
    if cs != [] {
      assert (cs + [c])[1..] == cs[1..] + [c];
      ContactsAppend(buf, off + ContactSize(cs[0]), cs[1..], c);
    }
  }

  lemma {:induction false} SizeAppend(cs: seq<Contact>, ds: seq<Contact>)
    ensures ContactsSize(cs + ds) == ContactsSize(cs) + ContactsSize(ds)
  {
    if cs == [] {
      assert cs + ds == ds;
    } else {
      assert (cs + ds)[1..] == cs[1..] + ds;
      SizeAppend(cs[1..], ds);
    }
  }

  lemma {:induction false} PrefixSizes(cs: seq<Contact>, i: nat)
    requires i < |cs|
    ensures cs[..i + 1] == cs[..i] + [cs[i]]
    ensures ContactsSize(cs[..i + 1]) == ContactsSize(cs[..i]) + ContactSize(cs[i]) <= ContactsSize(cs)
  {
    SizeAppend(cs[..i], [cs[i]]);
    SizeAppend(cs[..i + 1], cs[i + 1..]);
    assert cs[..i + 1] + cs[i + 1..] == cs;
  }

  // ---------------------------------------------------------------- how many contacts fit

  ghost predicate NicksWithin(cs: seq<Contact>) {
    forall k :: 0 <= k < |cs| ==> |cs[k].nick| <= MAX_NICK_LENGTH
  }

  lemma {:induction false} SizeBound(cs: seq<Contact>)
    requires NicksWithin(cs)
    ensures ContactsSize(cs) <= 40 * |cs|
  {
    if cs != [] {
      SizeBound(cs[1..]);
    }
  }

  lemma {:induction false} LongestSize(n: nat, c: Contact)
    requires c.known && |c.nick| == MAX_NICK_LENGTH
    ensures ContactsSize(seq(n, i => c)) == 40 * n
  {
    if n > 0 {
      LongestSize(n - 1, c);
      assert seq(n, i => c)[1..] == seq(n - 1, i => c);
    }
  }

  /** 125 contacts are the most that always fit into a packet; a client asks for 100 at a time. */
  lemma AlwaysFits(n: nat)
    ensures (forall cs: seq<Contact> :: |cs| == n && NicksWithin(cs) ==>
               PACKET_HEADER_LEN + 2 + ContactsSize(cs) <= MAX_PACKET_LEN)
        <==> n <= 125
  {
    if n <= 125 {
      forall cs: seq<Contact> | |cs| == n && NicksWithin(cs)
        ensures PACKET_HEADER_LEN + 2 + ContactsSize(cs) <= MAX_PACKET_LEN
      {
        SizeBound(cs);
      }
    } else {
      var longest := Contact(1, 0, true, seq(MAX_NICK_LENGTH, i => 65));
      var cs := seq(n, i => longest);
      LongestSize(n, longest);
      assert |cs| == n && NicksWithin(cs);
    }
  }

  // ---------------------------------------------------------------- packing

  /** The contact that a status and the user database make. */
  function ContactFor(s: StatusInfo, nicks: map<nat, Text>): Contact {
    if s.uin in nicks then Contact(s.uin, s.stat, true, nicks[s.uin]) else Contact(s.uin, s.stat, false, [])
  }

  function ContactsFor(stats: seq<StatusInfo>, nicks: map<nat, Text>): (cs: seq<Contact>)
    ensures |cs| == |stats| && forall k :: 0 <= k < |cs| ==> cs[k] == ContactFor(stats[k], nicks)
  {
    seq(|stats|, i requires 0 <= i < |stats| => ContactFor(stats[i], nicks))
  }

  method PackContact(buf: array<byte>, off: nat, c: Contact)
    requires Packable(c) && off + ContactSize(c) <= buf.Length
    modifies buf
    ensures ContactAt(buf[..], off, c)
    ensures Same(buf[..], old(buf[..]), 0, off)
  {
    SetU32(buf, off, c.uin);
    ghost var b1 := buf[..];
    SetU16(buf, off + 4, c.stat);
    ghost var b2 := buf[..];
    if c.known {
      StrCpy(buf, off + 8, c.nick);
    }
    ghost var b3 := buf[..];
    SetU16(buf, off + 6, NickLen(c));
    assert Same(buf[..], b3, off, off + 6) && Same(buf[..], b3, off + 8, buf.Length);
    assert Same(b3, b2, off, off + 8) && Same(b2, b1, off, off + 4);
    if c.known {
      assert buf[..][off + 8..off + 8 + NickLen(c)] == b3[off + 8..off + 8 + NickLen(c)];
    }
    hide Same;
    ContactFieldsKept(b1, b2, b3, buf[..], off);
  }

  lemma ContactFieldsKept(b1: seq<byte>, b2: seq<byte>, b3: seq<byte>, b4: seq<byte>, off: nat)
    requires |b1| == |b2| == |b3| == |b4| && off + 8 <= |b1|
    requires Same(b4, b3, off, off + 6) && Same(b3, b2, off, off + 8) && Same(b2, b1, off, off + 4)
    ensures GetU32(b4, off) == GetU32(b1, off) && GetU16(b4, off + 4) == GetU16(b2, off + 4)
  {
  }

  /** Packs the contacts of a status reply and returns the packet's length. Nothing here looks at the room
      that is left: the first contact that finds none, and with it the n-th, is written behind the buffer. */
  method GetContactsInfo(stats: seq<StatusInfo>, nicks: map<nat, Text>, params: array<byte>)
    returns (len: nat, n: nat)
    requires |stats| < 0x1_0000 && params.Length >= 2
    requires forall k :: 0 <= k < |stats| ==> stats[k].uin < 0x1_0000_0000 && stats[k].stat < 0x1_0000
    requires forall u :: u in nicks ==> |nicks[u]| < 0xFFFF
    modifies params
    ensures var cs := ContactsFor(stats, nicks);
            && n <= |cs| && GetU16(params[..], 0) == |cs| && ContactsAt(params[..], 2, cs[..n])
            && len == PACKET_HEADER_LEN + 2 + ContactsSize(cs[..n])
            && (n == |cs| <==> 2 + ContactsSize(cs) <= params.Length)
            && 2 + ContactsSize(cs[..n]) <= params.Length
            && (n < |cs| ==> 2 + ContactsSize(cs[..n + 1]) > params.Length)
  {
    ghost var cs := ContactsFor(stats, nicks);
    hide ContactsAt, ContactAt, ContactsSize, ContactSize;
    SetU16(params, 0, |stats|);
    len := PACKET_HEADER_LEN + 2;
    var pos := 2;
    n := 0;
    NoContacts(params[..], cs);
    while n < |stats|
      invariant n <= |stats| && GetU16(params[..], 0) == |stats| && ContactsAt(params[..], 2, cs[..n])
      invariant pos == 2 + ContactsSize(cs[..n]) <= params.Length && len == PACKET_HEADER_LEN + pos
    {
      var c := ContactFor(stats[n], nicks);
      PrefixSizes(cs, n);
      if pos + ContactSize(c) > params.Length {
        return;
      }
      PackNextContact(params, pos, c, |stats|, cs[..n]);
      pos, len, n := pos + ContactSize(c), len + ContactSize(c), n + 1;
    }
    assert cs[..|stats|] == cs;
  }

  lemma {:induction false} NoContacts(buf: seq<byte>, cs: seq<Contact>)
    ensures ContactsAt(buf, 2, cs[..0]) && ContactsSize(cs[..0]) == 0
  {
    assert cs[..0] == [];
  }

  method PackNextContact(params: array<byte>, pos: nat, c: Contact, ghost count: nat, ghost done: seq<Contact>)
    requires params.Length >= 2 && GetU16(params[..], 0) == count && ContactsAt(params[..], 2, done)
    requires pos == 2 + ContactsSize(done) && Packable(c) && pos + ContactSize(c) <= params.Length
    modifies params
    ensures GetU16(params[..], 0) == count && ContactsAt(params[..], 2, done + [c])
  {
    ghost var before := params[..];
    PackContact(params, pos, c);
    assert Same(before, params[..], 2, pos) && params[0] == before[0] && params[1] == before[1];
    hide Same, ContactAt, ContactsAt;
    ContactsElsewhere(before, params[..], 2, done);
    ContactsAppend(params[..], 2, done, c);
  }
}
