/** Data packets of PTP/IP: ptp_ptpip_senddata, ptp_ptpip_getdata and ptp_ptpip_generic_read
    (src/wireless.c:198-288, 310-513; CIPA DC-005). */
module PtpIp {
  import opened Forest
  import opened ByteOrder
  import opened Handlers

  datatype Code = OK | GeneralError | Overread

  const START_DATA_PACKET: nat := 9
  const DATA_PACKET: nat := 10
  const END_DATA_PACKET: nat := 12
  const WRITE_BLOCKSIZE: nat := 32756
  const TWO32: nat := 0x1_0000_0000

  // ---------- The wire ----------

  function Frame(order: Order, kind: nat, body: seq<nat>): (s: seq<nat>)
    ensures |s| == 8 + |body|
  {
    Encode(order, 4, 8 + |body|) + Encode(order, 4, kind) + body
  }

  /** What a reader makes of the bytes in front of it. */
  datatype Parsed = Broken | Packet(kind: nat, body: seq<nat>, rest: seq<nat>)

  function Parse(order: Order, s: seq<nat>): (p: Parsed)
    ensures p.Packet? ==> |p.rest| + 8 + |p.body| == |s| && |p.body| < 0x8000_0000
  {
    if |s| < 8 then Broken
    else
      var length := Decode(order, s[..4]);
      if length < 8 || 0x8000_0008 <= length || |s| < length then Broken
      else Packet(Decode(order, s[4..8]), s[8..length], s[length..])
  }

  lemma ParseFrame(order: Order, kind: nat, body: seq<nat>, more: seq<nat>)
    requires kind < TWO32 && |body| < 0x8000_0000
    ensures Parse(order, Frame(order, kind, body) + more) == Packet(kind, body, more)
  {
    hide Encode, Decode, Pow256;
    var s := Frame(order, kind, body) + more;
    FourBytes();
    DecodeEncode(order, 4, 8 + |body|);
    DecodeEncode(order, 4, kind);
    assert s[..4] == Encode(order, 4, 8 + |body|);
    assert s[4..8] == Encode(order, 4, kind);
    assert s[8..8 + |body|] == body && s[8 + |body|..] == more;
  }

  /** The packet that announces a transfer of `size` bytes, cut down to 32 bits. */
  function StartPacket(order: Order, transid: nat, size: nat): (s: seq<nat>)
    ensures |s| == 20
  {
    Frame(order, START_DATA_PACKET, Encode(order, 4, transid) + Encode(order, 4, size % TWO32) + Encode(order, 4, 0))
  }

  function Chunk(size: nat, at: nat): (n: nat)
    requires at < size
    ensures 0 < n <= size - at
  {
    if size - at > WRITE_BLOCKSIZE then WRITE_BLOCKSIZE else size - at
  }

  /** The data packets for bytes `at` and up of a transfer of `size` bytes. */
  function DataPackets(order: Order, transid: nat, bytes: seq<nat>, size: nat, at: nat): seq<nat>
    decreases size - at
  {
    if at >= size then []
    else
      var n := Chunk(size, at);
      var kind := if size - at > WRITE_BLOCKSIZE then DATA_PACKET else END_DATA_PACKET;
      Frame(order, kind, Encode(order, 4, transid) + Slice(bytes, at, n)) +
      DataPackets(order, transid, bytes, size, at + n)
  }

  /** At most `n` bytes from `at` on. */
  function Slice(bytes: seq<nat>, at: nat, n: nat): (s: seq<nat>)
    ensures |s| <= n
    ensures at + n <= |bytes| ==> s == bytes[at..at + n]
  {
    if at >= |bytes| then [] else if at + n <= |bytes| then bytes[at..at + n] else bytes[at..]
  }

  // ---------- The receiver ----------

  /** How getdata's loop goes on from `s`, having delivered `got` of `total` bytes. */
  function Deliver(order: Order, s: seq<nat>, got: seq<nat>, total: nat): (r: (Code, seq<nat>, seq<nat>))
    decreases |s|
  {
    if |got| >= total then (OK, got, s)
    else
      var p := Parse(order, s);
      if p.Broken? then (GeneralError, got, [])
      else if p.kind == END_DATA_PACKET || p.kind == DATA_PACKET then
        var datalen := (|p.body| + 8 - 8 - 4) % TWO32;
        if datalen > total - |got| then (GeneralError, got, p.rest)
        else if |p.body| < 4 then (Overread, got, p.rest)
        else Deliver(order, p.rest, got + p.body[4..], total)
      else Deliver(order, p.rest, got, total)
  }

  function Receive(order: Order, s: seq<nat>): (r: (Code, seq<nat>, seq<nat>))
  {
    var p := Parse(order, s);
    if p.Broken? then (GeneralError, [], [])
    else if p.kind != START_DATA_PACKET then (GeneralError, [], p.rest)
    else if |p.body| < 8 then (Overread, [], p.rest)
    else Deliver(order, p.rest, [], Decode(order, p.body[4..8]))
  }

  /** Without an announcement of type 9 and at least 16 bytes nothing is delivered, and it is an error. */
  lemma ReceiveFirst(order: Order, s: seq<nat>)
    ensures var p, r := Parse(order, s), Receive(order, s);
            if p.Broken? || p.kind != 9 then r.0 == GeneralError && r.1 == []
            else if |p.body| < 8 then r.0 == Overread && r.1 == []
            else r == Deliver(order, p.rest, [], Decode(order, p.body[4..8]))
  {
    hide Parse, Deliver, Decode;
  }

  /** On any stream: never more than announced, and OK only with all of it. */
  lemma {:induction false} DeliverBounded(order: Order, s: seq<nat>, got: seq<nat>, total: nat)
    requires |got| <= total < TWO32
    ensures var r := Deliver(order, s, got, total);
            got <= r.1 && |r.1| <= total && (r.0 == OK <==> |r.1| == total)
    decreases |s|
  {
    hide Parse;
    if |got| < total {
      var p := Parse(order, s);
      if p.Packet? && (p.kind == END_DATA_PACKET || p.kind == DATA_PACKET) {
        var datalen := (|p.body| + 8 - 8 - 4) % TWO32;
        if datalen <= total - |got| && 4 <= |p.body| {
          DeliverBounded(order, p.rest, got + p.body[4..], total);
        }
      } else if p.Packet? {
        DeliverBounded(order, p.rest, got, total);
      }
    }
  }

  /** The first packet of what is still to come. */
  lemma FirstPacket(order: Order, transid: nat, bytes: seq<nat>, size: nat, at: nat, more: seq<nat>)
    requires at < size <= |bytes|
    ensures var n := Chunk(size, at);
            var kind := if size - at > WRITE_BLOCKSIZE then DATA_PACKET else END_DATA_PACKET;
            Parse(order, DataPackets(order, transid, bytes, size, at) + more) ==
            Packet(kind, Encode(order, 4, transid) + bytes[at..at + n],
                   DataPackets(order, transid, bytes, size, at + n) + more)
  {
    hide Parse, Encode, Frame, DataPackets;
    var n := Chunk(size, at);
    var kind := if size - at > WRITE_BLOCKSIZE then DATA_PACKET else END_DATA_PACKET;
    var body := Encode(order, 4, transid) + bytes[at..at + n];
    var rest := DataPackets(order, transid, bytes, size, at + n);
    WireSplit(order, transid, bytes, size, at);
    Regroup(Frame(order, kind, body), rest, more);
    ParseFrame(order, kind, body, rest + more);
  }

  lemma WireSplit(order: Order, transid: nat, bytes: seq<nat>, size: nat, at: nat)
    requires at < size
    ensures var n := Chunk(size, at);
            var kind := if size - at > WRITE_BLOCKSIZE then DATA_PACKET else END_DATA_PACKET;
            DataPackets(order, transid, bytes, size, at) ==
            Frame(order, kind, Encode(order, 4, transid) + Slice(bytes, at, n)) +
            DataPackets(order, transid, bytes, size, at + n)
  {
    hide Frame, Encode;
  }

  lemma Regroup(a: seq<nat>, b: seq<nat>, c: seq<nat>)
    ensures a + b + c == a + (b + c)
  {
  }

  /** Reading on, getdata puts together what senddata took apart. */
  lemma {:induction false} PacketsDelivered(order: Order, transid: nat, bytes: seq<nat>, size: nat, at: nat,
                                            more: seq<nat>)
    requires at <= size <= |bytes| && size < TWO32
    ensures Deliver(order, DataPackets(order, transid, bytes, size, at) + more, bytes[..at], size) ==
            (OK, bytes[..size], more)
    decreases size - at
  {
    hide Parse, Encode, DataPackets, Deliver;
    var s := DataPackets(order, transid, bytes, size, at) + more;
    if at == size {
      NoMorePackets(order, transid, bytes, size, at);
      assert s == more;
      DeliverDone(order, s, bytes[..at], size);
    } else {
      var n := Chunk(size, at);
      FirstPacket(order, transid, bytes, size, at, more);
      DeliverOne(order, s, bytes[..at], size);
      assert bytes[..at] + Parse(order, s).body[4..] == bytes[..at + n];
      PacketsDelivered(order, transid, bytes, size, at + n, more);
    }
  }

  lemma DeliverDone(order: Order, s: seq<nat>, got: seq<nat>, total: nat)
    requires total <= |got|
    ensures Deliver(order, s, got, total) == (OK, got, s)
  {
  }

  function Transfer(order: Order, transid: nat, bytes: seq<nat>, size: nat): seq<nat> {
    StartPacket(order, transid, size) + DataPackets(order, transid, bytes, size, 0)
  }

  lemma Announced(order: Order, transid: nat, bytes: seq<nat>, size: nat, more: seq<nat>)
    ensures Receive(order, Transfer(order, transid, bytes, size) + more) ==
            Deliver(order, DataPackets(order, transid, bytes, size, 0) + more, [], size % TWO32)
  {
    hide Parse, Encode, Decode, DataPackets;
    var body := Encode(order, 4, transid) + Encode(order, 4, size % TWO32) + Encode(order, 4, 0);
    var rest := DataPackets(order, transid, bytes, size, 0) + more;
    ParseFrame(order, START_DATA_PACKET, body, rest);
    assert Transfer(order, transid, bytes, size) + more == Frame(order, START_DATA_PACKET, body) + rest;
    FourBytes();
    DecodeEncode(order, 4, size % TWO32);
    assert body[4..8] == Encode(order, 4, size % TWO32);
  }

  /** A transfer arrives whole, and the reader is left just behind it, if and only if its size fits
      the 32 bits of the announcement. */
  lemma TransferDeliveredIff(order: Order, transid: nat, bytes: seq<nat>, more: seq<nat>)
    ensures Receive(order, Transfer(order, transid, bytes, |bytes|) + more) == (OK, bytes, more) <==> |bytes| < TWO32
  {
    hide Receive, Transfer, DataPackets, Deliver;
    Announced(order, transid, bytes, |bytes|, more);
    if |bytes| < TWO32 {
      PacketsDelivered(order, transid, bytes, |bytes|, 0, more);
      assert bytes[..0] == [] && bytes[..|bytes|] == bytes;
    } else {
      DeliverBounded(order, DataPackets(order, transid, bytes, |bytes|, 0) + more, [], |bytes| % TWO32);
    }
  }

  // ---------- The bytes of a transfer ----------

  predicate Lies(s: seq<nat>, pos: nat, part: seq<nat>) {
    pos + |part| <= |s| && s[pos..pos + |part|] == part
  }

  /** A packet: its length, its type, and what it carries. */
  lemma FrameLaid(order: Order, kind: nat, body: seq<nat>)
    ensures var s := Frame(order, kind, body);
            && Lies(s, 0, Encode(order, 4, |body| + 8)) && Lies(s, 4, Encode(order, 4, kind)) && Lies(s, 8, body)
  {
    hide Encode;
  }

  /** The announcement: 20 bytes of type 9, with the transaction id, the size and a zero, four bytes each. */
  lemma StartLaid(order: Order, transid: nat, bytes: seq<nat>, size: nat)
    ensures var s := Transfer(order, transid, bytes, size);
            && Lies(s, 0, Encode(order, 4, 20)) && Lies(s, 4, Encode(order, 4, 9))
            && Lies(s, 8, Encode(order, 4, transid)) && Lies(s, 12, Encode(order, 4, size % 0x1_0000_0000))
            && Lies(s, 16, Encode(order, 4, 0))
  {
    hide Encode, Frame, DataPackets;
    var a, b, c := Encode(order, 4, transid), Encode(order, 4, size % TWO32), Encode(order, 4, 0);
    var start, rest := StartPacket(order, transid, size), DataPackets(order, transid, bytes, size, 0);
    FrameLaid(order, 9, a + b + c);
    ThreeParts(a, b, c);
    LiesDeeper(start, 8, a + b + c, 0, a);
    LiesDeeper(start, 8, a + b + c, 4, b);
    LiesDeeper(start, 8, a + b + c, 8, c);
    StartLies(start, rest, 0, Encode(order, 4, 20));
    StartLies(start, rest, 4, Encode(order, 4, 9));
    StartLies(start, rest, 8, a);
    StartLies(start, rest, 12, b);
    StartLies(start, rest, 16, c);
  }

  lemma ThreeParts(a: seq<nat>, b: seq<nat>, c: seq<nat>)
    ensures Lies(a + b + c, 0, a) && Lies(a + b + c, |a|, b) && Lies(a + b + c, |a| + |b|, c)
  {
  }

  lemma LiesDeeper(s: seq<nat>, pos: nat, part: seq<nat>, at: nat, inner: seq<nat>)
    requires Lies(s, pos, part) && Lies(part, at, inner)
    ensures Lies(s, pos + at, inner)
  {
    forall i | 0 <= i < |inner|
      ensures s[pos + at + i] == inner[i]
    {
      assert part[at..at + |inner|][i] == part[at + i] == s[pos..pos + |part|][at + i];
    }
  }

  lemma StartLies(s: seq<nat>, more: seq<nat>, pos: nat, part: seq<nat>)
    requires Lies(s, pos, part)
    ensures Lies(s + more, pos, part)
  {
    assert (s + more)[pos..pos + |part|] == s[pos..pos + |part|];
  }

  lemma BehindLies(s: seq<nat>, at: nat, pos: nat, part: seq<nat>)
    requires at <= |s| && Lies(s[at..], pos, part)
    ensures Lies(s, at + pos, part)
  {
    assert s[at..][pos..pos + |part|] == s[at + pos..at + pos + |part|];
  }

  /** Behind `i` full packets of 32768 bytes come the packets for the rest. */
  lemma {:induction false} TailLaid(order: Order, transid: nat, bytes: seq<nat>, size: nat, i: nat)
    requires i * 32756 <= size <= |bytes|
    ensures var s := Transfer(order, transid, bytes, size);
            20 + i * 32768 <= |s| && s[20 + i * 32768..] == DataPackets(order, transid, bytes, size, i * 32756)
  {
    hide Frame, Encode, DataPackets, StartPacket;
    var s := Transfer(order, transid, bytes, size);
    if i > 0 {
      TailLaid(order, transid, bytes, size, i - 1);
      var at := (i - 1) * 32756;
      WireSplit(order, transid, bytes, size, at);
      var kind := if size - at > WRITE_BLOCKSIZE then DATA_PACKET else END_DATA_PACKET;
      var first := Frame(order, kind, Encode(order, 4, transid) + Slice(bytes, at, Chunk(size, at)));
      var tail := s[20 + (i - 1) * 32768..];
      assert |first| == 32768 && tail[32768..] == DataPackets(order, transid, bytes, size, at + 32756);
      assert s[20 + i * 32768..] == tail[32768..];
    }
  }

  /** Packet `i`: its length, type 12 if it is the last and else 10, the transaction id, and the next bytes, 32756 of
      them or as many as are left. */
  lemma PacketLaid(order: Order, transid: nat, bytes: seq<nat>, size: nat, i: nat)
    requires i * 32756 < size <= |bytes|
    ensures var s, left := Transfer(order, transid, bytes, size), size - i * 32756;
            var n, p := if left > 32756 then 32756 else left, 20 + i * 32768;
            && Lies(s, p, Encode(order, 4, n + 12)) && Lies(s, p + 4, Encode(order, 4, if left > 32756 then 10 else 12))
            && Lies(s, p + 8, Encode(order, 4, transid)) && Lies(s, p + 12, bytes[i * 32756..i * 32756 + n])
            && (left <= 32756 ==> |s| == p + 12 + n)
  {
    hide Frame, Encode, DataPackets, Transfer, Lies;
    var at, s := i * 32756, Transfer(order, transid, bytes, size);
    var n, p := Chunk(size, at), 20 + i * 32768;
    var kind := if size - at > WRITE_BLOCKSIZE then DATA_PACKET else END_DATA_PACKET;
    TailLaid(order, transid, bytes, size, i);
    WireSplit(order, transid, bytes, size, at);
    var a, b := Encode(order, 4, transid), bytes[at..at + n];
    var first, rest := Frame(order, kind, a + b), DataPackets(order, transid, bytes, size, at + n);
    FrameLaid(order, kind, a + b);
    TwoParts(a, b);
    LiesDeeper(first, 8, a + b, 0, a);
    LiesDeeper(first, 8, a + b, 4, b);
    StartLies(first, rest, 0, Encode(order, 4, n + 12));
    StartLies(first, rest, 4, Encode(order, 4, kind));
    StartLies(first, rest, 8, a);
    StartLies(first, rest, 12, b);
    BehindLies(s, p, 0, Encode(order, 4, n + 12));
    BehindLies(s, p, 4, Encode(order, 4, kind));
    BehindLies(s, p, 8, a);
    BehindLies(s, p, 12, b);
    NoMorePackets(order, transid, bytes, size, size);
  }

  lemma TwoParts(a: seq<nat>, b: seq<nat>)
    ensures Lies(a + b, 0, a) && Lies(a + b, |a|, b)
  {
  }

  // ---------- The packets of a transfer ----------

  /** The packets a reader sees, with their payloads. */
  function Kinds(size: nat, at: nat): (k: seq<(nat, nat)>)
    decreases size - at
  {
    if at >= size then []
    else [(if size - at > WRITE_BLOCKSIZE then DATA_PACKET else END_DATA_PACKET, Chunk(size, at))] +
         Kinds(size, at + Chunk(size, at))
  }

  /** Every packet but the last carries 32756 bytes, and the last one, and no other, is an END packet. */
  lemma {:induction false} PacketSizes(size: nat, at: nat)
    requires at < size
    ensures var k := Kinds(size, at);
            && k != [] && k[|k| - 1].0 == END_DATA_PACKET
            && (forall i :: 0 <= i < |k| - 1 ==> k[i] == (DATA_PACKET, WRITE_BLOCKSIZE))
            && 0 < k[|k| - 1].1 <= WRITE_BLOCKSIZE
            && (|k| - 1) * WRITE_BLOCKSIZE + k[|k| - 1].1 == size - at
    decreases size - at
  {
    if size - at > WRITE_BLOCKSIZE {
      PacketSizes(size, at + WRITE_BLOCKSIZE);
    } else {
      assert Kinds(size, at + Chunk(size, at)) == [];
    }
  }

  /** The kinds are those on the wire. */
  lemma WireKind(order: Order, transid: nat, bytes: seq<nat>, size: nat, at: nat, more: seq<nat>)
    requires at < size <= |bytes|
    ensures var p := Parse(order, DataPackets(order, transid, bytes, size, at) + more);
            && p.Packet? && (p.kind, |p.body| - 4) == Kinds(size, at)[0]
            && p.rest == DataPackets(order, transid, bytes, size, at + Chunk(size, at)) + more
  {
    hide Parse, Encode, DataPackets;
    FirstPacket(order, transid, bytes, size, at, more);
  }

  // ---------- Sockets ----------

  /** A connected socket: what the peer sends until it closes, and what has been sent to it.  How many
      bytes one call moves is up to the network; an unreliable connection may also fail. */
  class Socket {
    var incoming: seq<nat>
    var outgoing: seq<nat>
    const reliable: bool

    constructor (incoming: seq<nat>, reliable: bool)
      ensures this.incoming == incoming && this.reliable == reliable && outgoing == []
    {
      this.incoming, this.reliable, outgoing := incoming, reliable, [];
    }

    /** recv: None is an error, no bytes the end of the stream. */
    method Recv(n: nat) returns (got: Option<seq<nat>>)
      requires n > 0
      modifies this`incoming
      ensures got.None? ==> !reliable && incoming == old(incoming)
      ensures got.Some? ==> old(incoming) == got.value + incoming && |got.value| <= n
      ensures got.Some? ==> (got.value == [] <==> old(incoming) == [])
    {
      if !reliable {
        var fails: bool := *;
        if fails {
          return None;
        }
      }
      if incoming == [] {
        return Some([]);
      }
      var k: nat :| 1 <= k <= n && k <= |incoming|;
      got := Some(incoming[..k]);
      incoming := incoming[k..];
    }

    /** send: None is an error. */
    method Send(data: seq<nat>) returns (sent: Option<nat>)
      requires data != []
      modifies this`outgoing
      ensures sent.None? ==> !reliable && outgoing == old(outgoing)
      ensures sent.Some? ==> 0 < sent.value <= |data| && outgoing == old(outgoing) + data[..sent.value]
    {
      if !reliable {
        var fails: bool := *;
        if fails {
          return None;
        }
      }
      var k: nat :| 1 <= k <= |data|;
      outgoing := outgoing + data[..k];
      sent := Some(k);
    }
  }

  /** Reads until `len` bytes are there, the stream ends, or the connection fails. */
  method ReadFully(sock: Socket, len: nat) returns (got: Option<seq<nat>>)
    modifies sock`incoming
    ensures got.Some? ==> |got.value| == len && old(sock.incoming) == got.value + sock.incoming
    ensures got.None? && sock.reliable ==> |old(sock.incoming)| < len && sock.incoming == []
  {
    var buffer := [];
    while |buffer| < len
      invariant |buffer| <= len && old(sock.incoming) == buffer + sock.incoming
      decreases len - |buffer|
    {
      var ret := sock.Recv(len - |buffer|);
      if ret.None? || ret.value == [] {
        return None;
      }
      buffer := buffer + ret.value;
    }
    got := Some(buffer);
  }

  lemma BodyBehind(s: seq<nat>, hdr: seq<nat>, body: seq<nat>, rest: seq<nat>)
    requires s == hdr + (body + rest)
    ensures s[|hdr|..|hdr| + |body|] == body && s[|hdr| + |body|..] == rest
  {
  }

  /** ptp_ptpip_generic_read: one packet, however the stream is split. */
  method GenericRead(order: Order, sock: Socket) returns (ok: bool, kind: nat, data: seq<nat>)
    modifies sock`incoming
    ensures ok ==> Parse(order, old(sock.incoming)) == Packet(kind, data, sock.incoming)
    ensures ok ==>
              && 8 <= |old(sock.incoming)|
              && var length := Decode(order, old(sock.incoming)[..4]);
                 && 8 <= length <= |old(sock.incoming)| && kind == Decode(order, old(sock.incoming)[4..8])
                 && data == old(sock.incoming)[8..length] && sock.incoming == old(sock.incoming)[length..]
    ensures sock.reliable && !ok ==> Parse(order, old(sock.incoming)) == Broken
    ensures sock.reliable && !ok && 8 <= |old(sock.incoming)| ==>
              var length := Decode(order, old(sock.incoming)[..4]);
              length < 8 || 0x8000_0008 <= length || |old(sock.incoming)| < length
  {
    ok, kind, data := false, 0, [];
    var hdr := ReadFully(sock, 8);
    if hdr.None? {
      return;
    }
    ghost var s := old(sock.incoming);
    assert s[..4] == hdr.value[0..4] && s[4..8] == hdr.value[4..8];
    var length := ReadInt(hdr.value, 0, order, 4);
    kind := ReadInt(hdr.value, 4, order, 4);
    if length < 8 || 0x8000_0008 <= length {
      return;
    }
    var body := ReadFully(sock, length - 8);
    if body.None? {
      return;
    }
    BodyBehind(s, hdr.value, body.value, sock.incoming);
    ok, data := true, body.value;
  }

  /** The size that a transfer is announced with, if it is. */
  function TotalOf(order: Order, s: seq<nat>): nat {
    var p := Parse(order, s);
    if p.Packet? && p.kind == START_DATA_PACKET && |p.body| >= 8 then Decode(order, p.body[4..8]) else 0
  }

  /** ptp_ptpip_getdata.  Even on a connection that fails in the middle, what is delivered is the beginning of what
      the stream holds, and never more than announced. */
  method GetData(order: Order, sock: Socket, handler: MemoryHandler) returns (code: Code)
    requires handler.Valid() && handler.curoff == |handler.data|
    modifies sock`incoming, handler
    ensures handler.Valid() && handler.curoff == |handler.data|
    ensures sock.reliable ==>
              var r := Receive(order, old(sock.incoming));
              code == r.0 && handler.data == old(handler.data) + r.1 && (code == OK ==> sock.incoming == r.2)
    ensures code == OK ==> Receive(order, old(sock.incoming)).0 == OK
                           && handler.data == old(handler.data) + Receive(order, old(sock.incoming)).1
    ensures old(handler.data) <= handler.data <= old(handler.data) + Receive(order, old(sock.incoming)).1
    ensures IsBytes(old(sock.incoming)) ==>
              |handler.data| <= |old(handler.data)| + TotalOf(order, old(sock.incoming))
  {
    hide Parse, Decode, Deliver, TotalOf, IsBytes;
    ghost var s := sock.incoming;
    if IsBytes(s) {
      TotalBounds(order, s);
    }
    assert handler.data + [] == handler.data;
    var ok, kind, xdata := GenericRead(order, sock);
    if !ok || kind != START_DATA_PACKET {
      return GeneralError;
    }
    if |xdata| < 8 {
      return Overread;
    }
    var toread := ReadInt(xdata, 4, order, 4);
    ghost var before, got := handler.data, [];
    assert handler.data == before + got;
    var curread := 0;
    while curread < toread
      invariant handler.Valid() && handler.curoff == |handler.data| && handler.data == before + got
      invariant 0 <= curread == |got| && Receive(order, s) == Deliver(order, sock.incoming, got, toread)
      decreases |sock.incoming|
    {
      ghost var here := sock.incoming;
      DeliverExtends(order, here, got, toread);
      ok, kind, xdata := GenericRead(order, sock);
      DeliverOne(order, here, got, toread);
      if !ok {
        return GeneralError;
      }
      if kind == END_DATA_PACKET || kind == DATA_PACKET {
        var datalen := (|xdata| + 8 - 8 - 4) % TWO32;
        if datalen > toread - curread {
          break;
        }
        if |xdata| < 4 {
          return Overread;
        }
        handler.Put(xdata[4..]);
        assert handler.data == before + (got + xdata[4..]) by {
          assert handler.data[..handler.curoff] == handler.data;
        }
        got := got + xdata[4..];
        curread := curread + datalen;
      }
    }
    if curread < toread {
      return GeneralError;
    }
    DeliverDone(order, sock.incoming, got, toread);
    code := OK;
  }

  lemma {:induction false} DeliverExtends(order: Order, s: seq<nat>, got: seq<nat>, total: nat)
    ensures got <= Deliver(order, s, got, total).1
    decreases |s|
  {
    hide Parse;
    var p := Parse(order, s);
    if |got| < total && p.Packet? {
      DeliverExtends(order, p.rest, got, total);
      if 4 <= |p.body| {
        DeliverExtends(order, p.rest, got + p.body[4..], total);
      }
    }
  }

  lemma TotalBounds(order: Order, s: seq<nat>)
    requires IsBytes(s)
    ensures |Receive(order, s).1| <= TotalOf(order, s)
  {
    hide Deliver, Parse, IsBytes;
    ReceiveBounded(order, s);
  }

  lemma DeliverOne(order: Order, s: seq<nat>, got: seq<nat>, total: nat)
    requires |got| < total
    ensures var p := Parse(order, s);
            && (p.Broken? ==> Deliver(order, s, got, total) == (GeneralError, got, []))
            && (p.Packet? && !(p.kind == END_DATA_PACKET || p.kind == DATA_PACKET) ==>
                  Deliver(order, s, got, total) == Deliver(order, p.rest, got, total))
            && (p.Packet? && (p.kind == END_DATA_PACKET || p.kind == DATA_PACKET) ==>
                  var datalen := (|p.body| + 8 - 8 - 4) % TWO32;
                  && (datalen > total - |got| ==> Deliver(order, s, got, total) == (GeneralError, got, p.rest))
                  && (datalen <= total - |got| && |p.body| < 4 ==>
                    Deliver(order, s, got, total) == (Overread, got, p.rest))
                  && (datalen <= total - |got| && |p.body| >= 4 ==>
                        && datalen == |p.body| - 4
                        && Deliver(order, s, got, total) == Deliver(order, p.rest, got + p.body[4..], total)))
  {
    hide Parse;
  }

  /** On any stream, getdata delivers no more than was announced, and says OK exactly with all of it. */
  lemma ReceiveBounded(order: Order, s: seq<nat>)
    requires IsBytes(s)
    ensures var p := Parse(order, s);
            var r := Receive(order, s);
            p.Packet? && p.kind == START_DATA_PACKET && |p.body| >= 8 ==>
              var total := Decode(order, p.body[4..8]);
              total < TWO32 && |r.1| <= total && (r.0 == OK <==> |r.1| == total)
  {
    hide Deliver, Parse, IsBytes;
    var p := Parse(order, s);
    if p.Packet? && |p.body| >= 8 {
      BodyIsBytes(order, s);
      DecodeBound(order, p.body[4..8]);
      if p.kind == START_DATA_PACKET {
        DeliverBounded(order, p.rest, [], Decode(order, p.body[4..8]));
      }
    }
  }

  lemma BodyIsBytes(order: Order, s: seq<nat>)
    requires IsBytes(s) && Parse(order, s).Packet? && |Parse(order, s).body| >= 8
    ensures IsBytes(Parse(order, s).body[4..8])
  {
    hide Decode;
    var body := Parse(order, s).body;
    assert forall i :: 0 <= i < |body| ==> body[i] == s[8 + i];
  }

  /** ptp_ptpip_senddata: `size` bytes, as far as the handler has them.  On a connection that holds, only an
      announcement that goes out in part stops it. */
  method SendData(order: Order, sock: Socket, transid: nat, size: nat, handler: MemoryHandler) returns (code: Code)
    requires handler.Valid()
    modifies sock`outgoing, handler
    ensures handler.Valid() && handler.data == old(handler.data)
    ensures code == OK ==> sock.outgoing == old(sock.outgoing) + Transfer(order, transid, old(handler.Left()), size)
    ensures code != OK ==> code == GeneralError
    ensures code != OK && sock.reliable ==>
              |old(sock.outgoing)| < |sock.outgoing| < |old(sock.outgoing)| + 20 &&
              sock.outgoing == old(sock.outgoing) +
                               StartPacket(order, transid, size)[..|sock.outgoing| - |old(sock.outgoing)|]
  {
    hide DataPackets, StartPacket, Transfer;
    var request := StartPacket(order, transid, size);
    var ret := sock.Send(request);
    if ret.None? || ret.value != 0x14 {
      return GeneralError;
    }
    assert request[..20] == request;
    TransferParts(order, transid, handler.Left(), size, old(sock.outgoing));
    var ok := SendPackets(order, sock, transid, size, handler);
    code := if ok then OK else GeneralError;
  }

  lemma TransferParts(order: Order, transid: nat, bytes: seq<nat>, size: nat, out: seq<nat>)
    ensures out + StartPacket(order, transid, size) + DataPackets(order, transid, bytes, size, 0) ==
            out + Transfer(order, transid, bytes, size)
  {
    hide DataPackets, StartPacket;
  }

  /** What is left of the bytes at position `at`. */
  ghost predicate LeftAt(left: seq<nat>, bytes: seq<nat>, at: nat) {
    left == if at <= |bytes| then bytes[at..] else []
  }

  /** The loop of ptp_ptpip_senddata: the data packets, one after the other. */
  method SendPackets(order: Order, sock: Socket, transid: nat, size: nat, handler: MemoryHandler) returns (ok: bool)
    requires handler.Valid()
    modifies sock`outgoing, handler
    ensures handler.Valid() && handler.data == old(handler.data)
    ensures ok ==> sock.outgoing == old(sock.outgoing) + DataPackets(order, transid, old(handler.Left()), size, 0)
    ensures sock.reliable ==> ok
  {
    hide Encode, DataPackets, Frame, Slice, Chunk, LeftAt;
    ghost var bytes := handler.Left();
    var curwrite := 0;
    ghost var whole := sock.outgoing + DataPackets(order, transid, bytes, size, 0);
    AllLeft(bytes);
    while curwrite < size
      invariant 0 <= curwrite <= size && handler.Valid() && handler.data == old(handler.data)
      invariant LeftAt(handler.Left(), bytes, curwrite)
      invariant whole == sock.outgoing + DataPackets(order, transid, bytes, size, curwrite)
    {
      ghost var left, out := handler.Left(), sock.outgoing;
      var towrite := Chunk(size, curwrite);
      var kind := if size - curwrite > WRITE_BLOCKSIZE then DATA_PACKET else END_DATA_PACKET;
      var got := handler.Get(towrite);
      SliceOf(bytes, curwrite, towrite, left);
      var xdata := Frame(order, kind, Encode(order, 4, transid) + got);
      NextPacket(order, transid, bytes, size, curwrite, out, whole);
      ok := SendFully(sock, xdata);
      if !ok {
        return;
      }
      curwrite := curwrite + towrite;
    }
    NoMorePackets(order, transid, bytes, size, curwrite);
    assert sock.outgoing + [] == sock.outgoing;
    ok := true;
  }

  lemma AllLeft(bytes: seq<nat>)
    ensures LeftAt(bytes, bytes, 0)
  {
  }

  lemma SliceOf(bytes: seq<nat>, at: nat, n: nat, left: seq<nat>)
    requires LeftAt(left, bytes, at)
    ensures left[..if n <= |left| then n else |left|] == Slice(bytes, at, n)
    ensures |Slice(bytes, at, n)| <= |left| && LeftAt(left[|Slice(bytes, at, n)|..], bytes, at + n)
  {
  }

  lemma NextPacket(order: Order, transid: nat, bytes: seq<nat>, size: nat, at: nat, sent: seq<nat>, whole: seq<nat>)
    requires at < size && whole == sent + DataPackets(order, transid, bytes, size, at)
    ensures var n := Chunk(size, at);
            var kind := if size - at > WRITE_BLOCKSIZE then DATA_PACKET else END_DATA_PACKET;
            whole == sent + Frame(order, kind, Encode(order, 4, transid) + Slice(bytes, at, n)) +
                     DataPackets(order, transid, bytes, size, at + n)
  {
    hide Frame, Encode;
  }

  lemma NoMorePackets(order: Order, transid: nat, bytes: seq<nat>, size: nat, at: nat)
    requires size <= at
    ensures DataPackets(order, transid, bytes, size, at) == []
  {
  }

  /** The inner loop: sends all of a packet, in as many calls as it takes. */
  method SendFully(sock: Socket, xdata: seq<nat>) returns (ok: bool)
    modifies sock`outgoing
    ensures ok ==> sock.outgoing == old(sock.outgoing) + xdata
    ensures sock.reliable ==> ok
  {
    var written := 0;
    while written < |xdata|
      invariant 0 <= written <= |xdata| && sock.outgoing == old(sock.outgoing) + xdata[..written]
    {
      var ret := sock.Send(xdata[written..]);
      if ret.None? {
        return false;
      }
      assert xdata[..written] + xdata[written..][..ret.value] == xdata[..written + ret.value];
      written := written + ret.value;
    }
    assert xdata[..written] == xdata;
    ok := true;
  }

  /** What one side sends, the other side gets, however the network splits it on the way. */
  method Exchange(order: Order, transid: nat, payload: seq<nat>, reliable: bool)
    returns (sent: Code, received: Code, got: seq<nat>)
    ensures sent == OK ==> (received == OK && got == payload <==> |payload| < TWO32)
  {
    hide Transfer, Receive;
    var source := new MemoryHandler(payload);
    var wire := new Socket([], reliable);
    received, got := GeneralError, [];
    assert source.Left() == payload;
    sent := SendData(order, wire, transid, |payload|, source);
    if sent == OK {
      ghost var stream := Transfer(order, transid, payload, |payload|);
      assert wire.outgoing == [] + stream == stream;
      TransferReason(order, transid, payload);
      var sink := new MemoryHandler([]);
      var peer := new Socket(wire.outgoing, true);
      received := GetData(order, peer, sink);
      got := sink.data;
      assert [] + Receive(order, stream).1 == Receive(order, stream).1;
    }
  }

  /** Too long a transfer does not even leave the right bytes. */
  lemma TransferReason(order: Order, transid: nat, bytes: seq<nat>)
    ensures var r := Receive(order, Transfer(order, transid, bytes, |bytes|));
            r.0 == OK && r.1 == bytes <==> |bytes| < TWO32
  {
    assert Transfer(order, transid, bytes, |bytes|) + [] == Transfer(order, transid, bytes, |bytes|);
    Announced(order, transid, bytes, |bytes|, []);
    TransferDeliveredIff(order, transid, bytes, []);
    DeliverBounded(order, DataPackets(order, transid, bytes, |bytes|, 0) + [], [], |bytes| % TWO32);
  }
}
