/** The data phase from the device over USB, and the response behind it: ptp_usb_getdata,
    ptp_usb_getpacket, ptp_read_func and ptp_usb_getresp (src/usb.c:136-270, 659-913). */
module UsbReceive {
  import opened ByteOrder
  import opened Handlers
  import opened UsbSend

  const CONTEXT_BLOCK_SIZE_1: nat := 0x3e00
  const CONTEXT_BLOCK_SIZE_2: nat := 0x200
  const MAX_PACKET_LEN_READ: nat := 512
  const CONTAINER_RESPONSE: nat := 3

  const RC_OK: nat := 0x2001
  const RC_UNDEFINED: nat := 0x2000
  const RC_LAST: nat := 0x2020
  const ERROR_IO: nat := 0x02ff
  const ERROR_DATA_EXPECTED: nat := 0x02fe
  const ERROR_RESP_EXPECTED: nat := 0x02fd

  // ---------- The in endpoint ----------

  /** What a bulk transfer of at most `n` bytes makes of the packets waiting: it ends with a short packet
      or with a full buffer, and fails when nothing comes or a packet is too long for what is left. */
  function Take(queue: seq<seq<nat>>, n: nat, mp: nat): (r: (bool, seq<nat>, seq<seq<nat>>))
    requires 0 < mp
    ensures r.0 ==> |r.1| <= n && |r.2| < |queue|
    decreases |queue|
  {
    if queue == [] then (false, [], [])
    else
      var p := queue[0];
      if |p| > n || |p| > mp then (false, [], queue[1..])
      else if |p| < mp || |p| == n then (true, p, queue[1..])
      else
        var rest := Take(queue[1..], n - mp, mp);
        (rest.0, p + rest.1, rest.2)
  }

  /** Nothing comes, or too much at once: the transfer fails, and what was too long is lost. */
  lemma TakeFails(queue: seq<seq<nat>>, n: nat, mp: nat)
    requires 0 < mp
    ensures queue == [] ==> Take(queue, n, mp) == (false, [], [])
    ensures queue != [] && (|queue[0]| > n || |queue[0]| > mp) ==> Take(queue, n, mp) == (false, [], queue[1..])
  {
  }

  class InEndpoint {
    const maxPacket: nat
    var queue: seq<seq<nat>>        // the packets the device has ready

    ghost predicate Valid() {
      0 < maxPacket && 512 % maxPacket == 0
    }

    constructor (maxPacket: nat, queue: seq<seq<nat>>)
      requires 0 < maxPacket && 512 % maxPacket == 0
      ensures Valid() && this.maxPacket == maxPacket && this.queue == queue
    {
      this.maxPacket, this.queue := maxPacket, queue;
    }

    /** libusb_bulk_transfer. */
    method BulkRead(n: nat) returns (ok: bool, bytes: seq<nat>)
      requires Valid()
      modifies this
      ensures (ok, bytes, queue) == Take(old(queue), n, maxPacket)
    {
      var r := Take(queue, n, maxPacket);
      ok, bytes, queue := r.0, r.1, r.2;
    }
  }

  // ---------- A well-behaved device ----------

  /** Bytes as packets: all full but the last, which is short and may be empty. */
  function Packets(bytes: seq<nat>, mp: nat): (q: seq<seq<nat>>)
    requires 0 < mp
    ensures |q| > 0
    decreases |bytes|
  {
    if |bytes| < mp then [bytes] else [bytes[..mp]] + Packets(bytes[mp..], mp)
  }

  /** A transfer that ends on a packet boundary inside the bytes leaves the rest waiting. */
  lemma {:induction false} TakeFull(bytes: seq<nat>, n: nat, mp: nat, more: seq<seq<nat>>)
    requires 0 < mp && 0 < n <= |bytes| && n % mp == 0
    ensures Take(Packets(bytes, mp) + more, n, mp) == (true, bytes[..n], Packets(bytes[n..], mp) + more)
    decreases n
  {
    var q := Packets(bytes, mp) + more;
    NotBelow(n, mp);
    assert q[0] == bytes[..mp] && q[1..] == Packets(bytes[mp..], mp) + more;
    if n > mp {
      MultipleMinus(n, mp, mp);
      TakeFull(bytes[mp..], n - mp, mp, more);
      assert bytes[mp..][..n - mp] == bytes[mp..n] && bytes[..mp] + bytes[mp..n] == bytes[..n];
      assert bytes[mp..][n - mp..] == bytes[n..];
    }
  }

  lemma NotBelow(n: nat, mp: nat)
    requires 0 < n && 0 < mp && n % mp == 0
    ensures mp <= n
  {
  }

  predicate Roomy(len: nat, n: nat, mp: nat)
    requires 0 < mp
  {
    (len < n && n % mp == 0) || (len == n && n % mp != 0) || (len == n == 0)
  }

  /** A transfer with room for all the bytes, and more or an end inside a packet, takes the short packet too. */
  lemma {:induction false} TakeAll(bytes: seq<nat>, n: nat, mp: nat, more: seq<seq<nat>>)
    requires 0 < mp && Roomy(|bytes|, n, mp)
    ensures Take(Packets(bytes, mp) + more, n, mp) == (true, bytes, more)
    decreases |bytes|
  {
    var q := Packets(bytes, mp) + more;
    if |bytes| < mp {
      assert q[0] == bytes && q[1..] == more;
    } else {
      assert q[0] == bytes[..mp] && q[1..] == Packets(bytes[mp..], mp) + more;
      MultipleMinus(n, mp, mp);
      MultipleMinus(|bytes|, mp, mp);
      TakeAll(bytes[mp..], n - mp, mp, more);
      assert bytes[..mp] + bytes[mp..] == bytes;
    }
  }

  /** A transfer with more room than there are bytes takes the short packet at their end. */
  lemma {:induction false} TakeShort(bytes: seq<nat>, n: nat, mp: nat, more: seq<seq<nat>>)
    requires 0 < mp && |bytes| < n
    ensures Take(Packets(bytes, mp) + more, n, mp) == (true, bytes, more)
    decreases |bytes|
  {
    var q := Packets(bytes, mp) + more;
    if |bytes| < mp {
      assert q[0] == bytes && q[1..] == more;
    } else {
      assert q[0] == bytes[..mp] && q[1..] == Packets(bytes[mp..], mp) + more;
      TakeShort(bytes[mp..], n - mp, mp, more);
      assert bytes[..mp] + bytes[mp..] == bytes;
    }
  }

  // ---------- Reading in blocks ----------

  /** The size of the next block when `left` bytes are missing, `first` tells whether any have come, and
      `before` is the size of the block before. */
  function NextRead(left: nat, first: bool, before: nat): (n: nat)
    requires 0 < left
    ensures 0 < n <= left && n < CONTEXT_BLOCK_SIZE
  {
    if left < CONTEXT_BLOCK_SIZE then left
    else if first then CONTEXT_BLOCK_SIZE_1
    else if before == CONTEXT_BLOCK_SIZE_1 then CONTEXT_BLOCK_SIZE_2
    else CONTEXT_BLOCK_SIZE_1
  }

  /** Blocks of 0x3e00 and 0x200 bytes by turns, as long as at least 0x4000 are missing, and then all that is. */
  lemma NextReadIs(left: nat, first: bool, before: nat)
    requires 0 < left
    ensures left < 0x4000 ==> NextRead(left, first, before) == left
    ensures left >= 0x4000 ==> NextRead(left, first, before) == if !first && before == 0x3e00 then 0x200 else 0x3e00
  {
  }

  /** How ptp_read_func's loop goes on with `got` read so far. */
  function ReadBlocks(queue: seq<seq<nat>>, size: nat, got: seq<nat>, before: nat, mp: nat)
    : (r: (bool, seq<nat>, seq<seq<nat>>))
    requires 0 < mp && |got| <= size
    ensures got <= r.1 && |r.1| <= size
    ensures r.0 && |got| < size ==> |r.2| < |queue|
    decreases size - |got|
  {
    if |got| == size then (true, got, queue)
    else
      var n := NextRead(size - |got|, got == [], before);
      var t := Take(queue, n, mp);
      if !t.0 then (false, got, t.2)
      else if |t.1| < n then (true, got + t.1, t.2)
      else ReadBlocks(t.2, size, got + t.1, n, mp)
  }

  /** What is left waiting when exactly all of some bytes have been read. */
  function Behind(len: nat, mp: nat, more: seq<seq<nat>>): seq<seq<nat>>
    requires 0 < mp
  {
    if len % mp == 0 then [[]] + more else more
  }

  lemma {:induction false} ReadsAll(bytes: seq<nat>, k: nat, before: nat, mp: nat, more: seq<seq<nat>>)
    requires 0 < mp && 512 % mp == 0 && k < |bytes| && k % mp == 0
    ensures ReadBlocks(Packets(bytes[k..], mp) + more, |bytes|, bytes[..k], before, mp) ==
            (true, bytes, Behind(|bytes|, mp, more))
    decreases |bytes| - k
  {
    hide Packets, Take;
    var n := NextRead(|bytes| - k, bytes[..k] == [], before);
    MultipleMinus(|bytes|, k, mp);
    if n < |bytes| - k {
      DividesBlocks(mp);
      TakeFull(bytes[k..], n, mp, more);
      assert bytes[k..][n..] == bytes[k + n..] && bytes[..k] + bytes[k..][..n] == bytes[..k + n];
      MultiplePlus(k, n, mp);
      ReadsAll(bytes, k + n, n, mp, more);
    } else {
      assert bytes[k..][..n] == bytes[k..] && bytes[..k] + bytes[k..] == bytes;
      if n % mp == 0 {
        TakeFull(bytes[k..], n, mp, more);
        NoPackets(bytes[k..][n..], mp);
      } else {
        TakeAll(bytes[k..], n, mp, more);
      }
    }
  }

  /** When a device sends less than is asked for, the loop ends with that. */
  lemma {:induction false} ReadsShort(bytes: seq<nat>, k: nat, size: nat, before: nat, mp: nat, more: seq<seq<nat>>)
    requires 0 < mp && 512 % mp == 0 && k <= |bytes| < size
    ensures ReadBlocks(Packets(bytes[k..], mp) + more, size, bytes[..k], before, mp) == (true, bytes, more)
    decreases |bytes| - k
  {
    hide Packets, Take;
    var n := NextRead(size - k, bytes[..k] == [], before);
    OneRead(Packets(bytes[k..], mp) + more, size, bytes[..k], before, mp);
    if n <= |bytes| - k {
      DividesBlocks(mp);
      TakeFull(bytes[k..], n, mp, more);
      assert bytes[k..][n..] == bytes[k + n..] && bytes[..k] + bytes[k..][..n] == bytes[..k + n];
      ReadsShort(bytes, k + n, size, n, mp, more);
    } else {
      TakeShort(bytes[k..], n, mp, more);
      assert bytes[..k] + bytes[k..] == bytes;
    }
  }

  lemma MultiplePlus(a: nat, b: nat, m: nat)
    requires 0 < m && a % m == 0 && b % m == 0
    ensures (a + b) % m == 0
  {
    assert a == (a / m) * m && b == (b / m) * m;
    assert a + b == (a / m + b / m) * m;
    ModIs(a + b, a / m + b / m, 0, m);
  }

  lemma NoPackets(bytes: seq<nat>, mp: nat)
    requires 0 < mp && bytes == []
    ensures Packets(bytes, mp) == [[]]
  {
  }

  /** ptp_read_func.  `zeroSize` is the packet size of the out endpoint, by which it judges whether a
      zero-length packet is waiting. */
  method ReadFunc(size: nat, handler: MemoryHandler, ep: InEndpoint, zeroSize: nat, readzero: bool)
    returns (ok: bool, readbytes: nat)
    requires ep.Valid() && 0 < zeroSize && handler.Valid() && handler.curoff == |handler.data|
    modifies handler, ep
    ensures ep.Valid() && handler.Valid() && handler.curoff == |handler.data|
    ensures var r := ReadBlocks(old(ep.queue), size, [], 0, ep.maxPacket);
            && ok == r.0 && readbytes == |r.1| && handler.data == old(handler.data) + r.1
            && ep.queue == if ok && readzero && |r.1| % zeroSize == 0 then Take(r.2, 0, ep.maxPacket).2 else r.2
  {
    hide ReadBlocks, Take;
    ghost var before, got, mp := handler.data, [], ep.maxPacket;
    ghost var whole := ReadBlocks(ep.queue, size, [], 0, mp);
    ok, readbytes := true, 0;
    var toread := 0;
    assert before + got == before;
    while readbytes < size
      invariant readbytes == |got| <= size && ok && ep.Valid()
      invariant handler.Valid() && handler.curoff == |handler.data| && handler.data == before + got
      invariant got == [] || toread == CONTEXT_BLOCK_SIZE_1 || toread == CONTEXT_BLOCK_SIZE_2 || readbytes == size
      invariant whole == ReadBlocks(ep.queue, size, got, toread, mp)
      decreases size - readbytes
    {
      OneRead(ep.queue, size, got, toread, mp);
      if size - readbytes < CONTEXT_BLOCK_SIZE {
        toread := size - readbytes;
      } else if readbytes == 0 {
        toread := CONTEXT_BLOCK_SIZE_1;
      } else if toread == CONTEXT_BLOCK_SIZE_1 {
        toread := CONTEXT_BLOCK_SIZE_2;
      } else if toread == CONTEXT_BLOCK_SIZE_2 {
        toread := CONTEXT_BLOCK_SIZE_1;
      } else {
        assert false;     // "unexpected toread size"
      }
      assert 0 < toread < CONTEXT_BLOCK_SIZE;
      var bytes;
      ok, bytes := ep.BulkRead(toread);
      TakeBounded(old(ep.queue), toread, mp);
      if !ok {
        return;
      }
      handler.Put(bytes);
      assert handler.data == before + (got + bytes) by {
        assert handler.data[..handler.curoff] == handler.data;
      }
      got := got + bytes;
      readbytes := readbytes + |bytes|;
      if |bytes| < toread {
        assert whole == (true, got, ep.queue);
        break;
      }
    }
    ReadDone(ep.queue, size, got, toread, mp);
    assert whole == (true, got, ep.queue);
    if readzero && readbytes % zeroSize == 0 {
      var zeroOk, zero := ep.BulkRead(0);
    }
  }

  lemma ReadDone(queue: seq<seq<nat>>, size: nat, got: seq<nat>, before: nat, mp: nat)
    requires 0 < mp && |got| <= size
    ensures |got| == size ==> ReadBlocks(queue, size, got, before, mp) == (true, got, queue)
  {
  }

  lemma OneRead(queue: seq<seq<nat>>, size: nat, got: seq<nat>, before: nat, mp: nat)
    requires 0 < mp && |got| < size
    ensures var n := NextRead(size - |got|, got == [], before);
            var t := Take(queue, n, mp);
            ReadBlocks(queue, size, got, before, mp) ==
            if !t.0 then (false, got, t.2)
            else if |t.1| < n then (true, got + t.1, t.2)
            else ReadBlocks(t.2, size, got + t.1, n, mp)
  {
    hide Take;
  }

  lemma TakeBounded(queue: seq<seq<nat>>, n: nat, mp: nat)
    requires 0 < mp
    ensures Take(queue, n, mp).0 ==> |Take(queue, n, mp).1| <= n
  {
  }

  // ---------- Packets and phases ----------

  /** What one phase leaves for the next (PTPParams). */
  class Phases {
    var responsePacket: seq<nat>        // response_packet, with its size
    var splitHeaderData: bool           // split_header_data

    constructor ()
      ensures responsePacket == [] && !splitHeaderData
    {
      responsePacket, splitHeaderData := [], false;
    }
  }

  /** ptp_usb_getpacket: the packet kept from the phase before, or one transfer of up to 512 bytes. */
  method GetPacket(params: Phases, ep: InEndpoint) returns (ok: bool, packet: seq<nat>)
    requires ep.Valid()
    modifies params`responsePacket, ep
    ensures ep.Valid() && params.responsePacket == []
    ensures old(params.responsePacket) != [] ==> ok && packet == old(params.responsePacket) && ep.queue == old(ep.queue)
    ensures old(params.responsePacket) == [] ==>
              (ok, packet, ep.queue) == ReadBlocks(old(ep.queue), MAX_PACKET_LEN_READ, [], 0, ep.maxPacket)
  {
    if params.responsePacket != [] {
      ok, packet := true, params.responsePacket;
      params.responsePacket := [];
      return;
    }
    var handler := new MemoryHandler([]);
    var rlen;
    ok, rlen := ReadFunc(MAX_PACKET_LEN_READ, handler, ep, 1, false);
    packet := handler.data;
    assert packet == ReadBlocks(old(ep.queue), MAX_PACKET_LEN_READ, [], 0, ep.maxPacket).1;
  }

  /** The fixed part of a container, as it lies in memory that was cleared before. */
  function Fixed(packet: seq<nat>): (h: seq<nat>)
    ensures |h| == BULK_HDR_LEN
    ensures |packet| >= BULK_HDR_LEN ==> h == packet[..BULK_HDR_LEN]
  {
    if |packet| >= BULK_HDR_LEN then packet[..BULK_HDR_LEN]
    else packet + seq(BULK_HDR_LEN - |packet|, i => 0)
  }

  function LengthOf(order: Order, packet: seq<nat>): nat {
    Decode(order, Fixed(packet)[0..4])
  }

  function TypeOf(order: Order, packet: seq<nat>): nat {
    Decode(order, Fixed(packet)[4..6])
  }

  function CodeOf(order: Order, packet: seq<nat>): nat {
    Decode(order, Fixed(packet)[6..8])
  }

  /** `Undefined` stands for a packet shorter than its header, whose payload length wraps around. */
  datatype Ret = Ret(code: nat) | Undefined

  /** What the type and the code of the first packet are good for. */
  function Verdict(order: Order, code: nat, packet: seq<nat>): nat {
    if TypeOf(order, packet) != CONTAINER_DATA then ERROR_DATA_EXPECTED
    else if CodeOf(order, packet) == code then RC_OK
    else if CodeOf(order, packet) < RC_UNDEFINED || CodeOf(order, packet) > RC_LAST then ERROR_IO
    else CodeOf(order, packet)
  }

  /** In terms of the packet: a data container has type 2; a code that is not that of the request is returned if it is
      one of the response codes, from 0x2000 to 0x2020, and is an error of the transport if not. */
  lemma VerdictOfPacket(order: Order, code: nat, packet: seq<nat>)
    requires 12 <= |packet|
    ensures LengthOf(order, packet) == Decode(order, packet[0..4])
    ensures var type_, got := Decode(order, packet[4..6]), Decode(order, packet[6..8]);
            Verdict(order, code, packet) ==
            if type_ != 2 then 0x02fe else if got == code then 0x2001
            else if 0x2000 <= got <= 0x2020 then got else 0x02ff
  {
    var h := Fixed(packet);
    assert h[0..4] == packet[0..4] && h[4..6] == packet[4..6] && h[6..8] == packet[6..8];
  }

  /** The outcome of a data phase: the return value, the bytes for the handler, what is left waiting, what
      is kept for the response phase, and the flag for split headers. */
  datatype Outcome = Outcome(ret: Ret, data: seq<nat>, queue: seq<seq<nat>>, kept: seq<nat>, split: bool)

  /** The data phase behind its first packet, for a container of known length. */
  function AfterPacket(order: Order, packet: seq<nat>, queue: seq<seq<nat>>, code: nat, split: bool, mp: nat,
                       zeroSize: nat): Outcome
    requires 0 < mp && 0 < zeroSize
  {
    var length := LengthOf(order, packet);
    var rlen := if |packet| > length then length else |packet|;
    var kept := if |packet| > length && |packet| - length >= BULK_HDR_LEN then packet[length..] else [];
    if Verdict(order, code, packet) != RC_OK then Outcome(Ret(Verdict(order, code, packet)), [], queue, [], split)
    else if rlen < BULK_HDR_LEN then Outcome(Undefined, [], queue, kept, split)
    else
      var nowSplit := split || (length > 12 && rlen == 12);
      var r := Rest(queue, length, rlen, nowSplit, mp, zeroSize);
      Outcome(r.0, packet[BULK_HDR_LEN..rlen] + r.1, r.2, kept, nowSplit)
  }

  /** What is left of a container after its first transfer: the zero-length packet behind 512 bytes, or
      more data. */
  function Rest(queue: seq<seq<nat>>, length: nat, rlen: nat, split: bool, mp: nat, zeroSize: nat)
    : (r: (Ret, seq<nat>, seq<seq<nat>>))
    requires 0 < mp && 0 < zeroSize
  {
    var q := if length == MAX_PACKET_LEN_READ && !split then Take(queue, 0, mp).2 else queue;
    if length <= rlen then (Ret(RC_OK), [], q)
    else
      var r := ReadBlocks(q, length - rlen, [], 0, mp);
      (Ret(if r.0 then RC_OK else ERROR_IO), r.1, if r.0 && |r.1| % zeroSize == 0 then Take(r.2, 0, mp).2 else r.2)
  }

  /** The checks on the first packet. */
  method CheckHeader(order: Order, code: nat, packet: seq<nat>) returns (ret: nat)
    ensures ret == Verdict(order, code, packet)
  {
    var hdr := Fixed(packet);
    var type_ := ReadInt(hdr, 4, order, 2);
    if type_ != CONTAINER_DATA {
      return ERROR_DATA_EXPECTED;
    }
    var got := ReadInt(hdr, 6, order, 2);
    if got != code {
      return if got < RC_UNDEFINED || got > RC_LAST then ERROR_IO else got;
    }
    ret := RC_OK;
  }

  /** What comes behind the container is kept if it can be a whole packet. */
  method KeepSurplus(params: Phases, packet: seq<nat>, length: nat) returns (rlen: nat)
    requires params.responsePacket == []
    modifies params`responsePacket
    ensures rlen == if |packet| > length then length else |packet|
    ensures params.responsePacket ==
            if |packet| > length && |packet| - length >= BULK_HDR_LEN then packet[length..] else []
  {
    rlen := |packet|;
    if rlen > length {
      if rlen - length >= BULK_HDR_LEN {
        params.responsePacket := packet[length..];
      }
      rlen := length;
    }
  }

  /** A container of unknown length: everything up to the first short transfer. */
  method ReadUnknownLength(ep: InEndpoint, handler: MemoryHandler, zeroSize: nat) returns (ret: Ret)
    requires ep.Valid() && 0 < zeroSize && handler.Valid() && handler.curoff == |handler.data|
    modifies ep, handler
    ensures ep.Valid() && handler.Valid() && handler.curoff == |handler.data|
  {
    while true
      invariant ep.Valid() && handler.Valid() && handler.curoff == |handler.data|
      decreases |ep.queue|
    {
      var ok, n := ReadFunc(MAX_PACKET_LEN_READ, handler, ep, zeroSize, false);
      if !ok {
        return Ret(ERROR_IO);
      }
      if n < MAX_PACKET_LEN_READ {
        break;
      }
    }
    ret := Ret(RC_OK);
  }

  // ---------- What a well-behaved device sends ----------

  /** The container in one piece, the header apart from the data, or the response behind the container. */
  datatype Shape = Whole | Split | Shared(response: seq<nat>)

  function Container(order: Order, code: nat, transId: nat, payload: seq<nat>): (c: seq<nat>)
    ensures |c| == BULK_HDR_LEN + |payload|
  {
    Header(order, |payload|, code, transId) + payload
  }

  function Waiting(order: Order, shape: Shape, code: nat, transId: nat, payload: seq<nat>, mp: nat): seq<seq<nat>>
    requires 0 < mp
  {
    match shape
    case Whole => Packets(Container(order, code, transId, payload), mp)
    case Split => Packets(Header(order, |payload|, code, transId), mp) + Packets(payload, mp)
    case Shared(response) => Packets(Container(order, code, transId, payload) + response, mp)
  }

  /** The length is not the marker for an unknown length, and fits; a response that comes along does so within
      the first transfer. */
  predicate WellBehaved(shape: Shape, code: nat, payload: seq<nat>) {
    && code < 0x10000 && BULK_HDR_LEN + |payload| < 0xffff_ffff
    && match shape
       case Whole => true
       case Split => |payload| > 0
       case Shared(response) => response != [] && BULK_HDR_LEN + |payload| + |response| <= MAX_PACKET_LEN_READ
  }

  /** Whether the zero-length packet behind 512 bytes stays waiting: when these are a container with its response,
      or a whole container although the device has split off a header before. */
  predicate Strays(shape: Shape, payload: seq<nat>, splitBefore: bool) {
    match shape
    case Whole => splitBefore && BULK_HDR_LEN + |payload| == MAX_PACKET_LEN_READ
    case Split => false
    case Shared(response) => BULK_HDR_LEN + |payload| + |response| == MAX_PACKET_LEN_READ
  }

  /** How many bytes of a container come behind the first transfer. */
  function SecondRead(shape: Shape, payload: seq<nat>): nat {
    match shape
    case Whole =>
      if BULK_HDR_LEN + |payload| > MAX_PACKET_LEN_READ then BULK_HDR_LEN + |payload| - MAX_PACKET_LEN_READ else 0
    case Split => |payload|
    case Shared(response) => 0
  }

  /** A read of no bytes takes a packet from the queue, and loses what is in it. */
  function ZeroRead(queue: seq<seq<nat>>): seq<seq<nat>> {
    if queue == [] then [] else queue[1..]
  }

  /** What is waiting behind a container.  Whether a zero-length packet comes is decided by the packet size of the in
      endpoint, and whether it is read by `zeroSize`, that of the out endpoint. */
  function LeftBehind(shape: Shape, payload: seq<nat>, splitBefore: bool, mp: nat, zeroSize: nat, more: seq<seq<nat>>)
    : seq<seq<nat>>
    requires 0 < mp && 0 < zeroSize
  {
    var n := SecondRead(shape, payload);
    if n > 0 then
      var q := Behind(n, mp, more);
      if n % zeroSize == 0 then ZeroRead(q) else q
    else if Strays(shape, payload, splitBefore) then [[]] + more
    else more
  }

  /** The transfer leaves exactly what was behind it if and only if the two packet sizes judge the second read alike,
      or in its absence no zero-length packet stays. */
  lemma NothingLeftIff(shape: Shape, payload: seq<nat>, splitBefore: bool, mp: nat, zeroSize: nat,
                       more: seq<seq<nat>>)
    requires 0 < mp && 0 < zeroSize && more != []
    ensures LeftBehind(shape, payload, splitBefore, mp, zeroSize, more) == more <==>
            var n := SecondRead(shape, payload);
            if n > 0 then n % mp == 0 <==> n % zeroSize == 0 else !Strays(shape, payload, splitBefore)
  {
    assert |[[]] + more| == |more| + 1 && ([[]] + more)[1..] == more && |more[1..]| == |more| - 1;
  }

  /** Both ways to differ, with 576 bytes, 64 of them behind the first transfer: in packets of 64 a zero-length packet
      comes that nobody looks for if the out endpoint has packets of 512; the other way round none comes, and the
      packet behind the container is lost instead. */
  lemma SizesDiffer(payload: seq<nat>, more: seq<seq<nat>>)
    requires BULK_HDR_LEN + |payload| == 576
    ensures LeftBehind(Whole, payload, false, 64, 512, more) == [[]] + more
    ensures LeftBehind(Whole, payload, false, 512, 64, more) == ZeroRead(more)
  {
  }

  /** The first transfer of 512 bytes. */
  function FirstRead(order: Order, shape: Shape, code: nat, transId: nat, payload: seq<nat>): seq<nat> {
    match shape
    case Whole =>
      var c := Container(order, code, transId, payload);
      if |c| <= MAX_PACKET_LEN_READ then c else c[..MAX_PACKET_LEN_READ]
    case Split => Header(order, |payload|, code, transId)
    case Shared(response) => Container(order, code, transId, payload) + response
  }

  /** And what is waiting behind it. */
  function AfterFirst(order: Order, shape: Shape, code: nat, transId: nat, payload: seq<nat>, mp: nat,
                      more: seq<seq<nat>>): seq<seq<nat>>
    requires 0 < mp
  {
    match shape
    case Whole =>
      var c := Container(order, code, transId, payload);
      if |c| < MAX_PACKET_LEN_READ then more else Packets(c[MAX_PACKET_LEN_READ..], mp) + more
    case Split => Packets(payload, mp) + more
    case Shared(response) =>
      if BULK_HDR_LEN + |payload| + |response| == MAX_PACKET_LEN_READ then [[]] + more else more
  }

  lemma FirstTransfer(order: Order, shape: Shape, code: nat, transId: nat, payload: seq<nat>, mp: nat,
                      more: seq<seq<nat>>)
    requires 0 < mp && 512 % mp == 0 && WellBehaved(shape, code, payload)
    ensures ReadBlocks(Waiting(order, shape, code, transId, payload, mp) + more, MAX_PACKET_LEN_READ, [], 0, mp) ==
            (true, FirstRead(order, shape, code, transId, payload),
             AfterFirst(order, shape, code, transId, payload, mp, more))
  {
    hide Take, Packets, Header;
    var q := Waiting(order, shape, code, transId, payload, mp) + more;
    OneRead(q, MAX_PACKET_LEN_READ, [], 0, mp);
    var first := FirstRead(order, shape, code, transId, payload);
    assert [] + first == first;
    match shape {
      case Whole =>
        var c := Container(order, code, transId, payload);
        if |c| < MAX_PACKET_LEN_READ {
          TakeAll(c, MAX_PACKET_LEN_READ, mp, more);
        } else {
          TakeFull(c, MAX_PACKET_LEN_READ, mp, more);
          assert c[..MAX_PACKET_LEN_READ] == first;
          ReadDone(AfterFirst(order, shape, code, transId, payload, mp, more), MAX_PACKET_LEN_READ, first,
            MAX_PACKET_LEN_READ, mp);
        }
      case Split =>
        assert q == Packets(Header(order, |payload|, code, transId), mp) + (Packets(payload, mp) + more);
        TakeAll(first, MAX_PACKET_LEN_READ, mp, Packets(payload, mp) + more);
      case Shared(response) =>
        if |first| < MAX_PACKET_LEN_READ {
          TakeAll(first, MAX_PACKET_LEN_READ, mp, more);
        } else {
          TakeFull(first, MAX_PACKET_LEN_READ, mp, more);
          NoPackets(first[MAX_PACKET_LEN_READ..], mp);
          assert first[..MAX_PACKET_LEN_READ] == first;
          ReadDone([[]] + more, MAX_PACKET_LEN_READ, first, MAX_PACKET_LEN_READ, mp);
        }
    }
  }

  /** The header says what it should. */
  lemma HeaderFields(order: Order, code: nat, transId: nat, payload: seq<nat>, packet: seq<nat>)
    requires code < 0x10000 && BULK_HDR_LEN + |payload| < 0xffff_ffff
    requires |packet| >= BULK_HDR_LEN && packet[..BULK_HDR_LEN] == Header(order, |payload|, code, transId)
    ensures LengthOf(order, packet) == BULK_HDR_LEN + |payload|
    ensures TypeOf(order, packet) == CONTAINER_DATA && CodeOf(order, packet) == code
  {
    hide Encode, Decode, Pow256;
    var h := Header(order, |payload|, code, transId);
    FourBytes();
    TwoBytes();
    DecodeEncode(order, 4, BULK_HDR_LEN + |payload|);
    DecodeEncode(order, 2, CONTAINER_DATA);
    DecodeEncode(order, 2, code);
    assert h[0..4] == Encode(order, 4, BULK_HDR_LEN + |payload|);
    assert h[4..6] == Encode(order, 2, CONTAINER_DATA);
    assert h[6..8] == Encode(order, 2, code);
  }

  lemma TwoBytes()
    ensures Pow256(2) == 0x10000
  {
    assert Pow256(2) == 256 * Pow256(1) == 65536 * Pow256(0);
  }

  /** What is to be read behind the first transfer, and what the two zero-length reads are for. */
  lemma RestTransfer(order: Order, shape: Shape, code: nat, transId: nat, payload: seq<nat>, mp: nat,
                     more: seq<seq<nat>>)
    requires 0 < mp && 512 % mp == 0 && WellBehaved(shape, code, payload)
    ensures var first := FirstRead(order, shape, code, transId, payload);
            var length := BULK_HDR_LEN + |payload|;
            var rest := AfterFirst(order, shape, code, transId, payload, mp, more);
            && |first| >= BULK_HDR_LEN && first[..BULK_HDR_LEN] == Header(order, |payload|, code, transId)
            && (shape.Shared? <==> |first| > length) && (shape.Split? ==> |first| < length)
            && (length <= MAX_PACKET_LEN_READ && !shape.Split? ==> length <= |first|)
            && (|first| > length ==> first[length..] == shape.response)
            && (|first| < length ==> (shape.Split? <==> |first| == BULK_HDR_LEN))
            && (length == MAX_PACKET_LEN_READ && !shape.Split? ==>
                  rest == [[]] + more && Take(rest, 0, mp) == (true, [], more))
            && (length != MAX_PACKET_LEN_READ && length <= |first| ==>
                  rest == if Strays(shape, payload, false) then [[]] + more else more)
            && (length > |first| ==>
                  var got := payload[|first| - BULK_HDR_LEN..];
                  && ReadBlocks(rest, length - |first|, [], 0, mp) == (true, got, Behind(|got|, mp, more)))
            && (if length <= |first| then first[BULK_HDR_LEN..length] == payload
                else first[BULK_HDR_LEN..] == payload[..|first| - BULK_HDR_LEN])
  {
    hide Header, ReadBlocks;
    var c := Container(order, code, transId, payload);
    var first := FirstRead(order, shape, code, transId, payload);
    assert c[..BULK_HDR_LEN] == Header(order, |payload|, code, transId) && c[BULK_HDR_LEN..] == payload;
    match shape {
      case Whole =>
        if |c| > MAX_PACKET_LEN_READ {
          var got := c[MAX_PACKET_LEN_READ..];
          assert got == payload[MAX_PACKET_LEN_READ - BULK_HDR_LEN..];
          ReadsAllFromStart(got, mp, more);
        } else if |c| == MAX_PACKET_LEN_READ {
          NoPackets(c[MAX_PACKET_LEN_READ..], mp);
          ZeroTaken(mp, more);
        }
      case Split =>
        ReadsAllFromStart(payload, mp, more);
        assert payload[0..] == payload && first[BULK_HDR_LEN..] == payload[..0];
      case Shared(response) =>
        assert first[|c|..] == response && first[..|c|] == c;
    }
  }

  lemma ReadsAllFromStart(bytes: seq<nat>, mp: nat, more: seq<seq<nat>>)
    requires 0 < mp && 512 % mp == 0 && bytes != []
    ensures ReadBlocks(Packets(bytes, mp) + more, |bytes|, [], 0, mp) == (true, bytes, Behind(|bytes|, mp, more))
  {
    assert bytes[0..] == bytes && bytes[..0] == [];
    ReadsAll(bytes, 0, 0, mp, more);
  }

  lemma ZeroTaken(mp: nat, more: seq<seq<nat>>)
    requires 0 < mp
    ensures Take([[]] + more, 0, mp) == (true, [], more)
  {
  }

  /** A well-behaved device: the handler gets exactly the payload, a response that came along is kept, and nothing
      of the transfer is left waiting but, in the two cases above, its zero-length packet. */
  lemma DeviceBehaves(order: Order, shape: Shape, code: nat, transId: nat, payload: seq<nat>, mp: nat, zeroSize: nat,
                      more: seq<seq<nat>>, splitBefore: bool)
    requires 0 < mp && 512 % mp == 0 && 0 < zeroSize && WellBehaved(shape, code, payload)
    ensures var first :=
              ReadBlocks(Waiting(order, shape, code, transId, payload, mp) + more, MAX_PACKET_LEN_READ, [], 0, mp);
            && first.0 && LengthOf(order, first.1) != 0xffff_ffff
            && AfterPacket(order, first.1, first.2, code, splitBefore, mp, zeroSize) ==
               Outcome(Ret(RC_OK), payload, LeftBehind(shape, payload, splitBefore, mp, zeroSize, more),
                       if shape.Shared? && |shape.response| >= BULK_HDR_LEN then shape.response else [],
                       splitBefore || shape.Split?)
  {
    hide ReadBlocks, Take, WellBehaved, Waiting, FirstRead, AfterFirst, Header, LengthOf, TypeOf, CodeOf,
         Behind, Rest, LeftBehind;
    var first := FirstRead(order, shape, code, transId, payload);
    FirstTransfer(order, shape, code, transId, payload, mp, more);
    PayloadShort(shape, code, payload);
    RestIs(order, shape, code, transId, payload, mp, zeroSize, more, splitBefore);
    FirstFacts(order, shape, code, transId, payload);
    HeaderFields(order, code, transId, payload, first);
  }

  lemma RestIs(order: Order, shape: Shape, code: nat, transId: nat, payload: seq<nat>, mp: nat, zeroSize: nat,
               more: seq<seq<nat>>, splitBefore: bool)
    requires 0 < mp && 512 % mp == 0 && 0 < zeroSize && WellBehaved(shape, code, payload)
    ensures var first := FirstRead(order, shape, code, transId, payload);
            var length := BULK_HDR_LEN + |payload|;
            var rest := AfterFirst(order, shape, code, transId, payload, mp, more);
            var left := LeftBehind(shape, payload, splitBefore, mp, zeroSize, more);
            && |first| >= BULK_HDR_LEN
            && (if |first| >= length then
                  Rest(rest, length, length, splitBefore, mp, zeroSize) == (Ret(RC_OK), [], left)
                else
                  Rest(rest, length, |first|, splitBefore || shape.Split?, mp, zeroSize) ==
                  (Ret(RC_OK), payload[|first| - BULK_HDR_LEN..], left))
  {
    hide ReadBlocks, Take, Header, Behind, AfterFirst, FirstRead, WellBehaved;
    var first := FirstRead(order, shape, code, transId, payload);
    RestTransfer(order, shape, code, transId, payload, mp, more);
    PayloadShort(shape, code, payload);
    SecondReadIs(order, shape, code, transId, payload);
    if |first| < BULK_HDR_LEN + |payload| {
      ZeroReadIs(Behind(|payload[|first| - BULK_HDR_LEN..]|, mp, more), mp);
    }
  }

  lemma FirstFacts(order: Order, shape: Shape, code: nat, transId: nat, payload: seq<nat>)
    requires WellBehaved(shape, code, payload)
    ensures var first := FirstRead(order, shape, code, transId, payload);
            var length := BULK_HDR_LEN + |payload|;
            && |first| >= BULK_HDR_LEN && first[..BULK_HDR_LEN] == Header(order, |payload|, code, transId)
            && (shape.Shared? <==> |first| > length)
            && (shape.Shared? ==> first[length..] == shape.response)
            && (shape.Split? <==> |first| < length && |first| == BULK_HDR_LEN)
            && (if length <= |first| then first[BULK_HDR_LEN..length] + [] == payload
                else first[BULK_HDR_LEN..|first|] + payload[|first| - BULK_HDR_LEN..] == payload)
  {
    hide Header;
    var c := Container(order, code, transId, payload);
    assert c[..BULK_HDR_LEN] == Header(order, |payload|, code, transId) && c[BULK_HDR_LEN..] == payload;
    match shape {
      case Whole =>
      case Split =>
        assert payload[0..] == payload;
      case Shared(response) =>
        assert (c + response)[|c|..] == response && (c + response)[..|c|] == c;
    }
  }

  lemma PayloadShort(shape: Shape, code: nat, payload: seq<nat>)
    requires WellBehaved(shape, code, payload)
    ensures code < 0x10000 && BULK_HDR_LEN + |payload| < 0xffff_ffff
    ensures shape.Shared? ==> shape.response != [] && BULK_HDR_LEN + |payload| < MAX_PACKET_LEN_READ
    ensures shape.Split? ==> |payload| > 0
  {
  }

  lemma SecondReadIs(order: Order, shape: Shape, code: nat, transId: nat, payload: seq<nat>)
    requires WellBehaved(shape, code, payload)
    ensures var first, length := FirstRead(order, shape, code, transId, payload), BULK_HDR_LEN + |payload|;
            SecondRead(shape, payload) == if |first| < length then length - |first| else 0
  {
  }

  lemma ZeroReadIs(queue: seq<seq<nat>>, mp: nat)
    requires 0 < mp
    ensures Take(queue, 0, mp).2 == ZeroRead(queue)
  {
  }

  /** A device is believed whatever it has announced: when it sends the bytes `b` behind the first packet `p`, and not
      more than announced, the outcome is OK with just these, so with all that was announced if and only if it sent as
      much. */
  lemma CompleteIff(order: Order, code: nat, p: seq<nat>, b: seq<nat>, more: seq<seq<nat>>, split: bool, mp: nat,
                    zeroSize: nat)
    requires 0 < mp && 512 % mp == 0 && 0 < zeroSize && BULK_HDR_LEN <= |p| && Verdict(order, code, p) == RC_OK
    requires b != [] && |p| + |b| <= LengthOf(order, p) != MAX_PACKET_LEN_READ
    ensures var o := AfterPacket(order, p, Packets(b, mp) + more, code, split, mp, zeroSize);
            && o.ret == Ret(RC_OK) && o.data == p[12..] + b
            && (|o.data| == LengthOf(order, p) - 12 <==> |p| + |b| == LengthOf(order, p))
            && (|p| + |b| < LengthOf(order, p) ==> o.queue == if |b| % zeroSize == 0 then ZeroRead(more) else more)
  {
    hide Verdict, LengthOf, ReadBlocks, Packets;
    var missing := LengthOf(order, p) - |p|;
    assert b[0..] == b && b[..0] == [] && p[12..|p|] == p[12..];
    if |b| < missing {
      ReadsShort(b, 0, missing, 0, mp, more);
    } else {
      ReadsAllFromStart(b, mp, more);
    }
    ZeroReadIs(more, mp);
  }

  /** The packet that a phase starts with: the one kept before, or the next transfer. */
  function FirstOf(kept: seq<nat>, queue: seq<seq<nat>>, mp: nat): (bool, seq<nat>, seq<seq<nat>>)
    requires 0 < mp
  {
    if kept != [] then (true, kept, queue) else ReadBlocks(queue, MAX_PACKET_LEN_READ, [], 0, mp)
  }

  /** A short packet that waits is read alone. */
  lemma FirstWaiting(packet: seq<nat>, more: seq<seq<nat>>, mp: nat)
    requires |packet| < mp <= 512
    ensures FirstOf([], [packet] + more, mp) == (true, packet, more)
    ensures packet != [] ==> FirstOf(packet, more, mp) == (true, packet, more)
  {
    OneRead([packet] + more, MAX_PACKET_LEN_READ, [], 0, mp);
    assert [] + packet == packet && ([packet] + more)[1..] == more;
  }

  /** ptp_usb_getdata. */
  method GetData(order: Order, params: Phases, ep: InEndpoint, zeroSize: nat, code: nat, handler: MemoryHandler)
    returns (ret: Ret)
    requires ep.Valid() && 0 < zeroSize && handler.Valid() && handler.curoff == |handler.data|
    modifies params, ep, handler
    ensures ep.Valid() && handler.Valid() && handler.curoff == |handler.data|
    ensures var first := FirstOf(old(params.responsePacket), old(ep.queue), ep.maxPacket);
            && (!first.0 ==> ret == Ret(ERROR_IO) && handler.data == old(handler.data))
            && (first.0 && LengthOf(order, first.1) != 0xffff_ffff ==>
                  var o := AfterPacket(order, first.1, first.2, code, old(params.splitHeaderData), ep.maxPacket,
                    zeroSize);
                  && ret == o.ret && handler.data == old(handler.data) + o.data && ep.queue == o.queue
                  && params.responsePacket == o.kept && params.splitHeaderData == o.split)
  {
    hide ReadBlocks, Take, TypeOf, CodeOf, Rest, LengthOf;
    var ok, packet := GetPacket(params, ep);
    if !ok {
      return Ret(ERROR_IO);
    }
    assert handler.data + [] == handler.data;
    var xret := CheckHeader(order, code, packet);
    if xret != RC_OK {
      return Ret(xret);
    }
    var length := ReadInt(Fixed(packet), 0, order, 4);
    LengthRead(order, packet, length);
    if length == 0xffff_ffff {
      if |packet| < BULK_HDR_LEN {
        return Undefined;
      }
      handler.Put(packet[BULK_HDR_LEN..]);
      ret := ReadUnknownLength(ep, handler, zeroSize);
      return;
    }
    ret := ReadContainer(order, params, ep, zeroSize, code, handler, packet, length);
  }

  /** The rest of ptp_usb_getdata, for a container of known length whose header has been found right. */
  method ReadContainer(order: Order, params: Phases, ep: InEndpoint, zeroSize: nat, ghost code: nat,
                       handler: MemoryHandler,
                       packet: seq<nat>, length: nat)
    returns (ret: Ret)
    requires ep.Valid() && 0 < zeroSize && handler.Valid() && handler.curoff == |handler.data|
    requires params.responsePacket == [] && length == LengthOf(order, packet) && Verdict(order, code, packet) == RC_OK
    modifies params, ep, handler
    ensures ep.Valid() && handler.Valid() && handler.curoff == |handler.data|
    ensures var o := AfterPacket(order, packet, old(ep.queue), code, old(params.splitHeaderData), ep.maxPacket,
              zeroSize);
            && ret == o.ret && handler.data == old(handler.data) + o.data && ep.queue == o.queue
            && params.responsePacket == o.kept && params.splitHeaderData == o.split
  {
    hide Rest, LengthOf, Verdict;
    assert handler.data + [] == handler.data;
    var rlen := KeepSurplus(params, packet, length);
    if rlen < BULK_HDR_LEN {
      return Undefined;
    }
    if length > 12 && rlen == 12 {
      params.splitHeaderData := true;
    }
    handler.Put(packet[BULK_HDR_LEN..rlen]);
    assert handler.data == old(handler.data) + packet[BULK_HDR_LEN..rlen] by {
      assert handler.data[..handler.curoff] == handler.data;
    }
    ret := ReadRest(ep, handler, zeroSize, length, rlen, params.splitHeaderData);
  }

  method ReadRest(ep: InEndpoint, handler: MemoryHandler, zeroSize: nat, length: nat, rlen: nat, split: bool)
    returns (ret: Ret)
    requires ep.Valid() && 0 < zeroSize && handler.Valid() && handler.curoff == |handler.data|
    modifies ep, handler
    ensures ep.Valid() && handler.Valid() && handler.curoff == |handler.data|
    ensures var r := Rest(old(ep.queue), length, rlen, split, ep.maxPacket, zeroSize);
            ret == r.0 && handler.data == old(handler.data) + r.1 && ep.queue == r.2
  {
    hide ReadBlocks, Take;
    assert handler.data + [] == handler.data;
    if length == MAX_PACKET_LEN_READ && !split {
      var zeroOk, zero := ep.BulkRead(0);
    }
    if length <= rlen {
      return Ret(RC_OK);
    }
    var ok, n := ReadFunc(length - rlen, handler, ep, zeroSize, true);
    ret := Ret(if ok then RC_OK else ERROR_IO);
  }

  lemma LengthRead(order: Order, packet: seq<nat>, length: nat)
    requires length == Decode(order, Fixed(packet)[0..0 + 4])
    ensures length == LengthOf(order, packet)
  {
  }

  // ---------- The response ----------

  /** What the response container is good for. */
  function ResponseVerdict(order: Order, expected: nat, packet: seq<nat>): nat {
    if TypeOf(order, packet) != CONTAINER_RESPONSE then ERROR_RESP_EXPECTED
    else if CodeOf(order, packet) == expected then RC_OK
    else CodeOf(order, packet)
  }

  /** ptp_usb_getresp: the return code, and the container it looks at. */
  method GetResponse(order: Order, params: Phases, ep: InEndpoint, expected: nat) returns (ret: nat, seen: seq<nat>)
    requires ep.Valid()
    modifies params`responsePacket, ep
    ensures ep.Valid() && params.responsePacket == []
    ensures var first := FirstOf(old(params.responsePacket), old(ep.queue), ep.maxPacket);
            && seen == first.1 && ep.queue == first.2
            && ret == if first.0 then ResponseVerdict(order, expected, seen) else ERROR_IO
  {
    var ok, packet := GetPacket(params, ep);
    seen := packet;
    if !ok {
      return ERROR_IO, seen;
    }
    var hdr := Fixed(packet);
    var type_ := ReadInt(hdr, 4, order, 2);
    if type_ != CONTAINER_RESPONSE {
      return ERROR_RESP_EXPECTED, seen;
    }
    var code := ReadInt(hdr, 6, order, 2);
    ret := if code != expected then code else RC_OK;
  }

  /** A zero-length packet left behind is all that the next phase gets: it is neither data nor a response. */
  lemma StrayPacket(order: Order, code: nat, expected: nat, mp: nat, more: seq<seq<nat>>)
    requires 0 < mp
    ensures var first := FirstOf([], [[]] + more, mp);
            && first == (true, [], more)
            && Verdict(order, code, first.1) == ERROR_DATA_EXPECTED
            && ResponseVerdict(order, expected, first.1) == ERROR_RESP_EXPECTED
  {
    OneRead([[]] + more, MAX_PACKET_LEN_READ, [], 0, mp);
    var zeros := Fixed([]);
    assert zeros[4..6] == [0, 0];
    NumberOfTwo(0, 0);
    assert Flip([0, 0]) == [0, 0];
  }

  /** Both phases: when the response shares the packet of the data, the handler gets exactly the data and
      the response phase exactly the response, without reading from the device again. */
  method DataThenResponse(order: Order, params: Phases, ep: InEndpoint, code: nat, handler: MemoryHandler,
                          zeroSize: nat, expected: nat, ghost transId: nat, ghost payload: seq<nat>,
                          ghost response: seq<nat>, ghost more: seq<seq<nat>>)
    returns (ret: Ret, respRet: nat, seen: seq<nat>)
    requires ep.Valid() && handler.Valid() && handler.curoff == |handler.data| && params.responsePacket == []
    requires WellBehaved(Shared(response), code, payload) && |response| >= BULK_HDR_LEN && 0 < zeroSize
    requires ep.queue == Waiting(order, Shared(response), code, transId, payload, ep.maxPacket) + more
    modifies params, ep, handler
    ensures ret == Ret(RC_OK) && handler.data == old(handler.data) + payload
    ensures seen == response && respRet == ResponseVerdict(order, expected, response)
    ensures ep.queue == (if Strays(Shared(response), payload, false) then [[]] + more else more)
    ensures params.responsePacket == []
  {
    hide ReadBlocks, Take, WellBehaved, Waiting, AfterPacket, LengthOf, TypeOf, CodeOf, ResponseVerdict;
    DeviceBehaves(order, Shared(response), code, transId, payload, ep.maxPacket, zeroSize, more,
      params.splitHeaderData);
    ret := GetData(order, params, ep, zeroSize, code, handler);
    respRet, seen := GetResponse(order, params, ep, expected);
  }
}
