/** The data phase to the device over USB: ptp_usb_senddata and ptp_write_func (src/usb.c:272-427, 577-657). */
module UsbSend {
  import opened ByteOrder
  import opened Handlers

  datatype Code = OK | GeneralError | IoError

  const CONTEXT_BLOCK_SIZE: nat := 0x4000
  const BULK_HDR_LEN: nat := 12
  const BULK_PAYLOAD_LEN_WRITE: nat := 500
  const CONTAINER_DATA: nat := 2

  /** How many of `n` bytes a write takes, when `accepts` tells how many the coming writes take at most; when
      nothing is told, a write takes all. */
  function Taken(n: nat, accepts: seq<nat>): (w: nat)
    requires 0 < n
    ensures 0 < w <= n
  {
    if accepts == [] || accepts[0] >= n then n else if accepts[0] == 0 then 1 else accepts[0]
  }

  function Later(accepts: seq<nat>): seq<nat> {
    if accepts == [] then [] else accepts[1..]
  }

  /** The out endpoint.  `zeros` tells, for every zero-length packet, how many bytes went before it. */
  class OutEndpoint {
    const maxPacket: nat
    const reliable: bool
    var accepts: seq<nat>
    var sent: seq<nat>
    var zeros: seq<nat>
    var transferComplete: nat       // current_transfer_complete
    var transferTotal: nat          // current_transfer_total

    ghost predicate Valid() {
      0 < maxPacket
    }

    constructor (maxPacket: nat, reliable: bool, accepts: seq<nat>)
      requires 0 < maxPacket
      ensures Valid() && this.maxPacket == maxPacket && this.reliable == reliable && this.accepts == accepts
      ensures sent == [] && zeros == []
    {
      this.maxPacket, this.reliable, this.accepts := maxPacket, reliable, accepts;
      sent, zeros, transferComplete, transferTotal := [], [], 0, 0;
    }

    /** libusb_bulk_transfer: writes may be short, but make progress. */
    method BulkWrite(data: seq<nat>) returns (ok: bool, written: nat)
      requires data != []
      modifies this`sent, this`accepts
      ensures reliable ==> ok
      ensures ok ==> written == Taken(|data|, old(accepts)) && sent == old(sent) + data[..written]
      ensures ok ==> accepts == Later(old(accepts))
    {
      ok, written := true, 0;
      if !reliable {
        ok := *;
        if !ok {
          return;
        }
      }
      written := Taken(|data|, accepts);
      accepts := Later(accepts);
      sent := sent + data[..written];
    }

    method ZeroWrite() returns (ok: bool)
      modifies this`zeros
      ensures reliable ==> ok
      ensures ok ==> zeros == old(zeros) + [|sent|]
    {
      ok := true;
      if !reliable {
        ok := *;
        if !ok {
          return;
        }
      }
      zeros := zeros + [|sent|];
    }
  }

  /** How much ptp_write_func takes at once when `left` bytes are to go. */
  function Block(left: nat, mp: nat): (b: nat)
    requires 0 < left && 0 < mp
    ensures 0 < b <= left && b <= CONTEXT_BLOCK_SIZE
  {
    if left > CONTEXT_BLOCK_SIZE then CONTEXT_BLOCK_SIZE
    else if left > mp && left % mp != 0 then left - left % mp
    else left
  }

  /** The size of the last block when `left` bytes are written block by block. */
  function LastBlock(left: nat, mp: nat): (b: nat)
    requires 0 < left && 0 < mp
    decreases left
  {
    if Block(left, mp) == left then left else LastBlock(left - Block(left, mp), mp)
  }

  /** Division with remainder has one outcome. */
  lemma ModIs(a: nat, q: int, r: nat, m: nat)
    requires r < m && a == q * m + r
    ensures a % m == r
  {
    var d := q - a / m;
    assert a == (a / m) * m + a % m;
    assert d * m == a % m - r;
    Grows(d, m);
  }

  lemma Grows(d: int, m: nat)
    ensures d >= 1 ==> d * m >= m
    ensures d <= -1 ==> d * m <= -(m as int)
  {
  }

  lemma MultipleMinus(a: nat, b: nat, m: nat)
    requires 0 < m && b <= a && b % m == 0
    ensures (a - b) % m == a % m
  {
    assert a == (a / m) * m + a % m && b == (b / m) * m;
    assert (a / m) * m - (b / m) * m == (a / m - b / m) * m;
    ModIs(a - b, a / m - b / m, a % m, m);
  }

  /** A multiple of 512 is a multiple of what divides 512. */
  lemma DividesBlocks(mp: nat)
    requires 0 < mp && 512 % mp == 0
    ensures CONTEXT_BLOCK_SIZE % mp == 0 && 0x3e00 % mp == 0
  {
    var q := 512 / mp;
    assert 512 == q * mp;
    assert CONTEXT_BLOCK_SIZE == (32 * q) * mp && 0x3e00 == (31 * q) * mp;
    ModIs(CONTEXT_BLOCK_SIZE, 32 * q, 0, mp);
    ModIs(0x3e00, 31 * q, 0, mp);
  }

  /** The last block fills its packets exactly if all the bytes together do. */
  lemma {:induction false} LastBlockFull(left: nat, mp: nat)
    requires 0 < left && 0 < mp && 512 % mp == 0
    ensures LastBlock(left, mp) % mp == 0 <==> left % mp == 0
    decreases left
  {
    if Block(left, mp) < left {
      BlockFull(left, mp);
      MultipleMinus(left, Block(left, mp), mp);
      LastBlockFull(left - Block(left, mp), mp);
    }
  }

  /** A block that is not the last one fills its packets. */
  lemma BlockFull(left: nat, mp: nat)
    requires 0 < left && 0 < mp && 512 % mp == 0
    ensures Block(left, mp) < left ==> Block(left, mp) % mp == 0
  {
    if left > CONTEXT_BLOCK_SIZE {
      DividesBlocks(mp);
    } else if left > mp && left % mp != 0 {
      ModIs(left - left % mp, left / mp, 0, mp);
    }
  }

  /** Taking some bytes, and some more. */
  lemma TakeMore(p: seq<nat>, s: seq<nat>, a: nat, b: nat)
    requires a + b <= |s|
    ensures p + s[..a] + s[a..][..b] == p + s[..a + b] && s[a..][b..] == s[a + b..]
  {
  }

  lemma TakeNone(s: seq<nat>)
    ensures s[..0] == [] && s[0..] == s && s[..|s|] == s
  {
  }

  /** When `n` bytes are written in as many calls as it takes: the size of the last, and what is told about the
      writes behind it. */
  function WriteAll(n: nat, accepts: seq<nat>): (r: (nat, seq<nat>))
    requires 0 < n
    ensures 0 < r.0 <= n && (r.0 == n <==> Taken(n, accepts) == n)
    decreases n
  {
    var w := Taken(n, accepts);
    if w == n then (n, Later(accepts)) else WriteAll(n - w, Later(accepts))
  }

  lemma WriteAllStep(n: nat, accepts: seq<nat>)
    requires 0 < n
    ensures var w := Taken(n, accepts);
            WriteAll(n, accepts) == if w == n then (n, Later(accepts)) else WriteAll(n - w, Later(accepts))
  {
    hide Taken;
  }

  /** Writes `bytes`, in as many calls as it takes; `last` is the size of the last of them. */
  method WriteFully(out: OutEndpoint, bytes: seq<nat>) returns (ok: bool, last: nat)
    requires out.Valid() && bytes != []
    modifies out`sent, out`accepts, out`transferComplete
    ensures out.reliable ==> ok
    ensures ok ==> out.sent == old(out.sent) + bytes && out.transferComplete == old(out.transferComplete) + |bytes|
    ensures ok ==> (last, out.accepts) == WriteAll(|bytes|, old(out.accepts))
  {
    hide WriteAll, Taken, Later;
    ok, last := true, 0;
    var usbwritten := 0;
    TakeNone(bytes);
    while usbwritten < |bytes|
      invariant 0 <= usbwritten <= |bytes| && ok
      invariant if usbwritten < |bytes| then
                  WriteAll(|bytes| - usbwritten, out.accepts) == WriteAll(|bytes|, old(out.accepts))
                else (last, out.accepts) == WriteAll(|bytes|, old(out.accepts))
      invariant out.sent == old(out.sent) + bytes[..usbwritten]
      invariant out.transferComplete == old(out.transferComplete) + usbwritten
    {
      WriteAllStep(|bytes| - usbwritten, out.accepts);
      ok, last := out.BulkWrite(bytes[usbwritten..]);
      if !ok {
        return;
      }
      TakeMore(old(out.sent), bytes, usbwritten, last);
      out.transferComplete := out.transferComplete + last;
      usbwritten := usbwritten + last;
    }
  }

  /** One block from the handler to the endpoint. */
  method WriteBlock(size: nat, handler: MemoryHandler, out: OutEndpoint) returns (ok: bool, last: nat)
    requires out.Valid() && handler.Valid() && 0 < size <= |handler.Left()|
    modifies handler, out`sent, out`accepts, out`transferComplete
    ensures handler.Valid() && handler.data == old(handler.data) && (out.reliable ==> ok)
    ensures handler.Left() == old(handler.Left())[size..]
    ensures ok ==> out.sent == old(out.sent) + old(handler.Left())[..size]
    ensures ok ==> out.transferComplete == old(out.transferComplete) + size
    ensures ok ==> (last, out.accepts) == WriteAll(size, old(out.accepts))
  {
    var bytes := handler.Get(size);
    ok, last := WriteFully(out, bytes);
  }

  /** The position after each round, and the block it was written in. */
  ghost predicate Progress(size: nat, mp: nat, written: nat, block: nat)
    requires 0 < size && 0 < mp
  {
    && written <= size
    && (written < size ==> LastBlock(size - written, mp) == LastBlock(size, mp))
    && (written == size ==> block == LastBlock(size, mp))
    && (size <= CONTEXT_BLOCK_SIZE ==> written == 0 || written == Block(size, mp) || written == size)
    && (written == 0 || written >= Block(size, mp))
  }

  /** How many of `size` bytes the loop of ptp_write_func writes: it ends behind a block taken in parts. */
  function Written(size: nat, mp: nat, accepts: seq<nat>): (w: nat)
    requires 0 < size && 0 < mp
    ensures 0 < w <= size
    decreases size
  {
    var b := Block(size, mp);
    if b == size || Taken(b, accepts) < b then b else b + Written(size - b, mp, WriteAll(b, accepts).1)
  }

  lemma WrittenStep(size: nat, mp: nat, accepts: seq<nat>)
    requires 0 < size && 0 < mp
    ensures var b := Block(size, mp);
            var r := WriteAll(b, accepts);
            Written(size, mp, accepts) == b + if b == size || r.0 < b then 0 else Written(size - b, mp, r.1)
  {
    hide Block, Taken, WriteAll;
  }

  /** Up to 0x4000 bytes all go out, unless they make up two blocks and the first is taken in parts. */
  lemma WrittenMeans(size: nat, mp: nat, accepts: seq<nat>)
    requires 0 < size <= CONTEXT_BLOCK_SIZE && 0 < mp
    ensures Written(size, mp, accepts) < size <==>
              Block(size, mp) < size && Taken(Block(size, mp), accepts) < Block(size, mp)
    ensures Written(size, mp, accepts) < size ==>
              Written(size, mp, accepts) == Block(size, mp) && size - Block(size, mp) == size % mp
  {
    var b := Block(size, mp);
    if b < size {
      assert size - b == size % mp < mp;
      assert Block(size - b, mp) == size - b;
    }
  }

  lemma NextBlock(size: nat, mp: nat, written: nat, block: nat)
    requires 0 < size && 0 < mp && Progress(size, mp, written, block) && written < size
    ensures Progress(size, mp, written + Block(size - written, mp), Block(size - written, mp))
  {
    if size <= CONTEXT_BLOCK_SIZE && written > 0 {
      assert size - written == size % mp < mp;
    }
  }

  /** The loop of ptp_write_func.  A block that took more than one write ends it early, although all of
      the block has been written; `block` is the size of the last block. */
  method WriteBlocks(size: nat, handler: MemoryHandler, out: OutEndpoint)
    returns (ok: bool, written: nat, block: nat)
    requires out.Valid() && handler.Valid() && 0 < size <= |handler.Left()|
    modifies handler, out`sent, out`accepts, out`transferComplete
    ensures handler.Valid() && handler.data == old(handler.data) && (out.reliable ==> ok)
    ensures ok ==>
              && written == Written(size, out.maxPacket, old(out.accepts))
              && Progress(size, out.maxPacket, written, block) && 0 < block
              && out.sent == old(out.sent) + old(handler.Left())[..written]
              && handler.Left() == old(handler.Left())[written..]
              && out.transferComplete == old(out.transferComplete) + written
  {
    hide LastBlock, Progress, Block, Taken, WriteAll, Written;
    ok, written, block := true, 0, 0;
    var cut := false;
    ghost var left := handler.Left();
    TakeNone(left);
    NoProgress(size, out.maxPacket);
    while written < size && !cut
      invariant 0 <= written <= size && ok && handler.Valid() && handler.data == old(handler.data)
      invariant out.sent == old(out.sent) + left[..written] && handler.Left() == left[written..]
      invariant out.transferComplete == old(out.transferComplete) + written
      invariant Progress(size, out.maxPacket, written, block) && (written > 0 ==> block > 0) && (cut ==> written > 0)
      invariant Written(size, out.maxPacket, old(out.accepts)) ==
                written + if written < size && !cut then Written(size - written, out.maxPacket, out.accepts) else 0
      decreases size - written
    {
      NextBlock(size, out.maxPacket, written, block);
      WrittenStep(size - written, out.maxPacket, out.accepts);
      block := Block(size - written, out.maxPacket);
      var last;
      ok, last := WriteBlock(block, handler, out);
      if !ok {
        return;
      }
      TakeMore(old(out.sent), left, written, block);
      written := written + block;
      cut := last < block;
    }
    ProgressMeans(size, out.maxPacket, written, block);
  }

  lemma NoProgress(size: nat, mp: nat)
    requires 0 < size && 0 < mp
    ensures Progress(size, mp, 0, 0)
  {
  }

  lemma ProgressMeans(size: nat, mp: nat, written: nat, block: nat)
    requires 0 < size && 0 < mp && Progress(size, mp, written, block) && 0 < written
    ensures size <= CONTEXT_BLOCK_SIZE ==> written == Block(size, mp) || written == size
    ensures Block(size, mp) <= written <= size && (written == size ==> block == LastBlock(size, mp))
    ensures 512 % mp == 0 && written < size ==> ((size - written) % mp == 0 <==> size % mp == 0)
  {
    if 512 % mp == 0 && written < size {
      LastBlockFull(size, mp);
      LastBlockFull(size - written, mp);
    }
  }

  predicate Fills(n: nat, mp: nat)
    requires 0 < mp
  {
    n % mp == 0
  }

  /** ptp_write_func: the blocks, and a zero-length packet if this ends the transfer on a full one. */
  method WriteFunc(size: nat, handler: MemoryHandler, out: OutEndpoint)
    returns (ok: bool, written: nat)
    requires out.Valid() && handler.Valid() && 0 < size <= |handler.Left()| && 512 % out.maxPacket == 0
    modifies handler, out`sent, out`accepts, out`zeros, out`transferComplete
    ensures handler.Valid() && handler.data == old(handler.data) && (out.reliable ==> ok)
    ensures ok ==>
              && written == Written(size, out.maxPacket, old(out.accepts)) && 0 < written <= size
              && (written < size ==> (Fills(size - written, out.maxPacket) <==> Fills(size, out.maxPacket)))
              && out.sent == old(out.sent) + old(handler.Left())[..written]
              && handler.Left() == old(handler.Left())[written..]
              && out.transferComplete == old(out.transferComplete) + written
    ensures ok && size <= CONTEXT_BLOCK_SIZE ==>
              var b := Block(size, out.maxPacket);
              && (written < size <==> b < size && Taken(b, old(out.accepts)) < b)
              && (written < size ==> size - written == size % out.maxPacket)
    ensures ok && out.transferComplete < out.transferTotal ==> out.zeros == old(out.zeros)
    ensures ok && out.transferTotal <= out.transferComplete && written == size ==>
              out.zeros == old(out.zeros) + if Fills(size, out.maxPacket) then [|out.sent|] else []
  {
    hide LastBlock, Progress, Block, Written, Taken;
    var block;
    ok, written, block := WriteBlocks(size, handler, out);
    if ok {
      ProgressMeans(size, out.maxPacket, written, block);
      LastBlockFull(size, out.maxPacket);
      if size <= CONTEXT_BLOCK_SIZE {
        WrittenMeans(size, out.maxPacket, old(out.accepts));
      }
      ok := Terminate(out, block);
      assert old(out.zeros) + [] == old(out.zeros);
    }
  }

  /** The zero-length packet behind a transfer whose last block filled its packets. */
  method Terminate(out: OutEndpoint, block: nat) returns (ok: bool)
    requires out.Valid()
    modifies out`zeros
    ensures out.reliable ==> ok
    ensures ok ==> out.zeros == if out.transferComplete >= out.transferTotal && block % out.maxPacket == 0
                                then old(out.zeros) + [|out.sent|] else old(out.zeros)
  {
    ok := true;
    if out.transferComplete >= out.transferTotal {
      if block % out.maxPacket == 0 {
        ok := out.ZeroWrite();
      }
    }
  }

  // ---------- The data phase ----------

  function Header(order: Order, size: nat, code: nat, transId: nat): (h: seq<nat>)
    ensures |h| == BULK_HDR_LEN
  {
    Encode(order, 4, (BULK_HDR_LEN + size) % 0x1_0000_0000) + Encode(order, 2, CONTAINER_DATA) +
    Encode(order, 2, code) + Encode(order, 4, transId)
  }

  /** How many bytes of the data go out together with the header. */
  function FirstPayload(split: bool, size: nat): nat {
    if split then 0 else if size < BULK_PAYLOAD_LEN_WRITE then size else BULK_PAYLOAD_LEN_WRITE
  }

  /** Length of the container, type 2, code and transaction id. */
  lemma HeaderLaid(order: Order, size: nat, code: nat, transId: nat)
    ensures var h := Header(order, size, code, transId);
            && |h| == 12 && h[0..4] == Encode(order, 4, (12 + size) % 0x1_0000_0000)
            && h[4..6] == Encode(order, 2, 2) && h[6..8] == Encode(order, 2, code)
            && h[8..12] == Encode(order, 4, transId)
  {
    hide Encode;
  }

  /** Unless it is split off, the header takes up to 500 bytes of the data along. */
  lemma FirstPayloadIs(size: nat)
    ensures FirstPayload(true, size) == 0 && FirstPayload(false, size) == if size < 500 then size else 500
  {
  }

  /** The first write takes more than one block exactly if it neither fits nor fills packets. */
  predicate FirstInOneBlock(split: bool, size: nat, mp: nat)
    requires 0 < mp
  {
    var wlen := BULK_HDR_LEN + FirstPayload(split, size);
    wlen <= mp || wlen % mp == 0
  }

  /** How many bytes of the first write never go out, because the number that ptp_write_func reports for it is
      not looked at: those behind its first block, if there are any and the endpoint takes the block in parts. */
  function Lost(split: bool, size: nat, mp: nat, accepts: seq<nat>): nat
    requires 0 < mp
  {
    var wlen := BULK_HDR_LEN + FirstPayload(split, size);
    if !FirstInOneBlock(split, size, mp) && Taken(wlen - wlen % mp, accepts) < wlen - wlen % mp then wlen % mp else 0
  }

  /** ptp_usb_senddata. */
  method SendData(order: Order, out: OutEndpoint, split: bool, code: nat, transId: nat, size: nat,
                  handler: MemoryHandler)
    returns (r: Code)
    requires out.Valid() && 512 % out.maxPacket == 0 && handler.Valid() && size + BULK_HDR_LEN < 0x1_0000_0000
    requires size <= |handler.Left()| || (!split && |handler.Left()| < FirstPayload(split, size))
    modifies handler, out`sent, out`accepts, out`zeros, out`transferComplete, out`transferTotal
    ensures handler.Valid() && handler.data == old(handler.data)
    ensures |old(handler.Left())| < size ==>
              r == GeneralError && out.sent == old(out.sent) && out.zeros == old(out.zeros)
    ensures size <= |old(handler.Left())| && out.reliable ==> r == OK
    ensures r == OK ==>
              var whole := Header(order, size, code, transId) + old(handler.Left());
              var wlen := BULK_HDR_LEN + FirstPayload(split, size);
              var lost := Lost(split, size, out.maxPacket, old(out.accepts));
              && lost <= wlen && out.sent == old(out.sent) + whole[..wlen - lost] + whole[wlen..BULK_HDR_LEN + size]
              && out.zeros == old(out.zeros) +
                 if lost == 0 && LastPart(split, size) % out.maxPacket == 0 then [|out.sent|] else []
  {
    hide Header, Block, FirstInOneBlock, FirstPayload, LastPart, Lost, Taken;
    r := OK;
    out.transferComplete, out.transferTotal := 0, size + BULK_HDR_LEN;
    var datawlen := FirstPayload(split, size);
    FirstPayloadBounds(split, size);
    ghost var bytes := handler.Left();
    var ok, payload := FirstBytes(split, size, handler);
    if !ok {
      return GeneralError;
    }
    ghost var header, wlen, lost := Header(order, size, code, transId), BULK_HDR_LEN + datawlen,
                                    Lost(split, size, out.maxPacket, out.accepts);
    WholeParts(header, bytes, datawlen, size);
    FirstLoss(split, size, out.maxPacket, out.accepts);
    r := SendFirst(out, Header(order, size, code, transId) + payload);
    if r != OK {
      return IoError;
    }
    PrefixOfPrefix(header + bytes, wlen, lost);
    if size <= datawlen {
      return;
    }
    r := SendRest(out, size - datawlen, handler);
  }

  lemma PrefixOfPrefix(whole: seq<nat>, n: nat, lost: nat)
    requires lost <= n <= |whole|
    ensures whole[..n][..n - lost] == whole[..n - lost]
  {
  }

  /** The bytes that go out with the header. */
  method FirstBytes(split: bool, size: nat, handler: MemoryHandler) returns (ok: bool, payload: seq<nat>)
    requires handler.Valid()
    modifies handler
    ensures handler.Valid() && handler.data == old(handler.data)
    ensures !ok <==> !split && |old(handler.Left())| < FirstPayload(split, size)
    ensures ok ==> FirstPayload(split, size) <= |old(handler.Left())|
                   && payload == old(handler.Left())[..FirstPayload(split, size)]
                   && handler.Left() == old(handler.Left())[FirstPayload(split, size)..]
  {
    ok, payload := true, [];
    if !split {
      payload := handler.Get(FirstPayload(split, size));
      ok := |payload| == FirstPayload(split, size);
    }
  }

  lemma FirstPayloadBounds(split: bool, size: nat)
    ensures FirstPayload(split, size) <= size && FirstPayload(split, size) <= BULK_PAYLOAD_LEN_WRITE
    ensures LastPart(split, size) ==
            if size <= FirstPayload(split, size) then BULK_HDR_LEN + size else size - FirstPayload(split, size)
  {
  }

  lemma WholeParts(header: seq<nat>, bytes: seq<nat>, first: nat, size: nat)
    requires |header| == BULK_HDR_LEN && first <= size && first <= |bytes|
    ensures header + bytes[..first] == (header + bytes)[..BULK_HDR_LEN + first]
    ensures size <= |bytes| ==>
              bytes[first..][..size - first] == (header + bytes)[BULK_HDR_LEN + first..BULK_HDR_LEN + size]
    ensures size == first ==> (header + bytes)[BULK_HDR_LEN + first..BULK_HDR_LEN + size] == []
  {
  }

  lemma FirstLoss(split: bool, size: nat, mp: nat, accepts: seq<nat>)
    requires 0 < mp
    ensures var wlen := BULK_HDR_LEN + FirstPayload(split, size);
            Lost(split, size, mp, accepts) == FirstLost(wlen, mp, accepts) <= wlen
  {
    hide Taken;
    var wlen := BULK_HDR_LEN + FirstPayload(split, size);
    assert FirstInOneBlock(split, size, mp) <==> Block(wlen, mp) == wlen;
    assert Block(wlen, mp) < wlen ==> Block(wlen, mp) == wlen - wlen % mp;
  }

  /** What a first write of `n` bytes loses, in terms of its first block. */
  function FirstLost(n: nat, mp: nat, accepts: seq<nat>): nat
    requires 0 < n && 0 < mp
  {
    var b := Block(n, mp);
    if b < n && Taken(b, accepts) < b then n % mp else 0
  }

  /** The first phase: header and first bytes, through a memory handler of their own. */
  method SendFirst(out: OutEndpoint, usbdata: seq<nat>) returns (r: Code)
    requires out.Valid() && 512 % out.maxPacket == 0 && 0 < |usbdata| <= 512
    requires out.transferComplete == 0 && |usbdata| <= out.transferTotal
    modifies out`sent, out`accepts, out`zeros, out`transferComplete
    ensures r == OK || r == IoError
    ensures out.reliable ==> r == OK
    ensures r == OK ==>
              var lost := FirstLost(|usbdata|, out.maxPacket, old(out.accepts));
              && lost <= |usbdata| && out.sent == old(out.sent) + usbdata[..|usbdata| - lost]
              && out.transferComplete == |usbdata| - lost
              && out.zeros == old(out.zeros) +
                 if lost == 0 && |usbdata| == out.transferTotal &&
                   |usbdata| % out.maxPacket == 0 then [|out.sent|] else []
  {
    hide Block, Taken;
    var memhandler := new MemoryHandler(usbdata);
    assert memhandler.Left() == usbdata;
    var ok, written := WriteFunc(|usbdata|, memhandler, out);
    if !ok {
      return IoError;
    }
    r := OK;
  }

  /** What is written last: the first write, or what was left for the second phase. */
  function LastPart(split: bool, size: nat): nat {
    if size <= FirstPayload(split, size) then BULK_HDR_LEN + size else size - FirstPayload(split, size)
  }

  /** The second phase: ptp_write_func is called until nothing is left. */
  method SendRest(out: OutEndpoint, size: nat, handler: MemoryHandler) returns (r: Code)
    requires out.Valid() && 512 % out.maxPacket == 0 && handler.Valid() && 0 < size <= |handler.Left()|
    requires out.transferComplete + size <= out.transferTotal
    modifies handler, out`sent, out`accepts, out`zeros, out`transferComplete
    ensures handler.Valid() && handler.data == old(handler.data)
    ensures r == OK || r == IoError
    ensures out.reliable ==> r == OK
    ensures r == OK ==> out.sent == old(out.sent) + old(handler.Left())[..size]
    ensures r == OK ==>
              out.zeros == old(out.zeros) +
              if old(out.transferComplete) + size == out.transferTotal &&
                Fills(size, out.maxPacket) then [|out.sent|] else []
  {
    hide Block, Written, Taken, Fills;
    r := OK;
    ghost var bytes, sent, zeros := handler.Left(), out.sent, out.zeros;
    ghost var start, full, at := out.transferComplete, Fills(size, out.maxPacket), 0;
    var left := size;
    TakeNone(bytes);
    while left > 0
      invariant 0 <= at <= size && left == size - at && handler.Valid() && handler.data == old(handler.data)
      invariant handler.Left() == bytes[at..] && out.sent == sent + bytes[..at] && out.transferComplete == start + at
      invariant left > 0 ==> (Fills(left, out.maxPacket) <==> full) && out.zeros == zeros
      invariant left == 0 ==>
                  out.zeros == zeros + if start + size == out.transferTotal && full then [|out.sent|] else []
    {
      var ok, written := WriteFunc(left, handler, out);
      if !ok {
        return IoError;
      }
      TakeMore(sent, bytes, at, written);
      left, at := left - written, at + written;
    }
  }

  /** Data that is not split from its header ends with a zero-length packet exactly if the whole
      container fills its packets; split data, if the data do. */
  lemma LastPartMeans(split: bool, size: nat, mp: nat)
    requires 0 < mp && 512 % mp == 0
    ensures LastPart(split, size) % mp == 0 <==>
            if split && 0 < size then size % mp == 0 else (size + BULK_HDR_LEN) % mp == 0
  {
    if !split && size > BULK_PAYLOAD_LEN_WRITE {
      MultipleMinus(size + BULK_HDR_LEN, 512, mp);
    }
  }

  lemma FullPackets(n: nat, mp: nat)
    requires 0 < mp < n && n % mp != 0
    ensures 1 < mp <= n - n % mp < n
  {
    if n - n % mp < mp {
      ModIs(n, n / mp, n % mp, mp);
      Grows(n / mp, mp);
    }
  }

  /** Bytes get lost exactly if the first write neither fits one packet nor fills packets, and the endpoint does
      not take the full packets in it at once. */
  lemma BytesLostIff(split: bool, size: nat, mp: nat, accepts: seq<nat>)
    requires 0 < mp
    ensures var wlen := BULK_HDR_LEN + FirstPayload(split, size);
            Lost(split, size, mp, accepts) > 0 <==>
              mp < wlen && wlen % mp != 0 && accepts != [] && accepts[0] < wlen - wlen % mp
  {
    hide FirstPayload;
    var wlen := BULK_HDR_LEN + FirstPayload(split, size);
    if mp < wlen && wlen % mp != 0 {
      FullPackets(wlen, mp);
    }
  }

  /** With packets of 512 bytes nothing is ever lost. */
  lemma NothingLostAtHighSpeed(split: bool, size: nat, accepts: seq<nat>)
    ensures Lost(split, size, 512, accepts) == 0
  {
  }

  /** A run that loses bytes: 100 bytes in packets of 64, of which the endpoint takes 32 bytes first.  The last
      48 bytes never go out, and the outcome is OK. */
  method LosesBytes(order: Order, code: nat, transId: nat, bytes: seq<nat>)
    returns (r: Code, sent: seq<nat>, zeros: seq<nat>)
    requires |bytes| == 100
    ensures r == OK && sent == (Header(order, 100, code, transId) + bytes)[..64] && zeros == []
    ensures sent == Header(order, 100, code, transId) + bytes[..100 - 48]
  {
    hide Header;
    var out := new OutEndpoint(64, true, [32]);
    var handler := new MemoryHandler(bytes);
    assert handler.Left() == bytes;
    assert Lost(false, 100, 64, [32]) == 48;
    r := SendData(order, out, false, code, transId, 100, handler);
    sent, zeros := out.sent, out.zeros;
  }
}
