/** Matching replies to requests: ptp_transaction_new (src/ptp.c:132-217). */
module Transaction {
  import opened ByteOrder
  import opened Forest
  import U = UsbReceive

  const TWO32: nat := 0x1_0000_0000
  const RC_OK: nat := 0x2001
  const ERROR_IO: nat := 0x02ff
  const ERROR_BADPARAM: nat := 0x02fc

  /** What the response phase yields: something that is not a response, a failure with some code, or a
      response container. */
  datatype Reply = Unexpected | Failure(error: nat) | Response(code: nat, transId: nat)

  /** Left over from an earlier transaction, or noise: to be skipped while waiting for reply `id`. */
  predicate Stale(r: Reply, id: nat) {
    r.Unexpected? || (r.Response? && r.transId < id)
  }

  /** A reply that the next-to-last rule lets pass when a session is opened. */
  predicate Foreign(r: Reply, id: nat) {
    r.Response? && r.transId > id
  }

  /** How many of the first `n` replies are foreign. */
  function Foreigners(rs: seq<Reply>, id: nat, n: nat): (k: nat)
    requires n <= |rs|
    ensures k <= n
  {
    if n == 0 then 0 else Foreigners(rs, id, n - 1) + if Foreign(rs[n - 1], id) then 1 else 0
  }

  /** Only stale and foreign replies. */
  ghost predicate Skipped(rs: seq<Reply>, id: nat, n: nat)
    requires n <= |rs|
  {
    forall i {:trigger rs[i]} :: 0 <= i < n ==> Stale(rs[i], id) || Foreign(rs[i], id)
  }

  /** The outcome of waiting for reply `id`: the code returned, and the reply it comes from, if the loop
      is left through its end. */
  datatype Outcome = Outcome(ret: nat, from: Option<Reply>)

  /** How many foreign replies are let pass. */
  function Limit(opening: bool): nat {
    if opening then 2 else 0
  }

  /** The loop ends at reply `n`, with outcome `o`. */
  ghost predicate Awaited(rs: seq<Reply>, opening: bool, id: nat, n: nat, o: Outcome) {
    && n < |rs| && Skipped(rs, id, n) && Foreigners(rs, id, n) <= Limit(opening) && !Stale(rs[n], id)
    && (Foreign(rs[n], id) ==> o == Outcome(ERROR_BADPARAM, None) && Foreigners(rs, id, n) == Limit(opening))
    && (rs[n].Failure? ==> o == Outcome(rs[n].error, None))
    && (rs[n].Response? && rs[n].transId == id ==> o == Outcome(rs[n].code, Some(rs[n])))
  }

  /** Reply `m` carries the id, and only what is skipped comes before it. */
  ghost predicate Meets(rs: seq<Reply>, opening: bool, id: nat, m: nat) {
    && m < |rs| && rs[m].Response? && rs[m].transId == id
    && Skipped(rs, id, m) && Foreigners(rs, id, m) <= Limit(opening)
  }

  /** Such a reply is where the loop ends. */
  lemma EndsWhereMet(rs: seq<Reply>, opening: bool, id: nat, n: nat, m: nat)
    requires n <= |rs| && Skipped(rs, id, n) && Meets(rs, opening, id, m)
    requires n < |rs| && !Stale(rs[n], id) && Foreign(rs[n], id) ==> Foreigners(rs, id, n) == Limit(opening)
    requires n < |rs| ==> !Stale(rs[n], id)
    ensures n == m
  {
    if n < m {
      ForeignersGrow(rs, id, n + 1, m);
    }
  }

  lemma {:induction false} ForeignersGrow(rs: seq<Reply>, id: nat, n: nat, m: nat)
    requires n <= m <= |rs|
    ensures Foreigners(rs, id, n) <= Foreigners(rs, id, m)
    decreases m
  {
    if n < m {
      ForeignersGrow(rs, id, n, m - 1);
    }
  }

  /** Stale replies are skipped without number, so one with the id behind only stale ones is where the loop ends. */
  lemma {:induction false} StaleOnly(rs: seq<Reply>, id: nat, n: nat)
    requires n <= |rs| && forall i :: 0 <= i < n ==> Stale(rs[i], id)
    ensures Foreigners(rs, id, n) == 0 && Skipped(rs, id, n)
    ensures forall opening :: n < |rs| && rs[n].Response? && rs[n].transId == id ==> Meets(rs, opening, id, n)
  {
    if n > 0 {
      StaleOnly(rs, id, n - 1);
    }
  }

  /** Whether a left-over reply is taken does not depend on what comes behind it. */
  lemma {:induction false} MeetsBefore(left: seq<Reply>, more: seq<Reply>, opening: bool, id: nat, m: nat)
    requires m < |left|
    ensures Meets(left, opening, id, m) <==> Meets(left + more, opening, id, m)
  {
    SameForeigners(left, more, id, m);
    assert forall i :: 0 <= i <= m ==> (left + more)[i] == left[i];
  }

  lemma {:induction false} SameForeigners(left: seq<Reply>, more: seq<Reply>, id: nat, n: nat)
    requires n <= |left|
    ensures Foreigners(left + more, id, n) == Foreigners(left, id, n)
  {
    if n > 0 {
      SameForeigners(left, more, id, n - 1);
    }
  }

  /** What becomes of the loop when it has got a reply, with `tries` left for more. */
  datatype Next = Again(tries: nat) | Done(o: Outcome)

  function Judge(r: Reply, id: nat, tries: nat, opening: bool): Next {
    match r
    case Failure(error) => Done(Outcome(error, None))
    case Unexpected => Again(tries + 1)
    case Response(code, transId) =>
      if transId < id then Again(tries + 1)
      else if transId != id then
        if opening && tries != 0 then Again(tries) else Done(Outcome(ERROR_BADPARAM, None))
      else Done(Outcome(code, Some(r)))
  }

  class Initiator {
    var transactionId: nat          // params->transaction_id, 32 bits
    var replies: seq<Reply>         // what has come in and has not been looked at

    ghost predicate Valid()
      reads this
    {
      transactionId < TWO32
    }

    constructor ()
      ensures Valid() && transactionId == 0 && replies == []
    {
      transactionId, replies := 0, [];
    }

    /** params->getresp_func. */
    method GetResponse() returns (r: Reply)
      modifies this`replies
      ensures old(replies) == [] ==> r == Failure(ERROR_IO) && replies == []
      ensures old(replies) != [] ==> r == old(replies)[0] && replies == old(replies)[1..]
    {
      if replies == [] {
        return Failure(ERROR_IO);
      }
      r := replies[0];
      replies := replies[1..];
    }

    /** The response loop.  `n` replies are skipped.  The loop never ends by running out of tries. */
    method AwaitResponse(opening: bool, id: nat) returns (o: Outcome, ghost n: nat)
      requires Valid() && id < TWO32 && transactionId == (id + 1) % TWO32
      modifies this`replies
      ensures n <= |old(replies)| && Skipped(old(replies), id, n)
      ensures n == |old(replies)| ==> o == Outcome(ERROR_IO, None) && replies == []
      ensures n < |old(replies)| ==> Awaited(old(replies), opening, id, n, o) && replies == old(replies)[n + 1..]
    {
      var tries := 3;
      n := 0;
      assert replies[0..] == replies;
      while tries != 0
        invariant 0 <= tries && n <= |old(replies)| && replies == old(replies)[n..]
        invariant Skipped(old(replies), id, n)
        invariant tries > 0 && tries + Foreigners(old(replies), id, n) == 3
        invariant Foreigners(old(replies), id, n) <= Limit(opening)
        decreases |replies|
      {
        tries := tries - 1;
        var r := GetResponse();
        var sent := if transactionId == 0 then TWO32 - 1 else transactionId - 1;
        match Judge(r, sent, tries, opening) {
          case Done(outcome) => return outcome, n;
          case Again(left) =>
            tries := left;
            n := n + 1;
        }
      }
      assert false;     // `tries` is never exhausted
    }

    /** ptp_transaction_new.  `phase` is the outcome of the request and of the data phase, `arriving` what
        the device sends meanwhile.  A code comes from a reply if and only if one with the stamped id comes behind
        only replies that are skipped. */
    method Transact(opening: bool, phase: nat, arriving: seq<Reply>) returns (o: Outcome, stamped: nat)
      requires Valid()
      modifies this
      ensures Valid() && stamped == old(transactionId) && transactionId == (stamped + 1) % TWO32
      ensures o.from.Some? ==> phase == RC_OK && o.from.value.Response? && o.from.value.transId == stamped
                               && o.ret == o.from.value.code && o.from.value in old(replies) + arriving
      ensures phase != RC_OK ==> o == Outcome(phase, None) && replies == old(replies) + arriving
      ensures phase == RC_OK ==> forall r :: r in replies ==> r in old(replies) + arriving
      ensures phase == RC_OK ==>
                (o.from.Some? <==> exists m: nat :: Meets(old(replies) + arriving, opening, stamped, m))
      ensures phase == RC_OK ==> forall m: nat :: Meets(old(replies) + arriving, opening, stamped, m) ==>
                var all := old(replies) + arriving;
                o == Outcome(all[m].code, Some(all[m])) && replies == all[m + 1..]
    {
      stamped := transactionId;
      transactionId := (transactionId + 1) % TWO32;
      replies := replies + arriving;
      if phase != RC_OK {
        return Outcome(phase, None), stamped;
      }
      ghost var all := replies;
      ghost var n;
      o, n := AwaitResponse(opening, stamped);
      forall m: nat | Meets(all, opening, stamped, m)
        ensures n == m
      {
        EndsWhereMet(all, opening, stamped, n, m);
      }
      assert o.from.Some? ==> Meets(all, opening, stamped, n);
    }

    /** ptp_opensession: the counter starts again.  `kept` tells whether a response packet has been kept from the
        phase before, which is thrown away. */
    method OpenSession(kept: bool, phase: nat, arriving: seq<Reply>) returns (o: Outcome, ghost all: seq<Reply>)
      requires Valid() && (kept ==> replies != [])
      modifies this
      ensures Valid() && transactionId == 1 && all == old(if kept then replies[1..] else replies) + arriving
      ensures o.from.Some? ==> phase == RC_OK && o.from.value.Response? && o.from.value.transId == 0
                               && o.ret == o.from.value.code && o.from.value in all
      ensures phase != RC_OK ==> o == Outcome(phase, None) && replies == all
      ensures phase == RC_OK ==> forall r :: r in replies ==> r in all
      ensures phase == RC_OK ==> (o.from.Some? <==> exists m: nat :: Meets(all, true, 0, m))
      ensures phase == RC_OK ==> forall m: nat :: Meets(all, true, 0, m) ==>
                o == Outcome(all[m].code, Some(all[m])) && replies == all[m + 1..]
    {
      transactionId := 0;
      if kept {
        replies := replies[1..];
      }
      all := replies + arriving;
      var stamped;
      o, stamped := Transact(true, phase, arriving);
    }
  }

  // ---------- Whole runs ----------

  /** A request, perhaps one that opens a session: what became of its phases, and what the device sent meanwhile. */
  datatype Request = Request(opening: bool, kept: bool, phase: nat, arriving: seq<Reply>)

  /** The request that opened the session of request `i`, or the first of all. */
  function SessionOf(requests: seq<Request>, i: nat): (j: nat)
    requires i < |requests|
    ensures j <= i
  {
    if i == 0 || requests[i].opening then i else SessionOf(requests, i - 1)
  }

  lemma {:induction false} SameSession(requests: seq<Request>, j: nat, i: nat)
    requires j <= i < |requests| && SessionOf(requests, i) <= j
    ensures SessionOf(requests, j) == SessionOf(requests, i)
    decreases i
  {
    if j < i {
      SameSession(requests, j, i - 1);
    }
  }

  /** The id stamped on it. */
  function Stamp(requests: seq<Request>, i: nat): nat
    requires i < |requests|
  {
    i - SessionOf(requests, i)
  }

  /** The device answers requests, not ones that have yet to come. */
  predicate Answers(rs: seq<Reply>, id: nat) {
    forall r :: r in rs && r.Response? ==> r.transId <= id
  }

  ghost predicate ArrivedBefore(requests: seq<Request>, n: nat, r: Reply)
    requires n <= |requests|
  {
    exists j :: 0 <= j < n && r in requests[j].arriving
  }

  /** The outcome of request `i`: its code comes from a reply with its id, which arrived during the request itself, or
      was left over from before the session was opened. */
  ghost predicate RightlyMatched(requests: seq<Request>, i: nat, o: Outcome)
    requires i < |requests|
  {
    o.from.Some? ==>
      && o.from.value.Response? && o.from.value.transId == Stamp(requests, i) && o.ret == o.from.value.code
      && (o.from.value in requests[i].arriving || ArrivedBefore(requests, SessionOf(requests, i), o.from.value))
  }

  lemma MatchIs(requests: seq<Request>, i: nat, r: Reply)
    requires i < |requests| && forall j :: 0 <= j < i ==> Answers(requests[j].arriving, Stamp(requests, j))
    requires r.Response? && r.transId == Stamp(requests, i) && ArrivedBefore(requests, i, r)
    ensures ArrivedBefore(requests, SessionOf(requests, i), r)
  {
    var j :| 0 <= j < i && r in requests[j].arriving;
    if SessionOf(requests, i) <= j {
      SameSession(requests, j, i);
    }
  }

  /** Any run of fewer than 2^32 transactions, in as many sessions as there are requests that open one.  In a run that
      opens none but the first, every code comes from a reply that arrived during its own request. */
  method Run(requests: seq<Request>) returns (outcomes: seq<Outcome>, left: seq<Reply>)
    requires |requests| < TWO32
    requires forall i :: 0 <= i < |requests| ==> Answers(requests[i].arriving, Stamp(requests, i))
    ensures |outcomes| == |requests|
    ensures forall i :: 0 <= i < |requests| ==> RightlyMatched(requests, i, outcomes[i])
    ensures forall i :: 0 <= i < |requests| && SessionOf(requests, i) == 0 && outcomes[i].from.Some? ==>
              outcomes[i].from.value in requests[i].arriving
    ensures forall r :: r in left ==> ArrivedBefore(requests, |requests|, r)
  {
    hide Stamp, Answers, ArrivedBefore, RightlyMatched;
    var p := new Initiator();
    outcomes := [];
    while |outcomes| < |requests|
      invariant |outcomes| <= |requests| && p.Valid() && fresh(p)
      invariant p.transactionId == if outcomes == [] then 0 else Stamp(requests, |outcomes| - 1) + 1
      invariant forall r :: r in p.replies ==> ArrivedBefore(requests, |outcomes|, r)
      invariant forall i :: 0 <= i < |outcomes| ==> RightlyMatched(requests, i, outcomes[i])
      invariant forall i :: 0 <= i < |outcomes| && SessionOf(requests, i) == 0 && outcomes[i].from.Some? ==>
                  outcomes[i].from.value in requests[i].arriving
    {
      var i := |outcomes|;
      ghost var waiting := p.replies;
      var o := OneRequest(p, requests[i]);
      StampIs(requests, i);
      OutcomeIs(requests, i, waiting, o);
      AllArrived(requests, i, waiting, p.replies);
      outcomes := outcomes + [o];
    }
    left := p.replies;
  }

  method OneRequest(p: Initiator, r: Request) returns (o: Outcome)
    requires p.Valid()
    modifies p
    ensures p.Valid()
    ensures var stamped := if r.opening then 0 else old(p.transactionId);
            && p.transactionId == (stamped + 1) % TWO32
            && (o.from.Some? ==>
                  o.from.value.Response? && o.from.value.transId == stamped && o.ret == o.from.value.code)
    ensures o.from.Some? ==> o.from.value in old(p.replies) || o.from.value in r.arriving
    ensures forall x :: x in p.replies ==> x in old(p.replies) || x in r.arriving
  {
    hide Meets;
    var stamped;
    if r.opening {
      ghost var all;
      o, all := p.OpenSession(r.kept && p.replies != [], r.phase, r.arriving);
    } else {
      o, stamped := p.Transact(false, r.phase, r.arriving);
    }
  }

  lemma StampIs(requests: seq<Request>, i: nat)
    requires i < |requests| < TWO32
    ensures Stamp(requests, i) ==
            if requests[i].opening || i == 0 then 0 else Stamp(requests, i - 1) + 1
    ensures Stamp(requests, i) + 1 <= |requests|
  {
  }

  lemma OutcomeIs(requests: seq<Request>, i: nat, waiting: seq<Reply>, o: Outcome)
    requires i < |requests| && forall j :: 0 <= j < |requests| ==> Answers(requests[j].arriving, Stamp(requests, j))
    requires forall r :: r in waiting ==> ArrivedBefore(requests, i, r)
    requires o.from.Some? ==>
               && o.from.value.Response? && o.from.value.transId == Stamp(requests, i) && o.ret == o.from.value.code
               && (o.from.value in waiting || o.from.value in requests[i].arriving)
    ensures RightlyMatched(requests, i, o)
    ensures SessionOf(requests, i) == 0 && o.from.Some? ==> o.from.value in requests[i].arriving
  {
    hide Answers, Stamp;
    match o.from {
      case None =>
      case Some(r) =>
        if r in waiting {
          MatchIs(requests, i, r);
        }
    }
  }

  lemma AllArrived(requests: seq<Request>, i: nat, waiting: seq<Reply>, left: seq<Reply>)
    requires i < |requests| && forall r :: r in waiting ==> ArrivedBefore(requests, i, r)
    requires forall r :: r in left ==> r in waiting || r in requests[i].arriving
    ensures forall r :: r in left ==> ArrivedBefore(requests, i + 1, r)
  {
    forall r | r in left
      ensures ArrivedBefore(requests, i + 1, r)
    {
      if r in waiting {
        assert ArrivedBefore(requests, i, r);
      }
    }
  }

  /** Where a reply from before the session is taken: the first attempt to open one fails on the way, its answer comes
      late, and the second attempt, which has the same id, takes that answer for its own. */
  method LateAnswerTaken(phase: nat, answer: Reply) returns (first: Outcome, second: Outcome, left: seq<Reply>)
    requires phase != RC_OK
    ensures first == Outcome(phase, None) && second == Outcome(RC_OK, Some(Response(RC_OK, 0))) && left == [answer]
  {
    var p := new Initiator();
    ghost var all;
    first, all := p.OpenSession(false, phase, [Response(RC_OK, 0)]);
    second, all := p.OpenSession(false, RC_OK, [answer]);
    FirstMeets(all, answer);
    left := p.replies;
  }

  lemma FirstMeets(all: seq<Reply>, answer: Reply)
    requires all == [Response(RC_OK, 0), answer]
    ensures Meets(all, true, 0, 0) && all[0 + 1..] == [answer]
  {
  }

  // ---------- Replies over USB ----------

  /** What ptp_usb_getresp makes of the packet it gets, as a reply: its return code decides, and only when that is OK
      are the code and the transaction id of the packet taken. */
  function ReplyOf(order: Order, expected: nat, ok: bool, packet: seq<nat>): Reply {
    var ret := if ok then U.ResponseVerdict(order, expected, packet) else ERROR_IO;
    if ret == U.ERROR_RESP_EXPECTED then Unexpected
    else if ret != RC_OK then Failure(ret)
    else Response(U.CodeOf(order, packet), Decode(order, U.Fixed(packet)[8..12]))
  }

  /** What a packet is as a reply: a response container, whose type is 3, is judged by its code, and has its transaction
      id in bytes 8 to 11. */
  lemma ReplyOfPacket(order: Order, expected: nat, packet: seq<nat>)
    requires 12 <= |packet|
    ensures var type_, code := Decode(order, packet[4..6]), Decode(order, packet[6..8]);
            var id := Decode(order, packet[8..12]);
            ReplyOf(order, expected, true, packet) ==
            if type_ != 3 then Unexpected
            else if code == 0x2001 || code == expected then Response(code, id)
            else if code == 0x02fd then Unexpected
            else Failure(code)
  {
    var h := U.Fixed(packet);
    assert h[4..6] == packet[4..6] && h[6..8] == packet[6..8] && h[8..12] == packet[8..12];
  }

  /** ptp_usb_getresp, in terms of replies. */
  method GetUsbReply(order: Order, params: U.Phases, ep: U.InEndpoint, expected: nat)
    returns (r: Reply, ghost seen: seq<nat>)
    requires ep.Valid()
    modifies params`responsePacket, ep
    ensures ep.Valid() && params.responsePacket == []
    ensures var first := U.FirstOf(old(params.responsePacket), old(ep.queue), ep.maxPacket);
            && seen == first.1 && ep.queue == first.2 && r == ReplyOf(order, expected, first.0, seen)
            && (!first.0 ==> r == Failure(0x02ff))
            && (first.0 && 12 <= |seen| ==>
                  var type_, code := Decode(order, seen[4..6]), Decode(order, seen[6..8]);
                  var id := Decode(order, seen[8..12]);
                  r == if type_ != 3 then Unexpected
                       else if code == 0x2001 || code == expected then Response(code, id)
                       else if code == 0x02fd then Unexpected
                       else Failure(code))
  {
    hide U.FirstOf, U.Fixed, Decode;
    ghost var first := U.FirstOf(params.responsePacket, ep.queue, ep.maxPacket);
    if first.0 && 12 <= |first.1| {
      ReplyOfPacket(order, expected, first.1);
    }
    var ret, packet := U.GetResponse(order, params, ep, expected);
    seen := packet;
    if ret == U.ERROR_RESP_EXPECTED {
      return Unexpected, seen;
    }
    if ret != RC_OK {
      return Failure(ret), seen;
    }
    var hdr := U.Fixed(packet);
    var code := ReadInt(hdr, 6, order, 2);
    var transId := ReadInt(hdr, 8, order, 4);
    r := Response(code, transId);
  }

  /** Whether the packet is a response with one of the two codes that let the caller look at its id: OK, or the
      code of the request. */
  predicate IdLookedAt(order: Order, expected: nat, packet: seq<nat>) {
    U.TypeOf(order, packet) == U.CONTAINER_RESPONSE &&
    (U.CodeOf(order, packet) == expected || U.CodeOf(order, packet) == RC_OK)
  }

  /** A response left over from an earlier transaction is skipped if and only if its code is OK or that of the
      request (or the one code that stands for no response); any other code is taken for this transaction's. */
  lemma LeftoverSkippedIff(order: Order, expected: nat, packet: seq<nat>, id: nat)
    requires U.TypeOf(order, packet) == U.CONTAINER_RESPONSE && expected != U.ERROR_RESP_EXPECTED
    requires Decode(order, U.Fixed(packet)[8..12]) < id
    ensures var r := ReplyOf(order, expected, true, packet);
            && (Stale(r, id) <==> IdLookedAt(order, expected, packet)
                                  || U.CodeOf(order, packet) == U.ERROR_RESP_EXPECTED)
            && (!Stale(r, id) ==> r == Failure(U.CodeOf(order, packet)))
  {
  }

  /** What decides the next reply over USB: the code looked for, the packet kept, and what waits. */
  datatype UsbState = UsbState(expected: nat, kept: seq<nat>, queue: seq<seq<nat>>)

  function UsbReply(order: Order, mp: nat, u: UsbState): Reply
    requires 0 < mp
  {
    var first := U.FirstOf(u.kept, u.queue, mp);
    ReplyOf(order, u.expected, first.0, first.1)
  }

  /** A response that is looked at leaves its code behind, and the next one is compared with that. */
  function UsbNext(order: Order, mp: nat, u: UsbState): UsbState
    requires 0 < mp
  {
    var r := UsbReply(order, mp, u);
    UsbState(if r.Response? then r.code else u.expected, [], U.FirstOf(u.kept, u.queue, mp).2)
  }

  function UsbAfter(order: Order, mp: nat, u: UsbState, n: nat): UsbState
    requires 0 < mp
  {
    if n == 0 then u else UsbNext(order, mp, UsbAfter(order, mp, u, n - 1))
  }

  /** The first `n` replies. */
  function UsbReplies(order: Order, mp: nat, u: UsbState, n: nat): (rs: seq<Reply>)
    requires 0 < mp
    ensures |rs| == n
  {
    if n == 0 then [] else UsbReplies(order, mp, u, n - 1) + [UsbReply(order, mp, UsbAfter(order, mp, u, n - 1))]
  }

  /** The code looked for is that of the request or, behind a response that was OK, OK. */
  lemma {:induction false} ExpectedIs(order: Order, mp: nat, u: UsbState, n: nat)
    requires 0 < mp
    ensures UsbAfter(order, mp, u, n).expected == u.expected || UsbAfter(order, mp, u, n).expected == RC_OK
  {
    if n > 0 {
      ExpectedIs(order, mp, u, n - 1);
      var v := UsbAfter(order, mp, u, n - 1);
      var first := U.FirstOf(v.kept, v.queue, mp);
      assert UsbReply(order, mp, v) == ReplyOf(order, v.expected, first.0, first.1);
    }
  }

  lemma OneMoreReply(order: Order, mp: nat, u: UsbState, n: nat, id: nat, opening: bool)
    requires 0 < mp
    ensures var rs, all := UsbReplies(order, mp, u, n), UsbReplies(order, mp, u, n + 1);
            && all == rs + [UsbReply(order, mp, UsbAfter(order, mp, u, n))]
            && Foreigners(all, id, n) == Foreigners(rs, id, n)
            && (Skipped(rs, id, n) ==> Skipped(all, id, n))
            && UsbAfter(order, mp, u, n + 1) == UsbNext(order, mp, UsbAfter(order, mp, u, n))
  {
    hide UsbReply, UsbNext;
    SameForeigners(UsbReplies(order, mp, u, n), [UsbReply(order, mp, UsbAfter(order, mp, u, n))], id, n);
  }

  /** The response loop over USB, for a request with operation code `cmd`: it ends as on the replies that the packets
      amount to. */
  method AwaitUsbResponse(order: Order, params: U.Phases, ep: U.InEndpoint, cmd: nat, opening: bool, id: nat)
    returns (o: Outcome, ghost n: nat)
    requires ep.Valid()
    modifies params`responsePacket, ep
    ensures ep.Valid()
    ensures var u := UsbState(cmd, old(params.responsePacket), old(ep.queue));
            && Awaited(UsbReplies(order, ep.maxPacket, u, n + 1), opening, id, n, o)
            && params.responsePacket == [] && ep.queue == UsbAfter(order, ep.maxPacket, u, n + 1).queue
    ensures var first := U.FirstOf(old(params.responsePacket), old(ep.queue), ep.maxPacket);
            FirstDecides(order, first.0, first.1, cmd, opening, id, n, o) && (n == 0 ==> ep.queue == first.2)
  {
    hide UsbReply, UsbNext, ReplyOf, FirstDecides, Awaited, U.FirstOf;
    ghost var u, mp := UsbState(cmd, params.responsePacket, ep.queue), ep.maxPacket;
    var tries, code := 3, cmd;
    n := 0;
    while tries != 0
      invariant ep.Valid() && UsbState(code, params.responsePacket, ep.queue) == UsbAfter(order, mp, u, n)
      invariant Skipped(UsbReplies(order, mp, u, n), id, n)
      invariant tries > 0 && tries + Foreigners(UsbReplies(order, mp, u, n), id, n) == 3
      invariant Foreigners(UsbReplies(order, mp, u, n), id, n) <= Limit(opening)
      decreases |ep.queue| + if params.responsePacket == [] then 0 else 1
    {
      tries := tries - 1;
      ghost var before := UsbState(code, params.responsePacket, ep.queue);
      var r, seen := GetUsbReply(order, params, ep, code);
      NextUsbReply(order, mp, before);
      OneMoreReply(order, mp, u, n, id, opening);
      if r.Response? {
        code := r.code;
      }
      match Judge(r, id, tries, opening) {
        case Done(outcome) =>
          EndsHere(UsbReplies(order, mp, u, n + 1), opening, id, n, outcome, tries);
          FirstIs(order, mp, u, cmd, opening, id, n, outcome);
          return outcome, n;
        case Again(left) =>
          tries := left;
          n := n + 1;
      }
    }
    assert false;     // `tries` is never exhausted
  }

  lemma EndsHere(rs: seq<Reply>, opening: bool, id: nat, n: nat, o: Outcome, tries: nat)
    requires |rs| == n + 1 && Skipped(rs, id, n) && Judge(rs[n], id, tries, opening) == Done(o)
    requires tries + Foreigners(rs, id, n) == 2 && Foreigners(rs, id, n) <= Limit(opening)
    ensures Awaited(rs, opening, id, n, o)
  {
  }

  /** How far the first packet decides: the answer to the request, or any error, is taken at once; an older answer, and
      what is no response, is not. */
  ghost predicate FirstDecides(order: Order, ok: bool, packet: seq<nat>, cmd: nat, opening: bool, id: nat, n: nat,
                               o: Outcome) {
    && (!ok ==> n == 0 && o == Outcome(0x02ff, None))
    && (ok && 12 <= |packet| ==>
          var type_, code := Decode(order, packet[4..6]), Decode(order, packet[6..8]);
          var got := Decode(order, packet[8..12]);
          && (type_ != 3 ==> n > 0)
          && (type_ == 3 && code == 0x2001 && got == id ==> n == 0 && o == Outcome(0x2001, Some(Response(0x2001, id))))
          && (type_ == 3 && code == 0x2001 && got < id ==> n > 0)
          && (type_ == 3 && code == 0x2001 && got > id ==>
                if opening then n > 0 else n == 0 && o == Outcome(0x02fc, None))
          && (type_ == 3 && code !in {0x2001, 0x02fd, cmd} ==> n == 0 && o == Outcome(code, None)))
  }

  lemma FirstIs(order: Order, mp: nat, u: UsbState, cmd: nat, opening: bool, id: nat, n: nat, o: Outcome)
    requires 0 < mp && u.expected == cmd && Awaited(UsbReplies(order, mp, u, n + 1), opening, id, n, o)
    ensures var first := U.FirstOf(u.kept, u.queue, mp);
            && FirstDecides(order, first.0, first.1, cmd, opening, id, n, o)
            && (n == 0 ==> UsbAfter(order, mp, u, n + 1).queue == first.2)
  {
    hide U.FirstOf, ReplyOf, Decode, UsbReply, UsbNext;
    var first, rs := U.FirstOf(u.kept, u.queue, mp), UsbReplies(order, mp, u, n + 1);
    FirstReply(order, mp, u, n + 1);
    NextUsbReply(order, mp, u);
    if first.0 && 12 <= |first.1| {
      ReplyOfPacket(order, cmd, first.1);
    }
    assert n > 0 ==> Stale(rs[0], id) || Foreign(rs[0], id);
    if n == 0 {
      assert UsbAfter(order, mp, u, 1) == UsbNext(order, mp, UsbAfter(order, mp, u, 0));
    } else {
      NoneForeign(rs, opening, id, n);
    }
  }

  lemma NoneForeign(rs: seq<Reply>, opening: bool, id: nat, n: nat)
    requires 0 < n <= |rs| && Foreigners(rs, id, n) <= Limit(opening)
    ensures Foreign(rs[0], id) ==> opening
  {
    ForeignersGrow(rs, id, 1, n);
  }

  lemma NextUsbReply(order: Order, mp: nat, u: UsbState)
    requires 0 < mp
    ensures var first, r := U.FirstOf(u.kept, u.queue, mp), UsbReply(order, mp, u);
            && r == ReplyOf(order, u.expected, first.0, first.1)
            && UsbNext(order, mp, u) == UsbState(if r.Response? then r.code else u.expected, [], first.2)
            && (!first.0 ==> r == Failure(ERROR_IO))
            && (first.0 ==> |first.2| < |u.queue| + if u.kept == [] then 0 else 1)
  {
  }

  /** Behind an old answer that was OK, the code of the request itself is an error, and OK is still looked for. */
  lemma BehindOldAnswer(order: Order, mp: nat, cmd: nat, old_: seq<nat>, second: seq<nat>, more: seq<seq<nat>>)
    requires 12 <= |old_| < mp <= 512 && 12 <= |second| < mp
    requires Decode(order, old_[4..6]) == 3 && Decode(order, old_[6..8]) == 0x2001 && Decode(order, second[4..6]) == 3
    ensures var u := UsbState(cmd, [], [old_, second] + more);
            var code := Decode(order, second[6..8]);
            && UsbAfter(order, mp, u, 1) == UsbState(0x2001, [], [second] + more)
            && UsbAfter(order, mp, u, 2).queue == more
            && UsbReplies(order, mp, u, 2)[1] == if code == 0x2001 then Response(code, Decode(order, second[8..12]))
                                                 else if code == 0x02fd then Unexpected else Failure(code)
  {
    hide U.FirstOf, ReplyOf, Decode;
    var u := UsbState(cmd, [], [old_, second] + more);
    assert [old_, second] + more == [old_] + ([second] + more);
    U.FirstWaiting(old_, [second] + more, mp);
    U.FirstWaiting(second, more, mp);
    ReplyOfPacket(order, cmd, old_);
    ReplyOfPacket(order, 0x2001, second);
    assert UsbAfter(order, mp, u, 1) == UsbNext(order, mp, UsbAfter(order, mp, u, 0));
  }

  /** Behind a response that an earlier transaction has left, with an error as its code: the request ends with that
      error whatever the id in the response, and what comes behind it, the reply to the request, stays waiting. */
  method LeftoverErrorReturned(order: Order, ep: U.InEndpoint, cmd: nat, opening: bool, id: nat, leftover: seq<nat>,
                               ghost more: seq<seq<nat>>)
    returns (o: Outcome)
    requires ep.Valid() && ep.queue == U.Packets(leftover, ep.maxPacket) + more && |leftover| < 512
    requires U.TypeOf(order, leftover) == U.CONTAINER_RESPONSE && !IdLookedAt(order, cmd, leftover)
    requires U.CodeOf(order, leftover) != U.ERROR_RESP_EXPECTED
    modifies ep
    ensures o == Outcome(U.CodeOf(order, leftover), None) && ep.queue == more
  {
    hide U.TypeOf, U.CodeOf;
    var params := new U.Phases();
    ghost var u, mp := UsbState(cmd, [], ep.queue), ep.maxPacket;
    LeftoverRead(order, mp, cmd, leftover, more);
    ghost var n;
    o, n := AwaitUsbResponse(order, params, ep, cmd, opening, id);
    FirstReply(order, mp, u, n + 1);
    assert n == 0;
  }

  lemma {:induction false} FirstReply(order: Order, mp: nat, u: UsbState, n: nat)
    requires 0 < mp && 0 < n
    ensures UsbReplies(order, mp, u, n)[0] == UsbReply(order, mp, u)
  {
    hide UsbReply, UsbNext;
    if n > 1 {
      FirstReply(order, mp, u, n - 1);
    }
  }

  lemma LeftoverRead(order: Order, mp: nat, cmd: nat, leftover: seq<nat>, more: seq<seq<nat>>)
    requires 0 < mp && 512 % mp == 0 && |leftover| < 512
    requires U.TypeOf(order, leftover) == U.CONTAINER_RESPONSE && !IdLookedAt(order, cmd, leftover)
    requires U.CodeOf(order, leftover) != U.ERROR_RESP_EXPECTED
    ensures var u := UsbState(cmd, [], U.Packets(leftover, mp) + more);
            && UsbReply(order, mp, u) == Failure(U.CodeOf(order, leftover))
            && UsbNext(order, mp, u).queue == more
  {
    hide U.Take, U.Packets, U.TypeOf, U.CodeOf;
    var q := U.Packets(leftover, mp) + more;
    U.OneRead(q, U.MAX_PACKET_LEN_READ, [], 0, mp);
    U.TakeAll(leftover, U.MAX_PACKET_LEN_READ, mp, more);
    assert [] + leftover == leftover;
  }
}
