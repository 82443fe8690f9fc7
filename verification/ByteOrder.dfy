/** Integers as bytes, in the byte order of the device (src/ptp-pack.c:14-92). */
module ByteOrder {

  datatype Order = LittleEndian | BigEndian

  function Pow256(w: nat): (p: nat)
    ensures p > 0
  {
    if w == 0 then 1 else 256 * Pow256(w - 1)
  }

  lemma FourBytes()
    ensures Pow256(4) == 0x1_0000_0000
  {
    assert Pow256(4) == 256 * Pow256(3) == 65536 * Pow256(2) == 16777216 * Pow256(1);
  }

  predicate IsBytes(s: seq<nat>) {
    forall i :: 0 <= i < |s| ==> s[i] < 256
  }

  /** The low `w` bytes of `n`, lowest first. */
  function Low(w: nat, n: nat): (s: seq<nat>)
    ensures |s| == w && IsBytes(s)
  {
    if w == 0 then [] else [n % 256] + Low(w - 1, n / 256)
  }

  /** The number that bytes, lowest first, stand for. */
  function Number(s: seq<nat>): nat {
    if s == [] then 0 else s[0] + 256 * Number(s[1..])
  }

  function Flip(s: seq<nat>): (r: seq<nat>)
    ensures |r| == |s| && forall i :: 0 <= i < |s| ==> r[i] == s[|s| - 1 - i]
  {
    seq(|s|, i requires 0 <= i < |s| => s[|s| - 1 - i])
  }

  function Encode(order: Order, w: nat, n: nat): (s: seq<nat>)
    ensures |s| == w && IsBytes(s)
  {
    if order.LittleEndian? then Low(w, n) else Flip(Low(w, n))
  }

  function Decode(order: Order, s: seq<nat>): nat {
    Number(if order.LittleEndian? then s else Flip(s))
  }

  lemma {:induction false} NumberOfLow(w: nat, n: nat)
    requires n < Pow256(w)
    ensures Number(Low(w, n)) == n
  {
    if w > 0 {
      assert n / 256 < Pow256(w - 1);
      NumberOfLow(w - 1, n / 256);
      assert Low(w, n)[1..] == Low(w - 1, n / 256);
    }
  }

  /** A number that fits comes back. */
  lemma DecodeEncode(order: Order, w: nat, n: nat)
    requires n < Pow256(w)
    ensures Decode(order, Encode(order, w, n)) == n
  {
    NumberOfLow(w, n);
    assert Flip(Flip(Low(w, n))) == Low(w, n);
  }

  /** Read in the other order, a 16 bit number has its bytes swapped. */
  lemma DecodeSwapped(n: nat)
    requires n < 0x10000
    ensures Decode(LittleEndian, Low(2, n)) == n
    ensures Decode(BigEndian, Low(2, n)) == n % 256 * 256 + n / 256
  {
    var s := Low(2, n);
    assert s == [n % 256, n / 256] by {
      assert Low(1, n / 256) == [n / 256 % 256] + Low(0, n / 256 / 256);
    }
    assert Flip(s) == [n / 256, n % 256];
    NumberOfTwo(n % 256, n / 256);
    NumberOfTwo(n / 256, n % 256);
  }

  /** The bytes of numbers of one, two, four and eight bytes. */
  lemma BytesOf(order: Order, n: nat)
    ensures Encode(order, 1, n) == [n % 256]
    ensures Encode(order, 2, n) ==
            if order.LittleEndian? then [n % 256, n / 256 % 256] else [n / 256 % 256, n % 256]
    ensures Encode(order, 4, n) ==
            if order.LittleEndian? then [n % 256, n / 256 % 256, n / 0x1_0000 % 256, n / 0x100_0000 % 256]
            else [n / 0x100_0000 % 256, n / 0x1_0000 % 256, n / 256 % 256, n % 256]
    ensures Encode(order, 8, n) ==
            if order.LittleEndian? then Encode(order, 4, n) + Encode(order, 4, n / 0x1_0000_0000)
            else Encode(order, 4, n / 0x1_0000_0000) + Encode(order, 4, n)
  {
    hide Low;
    LowOne(n);
    LowTwo(n);
    LowFour(n);
    LowEight(n);
    FlipOf(Low(4, n), Low(4, n / 0x1_0000_0000));
    var a, b, c, d := n % 256, n / 256 % 256, n / 0x1_0000 % 256, n / 0x100_0000 % 256;
    assert Flip([a]) == [a] && Flip([a, b]) == [b, a] && Flip([a, b, c, d]) == [d, c, b, a];
  }

  lemma FlipOf(s: seq<nat>, t: seq<nat>)
    ensures Flip(s + t) == Flip(t) + Flip(s)
  {
  }

  lemma LowOne(n: nat)
    ensures Low(1, n) == [n % 256]
  {
    assert Low(0, n / 256) == [];
  }

  lemma LowTwo(n: nat)
    ensures Low(2, n) == [n % 256, n / 256 % 256]
  {
    LowOne(n / 256);
  }

  lemma LowFour(n: nat)
    ensures Low(4, n) == [n % 256, n / 256 % 256, n / 0x1_0000 % 256, n / 0x100_0000 % 256]
  {
    LowTwo(n / 0x1_0000);
    assert n / 256 / 256 == n / 0x1_0000 && n / 0x1_0000 / 256 == n / 0x100_0000;
    assert Low(3, n / 256) == [n / 256 % 256] + Low(2, n / 0x1_0000);
    assert Low(4, n) == [n % 256] + Low(3, n / 256);
  }

  lemma LowEight(n: nat)
    ensures Low(8, n) == Low(4, n) + Low(4, n / 0x1_0000_0000)
  {
    LowFour(n);
    var rest := n / 0x1_0000_0000;
    assert n / 256 / 256 == n / 0x1_0000 && n / 0x1_0000 / 256 == n / 0x100_0000 && n / 0x100_0000 / 256 == rest;
    assert Low(5, n / 0x100_0000) == [n / 0x100_0000 % 256] + Low(4, rest);
    assert Low(6, n / 0x1_0000) == [n / 0x1_0000 % 256] + Low(5, n / 0x100_0000);
    assert Low(7, n / 256) == [n / 256 % 256] + Low(6, n / 0x1_0000);
    assert Low(8, n) == [n % 256] + Low(7, n / 256);
  }

  /** And the numbers that bytes stand for. */
  lemma NumbersOf(order: Order, s: seq<nat>)
    ensures |s| == 1 ==> Decode(order, s) == s[0]
    ensures |s| == 2 ==> Decode(order, s) == if order.LittleEndian? then s[0] + 256 * s[1] else s[1] + 256 * s[0]
    ensures |s| == 4 ==>
              Decode(order, s) == if order.LittleEndian? then s[0] + 256 * s[1] + 0x1_0000 * s[2] + 0x100_0000 * s[3]
                                  else s[3] + 256 * s[2] + 0x1_0000 * s[1] + 0x100_0000 * s[0]
    ensures |s| == 8 ==>
              var a, b := Decode(order, s[..4]), Decode(order, s[4..]);
              Decode(order, s) == if order.LittleEndian? then a + 0x1_0000_0000 * b else b + 0x1_0000_0000 * a
  {
    var r := if order.LittleEndian? then s else Flip(s);
    if |s| == 1 {
      NumberOne(r);
    } else if |s| == 2 {
      NumberOfTwo(r[0], r[1]);
      assert r == [r[0], r[1]];
    } else if |s| == 4 {
      NumberFour(r);
    } else if |s| == 8 {
      NumberEight(r);
      assert Flip(s)[..4] == Flip(s[4..]) && Flip(s)[4..] == Flip(s[..4]);
    }
  }

  lemma NumberOne(s: seq<nat>)
    requires |s| == 1
    ensures Number(s) == s[0]
  {
    assert s[1..] == [];
  }

  lemma NumberFour(s: seq<nat>)
    requires |s| == 4
    ensures Number(s) == s[0] + 256 * s[1] + 0x1_0000 * s[2] + 0x100_0000 * s[3]
  {
    hide Number;
    NumberStep(s, 0);
    NumberStep(s, 1);
    NumberStep(s, 2);
    NumberStep(s, 3);
    NumberStep(s, 4);
    assert s[0..] == s;
  }

  lemma NumberEight(s: seq<nat>)
    requires |s| == 8
    ensures Number(s) == Number(s[..4]) + 0x1_0000_0000 * Number(s[4..])
  {
    hide Number;
    NumberFour(s[..4]);
    NumberStep(s, 0);
    NumberStep(s, 1);
    NumberStep(s, 2);
    NumberStep(s, 3);
    assert s[0..] == s;
  }

  lemma NumberOfTwo(a: nat, b: nat)
    ensures Number([a, b]) == a + 256 * b
  {
    assert [a, b][1..] == [b] && [b][1..] == [];
    assert Number([b]) == b + 256 * Number([]);
  }

  /** htod16a, htod32a, htod64a. */
  method WriteInt(a: array<nat>, at: nat, order: Order, w: nat, n: nat)
    requires at + w <= a.Length
    modifies a
    ensures a[..] == old(a[..])[..at] + Encode(order, w, n) + old(a[..])[at + w..]
  {
    hide Low, Place, Encode, Written;
    var m: nat, i: nat := n, 0;
    ghost var all, before := Low(w, n), a[..];
    NoneLeft(all);
    NothingWritten(before, at, order, all);
    while i < w
      invariant i <= w && all[i..] == Low(w - i, m) && Written(before, a[..], at, order, all, i)
    {
      LowStep(all, w, i, m);
      OneWritten(before, a[..], at, order, all, i);
      var p := Place(at, order, w, i);
      PlaceInside(at, order, w, i);
      ghost var next := a[..][p := m % 256];
      a[p] := m % 256;
      assert a[..] == next;
      m, i := m / 256, i + 1;
    }
    AllWritten(before, a[..], at, order, w, n);
  }

  /** The first `i` bytes are in place, and everything around the number is as before. */
  ghost predicate Written(before: seq<nat>, s: seq<nat>, at: nat, order: Order, all: seq<nat>, i: nat) {
    && |s| == |before| && at + |all| <= |s| && i <= |all|
    && (forall j :: 0 <= j < |s| && !(at <= j < at + |all|) ==> s[j] == before[j])
    && (forall j :: 0 <= j < i ==> s[Place(at, order, |all|, j)] == all[j])
  }

  lemma PlaceInside(at: nat, order: Order, w: nat, i: nat)
    requires i < w
    ensures at <= Place(at, order, w, i) < at + w
    ensures forall j :: 0 <= j < w && j != i ==> Place(at, order, w, j) != Place(at, order, w, i)
  {
  }

  lemma NothingWritten(before: seq<nat>, at: nat, order: Order, all: seq<nat>)
    requires at + |all| <= |before|
    ensures Written(before, before, at, order, all, 0)
  {
  }

  lemma OneWritten(before: seq<nat>, s: seq<nat>, at: nat, order: Order, all: seq<nat>, i: nat)
    requires Written(before, s, at, order, all, i) && i < |all|
    ensures var p := Place(at, order, |all|, i);
            p < |s| && Written(before, s[p := all[i]], at, order, all, i + 1)
  {
  }

  lemma AllWritten(before: seq<nat>, s: seq<nat>, at: nat, order: Order, w: nat, n: nat)
    requires Written(before, s, at, order, Low(w, n), w)
    ensures s == before[..at] + Encode(order, w, n) + before[at + w..]
  {
    hide Low, Encode, Place;
    forall j | at <= j < at + w
      ensures s[j] == Encode(order, w, n)[j - at]
    {
      ByteIs(before, s, at, order, w, n, j);
    }
    Spliced(before, s, at, Encode(order, w, n));
  }

  lemma ByteIs(before: seq<nat>, s: seq<nat>, at: nat, order: Order, w: nat, n: nat, j: nat)
    requires Written(before, s, at, order, Low(w, n), w) && at <= j < at + w
    ensures s[j] == Encode(order, w, n)[j - at]
  {
    hide Low;
    var k := if order.LittleEndian? then j - at else w - 1 - (j - at);
    assert s[Place(at, order, w, k)] == Low(w, n)[k];
  }

  lemma NoneLeft(all: seq<nat>)
    ensures all[0..] == all
  {
  }

  lemma Spliced(before: seq<nat>, after: seq<nat>, at: nat, mid: seq<nat>)
    requires |before| == |after| && at + |mid| <= |before|
    requires forall j :: 0 <= j < |before| && !(at <= j < at + |mid|) ==> after[j] == before[j]
    requires forall j :: at <= j < at + |mid| ==> after[j] == mid[j - at]
    ensures after == before[..at] + mid + before[at + |mid|..]
  {
  }

  /** Where byte `i`, counted from the lowest, goes. */
  function Place(at: nat, order: Order, w: nat, i: nat): nat
    requires i < w
  {
    if order.LittleEndian? then at + i else at + w - 1 - i
  }

  lemma LowStep(all: seq<nat>, w: nat, i: nat, m: nat)
    requires |all| == w && i < w && all[i..] == Low(w - i, m)
    ensures all[i] == m % 256 && all[i + 1..] == Low(w - i - 1, m / 256)
  {
    assert all[i + 1..] == all[i..][1..];
    assert all[i] == all[i..][0];
  }

  /** dtoh16a, dtoh32a, dtoh64a. */
  method ReadInt(data: seq<nat>, at: nat, order: Order, w: nat) returns (n: nat)
    requires at + w <= |data|
    ensures n == Decode(order, data[at..at + w])
  {
    hide Number;
    n := 0;
    ghost var s := if order.LittleEndian? then data[at..at + w] else Flip(data[at..at + w]);
    var i: nat := w;
    NumberStep(s, w);
    while i > 0
      invariant i <= w && n == Number(s[i..])
    {
      i := i - 1;
      NumberStep(s, i);
      n := data[Place(at, order, w, i)] + 256 * n;
    }
    assert s[0..] == s;
  }

  lemma NumberStep(s: seq<nat>, i: nat)
    requires i <= |s|
    ensures i < |s| ==> Number(s[i..]) == s[i] + 256 * Number(s[i + 1..])
    ensures i == |s| ==> Number(s[i..]) == 0
  {
    if i < |s| {
      assert s[i..][1..] == s[i + 1..];
    }
  }

  lemma {:induction false} NumberBound(s: seq<nat>)
    requires IsBytes(s)
    ensures Number(s) < Pow256(|s|)
  {
    if s != [] {
      NumberBound(s[1..]);
    }
  }

  /** Four bytes make a 32 bit number. */
  lemma DecodeBound(order: Order, s: seq<nat>)
    requires IsBytes(s) && |s| == 4
    ensures Decode(order, s) < 0x1_0000_0000
  {
    NumberBound(s);
    NumberBound(Flip(s));
    FourBytes();
  }
}
