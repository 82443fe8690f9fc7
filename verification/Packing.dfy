/** The buffers of the property list codec: ptp_pack_DPV, ptp_pack_OPL, ptp_unpack_DPV and
    ptp_unpack_OPL (src/ptp-pack.c:98-203, 609-711, 864-1089). */
module Packing {
  import opened Forest
  import opened ByteOrder
  import opened PropertyList

  /** Writes a number behind the `at` bytes written so far. */
  method Append(a: array<nat>, at: nat, order: Order, w: nat, n: nat)
    requires at + w <= a.Length
    modifies a
    ensures a[..at + w] == old(a[..at]) + Encode(order, w, n)
  {
    WriteInt(a, at, order, w, n);
    assert a[..at + w] == a[..][..at + w];
    assert old(a[..])[..at] == old(a[..at]);
  }

  /** memcpy. */
  method Copy(a: array<nat>, at: nat, src: array<nat>)
    requires at + src.Length <= a.Length && a != src
    modifies a
    ensures a[..at + src.Length] == old(a[..at]) + src[..]
  {
    var i := 0;
    while i < src.Length
      invariant i <= src.Length && a[..at + i] == old(a[..at]) + src[..i]
    {
      a[at + i] := src[i];
      assert a[..at + i + 1] == a[..at + i] + [src[i]];
      i := i + 1;
    }
  }

  /** ptp_pack_string and ptp_get_packed_stringcopy. */
  method PackString(order: Order, chars: seq<nat>) returns (packed: array<nat>)
    requires IsText(chars) && |chars| <= 254
    ensures fresh(packed) && packed[..] == EncodeText(order, chars)
  {
    hide EncodeUnits, Encode, Low, IsText;
    var n := |chars|;
    packed := new nat[2 * (n + 1) + 1];
    packed[0] := n + 1;
    var i: nat := 0;
    NextUnit(chars, 0);
    assert packed[..1] == [n + 1] + EncodeUnits(chars, 0);
    while i < n
      invariant i <= n && packed[..1 + 2 * i] == [n + 1] + EncodeUnits(chars, i)
    {
      NextUnit(chars, i);
      Append(packed, 1 + 2 * i, LittleEndian, 2, Wide(chars[i]));
      assert [n + 1] + (EncodeUnits(chars, i) + Low(2, Wide(chars[i]))) ==
        [n + 1] + EncodeUnits(chars, i) + Low(2, Wide(chars[i]));
      i := i + 1;
    }
    Append(packed, 2 * n + 1, order, 2, 0);
    assert packed[..2 * n + 1 + 2] == packed[..];
  }

  lemma NextUnit(chars: seq<nat>, i: nat)
    requires IsText(chars) && i <= |chars|
    ensures EncodeUnits(chars, 0) == []
    ensures i < |chars| ==> 0 < chars[i] < 256
    ensures i < |chars| ==> EncodeUnits(chars, i + 1) == EncodeUnits(chars, i) + Low(2, Wide(chars[i]))
    ensures i < |chars| ==> Low(2, Wide(chars[i])) == Encode(LittleEndian, 2, Wide(chars[i]))
  {
  }

  method PackArray(order: Order, w: nat, items: seq<nat>) returns (dpv: array<nat>)
    ensures fresh(dpv) && dpv[..] == Encode(order, 4, |items|) + EncodeItems(order, w, items, |items|)
  {
    hide Encode, EncodeItems;
    ghost var head := Encode(order, 4, |items|);
    dpv := new nat[4 + |items| * w];
    Append(dpv, 0, order, 4, |items|);
    NoItems(order, w, items);
    assert dpv[..4] == head + EncodeItems(order, w, items, 0);
    var i: nat, at: nat := 0, 4;
    while i < |items|
      invariant i <= |items| && at == |head + EncodeItems(order, w, items, i)| <= dpv.Length
      invariant dpv[..at] == head + EncodeItems(order, w, items, i)
    {
      RoomForNext(i, |items|, w);
      Append(dpv, at, order, w, items[i]);
      NextAppended(order, w, items, i);
      i, at := i + 1, at + w;
    }
    assert dpv[..at] == dpv[..];
  }

  lemma RoomForNext(i: nat, n: nat, w: nat)
    requires i < n
    ensures i * w + w == (i + 1) * w <= n * w
  {
  }

  lemma NextAppended(order: Order, w: nat, items: seq<nat>, i: nat)
    requires i < |items|
    ensures Encode(order, 4, |items|) + EncodeItems(order, w, items, i + 1) ==
            Encode(order, 4, |items|) + EncodeItems(order, w, items, i) + Encode(order, w, items[i])
  {
  }

  /** ptp_pack_DPV, for the types it supports: numbers of one, two, four or eight bytes, arrays of such numbers, and
      text. */
  method PackValue(order: Order, t: nat, v: Value) returns (dpv: array<nat>)
    requires Fits(t, v)
    ensures fresh(dpv) && dpv[..] == EncodeValue(order, t, v)
    ensures 1 <= t <= 2 ==> v.Scalar? && dpv[..] == [v.bits]
    ensures 3 <= t <= 4 ==> v.Scalar? && dpv[..] == if order.LittleEndian? then [v.bits % 256, v.bits / 256]
                                                    else [v.bits / 256, v.bits % 256]
    ensures 5 <= t <= 6 ==> v.Scalar? && dpv[..] == Encode(order, 4, v.bits)
    ensures 7 <= t <= 8 ==> v.Scalar? && dpv[..] == Encode(order, 8, v.bits)
    ensures 0x4001 <= t <= 0x4002 ==> v.Array? && ItemsLaid(order, 1, v.items, dpv[..])
    ensures 0x4003 <= t <= 0x4004 ==> v.Array? && ItemsLaid(order, 2, v.items, dpv[..])
    ensures 0x4005 <= t <= 0x4006 ==> v.Array? && ItemsLaid(order, 4, v.items, dpv[..])
    ensures 0x4007 <= t <= 0x4008 ==> v.Array? && ItemsLaid(order, 8, v.items, dpv[..])
    ensures t == 0xffff ==> (v.Text? ==> TextLaid(v.chars, dpv[..])) && (v.NullText? ==> TextLaid([], dpv[..]))
  {
    hide Encode, EncodeItems, EncodeText, ItemsLaid, TextLaid;
    if IsScalar(t) {
      dpv := new nat[Width(t)];
      Append(dpv, 0, order, Width(t), v.bits);
      assert dpv[..Width(t)] == dpv[..];
      ScalarBytes(order, t, v);
    } else if IsArray(t) {
      dpv := PackArray(order, Width(t), v.items);
      ItemsAreLaid(order, Width(t), v.items);
    } else {
      var chars := if v.NullText? then [] else v.chars;
      dpv := PackString(order, chars);
      TextIsLaid(order, chars);
    }
  }

  lemma ScalarBytes(order: Order, t: nat, v: Value)
    requires IsScalar(t) && Fits(t, v)
    ensures 1 <= t <= 2 ==> Encode(order, Width(t), v.bits) == [v.bits]
    ensures 3 <= t <= 4 ==>
              Encode(order, Width(t), v.bits) == if order.LittleEndian? then [v.bits % 256, v.bits / 256]
                                                 else [v.bits / 256, v.bits % 256]
  {
    hide Encode;
    BytesOf(order, v.bits);
    assert Pow256(1) == 256 * Pow256(0) && Pow256(2) == 256 * Pow256(1);
  }

  /** The packed values of the first properties, and their length together with the headers. */
  ghost predicate ValuesPacked(order: Order, props: seq<Property>, packed: seq<array<nat>>)
    requires AllPackable(props)
    reads packed
  {
    && |packed| <= |props|
    && forall i {:trigger packed[i]} :: 0 <= i < |packed| ==>
         packed[i][..] == EncodeValue(order, props[i].datatype_, props[i].value)
  }

  /** ptp_pack_OPL: the size reported is that of the buffer, and the buffer holds the encoded list, whose properties
      begin at `starts`. */
  method PackList(order: Order, props: seq<Property>)
    returns (opldata: array<nat>, totalsize: nat, ghost starts: seq<nat>)
    requires AllPackable(props)
    ensures fresh(opldata) && opldata[..] == EncodeList(order, props) && totalsize == opldata.Length
    ensures ListLaid(order, props, starts, opldata[..])
  {
    hide EncodeProps, Encode, Fits, EncodeValue, Packable, AllPackable, ListLaid;
    starts := ListIsLaid(order, props);
    var packed;
    packed, totalsize := PackValues(order, props);
    opldata := new nat[totalsize];
    Append(opldata, 0, order, 4, |packed|);
    ghost var total, count := Kept(|props|), Encode(order, 4, Kept(|props|));
    NothingPacked(order, props);
    assert opldata[..4] == count + EncodeProps(order, props, 0);
    var i, bufp := 0, 4;
    while i < |packed|
      invariant 0 <= i <= |packed| == total && ValuesPacked(order, props, packed)
      invariant 4 <= bufp == 4 + |EncodeProps(order, props, i)| <= opldata.Length
      invariant opldata[..bufp] == count + EncodeProps(order, props, i)
    {
      bufp := WriteProp(order, opldata, bufp, props, i, packed[i], total, count);
      i := i + 1;
    }
    assert opldata[..bufp] == opldata[..];
  }

  /** Its first loop, which packs the values and adds up the size. */
  method PackValues(order: Order, props: seq<Property>) returns (packed: seq<array<nat>>, totalsize: nat)
    requires AllPackable(props)
    ensures fresh(packed) && |packed| == Kept(|props|) && ValuesPacked(order, props, packed)
    ensures totalsize == 4 + |EncodeProps(order, props, Kept(|props|))|
  {
    hide Encode, Fits, EncodeValue;
    packed, totalsize := [], 4;
    while |packed| < |props| && |packed| < MAX_MTP_PROPS
      invariant |packed| <= Kept(|props|) && ValuesPacked(order, props, packed) && fresh(packed)
      invariant totalsize == 4 + |EncodeProps(order, props, |packed|)|
    {
      var p := props[|packed|];
      var value := PackValue(order, p.datatype_, p.value);
      totalsize := totalsize + 4 + 2 + 2 + value.Length;
      assert |value[..]| == value.Length;
      packed := packed + [value];
    }
  }

  /** One round of the loop that fills the buffer. */
  method WriteProp(order: Order, opldata: array<nat>, at: nat, props: seq<Property>, i: nat, value: array<nat>,
                   ghost total: nat, ghost count: seq<nat>)
    returns (bufp: nat)
    requires AllPackable(props) && i < total <= |props| && |count| == 4 && opldata != value
    requires value[..] == EncodeValue(order, props[i].datatype_, props[i].value)
    requires at == 4 + |EncodeProps(order, props, i)| <= opldata.Length == 4 + |EncodeProps(order, props, total)|
    requires opldata[..at] == count + EncodeProps(order, props, i)
    modifies opldata
    ensures bufp == 4 + |EncodeProps(order, props, i + 1)| <= opldata.Length
    ensures opldata[..bufp] == count + EncodeProps(order, props, i + 1)
  {
    hide EncodeValue, Encode, EncodeProps, Fits;
    var p := props[i];
    PropsPrefix(order, props, i + 1, total);
    NextProp(order, props, i, count);
    assert |value[..]| == value.Length;
    bufp := at;
    Append(opldata, bufp, order, 4, p.handle);
    bufp := bufp + 4;
    Append(opldata, bufp, order, 2, p.code);
    bufp := bufp + 2;
    Append(opldata, bufp, order, 2, p.datatype_);
    bufp := bufp + 2;
    Copy(opldata, bufp, value);
    bufp := bufp + value.Length;
  }

  lemma NextProp(order: Order, props: seq<Property>, i: nat, count: seq<nat>)
    requires AllPackable(props) && i < |props|
    ensures var p := props[i];
            && |EncodeProps(order, props, i + 1)| ==
               |EncodeProps(order, props, i)| + 8 + |EncodeValue(order, p.datatype_, p.value)|
            && count + EncodeProps(order, props, i + 1) ==
               count + EncodeProps(order, props, i) + Encode(order, 4, p.handle) + Encode(order, 2, p.code) +
               Encode(order, 2, p.datatype_) + EncodeValue(order, p.datatype_, p.value)
  {
    hide EncodeValue, Encode, Fits;
    var p := props[i];
    var a, b, c, d := Encode(order, 4, p.handle), Encode(order, 2, p.code), Encode(order, 2, p.datatype_),
                      EncodeValue(order, p.datatype_, p.value);
    Regroup(count, EncodeProps(order, props, i), a, b, c, d);
  }

  lemma Regroup(s: seq<nat>, t: seq<nat>, a: seq<nat>, b: seq<nat>, c: seq<nat>, d: seq<nat>)
    ensures s + (t + (a + b + c + d)) == s + t + a + b + c + d
  {
  }

  // ---------- Unpacking ----------

  /** RARR's loop. */
  method UnpackItems(order: Order, data: seq<nat>, at: nat, w: nat, n: nat) returns (items: Option<seq<nat>>, pos: nat)
    requires at <= |data|
    ensures (items, pos) == DecodeItems(order, data, at, w, n)
  {
    hide DecodeItems, ReadingItems;
    var got: seq<nat> := [];
    pos := at;
    var j: nat := 0;
    ghost var all := DecodeItems(order, data, at, w, n);
    NoItemsRead(order, data, at, w, n, all);
    while j < n
      invariant j <= n && pos <= |data| && ReadingItems(order, data, got, pos, w, n - j, all)
    {
      ItemRead(order, data, got, pos, w, n - j, all);
      if |data| - pos < w {
        return None, pos;
      }
      var x := ReadInt(data, pos, order, w);
      got, pos, j := got + [x], pos + w, j + 1;
    }
    ItemRead(order, data, got, pos, w, 0, all);
    items := Some(got);
  }

  /** RARR's loop has read `got` and is at `pos` with `n` numbers to go. */
  ghost predicate ReadingItems(order: Order, data: seq<nat>, got: seq<nat>, pos: nat, w: nat, n: nat,
                               all: (Option<seq<nat>>, nat))
    requires pos <= |data|
  {
    var rest := DecodeItems(order, data, pos, w, n);
    all == (if rest.0.None? then None else Some(got + rest.0.value), rest.1)
  }

  lemma NoItemsRead(order: Order, data: seq<nat>, pos: nat, w: nat, n: nat, all: (Option<seq<nat>>, nat))
    requires pos <= |data| && all == DecodeItems(order, data, pos, w, n)
    ensures ReadingItems(order, data, [], pos, w, n, all)
  {
    hide DecodeItems;
    if all.0.Some? {
      assert [] + all.0.value == all.0.value;
    }
  }

  lemma ItemRead(order: Order, data: seq<nat>, got: seq<nat>, pos: nat, w: nat, n: nat, all: (Option<seq<nat>>, nat))
    requires pos <= |data| && ReadingItems(order, data, got, pos, w, n, all)
    ensures n == 0 ==> all == (Some(got), pos)
    ensures n > 0 && |data| - pos < w ==> all == (None, pos)
    ensures n > 0 && w <= |data| - pos ==>
              ReadingItems(order, data, got + [Decode(order, data[pos..pos + w])], pos + w, w, n - 1, all)
  {
    hide Decode;
    if n == 0 {
      assert got + [] == got;
    } else if w <= |data| - pos {
      var rest := DecodeItems(order, data, pos + w, w, n - 1);
      if rest.0.Some? {
        var x := Decode(order, data[pos..pos + w]);
        assert got + ([x] + rest.0.value) == got + [x] + rest.0.value;
      }
    }
  }

  /** ptp_unpack_string's loop over the units. */
  method UnpackUnits(order: Order, data: seq<nat>, at: nat, n: nat) returns (s: seq<nat>)
    requires at + 2 * n <= |data|
    ensures s == DecodeUnits(order, data, at, n)
  {
    s := [];
    var i := 0;
    while i < n
      invariant i <= n && s == DecodeUnits(order, data, at, i)
    {
      var u := ReadInt(data, at + 2 * i, order, 2);
      s := s + [if u > 127 then 63 else u];
      i := i + 1;
    }
  }

  /** ptp_unpack_DPV. */
  method UnpackValue(order: Order, data: seq<nat>, pos: nat, t: nat) returns (d: Decoded)
    requires pos <= |data|
    ensures d == DecodeValue(order, data, pos, t)
    ensures ValueTaken(order, data, pos, t, d)
  {
    hide Decode, DecodeItems, DecodeUnits, UpToZero, ValueTaken;
    ValueIsTaken(order, data, pos, t);
    if IsScalar(t) {
      if |data| - pos < Width(t) {
        return Decoded(Missing, pos);
      }
      var n := ReadInt(data, pos, order, Width(t));
      return Decoded(Scalar(n), pos + Width(t));
    } else if IsArray(t) {
      if |data| - pos < 4 {
        return Decoded(Missing, pos);
      }
      var n := ReadInt(data, pos, order, 4);
      if n >= 0x8000_0000 {
        return Decoded(Missing, pos + 4);     // the allocation of a negative count fails
      }
      var items, end := UnpackItems(order, data, pos + 4, Width(t), n);
      return Decoded(if items.None? then Missing else Array(items.value), end);
    } else if t == DTC_STR {
      if pos == |data| {
        return Overread;
      }
      if data[pos] == 0 {
        return Decoded(NullText, pos + 1);
      }
      if |data| - pos - 1 < 2 * data[pos] {
        return Overread;
      }
      var units := UnpackUnits(order, data, pos + 1, data[pos]);
      return Decoded(Text(UpToZero(units)), pos + 1 + 2 * data[pos]);
    } else if t == DTC_INT128 || t == DTC_UINT128 {
      return Decoded(Missing, pos + 16);
    }
    return Decoded(Missing, pos);
  }

  // ---------- Sorting ----------

  /** _compare_func: the difference of two 32 bit handles, as an int. */
  function Compare(a: nat, b: nat): int
    requires a < 0x1_0000_0000 && b < 0x1_0000_0000
  {
    var d := (a - b) % 0x1_0000_0000;
    if d >= 0x8000_0000 then d - 0x1_0000_0000 else d
  }

  /** The comparison is right if and only if the first handle is at most 2^31 below the second and less than 2^31
      above it. */
  lemma CompareRightIff(a: nat, b: nat)
    requires a < 0x1_0000_0000 && b < 0x1_0000_0000
    ensures Compare(a, b) == a - b <==> -0x8000_0000 <= a - b < 0x8000_0000
    ensures Compare(a, b) == 0 <==> a == b
  {
  }

  predicate Handles32(props: seq<Property>) {
    forall p :: p in props ==> p.handle < 0x1_0000_0000
  }

  /** All handles are less than 2^31 apart. */
  predicate Close(props: seq<Property>) {
    forall p, q {:trigger p.handle, q.handle} :: p in props && q in props ==> p.handle - q.handle < 0x8000_0000
  }

  predicate Sorted(props: seq<Property>) {
    forall i, j :: 0 <= i < j < |props| ==> props[i].handle <= props[j].handle
  }

  /** qsort with _compare_func: some permutation, in the order of the handles if they are close. */
  method SortByHandle(props: seq<Property>) returns (r: seq<Property>)
    requires Handles32(props)
    ensures multiset(r) == multiset(props)
    ensures Close(props) ==> Sorted(r)
  {
    hide Compare, Sorted, Close, Handles32;
    r := [];
    var n := 0;
    NothingSorted(props);
    while n < |props|
      invariant 0 <= n <= |props| && multiset(r) == multiset(props[..n])
      invariant Close(props) ==> Sorted(r)
    {
      SameMembers(r, props, n);
      var k := PlaceFor(r, props[n]);
      OneMoreSorted(r, props, n, k);
      r := r[..k] + [props[n]] + r[k..];
      n := n + 1;
    }
    assert props[..n] == props;
  }

  lemma NothingSorted(props: seq<Property>)
    ensures props[..0] == [] && Sorted([])
  {
  }

  lemma SameMembers(r: seq<Property>, props: seq<Property>, n: nat)
    requires n < |props| && multiset(r) == multiset(props[..n]) && Handles32(props)
    ensures forall q :: q in r ==> q in props
    ensures Handles32(r) && props[n].handle < 0x1_0000_0000
  {
    forall q | q in r
      ensures q in props
    {
      assert q in multiset(r);
      assert q in props[..n];
    }
    assert props[n] in props;
  }

  /** Inserting the next property where it belongs. */
  lemma OneMoreSorted(r: seq<Property>, props: seq<Property>, n: nat, k: nat)
    requires n < |props| && multiset(r) == multiset(props[..n]) && Handles32(props) && Handles32(r)
    requires props[n].handle < 0x1_0000_0000 && (forall q :: q in r ==> q in props) && k <= |r|
    requires forall j :: 0 <= j < k ==> Compare(props[n].handle, r[j].handle) >= 0
    requires k < |r| ==> Compare(props[n].handle, r[k].handle) < 0
    ensures multiset(r[..k] + [props[n]] + r[k..]) == multiset(props[..n + 1])
    ensures Close(props) && Sorted(r) ==> Sorted(r[..k] + [props[n]] + r[k..])
  {
    hide Compare, Sorted;
    assert props[..n + 1] == props[..n] + [props[n]];
    Inserted(r, props[n], k);
    if Close(props) && Sorted(r) {
      assert props[n] in props;
      forall j | 0 <= j < |r|
        ensures -0x8000_0000 < props[n].handle - r[j].handle < 0x8000_0000
      {
        assert r[j] in r;
      }
      CloseInsert(r, props[n], k);
    }
  }

  lemma Inserted(r: seq<Property>, p: Property, k: nat)
    requires k <= |r|
    ensures multiset(r[..k] + [p] + r[k..]) == multiset(r) + multiset{p}
  {
    assert r == r[..k] + r[k..];
  }

  /** Behind all that do not compare greater, up to the first that does. */
  method PlaceFor(r: seq<Property>, p: Property) returns (k: nat)
    requires Handles32(r) && p.handle < 0x1_0000_0000
    ensures k <= |r|
    ensures forall j :: 0 <= j < k ==> Compare(p.handle, r[j].handle) >= 0
    ensures k < |r| ==> Compare(p.handle, r[k].handle) < 0
  {
    k := 0;
    while k < |r| && Compare(p.handle, r[k].handle) >= 0
      invariant k <= |r| && forall j :: 0 <= j < k ==> Compare(p.handle, r[j].handle) >= 0
    {
      k := k + 1;
    }
  }

  lemma CloseInsert(r: seq<Property>, p: Property, k: nat)
    requires Handles32(r) && p.handle < 0x1_0000_0000 && k <= |r| && Sorted(r)
    requires forall j :: 0 <= j < |r| ==> -0x8000_0000 < p.handle - r[j].handle < 0x8000_0000
    requires forall j :: 0 <= j < k ==> Compare(p.handle, r[j].handle) >= 0
    requires k < |r| ==> Compare(p.handle, r[k].handle) < 0
    ensures Sorted(r[..k] + [p] + r[k..])
  {
    forall j | 0 <= j < |r|
      ensures Compare(p.handle, r[j].handle) == p.handle - r[j].handle
    {
      CompareRightIff(p.handle, r[j].handle);
    }
  }

  /** The loop of ptp_unpack_OPL has read `got` and is at `pos` with `n` properties to go. */
  ghost predicate Reading(order: Order, data: seq<nat>, got: seq<Property>, pos: nat, n: nat,
                          all: Option<seq<Property>>) {
    var rest := DecodeProps(order, data, pos, n);
    all == if rest.None? then None else Some(got + rest.value)
  }

  lemma ReadOne(order: Order, data: seq<nat>, got: seq<Property>, pos: nat, n: nat, all: Option<seq<Property>>)
    requires n > 0 && pos != |data| && Reading(order, data, got, pos, n, all)
    ensures |data| < pos + 8 ==> all == None
    ensures pos + 8 <= |data| ==>
              var t := Decode(order, data[pos + 6..pos + 8]);
              var d := DecodeValue(order, data, pos + 8, t);
              && (d.Overread? ==> all == None)
              && (d.Decoded? ==>
                    var p := Property(Decode(order, data[pos..pos + 4]), Decode(order, data[pos + 4..pos + 6]),
                                      t, d.value);
                    Reading(order, data, got + [p], d.pos, n - 1, all))
  {
    hide DecodeValue, Decode;
    if pos + 8 <= |data| {
      var t := Decode(order, data[pos + 6..pos + 8]);
      var d := DecodeValue(order, data, pos + 8, t);
      if d.Decoded? {
        var p := Property(Decode(order, data[pos..pos + 4]), Decode(order, data[pos + 4..pos + 6]), t, d.value);
        var rest := DecodeProps(order, data, d.pos, n - 1);
        if rest.Some? {
          assert got + ([p] + rest.value) == got + [p] + rest.value;
        }
      }
    }
  }

  /** ptp_unpack_OPL.  None: it reads behind the buffer.  `got` are the properties in the order they come, and `at`
      is where they begin: as many as the count says, or up to the end of the data. */
  method UnpackList(order: Order, data: seq<nat>)
    returns (props: Option<seq<Property>>, ghost got: seq<Property>, ghost at: seq<nat>)
    requires IsBytes(data)
    ensures props.Some? ==>
              && 4 <= |data| && multiset(props.value) == multiset(got) && (Close(got) ==> Sorted(props.value))
              && ListTaken(order, data, got, at) && |got| <= Decode(order, data[..4])
              && (at[|got|] == |data| || |got| == Decode(order, data[..4]))
    ensures props.None? ==> |data| < 4 ||
                            (&& ListTaken(order, data, got, at) && |got| < Decode(order, data[..4])
                             && at[|got|] != |data| && StopsHere(order, data, at[|got|]))
    ensures props.None? <==> DecodeList(order, data).None?
    ensures props.Some? ==>
              && multiset(props.value) == multiset(DecodeList(order, data).value)
              && (Close(DecodeList(order, data).value) ==> Sorted(props.value))
  {
    hide Decode, DecodeValue, DecodeProps, Reading, ListTaken, PropTaken, ValueTaken;
    got, at := [], [4];
    if |data| < 4 {
      return None, got, at;
    }
    NothingTaken(order, data);
    var count := ReadInt(data, 0, order, 4);
    assert data[0..0 + 4] == data[..4];
    ghost var all := DecodeList(order, data);
    StartReading(order, data, count, all);
    var read: seq<Property>, pos: nat, i: nat := [], 4, 0;
    while i < count
      invariant i <= count && i == |read| && Handles32(read) && Reading(order, data, read, pos, count - i, all)
      invariant got == read && ListTaken(order, data, got, at) && |at| == i + 1 && at[i] == pos
    {
      if pos == |data| {
        break;
      }
      ReadOne(order, data, read, pos, count - i, all);
      if |data| < pos + 8 {
        return None, got, at;
      }
      var handle := ReadInt(data, pos, order, 4);
      DecodeBound(order, data[pos..pos + 4]);
      var code := ReadInt(data, pos + 4, order, 2);
      var t := ReadInt(data, pos + 6, order, 2);
      var d := UnpackValue(order, data, pos + 8, t);
      if d.Overread? {
        return None, got, at;
      }
      var p := Property(handle, code, t, d.value);
      TakenHere(order, data, p, pos, d);
      OneMoreTaken(order, data, got, at, p, d.pos);
      read, pos, i := read + [p], d.pos, i + 1;
      got, at := read, at + [pos];
    }
    EndReading(order, data, read, pos, count - i, all);
    var sorted := SortByHandle(read);
    props := Some(sorted);
  }

  /** The next property cannot be read: its header or its text goes beyond the end. */
  ghost predicate StopsHere(order: Order, data: seq<nat>, pos: nat) {
    |data| < pos + 8 || ValueTaken(order, data, pos + 8, Decode(order, data[pos + 6..pos + 8]), Overread)
  }

  lemma NothingTaken(order: Order, data: seq<nat>)
    ensures ListTaken(order, data, [], [4])
  {
  }

  lemma TakenHere(order: Order, data: seq<nat>, p: Property, pos: nat, d: Decoded)
    requires pos + 8 <= |data| && d.Decoded? && p.value == d.value
    requires p.handle == Decode(order, data[pos..pos + 4]) && p.code == Decode(order, data[pos + 4..pos + 6])
    requires p.datatype_ == Decode(order, data[pos + 6..pos + 8]) && ValueTaken(order, data, pos + 8, p.datatype_, d)
    ensures PropTaken(order, data, p, pos, d.pos)
  {
    hide Decode, ValueTaken;
    assert d == Decoded(p.value, d.pos);
  }

  lemma StartReading(order: Order, data: seq<nat>, count: nat, all: Option<seq<Property>>)
    requires |data| >= 4 && count == Decode(order, data[..4]) && all == DecodeList(order, data)
    ensures Reading(order, data, [], 4, count, all)
  {
    if all.Some? {
      assert [] + all.value == all.value;
    }
  }

  lemma EndReading(order: Order, data: seq<nat>, got: seq<Property>, pos: nat, n: nat, all: Option<seq<Property>>)
    requires Reading(order, data, got, pos, n, all) && (n == 0 || pos == |data|)
    ensures all == Some(got)
  {
    assert got + [] == got;
  }

  // ---------- There and back ----------

  /** A list packed and unpacked again, possibly cut off behind its first `k` properties. */
  method RoundTrip(order: Order, props: seq<Property>, k: nat) returns (back: Option<seq<Property>>)
    requires AllPackable(props) && k <= Kept(|props|)
    ensures back.Some? && multiset(back.value) == multiset(NormalProps(order, props)[..k])
    ensures Close(NormalProps(order, props)[..k]) ==> Sorted(back.value)
  {
    hide EncodeList, EncodeProps, DecodeList, AllPackable, Close, Sorted;
    var buffer, size, starts := PackList(order, props);
    var cut := PackedSize(order, props, k);
    ListBack(order, props, k);
    ListIsBytes(order, props);
    assert buffer[..cut] == buffer[..][..cut];
    ghost var got, at;
    back, got, at := UnpackList(order, buffer[..cut]);
  }

  /** Where the first `k` properties end. */
  function PackedSize(order: Order, props: seq<Property>, k: nat): nat
    requires k <= |props| && AllPackable(props)
  {
    4 + |EncodeProps(order, props, k)|
  }

  lemma {:induction false} ListIsBytes(order: Order, props: seq<Property>)
    requires AllPackable(props)
    ensures IsBytes(EncodeList(order, props))
  {
    PropsAreBytes(order, props, Kept(|props|));
  }

  lemma {:induction false} PropsAreBytes(order: Order, props: seq<Property>, n: nat)
    requires n <= |props| && AllPackable(props)
    ensures IsBytes(EncodeProps(order, props, n))
  {
    hide EncodeValue, Fits, Encode;
    if n > 0 {
      PropsAreBytes(order, props, n - 1);
      ValueIsBytes(order, props[n - 1].datatype_, props[n - 1].value);
    }
  }

  lemma ValueIsBytes(order: Order, t: nat, v: Value)
    requires Fits(t, v)
    ensures IsBytes(EncodeValue(order, t, v))
  {
    if IsArray(t) {
      ItemsAreBytes(order, Width(t), v.items, |v.items|);
    } else if !IsScalar(t) {
      var chars := if v.NullText? then [] else v.chars;
      UnitsAreBytes(chars, |chars|);
    }
  }

  lemma {:induction false} ItemsAreBytes(order: Order, w: nat, items: seq<nat>, n: nat)
    requires n <= |items|
    ensures IsBytes(EncodeItems(order, w, items, n))
  {
    if n > 0 {
      ItemsAreBytes(order, w, items, n - 1);
    }
  }

  lemma {:induction false} UnitsAreBytes(chars: seq<nat>, n: nat)
    requires n <= |chars| && IsText(chars)
    ensures IsBytes(EncodeUnits(chars, n))
  {
    if n > 0 {
      UnitsAreBytes(chars, n - 1);
    }
  }
}
