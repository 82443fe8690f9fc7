/** MTP object property lists: ptp_pack_OPL and ptp_unpack_OPL with the values they hold
    (src/ptp-pack.c:98-203, 609-711, 864-1089; sections 3.2.2 and 3.2.3 of the MTP 1.1 specification). */
module PropertyList {
  import opened Forest
  import opened ByteOrder

  /** The members of the PTPPropertyValue union, signed numbers by their bit pattern.  `Missing` stands for
      what a failed unpacking leaves in the union, `NullText` for a string pointer that is NULL. */
  datatype Value =
    | Scalar(bits: nat) | Array(items: seq<nat>) | Text(chars: seq<nat>) | NullText | Missing

  datatype Property = Property(handle: nat, code: nat, datatype_: nat, value: Value)

  const DTC_STR: nat := 0xffff
  const DTC_INT128: nat := 0x0009
  const DTC_UINT128: nat := 0x000a
  const MAX_MTP_PROPS: nat := 127

  predicate IsScalar(t: nat) {
    1 <= t <= 8
  }

  predicate IsArray(t: nat) {
    0x4001 <= t <= 0x4008
  }

  /** The bytes of one number of a scalar or array type. */
  function Width(t: nat): (w: nat)
    ensures w > 0
  {
    var k := if t >= 0x4000 then t - 0x4000 else t;
    if k <= 2 then 1 else if k <= 4 then 2 else if k <= 6 then 4 else 8
  }

  /** A char of a C string. */
  predicate IsText(chars: seq<nat>) {
    forall i :: 0 <= i < |chars| ==> 0 < chars[i] < 256
  }

  predicate IsAscii(chars: seq<nat>) {
    forall i :: 0 <= i < |chars| ==> 0 < chars[i] < 128
  }

  /** What the packer supports. */
  predicate Fits(t: nat, v: Value) {
    if IsScalar(t) then v.Scalar? && v.bits < Pow256(Width(t))
    else if IsArray(t) then
      v.Array? && |v.items| < 0x8000_0000 && forall i :: 0 <= i < |v.items| ==> v.items[i] < Pow256(Width(t))
    else t == DTC_STR && (v.NullText? || (v.Text? && IsText(v.chars) && |v.chars| <= 254))
  }

  // ---------- Encoding ----------

  function EncodeItems(order: Order, w: nat, items: seq<nat>, n: nat): (s: seq<nat>)
    requires n <= |items|
    ensures |s| == n * w
  {
    if n == 0 then [] else EncodeItems(order, w, items, n - 1) + Encode(order, w, items[n - 1])
  }

  /** A char as a 16 bit unit: `char` is signed. */
  function Wide(c: nat): nat
    requires c < 256
  {
    if c < 128 then c else 0xff00 + c
  }

  /** The units are copied as they lie in memory, whatever the order of the device. */
  function EncodeUnits(chars: seq<nat>, n: nat): (s: seq<nat>)
    requires n <= |chars| && IsText(chars)
    ensures |s| == 2 * n
  {
    if n == 0 then [] else EncodeUnits(chars, n - 1) + Low(2, Wide(chars[n - 1]))
  }

  function EncodeText(order: Order, chars: seq<nat>): (s: seq<nat>)
    requires IsText(chars) && |chars| <= 254
    ensures |s| == 2 * |chars| + 3
  {
    [|chars| + 1] + EncodeUnits(chars, |chars|) + Encode(order, 2, 0)
  }

  function EncodeValue(order: Order, t: nat, v: Value): seq<nat>
    requires Fits(t, v)
  {
    if IsScalar(t) then Encode(order, Width(t), v.bits)
    else if IsArray(t) then Encode(order, 4, |v.items|) + EncodeItems(order, Width(t), v.items, |v.items|)
    else EncodeText(order, if v.NullText? then [] else v.chars)
  }

  predicate Packable(p: Property) {
    p.handle < Pow256(4) && p.code < Pow256(2) && p.datatype_ < Pow256(2) && Fits(p.datatype_, p.value)
  }

  predicate AllPackable(props: seq<Property>) {
    forall i :: 0 <= i < |props| ==> Packable(props[i])
  }

  function EncodeHeader(order: Order, p: Property): (s: seq<nat>)
    ensures |s| == 8
  {
    Encode(order, 4, p.handle) + Encode(order, 2, p.code) + Encode(order, 2, p.datatype_)
  }

  function EncodeProp(order: Order, p: Property): seq<nat>
    requires Packable(p)
  {
    EncodeHeader(order, p) + EncodeValue(order, p.datatype_, p.value)
  }

  function EncodeProps(order: Order, props: seq<Property>, n: nat): seq<nat>
    requires n <= |props| && AllPackable(props)
  {
    if n == 0 then []
    else EncodeProps(order, props, n - 1) + EncodeProp(order, props[n - 1])
  }

  /** How many properties go into a list. */
  function Kept(n: nat): nat {
    if n < MAX_MTP_PROPS then n else MAX_MTP_PROPS
  }

  function EncodeList(order: Order, props: seq<Property>): seq<nat>
    requires AllPackable(props)
  {
    Encode(order, 4, Kept(|props|)) + EncodeProps(order, props, Kept(|props|))
  }

  // ---------- Decoding ----------

  /** `Overread` means that the code reads behind the buffer. */
  datatype Decoded = Overread | Decoded(value: Value, pos: nat)

  /** RARR's loop: it stops with an error where the buffer ends. */
  function DecodeItems(order: Order, data: seq<nat>, pos: nat, w: nat, n: nat): (r: (Option<seq<nat>>, nat))
    requires pos <= |data|
    ensures pos <= r.1 <= |data|
    decreases n
  {
    if n == 0 then (Some([]), pos)
    else if |data| - pos < w then (None, pos)
    else
      var rest := DecodeItems(order, data, pos + w, w, n - 1);
      (if rest.0.None? then None else Some([Decode(order, data[pos..pos + w])] + rest.0.value), rest.1)
  }

  function Narrow(u: nat): nat {
    if u > 127 then 63 else u
  }

  function DecodeUnits(order: Order, data: seq<nat>, pos: nat, n: nat): (s: seq<nat>)
    requires pos + 2 * n <= |data|
    ensures |s| == n && forall i :: 0 <= i < n ==> s[i] == Narrow(Decode(order, data[pos + 2 * i..pos + 2 * i + 2]))
  {
    if n == 0 then []
    else DecodeUnits(order, data, pos, n - 1) + [Narrow(Decode(order, data[pos + 2 * (n - 1)..pos + 2 * n]))]
  }

  /** A C string ends at the first zero. */
  function UpToZero(s: seq<nat>): seq<nat> {
    if s == [] || s[0] == 0 then [] else [s[0]] + UpToZero(s[1..])
  }

  /** ptp_unpack_DPV at `pos`; the bounds of text are not checked. */
  function DecodeValue(order: Order, data: seq<nat>, pos: nat, t: nat): Decoded
    requires pos <= |data|
  {
    if IsScalar(t) then
      if |data| - pos < Width(t) then Decoded(Missing, pos)
      else Decoded(Scalar(Decode(order, data[pos..pos + Width(t)])), pos + Width(t))
    else if IsArray(t) then
      if |data| - pos < 4 then Decoded(Missing, pos)
      else
        var n := Decode(order, data[pos..pos + 4]);
        if n >= 0x8000_0000 then Decoded(Missing, pos + 4)
        else
          var r := DecodeItems(order, data, pos + 4, Width(t), n);
          Decoded(if r.0.None? then Missing else Array(r.0.value), r.1)
    else if t == DTC_STR then
      if pos == |data| then Overread
      else if data[pos] == 0 then Decoded(NullText, pos + 1)
      else if |data| - pos - 1 < 2 * data[pos] then Overread
      else Decoded(Text(UpToZero(DecodeUnits(order, data, pos + 1, data[pos]))), pos + 1 + 2 * data[pos])
    else if t == DTC_INT128 || t == DTC_UINT128 then Decoded(Missing, pos + 16)
    else Decoded(Missing, pos)
  }

  /** The properties that the loop of ptp_unpack_OPL reads, or None if it reads behind the buffer. */
  function DecodeProps(order: Order, data: seq<nat>, pos: nat, n: nat): Option<seq<Property>>
    decreases n
  {
    if n == 0 || pos == |data| then Some([])
    else if |data| < pos + 8 then None
    else
      var t := Decode(order, data[pos + 6..pos + 8]);
      var d := DecodeValue(order, data, pos + 8, t);
      if d.Overread? then None
      else
        var rest := DecodeProps(order, data, d.pos, n - 1);
        if rest.None? then None
        else
          var p := Property(Decode(order, data[pos..pos + 4]), Decode(order, data[pos + 4..pos + 6]), t, d.value);
          Some([p] + rest.value)
  }

  function DecodeList(order: Order, data: seq<nat>): Option<seq<Property>> {
    if |data| < 4 then None else DecodeProps(order, data, 4, Decode(order, data[..4]))
  }

  // ---------- Round trips ----------

  predicate At(data: seq<nat>, pos: nat, s: seq<nat>) {
    pos + |s| <= |data| && data[pos..pos + |s|] == s
  }

  lemma AtFrom(data: seq<nat>, pos: nat, s: seq<nat>)
    requires pos + |s| <= |data| && data[pos..pos + |s|] == s
    ensures At(data, pos, s)
  {
  }

  lemma NothingPacked(order: Order, props: seq<Property>)
    requires AllPackable(props)
    ensures EncodeProps(order, props, 0) == []
  {
  }

  lemma AtParts(data: seq<nat>, pos: nat, a: seq<nat>, b: seq<nat>)
    requires At(data, pos, a + b)
    ensures At(data, pos, a) && At(data, pos + |a|, b)
  {
    var s := data[pos..pos + |a + b|];
    assert data[pos..pos + |a|] == s[..|a|] == a;
    assert data[pos + |a|..pos + |a| + |b|] == s[|a|..] == b;
  }

  lemma {:induction false} ItemsBack(order: Order, data: seq<nat>, pos: nat, w: nat, items: seq<nat>, n: nat, k: nat)
    requires w > 0 && k <= n <= |items| && At(data, pos, EncodeItems(order, w, items, n))
    requires forall i :: 0 <= i < |items| ==> items[i] < Pow256(w)
    ensures pos + |EncodeItems(order, w, items, k)| <= |data|
    ensures DecodeItems(order, data, pos + |EncodeItems(order, w, items, k)|, w, n - k) ==
            (Some(items[k..n]), pos + |EncodeItems(order, w, items, n)|)
    decreases n - k
  {
    hide Encode, Decode, EncodeItems, At, Pow256;
    ItemAt(order, data, pos, w, items, n, k);
    if k < n {
      ItemsBack(order, data, pos, w, items, n, k + 1);
      NextItem(order, data, pos + |EncodeItems(order, w, items, k)|, w, items, k);
      assert items[k..n] == [items[k]] + items[k + 1..n];
    } else {
      assert n - k == 0 && items[k..n] == [];
    }
  }

  lemma NextItem(order: Order, data: seq<nat>, at: nat, w: nat, items: seq<nat>, k: nat)
    requires k < |items| && items[k] < Pow256(w) && At(data, at, Encode(order, w, items[k]))
    ensures |EncodeItems(order, w, items, k + 1)| == |EncodeItems(order, w, items, k)| + w
    ensures at + w <= |data| && Decode(order, data[at..at + w]) == items[k]
  {
    hide Encode, Decode, Pow256;
    assert EncodeItems(order, w, items, k + 1) == EncodeItems(order, w, items, k) + Encode(order, w, items[k]);
    hide EncodeItems;
    DecodeEncode(order, w, items[k]);
  }

  lemma {:induction false} ItemAt(order: Order, data: seq<nat>, pos: nat, w: nat, items: seq<nat>, n: nat, k: nat)
    requires k <= n <= |items| && At(data, pos, EncodeItems(order, w, items, n))
    ensures pos + |EncodeItems(order, w, items, k)| <= |data|
    ensures k < n ==> At(data, pos + |EncodeItems(order, w, items, k)|, Encode(order, w, items[k]))
  {
    hide Encode;
    if k < n {
      AtParts(data, pos, EncodeItems(order, w, items, n - 1), Encode(order, w, items[n - 1]));
      ItemAt(order, data, pos, w, items, n - 1, k);
    }
  }

  lemma {:induction false} UnitAt(data: seq<nat>, pos: nat, chars: seq<nat>, n: nat, k: nat)
    requires k < n <= |chars| && IsText(chars) && At(data, pos, EncodeUnits(chars, n))
    ensures At(data, pos + 2 * k, Low(2, Wide(chars[k])))
  {
    AtParts(data, pos, EncodeUnits(chars, n - 1), Low(2, Wide(chars[n - 1])));
    if k < n - 1 {
      UnitAt(data, pos, chars, n - 1, k);
    }
  }

  /** What becomes of one char on its way through the codec. */
  function Passed(order: Order, c: nat): nat {
    if order.LittleEndian? && c < 128 then c else 63
  }

  function PassedText(order: Order, chars: seq<nat>): (r: seq<nat>)
    ensures |r| == |chars| && forall i :: 0 <= i < |chars| ==> r[i] == Passed(order, chars[i])
  {
    seq(|chars|, i requires 0 <= i < |chars| => Passed(order, chars[i]))
  }

  lemma UnitPasses(order: Order, c: nat)
    requires 0 < c < 256
    ensures Narrow(Decode(order, Low(2, Wide(c)))) == Passed(order, c)
  {
    DecodeSwapped(Wide(c));
  }

  lemma {:induction false} UpToZeroStops(s: seq<nat>, t: seq<nat>)
    requires forall i :: 0 <= i < |s| ==> s[i] != 0
    ensures UpToZero(s + [0] + t) == s
  {
    var all := s + [0] + t;
    if s != [] {
      assert all[1..] == s[1..] + [0] + t;
      UpToZeroStops(s[1..], t);
    }
  }

  /** Text comes back char by char, for any byte order, with question marks for what got lost. */
  lemma TextBack(order: Order, data: seq<nat>, pos: nat, chars: seq<nat>)
    requires IsText(chars) && |chars| <= 254 && At(data, pos, EncodeText(order, chars))
    ensures DecodeValue(order, data, pos, DTC_STR) ==
            Decoded(Text(PassedText(order, chars)), pos + |EncodeText(order, chars)|)
  {
    hide Decode, EncodeUnits, At, Encode, UpToZero, DecodeUnits, PassedText;
    TextAt(order, data, pos, chars);
    UnitsBack(order, data, pos + 1, chars);
  }

  lemma TextAt(order: Order, data: seq<nat>, pos: nat, chars: seq<nat>)
    requires IsText(chars) && |chars| <= 254 && At(data, pos, EncodeText(order, chars))
    ensures pos + 2 * |chars| + 3 <= |data| && data[pos] == |chars| + 1
    ensures At(data, pos + 1, EncodeUnits(chars, |chars|)) && At(data, pos + 1 + 2 * |chars|, Encode(order, 2, 0))
  {
    hide Encode, EncodeUnits, At, EncodeText, IsText;
    TextIs(order, chars);
    AtMeans(data, pos, EncodeText(order, chars));
    ThreeAt(data, pos, |chars| + 1, EncodeUnits(chars, |chars|), Encode(order, 2, 0));
  }

  lemma TextIs(order: Order, chars: seq<nat>)
    requires IsText(chars) && |chars| <= 254
    ensures EncodeText(order, chars) == [|chars| + 1] + EncodeUnits(chars, |chars|) + Encode(order, 2, 0)
  {
  }

  lemma ThreeAt(data: seq<nat>, pos: nat, x: nat, s: seq<nat>, t: seq<nat>)
    requires At(data, pos, [x] + s + t)
    ensures pos < |data| && data[pos] == x && At(data, pos + 1, s) && At(data, pos + 1 + |s|, t)
  {
    hide At;
    AtParts(data, pos, [x] + s, t);
    AtParts(data, pos, [x], s);
    AtMeans(data, pos, [x]);
    assert data[pos] == data[pos..pos + 1][0];
  }

  lemma UnitsBack(order: Order, data: seq<nat>, pos: nat, chars: seq<nat>)
    requires IsText(chars)
    requires At(data, pos, EncodeUnits(chars, |chars|)) && At(data, pos + 2 * |chars|, Encode(order, 2, 0))
    ensures UpToZero(DecodeUnits(order, data, pos, |chars| + 1)) == PassedText(order, chars)
  {
    hide EncodeUnits, Decode, Encode, UpToZero, DecodeUnits;
    var n := |chars|;
    var units := DecodeUnits(order, data, pos, n + 1);
    forall i | 0 <= i < n
      ensures units[i] == Passed(order, chars[i])
    {
      UnitAt(data, pos, chars, n, i);
      UnitPasses(order, chars[i]);
    }
    DecodeEncode(order, 2, 0);
    assert units == PassedText(order, chars) + [0] + [];
    UpToZeroStops(PassedText(order, chars), []);
  }

  /** What a packed value is unpacked to. */
  function Normal(order: Order, v: Value): Value {
    match v
    case NullText => Text([])
    case Text(chars) => Text(PassedText(order, chars))
    case _ => v
  }

  lemma ScalarBack(order: Order, data: seq<nat>, pos: nat, t: nat, v: Value)
    requires IsScalar(t) && Fits(t, v) && At(data, pos, EncodeValue(order, t, v))
    ensures DecodeValue(order, data, pos, t) == Decoded(v, pos + |EncodeValue(order, t, v)|)
  {
    hide Encode, Decode, Pow256;
    DecodeEncode(order, Width(t), v.bits);
  }

  lemma ArrayBack(order: Order, data: seq<nat>, pos: nat, t: nat, v: Value)
    requires IsArray(t) && Fits(t, v) && At(data, pos, EncodeValue(order, t, v))
    ensures DecodeValue(order, data, pos, t) == Decoded(v, pos + |EncodeValue(order, t, v)|)
  {
    hide Encode, Decode, EncodeItems, At, Pow256, DecodeItems;
    var n, w := |v.items|, Width(t);
    AtParts(data, pos, Encode(order, 4, n), EncodeItems(order, w, v.items, n));
    AtMeans(data, pos, Encode(order, 4, n));
    FourBytes();
    DecodeEncode(order, 4, n);
    ItemsBack(order, data, pos + 4, w, v.items, n, 0);
    NoItems(order, w, v.items);
    assert v.items[0..n] == v.items;
  }

  lemma NoItems(order: Order, w: nat, items: seq<nat>)
    ensures EncodeItems(order, w, items, 0) == []
  {
  }

  lemma AtMeans(data: seq<nat>, pos: nat, s: seq<nat>)
    requires At(data, pos, s)
    ensures pos + |s| <= |data| && data[pos..pos + |s|] == s
  {
  }

  /** Every value decodes to itself, as far as text allows, and uses up exactly its own bytes. */
  lemma ValueBack(order: Order, data: seq<nat>, pos: nat, t: nat, v: Value)
    requires Fits(t, v) && At(data, pos, EncodeValue(order, t, v))
    ensures DecodeValue(order, data, pos, t) == Decoded(Normal(order, v), pos + |EncodeValue(order, t, v)|)
  {
    hide At, EncodeValue, DecodeValue;
    if IsScalar(t) {
      ScalarBack(order, data, pos, t, v);
    } else if IsArray(t) {
      ArrayBack(order, data, pos, t, v);
    } else {
      TextFits(order, t, v);
      TextBack(order, data, pos, if v.NullText? then [] else v.chars);
    }
  }

  lemma TextFits(order: Order, t: nat, v: Value)
    requires Fits(t, v) && !IsScalar(t) && !IsArray(t)
    ensures t == DTC_STR && (v.NullText? || v.Text?)
    ensures var chars := if v.NullText? then [] else v.chars;
            && IsText(chars) && |chars| <= 254 && EncodeValue(order, t, v) == EncodeText(order, chars)
            && Normal(order, v) == Text(PassedText(order, chars))
  {
    hide EncodeText, PassedText;
  }

  /** A text survives exactly if it is ASCII on a little-endian device, or all question marks. */
  lemma TextSurvivesIff(order: Order, chars: seq<nat>)
    requires IsText(chars)
    ensures Normal(order, Text(chars)) == Text(chars) <==>
            if order.LittleEndian? then IsAscii(chars) else forall i :: 0 <= i < |chars| ==> chars[i] == 63
  {
    assert Normal(order, Text(chars)) == Text(chars) <==>
           forall i :: 0 <= i < |chars| ==> PassedText(order, chars)[i] == chars[i];
  }

  function NormalProps(order: Order, props: seq<Property>): (r: seq<Property>)
    ensures |r| == |props|
    ensures forall i :: 0 <= i < |props| ==> r[i] == props[i].(value := Normal(order, props[i].value))
  {
    seq(|props|, i requires 0 <= i < |props| => props[i].(value := Normal(order, props[i].value)))
  }

  /** One property, at any place. */
  lemma HeaderBack(order: Order, data: seq<nat>, pos: nat, p: Property)
    requires Packable(p) && At(data, pos, EncodeProp(order, p))
    ensures pos + 8 <= |data| && At(data, pos + 8, EncodeValue(order, p.datatype_, p.value))
    ensures Decode(order, data[pos..pos + 4]) == p.handle
    ensures Decode(order, data[pos + 4..pos + 6]) == p.code
    ensures Decode(order, data[pos + 6..pos + 8]) == p.datatype_
  {
    AtParts(data, pos, EncodeHeader(order, p), EncodeValue(order, p.datatype_, p.value));
    AtParts(data, pos, Encode(order, 4, p.handle) + Encode(order, 2, p.code), Encode(order, 2, p.datatype_));
    AtParts(data, pos, Encode(order, 4, p.handle), Encode(order, 2, p.code));
    DecodeEncode(order, 4, p.handle);
    DecodeEncode(order, 2, p.code);
    DecodeEncode(order, 2, p.datatype_);
  }

  lemma {:induction false} PropAt(order: Order, data: seq<nat>, pos: nat, props: seq<Property>, n: nat, k: nat)
    requires k <= n <= |props| && AllPackable(props) && At(data, pos, EncodeProps(order, props, n))
    ensures |EncodeProps(order, props, k)| <= |EncodeProps(order, props, n)|
    ensures k < n ==> At(data, pos + |EncodeProps(order, props, k)|, EncodeProp(order, props[k]))
  {
    hide Packable, EncodeProp, At;
    if k < n {
      AtParts(data, pos, EncodeProps(order, props, n - 1), EncodeProp(order, props[n - 1]));
      PropAt(order, data, pos, props, n - 1, k);
    }
  }

  /** The bytes of `n` properties, with nothing behind them, decode to these properties, however many
      the count in front of the list announces beyond them. */
  lemma {:induction false} PropsBack(order: Order, data: seq<nat>, pos: nat, props: seq<Property>, n: nat, k: nat,
                                     count: nat)
    requires k <= n <= |props| && n <= count && AllPackable(props) && At(data, pos, EncodeProps(order, props, n))
    requires |data| == pos + |EncodeProps(order, props, n)|
    ensures DecodeProps(order, data, pos + |EncodeProps(order, props, k)|, count - k) ==
            Some(NormalProps(order, props)[k..n])
    decreases n - k
  {
    hide EncodeProps, At, EncodeProp, Packable, DecodeProps;
    PropAt(order, data, pos, props, n, k);
    var at := pos + |EncodeProps(order, props, k)|;
    var all := NormalProps(order, props);
    if k < n {
      PropsBack(order, data, pos, props, n, k + 1, count);
      NextProps(order, props, k);
      PropBack(order, data, at, props, k, count - k, all[k + 1..n]);
      assert all[k..n] == [all[k]] + all[k + 1..n];
    } else {
      NothingToDecode(order, data, at, count - k);
      assert all[k..n] == [];
    }
  }

  lemma NextProps(order: Order, props: seq<Property>, k: nat)
    requires k < |props| && AllPackable(props)
    ensures |EncodeProps(order, props, k + 1)| == |EncodeProps(order, props, k)| + |EncodeProp(order, props[k])|
  {
    hide EncodeProp, Packable;
  }

  lemma NothingToDecode(order: Order, data: seq<nat>, pos: nat, n: nat)
    ensures n == 0 || pos == |data| ==> DecodeProps(order, data, pos, n) == Some([])
  {
  }

  lemma PropBack(order: Order, data: seq<nat>, at: nat, props: seq<Property>, k: nat, n: nat, rest: seq<Property>)
    requires k < |props| && AllPackable(props) && At(data, at, EncodeProp(order, props[k])) && n > 0
    requires DecodeProps(order, data, at + |EncodeProp(order, props[k])|, n - 1) == Some(rest)
    ensures DecodeProps(order, data, at, n) == Some([NormalProps(order, props)[k]] + rest)
  {
    hide At, Fits, EncodeValue, DecodeValue, Decode;
    var p := props[k];
    assert Packable(p);
    HeaderBack(order, data, at, p);
    ValueBack(order, data, at + 8, p.datatype_, p.value);
  }

  /** A packed list, cut off behind its first `k` properties, yields exactly those. */
  lemma ListBack(order: Order, props: seq<Property>, k: nat)
    requires AllPackable(props) && k <= Kept(|props|)
    ensures 4 + |EncodeProps(order, props, k)| <= |EncodeList(order, props)|
    ensures DecodeList(order, EncodeList(order, props)[..4 + |EncodeProps(order, props, k)|]) ==
            Some(NormalProps(order, props)[..k])
  {
    hide EncodeProps, At, Packable, Decode, Encode, Pow256, EncodeList, NormalProps, DecodeProps;
    var n := Kept(|props|);
    var size := |EncodeProps(order, props, k)|;
    CutParts(order, props, k);
    var data := EncodeList(order, props)[..4 + size];
    FourBytes();
    DecodeEncode(order, 4, n);
    assert At(data, 4, EncodeProps(order, props, k)) by {
      AtFrom(data, 4, EncodeProps(order, props, k));
    }
    NothingPacked(order, props);
    PropsBack(order, data, 4, props, k, 0, n);
    assert NormalProps(order, props)[0..k] == NormalProps(order, props)[..k];
  }

  /** The parts of a list that is cut off. */
  lemma CutParts(order: Order, props: seq<Property>, k: nat)
    requires AllPackable(props) && k <= Kept(|props|)
    ensures var whole, size := EncodeList(order, props), |EncodeProps(order, props, k)|;
            && 4 + size <= |whole| && whole[..4 + size][..4] == Encode(order, 4, Kept(|props|))
            && whole[..4 + size][4..4 + size] == EncodeProps(order, props, k)
  {
    hide EncodeProps, Packable, Encode;
    var n := Kept(|props|);
    var whole, size := EncodeList(order, props), |EncodeProps(order, props, k)|;
    PropsPrefix(order, props, k, n);
    assert whole[4..] == EncodeProps(order, props, n);
    assert whole[..4 + size][4..4 + size] == whole[4..][..size];
    assert whole[..4 + size][..4] == Encode(order, 4, n);
  }

  lemma {:induction false} PropsPrefix(order: Order, props: seq<Property>, k: nat, n: nat)
    requires k <= n <= |props| && AllPackable(props)
    ensures |EncodeProps(order, props, k)| <= |EncodeProps(order, props, n)|
    ensures EncodeProps(order, props, n)[..|EncodeProps(order, props, k)|] == EncodeProps(order, props, k)
  {
    hide Packable, EncodeProp;
    if k < n {
      PropsPrefix(order, props, k, n - 1);
      var shorter := EncodeProps(order, props, n - 1);
      assert EncodeProps(order, props, n)[..|shorter|] == shorter;
    }
  }

  // ---------- The bytes, type by type ----------

  /** A count of four bytes, and behind it the numbers, `w` bytes each. */
  ghost predicate ItemsLaid(order: Order, w: nat, items: seq<nat>, bytes: seq<nat>) {
    && |bytes| == 4 + |items| * w && At(bytes, 0, Encode(order, 4, |items|))
    && forall i {:trigger items[i]} :: 0 <= i < |items| ==> At(bytes, 4 + i * w, Encode(order, w, items[i]))
  }

  /** The number of chars with the terminator, two bytes for each char, lowest first and with the sign of the char
      carried on, and two zeros. */
  ghost predicate TextLaid(chars: seq<nat>, bytes: seq<nat>) {
    && |bytes| == 2 * |chars| + 3 && bytes[0] == |chars| + 1
    && (forall i {:trigger chars[i]} :: 0 <= i < |chars| ==>
          bytes[2 * i + 1] == chars[i] && bytes[2 * i + 2] == if chars[i] < 128 then 0 else 0xff)
    && bytes[2 * |chars| + 1] == 0 && bytes[2 * |chars| + 2] == 0
  }

  lemma ItemsAreLaid(order: Order, w: nat, items: seq<nat>)
    ensures ItemsLaid(order, w, items, Encode(order, 4, |items|) + EncodeItems(order, w, items, |items|))
  {
    hide Encode, EncodeItems, At;
    var n := |items|;
    var bytes := Encode(order, 4, n) + EncodeItems(order, w, items, n);
    AtFrom(bytes, 0, bytes);
    AtParts(bytes, 0, Encode(order, 4, n), EncodeItems(order, w, items, n));
    forall i | 0 <= i < n
      ensures At(bytes, 4 + i * w, Encode(order, w, items[i]))
    {
      ItemAt(order, bytes, 4, w, items, n, i);
    }
  }

  lemma TextIsLaid(order: Order, chars: seq<nat>)
    requires IsText(chars) && |chars| <= 254
    ensures TextLaid(chars, EncodeText(order, chars))
  {
    hide EncodeText, EncodeUnits, At;
    var bytes := EncodeText(order, chars);
    TextParts(order, chars);
    forall i {:trigger chars[i]} | 0 <= i < |chars|
      ensures bytes[2 * i + 1] == chars[i] && bytes[2 * i + 2] == if chars[i] < 128 then 0 else 0xff
    {
      UnitLaid(bytes, chars, i);
    }
  }

  lemma TextParts(order: Order, chars: seq<nat>)
    requires IsText(chars) && |chars| <= 254
    ensures var bytes, n := EncodeText(order, chars), |chars|;
            && bytes[0] == n + 1 && At(bytes, 1, EncodeUnits(chars, n))
            && bytes[2 * n + 1] == 0 && bytes[2 * n + 2] == 0
  {
    hide Encode, EncodeUnits, At;
    TwoZeros(order);
    MiddlePart(|chars| + 1, EncodeUnits(chars, |chars|));
  }

  lemma MiddlePart(x: nat, s: seq<nat>)
    ensures var all := [x] + s + [0, 0];
            all[0] == x && At(all, 1, s) && all[|s| + 1] == 0 && all[|s| + 2] == 0
  {
  }

  lemma TwoZeros(order: Order)
    ensures Encode(order, 2, 0) == [0, 0]
  {
    BytesOf(order, 0);
  }

  lemma UnitLaid(bytes: seq<nat>, chars: seq<nat>, i: nat)
    requires IsText(chars) && At(bytes, 1, EncodeUnits(chars, |chars|)) && i < |chars|
    ensures 2 * i + 2 < |bytes| && bytes[2 * i + 1] == chars[i]
    ensures bytes[2 * i + 2] == if chars[i] < 128 then 0 else 0xff
  {
    hide At, EncodeUnits, Low;
    UnitAt(bytes, 1, chars, |chars|, i);
    LowTwo(Wide(chars[i]));
    AtTwo(bytes, 1 + 2 * i, Wide(chars[i]) % 256, Wide(chars[i]) / 256 % 256);
  }

  lemma AtTwo(bytes: seq<nat>, pos: nat, a: nat, b: nat)
    requires At(bytes, pos, [a, b])
    ensures pos + 2 <= |bytes| && bytes[pos] == a && bytes[pos + 1] == b
  {
    assert bytes[pos..pos + 2][0] == bytes[pos] && bytes[pos..pos + 2][1] == bytes[pos + 1];
  }

  /** A property from `start` to `end`: its handle of four bytes, its code and type of two bytes each, and its value. */
  ghost predicate PropLaid(order: Order, p: Property, start: nat, end: nat, bytes: seq<nat>)
    requires Fits(p.datatype_, p.value)
  {
    && At(bytes, start, Encode(order, 4, p.handle)) && At(bytes, start + 4, Encode(order, 2, p.code))
    && At(bytes, start + 6, Encode(order, 2, p.datatype_))
    && At(bytes, start + 8, EncodeValue(order, p.datatype_, p.value))
    && end == start + 8 + |EncodeValue(order, p.datatype_, p.value)|
  }

  /** A list: the count of four bytes, of at most 127 properties, and these from `starts[i]` on. */
  ghost predicate ListLaid(order: Order, props: seq<Property>, starts: seq<nat>, bytes: seq<nat>)
    requires AllPackable(props)
  {
    var n := if |props| < 127 then |props| else 127;
    && |starts| == n + 1 && starts[0] == 4 && starts[n] == |bytes| && At(bytes, 0, Encode(order, 4, n))
    && forall i {:trigger starts[i]} :: 0 <= i < n ==> PropLaid(order, props[i], starts[i], starts[i + 1], bytes)
  }

  lemma ListIsLaid(order: Order, props: seq<Property>) returns (starts: seq<nat>)
    requires AllPackable(props)
    ensures ListLaid(order, props, starts, EncodeList(order, props))
  {
    hide Encode, EncodeProps, EncodeValue, At, Fits, PropLaid, EncodeList, Starts;
    var n := Kept(|props|);
    var bytes := EncodeList(order, props);
    starts := Starts(order, props, n);
    NothingPacked(order, props);
    ListParts(order, props);
    forall i {:trigger starts[i]} | 0 <= i < n
      ensures PropLaid(order, props[i], starts[i], starts[i + 1], bytes)
    {
      PropIsLaid(order, bytes, props, n, i);
    }
  }

  ghost function Starts(order: Order, props: seq<Property>, n: nat): (starts: seq<nat>)
    requires n <= |props| && AllPackable(props)
    ensures |starts| == n + 1
    ensures forall i {:trigger starts[i]} :: 0 <= i <= n ==> starts[i] == 4 + |EncodeProps(order, props, i)|
  {
    seq(n + 1, i requires 0 <= i <= n => 4 + |EncodeProps(order, props, i)|)
  }

  lemma ListParts(order: Order, props: seq<Property>)
    requires AllPackable(props)
    ensures var bytes, n := EncodeList(order, props), Kept(|props|);
            && At(bytes, 0, Encode(order, 4, n)) && At(bytes, 4, EncodeProps(order, props, n))
            && |bytes| == 4 + |EncodeProps(order, props, n)|
  {
    hide Encode, EncodeProps;
  }

  lemma PropIsLaid(order: Order, bytes: seq<nat>, props: seq<Property>, n: nat, i: nat)
    requires AllPackable(props) && i < n <= |props| && At(bytes, 4, EncodeProps(order, props, n))
    ensures PropLaid(order, props[i], 4 + |EncodeProps(order, props, i)|, 4 + |EncodeProps(order, props, i + 1)|, bytes)
  {
    hide Encode, EncodeProps, EncodeValue, At, Fits;
    PropAt(order, bytes, 4, props, n, i);
    PropParts(order, bytes, 4 + |EncodeProps(order, props, i)|, props[i]);
    NextProps(order, props, i);
  }

  lemma PropParts(order: Order, bytes: seq<nat>, pos: nat, p: Property)
    requires Packable(p) && At(bytes, pos, EncodeProp(order, p))
    ensures |EncodeProp(order, p)| == 8 + |EncodeValue(order, p.datatype_, p.value)|
    ensures At(bytes, pos, Encode(order, 4, p.handle)) && At(bytes, pos + 4, Encode(order, 2, p.code))
    ensures At(bytes, pos + 6, Encode(order, 2, p.datatype_))
    ensures At(bytes, pos + 8, EncodeValue(order, p.datatype_, p.value))
  {
    hide Encode, EncodeValue, At, Fits;
    AtParts(bytes, pos, EncodeHeader(order, p), EncodeValue(order, p.datatype_, p.value));
    AtParts(bytes, pos, Encode(order, 4, p.handle) + Encode(order, 2, p.code), Encode(order, 2, p.datatype_));
    AtParts(bytes, pos, Encode(order, 4, p.handle), Encode(order, 2, p.code));
  }

  /** What the loop over the numbers reads: `k` numbers, all if they are there, else as many as there are whole. */
  lemma {:induction false} ItemsRead(order: Order, data: seq<nat>, pos: nat, w: nat, n: nat) returns (k: nat)
    requires pos <= |data| && 0 < w
    ensures var r := DecodeItems(order, data, pos, w, n);
            && k <= n && r.1 == pos + k * w && (r.0.Some? <==> k == n) && (k < n ==> |data| < r.1 + w)
            && (r.0.Some? ==> |r.0.value| == n && ItemsFrom(order, data, pos, w, r.0.value))
    decreases n
  {
    hide Decode, DecodeItems, ItemsFrom;
    OneItem(order, data, pos, w, n);
    NoItemsFrom(order, data, pos, w);
    k := 0;
    if n > 0 && w <= |data| - pos {
      k := ItemsRead(order, data, pos + w, w, n - 1);
      k := k + 1;
      Times(k, w);
      var rest := DecodeItems(order, data, pos + w, w, n - 1);
      if rest.0.Some? {
        OneMoreFrom(order, data, pos, w, rest.0.value);
      }
    }
  }

  /** The numbers that lie one behind the other from `pos` on. */
  ghost predicate ItemsFrom(order: Order, data: seq<nat>, pos: nat, w: nat, items: seq<nat>) {
    forall i {:trigger items[i]} :: 0 <= i < |items| ==> NumberAt(order, data, pos + i * w, w, items[i])
  }

  predicate NumberAt(order: Order, data: seq<nat>, pos: nat, w: nat, n: nat) {
    pos + w <= |data| && Decode(order, data[pos..pos + w]) == n
  }

  lemma NoItemsFrom(order: Order, data: seq<nat>, pos: nat, w: nat)
    ensures ItemsFrom(order, data, pos, w, [])
  {
  }

  lemma OneMoreFrom(order: Order, data: seq<nat>, pos: nat, w: nat, items: seq<nat>)
    requires pos + w <= |data| && ItemsFrom(order, data, pos + w, w, items)
    ensures ItemsFrom(order, data, pos, w, [Decode(order, data[pos..pos + w])] + items)
  {
    hide Decode;
    var all := [Decode(order, data[pos..pos + w])] + items;
    forall i {:trigger all[i]} | 0 <= i < |all|
      ensures NumberAt(order, data, pos + i * w, w, all[i])
    {
      if i > 0 {
        Times(i, w);
        assert all[i] == items[i - 1];
      }
    }
  }

  lemma OneItem(order: Order, data: seq<nat>, pos: nat, w: nat, n: nat)
    requires pos <= |data|
    ensures var r := DecodeItems(order, data, pos, w, n);
            && (n == 0 ==> r == (Some([]), pos))
            && (n > 0 && |data| - pos < w ==> r == (None, pos))
            && (n > 0 && w <= |data| - pos ==>
                  var rest := DecodeItems(order, data, pos + w, w, n - 1);
                  var x := Decode(order, data[pos..pos + w]);
                  r == (if rest.0.None? then None else Some([x] + rest.0.value), rest.1))
  {
    hide Decode;
  }

  lemma Times(n: nat, w: nat)
    requires n > 0
    ensures n * w == w + (n - 1) * w && 0 <= (n - 1) * w
  {
  }

  /** A number of `w` bytes has been read, if there are as many. */
  ghost predicate NumberTaken(order: Order, data: seq<nat>, pos: nat, w: nat, d: Decoded) {
    if pos + w <= |data| then d == Decoded(Scalar(Decode(order, data[pos..pos + w])), pos + w)
    else d == Decoded(Missing, pos)
  }

  /** A count of four bytes has been read, and as many numbers of `w` bytes, if they are there. */
  ghost predicate ArrayTaken(order: Order, data: seq<nat>, pos: nat, w: nat, d: Decoded) {
    if |data| < pos + 4 then d == Decoded(Missing, pos)
    else
      var n := Decode(order, data[pos..pos + 4]);
      if n >= 0x8000_0000 then d == Decoded(Missing, pos + 4)
      else if pos + 4 + n * w <= |data| then
        && d.Decoded? && d.value.Array? && |d.value.items| == n && d.pos == pos + 4 + n * w
        && ItemsFrom(order, data, pos + 4, w, d.value.items)
      else d.Decoded? && d.value.Missing? && d.pos <= |data| < d.pos + w
  }

  /** The unit of two bytes at place `i`. */
  function UnitOf(order: Order, data: seq<nat>, pos: nat, i: nat): nat
    requires pos + 2 * i + 2 <= |data|
  {
    Decode(order, data[pos + 2 * i..pos + 2 * i + 2])
  }

  /** The chars are those of the units from `pos` on, none of which is zero. */
  predicate CharsFrom(order: Order, data: seq<nat>, pos: nat, chars: seq<nat>)
    requires pos + 2 * |chars| <= |data|
  {
    forall i {:trigger chars[i]} :: 0 <= i < |chars| ==>
      var u := UnitOf(order, data, pos, i);
      u != 0 && chars[i] == if u > 127 then 63 else u
  }

  /** The number of units has been read, and as many units, the text being those before the first zero, with question
      marks for those above 127. */
  ghost predicate TextTaken(order: Order, data: seq<nat>, pos: nat, d: Decoded)
    requires pos < |data|
  {
    if data[pos] == 0 then d == Decoded(NullText, pos + 1)
    else if |data| < pos + 1 + 2 * data[pos] then d.Overread?
    else
      && d.Decoded? && d.pos == pos + 1 + 2 * data[pos] && d.value.Text? && |d.value.chars| <= data[pos]
      && CharsFrom(order, data, pos + 1, d.value.chars)
      && (|d.value.chars| < data[pos] ==> UnitOf(order, data, pos + 1, |d.value.chars|) == 0)
  }

  /** A value has been read, by its type code: numbers of one, two, four or eight bytes, arrays of such numbers, and
      text; sixteen bytes are skipped, and of other types nothing is read. */
  ghost predicate ValueTaken(order: Order, data: seq<nat>, pos: nat, t: nat, d: Decoded) {
    && (1 <= t <= 2 ==> NumberTaken(order, data, pos, 1, d))
    && (3 <= t <= 4 ==> NumberTaken(order, data, pos, 2, d))
    && (5 <= t <= 6 ==> NumberTaken(order, data, pos, 4, d))
    && (7 <= t <= 8 ==> NumberTaken(order, data, pos, 8, d))
    && (0x4001 <= t <= 0x4002 ==> ArrayTaken(order, data, pos, 1, d))
    && (0x4003 <= t <= 0x4004 ==> ArrayTaken(order, data, pos, 2, d))
    && (0x4005 <= t <= 0x4006 ==> ArrayTaken(order, data, pos, 4, d))
    && (0x4007 <= t <= 0x4008 ==> ArrayTaken(order, data, pos, 8, d))
    && (t == 0xffff ==> if pos < |data| then TextTaken(order, data, pos, d) else d.Overread?)
    && (9 <= t <= 10 ==> d == Decoded(Missing, pos + 16))
    && (!(1 <= t <= 10 || 0x4001 <= t <= 0x4008 || t == 0xffff) ==> d == Decoded(Missing, pos))
  }

  lemma ValueIsTaken(order: Order, data: seq<nat>, pos: nat, t: nat)
    requires pos <= |data|
    ensures ValueTaken(order, data, pos, t, DecodeValue(order, data, pos, t))
  {
    hide Decode, DecodeItems, DecodeUnits, UpToZero, NumberTaken, ArrayTaken, TextTaken;
    if IsScalar(t) {
      NumberIsTaken(order, data, pos, t);
    } else if IsArray(t) {
      ArrayIsTaken(order, data, pos, t);
    } else if t == DTC_STR && pos < |data| {
      TextIsTaken(order, data, pos);
    }
  }

  /** Property `i` has been read from `at[i]` on, and the next begins at `at[i + 1]`. */
  ghost predicate PropTaken(order: Order, data: seq<nat>, p: Property, pos: nat, end: nat) {
    && NumberAt(order, data, pos, 4, p.handle) && NumberAt(order, data, pos + 4, 2, p.code)
    && NumberAt(order, data, pos + 6, 2, p.datatype_)
    && ValueTaken(order, data, pos + 8, p.datatype_, Decoded(p.value, end))
  }

  /** The properties have been read one behind the other, the first behind the count of four bytes. */
  ghost predicate ListTaken(order: Order, data: seq<nat>, got: seq<Property>, at: seq<nat>) {
    && |at| == |got| + 1 && at[0] == 4
    && forall i {:trigger got[i]} :: 0 <= i < |got| ==> PropTaken(order, data, got[i], at[i], at[i + 1])
  }

  lemma OneMoreTaken(order: Order, data: seq<nat>, got: seq<Property>, at: seq<nat>, p: Property, end: nat)
    requires ListTaken(order, data, got, at) && PropTaken(order, data, p, at[|got|], end)
    ensures ListTaken(order, data, got + [p], at + [end])
  {
    hide PropTaken;
    var g, a := got + [p], at + [end];
    forall i {:trigger g[i]} | 0 <= i < |g|
      ensures PropTaken(order, data, g[i], a[i], a[i + 1])
    {
      if i < |got| {
        assert g[i] == got[i] && a[i] == at[i] && a[i + 1] == at[i + 1];
      }
    }
  }

  lemma NumberIsTaken(order: Order, data: seq<nat>, pos: nat, t: nat)
    requires pos <= |data| && IsScalar(t)
    ensures NumberTaken(order, data, pos, Width(t), DecodeValue(order, data, pos, t))
  {
    hide Decode;
  }

  lemma ArrayIsTaken(order: Order, data: seq<nat>, pos: nat, t: nat)
    requires pos <= |data| && IsArray(t)
    ensures ArrayTaken(order, data, pos, Width(t), DecodeValue(order, data, pos, t))
  {
    hide Decode, DecodeItems, ItemsFrom;
    var w := Width(t);
    if pos + 4 <= |data| {
      var n := Decode(order, data[pos..pos + 4]);
      if n < 0x8000_0000 {
        var k := ItemsRead(order, data, pos + 4, w, n);
        if k < n {
          NotWhole(k, n, w);
        }
      }
    }
  }

  lemma {:induction false} NotWhole(k: nat, n: nat, w: nat)
    requires k < n
    ensures k * w + w <= n * w
    decreases n
  {
    Times(n, w);
    if k < n - 1 {
      NotWhole(k, n - 1, w);
    }
  }

  lemma TextIsTaken(order: Order, data: seq<nat>, pos: nat)
    requires pos < |data|
    ensures TextTaken(order, data, pos, DecodeValue(order, data, pos, DTC_STR))
  {
    hide UnitOf, DecodeUnits, UpToZero, CharsFrom;
    if data[pos] > 0 && pos + 1 + 2 * data[pos] <= |data| {
      CharsAre(order, data, pos + 1, data[pos]);
    }
  }

  lemma CharsAre(order: Order, data: seq<nat>, pos: nat, n: nat)
    requires pos + 2 * n <= |data|
    ensures var chars := UpToZero(DecodeUnits(order, data, pos, n));
            && |chars| <= n && CharsFrom(order, data, pos, chars)
            && (|chars| < n ==> UnitOf(order, data, pos, |chars|) == 0)
  {
    hide UnitOf, DecodeUnits, UpToZero;
    var units := DecodeUnits(order, data, pos, n);
    UpToZeroIs(units);
    var chars := UpToZero(units);
    forall i | 0 <= i < |chars|
      ensures UnitOf(order, data, pos, i) != 0
      ensures chars[i] == if UnitOf(order, data, pos, i) > 127 then 63 else UnitOf(order, data, pos, i)
    {
      UnitIs(order, data, pos, n, i);
    }
    if |chars| < n {
      UnitIs(order, data, pos, n, |chars|);
    }
  }

  lemma UnitIs(order: Order, data: seq<nat>, pos: nat, n: nat, i: nat)
    requires pos + 2 * n <= |data| && i < n
    ensures DecodeUnits(order, data, pos, n)[i] == Narrow(UnitOf(order, data, pos, i))
  {
    hide Decode;
  }

  lemma {:induction false} UpToZeroIs(s: seq<nat>)
    ensures UpToZero(s) <= s && forall i :: 0 <= i < |UpToZero(s)| ==> s[i] != 0
    ensures |UpToZero(s)| < |s| ==> s[|UpToZero(s)|] == 0
  {
    if s != [] && s[0] != 0 {
      UpToZeroIs(s[1..]);
      assert s == [s[0]] + s[1..];
    }
  }
}
