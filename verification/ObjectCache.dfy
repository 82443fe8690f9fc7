/** The object cache of the PTP initiator (src/ptp.c:5223-5499). */
module ObjectCache {
  import opened Forest
  import P = Packing

  datatype Flag =
    | ObjectInfoLoaded | CanonFlagsLoaded | MtpPropListLoaded | DirectoryLoaded | ParentLoaded | StorageLoaded

  /** The flags that one info request sets. */
  const INFO: set<Flag> := {ObjectInfoLoaded, StorageLoaded, ParentLoaded}

  datatype Info = Info(parent: nat, storage: nat, filename: Option<string>)

  datatype PtpObject = PtpObject(oid: nat, flags: set<Flag>, info: Info, props: seq<nat>)

  /** A new entry: everything is zero but the id. */
  function Zeroed(handle: nat): PtpObject {
    PtpObject(handle, {}, Info(0, 0, None), [])
  }

  predicate Sorted(objects: seq<PtpObject>) {
    forall i, j :: 0 <= i < j < |objects| ==> objects[i].oid < objects[j].oid
  }

  predicate Handles(objects: seq<PtpObject>) {
    forall i :: 0 <= i < |objects| ==> 0 < objects[i].oid < 0x1_0000_0000
  }

  /** The handle compares rightly with all others: it is at most 2^31 below and less than 2^31 above them. */
  predicate Near(objects: seq<PtpObject>, handle: nat) {
    forall i :: 0 <= i < |objects| ==> -0x8000_0000 <= handle - objects[i].oid < 0x8000_0000
  }

  /** bsearch with _cmp_ob, between positions `lo` and `hi`. */
  function BinarySearch(objects: seq<PtpObject>, handle: nat, lo: nat, hi: nat): (k: Option<nat>)
    requires lo <= hi <= |objects| && Handles(objects) && handle < 0x1_0000_0000
    ensures k.Some? ==> lo <= k.value < hi && objects[k.value].oid == handle
    decreases hi - lo
  {
    if lo == hi then None
    else
      var mid := (lo + hi) / 2;
      var c := P.Compare(handle, objects[mid].oid);
      if c == 0 then Some(mid)
      else if c < 0 then BinarySearch(objects, handle, lo, mid)
      else BinarySearch(objects, handle, mid + 1, hi)
  }

  ghost predicate HasOid(objects: seq<PtpObject>, h: nat) {
    exists i :: 0 <= i < |objects| && objects[i].oid == h
  }

  /** The cache as a map. */
  ghost function MapOf(objects: seq<PtpObject>): (m: map<nat, PtpObject>)
    requires Sorted(objects)
    ensures forall i {:trigger objects[i]} :: 0 <= i < |objects| ==>
              objects[i].oid in m && m[objects[i].oid] == objects[i]
    ensures forall h :: h in m ==> HasOid(objects, h)
  {
    assert forall i :: 0 <= i < |objects| ==> HasOid(objects, objects[i].oid);
    map i {:trigger objects[i]} | 0 <= i < |objects| :: objects[i].oid := objects[i]
  }

  /** Two sorted caches with the same entries are the same map. */
  lemma MapIs(objects: seq<PtpObject>, m: map<nat, PtpObject>)
    requires Sorted(objects)
    requires forall i {:trigger objects[i]} :: 0 <= i < |objects| ==>
               objects[i].oid in m && m[objects[i].oid] == objects[i]
    requires forall h :: h in m ==> HasOid(objects, h)
    ensures MapOf(objects) == m
  {
    hide MapOf, Sorted;
    var n := MapOf(objects);
    forall h | h in m || h in n
      ensures h in m && h in n && m[h] == n[h]
    {
      assert HasOid(objects, h);
      var i :| 0 <= i < |objects| && objects[i].oid == h;
      assert n[objects[i].oid] == objects[i] == m[objects[i].oid];
    }
  }

  /** At most all-or-none of the info flags, and no loaded object is its own parent. */
  predicate SaneObject(o: PtpObject) {
    && (INFO <= o.flags || INFO !! o.flags)
    && (INFO <= o.flags ==> o.info.parent != o.oid)
  }

  predicate Sane(objects: seq<PtpObject>) {
    forall i :: 0 <= i < |objects| ==> SaneObject(objects[i])
  }

  // ---------- What the search finds ----------

  /** On the way to position `i` the search meets only pivots with which that handle compares rightly. */
  predicate Reaches(objects: seq<PtpObject>, i: nat, lo: nat, hi: nat)
    requires lo <= i < hi <= |objects|
    decreases hi - lo
  {
    var mid := (lo + hi) / 2;
    || i == mid
    || (i < mid && objects[mid].oid - objects[i].oid <= 0x8000_0000 && Reaches(objects, i, lo, mid))
    || (mid < i && objects[i].oid - objects[mid].oid < 0x8000_0000 && Reaches(objects, i, mid + 1, hi))
  }

  /** A handle that is there is found exactly then. */
  lemma {:induction false} FoundIff(objects: seq<PtpObject>, i: nat, lo: nat, hi: nat)
    requires Sorted(objects) && Handles(objects) && lo <= i < hi <= |objects|
    ensures BinarySearch(objects, objects[i].oid, lo, hi).Some? <==> Reaches(objects, i, lo, hi)
    decreases hi - lo
  {
    var mid := (lo + hi) / 2;
    P.CompareRightIff(objects[i].oid, objects[mid].oid);
    if i < mid && objects[mid].oid - objects[i].oid <= 0x8000_0000 {
      FoundIff(objects, i, lo, mid);
    } else if mid < i && objects[i].oid - objects[mid].oid < 0x8000_0000 {
      FoundIff(objects, i, mid + 1, hi);
    }
  }

  ghost predicate Findable(objects: seq<PtpObject>, handle: nat) {
    exists i :: 0 <= i < |objects| && objects[i].oid == handle && Reaches(objects, i, 0, |objects|)
  }

  lemma SearchFindsIff(objects: seq<PtpObject>, handle: nat)
    requires Sorted(objects) && Handles(objects) && handle < 0x1_0000_0000
    ensures BinarySearch(objects, handle, 0, |objects|).Some? <==> Findable(objects, handle)
    ensures Findable(objects, handle) ==> handle in MapOf(objects)
    ensures Near(objects, handle) ==> (Findable(objects, handle) <==> handle in MapOf(objects))
  {
    hide Sorted, Handles, Reaches, Near, BinarySearch;
    forall i | 0 <= i < |objects| && objects[i].oid == handle
      ensures BinarySearch(objects, handle, 0, |objects|).Some? <==> Reaches(objects, i, 0, |objects|)
      ensures Near(objects, handle) ==> Reaches(objects, i, 0, |objects|)
    {
      FoundIff(objects, i, 0, |objects|);
      if Near(objects, handle) {
        NearReaches(objects, i, 0, |objects|);
      }
    }
    if handle in MapOf(objects) {
      InMap(objects, handle);
    }
  }

  lemma {:induction false} NearReaches(objects: seq<PtpObject>, i: nat, lo: nat, hi: nat)
    requires Sorted(objects) && lo <= i < hi <= |objects| && Near(objects, objects[i].oid)
    ensures Reaches(objects, i, lo, hi)
    decreases hi - lo
  {
    var mid := (lo + hi) / 2;
    if i < mid {
      NearReaches(objects, i, lo, mid);
    } else if mid < i {
      NearReaches(objects, i, mid + 1, hi);
    }
  }

  /** Every pivot compares rightly with all that the search may still find there. */
  predicate PivotsNear(objects: seq<PtpObject>, lo: nat, hi: nat)
    requires lo <= hi <= |objects|
    decreases hi - lo
  {
    lo == hi ||
    var mid := (lo + hi) / 2;
    && PivotNear(objects, lo, mid, hi) && PivotsNear(objects, lo, mid) && PivotsNear(objects, mid + 1, hi)
  }

  predicate PivotNear(objects: seq<PtpObject>, lo: nat, mid: nat, hi: nat)
    requires lo <= mid < hi <= |objects|
  {
    && (forall i :: lo <= i < mid ==> objects[mid].oid - objects[i].oid <= 0x8000_0000)
    && (forall i :: mid < i < hi ==> objects[i].oid - objects[mid].oid < 0x8000_0000)
  }

  predicate AllReached(objects: seq<PtpObject>, lo: nat, hi: nat, from: nat, to: nat)
    requires lo <= from <= to <= hi <= |objects|
  {
    forall i {:trigger Reaches(objects, i, lo, hi)} :: from <= i < to ==> Reaches(objects, i, lo, hi)
  }

  lemma {:induction false} AllReachedIff(objects: seq<PtpObject>, lo: nat, hi: nat)
    requires lo <= hi <= |objects|
    ensures AllReached(objects, lo, hi, lo, hi) <==> PivotsNear(objects, lo, hi)
    decreases hi - lo
  {
    if lo < hi {
      hide Reaches, AllReached, PivotNear;
      var mid := (lo + hi) / 2;
      AllReachedIff(objects, lo, mid);
      AllReachedIff(objects, mid + 1, hi);
      ReachedHalves(objects, lo, hi, mid);
    }
  }

  lemma ReachedHalves(objects: seq<PtpObject>, lo: nat, hi: nat, mid: nat)
    requires lo < hi <= |objects| && mid == (lo + hi) / 2
    ensures AllReached(objects, lo, hi, lo, hi) <==>
            PivotNear(objects, lo, mid, hi) && AllReached(objects, lo, mid, lo, mid)
            && AllReached(objects, mid + 1, hi, mid + 1, hi)
  {
    ReachesMeans(objects, mid, lo, hi);
    ReachedBelow(objects, lo, hi);
    ReachedAbove(objects, lo, hi, mid, mid + 1);
    hide Reaches;
    assert AllReached(objects, lo, hi, lo, hi) <==>
           AllReached(objects, lo, hi, lo, mid) && AllReached(objects, lo, hi, mid + 1, hi);
  }

  lemma ReachedBelow(objects: seq<PtpObject>, lo: nat, hi: nat)
    requires lo < hi <= |objects|
    ensures var mid := (lo + hi) / 2;
            AllReached(objects, lo, hi, lo, mid) <==>
            (forall i :: lo <= i < mid ==> objects[mid].oid - objects[i].oid <= 0x8000_0000)
            && AllReached(objects, lo, mid, lo, mid)
  {
    hide Reaches;
    var mid := (lo + hi) / 2;
    forall i | lo <= i < mid
      ensures Reaches(objects, i, lo, hi) <==>
              objects[mid].oid - objects[i].oid <= 0x8000_0000 && Reaches(objects, i, lo, mid)
    {
      ReachesMeans(objects, i, lo, hi);
    }
  }

  lemma ReachedAbove(objects: seq<PtpObject>, lo: nat, hi: nat, mid: nat, up: nat)
    requires lo < hi <= |objects| && mid == (lo + hi) / 2 && up == mid + 1
    ensures AllReached(objects, lo, hi, up, hi) <==>
            (forall i :: mid < i < hi ==> objects[i].oid - objects[mid].oid < 0x8000_0000)
            && AllReached(objects, up, hi, up, hi)
  {
    hide Reaches;
    forall i | up <= i < hi
      ensures Reaches(objects, i, lo, hi) <==>
              objects[i].oid - objects[mid].oid < 0x8000_0000 && Reaches(objects, i, up, hi)
    {
      ReachesMeans(objects, i, lo, hi);
    }
  }

  lemma ReachesMeans(objects: seq<PtpObject>, i: nat, lo: nat, hi: nat)
    requires lo <= i < hi <= |objects|
    ensures var mid := (lo + hi) / 2;
            && (i == mid ==> Reaches(objects, i, lo, hi))
            && (i < mid ==> (Reaches(objects, i, lo, hi) <==>
                             objects[mid].oid - objects[i].oid <= 0x8000_0000 && Reaches(objects, i, lo, mid)))
            && (mid < i ==> (Reaches(objects, i, lo, hi) <==>
                             objects[i].oid - objects[mid].oid < 0x8000_0000 && Reaches(objects, i, mid + 1, hi)))
  {
  }

  predicate Finds(objects: seq<PtpObject>, i: nat)
    requires Handles(objects) && i < |objects|
  {
    BinarySearch(objects, objects[i].oid, 0, |objects|) == Some(i)
  }

  /** Every handle in the cache is found if and only if the pivots are near enough to what lies around them. */
  lemma AllFoundIff(objects: seq<PtpObject>)
    requires Sorted(objects) && Handles(objects)
    ensures (forall i {:trigger Finds(objects, i)} :: 0 <= i < |objects| ==> Finds(objects, i)) <==>
            PivotsNear(objects, 0, |objects|)
  {
    hide Reaches, PivotsNear, BinarySearch;
    forall i | 0 <= i < |objects|
      ensures Finds(objects, i) <==> Reaches(objects, i, 0, |objects|)
    {
      FoundIff(objects, i, 0, |objects|);
    }
    AllReachedIff(objects, 0, |objects|);
  }

  /** A binary search may miss the handle, if it is free to pick its pivots. */
  ghost predicate MayMiss(objects: seq<PtpObject>, handle: nat, lo: nat, hi: nat)
    requires lo <= hi <= |objects| && Handles(objects) && handle < 0x1_0000_0000
    decreases hi - lo
  {
    lo == hi || exists mid :: lo <= mid < hi && Misses(objects, handle, lo, hi, mid)
  }

  ghost predicate Misses(objects: seq<PtpObject>, handle: nat, lo: nat, hi: nat, mid: nat)
    requires lo <= mid < hi <= |objects| && Handles(objects) && handle < 0x1_0000_0000
    decreases hi - lo, 0
  {
    var c := P.Compare(handle, objects[mid].oid);
    (c < 0 && MayMiss(objects, handle, lo, mid)) || (c > 0 && MayMiss(objects, handle, mid + 1, hi))
  }

  /** Whichever pivots the library picks, a handle that is there is found exactly if it is near. */
  lemma MissedIff(objects: seq<PtpObject>, i: nat)
    requires Sorted(objects) && Handles(objects) && i < |objects|
    ensures MayMiss(objects, objects[i].oid, 0, |objects|) <==> !Near(objects, objects[i].oid)
  {
    var handle := objects[i].oid;
    if Near(objects, handle) {
      NeverMissed(objects, i, 0, |objects|);
    } else {
      var mid :| 0 <= mid < |objects| && !(-0x8000_0000 <= handle - objects[mid].oid < 0x8000_0000);
      P.CompareRightIff(handle, objects[mid].oid);
      if mid < i {
        Absent(objects, handle, 0, mid);
      } else {
        Absent(objects, handle, mid + 1, |objects|);
      }
      assert Misses(objects, handle, 0, |objects|, mid);
    }
  }

  lemma {:induction false} NeverMissed(objects: seq<PtpObject>, i: nat, lo: nat, hi: nat)
    requires Sorted(objects) && Handles(objects) && lo <= i < hi <= |objects| && Near(objects, objects[i].oid)
    ensures !MayMiss(objects, objects[i].oid, lo, hi)
    decreases hi - lo
  {
    forall mid | lo <= mid < hi
      ensures !Misses(objects, objects[i].oid, lo, hi, mid)
    {
      P.CompareRightIff(objects[i].oid, objects[mid].oid);
      if i < mid {
        NeverMissed(objects, i, lo, mid);
      } else if mid < i {
        NeverMissed(objects, i, mid + 1, hi);
      }
    }
  }

  /** What is not there is missed. */
  lemma {:induction false} Absent(objects: seq<PtpObject>, handle: nat, lo: nat, hi: nat)
    requires lo <= hi <= |objects| && Handles(objects) && handle < 0x1_0000_0000
    requires forall k :: lo <= k < hi ==> objects[k].oid != handle
    ensures MayMiss(objects, handle, lo, hi)
    decreases hi - lo
  {
    if lo < hi {
      P.CompareRightIff(handle, objects[lo].oid);
      Absent(objects, handle, lo, lo);
      Absent(objects, handle, lo + 1, hi);
      assert Misses(objects, handle, lo, hi, lo);
    }
  }

  lemma InMap(objects: seq<PtpObject>, handle: nat)
    requires Sorted(objects) && handle in MapOf(objects)
    ensures HasOid(objects, handle)
  {
  }

  lemma InsertSorted(objects: seq<PtpObject>, k: nat, handle: nat)
    requires Sorted(objects) && Handles(objects) && k <= |objects| && 0 < handle < 0x1_0000_0000
    requires forall i :: 0 <= i < k ==> objects[i].oid < handle
    requires forall i :: k <= i < |objects| ==> handle < objects[i].oid
    ensures var r := objects[..k] + [Zeroed(handle)] + objects[k..];
            Sorted(r) && Handles(r)
  {
  }

  lemma InsertMap(objects: seq<PtpObject>, k: nat, handle: nat)
    requires Sorted(objects) && Handles(objects) && k <= |objects| && 0 < handle < 0x1_0000_0000
    requires forall i :: 0 <= i < k ==> objects[i].oid < handle
    requires forall i :: k <= i < |objects| ==> handle < objects[i].oid
    ensures var r := objects[..k] + [Zeroed(handle)] + objects[k..];
            Sorted(r) && Handles(r) && handle !in MapOf(objects) && MapOf(r) == MapOf(objects)[handle := Zeroed(handle)]
  {
    var r := objects[..k] + [Zeroed(handle)] + objects[k..];
    InsertSorted(objects, k, handle);
    assert handle !in MapOf(objects) by {
      assert !HasOid(objects, handle);
    }
    InsertedMap(objects, k, handle);
  }

  lemma InsertedMap(objects: seq<PtpObject>, k: nat, handle: nat)
    requires Sorted(objects) && k <= |objects| && handle !in MapOf(objects)
    requires Sorted(objects[..k] + [Zeroed(handle)] + objects[k..])
    ensures MapOf(objects[..k] + [Zeroed(handle)] + objects[k..]) == MapOf(objects)[handle := Zeroed(handle)]
  {
    hide Sorted, MapOf;
    var r := objects[..k] + [Zeroed(handle)] + objects[k..];
    var m := MapOf(objects)[handle := Zeroed(handle)];
    forall i {:trigger r[i]} | 0 <= i < |r|
      ensures r[i].oid in m && m[r[i].oid] == r[i]
    {
      if i != k {
        assert r[i] == objects[if i < k then i else i - 1];
      }
    }
    forall h | h in m
      ensures HasOid(r, h)
    {
      if h == handle {
        assert r[k].oid == h;
      } else {
        assert HasOid(objects, h);
        var i :| 0 <= i < |objects| && objects[i].oid == h;
        assert r[if i < k then i else i + 1].oid == h;
      }
    }
    MapIs(r, m);
  }

  lemma RemoveSorted(objects: seq<PtpObject>, k: nat)
    requires Sorted(objects) && Handles(objects) && k < |objects|
    ensures Sorted(objects[..k] + objects[k + 1..]) && Handles(objects[..k] + objects[k + 1..])
    ensures forall i :: 0 <= i < |objects| && i != k ==> objects[i].oid != objects[k].oid
  {
  }

  lemma RemoveMap(objects: seq<PtpObject>, k: nat)
    requires Sorted(objects) && Handles(objects) && k < |objects|
    ensures var r := objects[..k] + objects[k + 1..];
            Sorted(r) && Handles(r) && MapOf(r) == MapOf(objects) - {objects[k].oid}
  {
    RemoveSorted(objects, k);
    RemovedMap(objects, k);
  }

  lemma RemovedMap(objects: seq<PtpObject>, k: nat)
    requires Sorted(objects) && k < |objects| && Sorted(objects[..k] + objects[k + 1..])
    requires forall i {:trigger objects[i]} :: 0 <= i < |objects| && i != k ==> objects[i].oid != objects[k].oid
    ensures MapOf(objects[..k] + objects[k + 1..]) == MapOf(objects) - {objects[k].oid}
  {
    hide Sorted, MapOf, HasOid;
    var r := objects[..k] + objects[k + 1..];
    var m := MapOf(objects) - {objects[k].oid};
    forall i {:trigger r[i]} | 0 <= i < |r|
      ensures r[i].oid in m && m[r[i].oid] == r[i]
    {
      assert r[i] == objects[if i < k then i else i + 1];
    }
    forall h | h in m
      ensures HasOid(r, h)
    {
      assert HasOid(objects, h);
      KeepsOid(objects, k, h);
    }
    MapIs(r, m);
  }

  lemma KeepsOid(objects: seq<PtpObject>, k: nat, h: nat)
    requires k < |objects| && HasOid(objects, h) && h != objects[k].oid
    ensures HasOid(objects[..k] + objects[k + 1..], h)
  {
    var r := objects[..k] + objects[k + 1..];
    var i :| 0 <= i < |objects| && objects[i].oid == h;
    assert r[if i < k then i else i - 1].oid == h;
  }

  lemma ReplaceSorted(objects: seq<PtpObject>, k: nat, o: PtpObject)
    requires Sorted(objects) && Handles(objects) && k < |objects| && o.oid == objects[k].oid
    ensures Sorted(objects[k := o]) && Handles(objects[k := o])
    ensures forall i {:trigger objects[i]} :: 0 <= i < |objects| && i != k ==> objects[i].oid != o.oid
  {
  }

  lemma ReplaceMap(objects: seq<PtpObject>, k: nat, o: PtpObject)
    requires Sorted(objects) && Handles(objects) && k < |objects| && o.oid == objects[k].oid
    ensures var r := objects[k := o];
            Sorted(r) && Handles(r) && MapOf(r) == MapOf(objects)[o.oid := o]
  {
    hide MapOf, Sorted, Handles;
    var r := objects[k := o];
    var m := MapOf(objects)[o.oid := o];
    ReplaceSorted(objects, k, o);
    forall i {:trigger r[i]} | 0 <= i < |r|
      ensures r[i].oid in m && m[r[i].oid] == r[i]
    {
      if i != k {
        assert r[i] == objects[i];
      }
    }
    forall h | h in m
      ensures HasOid(r, h)
    {
      if h == o.oid {
        assert r[k].oid == h;
      } else {
        assert HasOid(objects, h);
        var i :| 0 <= i < |objects| && objects[i].oid == h;
        assert r[i].oid == h;
      }
    }
    MapIs(r, m);
  }

  class Cache {
    var objects: seq<PtpObject>      // params->objects, params->nrofobjects

    ghost predicate Valid()
      reads this
    {
      Sorted(objects) && Handles(objects)
    }

    ghost function Map(): map<nat, PtpObject>
      requires Valid()
      reads this
    {
      MapOf(objects)
    }

    constructor ()
      ensures Valid() && objects == [] && Map() == map[]
    {
      objects := [];
    }

    /** ptp_object_find: bsearch with _cmp_ob, which may take a far handle for a near one on the other side.
        What it finds is always right; it finds what is there if every pivot on the way compares rightly. */
    method Find(handle: nat) returns (k: Option<nat>)
      requires Valid() && handle < 0x1_0000_0000
      ensures k == BinarySearch(objects, handle, 0, |objects|)
      ensures k.Some? ==> k.value < |objects| && objects[k.value].oid == handle
      ensures k.Some? <==> Findable(objects, handle)
      ensures Near(objects, handle) ==> (k.Some? <==> handle in Map())
    {
      hide P.Compare, MapOf, Near, Sorted, Findable;
      var lo, hi := 0, |objects|;
      SearchFindsIff(objects, handle);
      while lo < hi
        invariant 0 <= lo <= hi <= |objects|
        invariant BinarySearch(objects, handle, lo, hi) == BinarySearch(objects, handle, 0, |objects|)
      {
        var mid := (lo + hi) / 2;
        var c := P.Compare(handle, objects[mid].oid);
        if c == 0 {
          return Some(mid);
        } else if c < 0 {
          hi := mid;
        } else {
          lo := mid + 1;
        }
      }
      k := None;
    }

    /** The search of ptp_object_find_or_insert: where the handle is, or where it would go. */
    method Search(handle: nat) returns (found: bool, at: nat)
      requires Valid() && objects != []
      ensures found ==> at < |objects| && objects[at].oid == handle
      ensures !found ==>
                && at <= |objects|
                && (forall i :: 0 <= i < at ==> objects[i].oid < handle)
                && (forall i :: at <= i < |objects| ==> handle < objects[i].oid)
    {
      var begin: nat, end: nat := 0, |objects| - 1;
      while true
        invariant begin <= end < |objects|
        invariant begin > 0 ==> objects[begin].oid < handle
        invariant end < |objects| - 1 ==> handle < objects[end].oid
        decreases end - begin
      {
        var cursor := (end - begin) / 2 + begin;
        if objects[cursor].oid == handle {
          return true, cursor;
        }
        if objects[cursor].oid < handle {
          begin := cursor;
        } else {
          end := cursor;
        }
        if end - begin <= 1 {
          break;
        }
      }
      if objects[begin].oid == handle {
        return true, begin;
      }
      if objects[end].oid == handle {
        return true, end;
      }
      found := false;
      if begin == 0 && handle < objects[0].oid {
        at := begin;
      } else if end == |objects| - 1 && handle > objects[end].oid {
        at := end + 1;
      } else {
        at := begin + 1;
      }
    }

    /** ptp_object_find_or_insert: the place of the handle, where a zeroed entry is made if there is none. */
    method FindOrInsert(handle: nat) returns (k: Option<nat>)
      requires Valid() && handle < 0x1_0000_0000
      modifies this
      ensures Valid() && (k.Some? <==> handle != 0)
      ensures handle == 0 ==> objects == old(objects)
      ensures handle != 0 ==>
                && k.value < |objects| && objects[k.value].oid == handle
                && Map() == (if handle in old(Map()) then old(Map()) else old(Map())[handle := Zeroed(handle)])
                && (handle in old(Map()) ==> objects == old(objects))
                && (handle !in old(Map()) ==>
                      k.value <= |old(objects)|
                      && objects == old(objects)[..k.value] + [Zeroed(handle)] + old(objects)[k.value..])
    {
      hide MapOf, HasOid, Sorted;
      if handle == 0 {
        return None;
      }
      var found, at := false, 0;
      if objects != [] {
        found, at := Search(handle);
      }
      if !found {
        InsertMap(objects, at, handle);
        objects := objects[..at] + [Zeroed(handle)] + objects[at..];
      }
      k := Some(at);
    }

    /** ptp_remove_object_from_cache. */
    method Remove(handle: nat)
      requires Valid() && handle < 0x1_0000_0000
      modifies this
      ensures Valid()
      ensures if old(Findable(objects, handle)) then Map() == old(Map()) - {handle} else objects == old(objects)
      ensures handle !in Map() <==> handle !in old(Map()) || old(Findable(objects, handle))
      ensures forall o :: o in objects ==> o in old(objects)
    {
      hide BinarySearch, Findable, Near, MapOf, Sorted, Handles;
      var k := Find(handle);
      if k.None? {
        return;
      }
      RemoveMap(objects, k.value);
      objects := objects[..k.value] + objects[k.value + 1..];
    }

    /** Puts a changed entry back in its place. */
    method Store(k: nat, o: PtpObject)
      requires Valid() && k < |objects| && o.oid == objects[k].oid
      modifies this
      ensures Valid() && objects == old(objects)[k := o] && Map() == old(Map())[o.oid := o]
      ensures old(Sane(objects)) && SaneObject(o) ==> Sane(objects)
    {
      ReplaceMap(objects, k, o);
      objects := objects[k := o];
    }

    /** ptp_object_want.  `info` and `props` are what the device answers to the requests for the info and for
        the property list, None when it refuses; `listable` tells whether property lists work at all. */
    method Want(handle: nat, want: set<Flag>, info: Option<Info>, listable: bool, props: Option<seq<nat>>)
      returns (ok: bool, k: Option<nat>)
      requires Valid() && handle < 0x1_0000_0000
      modifies this
      ensures Valid() && (old(Sane(objects)) ==> Sane(objects))
      ensures ok ==> k.Some? && k.value < |objects| && objects[k.value].oid == handle
      ensures ok ==> Expected(want, listable) <= objects[k.value].flags
      ensures handle == 0 ==> !ok && objects == old(objects)
      ensures handle != 0 && InfoNeeded(Before(old(objects), handle), want) && info.None? ==>
                !ok && (handle in Map() <==> !Findable(Entered(old(objects), handle), handle))
      ensures handle != 0 && InfoNeeded(Before(old(objects), handle), want) && info.None? ==>
                old(Near(objects, handle)) ==> handle !in Map()
      ensures handle != 0 && !(InfoNeeded(Before(old(objects), handle), want) && info.None?) ==>
                && (ok <==> Expected(want, listable) <=
                              Loaded(Before(old(objects), handle), handle, want, info, listable, props).flags
                            || want <= Before(old(objects), handle).flags)
                && Map() == old(Map())[handle :=
                     if want <= Before(old(objects), handle).flags then Before(old(objects), handle)
                     else Loaded(Before(old(objects), handle), handle, want, info, listable, props)]
      ensures forall h :: h != handle ==>
                (h in Map() <==> h in old(Map())) && (h in Map() ==> Map()[h] == old(Map())[h])
      ensures var o := if handle in old(Map()) then old(Map())[handle] else PtpObject(handle, {}, Info(0, 0, None), []);
              && (handle != 0 && AsksForInfo(o.flags, want) && info.None? ==> !ok)
              && (handle != 0 && !(AsksForInfo(o.flags, want) && info.None?) ==>
                    handle in Map() && Answered(o, Map()[handle], handle, want, info, listable, props, ok))
    {
      hide MapOf, HasOid, Sorted, Handles, Loaded, InfoNeeded, Near, Sane, Before, Answered, AsksForInfo;
      ok, k := false, None;
      if handle == 0 {
        return;
      }
      BeforeIs(objects, handle);
      LoadedIs(Before(objects, handle), handle, want, info, listable, props);
      k := FindOrInsert(handle);
      var o := objects[k.value];
      FoundEntry(old(objects), objects, k.value, handle);
      FoundMap(old(objects), objects, k.value, handle);
      if want <= o.flags {
        NotNeeded(o, want);
        return true, k;
      }
      if InfoMissing(o, want) && info.None? {
        EnteredIs(old(objects), objects, k.value, handle);
        NearEntered(old(objects), handle);
        ghost var inserted := objects;
        Remove(handle);
        SaneSubset(inserted, objects);
        Needed(o, want);
        return false, k;
      }
      var wanted;
      o, wanted := Load(o, handle, want, info, listable, props);
      Store(k.value, o);
      ok := wanted <= o.flags;
    }
  }

  /** Whether the info is requested: some of it is wanted, not all of it is there, and something wanted is missing. */
  predicate AsksForInfo(flags: set<Flag>, want: set<Flag>) {
    && (ObjectInfoLoaded in want || StorageLoaded in want || ParentLoaded in want)
    && !(ObjectInfoLoaded in flags && StorageLoaded in flags && ParentLoaded in flags)
    && exists f :: f in want && f !in flags
  }

  /** The entry `o` has become `e`.  After an info request it has the storage and the filename of the device, or a
      stand-in for a missing one, and the parent that was known before, or else that of the device, unless that is the
      object itself; after a request for the property list it has that list; all else is as before. */
  ghost predicate Answered(o: PtpObject, e: PtpObject, handle: nat, want: set<Flag>, info: Option<Info>,
                           listable: bool, props: Option<seq<nat>>, ok: bool)
    requires !(AsksForInfo(o.flags, want) && info.None?)
  {
    var asks := AsksForInfo(o.flags, want);
    var lists := MtpPropListLoaded in want && MtpPropListLoaded !in o.flags && listable && props.Some?;
    && e.oid == handle
    && (!asks ==> e.info == o.info)
    && (asks ==>
          var parent := if ParentLoaded in o.flags then o.info.parent else info.value.parent;
          && e.info.storage == info.value.storage
          && e.info.filename == (if info.value.filename.Some? then info.value.filename else Some("<none>"))
          && (parent != handle ==> e.info.parent == parent) && (parent == handle ==> e.info.parent == 0))
    && e.props == (if lists then props.value else o.props)
    && (forall f :: f in e.flags <==>
          f in o.flags || (asks && f in {ObjectInfoLoaded, StorageLoaded, ParentLoaded})
          || (lists && f == MtpPropListLoaded))
    && (ok <==> forall f :: f in want && (f != MtpPropListLoaded || listable) ==> f in e.flags)
  }

  lemma BeforeIs(objects: seq<PtpObject>, handle: nat)
    requires Sorted(objects)
    ensures Before(objects, handle) ==
            if handle in MapOf(objects) then MapOf(objects)[handle] else PtpObject(handle, {}, Info(0, 0, None), [])
    ensures Before(objects, handle).oid == handle
  {
    if handle in MapOf(objects) {
      InMap(objects, handle);
    }
  }

  lemma LoadedIs(o: PtpObject, handle: nat, want: set<Flag>, info: Option<Info>, listable: bool,
                 props: Option<seq<nat>>)
    requires o.oid == handle
    ensures InfoNeeded(o, want) <==> AsksForInfo(o.flags, want)
    ensures !(InfoNeeded(o, want) && info.None?) ==>
              var e := if want <= o.flags then o else Loaded(o, handle, want, info, listable, props);
              Answered(o, e, handle, want, info, listable, props,
                       Expected(want, listable) <= e.flags || want <= o.flags)
  {
    AsksIs(o, want);
  }

  lemma AsksIs(o: PtpObject, want: set<Flag>)
    ensures InfoNeeded(o, want) <==> AsksForInfo(o.flags, want)
  {
    if want * INFO != {} {
      var f :| f in want * INFO;
      assert f in want && f in INFO;
    }
    assert forall f :: f in INFO && f in want ==> f in want * INFO;
  }

  lemma FoundMap(before: seq<PtpObject>, after: seq<PtpObject>, k: nat, handle: nat)
    requires Sorted(before) && Sorted(after) && k < |after| && after[k].oid == handle
    requires MapOf(after) == (if handle in MapOf(before) then MapOf(before)
                              else MapOf(before)[handle := Zeroed(handle)])
    ensures MapOf(after) == MapOf(before)[handle := Before(before, handle)]
  {
    if handle in MapOf(before) {
      assert MapOf(before) == MapOf(before)[handle := MapOf(before)[handle]];
    }
  }

  /** The test in front of the info request (src/ptp.c:5354). */
  predicate InfoMissing(o: PtpObject, want: set<Flag>) {
    want * INFO != {} && !(INFO <= o.flags)
  }

  lemma NotNeeded(o: PtpObject, want: set<Flag>)
    requires want <= o.flags
    ensures !InfoNeeded(o, want)
  {
  }

  lemma Needed(o: PtpObject, want: set<Flag>)
    ensures InfoNeeded(o, want) <==> !(want <= o.flags) && InfoMissing(o, want)
  {
  }

  /** The two requests, once it is clear that they are not refused. */
  method Load(before: PtpObject, handle: nat, want: set<Flag>, info: Option<Info>, listable: bool,
              props: Option<seq<nat>>)
    returns (o: PtpObject, wanted: set<Flag>)
    requires !(want <= before.flags) && (InfoMissing(before, want) ==> info.Some?) && before.oid == handle
    ensures !(InfoNeeded(before, want) && info.None?)
    ensures o == Loaded(before, handle, want, info, listable, props) && o.oid == handle
    ensures SaneObject(before) && handle != 0 ==> SaneObject(o)
    ensures wanted <= o.flags <==> Expected(want, listable) <= o.flags
    ensures Expected(want, listable) <= wanted
  {
    o := before;
    if InfoMissing(o, want) {
      var oi := info.value;
      if oi.filename == None {
        oi := oi.(filename := Some("<none>"));
      }
      if ParentLoaded in o.flags {
        oi := oi.(parent := o.info.parent);
      }
      if oi.parent == handle {
        oi := oi.(parent := 0);
      }
      o := o.(info := oi, flags := o.flags + INFO);
    }
    wanted := want;
    if MtpPropListLoaded in want && MtpPropListLoaded !in o.flags {
      if !listable {
        wanted := wanted - {MtpPropListLoaded};
      } else if props.Some? {
        o := o.(props := props.value, flags := o.flags + {MtpPropListLoaded});
      }
    }
  }

  /** The entry of the handle, or the one that is made for it. */
  ghost function Before(objects: seq<PtpObject>, handle: nat): PtpObject
    requires Sorted(objects)
  {
    if handle in MapOf(objects) then MapOf(objects)[handle] else Zeroed(handle)
  }

  predicate InfoNeeded(o: PtpObject, want: set<Flag>) {
    !(want <= o.flags) && want * INFO != {} && !(INFO <= o.flags)
  }

  /** All that was wanted, except a property list that the device cannot give. */
  function Expected(want: set<Flag>, listable: bool): set<Flag> {
    if listable then want else want - {MtpPropListLoaded}
  }

  /** The entry after its info and its property list have been asked for as far as needed. */
  function Loaded(o: PtpObject, handle: nat, want: set<Flag>, info: Option<Info>, listable: bool,
                  props: Option<seq<nat>>): PtpObject {
    var o1 :=
      if InfoNeeded(o, want) && info.Some? then
        var parent := if ParentLoaded in o.flags then o.info.parent else info.value.parent;
        o.(info := Info(if parent == handle then 0 else parent, info.value.storage,
                        if info.value.filename == None then Some("<none>") else info.value.filename),
           flags := o.flags + INFO)
      else o;
    if MtpPropListLoaded in want && MtpPropListLoaded !in o1.flags && listable && props.Some? then
      o1.(props := props.value, flags := o1.flags + {MtpPropListLoaded})
    else o1
  }

  lemma FoundEntry(before: seq<PtpObject>, after: seq<PtpObject>, k: nat, handle: nat)
    requires Sorted(before) && Handles(before) && Sorted(after) && Handles(after)
    requires k < |after| && after[k].oid == handle && 0 < handle < 0x1_0000_0000
    requires MapOf(after) == (if handle in MapOf(before) then MapOf(before)
                              else MapOf(before)[handle := Zeroed(handle)])
    requires handle in MapOf(before) ==> after == before
    requires handle !in MapOf(before) ==> k <= |before| && after == before[..k] + [Zeroed(handle)] + before[k..]
    ensures after[k] == Before(before, handle)
    ensures Sane(before) ==> Sane(after) && SaneObject(after[k])
    ensures handle in MapOf(after) && MapOf(after)[handle] == after[k]
  {
  }

  /** How many handles are smaller. */
  function Place(objects: seq<PtpObject>, handle: nat): (p: nat)
    ensures p <= |objects|
  {
    if objects == [] || objects[0].oid >= handle then 0 else 1 + Place(objects[1..], handle)
  }

  /** The cache with a zeroed entry for the handle, if it had none. */
  ghost function Entered(objects: seq<PtpObject>, handle: nat): seq<PtpObject>
    requires Sorted(objects)
  {
    if handle in MapOf(objects) then objects
    else
      var p := Place(objects, handle);
      objects[..p] + [Zeroed(handle)] + objects[p..]
  }

  lemma {:induction false} PlaceIs(objects: seq<PtpObject>, handle: nat, k: nat)
    requires k <= |objects|
    requires forall i :: 0 <= i < k ==> objects[i].oid < handle
    requires forall i :: k <= i < |objects| ==> handle < objects[i].oid
    ensures Place(objects, handle) == k
  {
    if k > 0 {
      PlaceIs(objects[1..], handle, k - 1);
    }
  }

  lemma EnteredIs(before: seq<PtpObject>, after: seq<PtpObject>, k: nat, handle: nat)
    requires Sorted(before) && Sorted(after)
    requires handle in MapOf(before) ==> after == before
    requires handle !in MapOf(before) ==> k <= |before| && after == before[..k] + [Zeroed(handle)] + before[k..]
    ensures after == Entered(before, handle)
  {
    hide MapOf, Sorted;
    if handle !in MapOf(before) {
      SmallerBefore(before, k, handle);
      PlaceIs(before, handle, k);
    }
  }

  lemma SmallerBefore(objects: seq<PtpObject>, k: nat, handle: nat)
    requires k <= |objects| && Sorted(objects[..k] + [Zeroed(handle)] + objects[k..])
    ensures forall i :: 0 <= i < k ==> objects[i].oid < handle
    ensures forall i :: k <= i < |objects| ==> handle < objects[i].oid
  {
    var r := objects[..k] + [Zeroed(handle)] + objects[k..];
    assert r[k].oid == handle;
    forall i | 0 <= i < k
      ensures objects[i].oid < handle
    {
      assert r[i] == objects[i];
    }
    forall i | k <= i < |objects|
      ensures handle < objects[i].oid
    {
      assert r[i + 1] == objects[i];
    }
  }

  lemma NearEntered(before: seq<PtpObject>, handle: nat)
    requires Sorted(before) && Sorted(Entered(before, handle)) && Handles(Entered(before, handle))
    requires 0 < handle < 0x1_0000_0000
    ensures Near(before, handle) ==> Findable(Entered(before, handle), handle)
  {
    hide Sorted, Handles, Findable, MapOf;
    var after := Entered(before, handle);
    SearchFindsIff(after, handle);
    if handle !in MapOf(before) {
      StillNear(before, Place(before, handle), handle);
    }
  }

  lemma StillNear(before: seq<PtpObject>, p: nat, handle: nat)
    requires p <= |before| && Sorted(before[..p] + [Zeroed(handle)] + before[p..])
    ensures var after := before[..p] + [Zeroed(handle)] + before[p..];
            handle in MapOf(after) && (Near(before, handle) ==> Near(after, handle))
  {
    hide Sorted, MapOf;
    var after := before[..p] + [Zeroed(handle)] + before[p..];
    assert after[p].oid == handle;
    assert forall i :: 0 <= i < |after| ==>
      after[i] == if i < p then before[i] else if i == p then Zeroed(handle) else before[i - 1];
  }

  // ---------- Whole runs ----------

  datatype Op =
    | WantOp(handle: nat, want: set<Flag>, info: Option<Info>, listable: bool, props: Option<seq<nat>>)
    | RemoveOp(handle: nat)

  /** Any run of lookups and removals, from an empty cache: the info flags stay together, and no loaded
      object has itself as parent. */
  method Run(ops: seq<Op>) returns (cache: Cache)
    requires forall op :: op in ops ==> op.handle < 0x1_0000_0000
    ensures cache.Valid() && Sane(cache.objects)
  {
    cache := new Cache();
    var i := 0;
    while i < |ops|
      invariant 0 <= i <= |ops| && cache.Valid() && Sane(cache.objects) && fresh(cache)
    {
      var op := ops[i];
      assert op in ops;
      match op {
        case WantOp(handle, want, info, listable, props) =>
          var ok, k := cache.Want(handle, want, info, listable, props);
        case RemoveOp(handle) =>
          ghost var before := cache.objects;
          cache.Remove(handle);
          SaneSubset(before, cache.objects);
      }
      i := i + 1;
    }
  }

  lemma SaneSubset(before: seq<PtpObject>, after: seq<PtpObject>)
    requires forall o :: o in after ==> o in before
    ensures Sane(before) ==> Sane(after)
  {
    if Sane(before) {
      forall i | 0 <= i < |after|
        ensures SaneObject(after[i])
      {
        assert after[i] in before;
        var j :| 0 <= j < |before| && before[j] == after[i];
      }
    }
  }

  /** Where the comparison fails: a handle is in the cache, 2^31 or more away from others, and is not found. */
  lemma FarHandlesConfused()
    ensures var objects := [Zeroed(1), Zeroed(2), Zeroed(0x9000_0000)];
            && Sorted(objects) && Handles(objects) && HasOid(objects, 0x9000_0000)
            && BinarySearch(objects, 0x9000_0000, 0, 3) == None
  {
    var objects := [Zeroed(1), Zeroed(2), Zeroed(0x9000_0000)];
    assert objects[0] == Zeroed(1) && objects[1] == Zeroed(2) && objects[2] == Zeroed(0x9000_0000);
    assert P.Compare(0x9000_0000, 2) < 0 && P.Compare(0x9000_0000, 1) < 0;
    assert BinarySearch(objects, 0x9000_0000, 0, 0) == None;
    assert BinarySearch(objects, 0x9000_0000, 0, 1) == None;
  }
}
