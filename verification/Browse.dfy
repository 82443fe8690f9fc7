/** Listing objects for the device: filterObjects (src/database.c:490-615). */
module Browse {
  import opened Forest
  import opened Database
  import opened Entries

  predicate MaskSet(v: bv32, m: bv32) {
    v & m == m
  }

  /** acceptFilteredObject. */
  predicate Accepts(parent: CmaObject, current: CmaObject, mask: bv32) {
    var kind := if MaskSet(mask, DIR_PHOTO) then Photo in current.kinds
                else if MaskSet(mask, DIR_VIDEO) then Video in current.kinds
                else if MaskSet(mask, DIR_MUSIC) then Music in current.kinds
                else false;
    if mask & (DIR_ALL | DIR_SONGS) != 0 then kind && File in current.kinds
    else if mask & DIR_REGULAR != 0 then parent.ohfi == current.ohfiParent
    else kind
  }

  /** The kinds of the roots, their types and their filters are those initDatabase gives them. */
  ghost predicate Standard(roots: seq<CmaObject>) {
    && |roots| == |CATEGORIES|
    && forall i :: 0 <= i < |roots| ==>
         && roots[i].ohfi == CATEGORIES[i].ohfi && roots[i].kinds == {CATEGORIES[i].kind}
         && roots[i].dirType == DIR_ROOT | DIR_REGULAR
         && |roots[i].filters| == |CATEGORIES[i].filters|
         && forall j :: 0 <= j < |roots[i].filters| ==>
              roots[i].filters[j].name == CATEGORIES[i].filters[j].0 &&
                roots[i].filters[j].dirType == CATEGORIES[i].filters[j].1
  }

  /** The type the listing goes by: that of the filter asked for, or that of the object. */
  function TypeFor(parent: CmaObject, ohfi: nat, n: nat): (t: bv32)
    requires n <= |parent.filters|
    ensures (forall j :: 0 <= j < n ==> parent.filters[j].ohfi != ohfi) ==> t == parent.dirType
    ensures t == parent.dirType ||
              exists j :: 0 <= j < n && parent.filters[j].ohfi == ohfi && t == parent.filters[j].dirType
  {
    if n == 0 then parent.dirType
    else
      var t := TypeFor(parent, ohfi, n - 1);
      if parent.filters[n - 1].ohfi == ohfi && (forall j :: 0 <= j < n - 1 ==> parent.filters[j].ohfi != ohfi)
      then parent.filters[n - 1].dirType else t
  }

  // ---------- The full scan ----------

  /** The accepted objects among the first `n` of a category, in list order. */
  function Matching(s: seq<CmaObject>, parent: CmaObject, mask: bv32, n: nat): seq<CmaObject>
    requires n <= |s|
  {
    if n == 0 then []
    else if Accepts(parent, s[n - 1], mask) then Matching(s, parent, mask, n - 1) + [s[n - 1]]
    else Matching(s, parent, mask, n - 1)
  }

  /** The accepted objects of the first `n` categories. */
  function FullScan(lists: seq<seq<CmaObject>>, parent: CmaObject, mask: bv32, n: nat): seq<CmaObject>
    requires n <= |lists|
  {
    if n == 0 then []
    else FullScan(lists, parent, mask, n - 1) + Matching(lists[n - 1], parent, mask, |lists[n - 1]|)
  }

  lemma {:induction false} MatchingMembers(s: seq<CmaObject>, parent: CmaObject, mask: bv32, n: nat)
    requires n <= |s| && Ordered(s)
    ensures var m := Matching(s, parent, mask, n);
            && (forall o :: o in m ==> o in s && Accepts(parent, o, mask))
            && (forall i :: 0 <= i < n && Accepts(parent, s[i], mask) ==> s[i] in m)
            && (forall i, j :: 0 <= i < j < |m| ==> m[i].ohfi < m[j].ohfi)
            && (forall i :: 0 <= i < |m| && n < |s| ==> m[i].ohfi < s[n].ohfi)
  {
    if n > 0 {
      MatchingMembers(s, parent, mask, n - 1);
    }
  }

  lemma {:induction false} NoneMatching(s: seq<CmaObject>, parent: CmaObject, mask: bv32, n: nat)
    requires n <= |s| && forall o :: o in s ==> !Accepts(parent, o, mask)
    ensures Matching(s, parent, mask, n) == []
  {
    if n > 0 {
      NoneMatching(s, parent, mask, n - 1);
    }
  }

  /** What a category can contribute to a listing is settled by one kind, or by one parent. */
  lemma OneCategory(db: Database, parent: CmaObject, mask: bv32, i: nat, j: nat, a: CmaObject, b: CmaObject)
    requires db.Valid() && Standard(db.roots) && parent.ohfi > 0
    requires i < |db.lists| && j < |db.lists| && a in db.lists[i] && b in db.lists[j]
    requires Accepts(parent, a, mask) && Accepts(parent, b, mask)
    ensures i == j
  {
    assert a.kinds - {Folder, File} == {CATEGORIES[i].kind} && b.kinds - {Folder, File} == {CATEGORIES[j].kind};
    if a.ohfiParent == parent.ohfi == b.ohfiParent {
      ParentInCategory(db, i, a);
      ParentInCategory(db, j, b);
    } else {
      KindDecides(i, j, a.kinds, b.kinds, Photo);
      KindDecides(i, j, a.kinds, b.kinds, Video);
      KindDecides(i, j, a.kinds, b.kinds, Music);
    }
  }

  lemma KindDecides(i: nat, j: nat, a: set<DataKind>, b: set<DataKind>, k: DataKind)
    requires i < |CATEGORIES| && j < |CATEGORIES| && k in {Photo, Video, Music}
    requires a - {Folder, File} == {CATEGORIES[i].kind} && b - {Folder, File} == {CATEGORIES[j].kind}
    ensures k in a && k in b ==> i == j
  {
    assert k in a ==> k in a - {Folder, File};
    assert k in b ==> k in b - {Folder, File};
  }

  /** Stopping behind the first category that contributes anything loses nothing. */
  lemma {:induction false} EarlyStop(db: Database, parent: CmaObject, mask: bv32, i: nat, n: nat)
    requires db.Valid() && Standard(db.roots) && parent.ohfi > 0
    requires i < n <= |db.lists| && Matching(db.lists[i], parent, mask, |db.lists[i]|) != []
    ensures FullScan(db.lists, parent, mask, n) == FullScan(db.lists, parent, mask, i + 1)
  {
    hide Matching, Accepts, Standard, Shape, Within, AllLinked;
    if n > i + 1 {
      EarlyStop(db, parent, mask, i, n - 1);
      NothingFurther(db, parent, mask, i, n - 1);
    }
  }

  lemma NothingFurther(db: Database, parent: CmaObject, mask: bv32, i: nat, j: nat)
    requires db.Valid() && Standard(db.roots) && parent.ohfi > 0
    requires i < j < |db.lists| && Matching(db.lists[i], parent, mask, |db.lists[i]|) != []
    ensures Matching(db.lists[j], parent, mask, |db.lists[j]|) == []
  {
    hide Matching, Accepts, Standard, Shape, Within, AllLinked, Ordered;
    CategoryOrder(db, i);
    MatchingMembers(db.lists[i], parent, mask, |db.lists[i]|);
    var a := Matching(db.lists[i], parent, mask, |db.lists[i]|)[0];
    forall b | b in db.lists[j]
      ensures !Accepts(parent, b, mask)
    {
      if Accepts(parent, b, mask) {
        OneCategory(db, parent, mask, i, j, a, b);
      }
    }
    NoneMatching(db.lists[j], parent, mask, |db.lists[j]|);
  }

  // ---------- What the listings mean ----------

  /** For an ordinary entry, and for a root without filters, the listing is exactly the children. */
  lemma ChildrenListed(db: Database, parent: CmaObject, c: nat, o: CmaObject)
    requires db.Valid() && Standard(db.roots) && c < |db.lists| && parent in db.lists[c]
    ensures parent.filters == [] ==> (Accepts(parent, o, parent.dirType) <==> o.ohfiParent == parent.ohfi)
    ensures parent != db.roots[c] ==> parent.filters == []
  {
    assert parent.dirType == DIR_REGULAR || parent.dirType == DIR_ROOT | DIR_REGULAR;
  }

  /** The virtual folders: "Folders" lists the children of the root, "All" every file of the category. */
  lemma FilterListed(db: Database, c: nat, j: nat, i: nat, o: CmaObject)
    requires db.Valid() && Standard(db.roots) && c < |db.lists| && j < |db.roots[c].filters|
    requires i < |db.lists| && o in db.lists[i]
    ensures var f := db.roots[c].filters[j];
            && (f.name == "Folders" || f.name == "All")
            && (Accepts(db.roots[c], o, f.dirType) <==>
                if f.name == "Folders" then o.ohfiParent == db.roots[c].ohfi else i == c && File in o.kinds)
  {
    hide Accepts;
    var f := db.roots[c].filters[j];
    FilterTypes(db.roots, c, j);
    assert o.kinds - {Folder, File} == db.roots[i].kinds;
    KindOfCategory(db.roots, o.kinds, i, c);
    TypeMeans(db.roots[c], o);
  }

  function AllFiles(c: nat): bv32 {
    if c == 0 then DIR_PHOTO | DIR_ROOT | DIR_ALL
    else if c == 1 then DIR_VIDEO | DIR_ROOT | DIR_ALL
    else DIR_MUSIC | DIR_ROOT | DIR_SONGS
  }

  /** The filters there are. */
  lemma FilterTypes(roots: seq<CmaObject>, c: nat, j: nat)
    requires Standard(roots) && c < |roots| && j < |roots[c].filters|
    ensures var f := roots[c].filters[j];
            && c < 3 && roots[c].kinds == {if c == 0 then Photo else if c == 1 then Video else Music}
            && (f.name == "Folders" ==>
                  f.dirType == DIR_PHOTO | DIR_ROOT | DIR_REGULAR || f.dirType == DIR_VIDEO | DIR_ROOT | DIR_REGULAR)
            && (f.name == "Folders" || f.name == "All")
            && (f.name == "All" ==> f.dirType == AllFiles(c))
  {
    var f := CATEGORIES[c].filters[j];
    assert c < 3;
    assert roots[c].kinds == {CATEGORIES[c].kind};
    assert roots[c].filters[j].name == f.0 && roots[c].filters[j].dirType == f.1;
    assert j == 0 || (j == 1 && c < 2);
  }

  /** What the types that initDatabase uses make of an object. */
  lemma TypeMeans(parent: CmaObject, o: CmaObject)
    ensures forall t :: t == DIR_PHOTO | DIR_ROOT | DIR_REGULAR || t == DIR_VIDEO | DIR_ROOT | DIR_REGULAR ==>
              (Accepts(parent, o, t) <==> o.ohfiParent == parent.ohfi)
    ensures Accepts(parent, o, DIR_PHOTO | DIR_ROOT | DIR_ALL) <==> Photo in o.kinds && File in o.kinds
    ensures Accepts(parent, o, DIR_VIDEO | DIR_ROOT | DIR_ALL) <==> Video in o.kinds && File in o.kinds
    ensures Accepts(parent, o, DIR_MUSIC | DIR_ROOT | DIR_SONGS) <==> Music in o.kinds && File in o.kinds
  {
  }

  lemma KindOfCategory(roots: seq<CmaObject>, kinds: set<DataKind>, i: nat, c: nat)
    requires Standard(roots) && i < |roots| && c < 3 && kinds - {Folder, File} == roots[i].kinds
    ensures (if c == 0 then Photo else if c == 1 then Video else Music) in kinds <==> i == c
  {
    var k := if c == 0 then Photo else if c == 1 then Video else Music;
    assert roots[i].kinds == {CATEGORIES[i].kind};
    assert k in kinds <==> k in kinds - {Folder, File};
  }

  // ---------- The listing ----------

  /** `chain` is what one sees from `head` by following `next_metadata`. */
  ghost predicate Chained(chain: seq<CmaObject>, head: CmaObject?)
    reads chain`nextMetadata
  {
    && head == (if chain == [] then null else chain[0])
    && forall i {:trigger chain[i].nextMetadata} :: 0 <= i < |chain| ==>
         chain[i].nextMetadata == if i + 1 < |chain| then chain[i + 1] else null
  }

  /** The same, as long as the last link has not been set. */
  ghost predicate Growing(chain: seq<CmaObject>, head: CmaObject?, tail: CmaObject?)
    reads chain`nextMetadata
  {
    && head == (if chain == [] then null else chain[0])
    && tail == (if chain == [] then null else chain[|chain| - 1])
    && forall i {:trigger chain[i].nextMetadata} :: 0 <= i < |chain| - 1 ==> chain[i].nextMetadata == chain[i + 1]
  }

  ghost predicate InDatabase(db: Database, o: CmaObject)
    reads db
  {
    exists i :: 0 <= i < |db.lists| && o in db.lists[i]
  }

  /** The first filter of the object with that id. */
  predicate FirstFilter(parent: CmaObject, ohfi: nat, j: nat) {
    && j < |parent.filters| && parent.filters[j].ohfi == ohfi
    && forall m :: 0 <= m < j ==> parent.filters[m].ohfi != ohfi
  }

  /** The chain holds the children of the object, whatever their category. */
  ghost predicate ListsChildren(db: Database, parent: CmaObject, chain: seq<CmaObject>)
    reads db
  {
    && (forall o :: o in chain ==> InDatabase(db, o) && o.ohfiParent == parent.ohfi)
    && forall i :: 0 <= i < |db.lists| ==> forall o :: o in db.lists[i] && o.ohfiParent == parent.ohfi ==> o in chain
  }

  /** The chain holds the files of category `c`. */
  ghost predicate ListsFiles(db: Database, c: nat, chain: seq<CmaObject>)
    requires c < |db.lists|
    reads db
  {
    && (forall o :: o in chain ==> o in db.lists[c] && File in o.kinds)
    && (forall o :: o in db.lists[c] && File in o.kinds ==> o in chain)
  }

  /** What is listed for an id: the children of an entry, and of a root for its virtual folder "Folders"; every file of
      the category for any other virtual folder. */
  ghost predicate Lists(db: Database, parent: CmaObject, ohfi: nat, chain: seq<CmaObject>)
    reads db
  {
    && Increasing(chain)
    && (parent.filters == [] ==> ListsChildren(db, parent, chain))
    && (parent.filters != [] ==> exists c: nat, j: nat {:trigger db.roots[c], parent.filters[j]} ::
          && c < |db.roots| && c < |db.lists| && parent == db.roots[c] && FirstFilter(parent, ohfi, j)
          && if parent.filters[j].name == "Folders" then ListsChildren(db, parent, chain)
             else ListsFiles(db, c, chain))
  }

  lemma {:induction false} FullScanMembers(lists: seq<seq<CmaObject>>, parent: CmaObject, mask: bv32, n: nat,
                                           o: CmaObject)
    requires n <= |lists| && forall i :: 0 <= i < n ==> Ordered(lists[i])
    ensures o in FullScan(lists, parent, mask, n) <==>
            Accepts(parent, o, mask) && exists i :: 0 <= i < n && o in lists[i]
  {
    hide Accepts, Ordered;
    if n > 0 {
      FullScanMembers(lists, parent, mask, n - 1, o);
      var s := lists[n - 1];
      MatchingMembers(s, parent, mask, |s|);
      if Accepts(parent, o, mask) && o in s {
        var k :| 0 <= k < |s| && s[k] == o;
      }
    }
  }

  ghost predicate Increasing(chain: seq<CmaObject>) {
    forall k, l :: 0 <= k < l < |chain| ==> chain[k].ohfi < chain[l].ohfi
  }

  /** Only one category contributes, so the ids increase. */
  lemma {:induction false} FullScanOrdered(db: Database, parent: CmaObject, mask: bv32, n: nat)
    requires db.Valid() && Standard(db.roots) && parent.ohfi > 0 && n <= |db.lists|
    ensures Increasing(FullScan(db.lists, parent, mask, n))
  {
    hide Matching, Accepts, Standard, Shape, Within, AllLinked, Ordered, Increasing;
    if n == 0 {
      NoneIncreasing();
    } else {
      FullScanOrdered(db, parent, mask, n - 1);
      CategoryOrder(db, n - 1);
      MatchingIncreasing(db.lists[n - 1], parent, mask);
      var last := Matching(db.lists[n - 1], parent, mask, |db.lists[n - 1]|);
      var before := FullScan(db.lists, parent, mask, n - 1);
      if before != [] {
        forall b | b in db.lists[n - 1]
          ensures !Accepts(parent, b, mask)
        {
          OneContributes(db, parent, mask, n - 1, before[0], b);
        }
        NoneMatching(db.lists[n - 1], parent, mask, |db.lists[n - 1]|);
      }
      EitherEmpty(before, last);
    }
  }

  lemma NoneIncreasing()
    ensures Increasing([])
  {
  }

  lemma MatchingIncreasing(s: seq<CmaObject>, parent: CmaObject, mask: bv32)
    requires Ordered(s)
    ensures Increasing(Matching(s, parent, mask, |s|))
  {
    hide Accepts, Matching, Ordered;
    MatchingMembers(s, parent, mask, |s|);
  }

  lemma EitherEmpty(a: seq<CmaObject>, b: seq<CmaObject>)
    requires Increasing(a) && Increasing(b) && (a == [] || b == [])
    ensures Increasing(a + b)
  {
    hide Increasing;
    assert a == [] ==> a + b == b;
    assert b == [] ==> a + b == a;
  }

  lemma OneContributes(db: Database, parent: CmaObject, mask: bv32, n: nat, a: CmaObject, b: CmaObject)
    requires db.Valid() && Standard(db.roots) && parent.ohfi > 0 && n < |db.lists|
    requires a in FullScan(db.lists, parent, mask, n) && b in db.lists[n]
    ensures !Accepts(parent, b, mask)
  {
    hide FullScan, Accepts, Standard, Shape, Within, AllLinked, Ordered;
    forall i | 0 <= i < n
      ensures Ordered(db.lists[i])
    {
      CategoryOrder(db, i);
    }
    FullScanMembers(db.lists, parent, mask, n, a);
    var i :| 0 <= i < n && a in db.lists[i];
    if Accepts(parent, b, mask) {
      OneCategory(db, parent, mask, i, n, a, b);
    }
  }

  lemma {:induction false} TypeIs(parent: CmaObject, ohfi: nat, j: nat, n: nat)
    requires FirstFilter(parent, ohfi, j) && j < n <= |parent.filters|
    ensures TypeFor(parent, ohfi, n) == parent.filters[j].dirType
    decreases n
  {
    if j < n - 1 {
      TypeIs(parent, ohfi, j, n - 1);
    }
  }

  lemma FilterThere(parent: CmaObject, ohfi: nat) returns (j: nat)
    requires HasFilter(parent, ohfi)
    ensures FirstFilter(parent, ohfi, j)
  {
    var f :| f in parent.filters && f.ohfi == ohfi;
    j := 0;
    while parent.filters[j].ohfi != ohfi
      invariant j < |parent.filters| && forall m :: 0 <= m < j ==> parent.filters[m].ohfi != ohfi
      decreases |parent.filters| - j
    {
      j := j + 1;
    }
  }

  /** The full scan lists what is meant. */
  lemma ListingIs(db: Database, parent: CmaObject, ohfi: nat, chain: seq<CmaObject>)
    requires db.Valid() && Standard(db.roots) && Finds(db, ohfi, parent) && parent.ohfi > 0
    requires parent.filters == [] || ohfi != parent.ohfi
    requires chain == FullScan(db.lists, parent, TypeFor(parent, ohfi, |parent.filters|), |db.lists|)
    ensures Lists(db, parent, ohfi, chain)
  {
    hide FullScan, Accepts, Standard, Shape, Within, AllLinked, Ordered, TypeFor, ListsChildren, HasFilter, Finds;
    var mask := TypeFor(parent, ohfi, |parent.filters|);
    FullScanOrdered(db, parent, mask, |db.lists|);
    var c := FoundIn(db, ohfi, parent);
    if parent.filters == [] {
      assert mask == parent.dirType;
      ChildrenChain(db, parent, c, chain);
    } else {
      FilterOf(db, ohfi, parent, c);
      var j := FilterThere(parent, ohfi);
      TypeIs(parent, ohfi, j, |parent.filters|);
      FilterChain(db, c, j, chain);
      assert parent == db.roots[c] && parent.filters[j] == db.roots[c].filters[j];
    }
  }

  lemma FoundIn(db: Database, ohfi: nat, parent: CmaObject) returns (c: nat)
    requires db.Valid() && Finds(db, ohfi, parent)
    ensures c < |db.lists| == |db.roots| && parent in db.lists[c]
  {
    if ohfi in db.home {
      c := db.home[ohfi];
    } else {
      c := db.filters[ohfi];
      assert db.lists[c][0] == db.roots[c];
    }
  }

  lemma FilterOf(db: Database, ohfi: nat, parent: CmaObject, c: nat)
    requires db.Valid() && Finds(db, ohfi, parent) && c < |db.lists| && parent in db.lists[c]
    requires parent.filters != [] && ohfi != parent.ohfi
    ensures c < |db.roots| && parent == db.roots[c] && HasFilter(parent, ohfi)
  {
    assert ohfi !in db.home;
    assert db.lists[db.filters[ohfi]][0] == parent;
  }

  lemma MembersOf(db: Database, parent: CmaObject, mask: bv32, o: CmaObject)
    requires db.Valid()
    ensures o in FullScan(db.lists, parent, mask, |db.lists|) <==> Accepts(parent, o, mask) && InDatabase(db, o)
  {
    hide FullScan, Accepts, Shape, Within, AllLinked, Ordered;
    forall i | 0 <= i < |db.lists|
      ensures Ordered(db.lists[i])
    {
      CategoryOrder(db, i);
    }
    FullScanMembers(db.lists, parent, mask, |db.lists|, o);
  }

  lemma ChildrenChain(db: Database, parent: CmaObject, c: nat, chain: seq<CmaObject>)
    requires db.Valid() && Standard(db.roots) && c < |db.lists| && parent in db.lists[c] && parent.filters == []
    requires chain == FullScan(db.lists, parent, parent.dirType, |db.lists|)
    ensures ListsChildren(db, parent, chain)
  {
    hide FullScan, Accepts, Standard, Shape, Within, AllLinked, Ordered, InDatabase;
    forall o | o in chain
      ensures InDatabase(db, o) && o.ohfiParent == parent.ohfi
    {
      MembersOf(db, parent, parent.dirType, o);
      ChildrenListed(db, parent, c, o);
    }
    forall i, o | 0 <= i < |db.lists| && o in db.lists[i] && o.ohfiParent == parent.ohfi
      ensures o in chain
    {
      assert InDatabase(db, o) by {
        ThisList(db, i, o);
      }
      MembersOf(db, parent, parent.dirType, o);
      ChildrenListed(db, parent, c, o);
    }
  }

  lemma FilterChain(db: Database, c: nat, j: nat, chain: seq<CmaObject>)
    requires db.Valid() && Standard(db.roots) && c < |db.lists| && c < |db.roots| && j < |db.roots[c].filters|
    requires chain == FullScan(db.lists, db.roots[c], db.roots[c].filters[j].dirType, |db.lists|)
    ensures if db.roots[c].filters[j].name == "Folders" then ListsChildren(db, db.roots[c], chain)
            else ListsFiles(db, c, chain)
  {
    hide FullScan, Accepts, Standard, Shape, Within, AllLinked, Ordered;
    var root, f := db.roots[c], db.roots[c].filters[j];
    forall o | o in chain
      ensures if f.name == "Folders" then InDatabase(db, o) && o.ohfiParent == root.ohfi
              else o in db.lists[c] && File in o.kinds
    {
      MembersOf(db, root, f.dirType, o);
      var i :| 0 <= i < |db.lists| && o in db.lists[i];
      FilterListed(db, c, j, i, o);
    }
    forall i, o | 0 <= i < |db.lists| && o in db.lists[i]
      ensures (if f.name == "Folders" then o.ohfiParent == root.ohfi else i == c && File in o.kinds) ==> o in chain
    {
      ThisList(db, i, o);
      MembersOf(db, root, f.dirType, o);
      FilterListed(db, c, j, i, o);
    }
  }

  lemma ThisList(db: Database, i: nat, o: CmaObject)
    requires i < |db.lists| && o in db.lists[i]
    ensures InDatabase(db, o)
  {
  }

  /** filterObjects.  `filters` is the list of virtual folders, returned for a root that has some. */
  method FilterObjects(db: Database, ohfiParent: nat)
    returns (count: nat, head: CmaObject?, filters: seq<Filter>, ghost parent: CmaObject?, ghost chain: seq<CmaObject>)
    requires db.Valid() && Standard(db.roots)
    modifies db.repr`nextMetadata
    ensures db.Valid() && Finds(db, ohfiParent, parent)
    ensures parent == null ==> count == 0 && head == null && filters == []
    ensures parent != null && parent.filters != [] && ohfiParent == parent.ohfi ==>
              filters == parent.filters && count == |filters| && head == null
    ensures parent != null && (parent.filters == [] || ohfiParent != parent.ohfi) ==>
              && chain == FullScan(db.lists, parent, TypeFor(parent, ohfiParent, |parent.filters|), |db.lists|)
              && Chained(chain, head) && count == |chain| && filters == [] && Lists(db, parent, ohfiParent, chain)
  {
    hide Shape, Within, AllLinked, Standard, TypeFor, Finds, Lists;
    count, head, filters, chain := 0, null, [], [];
    var found := OhfiToObject(db, ohfiParent);
    parent := found;
    if found == null {
      return;
    }
    if found.filters != [] && ohfiParent == found.ohfi {
      filters := found.filters;
      count := |filters|;
      return;
    }
    var mask := TypeFor(found, ohfiParent, |found.filters|);
    FoundPositive(db, ohfiParent, found);
    OneListEach(db);
    var i := 0;
    while i < |db.roots|
      invariant i <= |db.roots| == |db.lists|
      invariant db.Valid() && count == 0 && head == null
      invariant FullScan(db.lists, found, mask, i) == []
    {
      count, head, chain := ScanCategory(db, found, mask, i);
      if count > 0 {
        EarlyStop(db, found, mask, i, |db.lists|);
        ListingIs(db, found, ohfiParent, chain);
        return;
      }
      i := i + 1;
    }
    chain := [];
    ListingIs(db, found, ohfiParent, chain);
  }

  lemma FoundPositive(db: Database, ohfi: nat, found: CmaObject)
    requires db.Valid() && Finds(db, ohfi, found)
    ensures found.ohfi > 0
  {
    if ohfi !in db.home {
      assert db.lists[db.filters[ohfi]][0] == found;
    }
  }

  method SetNext(db: Database, tail: CmaObject, next: CmaObject?)
    requires db.Valid()
    modifies tail`nextMetadata
    ensures db.Valid() && tail.nextMetadata == next
  {
    tail.nextMetadata := next;
  }

  /** The inner loop, over one category, and the closing of the chain. */
  method ScanCategory(db: Database, parent: CmaObject, mask: bv32, i: nat)
    returns (count: nat, head: CmaObject?, ghost chain: seq<CmaObject>)
    requires db.Valid() && i < |db.lists| && i < |db.roots|
    modifies db.repr`nextMetadata
    ensures db.Valid()
    ensures chain == Matching(db.lists[i], parent, mask, |db.lists[i]|)
    ensures Chained(chain, head) && count == |chain|
  {
    hide Shape, Within, AllLinked, Accepts, Growing, Chained, Ordered, Matching;
    ghost var s := db.lists[i];
    CategoryOrder(db, i);
    count, head, chain := 0, null, [];
    var tail: CmaObject? := null;
    var current: CmaObject? := db.roots[i];
    ghost var k := 0;
    NothingMatching(s, parent, mask);
    while current != null
      invariant k <= |s| && current == if k < |s| then s[k] else null
      invariant db.Valid() && chain == Matching(s, parent, mask, k) && count == |chain| && Growing(chain, head, tail)
      decreases |s| - k
    {
      assert s[k].next == if k + 1 < |s| then s[k + 1] else null;
      NextMatching(s, parent, mask, k);
      if Accepts(parent, current, mask) {
        head, tail := AddToChain(db, head, tail, current, chain);
        count := count + 1;
        chain := chain + [current];
      }
      current := current.next;
      k := k + 1;
    }
    NextMatching(s, parent, mask, |s|);
    EndChain(db, head, tail, chain);
  }

  lemma NothingMatching(s: seq<CmaObject>, parent: CmaObject, mask: bv32)
    ensures Matching(s, parent, mask, 0) == [] && Growing([], null, null)
  {
  }

  lemma NextMatching(s: seq<CmaObject>, parent: CmaObject, mask: bv32, k: nat)
    requires Ordered(s) && k <= |s|
    ensures Apart(Matching(s, parent, mask, k)) && forall o :: o in Matching(s, parent, mask, k) ==> o in s
    ensures k < |s| ==>
              && s[k] !in Matching(s, parent, mask, k)
              && Matching(s, parent, mask, k + 1) ==
                 Matching(s, parent, mask, k) + if Accepts(parent, s[k], mask) then [s[k]] else []
  {
    hide Accepts;
    MatchingMembers(s, parent, mask, k);
  }

  ghost predicate Apart(chain: seq<CmaObject>) {
    forall i, j :: 0 <= i < j < |chain| ==> chain[i] != chain[j]
  }

  /** `tail->next_metadata = &object->metadata; tail = tail->next_metadata`. */
  method AddToChain(db: Database, head: CmaObject?, tail: CmaObject?, current: CmaObject, ghost chain: seq<CmaObject>)
    returns (newHead: CmaObject?, newTail: CmaObject?)
    requires db.Valid() && Growing(chain, head, tail) && Apart(chain) && current !in chain
    requires forall o :: o in chain ==> o in db.repr
    modifies db.repr`nextMetadata
    ensures db.Valid() && Growing(chain + [current], newHead, newTail)
  {
    newHead := head;
    if tail == null {
      newHead := current;
    } else {
      SetNext(db, tail, current);
    }
    newTail := current;
  }

  method EndChain(db: Database, head: CmaObject?, tail: CmaObject?, ghost chain: seq<CmaObject>)
    requires db.Valid() && Growing(chain, head, tail) && Apart(chain)
    requires forall o :: o in chain ==> o in db.repr
    modifies db.repr`nextMetadata
    ensures db.Valid() && Chained(chain, head)
  {
    if tail != null {
      SetNext(db, tail, null);
    }
  }
}
