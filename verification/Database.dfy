/** The whole database and its ids (src/database.c, src/opencma.h). */
module Database {
  import opened Forest

  const DIR_REGULAR: bv32 := 0x0000001
  const DIR_SONGS: bv32 := 0x0000008
  const DIR_ALL: bv32 := 0x0000200
  const DIR_ROOT: bv32 := 0x0010000
  const DIR_MUSIC: bv32 := 0x1000000
  const DIR_PHOTO: bv32 := 0x2000000
  const DIR_VIDEO: bv32 := 0x4000000

  /** What initDatabase puts into one slot of `struct cma_database`. */
  datatype Category = Category(ohfi: nat, kind: DataKind, filters: seq<(string, bv32)>)

  const CATEGORIES: seq<Category> := [
    Category(0x02, Photo, [("Folders", DIR_PHOTO | DIR_ROOT | DIR_REGULAR), ("All", DIR_PHOTO | DIR_ROOT | DIR_ALL)]),
    Category(0x03, Video, [("Folders", DIR_VIDEO | DIR_ROOT | DIR_REGULAR), ("All", DIR_VIDEO | DIR_ROOT | DIR_ALL)]),
    Category(0x01, Music, [("All", DIR_MUSIC | DIR_ROOT | DIR_SONGS)]),
    Category(0x05, Game, []),
    Category(0x0A, App, []),
    Category(0x0D, App, []),
    Category(0x0E, SaveData, []),
    Category(0x10, App, []),
    Category(0x12, App, []),
    Category(0x06, App, [])
  ]

  /** Every entry but the root of its category has its parent in the list. */
  ghost predicate Rooted(s: seq<CmaObject>)
    requires s != []
  {
    forall o {:trigger HasId(s, o.ohfiParent)} :: o in s && o != s[0] ==> HasId(s, o.ohfiParent)
  }

  /** A well-formed category list, whatever the links between its objects. */
  ghost predicate WellFormed(s: seq<CmaObject>, root: CmaObject, count: nat) {
    && s != [] && s[0] == root && Ordered(s) && Rooted(s)
    && 0 < root.ohfi < OHFI_OFFSET && root.ohfiParent == 0
    && (forall o :: o in s && o != root ==> OHFI_OFFSET <= o.ohfi < count)
    && (forall o :: o in s && o != root ==> o.filters == [] && o.dirType == DIR_REGULAR)
    && (forall o :: o in s ==> o.kinds - {Folder, File} == root.kinds)
  }

  ghost predicate HasFilter(root: CmaObject, x: nat) {
    exists f :: f in root.filters && f.ohfi == x
  }

  /** Each id belongs to one object (of category `home[id]`) or to one filter. */
  ghost predicate IdsUnique(lists: seq<seq<CmaObject>>, home: map<nat, nat>, filters: map<nat, nat>, count: nat)
    requires forall i :: 0 <= i < |lists| ==> lists[i] != []
  {
    && (forall i :: 0 <= i < |lists| ==> forall o :: o in lists[i] ==> o.ohfi in home && home[o.ohfi] == i)
    && (forall x {:trigger home[x]} :: x in home ==> home[x] < |lists| && HasId(lists[home[x]], x))
    && (forall i :: 0 <= i < |lists| ==>
          forall f :: f in lists[i][0].filters ==> f.ohfi in filters && filters[f.ohfi] == i)
    && (forall x {:trigger filters[x]} :: x in filters ==>
          OHFI_OFFSET <= x < count && filters[x] < |lists| && HasFilter(lists[filters[x]][0], x))
    && home.Keys !! filters.Keys
  }

  /** Everything about a database that the links between objects have no part in. */
  ghost predicate Shape(roots: seq<CmaObject>, lists: seq<seq<CmaObject>>, home: map<nat, nat>,
                        filters: map<nat, nat>, count: nat) {
    && |lists| == |roots| && OHFI_OFFSET <= count
    && (forall i :: 0 <= i < |lists| ==> WellFormed(lists[i], roots[i], count))
    && IdsUnique(lists, home, filters, count)
  }

  ghost predicate Within(lists: seq<seq<CmaObject>>, repr: set<CmaObject>) {
    forall i :: 0 <= i < |lists| ==> forall o :: o in lists[i] ==> o in repr
  }

  ghost predicate AllLinked(lists: seq<seq<CmaObject>>, repr: set<CmaObject>)
    requires Within(lists, repr)
    reads repr`next
  {
    forall i :: 0 <= i < |lists| ==> Linked(lists[i])
  }

  lemma WithinUpdate(lists: seq<seq<CmaObject>>, repr: set<CmaObject>, c: nat, r: seq<CmaObject>, repr': set<CmaObject>)
    requires Within(lists, repr) && c < |lists| && repr <= repr'
    requires forall o :: o in r ==> o in repr'
    ensures Within(lists[c := r], repr')
  {
    var lists': seq<seq<CmaObject>> := lists[c := r];
    forall i | 0 <= i < |lists'|
      ensures forall o :: o in lists'[i] ==> o in repr'
    {
      if i != c {
        assert lists'[i] == lists[i];
      }
    }
  }

  lemma AllLinkedUpdate(lists: seq<seq<CmaObject>>, c: nat, r: seq<CmaObject>, repr: set<CmaObject>)
    requires c < |lists| && Within(lists[c := r], repr)
    requires Linked(r) && forall i :: 0 <= i < |lists| && i != c ==> Linked(lists[i])
    ensures AllLinked(lists[c := r], repr)
  {
    var lists': seq<seq<CmaObject>> := lists[c := r];
    forall i | 0 <= i < |lists'|
      ensures Linked(lists'[i])
    {
      if i != c {
        assert lists'[i] == lists[i];
      }
    }
  }

  class Database {
    const roots: seq<CmaObject>             // struct cma_database, seen as an array
    var ohfiCount: nat                      // g_ohfi_count
    ghost var lists: seq<seq<CmaObject>>    // the category lists
    ghost var home: map<nat, nat>           // the category of each object id
    ghost const filters: map<nat, nat>      // the category of each filter id
    ghost var repr: set<CmaObject>          // every object that ever was in a list

    ghost predicate Valid()
      reads this, repr`next
    {
      && Shape(roots, lists, home, filters, ohfiCount)
      && Within(lists, repr)
      && AllLinked(lists, repr)
    }

    constructor (roots: seq<CmaObject>, ghost home: map<nat, nat>, ghost filters: map<nat, nat>, count: nat)
      requires Shape(roots, seq(|roots|, i requires 0 <= i < |roots| => [roots[i]]), home, filters, count)
      requires forall o :: o in roots ==> o.next == null
      ensures Valid() && this.roots == roots && ohfiCount == count
      ensures lists == seq(|roots|, i requires 0 <= i < |roots| => [roots[i]])
      ensures this.home == home && this.filters == filters && repr == set o | o in roots
    {
      this.roots, ohfiCount, this.home, this.filters := roots, count, home, filters;
      lists := seq(|roots|, i requires 0 <= i < |roots| => [roots[i]]);
      repr := set o | o in roots;
    }
  }

  // ---------- Appending an object ----------

  lemma AppendOrdered(s: seq<CmaObject>, o: CmaObject)
    requires Ordered(s) && o.ohfiParent < o.ohfi
    requires forall p :: p in s ==> p.ohfi < o.ohfi
    ensures Ordered(s + [o])
  {
  }

  lemma AppendWellFormed(s: seq<CmaObject>, root: CmaObject, count: nat, o: CmaObject)
    requires WellFormed(s, root, count) && OHFI_OFFSET <= count
    requires o.ohfi == count && HasId(s, o.ohfiParent)
    requires o.kinds - {Folder, File} == root.kinds && o.filters == [] && o.dirType == DIR_REGULAR
    ensures WellFormed(s + [o], root, count + 1)
  {
    hide Ordered, Rooted, HasId;
    assert forall q :: q in s ==> q.ohfi < count;
    ParentOlder(s, o, count);
    AppendOrdered(s, o);
    AppendRooted(s, o);
  }

  lemma ParentOlder(s: seq<CmaObject>, o: CmaObject, count: nat)
    requires HasId(s, o.ohfiParent) && forall q :: q in s ==> q.ohfi < count
    ensures o.ohfiParent < count
  {
  }

  lemma AppendRooted(s: seq<CmaObject>, o: CmaObject)
    requires s != [] && Rooted(s) && HasId(s, o.ohfiParent)
    ensures Rooted(s + [o])
  {
    var r := s + [o];
    forall q | q in r && q != r[0]
      ensures HasId(r, q.ohfiParent)
    {
      assert q in s ==> HasId(s, q.ohfiParent);
      var m :| m in s && m.ohfi == q.ohfiParent;
      assert m in r;
    }
  }

  lemma GrowWellFormed(s: seq<CmaObject>, root: CmaObject, count: nat, count': nat)
    requires WellFormed(s, root, count) && count <= count'
    ensures WellFormed(s, root, count')
  {
    forall q | q in s && q != s[0]
      ensures HasId(s, q.ohfiParent)
    {
    }
  }

  /** The next id is free. */
  lemma CountIsFresh(roots: seq<CmaObject>, lists: seq<seq<CmaObject>>, home: map<nat, nat>,
                     filters: map<nat, nat>, count: nat)
    requires Shape(roots, lists, home, filters, count)
    ensures count !in home && count !in filters
  {
    forall x | x in home
      ensures x != count
    {
      assert HasId(lists[home[x]], x);
    }
  }

  lemma AppendIds(lists: seq<seq<CmaObject>>, home: map<nat, nat>, filters: map<nat, nat>, count: nat,
                  c: nat, o: CmaObject)
    requires forall i :: 0 <= i < |lists| ==> lists[i] != []
    requires IdsUnique(lists, home, filters, count)
    requires c < |lists| && o.ohfi == count && count !in home && count !in filters
    ensures IdsUnique(lists[c := lists[c] + [o]], home[o.ohfi := c], filters, count + 1)
  {
    var lists': seq<seq<CmaObject>> := lists[c := lists[c] + [o]];
    var home' := home[o.ohfi := c];
    forall x | x in home'
      ensures home'[x] < |lists'| && HasId(lists'[home'[x]], x)
    {
      if x == o.ohfi {
        assert o in lists'[c];
      } else {
        assert HasId(lists[home[x]], x);
        var p :| p in lists[home[x]] && p.ohfi == x;
        assert p in lists'[home[x]];
      }
    }
    forall i | 0 <= i < |lists'|
      ensures lists'[i][0] == lists[i][0]
      ensures forall p :: p in lists'[i] ==> p.ohfi in home' && home'[p.ohfi] == i
    {
      forall p | p in lists'[i]
        ensures p.ohfi in home' && home'[p.ohfi] == i
      {
        assert p in lists[i] || (i == c && p == o);
      }
    }
  }

  lemma NoneEmpty(roots: seq<CmaObject>, lists: seq<seq<CmaObject>>, count: nat)
    requires |lists| == |roots| && forall i :: 0 <= i < |lists| ==> WellFormed(lists[i], roots[i], count)
    ensures forall i :: 0 <= i < |lists| ==> lists[i] != []
  {
    hide Ordered, Rooted;
    forall i | 0 <= i < |lists|
      ensures lists[i] != []
    {
      assert WellFormed(lists[i], roots[i], count);
    }
  }

  /** Appending an object with the next id, under a parent of the category, keeps the shape. */
  lemma AppendShape(roots: seq<CmaObject>, lists: seq<seq<CmaObject>>, home: map<nat, nat>,
                    filters: map<nat, nat>, count: nat, c: nat, o: CmaObject)
    requires Shape(roots, lists, home, filters, count)
    requires c < |lists| && o.ohfi == count && HasId(lists[c], o.ohfiParent)
    requires o.kinds - {Folder, File} == roots[c].kinds && o.filters == [] && o.dirType == DIR_REGULAR
    ensures Shape(roots, lists[c := lists[c] + [o]], home[o.ohfi := c], filters, count + 1)
  {
    hide WellFormed, IdsUnique, HasId;
    NoneEmpty(roots, lists, count);
    CountIsFresh(roots, lists, home, filters, count);
    AppendIds(lists, home, filters, count, c, o);
    forall i | 0 <= i < |lists|
      ensures WellFormed(lists[c := lists[c] + [o]][i], roots[i], count + 1)
    {
      if i == c {
        AppendWellFormed(lists[c], roots[c], count, o);
      } else {
        GrowWellFormed(lists[i], roots[i], count, count + 1);
      }
    }
  }

  // ---------- Removing a subtree ----------

  /** Without the subtree of an entry, every other entry still has its parent. */
  lemma RestRooted(s: seq<CmaObject>, top: nat)
    requires s != [] && Ordered(s) && Rooted(s) && s[0].ohfi < top
    ensures Keep(s, Subtree(s, top)) != [] && Keep(s, Subtree(s, top))[0] == s[0]
    ensures Rooted(Keep(s, Subtree(s, top)))
  {
    var d := Subtree(s, top);
    var r := Keep(s, d);
    SubtreeIsSubtree(s, top);
    KeepMembers(s, d);
    KeepFirst(s, d);
    forall q | q in r && q != r[0]
      ensures HasId(r, q.ohfiParent)
    {
      assert HasId(s, q.ohfiParent);
      var p :| p in s && p.ohfi == q.ohfiParent;
      assert p in r;
    }
  }

  /** Without the subtree of an entry, a category is still well-formed. */
  lemma RemoveWellFormed(s: seq<CmaObject>, root: CmaObject, count: nat, top: nat)
    requires WellFormed(s, root, count) && top != root.ohfi && root.ohfi < top
    ensures WellFormed(Keep(s, Subtree(s, top)), root, count)
  {
    KeepOrdered(s, Subtree(s, top));
    KeepMembers(s, Subtree(s, top));
    RestRooted(s, top);
  }

  lemma KeepFirst(s: seq<CmaObject>, d: set<nat>)
    requires s != [] && s[0].ohfi !in d
    ensures Keep(s, d) != [] && Keep(s, d)[0] == s[0]
  {
    assert s == [s[0]] + s[1..];
    KeepConcat([s[0]], s[1..], d);
    KeepAll([s[0]], d);
  }

  lemma RemoveIds(lists: seq<seq<CmaObject>>, home: map<nat, nat>, filters: map<nat, nat>, count: nat,
                  c: nat, d: set<nat>, r: seq<CmaObject>)
    requires forall i :: 0 <= i < |lists| ==> lists[i] != []
    requires IdsUnique(lists, home, filters, count)
    requires c < |lists| && r != [] && r[0] == lists[c][0]
    requires forall o :: o in r ==> o in lists[c] && o.ohfi !in d
    requires forall o :: o in lists[c] && o.ohfi !in d ==> o in r
    requires forall x {:trigger HasId(lists[c], x)} :: x in d ==> HasId(lists[c], x)
    ensures IdsUnique(lists[c := r], home - d, filters, count)
  {
    var lists': seq<seq<CmaObject>> := lists[c := r];
    var home' := home - d;
    forall x | x in home'
      ensures home'[x] < |lists'| && HasId(lists'[home'[x]], x)
    {
      assert HasId(lists[home[x]], x);
      var p :| p in lists[home[x]] && p.ohfi == x;
      assert p in lists'[home[x]];
    }
    forall x | x in d
      ensures x in home && home[x] == c
    {
      assert HasId(lists[c], x);
    }
    forall i | 0 <= i < |lists'|
      ensures lists'[i][0] == lists[i][0]
      ensures forall p :: p in lists'[i] ==> p.ohfi in home' && home'[p.ohfi] == i
    {
      forall p | p in lists'[i]
        ensures p.ohfi in home' && home'[p.ohfi] == i
      {
        assert p in lists[i];
      }
    }
  }

  /** Removing the subtree of an entry that is not a category root keeps the shape. */
  lemma RemoveShape(roots: seq<CmaObject>, lists: seq<seq<CmaObject>>, home: map<nat, nat>,
                    filters: map<nat, nat>, count: nat, c: nat, top: nat)
    requires Shape(roots, lists, home, filters, count)
    requires c < |lists| && HasId(lists[c], top) && top != roots[c].ohfi
    ensures var d := Subtree(lists[c], top);
            Shape(roots, lists[c := Keep(lists[c], d)], home - d, filters, count)
  {
    var s, d := lists[c], Subtree(lists[c], top);
    SubtreeIsSubtree(s, top);
    KeepMembers(s, d);
    var o :| o in s && o.ohfi == top;
    assert roots[c].ohfi < top;
    RemoveWellFormed(s, roots[c], count, top);
    forall x | x in d
      ensures HasId(s, x)
    {
    }
    RemoveIds(lists, home, filters, count, c, d, Keep(s, d));
  }

  /** In every other category the subtree of `top` is empty, so nothing happens there. */
  lemma ElsewhereUntouched(roots: seq<CmaObject>, lists: seq<seq<CmaObject>>, home: map<nat, nat>,
                           filters: map<nat, nat>, count: nat, i: nat, top: nat)
    requires Shape(roots, lists, home, filters, count) && i < |lists| && !HasId(lists[i], top)
    requires 0 < top
    ensures Keep(lists[i], Subtree(lists[i], top)) == lists[i]
  {
    var s, d := lists[i], {top};
    forall o | o in s
      ensures o.ohfiParent != top
    {
      if o != s[0] {
        assert HasId(s, o.ohfiParent);
      }
    }
    assert forall o :: o in s ==> o.ohfi != top;
    SubtreeUnique(s, top, d);
    KeepAll(s, d);
  }
}
