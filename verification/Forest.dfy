/** The object lists of the OpenCMA database (src/opencma.h, src/database.c).

    A category is a flat singly linked list.  The tree it stands for exists only through
    the integer `ohfiParent` of each object, and through the order of the list: ids grow
    along a list, and an object's parent has a smaller id than the object itself. */
module Forest {

  datatype Option<+T> = None | Some(value: T)

  /** The bits of `enum DataType`. */
  datatype DataKind =
    | Folder | File | App | Thumbnail | SaveData | Music | Photo | Video | Game | Special

  /** Object ids start here, above the ids of the category roots. */
  const OHFI_OFFSET: nat := 1000

  /** A virtual sub-folder of a category root. */
  datatype Filter = Filter(ohfi: nat, ohfiParent: nat, name: string, dirType: bv32)

  /** `struct cma_object`.  What is set at creation and never assigned again is `const`. */
  class CmaObject {
    const ohfi: nat
    const ohfiParent: nat
    const kinds: set<DataKind>
    const dirType: bv32
    const filters: seq<Filter>

    var name: string
    var relPath: Option<string>       // metadata.path: None for a category root
    var path: string
    var size: nat
    var handle: nat
    var next: CmaObject?              // next_object
    var nextMetadata: CmaObject?      // metadata.next_metadata

    constructor (ohfi: nat, ohfiParent: nat, kinds: set<DataKind>, dirType: bv32, filters: seq<Filter>,
                 name: string, relPath: Option<string>, path: string, size: nat)
      ensures this.ohfi == ohfi && this.ohfiParent == ohfiParent && this.kinds == kinds
      ensures this.dirType == dirType && this.filters == filters
      ensures this.name == name && this.relPath == relPath && this.path == path && this.size == size
      ensures this.handle == 0 && this.next == null
    {
      this.ohfi, this.ohfiParent, this.kinds := ohfi, ohfiParent, kinds;
      this.dirType, this.filters := dirType, filters;
      this.name, this.relPath, this.path, this.size := name, relPath, path, size;
      this.handle, this.next, this.nextMetadata := 0, null, null;
    }
  }

  /** `s` is what one sees by following `next` from `s[0]` to the end of the list. */
  ghost predicate Linked(s: seq<CmaObject>)
    reads s`next
  {
    forall i {:trigger s[i].next} :: 0 <= i < |s| ==> s[i].next == if i + 1 < |s| then s[i + 1] else null
  }

  /** The ordering discipline: ids strictly increase, and every parent id is smaller. */
  ghost predicate Ordered(s: seq<CmaObject>) {
    && (forall i, j :: 0 <= i < j < |s| ==> s[i].ohfi < s[j].ohfi)
    && (forall i :: 0 <= i < |s| ==> s[i].ohfiParent < s[i].ohfi)
  }

  // ---------- Subtrees ----------

  /** The ids of `top` and of everything below it among the first `n` objects, in one pass. */
  ghost function SubtreeUpTo(s: seq<CmaObject>, top: nat, n: nat): set<nat>
    requires n <= |s|
  {
    if n == 0 then
      {top}
    else
      var d := SubtreeUpTo(s, top, n - 1);
      if s[n - 1].ohfiParent in d then d + {s[n - 1].ohfi} else d
  }

  ghost function Subtree(s: seq<CmaObject>, top: nat): set<nat> {
    SubtreeUpTo(s, top, |s|)
  }

  /** The reference notion: some chain of parent links leads from `o` to `top`. */
  ghost predicate Descends(s: seq<CmaObject>, o: CmaObject, top: nat)
    decreases o.ohfi
  {
    || o.ohfi == top
    || o.ohfiParent == top
    || exists p :: p in s && p.ohfi == o.ohfiParent && p.ohfi < o.ohfi && Descends(s, p, top)
  }

  /** `d` holds `top` and is closed under "my parent is in `d`", and holds nothing more. */
  ghost predicate IsSubtree(s: seq<CmaObject>, top: nat, d: set<nat>) {
    && top in d
    && (forall o :: o in s ==> (o.ohfi in d <==> o.ohfi == top || o.ohfiParent in d))
    && (forall x {:trigger HasId(s, x)} :: x in d && x != top ==> HasId(s, x))
  }

  ghost predicate HasId(s: seq<CmaObject>, x: nat) {
    exists o :: o in s && o.ohfi == x
  }

  lemma {:induction false} SubtreeUpToIs(s: seq<CmaObject>, top: nat, n: nat)
    requires Ordered(s) && n <= |s|
    ensures var d := SubtreeUpTo(s, top, n);
            && top in d
            && (forall i :: 0 <= i < n ==> (s[i].ohfi in d <==> s[i].ohfi == top || s[i].ohfiParent in d))
            && (forall x :: x in d && x != top ==> exists i :: 0 <= i < n && s[i].ohfi == x)
            && (forall x :: x in d ==> top <= x)
  {
    if n > 0 {
      SubtreeUpToIs(s, top, n - 1);
      var d := SubtreeUpTo(s, top, n - 1);
      var o := s[n - 1];
      NewestId(s, n);
      hide Ordered;
      assert o.ohfi in d ==> o.ohfi == top;
    }
  }

  lemma NewestId(s: seq<CmaObject>, n: nat)
    requires Ordered(s) && 0 < n <= |s|
    ensures s[n - 1].ohfiParent < s[n - 1].ohfi
    ensures forall i :: 0 <= i < n - 1 ==> s[i].ohfi < s[n - 1].ohfi && s[i].ohfiParent < s[n - 1].ohfi
  {
    assert s[n - 1] in s;
    forall i | 0 <= i < n - 1
      ensures s[i].ohfi < s[n - 1].ohfi && s[i].ohfiParent < s[n - 1].ohfi
    {
      assert s[i] in s;
    }
  }

  lemma SubtreeIsSubtree(s: seq<CmaObject>, top: nat)
    requires Ordered(s)
    ensures IsSubtree(s, top, Subtree(s, top))
    ensures forall x :: x in Subtree(s, top) ==> top <= x
  {
    SubtreeUpToIs(s, top, |s|);
    var d := Subtree(s, top);
    forall x | x in d && x != top
      ensures HasId(s, x)
    {
      var i :| 0 <= i < |s| && s[i].ohfi == x;
      assert s[i] in s;
    }
  }

  /** Parents come first, so the closure conditions have only one solution. */
  lemma SubtreeUnique(s: seq<CmaObject>, top: nat, d: set<nat>)
    requires Ordered(s)
    requires IsSubtree(s, top, d)
    ensures d == Subtree(s, top)
  {
    SubtreeIsSubtree(s, top);
    var e := Subtree(s, top);
    forall x | x in d || x in e
      ensures x in d <==> x in e
    {
      if x != top {
        assert HasId(s, x);
        var o :| o in s && o.ohfi == x;
        SameClosure(s, top, d, e, o);
      }
    }
  }

  lemma {:induction false} SameClosure(s: seq<CmaObject>, top: nat, d: set<nat>, e: set<nat>, o: CmaObject)
    requires Ordered(s) && o in s
    requires IsSubtree(s, top, d) && IsSubtree(s, top, e)
    ensures o.ohfi in d <==> o.ohfi in e
    decreases o.ohfi
  {
    var k :| 0 <= k < |s| && s[k] == o;
    if o.ohfi != top && o.ohfiParent != top && (o.ohfiParent in d || o.ohfiParent in e) {
      assert HasId(s, o.ohfiParent);
      var p :| p in s && p.ohfi == o.ohfiParent;
      SameClosure(s, top, d, e, p);
    }
  }

  /** The one-pass computation finds exactly the transitive descendants. */
  lemma {:induction false} SubtreeIsDescendants(s: seq<CmaObject>, top: nat, o: CmaObject)
    requires Ordered(s) && o in s
    ensures o.ohfi in Subtree(s, top) <==> Descends(s, o, top)
    decreases o.ohfi
  {
    SubtreeIsSubtree(s, top);
    var d := Subtree(s, top);
    if o.ohfi != top && o.ohfiParent != top {
      forall p | p in s && p.ohfi == o.ohfiParent && p.ohfi < o.ohfi
        ensures p.ohfi in d <==> Descends(s, p, top)
      {
        SubtreeIsDescendants(s, top, p);
      }
      if o.ohfi in d {
        var k :| 0 <= k < |s| && s[k] == o;
        assert HasId(s, o.ohfiParent);
        var p :| p in s && p.ohfi == o.ohfiParent;
        assert Descends(s, p, top);
      }
    }
  }

  // ---------- Removing a set of ids ----------

  /** Those of the first `n` objects whose id is not in `d`, in order. */
  ghost function KeepUpTo(s: seq<CmaObject>, d: set<nat>, n: nat): seq<CmaObject>
    requires n <= |s|
  {
    if n == 0 then []
    else if s[n - 1].ohfi in d then KeepUpTo(s, d, n - 1)
    else KeepUpTo(s, d, n - 1) + [s[n - 1]]
  }

  /** The objects of `s` whose id is not in `d`, in order. */
  ghost function Keep(s: seq<CmaObject>, d: set<nat>): seq<CmaObject> {
    KeepUpTo(s, d, |s|)
  }

  lemma {:induction false} KeepUpToMembers(s: seq<CmaObject>, d: set<nat>, n: nat)
    requires n <= |s|
    ensures forall o :: o in KeepUpTo(s, d, n) ==> o in s && o.ohfi !in d
    ensures forall i :: 0 <= i < n && s[i].ohfi !in d ==> s[i] in KeepUpTo(s, d, n)
    ensures |KeepUpTo(s, d, n)| <= n
  {
    if n > 0 {
      KeepUpToMembers(s, d, n - 1);
    }
  }

  lemma KeepMembers(s: seq<CmaObject>, d: set<nat>)
    ensures forall o :: o in Keep(s, d) ==> o in s && o.ohfi !in d
    ensures forall o :: o in s && o.ohfi !in d ==> o in Keep(s, d)
    ensures |Keep(s, d)| <= |s|
  {
    KeepUpToMembers(s, d, |s|);
  }

  lemma {:induction false} KeepUpToPrefix(a: seq<CmaObject>, b: seq<CmaObject>, d: set<nat>, n: nat)
    requires n <= |a| && n <= |b| && a[..n] == b[..n]
    ensures KeepUpTo(a, d, n) == KeepUpTo(b, d, n)
  {
    if n > 0 {
      assert a[n - 1] == a[..n][n - 1] == b[..n][n - 1] == b[n - 1];
      assert a[..n - 1] == a[..n][..n - 1] == b[..n][..n - 1] == b[..n - 1];
      KeepUpToPrefix(a, b, d, n - 1);
    }
  }

  lemma {:induction false} KeepConcatUpTo(a: seq<CmaObject>, b: seq<CmaObject>, d: set<nat>, n: nat)
    requires n <= |b|
    ensures KeepUpTo(a + b, d, |a| + n) == Keep(a, d) + KeepUpTo(b, d, n)
  {
    if n == 0 {
      assert (a + b)[..|a|] == a[..|a|];
      KeepUpToPrefix(a + b, a, d, |a|);
    } else {
      KeepConcatUpTo(a, b, d, n - 1);
      assert (a + b)[|a| + n - 1] == b[n - 1];
    }
  }

  lemma KeepConcat(a: seq<CmaObject>, b: seq<CmaObject>, d: set<nat>)
    ensures Keep(a + b, d) == Keep(a, d) + Keep(b, d)
  {
    KeepConcatUpTo(a, b, d, |b|);
  }

  lemma {:induction false} KeepUpToAll(s: seq<CmaObject>, d: set<nat>, n: nat)
    requires n <= |s| && forall i :: 0 <= i < n ==> s[i].ohfi !in d
    ensures KeepUpTo(s, d, n) == s[..n]
  {
    if n > 0 {
      KeepUpToAll(s, d, n - 1);
    }
  }

  lemma KeepAll(s: seq<CmaObject>, d: set<nat>)
    requires forall i :: 0 <= i < |s| ==> s[i].ohfi !in d
    ensures Keep(s, d) == s
  {
    KeepUpToAll(s, d, |s|);
  }

  lemma {:induction false} KeepNoneUpTo(s: seq<CmaObject>, d: set<nat>, n: nat)
    requires n <= |s| && forall i :: 0 <= i < n ==> s[i].ohfi in d
    ensures KeepUpTo(s, d, n) == []
  {
    if n > 0 {
      KeepNoneUpTo(s, d, n - 1);
    }
  }

  lemma KeepNone(s: seq<CmaObject>, d: set<nat>)
    requires forall i :: 0 <= i < |s| ==> s[i].ohfi in d
    ensures Keep(s, d) == []
  {
    KeepNoneUpTo(s, d, |s|);
  }

  lemma {:induction false} KeepTwiceUpTo(s: seq<CmaObject>, d: set<nat>, e: set<nat>, n: nat)
    requires n <= |s|
    ensures Keep(KeepUpTo(s, d, n), e) == KeepUpTo(s, d + e, n)
  {
    if n > 0 {
      KeepTwiceUpTo(s, d, e, n - 1);
      KeepConcat(KeepUpTo(s, d, n - 1), [s[n - 1]], e);
      if s[n - 1].ohfi in e {
        KeepNone([s[n - 1]], e);
      } else {
        KeepAll([s[n - 1]], e);
      }
    }
  }

  lemma KeepTwice(s: seq<CmaObject>, d: set<nat>, e: set<nat>)
    ensures Keep(Keep(s, d), e) == Keep(s, d + e)
  {
    KeepTwiceUpTo(s, d, e, |s|);
  }

  lemma {:induction false} KeepOrderedUpTo(s: seq<CmaObject>, d: set<nat>, n: nat)
    requires Ordered(s) && n <= |s|
    ensures Ordered(KeepUpTo(s, d, n))
    ensures forall i :: 0 <= i < |KeepUpTo(s, d, n)| && n < |s| ==> KeepUpTo(s, d, n)[i].ohfi < s[n].ohfi
  {
    if n > 0 {
      KeepOrderedUpTo(s, d, n - 1);
    }
  }

  /** What is left of an ordered list is ordered. */
  lemma KeepOrdered(s: seq<CmaObject>, d: set<nat>)
    requires Ordered(s)
    ensures Ordered(Keep(s, d))
  {
    KeepOrderedUpTo(s, d, |s|);
  }

  lemma KeepShorter(s: seq<CmaObject>, d: set<nat>, k: nat)
    requires k < |s| && s[k].ohfi in d
    ensures |Keep(s, d)| < |s|
  {
    assert s == s[..k] + [s[k]] + s[k + 1..];
    KeepConcat(s[..k] + [s[k]], s[k + 1..], d);
    KeepConcat(s[..k], [s[k]], d);
    KeepNone([s[k]], d);
    KeepMembers(s[..k], d);
    KeepMembers(s[k + 1..], d);
  }
}
