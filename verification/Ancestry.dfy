/** Ancestry does not depend on which other objects are in the list. */
module Ancestry {
  import opened Forest
  import opened Removal
  import opened Database
  import opened Entries

  /** `b` is a part of `a` that holds, with an object, the parent that the object has in `a`. */
  ghost predicate PartWithParents(a: seq<CmaObject>, b: seq<CmaObject>) {
    && (forall o :: o in b ==> o in a)
    && (forall o {:trigger HasId(b, o.ohfiParent)} :: o in b && HasId(a, o.ohfiParent) ==> HasId(b, o.ohfiParent))
  }

  lemma {:induction false} SamePart(a: seq<CmaObject>, b: seq<CmaObject>, top: nat, o: CmaObject)
    requires Ordered(a) && Ordered(b) && PartWithParents(a, b) && o in b
    ensures o.ohfi in Subtree(a, top) <==> o.ohfi in Subtree(b, top)
    decreases o.ohfi
  {
    SubtreeIsSubtree(a, top);
    SubtreeIsSubtree(b, top);
    ParentBelow(b, o);
    assert HasId(b, o.ohfiParent) ==> HasId(a, o.ohfiParent);
    if HasId(a, o.ohfiParent) {
      assert HasId(b, o.ohfiParent);
      var p :| p in b && p.ohfi == o.ohfiParent;
      SamePart(a, b, top, p);
    }
  }

  lemma PrefixIsPart(s: seq<CmaObject>, more: seq<CmaObject>)
    requires s != [] && Ordered(s + more) && Rooted(s) && s[0].ohfiParent == 0 && 0 < s[0].ohfi
    ensures Ordered(s) && PartWithParents(s + more, s)
  {
    var r := s + more;
    assert r[0] == s[0];
    assert forall i :: 0 <= i < |s| ==> r[i] == s[i];
    forall p | p in r
      ensures 0 < p.ohfi
    {
      var k :| 0 <= k < |r| && r[k] == p;
    }
    forall o | o in s && HasId(r, o.ohfiParent)
      ensures HasId(s, o.ohfiParent)
    {
      assert o != s[0];
    }
  }

  /** Dropping a subtree leaves a part that holds its parents. */
  lemma RestIsPart(s: seq<CmaObject>, top: nat)
    requires Ordered(s)
    ensures PartWithParents(s, Keep(s, Subtree(s, top)))
  {
    var d := Subtree(s, top);
    SubtreeIsSubtree(s, top);
    KeepMembers(s, d);
    forall o | o in Keep(s, d) && HasId(s, o.ohfiParent)
      ensures HasId(Keep(s, d), o.ohfiParent)
    {
      var p :| p in s && p.ohfi == o.ohfiParent;
      assert p in Keep(s, d);
    }
  }

  /** Objects behind the list do not change who is below whom in it. */
  lemma AboveExtended(s: seq<CmaObject>, more: seq<CmaObject>, o: CmaObject, below: CmaObject)
    requires s != [] && Ordered(s + more) && Rooted(s) && s[0].ohfiParent == 0 && 0 < s[0].ohfi
    requires below in s
    ensures Above(s + more, o, below) <==> Above(s, o, below)
  {
    PrefixIsPart(s, more);
    SamePart(s + more, s, o.ohfi, below);
  }

  lemma AboveRest(s: seq<CmaObject>, top: nat, o: CmaObject, below: CmaObject)
    requires Ordered(s) && below in Keep(s, Subtree(s, top))
    ensures Above(Keep(s, Subtree(s, top)), o, below) <==> Above(s, o, below)
  {
    RestIsPart(s, top);
    KeepOrdered(s, Subtree(s, top));
    SamePart(s, Keep(s, Subtree(s, top)), o.ohfi, below);
  }

  /** The subtree of an object at the end of the list, when all that follows it hangs from it. */
  lemma TailIsSubtree(base: seq<CmaObject>, top: CmaObject, kids: seq<CmaObject>)
    requires Ordered(base + ([top] + kids))
    requires forall j :: 0 <= j < |kids| ==> HasId([top] + kids, kids[j].ohfiParent)
    ensures var s := base + ([top] + kids);
            Keep(s, Subtree(s, top.ohfi)) == base
  {
    var tail := [top] + kids;
    var s := base + tail;
    var d := Subtree(s, top.ohfi);
    SubtreeIsSubtree(s, top.ohfi);
    forall j | 0 <= j < |tail|
      ensures tail[j].ohfi in d
    {
      AllBelow(base, top, kids, j);
    }
    forall i | 0 <= i < |base|
      ensures base[i].ohfi !in d
    {
      assert s[i] == base[i] && s[|base|] == top;
    }
    KeepConcat(base, tail, d);
    KeepAll(base, d);
    KeepNone(tail, d);
  }

  lemma {:induction false} AllBelow(base: seq<CmaObject>, top: CmaObject, kids: seq<CmaObject>, j: nat)
    requires Ordered(base + ([top] + kids)) && j <= |kids|
    requires forall j :: 0 <= j < |kids| ==> HasId([top] + kids, kids[j].ohfiParent)
    ensures ([top] + kids)[j].ohfi in Subtree(base + ([top] + kids), top.ohfi)
  {
    var tail := [top] + kids;
    var s := base + tail;
    SubtreeIsSubtree(s, top.ohfi);
    var o := tail[j];
    assert s[|base| + j] == o;
    if j > 0 {
      assert o == kids[j - 1];
      assert HasId(tail, o.ohfiParent);
      var p :| p in tail && p.ohfi == o.ohfiParent;
      var m :| 0 <= m < |tail| && tail[m] == p;
      assert s[|base| + m] == p;
      AllBelow(base, top, kids, m);
    }
  }
}
