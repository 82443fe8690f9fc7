/** removeFromDatabase (src/database.c:330-365). */
module Removal {
  import opened Forest

  /** What the walk has unlinked so far: a set of ids below `ohfi`, closed under children,
      each member of which hangs from `ohfi` or from another member. */
  ghost predicate Unlinked(nodes: seq<CmaObject>, ohfi: nat, gone: set<nat>) {
    && (forall x :: x in gone ==> ohfi < x)
    && (forall o :: o in nodes && o.ohfiParent in gone ==> o.ohfi in gone)
    && (forall o :: o in nodes && o.ohfi in gone ==> o.ohfiParent == ohfi || o.ohfiParent in gone)
    && (forall x {:trigger HasId(nodes, x)} :: x in gone ==> HasId(nodes, x))
  }

  /** Once no child of `ohfi` is left, the unlinked ids and `ohfi` itself are its subtree. */
  lemma UnlinkedIsSubtree(nodes: seq<CmaObject>, ohfi: nat, gone: set<nat>)
    requires Ordered(nodes) && Unlinked(nodes, ohfi, gone)
    requires forall o :: o in Keep(nodes, gone) ==> o.ohfiParent != ohfi
    ensures gone + {ohfi} == Subtree(nodes, ohfi)
  {
    var d := gone + {ohfi};
    KeepMembers(nodes, gone);
    forall o | o in nodes
      ensures o.ohfi in d <==> o.ohfi == ohfi || o.ohfiParent in d
    {
    }
    SubtreeUnique(nodes, ohfi, d);
  }

  lemma InTail(cur: seq<CmaObject>, k: nat, o: CmaObject)
    requires Ordered(cur) && k < |cur| && o in cur && cur[k].ohfi <= o.ohfi
    ensures o in cur[k..]
  {
    var j :| 0 <= j < |cur| && cur[j] == o;
    assert o == cur[k..][j - k];
  }

  lemma ParentBelow(s: seq<CmaObject>, o: CmaObject)
    requires Ordered(s) && o in s
    ensures o.ohfiParent < o.ohfi
  {
    var j :| 0 <= j < |s| && s[j] == o;
  }

  lemma SameId(s: seq<CmaObject>, o: CmaObject, p: CmaObject)
    requires Ordered(s) && o in s && p in s && o.ohfi == p.ohfi
    ensures o == p
  {
    var i :| 0 <= i < |s| && s[i] == o;
    var j :| 0 <= j < |s| && s[j] == p;
  }

  /** How one object stands to the ids unlinked with the child `cur[k]`. */
  lemma UnlinkOne(nodes: seq<CmaObject>, ohfi: nat, gone: set<nat>, cur: seq<CmaObject>, k: nat, d: set<nat>,
                  o: CmaObject)
    requires Ordered(nodes) && Ordered(cur) && Unlinked(nodes, ohfi, gone)
    requires forall p :: p in nodes && p.ohfi !in gone ==> p in cur
    requires 1 <= k < |cur| && cur[k].ohfiParent == ohfi
    requires IsSubtree(cur[k - 1..], cur[k].ohfi, d) && forall x :: x in d ==> cur[k].ohfi <= x
    requires o in nodes
    ensures o.ohfiParent in gone + d ==> o.ohfi in gone + d
    ensures o.ohfi in gone + d ==> o.ohfiParent == ohfi || o.ohfiParent in gone + d
  {
    if o.ohfi !in gone && (o.ohfiParent in d || o.ohfi in d) {
      ParentBelow(nodes, o);
      assert o in cur;
      InTail(cur, k - 1, o);
      if o.ohfi == cur[k].ohfi {
        SameId(cur, o, cur[k]);
      }
    }
  }

  /** Unlinking the subtree of a child, as seen from the object before it, keeps the account right. */
  lemma UnlinkChild(nodes: seq<CmaObject>, ohfi: nat, gone: set<nat>, cur: seq<CmaObject>, k: nat, d: set<nat>)
    requires Ordered(nodes) && Ordered(cur) && Unlinked(nodes, ohfi, gone)
    requires forall p :: p in nodes && p.ohfi !in gone ==> p in cur
    requires forall p :: p in cur ==> p in nodes
    requires 1 <= k < |cur| && cur[k].ohfiParent == ohfi
    requires IsSubtree(cur[k - 1..], cur[k].ohfi, d) && forall x :: x in d ==> cur[k].ohfi <= x
    ensures Unlinked(nodes, ohfi, gone + d)
  {
    ParentBelow(cur, cur[k]);
    forall o | o in nodes
      ensures o.ohfiParent in gone + d ==> o.ohfi in gone + d
      ensures o.ohfi in gone + d ==> o.ohfiParent == ohfi || o.ohfiParent in gone + d
    {
      UnlinkOne(nodes, ohfi, gone, cur, k, d, o);
    }
    forall x | x in gone + d
      ensures HasId(nodes, x)
    {
      if x !in gone {
        Grounded(nodes, cur, k, d, x);
      }
    }
  }

  lemma Grounded(nodes: seq<CmaObject>, cur: seq<CmaObject>, k: nat, d: set<nat>, x: nat)
    requires forall p :: p in cur ==> p in nodes
    requires 1 <= k < |cur| && IsSubtree(cur[k - 1..], cur[k].ohfi, d) && x in d
    ensures HasId(nodes, x)
  {
    if x == cur[k].ohfi {
      assert cur[k] in nodes;
    } else {
      assert HasId(cur[k - 1..], x);
      var o :| o in cur[k - 1..] && o.ohfi == x;
      assert o in nodes;
    }
  }

  /** Only the tail from just before the child changes. */
  lemma KeepTail(nodes: seq<CmaObject>, gone: set<nat>, cur: seq<CmaObject>, k: nat, d: set<nat>)
    requires cur == Keep(nodes, gone) && Ordered(cur) && 1 <= k < |cur|
    requires cur[k].ohfi in d && forall x :: x in d ==> cur[k].ohfi <= x
    ensures Keep(nodes, gone + d) == cur[..k - 1] + Keep(cur[k - 1..], d)
    ensures |Keep(nodes, gone + d)| < |cur|
    ensures Keep(cur[k - 1..], d) != [] && Keep(cur[k - 1..], d)[0] == cur[k - 1]
  {
    var seg := cur[k - 1..];
    KeepTwice(nodes, gone, d);
    assert cur == cur[..k - 1] + seg;
    KeepConcat(cur[..k - 1], seg, d);
    KeepAll(cur[..k - 1], d);
    assert seg == [seg[0]] + seg[1..];
    KeepConcat([seg[0]], seg[1..], d);
    KeepAll([seg[0]], d);
    KeepShorter(cur, d, k);
  }

  /** A tail of an ordered list is a list of its own, apart from what comes before it. */
  lemma TailLinked(cur: seq<CmaObject>, k: nat)
    requires Ordered(cur) && Linked(cur) && k < |cur|
    ensures Linked(cur[k..])
    ensures forall i {:trigger cur[i]} :: 0 <= i < k ==> cur[i] !in cur[k..]
    ensures forall i {:trigger cur[i].next} :: 0 <= i < k ==> cur[i].next == cur[i + 1]
  {
    var s := cur[k..];
    forall i | 0 <= i < |s|
      ensures s[i].next == if i + 1 < |s| then s[i + 1] else null
    {
      assert s[i] == cur[k + i];
      assert cur[k + i].next == if k + i + 1 < |cur| then cur[k + i + 1] else null;
    }
  }

  /** Relinking around a shorter tail. */
  lemma RelinkTail(cur: seq<CmaObject>, k: nat, tail: seq<CmaObject>)
    requires k < |cur|
    requires tail != [] && tail[0] == cur[k]
    requires forall i {:trigger cur[i].next} :: 0 <= i < k ==> cur[i].next == cur[i + 1]
    requires Linked(tail)
    ensures Linked(cur[..k] + tail)
  {
    var r := cur[..k] + tail;
    forall i | 0 <= i < |r|
      ensures r[i].next == if i + 1 < |r| then r[i + 1] else null
    {
      if i >= k {
        var j := i - k;
        assert r[i] == tail[j];
        assert tail[j].next == if j + 1 < |tail| then tail[j + 1] else null;
        assert j + 1 < |tail| ==> r[i + 1] == tail[j + 1];
      } else {
        assert r[i] == cur[i];
        assert cur[i].next == cur[i + 1];
        assert r[i + 1] == cur[i + 1];
      }
    }
  }

  lemma KeepBut(cur: seq<CmaObject>, t: nat)
    requires Ordered(cur) && t < |cur|
    ensures Keep(cur, {cur[t].ohfi}) == cur[..t] + cur[t + 1..]
  {
    var d := {cur[t].ohfi};
    assert cur == cur[..t] + [cur[t]] + cur[t + 1..];
    KeepConcat(cur[..t] + [cur[t]], cur[t + 1..], d);
    KeepConcat(cur[..t], [cur[t]], d);
    KeepAll(cur[..t], d);
    KeepNone([cur[t]], d);
    KeepAll(cur[t + 1..], d);
  }

  /** The walk is at position `k` of the list `cur`, `gone` having been unlinked from `nodes`;
      the object to remove is at position `t`, and no child of it is left before `k`. */
  ghost predicate Walking(nodes: seq<CmaObject>, t: nat, cur: seq<CmaObject>, k: nat, gone: set<nat>) {
    && t < |nodes| && Ordered(nodes)
    && cur == Keep(nodes, gone) && Ordered(cur)
    && Unlinked(nodes, nodes[t].ohfi, gone)
    && t < |cur| && cur[..t + 1] == nodes[..t + 1]
    && k <= |cur| && forall i :: 0 <= i < k ==> cur[i].ohfiParent != nodes[t].ohfi
  }

  lemma WalkStarts(nodes: seq<CmaObject>, t: nat)
    requires Ordered(nodes) && t < |nodes|
    ensures Walking(nodes, t, nodes, 0, {})
  {
    KeepAll(nodes, {});
  }

  /** A child of the target lies behind the target. */
  lemma ChildBehind(nodes: seq<CmaObject>, t: nat, cur: seq<CmaObject>, k: nat, gone: set<nat>)
    requires Walking(nodes, t, cur, k, gone)
    requires k < |cur| && cur[k].ohfiParent == nodes[t].ohfi
    ensures t < k && Ordered(cur[k - 1..]) && cur[t] == nodes[t]
  {
    assert cur[t] == nodes[t];
    ParentBelow(cur, cur[k]);
  }

  /** Removing a child's subtree keeps the walk going, from the object before the child. */
  lemma WalkUnlinks(nodes: seq<CmaObject>, t: nat, cur: seq<CmaObject>, k: nat, gone: set<nat>, d: set<nat>)
    requires Walking(nodes, t, cur, k, gone)
    requires t < k < |cur| && cur[k].ohfiParent == nodes[t].ohfi
    requires Ordered(cur[k - 1..]) && d == Subtree(cur[k - 1..], cur[k].ohfi)
    ensures Keep(cur[k - 1..], d) != [] && Keep(cur[k - 1..], d)[0] == cur[k - 1]
    ensures |cur[..k - 1] + Keep(cur[k - 1..], d)| < |cur|
    ensures Walking(nodes, t, cur[..k - 1] + Keep(cur[k - 1..], d), k, gone + d)
  {
    var seg := cur[k - 1..];
    SubtreeIsSubtree(seg, cur[k].ohfi);
    assert Unlinked(nodes, nodes[t].ohfi, gone + d) by {
      KeepMembers(nodes, gone);
      UnlinkChild(nodes, nodes[t].ohfi, gone, cur, k, d);
    }
    KeepTail(nodes, gone, cur, k, d);
    KeepOrdered(nodes, gone + d);
    SamePrefix(cur, k, Keep(seg, d), t);
  }

  lemma SamePrefix(cur: seq<CmaObject>, k: nat, tail: seq<CmaObject>, t: nat)
    requires 1 <= k < |cur| && t < k && tail != [] && tail[0] == cur[k - 1]
    ensures (cur[..k - 1] + tail)[..k] == cur[..k]
    ensures (cur[..k - 1] + tail)[..t + 1] == cur[..t + 1]
  {
  }

  /** The nested call may be made on the tail that starts just before the child. */
  lemma NestedCallAllowed(nodes: seq<CmaObject>, t: nat, cur: seq<CmaObject>, k: nat, gone: set<nat>,
                          seg: seq<CmaObject>)
    requires Walking(nodes, t, cur, k, gone) && Linked(cur) && 1 <= t < k < |cur|
    requires seg == cur[k - 1..]
    ensures Linked(seg) && Ordered(seg) && seg[0] == cur[k - 1] && 1 < |seg| < |nodes| && seg[1] == cur[k]
    ensures forall i {:trigger seg[i]} :: 0 <= i < |seg| ==> seg[i] in nodes
    ensures forall i {:trigger cur[i]} :: 0 <= i < k - 1 ==> cur[i] !in seg
    ensures forall i {:trigger cur[i].next} :: 0 <= i < k - 1 ==> cur[i].next == cur[i + 1]
  {
    hide Keep, Unlinked, Ordered;
    KeepMembers(nodes, gone);
    TailLinked(cur, k - 1);
    TailOrdered(cur, k - 1);
  }

  lemma TailOrdered(s: seq<CmaObject>, k: nat)
    requires Ordered(s) && k < |s|
    ensures Ordered(s[k..]) && forall i {:trigger s[i]} :: 0 <= i < k ==> s[i] !in s[k..]
  {
  }

  /** The walk meets the target at position `t` and nowhere else. */
  lemma AtPosition(nodes: seq<CmaObject>, t: nat, cur: seq<CmaObject>, k: nat, gone: set<nat>)
    requires Walking(nodes, t, cur, k, gone) && k < |cur|
    ensures cur[k].ohfi == nodes[t].ohfi <==> k == t
    ensures k == t && 0 < t ==> cur[k - 1] == nodes[t - 1]
  {
    assert cur[t] == nodes[t];
    assert 0 < t ==> cur[t - 1] == cur[..t + 1][t - 1] == nodes[t - 1];
  }

  lemma WalkAdvances(nodes: seq<CmaObject>, t: nat, cur: seq<CmaObject>, k: nat, gone: set<nat>)
    requires Walking(nodes, t, cur, k, gone) && k < |cur| && cur[k].ohfiParent != nodes[t].ohfi
    ensures Walking(nodes, t, cur, k + 1, gone)
  {
  }

  lemma WalkEnds(nodes: seq<CmaObject>, t: nat, cur: seq<CmaObject>, k: nat, gone: set<nat>)
    requires Walking(nodes, t, cur, k, gone) && k == |cur|
    ensures t < |cur| && Ordered(cur)
    ensures cur[t] == nodes[t] && (0 < t ==> cur[t - 1] == nodes[t - 1])
    ensures cur[..t] + cur[t + 1..] == Keep(nodes, Subtree(nodes, nodes[t].ohfi))
  {
    assert cur[t] == nodes[t];
    assert 0 < t ==> cur[t - 1] == cur[..t + 1][t - 1] == nodes[t - 1];
    UnlinkedIsSubtree(nodes, nodes[t].ohfi, gone);
    KeepTwice(nodes, gone, {nodes[t].ohfi});
    KeepBut(cur, t);
  }

  /** Unlinks the object `ohfi` and all its transitive descendants from the list that runs
      from `start` through `nodes`.  `current` is `*p_object`, and `beforeTarget` is the object
      whose `next_object` field `p_toFree` points to.  Nested calls unlink objects while this
      walk is under way; it resumes from `prev`, which no nested call removes. */
  method RemoveFromDatabase(ohfi: nat, start: CmaObject, ghost nodes: seq<CmaObject>)
    requires Linked(nodes) && Ordered(nodes)
    requires nodes != [] && nodes[0] == start
    requires exists t :: 1 <= t < |nodes| && nodes[t].ohfi == ohfi
    modifies nodes`next
    ensures Linked(Keep(nodes, Subtree(nodes, ohfi)))
    decreases |nodes|, 1
  {
    hide Walking, Ordered, Keep, Subtree, Linked;
    ghost var t :| 1 <= t < |nodes| && nodes[t].ohfi == ohfi;
    ghost var cur, k, gone := nodes, 0, {};
    WalkStarts(nodes, t);
    var prev: CmaObject? := null;
    var current: CmaObject? := start;
    var beforeTarget: CmaObject? := null;
    while current != null
      invariant Walking(nodes, t, cur, k, gone) && k <= |cur|
      invariant Linked(cur)
      invariant current == if k < |cur| then cur[k] else null
      invariant prev == if k > 0 then cur[k - 1] else null
      invariant t < k ==> beforeTarget == nodes[t - 1]
      decreases |cur| - k
    {
      AtPosition(nodes, t, cur, k, gone);
      if current.ohfi == ohfi {
        beforeTarget := prev;
      }
      if current.ohfiParent == ohfi {
        ChildBehind(nodes, t, cur, k, gone);
        assert prev != null;   // so the "Invalid database entry" branch is never taken
        cur, gone := RemoveChild(current.ohfi, prev, nodes, t, cur, k, gone);
        current, k := prev, k - 1;
      } else {
        WalkAdvances(nodes, t, cur, k, gone);
      }
      LinkAt(cur, k);
      prev := current;
      current := current.next;
      k := k + 1;
    }
    WalkEnds(nodes, t, cur, k, gone);
    LinksOf(cur);
    var target := beforeTarget.next;
    beforeTarget.next := target.next;
    LinkPast(cur, t);
  }

  /** The nested call on the child at position `k`, from the object before it. */
  method RemoveChild(ohfi: nat, prev: CmaObject, ghost nodes: seq<CmaObject>, ghost t: nat, ghost cur: seq<CmaObject>,
                     ghost k: nat, ghost gone: set<nat>)
    returns (ghost left: seq<CmaObject>, ghost gone': set<nat>)
    requires Walking(nodes, t, cur, k, gone) && Linked(cur) && 1 <= t < k < |cur|
    requires prev == cur[k - 1] && ohfi == cur[k].ohfi && cur[k].ohfiParent == nodes[t].ohfi
    modifies nodes`next
    ensures Walking(nodes, t, left, k, gone') && Linked(left)
    ensures k <= |left| < |cur| && left[k - 1] == prev
    decreases |nodes|, 0
  {
    hide Walking, Ordered, Keep, Subtree, Linked;
    ghost var seg := cur[k - 1..];
    NestedCallAllowed(nodes, t, cur, k, gone, seg);
    ghost var d := Subtree(seg, ohfi);
    WalkUnlinks(nodes, t, cur, k, gone, d);
    RemoveFromDatabase(ohfi, prev, seg);
    RelinkTail(cur, k - 1, Keep(seg, d));
    left, gone' := cur[..k - 1] + Keep(seg, d), gone + d;
  }

  lemma LinkAt(s: seq<CmaObject>, k: nat)
    requires Linked(s) && k < |s|
    ensures s[k].next == if k + 1 < |s| then s[k + 1] else null
  {
  }

  lemma LinksOf(s: seq<CmaObject>)
    requires Linked(s)
    ensures forall i {:trigger s[i].next} :: 0 <= i < |s| ==> s[i].next == if i + 1 < |s| then s[i + 1] else null
  {
  }

  lemma LinkPast(cur: seq<CmaObject>, t: nat)
    requires Ordered(cur) && 1 <= t < |cur|
    requires forall i {:trigger cur[i].next} :: 0 <= i < |cur| && i != t - 1 ==>
               cur[i].next == if i + 1 < |cur| then cur[i + 1] else null
    requires cur[t - 1].next == if t + 1 < |cur| then cur[t + 1] else null
    ensures Linked(cur[..t] + cur[t + 1..])
  {
    var r := cur[..t] + cur[t + 1..];
    forall i | 0 <= i < |r|
      ensures r[i].next == if i + 1 < |r| then r[i + 1] else null
    {
      var j := if i < t then i else i + 1;
      assert r[i] == cur[j];
      assert cur[j].next == if j == t - 1 then if t + 1 < |cur| then cur[t + 1] else null
                            else if j + 1 < |cur| then cur[j + 1] else null;
    }
  }
}
