/** Folder sizes (src/opencma.c:193-200, src/opencma.c:766-777, src/utilities.c:480-508). */
module Sizes {
  import opened Forest
  import opened Removal
  import opened Entries
  import opened Trees
  import opened Rename

  /** The sizes of the children of `id` among the first `n` entries. */
  function ChildrenSum(v: seq<Entry>, id: nat, n: nat): nat
    requires n <= |v|
  {
    if n == 0 then 0
    else ChildrenSum(v, id, n - 1) + if v[n - 1].ohfiParent == id then v[n - 1].size else 0
  }

  /** What an entry holds by itself: its size without the sizes of its children. */
  function Own(v: seq<Entry>, i: nat): int
    requires i < |v|
  {
    v[i].size - ChildrenSum(v, v[i].ohfi, |v|)
  }

  // ---------- Growing an object and its ancestors ----------

  /** The entries of `s` before and after `m` bytes were added to `s[b]` and its ancestors. */
  ghost predicate Grown(s: seq<CmaObject>, v: seq<Entry>, v': seq<Entry>, b: nat, m: nat)
    requires b < |s|
  {
    && |s| == |v| == |v'|
    && forall j {:trigger v[j]} {:trigger v'[j]} :: 0 <= j < |s| ==>
         && v[j].ohfi == v'[j].ohfi == s[j].ohfi && v[j].ohfiParent == v'[j].ohfiParent == s[j].ohfiParent
         && v'[j].size == v[j].size + if Above(s, s[j], s[b]) then m else 0
  }

  /** Whether some child of `s[i]` among the first `n` objects is above `s[b]`. */
  ghost predicate ChildAbove(s: seq<CmaObject>, i: nat, b: nat, n: nat)
    requires i < |s| && b < |s| && n <= |s|
  {
    exists j :: 0 <= j < n && s[j].ohfiParent == s[i].ohfi && Above(s, s[j], s[b])
  }

  /** When an object and its ancestors grow, at most one child of `s[i]` does. */
  lemma {:induction false} GrownChildren(s: seq<CmaObject>, v: seq<Entry>, v': seq<Entry>, i: nat, b: nat, m: nat,
                                         n: nat)
    requires Ordered(s) && i < |s| && b < |s| && n <= |s| && Grown(s, v, v', b, m)
    ensures ChildrenSum(v', s[i].ohfi, n) == ChildrenSum(v, s[i].ohfi, n) + if ChildAbove(s, i, b, n) then m else 0
  {
    if n > 0 {
      GrownChildren(s, v, v', i, b, m, n - 1);
      if s[n - 1].ohfiParent == s[i].ohfi && Above(s, s[n - 1], s[b]) {
        forall j | 0 <= j < n - 1 && s[j].ohfiParent == s[i].ohfi
          ensures !Above(s, s[j], s[b])
        {
          SiblingsDisjoint(s, s[j], s[n - 1], s[b]);
        }
      }
      assert ChildAbove(s, i, b, n) <==>
             ChildAbove(s, i, b, n - 1) || (s[n - 1].ohfiParent == s[i].ohfi && Above(s, s[n - 1], s[b]));
    }
  }

  /** The path up to `s[i]` passes through a child of `s[i]`, unless it starts there. */
  lemma {:induction false} PathThroughChild(s: seq<CmaObject>, i: nat, b: nat)
    requires Ordered(s) && i < |s| && b < |s|
    ensures ChildAbove(s, i, b, |s|) <==> i != b && Above(s, s[i], s[b])
    decreases b
  {
    forall j | 0 <= j < |s| && s[j].ohfiParent == s[i].ohfi && Above(s, s[j], s[b])
      ensures i != b && Above(s, s[i], s[b])
    {
      assert s[j] in s && s[i] in s;
      ParentBelow(s, s[j]);
      AboveIndex(s, j, b);
      UnderChild(s, i, j, b);
    }
    if i != b && Above(s, s[i], s[b]) {
      AboveIndex(s, i, b);
      AboveIndex(s, b, b);
      var p := ParentIndex(s, b);
      if p == i {
        assert s[b].ohfiParent == s[i].ohfi && Above(s, s[b], s[b]);
      } else {
        PathThroughChild(s, i, p);
        var j :| 0 <= j < |s| && s[j].ohfiParent == s[i].ohfi && Above(s, s[j], s[p]);
        AboveIndex(s, j, p);
        AboveIndex(s, j, b);
      }
    }
  }

  /** What is below a child is below its parent. */
  lemma {:induction false} UnderChild(s: seq<CmaObject>, i: nat, j: nat, b: nat)
    requires Ordered(s) && i < |s| && b < |s| && j < |s| && s[j].ohfiParent == s[i].ohfi && Above(s, s[j], s[b])
    ensures Above(s, s[i], s[b])
    decreases b
  {
    SubtreeIsSubtree(s, s[i].ohfi);
    SubtreeIsSubtree(s, s[j].ohfi);
    assert s[j] in s && s[b] in s;
    AboveIndex(s, j, b);
    if j < b {
      UnderChild(s, i, j, ParentIndex(s, b));
    }
  }

  /** Bytes received into an object change what that object holds by itself, and nothing else:
      every folder still is as large as its contents and what it had from the start. */
  lemma IncrementKeepsOwn(s: seq<CmaObject>, v: seq<Entry>, v': seq<Entry>, b: nat, m: nat, i: nat)
    requires Ordered(s) && b < |s| && i < |s| && Grown(s, v, v', b, m)
    ensures Own(v', i) == Own(v, i) + if i == b then m else 0
  {
    GrownChildren(s, v, v', i, b, m, |s|);
    PathThroughChild(s, i, b);
    if i == b {
      AboveIndex(s, i, i);
    }
  }

  // ---------- Adding entries ----------

  lemma {:induction false} ChildrenSumPrefix(v: seq<Entry>, w: seq<Entry>, id: nat, n: nat)
    requires n <= |v| && n <= |w| && v[..n] == w[..n]
    ensures ChildrenSum(v, id, n) == ChildrenSum(w, id, n)
  {
    if n > 0 {
      assert v[n - 1] == v[..n][n - 1] == w[..n][n - 1] == w[n - 1];
      assert v[..n - 1] == v[..n][..n - 1] == w[..n][..n - 1] == w[..n - 1];
      ChildrenSumPrefix(v, w, id, n - 1);
    }
  }

  lemma {:induction false} ChildrenSumConcat(v: seq<Entry>, w: seq<Entry>, id: nat, n: nat)
    requires n <= |w|
    ensures ChildrenSum(v + w, id, |v| + n) == ChildrenSum(v, id, |v|) + ChildrenSum(w, id, n)
  {
    if n == 0 {
      ChildrenSumPrefix(v + w, v, id, |v|);
    } else {
      ChildrenSumConcat(v, w, id, n - 1);
      assert (v + w)[|v| + n - 1] == w[n - 1];
    }
  }

  lemma {:induction false} NoChildren(v: seq<Entry>, id: nat, n: nat)
    requires n <= |v| && forall j :: 0 <= j < n ==> v[j].ohfiParent != id
    ensures ChildrenSum(v, id, n) == 0
  {
    if n > 0 {
      NoChildren(v, id, n - 1);
    }
  }

  /** An empty new entry leaves every balance as it was, and holds nothing by itself. */
  lemma CreateKeepsOwn(v: seq<Entry>, e: Entry, i: nat)
    requires e.size == 0 && e.ohfiParent != e.ohfi && i <= |v|
    requires forall j {:trigger v[j]} :: 0 <= j < |v| ==> v[j].ohfiParent != e.ohfi
    ensures Own(v + [e], i) == if i < |v| then Own(v, i) else 0
  {
    OwnConcat(v, [e], i);
    SingleSum(e, if i < |v| then v[i].ohfi else e.ohfi);
    NoChildren(v, e.ohfi, |v|);
  }

  /** The own sizes of a tree's nodes, in preorder. */
  function Owns(t: Tree): seq<nat>
    decreases t, 0
  {
    [t.own] + OwnsUpTo(t.children, |t.children|)
  }

  function OwnsUpTo(ts: seq<Tree>, n: nat): seq<nat>
    requires n <= |ts|
    decreases ts, n
  {
    if n == 0 then [] else OwnsUpTo(ts, n - 1) + Owns(ts[n - 1])
  }

  lemma OwnConcat(a: seq<Entry>, b: seq<Entry>, i: nat)
    requires i < |a| + |b|
    ensures i < |a| ==> Own(a + b, i) == Own(a, i) - ChildrenSum(b, a[i].ohfi, |b|)
    ensures |a| <= i ==> Own(a + b, i) == Own(b, i - |a|) - ChildrenSum(a, b[i - |a|].ohfi, |a|)
  {
    hide ChildrenSum;
    var e := if i < |a| then a[i] else b[i - |a|];
    ChildrenSumConcat(a, b, e.ohfi, |b|);
    assert (a + b)[i] == e;
  }

  lemma SingleSum(e: Entry, x: nat)
    ensures ChildrenSum([e], x, 1) == if e.ohfiParent == x then e.size else 0
  {
    assert ChildrenSum([e], x, 0) == 0;
  }

  /** The only parent outside a scanned tree is the place the tree hangs from. */
  lemma {:induction false} TreeOutside(t: Tree, at: Place, id: nat, x: nat)
    requires at.ohfi < id && (x < id || id + NodeCount(t) <= x)
    ensures |Preorder(t, at, id)| == NodeCount(t)
    ensures ChildrenSum(Preorder(t, at, id), x, NodeCount(t)) == if x == at.ohfi then Total(t) else 0
    decreases t, 0
  {
    var e := EntryOf(t, at, id);
    var rest := PreorderUpTo(t.children, |t.children|, PlaceOf(e), id + 1);
    ForestOutside(t.children, |t.children|, PlaceOf(e), id + 1, x);
    SingleSum(e, x);
    ChildrenSumConcat([e], rest, x, |rest|);
  }

  lemma {:induction false} ForestOutside(ts: seq<Tree>, n: nat, at: Place, id: nat, x: nat)
    requires n <= |ts| && at.ohfi < id && (x < id || id + NodeCountUpTo(ts, n) <= x)
    ensures |PreorderUpTo(ts, n, at, id)| == NodeCountUpTo(ts, n)
    ensures ChildrenSum(PreorderUpTo(ts, n, at, id), x, NodeCountUpTo(ts, n)) ==
            if x == at.ohfi then TotalUpTo(ts, n) else 0
    decreases ts, n
  {
    if n > 0 {
      var before, last := PreorderUpTo(ts, n - 1, at, id), Preorder(ts[n - 1], at, id + NodeCountUpTo(ts, n - 1));
      ForestOutside(ts, n - 1, at, id, x);
      TreeOutside(ts[n - 1], at, id + NodeCountUpTo(ts, n - 1), x);
      ChildrenSumConcat(before, last, x, |last|);
    }
  }

  /** Every entry of a scanned tree is as large as its children and its own initial size. */
  lemma {:induction false} TreeBalance(t: Tree, at: Place, id: nat, j: nat)
    requires at.ohfi < id && j < NodeCount(t)
    ensures |Preorder(t, at, id)| == |Owns(t)| == NodeCount(t)
    ensures Own(Preorder(t, at, id), j) == Owns(t)[j]
    decreases t, 0
  {
    hide Own, ChildrenSum;
    var e := EntryOf(t, at, id);
    var rest := PreorderUpTo(t.children, |t.children|, PlaceOf(e), id + 1);
    PreorderUpToIds(t.children, |t.children|, PlaceOf(e), id + 1);
    RootBalance(t, at, id);
    if j > 0 {
      ForestBalance(t.children, |t.children|, PlaceOf(e), id + 1, j - 1);
      OwnConcat([e], rest, j);
      RootNotBelow(t, at, id, id + j);
    } else {
      OwnsLength(t.children, |t.children|);
    }
  }

  lemma {:induction false} OwnsLength(ts: seq<Tree>, n: nat)
    requires n <= |ts|
    ensures |OwnsUpTo(ts, n)| == NodeCountUpTo(ts, n)
    decreases ts, n
  {
    hide Owns, NodeCount;
    if n > 0 {
      OwnsLength(ts, n - 1);
      OwnsOfTree(ts[n - 1]);
    }
  }

  lemma {:induction false} OwnsOfTree(t: Tree)
    ensures |Owns(t)| == NodeCount(t)
    decreases t, 0
  {
    hide OwnsUpTo, NodeCountUpTo;
    OwnsLength(t.children, |t.children|);
  }

  lemma RootNotBelow(t: Tree, at: Place, id: nat, x: nat)
    requires at.ohfi < id < x
    ensures ChildrenSum([EntryOf(t, at, id)], x, 1) == 0
  {
    SingleSum(EntryOf(t, at, id), x);
  }

  lemma RootBalance(t: Tree, at: Place, id: nat)
    requires at.ohfi < id
    ensures Own(Preorder(t, at, id), 0) == t.own
  {
    var e := EntryOf(t, at, id);
    var rest := PreorderUpTo(t.children, |t.children|, PlaceOf(e), id + 1);
    ForestOutside(t.children, |t.children|, PlaceOf(e), id + 1, id);
    SingleSum(e, id);
    OwnConcat([e], rest, 0);
  }

  lemma {:induction false} ForestBalance(ts: seq<Tree>, n: nat, at: Place, id: nat, j: nat)
    requires n <= |ts| && at.ohfi < id && j < NodeCountUpTo(ts, n)
    ensures |PreorderUpTo(ts, n, at, id)| == |OwnsUpTo(ts, n)| == NodeCountUpTo(ts, n)
    ensures Own(PreorderUpTo(ts, n, at, id), j) == OwnsUpTo(ts, n)[j]
    decreases ts, n
  {
    hide Own, ChildrenSum, PreorderUpTo, OwnsUpTo, NodeCountUpTo, Preorder, Owns, NodeCount, EntryOf;
    LastTree(ts, n, at, id);
    var k := NodeCountUpTo(ts, n - 1);
    var before, last := PreorderUpTo(ts, n - 1, at, id), Preorder(ts[n - 1], at, id + k);
    PreorderUpToIds(ts, n - 1, at, id);
    PreorderIds(ts[n - 1], at, id + k);
    OwnsLength(ts, n - 1);
    OwnsOfTree(ts[n - 1]);
    OwnConcat(before, last, j);
    if j < k {
      ForestBalance(ts, n - 1, at, id, j);
      TreeOutside(ts[n - 1], at, id + k, id + j);
    } else {
      TreeBalance(ts[n - 1], at, id + k, j - k);
      ForestOutside(ts, n - 1, at, id, id + j);
    }
  }

  /** The last tree of a forest, and those before it. */
  lemma LastTree(ts: seq<Tree>, n: nat, at: Place, id: nat)
    requires n <= |ts|
    ensures n == 0 ==> NodeCountUpTo(ts, n) == 0
    ensures n > 0 ==>
              && NodeCountUpTo(ts, n) == NodeCountUpTo(ts, n - 1) + NodeCount(ts[n - 1])
              && OwnsUpTo(ts, n) == OwnsUpTo(ts, n - 1) + Owns(ts[n - 1])
              && PreorderUpTo(ts, n, at, id) ==
                 PreorderUpTo(ts, n - 1, at, id) + Preorder(ts[n - 1], at, id + NodeCountUpTo(ts, n - 1))
  {
    hide NodeCount, Owns, Preorder;
  }

  function Bigger(v: seq<Entry>, m: nat): (w: seq<Entry>)
    requires v != []
    ensures |w| == |v| && w[0] == v[0].(size := v[0].size + m) && forall i :: 0 < i < |v| ==> w[i] == v[i]
  {
    [v[0].(size := v[0].size + m)] + v[1..]
  }

  /** After the scan of a category: what each older entry holds by itself is unchanged, although the root
      grew by what was found; a new entry holds by itself just what stat reported for it. */
  lemma ScanKeepsOwn(v: seq<Entry>, ts: seq<Tree>, id: nat, i: nat)
    requires v != []
    requires forall j {:trigger v[j]} :: 0 <= j < |v| ==> 0 < v[j].ohfi < id && v[j].ohfiParent < id
    requires v[0].ohfiParent == 0 && forall j {:trigger v[j]} :: 0 < j < |v| ==> v[j].ohfi != v[0].ohfi
    requires i < |v| + NodeCountUpTo(ts, |ts|)
    ensures var after := Bigger(v, TotalUpTo(ts, |ts|)) + PreorderUpTo(ts, |ts|, PlaceOf(v[0]), id);
            && |after| == |v| + |OwnsUpTo(ts, |ts|)| == |v| + NodeCountUpTo(ts, |ts|)
            && Own(after, i) == if i < |v| then Own(v, i) else OwnsUpTo(ts, |ts|)[i - |v|]
  {
    hide PreorderUpTo, OwnsUpTo, NodeCountUpTo, TotalUpTo;
    var w := Bigger(v, TotalUpTo(ts, |ts|));
    var added := PreorderUpTo(ts, |ts|, PlaceOf(v[0]), id);
    PreorderUpToIds(ts, |ts|, PlaceOf(v[0]), id);
    OwnsLength(ts, |ts|);
    OwnConcat(w, added, i);
    if i < |v| {
      ForestOutside(ts, |ts|, PlaceOf(v[0]), id, v[i].ohfi);
      GrownAt(v, TotalUpTo(ts, |ts|), v[i].ohfi, |v|);
    } else {
      ForestBalance(ts, |ts|, PlaceOf(v[0]), id, i - |v|);
      NoChildren(w, added[i - |v|].ohfi, |v|);
    }
  }

  lemma {:induction false} GrownAt(v: seq<Entry>, m: nat, x: nat, n: nat)
    requires v != [] && n <= |v|
    ensures ChildrenSum(Bigger(v, m), x, n) ==
            ChildrenSum(v, x, n) + if 0 < n && v[0].ohfiParent == x then m else 0
  {
    if n > 0 {
      GrownAt(v, m, x, n - 1);
    }
  }

  /** After a tree has been received under `s[b]`, whose ancestors have grown by all of it: nothing older
      holds more or less by itself, and the new entries hold what they brought. */
  lemma ReceiveKeepsOwn(s: seq<CmaObject>, v: seq<Entry>, v': seq<Entry>, b: nat, t: Tree, at: Place, id: nat, i: nat)
    requires Ordered(s) && b < |s| && Grown(s, v, v', b, Total(t)) && at.ohfi == s[b].ohfi
    requires forall j {:trigger s[j]} :: 0 <= j < |s| ==> s[j].ohfi < id && s[j].ohfiParent < id
    requires i < |s| + NodeCount(t)
    ensures |Preorder(t, at, id)| == |Owns(t)| == NodeCount(t)
    ensures Own(v' + Preorder(t, at, id), i) == if i < |s| then Own(v, i) else Owns(t)[i - |s|]
  {
    hide Preorder, Owns, Total, Own, ChildrenSum, Above;
    var added := Preorder(t, at, id);
    PreorderIds(t, at, id);
    OwnsLength([t], 1);
    TreeBalance(t, at, id, if i < |s| then 0 else i - |s|);
    OwnConcat(v', added, i);
    if i < |s| {
      TreeOutside(t, at, id, s[i].ohfi);
      IncrementKeepsOwn(s, v, v', b, Total(t), i);
      assert s[i].ohfi == s[b].ohfi ==> i == b;
    } else {
      NoChildren(v', added[i - |s|].ohfi, |v'|);
    }
  }

  // ---------- Removing a subtree ----------

  lemma {:induction false} ChildrenSumKept(s: seq<CmaObject>, top: nat, d: set<nat>, k: nat, x: nat, n: nat)
    requires Ordered(s) && n <= |s| && d == Subtree(s, top) && x !in d && k < |s| && s[k].ohfi == top
    ensures var kept := Views(KeepUpTo(s, d, n));
            ChildrenSum(Views(s), x, n) ==
            ChildrenSum(kept, x, |kept|) + if k < n && s[k].ohfiParent == x then s[k].size else 0
  {
    hide Subtree, ChildrenSum, Ordered, Views;
    if n > 0 {
      ChildrenSumKept(s, top, d, k, x, n - 1);
      var o := s[n - 1];
      var kept := Views(KeepUpTo(s, d, n - 1));
      GoneChild(s, top, d, k, x, n - 1);
      NextChild(Views(s), x, n);
      if o.ohfi !in d {
        ViewsConcat(KeepUpTo(s, d, n - 1), [o]);
        ViewsOne(o);
        ChildrenSumConcat(kept, [View(o)], x, 1);
        SingleSum(View(o), x);
      }
    } else {
      NoChildren(Views(s), x, 0);
      NoChildren(Views([]), x, 0);
    }
  }

  lemma NextChild(v: seq<Entry>, x: nat, n: nat)
    requires 0 < n <= |v|
    ensures ChildrenSum(v, x, n) == ChildrenSum(v, x, n - 1) + if v[n - 1].ohfiParent == x then v[n - 1].size else 0
  {
  }

  /** Of all that goes, only the top has a parent that stays. */
  lemma GoneChild(s: seq<CmaObject>, top: nat, d: set<nat>, k: nat, x: nat, i: nat)
    requires Ordered(s) && i < |s| && d == Subtree(s, top) && x !in d && k < |s| && s[k].ohfi == top
    ensures s[i].ohfi in d && s[i].ohfiParent == x ==> i == k
    ensures i == k ==> s[i].ohfi in d
  {
    SubtreeIsSubtree(s, top);
    assert s[i] in s;
    if s[i].ohfi == top {
      SameId(s, s[i], s[k]);
    }
  }

  lemma ViewsOne(o: CmaObject)
    ensures Views([o]) == [View(o)]
  {
    assert [o][..0] == [];
  }

  /** Deleting an entry leaves the sizes above it as they were: of all that remains, exactly the entry's
      parent is out of balance, by the size of what was deleted. */
  lemma DeleteUnbalancesParent(s: seq<CmaObject>, k: nat, i: nat, j: nat)
    requires Ordered(s) && k < |s| && j < |s|
    requires s[j].ohfi !in Subtree(s, s[k].ohfi)
    requires i < |Keep(s, Subtree(s, s[k].ohfi))| && Keep(s, Subtree(s, s[k].ohfi))[i] == s[j]
    ensures Own(Views(Keep(s, Subtree(s, s[k].ohfi))), i) ==
            Own(Views(s), j) + if s[j].ohfi == s[k].ohfiParent then s[k].size else 0
  {
    ChildrenSumKept(s, s[k].ohfi, Subtree(s, s[k].ohfi), k, s[j].ohfi, |s|);
  }
}
