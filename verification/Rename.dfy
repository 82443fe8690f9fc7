/** Renaming an entry: renameRootEntry (src/database.c:367-403) and the rename command
    (src/opencma.c:698-726). */
module Rename {
  import opened Forest
  import opened Removal
  import opened Entries
  import opened Trees
  import opened Strings

  /** What happens to an object, given its entry before, and the old and new relative path of its
      parent: strreplace is given the old and the new path of the object itself. */
  function Moved(e: Entry, oldRel: string, newRel: string): Entry
    requires e.relPath.Some?
  {
    Replace(e, oldRel + "/" + e.name, newRel + "/" + e.name)
  }

  /** One call of renameRootEntry on one object: `find` becomes `repl` in its name and relative path,
      and the old relative path becomes the new one in its full path. */
  function Replace(e: Entry, find: string, repl: string): Entry
    requires e.relPath.Some?
  {
    var rel := StrReplace(e.relPath.value, find, repl);
    e.(name := StrReplace(e.name, find, repl), relPath := Some(rel), path := StrReplace(e.path, e.relPath.value, rel))
  }

  /** The objects below two different children of one parent are different. */
  lemma {:induction false} SiblingsDisjoint(s: seq<CmaObject>, a: CmaObject, b: CmaObject, o: CmaObject)
    requires Ordered(s) && a in s && b in s && o in s
    requires a.ohfiParent == b.ohfiParent && a.ohfi < b.ohfi
    ensures !(Above(s, a, o) && Above(s, b, o))
    decreases o.ohfi
  {
    SubtreeIsSubtree(s, a.ohfi);
    SubtreeIsSubtree(s, b.ohfi);
    ParentBelow(s, a);
    if o.ohfi != a.ohfi && o.ohfi != b.ohfi && o.ohfiParent in Subtree(s, a.ohfi) {
      assert o.ohfiParent != a.ohfi ==> HasId(s, o.ohfiParent);
      var p :| p in s && p.ohfi == o.ohfiParent;
      ParentBelow(s, o);
      SiblingsDisjoint(s, a, b, p);
    }
  }

  // ---------- The outcome, computed in list order ----------

  ghost function ParentIndex(s: seq<CmaObject>, i: nat): (p: nat)
    requires Ordered(s) && i < |s| && HasId(s, s[i].ohfiParent)
    ensures p < i && s[p].ohfi == s[i].ohfiParent
  {
    var o :| o in s && o.ohfi == s[i].ohfiParent;
    var p :| 0 <= p < |s| && s[p] == o;
    p
  }

  ghost predicate AllNamed(v: seq<Entry>) {
    forall i :: 0 <= i < |v| ==> v[i].relPath.Some?
  }

  /** The entry of `s[i]` after the call on `s[0]`, `v` being the entries before it. */
  ghost function After(s: seq<CmaObject>, v: seq<Entry>, find: string, repl: string, i: nat): (e: Entry)
    requires Ordered(s) && |v| == |s| && AllNamed(v) && i < |s|
    ensures e.relPath.Some?
    decreases i
  {
    if i == 0 then
      Replace(v[0], find, repl)
    else if HasId(s, s[i].ohfiParent) && Above(s, s[0], s[i]) then
      var p := ParentIndex(s, i);
      Moved(v[i], v[p].relPath.value, After(s, v, find, repl, p).relPath.value)
    else
      v[i]
  }

  /** `s[i]` is below a child of `s[0]` that lies before position `k`. */
  ghost predicate Reached(s: seq<CmaObject>, k: nat, i: nat)
    requires k <= |s| && i < |s|
  {
    exists j :: 0 <= j < k && s[j].ohfiParent == s[0].ohfi && Above(s, s[j], s[i])
  }

  lemma AboveIndex(s: seq<CmaObject>, j: nat, i: nat)
    requires Ordered(s) && i < |s| && j < |s|
    ensures Above(s, s[j], s[i]) ==> j <= i
    ensures Above(s, s[j], s[j])
    ensures j < i && Above(s, s[j], s[i]) ==> HasId(s, s[i].ohfiParent)
    ensures j < i && HasId(s, s[i].ohfiParent) ==> (Above(s, s[j], s[i]) <==> Above(s, s[j], s[ParentIndex(s, i)]))
  {
    SubtreeIsSubtree(s, s[j].ohfi);
    assert s[j] in s && s[i] in s;
    if j < i && Above(s, s[j], s[i]) {
      if s[i].ohfiParent == s[j].ohfi {
        assert HasId(s, s[i].ohfiParent);
      } else {
        assert HasId(s, s[i].ohfiParent);
      }
    }
  }

  /** Going over a child reaches the objects below it, none of which was reached before. */
  lemma ReachedStep(s: seq<CmaObject>, k: nat, i: nat)
    requires Ordered(s) && 0 < k < |s| && i < |s|
    ensures s[k].ohfiParent == s[0].ohfi ==>
              (Reached(s, k + 1, i) <==> Reached(s, k, i) || Above(s, s[k], s[i]))
              && !(Reached(s, k, i) && Above(s, s[k], s[i]))
    ensures s[k].ohfiParent != s[0].ohfi ==> (Reached(s, k + 1, i) <==> Reached(s, k, i))
  {
    if s[k].ohfiParent == s[0].ohfi {
      forall j | 0 <= j < k && s[j].ohfiParent == s[0].ohfi
        ensures !(Above(s, s[j], s[i]) && Above(s, s[k], s[i]))
      {
        SiblingsDisjoint(s, s[j], s[k], s[i]);
      }
    }
  }

  /** In the end, the objects reached are those below `s[0]`. */
  lemma {:induction false} ReachedAll(s: seq<CmaObject>, i: nat)
    requires Ordered(s) && i < |s|
    ensures Reached(s, |s|, i) <==> i != 0 && Above(s, s[0], s[i])
    decreases i
  {
    forall j | 0 <= j < |s| && s[j].ohfiParent == s[0].ohfi && Above(s, s[j], s[i])
      ensures i != 0 && Above(s, s[0], s[i])
    {
      ParentBelow(s, s[j]);
      ChildBelow(s, j, i);
      AboveIndex(s, j, i);
    }
    if i != 0 && Above(s, s[0], s[i]) {
      AboveIndex(s, 0, i);
      AboveIndex(s, i, i);
      var p := ParentIndex(s, i);
      if p == 0 {
        assert s[i].ohfiParent == s[0].ohfi && Above(s, s[i], s[i]);
      } else {
        ReachedAll(s, p);
        var j :| 0 <= j < |s| && s[j].ohfiParent == s[0].ohfi && Above(s, s[j], s[p]);
        AboveIndex(s, j, p);
        AboveIndex(s, j, i);
      }
    }
  }

  /** What is below a child of `s[0]` is below `s[0]`. */
  lemma {:induction false} ChildBelow(s: seq<CmaObject>, j: nat, i: nat)
    requires Ordered(s) && i < |s| && j < |s| && s[j].ohfiParent == s[0].ohfi && Above(s, s[j], s[i])
    ensures Above(s, s[0], s[i])
    decreases i
  {
    SubtreeIsSubtree(s, s[0].ohfi);
    SubtreeIsSubtree(s, s[j].ohfi);
    assert s[j] in s && s[i] in s;
    AboveIndex(s, j, i);
    if j < i {
      ChildBelow(s, j, ParentIndex(s, i));
    }
  }

  /** The nested call on the child `s[k]` does to what is below it what the whole call promises. */
  lemma {:induction false} AfterNested(s: seq<CmaObject>, v: seq<Entry>, v1: seq<Entry>, find: string, repl: string,
                                       k: nat, i: nat)
    requires Ordered(s) && |v| == |v1| == |s| && AllNamed(v) && AllNamed(v1)
    requires 0 < k <= i < |s| && s[k].ohfiParent == s[0].ohfi
    requires forall j :: k <= j < |s| && Above(s, s[k], s[j]) ==> v1[j] == v[j]
    ensures Ordered(s[k..]) && AllNamed(v1[k..])
    ensures var old_, new_ := v[0].relPath.value, Replace(v[0], find, repl).relPath.value;
            After(s[k..], v1[k..], old_ + "/" + v[k].name, new_ + "/" + v[k].name, i - k) ==
            if Above(s, s[k], s[i]) then After(s, v, find, repl, i) else v1[i]
    decreases i
  {
    hide Subtree, Above, StrReplace, HasId, Moved, After;
    SegmentFacts(s, k, i);
    SegmentFacts(s, k, k);
    if i == k {
      ChildOfFirst(s, k);
      AfterBelow(s, v, find, repl, k);
      AfterTop(s, v, find, repl);
      AfterTop(s[k..], v1[k..], v[0].relPath.value + "/" + v[k].name,
               Replace(v[0], find, repl).relPath.value + "/" + v[k].name);
      MovedIsReplace(v[k], v[0].relPath.value, Replace(v[0], find, repl).relPath.value);
    } else if Above(s, s[k], s[i]) {
      ChildBelow(s, k, i);
      var p := ParentIndex(s, i);
      AfterNested(s, v, v1, find, repl, k, p);
      AfterBelow(s, v, find, repl, i);
      AfterBelow(s[k..], v1[k..], v[0].relPath.value + "/" + v[k].name,
                 Replace(v[0], find, repl).relPath.value + "/" + v[k].name, i - k);
    } else {
      AfterOutside(s[k..], v1[k..], v[0].relPath.value + "/" + v[k].name,
                   Replace(v[0], find, repl).relPath.value + "/" + v[k].name, i - k);
    }
  }

  lemma AfterTop(s: seq<CmaObject>, v: seq<Entry>, find: string, repl: string)
    requires Ordered(s) && |v| == |s| && AllNamed(v) && s != []
    ensures After(s, v, find, repl, 0) == Replace(v[0], find, repl)
  {
  }

  lemma AfterOutside(s: seq<CmaObject>, v: seq<Entry>, find: string, repl: string, i: nat)
    requires Ordered(s) && |v| == |s| && AllNamed(v) && 0 < i < |s| && !Above(s, s[0], s[i])
    ensures After(s, v, find, repl, i) == v[i]
  {
  }

  lemma AfterBelow(s: seq<CmaObject>, v: seq<Entry>, find: string, repl: string, i: nat)
    requires Ordered(s) && |v| == |s| && AllNamed(v) && 0 < i < |s|
    requires HasId(s, s[i].ohfiParent) && Above(s, s[0], s[i])
    ensures var p := ParentIndex(s, i);
            After(s, v, find, repl, i) == Moved(v[i], v[p].relPath.value, After(s, v, find, repl, p).relPath.value)
  {
  }

  lemma MovedIsReplace(e: Entry, oldRel: string, newRel: string)
    requires e.relPath.Some?
    ensures Moved(e, oldRel, newRel) == Replace(e, oldRel + "/" + e.name, newRel + "/" + e.name)
  {
  }

  /** Descent below `s[k]`, seen in the list and in its tail. */
  lemma SegmentFacts(s: seq<CmaObject>, k: nat, i: nat)
    requires Ordered(s) && k <= i < |s|
    ensures Ordered(s[k..]) && s[k..][i - k] == s[i] && s[k..][0] == s[k]
    ensures Above(s[k..], s[k], s[i]) <==> Above(s, s[k], s[i])
    ensures k < i && Above(s, s[k], s[i]) ==>
              && HasId(s, s[i].ohfiParent) && HasId(s[k..], s[i].ohfiParent)
              && k <= ParentIndex(s, i) && Above(s, s[k], s[ParentIndex(s, i)])
              && ParentIndex(s[k..], i - k) == ParentIndex(s, i) - k
  {
    var seg := s[k..];
    assert s[k] in s;
    assert HasId(s, s[k].ohfi);
    TailSubtree(s, k, s[k].ohfi);
    AboveIndex(s, k, i);
    if k < i && Above(s, s[k], s[i]) {
      var p := ParentIndex(s, i);
      AboveIndex(s, k, p);
      assert seg[p - k] == s[p] && s[p] in seg;
      assert HasId(seg, s[i].ohfiParent);
    }
  }

  lemma ChildOfFirst(s: seq<CmaObject>, k: nat)
    requires Ordered(s) && 0 < k < |s| && s[k].ohfiParent == s[0].ohfi
    ensures HasId(s, s[k].ohfiParent) && ParentIndex(s, k) == 0 && Above(s, s[0], s[k]) && Above(s, s[k], s[k])
  {
    assert s[0] in s && s[k] in s;
    AboveIndex(s, 0, 0);
    AboveIndex(s, k, k);
    AboveIndex(s, 0, k);
  }

  /** The state of the list while the walk is at position `k`. */
  ghost predicate Renaming(s: seq<CmaObject>, v: seq<Entry>, find: string, repl: string, k: nat)
    requires Ordered(s) && |v| == |s| && AllNamed(v) && k <= |s|
    reads s`name, s`relPath, s`path, s`size, s`handle
  {
    forall i {:trigger s[i]} :: 0 <= i < |s| ==>
      View(s[i]) == if i == 0 || Reached(s, k, i) then After(s, v, find, repl, i) else v[i]
  }

  /** Before the nested call on the child `s[k]`: nothing below it has been touched. */
  lemma ChildUntouched(s: seq<CmaObject>, v: seq<Entry>, find: string, repl: string, k: nat)
    requires Ordered(s) && |v| == |s| && AllNamed(v) && 0 < k < |s|
    requires Renaming(s, v, find, repl, k) && s[k].ohfiParent == s[0].ohfi
    ensures Ordered(s[k..]) && AllNamed(Views(s)) && Views(s[k..]) == Views(s)[k..]
    ensures forall j {:trigger Above(s, s[k], s[j])} :: k <= j < |s| && Above(s, s[k], s[j]) ==> Views(s)[j] == v[j]
    ensures View(s[0]) == Replace(v[0], find, repl) && View(s[k]) == v[k]
    ensures forall j {:trigger Views(s)[j]} :: 0 <= j < |s| ==>
              Views(s)[j] == if j == 0 || Reached(s, k, j) then After(s, v, find, repl, j) else v[j]
  {
    hide After, Reached, Above;
    SegmentFacts(s, k, k);
    ReachedStep(s, k, k);
    ChildOfFirst(s, k);
    AfterTop(s, v, find, repl);
    forall j {:trigger Views(s)[j]} | 0 <= j < |s|
      ensures Views(s)[j] == if j == 0 || Reached(s, k, j) then After(s, v, find, repl, j) else v[j]
      ensures k <= j && Above(s, s[k], s[j]) ==> Views(s)[j] == v[j]
    {
      assert Views(s)[j] == View(s[j]);
      ReachedStep(s, k, j);
    }
    assert Views(s[k..]) == Views(s)[k..];
  }

  /** After it: the walk can go on. */
  lemma ChildRenamed(s: seq<CmaObject>, v: seq<Entry>, v1: seq<Entry>, find: string, repl: string, k: nat)
    requires Ordered(s) && |v| == |v1| == |s| && AllNamed(v) && AllNamed(v1) && 0 < k < |s|
    requires s[k].ohfiParent == s[0].ohfi
    requires forall j {:trigger v1[j]} :: 0 <= j < |s| ==>
               v1[j] == if j == 0 || Reached(s, k, j) then After(s, v, find, repl, j) else v[j]
    requires forall j :: 0 <= j < k ==> View(s[j]) == v1[j]
    requires Ordered(s[k..]) && AllNamed(v1[k..])
    requires forall j {:trigger s[k..][j]} :: 0 <= j < |s| - k ==>
               View(s[k..][j]) == After(s[k..], v1[k..], v[0].relPath.value + "/" + v[k].name,
                                        Replace(v[0], find, repl).relPath.value + "/" + v[k].name, j)
    ensures Renaming(s, v, find, repl, k + 1)
  {
    forall j | k <= j < |s| && Above(s, s[k], s[j])
      ensures v1[j] == v[j]
    {
      ReachedStep(s, k, j);
    }
    forall i | 0 <= i < |s|
      ensures View(s[i]) == if i == 0 || Reached(s, k + 1, i) then After(s, v, find, repl, i) else v[i]
    {
      ReachedStep(s, k, i);
      if i >= k {
        AfterNested(s, v, v1, find, repl, k, i);
        assert s[k..][i - k] == s[i];
      } else {
        AboveIndex(s, k, i);
      }
    }
  }

  lemma NothingReached(s: seq<CmaObject>, v: seq<Entry>, find: string, repl: string)
    requires Ordered(s) && s != [] && |v| == |s| && AllNamed(v)
    requires View(s[0]) == Replace(v[0], find, repl)
    requires forall i :: 1 <= i < |s| ==> View(s[i]) == v[i]
    ensures Renaming(s, v, find, repl, 0)
  {
    AfterTop(s, v, find, repl);
  }

  lemma StepOver(s: seq<CmaObject>, v: seq<Entry>, find: string, repl: string, k: nat)
    requires Ordered(s) && |v| == |s| && AllNamed(v) && k < |s|
    requires Renaming(s, v, find, repl, k) && s[k].ohfiParent != s[0].ohfi
    ensures Renaming(s, v, find, repl, k + 1)
  {
    forall i | 0 <= i < |s|
      ensures i == 0 || Reached(s, k + 1, i) <==> i == 0 || Reached(s, k, i)
    {
      if 0 < k {
        ReachedStep(s, k, i);
      }
    }
  }

  lemma EverythingReached(s: seq<CmaObject>, v: seq<Entry>, find: string, repl: string)
    requires Ordered(s) && s != [] && |v| == |s| && AllNamed(v)
    requires Renaming(s, v, find, repl, |s|)
    ensures forall i :: 0 <= i < |s| ==> View(s[i]) == After(s, v, find, repl, i)
  {
    forall i | 0 <= i < |s|
      ensures View(s[i]) == After(s, v, find, repl, i)
    {
      ReachedAll(s, i);
      if i != 0 && !Above(s, s[0], s[i]) {
        AfterOutside(s, v, find, repl, i);
      }
    }
  }

  /** renameRootEntry.  With `name` None, the name of the object itself is what gets replaced. */
  method RenameRootEntry(current: CmaObject, name: Option<string>, newname: string, ghost nodes: seq<CmaObject>)
    requires Linked(nodes) && Ordered(nodes) && nodes != [] && nodes[0] == current
    requires AllNamed(Views(nodes))
    modifies nodes`name, nodes`relPath, nodes`path
    ensures var find := if name.None? then old(current.name) else name.value;
            forall i :: 0 <= i < |nodes| ==> View(nodes[i]) == After(nodes, old(Views(nodes)), find, newname, i)
    decreases |nodes|, 1
  {
    hide Ordered, After, Reached, Above, Views, StrReplace, Renaming, Linked, Subtree, AllNamed;
    ghost var v := Views(nodes);
    FirstNamed(nodes);
    var origRelPath := current.relPath.value;
    var find := if name.None? then current.name else name.value;
    RenameOne(current, find, newname, nodes, v);
    var temp: CmaObject? := current;
    ghost var k := 0;
    while temp != null
      invariant k <= |nodes| && temp == if k < |nodes| then nodes[k] else null
      invariant Linked(nodes) && Renaming(nodes, v, find, newname, k) && current.relPath.Some?
      decreases |nodes| - k
    {
      if temp.ohfiParent == current.ohfi {
        var nname := origRelPath + "/" + temp.name;
        var nnewname := current.relPath.value + "/" + temp.name;
        NotOwnParent(nodes, k);
        RenameChild(temp, nname, nnewname, nodes, v, find, newname, k);
      } else {
        StepOver(nodes, v, find, newname, k);
      }
      NextOf(nodes, k);
      temp := temp.next;
      k := k + 1;
    }
    EverythingReached(nodes, v, find, newname);
  }

  lemma FirstNamed(s: seq<CmaObject>)
    requires s != [] && AllNamed(Views(s))
    ensures s[0].relPath.Some? && Views(s)[0] == View(s[0])
  {
    assert Views(s)[0] == View(s[0]);
  }

  /** What happens to the object itself. */
  method RenameOne(current: CmaObject, find: string, newname: string, ghost nodes: seq<CmaObject>, ghost v: seq<Entry>)
    requires Ordered(nodes) && nodes != [] && nodes[0] == current && v == Views(nodes) && AllNamed(v)
    modifies current`name, current`relPath, current`path
    ensures Renaming(nodes, v, find, newname, 0) && current.relPath.Some?
  {
    FirstNamed(nodes);
    OnlyFirst(nodes);
    hide Ordered, After, Views, StrReplace, Renaming;
    var origPath, origRelPath, origName := current.path, current.relPath.value, current.name;
    current.name := StrReplace(origName, find, newname);
    current.relPath := Some(StrReplace(origRelPath, find, newname));
    current.path := StrReplace(origPath, origRelPath, current.relPath.value);
    NothingReached(nodes, v, find, newname);
  }

  /** The nested call for the child `temp`, at position `k` of the list. */
  method RenameChild(temp: CmaObject, nname: string, nnewname: string, ghost nodes: seq<CmaObject>,
                     ghost v: seq<Entry>, ghost find: string, ghost newname: string, ghost k: nat)
    requires Linked(nodes) && Ordered(nodes) && |v| == |nodes| && AllNamed(v)
    requires 0 < k < |nodes| && temp == nodes[k] && temp.ohfiParent == nodes[0].ohfi
    requires Renaming(nodes, v, find, newname, k)
    requires nname == v[0].relPath.value + "/" + temp.name
    requires nodes[0].relPath.Some? && nnewname == nodes[0].relPath.value + "/" + temp.name
    modifies nodes`name, nodes`relPath, nodes`path
    ensures Renaming(nodes, v, find, newname, k + 1)
    ensures nodes[0].relPath == old(nodes[0].relPath)
    decreases |nodes|, 0
  {
    hide Ordered, After, Reached, Above, Views, StrReplace, Renaming, Linked, Subtree;
    ChildUntouched(nodes, v, find, newname, k);
    ghost var v1 := Views(nodes);
    TailIsList(nodes, k);
    BeforeTail(nodes, k);
    RenameRootEntry(temp, Some(nname), nnewname, nodes[k..]);
    assert forall j :: 0 <= j < k ==> View(nodes[j]) == v1[j];
    ChildRenamed(nodes, v, v1, find, newname, k);
  }

  lemma BeforeTail(s: seq<CmaObject>, k: nat)
    requires Ordered(s) && k < |s|
    ensures forall j :: 0 <= j < k ==> View(s[j]) == Views(s)[j] && s[j] !in s[k..]
  {
  }

  lemma TailIsList(s: seq<CmaObject>, k: nat)
    requires Linked(s) && Ordered(s) && k < |s|
    ensures Linked(s[k..]) && s[k..] != [] && s[k..][0] == s[k]
  {
    TailLinked(s, k);
  }

  lemma NextOf(s: seq<CmaObject>, k: nat)
    requires Linked(s) && k < |s|
    ensures s[k].next == if k + 1 < |s| then s[k + 1] else null
  {
  }

  lemma OnlyFirst(s: seq<CmaObject>)
    requires Ordered(s) && s != []
    ensures forall i {:trigger s[i]} :: 1 <= i < |s| ==> s[i] != s[0]
  {
  }

  lemma NotOwnParent(s: seq<CmaObject>, k: nat)
    requires Ordered(s) && k < |s| && s[k].ohfiParent == s[0].ohfi
    ensures 0 < k
  {
  }
}
