/** Receiving a file or folder from the device: vitaGetAllObjects (src/opencma.c:862-954). */
module Receive {
  import opened Forest
  import opened Removal
  import opened Database
  import opened Entries
  import opened Trees
  import opened Ancestry

  /** What VitaMTP_GetObject yields for a handle and for the handles it lists, and whether the
      file can be written or the directory made on this side. */
  datatype Remote =
    | Unreadable
    | RemoteFile(name: string, handle: nat, size: nat, writes: bool)
    | RemoteFolder(name: string, handle: nat, makes: bool, children: seq<Remote>)

  function Outcome(node: Remote): (code: Code)
    ensures code == OK || code == InvalidData || code == InvalidPermission || code == FailedOperateObject
    decreases node, 0
  {
    match node
    case Unreadable => InvalidData
    case RemoteFile(_, _, _, writes) => if writes then OK else InvalidPermission
    case RemoteFolder(_, _, makes, children) =>
      if !makes then FailedOperateObject
      else
        var n := Received(children, |children|);
        if n == |children| then OK else Outcome(children[n])
  }

  /** How many of the first `n` children arrive before one fails. */
  function Received(children: seq<Remote>, n: nat): (r: nat)
    requires n <= |children|
    ensures r <= n
    ensures r < n ==> Outcome(children[r]) != OK
    decreases children, n
  {
    if n == 0 then 0
    else
      var r := Received(children, n - 1);
      if r == n - 1 && Outcome(children[n - 1]) == OK then n else r
  }

  /** Bytes written to files before the first failure. */
  function Bytes(node: Remote): nat
    decreases node, 0
  {
    match node
    case Unreadable => 0
    case RemoteFile(_, _, size, writes) => if writes then size else 0
    case RemoteFolder(_, _, makes, children) => if makes then BytesUpTo(children, |children|) else 0
  }

  function BytesUpTo(children: seq<Remote>, n: nat): nat
    requires n <= |children|
    decreases children, n
  {
    if n == 0 then 0
    else BytesUpTo(children, n - 1) + if Received(children, n - 1) == n - 1 then Bytes(children[n - 1]) else 0
  }

  /** Ids taken from the counter, whether or not the objects survive. */
  function IdsUsed(node: Remote): nat
    decreases node, 0
  {
    match node
    case Unreadable => 0
    case RemoteFile(_, _, _, _) => 1
    case RemoteFolder(_, _, makes, children) => 1 + if makes then IdsUsedUpTo(children, |children|) else 0
  }

  function IdsUsedUpTo(children: seq<Remote>, n: nat): nat
    requires n <= |children|
    decreases children, n
  {
    if n == 0 then 0
    else IdsUsedUpTo(children, n - 1) + if Received(children, n - 1) == n - 1 then IdsUsed(children[n - 1]) else 0
  }

  /** The tree a node stands for. */
  function ToTree(node: Remote): Tree
    decreases node, 0
  {
    match node
    case Unreadable => Tree("", File, 0, 0, [])
    case RemoteFile(name, handle, size, _) => Tree(name, File, size, handle, [])
    case RemoteFolder(name, handle, _, children) => Tree(name, Folder, 0, handle, ToTrees(children, |children|))
  }

  function ToTrees(children: seq<Remote>, n: nat): (r: seq<Tree>)
    requires n <= |children|
    ensures |r| == n && forall i :: 0 <= i < n ==> r[i] == ToTree(children[i])
    decreases children, n
  {
    if n == 0 then [] else ToTrees(children, n - 1) + [ToTree(children[n - 1])]
  }

  /** A node that arrives writes its whole size, and takes one id for each of its objects. */
  lemma {:induction false} ArrivesWhole(node: Remote)
    requires Outcome(node) == OK
    ensures Bytes(node) == Total(ToTree(node)) && IdsUsed(node) == NodeCount(ToTree(node))
    decreases node, 0
  {
    if node.RemoteFolder? {
      var ts := ToTrees(node.children, |node.children|);
      ArriveWhole(node.children, |node.children|, ts);
    }
  }

  lemma {:induction false} ArriveWhole(children: seq<Remote>, n: nat, ts: seq<Tree>)
    requires n <= |children| && Received(children, n) == n
    requires ts == ToTrees(children, |children|)
    ensures BytesUpTo(children, n) == TotalUpTo(ts, n) && IdsUsedUpTo(children, n) == NodeCountUpTo(ts, n)
    decreases children, n
  {
    if n > 0 {
      ArriveWhole(children, n - 1, ts);
      ArrivesWhole(children[n - 1]);
    }
  }

  // ---------- The nodes in the order they are asked for ----------

  /** A node and all below it, in preorder. */
  function Nodes(node: Remote): (ns: seq<Remote>)
    ensures ns != [] && ns[0] == node
    decreases node, 0
  {
    [node] + if node.RemoteFolder? then NodesUpTo(node.children, |node.children|) else []
  }

  function NodesUpTo(children: seq<Remote>, n: nat): seq<Remote>
    requires n <= |children|
    decreases children, n
  {
    if n == 0 then [] else NodesUpTo(children, n - 1) + Nodes(children[n - 1])
  }

  /** A node that cannot be read, or written, or made. */
  predicate Bad(node: Remote) {
    node.Unreadable? || (node.RemoteFile? && !node.writes) || (node.RemoteFolder? && !node.makes)
  }

  /** The first bad one. */
  function FirstBad(ns: seq<Remote>): (k: nat)
    ensures k <= |ns| && (forall i :: 0 <= i < k ==> !Bad(ns[i])) && (k < |ns| ==> Bad(ns[k]))
  {
    if ns == [] || Bad(ns[0]) then 0 else 1 + FirstBad(ns[1..])
  }

  function FileBytes(ns: seq<Remote>): nat {
    if ns == [] then 0
    else FileBytes(ns[..|ns| - 1]) + if ns[|ns| - 1].RemoteFile? then ns[|ns| - 1].size else 0
  }

  /** The outcome is that of the first bad node; the files before it have been written, and each node before it has
      taken an id, and it, too, if it could be read. */
  ghost predicate Visited(ns: seq<Remote>, code: Code, bytes: nat, ids: nat) {
    var k := FirstBad(ns);
    && bytes == FileBytes(ns[..k])
    && (k == |ns| ==> code == OK && ids == k)
    && (k < |ns| ==>
          && code == (if ns[k].Unreadable? then InvalidData
                      else if ns[k].RemoteFile? then InvalidPermission
                      else FailedOperateObject)
          && ids == if ns[k].Unreadable? then k else k + 1)
  }

  lemma {:induction false} VisitedDecides(node: Remote)
    ensures Visited(Nodes(node), Outcome(node), Bytes(node), IdsUsed(node))
    decreases node, 0
  {
    hide Visited;
    if node.RemoteFolder? && node.makes {
      VisitedUpTo(node.children, |node.children|);
      FolderVisited(node);
    } else {
      hide NodesUpTo;
      OneVisited(node);
    }
  }

  lemma OneVisited(node: Remote)
    requires !(node.RemoteFolder? && node.makes)
    ensures Visited(Nodes(node), Outcome(node), Bytes(node), IdsUsed(node))
  {
    hide NodesUpTo;
    var ns := Nodes(node);
    assert FileBytes([]) == 0;
    if Bad(node) {
      assert FirstBad(ns) == 0 && ns[..0] == [];
    } else {
      assert ns == [node] && ns[1..] == [] && FirstBad(ns) == 1 && ns[..1] == ns && ns[..0] == [];
    }
  }

  /** The children that have been asked for, as far as the loop over them went. */
  ghost predicate VisitedTo(children: seq<Remote>, n: nat)
    requires n <= |children|
  {
    var r := Received(children, n);
    Visited(NodesUpTo(children, n), if r == n then OK else Outcome(children[r]), BytesUpTo(children, n),
            IdsUsedUpTo(children, n))
  }

  lemma {:induction false} VisitedUpTo(children: seq<Remote>, n: nat)
    requires n <= |children|
    ensures VisitedTo(children, n)
    decreases children, n
  {
    if n == 0 {
      assert FileBytes([]) == 0;
    } else {
      VisitedUpTo(children, n - 1);
      VisitedDecides(children[n - 1]);
      var r := Received(children, n - 1);
      VisitedMore(NodesUpTo(children, n - 1), Nodes(children[n - 1]),
                  if r == n - 1 then OK else Outcome(children[r]), BytesUpTo(children, n - 1),
                  IdsUsedUpTo(children, n - 1), Outcome(children[n - 1]), Bytes(children[n - 1]),
                  IdsUsed(children[n - 1]));
    }
  }

  lemma VisitedMore(a: seq<Remote>, b: seq<Remote>, code: Code, bytes: nat, ids: nat, code': Code, bytes': nat,
                    ids': nat)
    requires Visited(a, code, bytes, ids) && Visited(b, code', bytes', ids')
    ensures if code == OK then Visited(a + b, code', bytes + bytes', ids + ids')
            else Visited(a + b, code, bytes, ids)
  {
    hide FirstBad, FileBytes;
    FirstBadOf(a, b);
    var k := FirstBad(a);
    if k == |a| {
      assert (a + b)[..|a| + FirstBad(b)] == a + b[..FirstBad(b)] && a[..k] == a;
      FileBytesOf(a, b[..FirstBad(b)]);
    } else {
      assert (a + b)[..k] == a[..k];
    }
  }

  lemma {:induction false} FirstBadOf(a: seq<Remote>, b: seq<Remote>)
    ensures FirstBad(a + b) == if FirstBad(a) < |a| then FirstBad(a) else |a| + FirstBad(b)
  {
    if a == [] {
      assert a + b == b;
    } else {
      assert (a + b)[1..] == a[1..] + b;
      FirstBadOf(a[1..], b);
    }
  }

  lemma {:induction false} FileBytesOf(a: seq<Remote>, b: seq<Remote>)
    ensures FileBytes(a + b) == FileBytes(a) + FileBytes(b)
  {
    if b == [] {
      assert a + b == a;
    } else {
      assert (a + b)[..|a + b| - 1] == a + b[..|b| - 1];
      FileBytesOf(a, b[..|b| - 1]);
    }
  }

  lemma FolderVisited(node: Remote)
    requires node.RemoteFolder? && node.makes && VisitedTo(node.children, |node.children|)
    ensures Visited(Nodes(node), Outcome(node), Bytes(node), IdsUsed(node))
  {
    hide FirstBad, FileBytes, NodesUpTo;
    AloneVisited(node);
    var n := |node.children|;
    var r := Received(node.children, n);
    VisitedMore([node], NodesUpTo(node.children, n), OK, 0, 1, if r == n then OK else Outcome(node.children[r]),
                BytesUpTo(node.children, n), IdsUsedUpTo(node.children, n));
  }

  lemma AloneVisited(node: Remote)
    requires node.RemoteFolder? && node.makes
    ensures Visited([node], OK, 0, 1)
  {
    assert [node][1..] == [] && FirstBad([node]) == 1 && [node][..1] == [node] && [node][..0] == [];
    assert FileBytes([]) == 0;
  }

  /** The entry for a node: its name and handle, File or Folder among its kinds, and the size of a file. */
  predicate EntryFor(e: Entry, n: Remote) {
    match n
    case Unreadable => false
    case RemoteFile(name, handle, size, _) =>
      e.name == name && e.handle == handle && e.size == size && File in e.kinds
    case RemoteFolder(name, handle, _, _) => e.name == name && e.handle == handle && Folder in e.kinds
  }

  /** What has arrived is, node by node, what was offered. */
  lemma {:induction false} TreeOfNodes(node: Remote, at: Place, id: nat, i: nat)
    requires Outcome(node) == OK && i < |Nodes(node)|
    ensures |Preorder(ToTree(node), at, id)| == |Nodes(node)|
    ensures EntryFor(Preorder(ToTree(node), at, id)[i], Nodes(node)[i])
    decreases node, 0
  {
    var t, e := ToTree(node), EntryOf(ToTree(node), at, id);
    if node.RemoteFolder? {
      var n := |node.children|;
      TreesOfNodes(node.children, n, t.children, PlaceOf(e), id + 1, if i > 0 then i - 1 else 0);
    } else {
      assert Nodes(node) == [node] && t.children == [] && i == 0;
      assert TotalUpTo([], 0) == 0 && Total(t) == node.size && PreorderUpTo([], 0, PlaceOf(e), id + 1) == [];
      assert Preorder(t, at, id) == [e];
    }
  }

  lemma {:induction false} TreesOfNodes(children: seq<Remote>, n: nat, ts: seq<Tree>, at: Place, id: nat, i: nat)
    requires n <= |children| && Received(children, n) == n && ts == ToTrees(children, |children|)
    ensures |PreorderUpTo(ts, n, at, id)| == |NodesUpTo(children, n)|
    ensures i < |NodesUpTo(children, n)| ==> EntryFor(PreorderUpTo(ts, n, at, id)[i], NodesUpTo(children, n)[i])
    decreases children, n
  {
    hide EntryFor, Preorder, Nodes;
    if n > 0 {
      TreesOfNodes(children, n - 1, ts, at, id, i);
      var before := |NodesUpTo(children, n - 1)|;
      var inside := before <= i < before + |Nodes(children[n - 1])|;
      TreeOfNodes(children[n - 1], at, id + NodeCountUpTo(ts, n - 1), if inside then i - before else 0);
    }
  }

  /** The ids that go when `name` is put under `parent`: only a category root is searched for an
      entry of the same name, and only the first one found is replaced. */
  ghost function Replaced(s: seq<CmaObject>, parent: CmaObject, node: Remote): set<nat>
    reads s`relPath
  {
    if node.Unreadable? || s == [] || parent != s[0] || PathMatch(s, node.name) == null then {}
    else Subtree(s, PathMatch(s, node.name).ohfi)
  }

  /** By how much `o` grows when `n` bytes arrive under `parent`. */
  ghost function Gain(s: seq<CmaObject>, o: CmaObject, parent: CmaObject, n: nat): nat {
    if Above(s, o, parent) then n else 0
  }

  // ---------- Facts used by the methods ----------

  lemma RootEligible(db: Database, c: nat, parent: CmaObject)
    requires db.Valid() && c < |db.lists| && parent in db.lists[c]
    ensures |db.lists| == |db.roots| && 0 < parent.ohfi
    ensures forall i :: 0 <= i < |db.roots| && db.roots[i].ohfi == parent.ohfi ==> i == c && parent == db.lists[c][0]
  {
    ParentInCategory(db, c, parent);
    var j :| 0 <= j < |db.lists[c]| && db.lists[c][j] == parent;
    forall i | 0 <= i < |db.roots| && db.roots[i].ohfi == parent.ohfi
      ensures i == c && parent == db.lists[c][0]
    {
      assert db.lists[i][0] in db.lists[i];
      SameId(db.lists[c], parent, db.lists[c][0]);
    }
  }

  lemma {:induction false} FirstWithPathAppend(s: seq<CmaObject>, o: CmaObject, path: string, k: nat)
    requires k <= |s|
    ensures var j := FirstWithPath(s, path, k);
            FirstWithPath(s + [o], path, k) == if j < |s| || o.relPath == Some(path) then j else |s| + 1
    decreases |s| - k
  {
    if k < |s| && s[k].relPath != Some(path) {
      FirstWithPathAppend(s, o, path, k + 1);
    }
  }

  /** A new object at the end of the list is found by its path only if nothing before it is. */
  lemma PathMatchAppend(s: seq<CmaObject>, o: CmaObject, path: string)
    requires s != []
    ensures PathMatch(s, path) != null ==> PathMatch(s + [o], path) == PathMatch(s, path)
    ensures PathMatch(s, path) == null ==> PathMatch(s + [o], path) == null || PathMatch(s + [o], path) == o
  {
    FirstWithPathAppend(s, o, path, 1);
  }

  /** Removing an entry that the last object does not hang from. */
  lemma RemoveBeforeLast(s: seq<CmaObject>, o: CmaObject, top: nat)
    requires s != [] && Ordered(s + [o]) && HasId(s, top) && o.ohfiParent == s[0].ohfi < top
    ensures Keep(s + [o], Subtree(s + [o], top)) == Keep(s, Subtree(s, top)) + [o]
    ensures HasId(s + [o], top)
  {
    var r := s + [o];
    assert forall i :: 0 <= i < |s| ==> r[i] == s[i];
    assert r[|s|] == o;
    var p :| p in s && p.ohfi == top;
    assert p in r;
    var m :| 0 <= m < |s| && s[m] == p;
    var d := Subtree(s, top);
    SubtreeIsSubtree(s, top);
    forall x | x in d
      ensures x < o.ohfi
    {
      assert x != top ==> HasId(s, x);
    }
    forall q | q in r
      ensures q.ohfi in d <==> q.ohfi == top || q.ohfiParent in d
    {
      assert q in s || q == o;
    }
    forall x | x in d && x != top
      ensures HasId(r, x)
    {
      assert HasId(s, x);
      var q :| q in s && q.ohfi == x;
      assert q in r;
    }
    SubtreeUnique(r, top, d);
    KeepConcat(s, [o], d);
    KeepAll([o], d);
  }

  /** The check "if object exists already" (src/opencma.c:896-903), just after `newcomer` was added. */
  method ReplaceSameName(db: Database, newcomer: CmaObject, parent: CmaObject, node: Remote,
                         ghost c: nat, ghost s: seq<CmaObject>)
    requires db.Valid() && c < |db.lists| && db.lists[c] == s + [newcomer] && parent in s
    requires newcomer.ohfiParent == parent.ohfi && !node.Unreadable? && newcomer.name == node.name
    modifies db`lists, db`home, db.lists[c]`next
    ensures db.Valid()
    ensures db.lists == old(db.lists)[c := Keep(s, old(Replaced(s, parent, node))) + [newcomer]]
  {
    hide Shape, Ordered, Within, AllLinked, Keep, Subtree, PathMatch, HasId;
    PartOfCategory(db, c, s, newcomer, parent);
    RootEligible(db, c, parent);
    PathMatchAppend(s, newcomer, node.name);
    KeepAll(s, {});
    assert db.lists[c := s + [newcomer]] == db.lists;
    var temp := PathToObject(db, newcomer.name, parent.ohfi);
    assert parent == s[0] ==> temp == PathMatch(s + [newcomer], node.name) by {
      assert parent == s[0] ==> db.roots[c].ohfi == parent.ohfi;
    }
    assert temp != null ==> parent == s[0];
    if temp != newcomer && temp != null {
      assert temp == PathMatch(s, node.name);
      MatchBehindRoot(s, node.name);
      RemoveBeforeLast(s, newcomer, temp.ohfi);
      RemoveEntry(db, temp.ohfi, parent, c);
    }
  }

  lemma PartOfCategory(db: Database, c: nat, s: seq<CmaObject>, newcomer: CmaObject, parent: CmaObject)
    requires db.Valid() && c < |db.lists| && db.lists[c] == s + [newcomer] && parent in s
    ensures s != [] && Ordered(s) && Ordered(s + [newcomer]) && parent in db.lists[c] && db.lists[c][0] == s[0]
    ensures newcomer !in s && db.roots[c] == s[0] && 0 < s[0].ohfi && s[0].ohfiParent == 0
  {
    var r := s + [newcomer];
    assert Ordered(r) && r[0] == s[0] && r[|s|] == newcomer;
    assert forall i :: 0 <= i < |s| ==> s[i] == r[i];
  }

  lemma MatchBehindRoot(s: seq<CmaObject>, path: string)
    requires Ordered(s) && PathMatch(s, path) != null
    ensures HasId(s, PathMatch(s, path).ohfi) && s[0].ohfi < PathMatch(s, path).ohfi
  {
  }

  /** The ancestors of a newcomer among the older objects are those of its parent. */
  lemma GainOfNewcomer(s: seq<CmaObject>, base: seq<CmaObject>, top: nat, newcomer: CmaObject, parent: CmaObject)
    requires s != [] && Ordered(s) && Rooted(s) && s[0].ohfiParent == 0 && 0 < s[0].ohfi
    requires base == s || base == Keep(s, Subtree(s, top))
    requires base != [] && base[0] == s[0] && Rooted(base) && Ordered(base + [newcomer])
    requires parent in base && newcomer.ohfiParent == parent.ohfi
    ensures forall o :: o in base ==> (Above(base + [newcomer], o, newcomer) <==> Above(s, o, parent))
    ensures Above(base + [newcomer], newcomer, newcomer)
  {
    var r := base + [newcomer];
    assert r[|base|] == newcomer;
    AboveSelf(r, newcomer);
    AboveStep(r, newcomer, parent);
    forall o | o in base
      ensures Above(r, o, newcomer) <==> Above(s, o, parent)
    {
      assert o != newcomer by {
        var j :| 0 <= j < |base| && base[j] == o;
        assert r[j] == o;
      }
      AboveExtended(base, [newcomer], o, parent);
      if base == Keep(s, Subtree(s, top)) {
        AboveRest(s, top, o, parent);
      }
    }
  }

  /** What the methods need to know about the list around a newcomer. */
  lemma AroundNewcomer(db: Database, c: nat, base: seq<CmaObject>, newcomer: CmaObject, more: seq<CmaObject>)
    requires db.Valid() && c < |db.lists| && db.lists[c] == base + ([newcomer] + more) && base != []
    ensures Ordered(base + ([newcomer] + more)) && Rooted(base + ([newcomer] + more))
    ensures Ordered(base + [newcomer]) && newcomer in db.lists[c] && HasId(db.lists[c], newcomer.ohfi)
    ensures base[0].ohfiParent == 0 && 0 < base[0].ohfi
    ensures OHFI_OFFSET <= newcomer.ohfi
    ensures forall o :: o in base ==> o.ohfi < newcomer.ohfi
  {
    var r, t := base + ([newcomer] + more), base + [newcomer];
    assert r[0] == base[0] && r[|base|] == newcomer;
    assert forall i :: 0 <= i < |t| ==> t[i] == r[i];
    forall o | o in base
      ensures o.ohfi < newcomer.ohfi
    {
      var j :| 0 <= j < |base| && base[j] == o;
      assert r[j] == o;
    }
  }

  /** Children that arrived under `top` hang from it. */
  lemma KidsHang(top: CmaObject, kids: seq<CmaObject>, ts: seq<Tree>, n: nat, at: Place)
    requires n <= |ts| && at.ohfi == top.ohfi
    requires Views(kids) == PreorderUpTo(ts, n, at, top.ohfi + 1)
    ensures forall j :: 0 <= j < |kids| ==> HasId([top] + kids, kids[j].ohfiParent)
  {
    PreorderUpToIds(ts, n, at, top.ohfi + 1);
    forall j | 0 <= j < |kids|
      ensures HasId([top] + kids, kids[j].ohfiParent)
    {
      var p := kids[j].ohfiParent;
      assert Views(kids)[j].ohfiParent == p;
      if p == top.ohfi {
        assert top in [top] + kids;
      } else {
        var m := p - (top.ohfi + 1);
        assert Views(kids)[m].ohfi == top.ohfi + 1 + m;
        assert kids[m] in [top] + kids;
      }
    }
  }

  /** vitaGetAllObjects.  `added` are the new objects that stay. */
  method GetAllObjects(db: Database, parent: CmaObject, node: Remote, ghost c: nat)
    returns (code: Code, ghost added: seq<CmaObject>)
    requires db.Valid() && c < |db.lists| && parent in db.lists[c] && (node.RemoteFolder? ==> File !in parent.kinds)
    modifies db`ohfiCount, db`lists, db`home, db`repr, db.lists[c]`next, db.lists[c]`size
    ensures db.Valid() && fresh(added) && old(db.repr) <= db.repr && fresh(db.repr - old(db.repr))
    ensures code == Outcome(node) && db.ohfiCount == old(db.ohfiCount) + IdsUsed(node)
    ensures db.lists == old(db.lists)[c := Keep(old(db.lists[c]), old(Replaced(db.lists[c], parent, node))) + added]
    ensures code == OK ==> Views(added) == Preorder(ToTree(node), PlaceAt(parent), old(db.ohfiCount))
    ensures code != OK ==> added == []
    ensures forall o {:trigger o.size} ::
              o in old(db.lists[c]) && o.ohfi !in old(Replaced(db.lists[c], parent, node)) ==>
                o.size == old(o.size) + Gain(old(db.lists[c]), o, parent, Bytes(node))
    decreases node, 4
  {
    hide Shape, Within, AllLinked, Ordered, Rooted, Keep, Subtree, Above, HasId, Preorder, Views, Replaced,
         ToTree, EntryOf;
    ghost var all, s, at, id := db.lists, db.lists[c], PlaceAt(parent), db.ohfiCount;
    added := [];
    if node.Unreadable? {
      NoneReplaced(s, parent, node);
      NothingReplaced(all, c);
      return InvalidData, [];
    }
    ghost var gone := Replaced(s, parent, node);
    var current := PutNew(db, parent, node, c);
    code, added := Arrive(db, current, parent, node, c, Keep(s, gone), at);
  }

  lemma NoneReplaced(s: seq<CmaObject>, parent: CmaObject, node: Remote)
    requires node.Unreadable?
    ensures Replaced(s, parent, node) == {}
  {
  }

  /** The first part (src/opencma.c:882-903): the object is put behind the others, and takes the place of
      an entry of the same name. */
  method PutNew(db: Database, parent: CmaObject, node: Remote, ghost c: nat) returns (current: CmaObject)
    requires db.Valid() && c < |db.lists| && parent in db.lists[c] && !node.Unreadable?
    modifies db`ohfiCount, db`lists, db`home, db`repr, db.lists[c]`next
    ensures db.Valid() && fresh(current) && old(db.repr) <= db.repr && fresh(db.repr - old(db.repr))
    ensures current.ohfi == old(db.ohfiCount) && db.ohfiCount == current.ohfi + 1 && current.ohfiParent == parent.ohfi
    ensures View(current) == EntryOf(ToTree(node), PlaceAt(parent), current.ohfi).(size := 0)
    ensures var s := old(db.lists[c]);
            var base := Keep(s, old(Replaced(db.lists[c], parent, node)));
            && db.lists == old(db.lists)[c := base + [current]] && parent in base && current !in base
            && (forall o :: o in base ==> o in s)
            && (forall o :: o in s && o.ohfi !in old(Replaced(db.lists[c], parent, node)) ==> o in base)
            && (forall o :: o in base ==> (Above(base + [current], o, current) <==> Above(s, o, parent)))
    ensures forall j {:trigger db.lists[c][j]} :: 0 <= j < |db.lists[c]| ==>
              db.lists[c][j] in old(db.lists[c]) || db.lists[c][j] == current
  {
    hide Shape, Within, AllLinked, Ordered, Rooted, Keep, Subtree, Above, HasId, Replaced;
    ghost var all, s := db.lists, db.lists[c];
    current := AddToDatabase(db, parent, node.name, 0, if node.RemoteFile? then File else Folder, c);
    current.handle := node.handle;
    assert db.lists[c] == s + [current];
    assert Replaced(s, parent, node) == old(Replaced(db.lists[c], parent, node));
    BaseFacts(db, c, s, current, parent, node);
    ReplaceSameName(db, current, parent, node, c, s);
  }

  /** The rest of vitaGetAllObjects (src/opencma.c:905-953), the object being in the list. */
  method Arrive(db: Database, current: CmaObject, parent: CmaObject, node: Remote, ghost c: nat,
                ghost base: seq<CmaObject>, ghost at: Place)
    returns (code: Code, ghost added: seq<CmaObject>)
    requires db.Valid() && c < |db.lists| && db.lists[c] == base + [current] && parent in base
    requires current.ohfiParent == parent.ohfi && db.ohfiCount == current.ohfi + 1
    requires !node.Unreadable? && (node.RemoteFolder? ==> File !in at.kinds)
    requires View(current) == EntryOf(ToTree(node), at, current.ohfi).(size := 0)
    modifies db`ohfiCount, db`lists, db`home, db`repr, db.lists[c]`next, db.lists[c]`size
    ensures db.Valid() && fresh(set o | o in added && o != current) && old(db.repr) <= db.repr &&
              fresh(db.repr - old(db.repr))
    ensures code == Outcome(node) && db.ohfiCount == current.ohfi + IdsUsed(node)
    ensures db.lists == old(db.lists)[c := base + added]
    ensures code == OK ==> Views(added) == Preorder(ToTree(node), at, current.ohfi)
    ensures code != OK ==> added == []
    ensures forall o {:trigger o.size} :: o in base ==>
              o.size == old(o.size) + Gain(base + [current], o, current, Bytes(node))
    decreases node, 2
  {
    hide Shape, Within, AllLinked, Ordered, Rooted, Keep, Subtree, Above, HasId, Preorder, PreorderUpTo, Views,
         ToTree, ToTrees;
    ghost var all, tree := db.lists, ToTree(node);
    assert base + ([current] + []) == base + [current] && base + [] == base;
    AroundNewcomer(db, c, base, current, []);
    SelfGain(base, current);
    TreeParts(node, at, current.ohfi);
    added := [];
    code := OK;
    if node.RemoteFile? {
      if !node.writes {
        Withdraw(db, current, [], parent, c, base);
        return InvalidPermission, [];
      }
      IncrementSize(db, current, node.size, c);
      EmptyForest(PlaceAt(current), current.ohfi + 1);
      TreeAssembled(tree, at, current.ohfi, current, []);
      added := [current] + [];
    } else {
      code, added := ArriveFolder(db, current, parent, node, c, base, at);
    }
  }

  /** The rollback: the object goes, and with it whatever was received below it. */
  method Withdraw(db: Database, current: CmaObject, ghost kids: seq<CmaObject>, parent: CmaObject,
                  ghost c: nat, ghost base: seq<CmaObject>)
    requires db.Valid() && c < |db.lists| && db.lists[c] == base + ([current] + kids) && parent in base
    requires forall j :: 0 <= j < |kids| ==> HasId([current] + kids, kids[j].ohfiParent)
    modifies db`lists, db`home, db.lists[c]`next
    ensures db.Valid()
    ensures db.lists == old(db.lists)[c := base]
  {
    AroundNewcomer(db, c, base, current, kids);
    TailIsSubtree(base, current, kids);
    hide Shape, Within, AllLinked, Ordered, Rooted, Keep, Subtree, HasId;
    RemoveEntry(db, current.ohfi, parent, c);
  }

  /** The folder branch (src/opencma.c:920-945). */
  method ArriveFolder(db: Database, current: CmaObject, parent: CmaObject, node: Remote, ghost c: nat,
                      ghost base: seq<CmaObject>, ghost at: Place)
    returns (code: Code, ghost added: seq<CmaObject>)
    requires db.Valid() && c < |db.lists| && db.lists[c] == base + [current] && parent in base
    requires current.ohfiParent == parent.ohfi && db.ohfiCount == current.ohfi + 1
    requires node.RemoteFolder? && File !in at.kinds
    requires View(current) == EntryOf(ToTree(node), at, current.ohfi).(size := 0)
    modifies db`ohfiCount, db`lists, db`home, db`repr, db.lists[c]`next, db.lists[c]`size
    ensures db.Valid() && fresh(set o | o in added && o != current) && old(db.repr) <= db.repr &&
              fresh(db.repr - old(db.repr))
    ensures code == Outcome(node) && db.ohfiCount == current.ohfi + IdsUsed(node)
    ensures db.lists == old(db.lists)[c := base + added]
    ensures code == OK ==> Views(added) == Preorder(ToTree(node), at, current.ohfi)
    ensures code != OK ==> added == []
    ensures forall o {:trigger o.size} :: o in base ==>
              o.size == old(o.size) + Gain(base + [current], o, current, Bytes(node))
    decreases node, 0
  {
    hide Shape, Within, AllLinked, Ordered, Rooted, Keep, Subtree, Above, HasId, Preorder, PreorderUpTo, Views,
         ToTree, ToTrees, Outcome, Bytes, IdsUsed, Received, BytesUpTo, IdsUsedUpTo, Total;
    ghost var all, tree := db.lists, ToTree(node);
    FolderParts(node);
    assert base + ([current] + []) == base + [current] && base + [] == base;
    AroundNewcomer(db, c, base, current, []);
    SelfGain(base, current);
    TreeParts(node, at, current.ohfi);
    added := [];
    if !node.makes {
      Withdraw(db, current, [], parent, c, base);
      return FailedOperateObject, [];
    }
    ghost var kids;
    code, kids := ReceiveChildren(db, current, node.children, c);
    assert (base + [current]) + kids == base + ([current] + kids);
    if code != OK {
      KidsHang(current, kids, ToTrees(node.children, |node.children|), Received(node.children, |node.children|),
               PlaceAt(current));
      Withdraw(db, current, kids, parent, c, base);
      return code, [];
    }
    TreeAssembled(tree, at, current.ohfi, current, kids);
    added := [current] + kids;
  }

  lemma FolderParts(node: Remote)
    requires node.RemoteFolder?
    ensures !node.makes ==> Outcome(node) == FailedOperateObject && Bytes(node) == 0 && IdsUsed(node) == 1
    ensures node.makes ==>
              var n := Received(node.children, |node.children|);
              && Outcome(node) == (if n == |node.children| then OK else Outcome(node.children[n]))
              && Bytes(node) == BytesUpTo(node.children, |node.children|)
              && IdsUsed(node) == 1 + IdsUsedUpTo(node.children, |node.children|)
  {
  }

  /** The loop over the handles of a folder (src/opencma.c:933-944): stops at the first failure. */
  method ReceiveChildren(db: Database, top: CmaObject, children: seq<Remote>, ghost c: nat)
    returns (code: Code, ghost kids: seq<CmaObject>)
    requires db.Valid() && c < |db.lists| && top in db.lists[c] && File !in top.kinds && OHFI_OFFSET <= top.ohfi
    modifies db`ohfiCount, db`lists, db`home, db`repr, db.lists[c]`next, db.lists[c]`size
    ensures db.Valid() && fresh(kids) && old(db.repr) <= db.repr && fresh(db.repr - old(db.repr))
    ensures var n := Received(children, |children|);
            && code == (if n == |children| then OK else Outcome(children[n]))
            && Views(kids) == PreorderUpTo(ToTrees(children, |children|), n, PlaceAt(top), old(db.ohfiCount))
    ensures db.lists == old(db.lists)[c := old(db.lists[c]) + kids]
    ensures db.ohfiCount == old(db.ohfiCount) + IdsUsedUpTo(children, |children|)
    ensures forall o {:trigger o.size} :: o in old(db.lists[c]) ==>
              o.size == old(o.size) + Gain(old(db.lists[c]), o, top, BytesUpTo(children, |children|))
    decreases children, 0
  {
    hide Shape, Within, AllLinked, Ordered, Rooted, Keep, Subtree, Above, HasId, Preorder, PreorderUpTo, Views,
         ToTree, ToTrees, Received, BytesUpTo, IdsUsedUpTo, NodeCountUpTo, Replaced;
    ghost var all, s, ts, at, id := db.lists, db.lists[c], ToTrees(children, |children|), PlaceAt(top), db.ohfiCount;
    code, kids := OK, [];
    var i := 0;
    EmptyReceived(children, ts, at, id);
    EmptyTail(all, c);
    while i < |children|
      invariant i <= |children| && Received(children, i) == i && code == OK
      invariant old(db.repr) <= db.repr && fresh(db.repr - old(db.repr))
      invariant db.Valid() && |db.lists| == |all| && fresh(kids) && db.lists == all[c := s + kids]
      invariant at == PlaceAt(top) && db.ohfiCount == id + IdsUsedUpTo(children, i) == id + NodeCountUpTo(ts, i)
      invariant Views(kids) == PreorderUpTo(ts, i, at, id)
      invariant forall o {:trigger o.size} :: o in s ==> o.size == old(o.size) + Gain(s, o, top, BytesUpTo(children, i))
    {
      ChildStep(children, ts, i, at, id);
      ghost var added;
      code, added := ReceiveOne(db, top, children[i], c, s, kids);
      if code != OK {
        assert kids + added == kids;
        return;
      }
      ViewsConcat(kids, added);
      kids := kids + added;
      i := i + 1;
    }
  }

  /** One round of that loop, `kids` being what the earlier rounds have added to the list `s`. */
  method ReceiveOne(db: Database, top: CmaObject, child: Remote, ghost c: nat, ghost s: seq<CmaObject>,
                    ghost kids: seq<CmaObject>)
    returns (code: Code, ghost added: seq<CmaObject>)
    requires db.Valid() && c < |db.lists| && db.lists[c] == s + kids
    requires top in s && File !in top.kinds && OHFI_OFFSET <= top.ohfi
    modifies db`ohfiCount, db`lists, db`home, db`repr, db.lists[c]`next, db.lists[c]`size
    ensures db.Valid() && fresh(added) && old(db.repr) <= db.repr && fresh(db.repr - old(db.repr))
    ensures code == Outcome(child) && db.ohfiCount == old(db.ohfiCount) + IdsUsed(child)
    ensures db.lists == old(db.lists)[c := s + (kids + added)]
    ensures code == OK ==> Views(added) == Preorder(ToTree(child), PlaceAt(top), old(db.ohfiCount))
    ensures code != OK ==> added == []
    ensures Views(kids) == old(Views(kids))
    ensures forall o {:trigger o.size} :: o in s ==> o.size == old(o.size) + Gain(s, o, top, Bytes(child))
    decreases child, 5
  {
    hide Shape, Within, AllLinked, Ordered, Rooted, Keep, Subtree, Above, HasId, Preorder, Views, ToTree;
    NotReplacing(db, c, s, kids, top, child);
    code, added := GetAllObjects(db, top, child, c);
    assert (s + kids) + added == s + (kids + added);
    SameViews(kids, old(Views(kids)));
  }

  lemma SelfGain(base: seq<CmaObject>, current: CmaObject)
    requires Ordered(base + [current])
    ensures Above(base + [current], current, current)
  {
    AboveSelf(base + [current], current);
  }

  lemma EmptyForest(at: Place, id: nat)
    ensures Views([]) == [] && PreorderUpTo([], 0, at, id) == []
  {
  }

  lemma EmptyReceived(children: seq<Remote>, ts: seq<Tree>, at: Place, id: nat)
    ensures Received(children, 0) == 0 && BytesUpTo(children, 0) == 0 && IdsUsedUpTo(children, 0) == 0
    ensures Views([]) == [] && PreorderUpTo(ts, 0, at, id) == [] && NodeCountUpTo(ts, 0) == 0
  {
  }

  lemma EmptyTail(all: seq<seq<CmaObject>>, c: nat)
    requires c < |all|
    ensures all == all[c := all[c] + []]
  {
    assert all[c] + [] == all[c];
  }

  /** What one more child adds, and that nothing is added behind a failure. */
  lemma ChildStep(children: seq<Remote>, ts: seq<Tree>, i: nat, at: Place, id: nat)
    requires i < |children| && Received(children, i) == i && ts == ToTrees(children, |children|)
    ensures BytesUpTo(children, i + 1) == BytesUpTo(children, i) + Bytes(children[i])
    ensures IdsUsedUpTo(children, i + 1) == IdsUsedUpTo(children, i) + IdsUsed(children[i])
    ensures |ts| == |children|
    ensures PreorderUpTo(ts, i + 1, at, id) ==
            PreorderUpTo(ts, i, at, id) + Preorder(ToTree(children[i]), at, id + NodeCountUpTo(ts, i))
    ensures Outcome(children[i]) == OK ==>
              Received(children, i + 1) == i + 1 &&
              NodeCountUpTo(ts, i + 1) == NodeCountUpTo(ts, i) + IdsUsed(children[i])
    ensures Outcome(children[i]) != OK ==>
              && Received(children, |children|) == i
              && BytesUpTo(children, |children|) == BytesUpTo(children, i + 1)
              && IdsUsedUpTo(children, |children|) == IdsUsedUpTo(children, i + 1)
  {
    if Outcome(children[i]) == OK {
      ArrivesWhole(children[i]);
    } else {
      StuckAt(children, i, |children|);
    }
  }

  lemma {:induction false} StuckAt(children: seq<Remote>, i: nat, n: nat)
    requires i < n <= |children| && Received(children, i) == i && Outcome(children[i]) != OK
    ensures Received(children, n) == i
    ensures BytesUpTo(children, n) == BytesUpTo(children, i + 1)
    ensures IdsUsedUpTo(children, n) == IdsUsedUpTo(children, i + 1)
  {
    if n > i + 1 {
      StuckAt(children, i, n - 1);
    }
  }

  lemma SameViews(s: seq<CmaObject>, before: seq<Entry>)
    requires |before| == |s| && forall i :: 0 <= i < |s| ==> before[i] == View(s[i])
    ensures Views(s) == before
  {
  }

  /** A node received into a folder replaces nothing, and only what is above the folder grows. */
  lemma NotReplacing(db: Database, c: nat, s: seq<CmaObject>, kids: seq<CmaObject>, top: CmaObject, child: Remote)
    requires db.Valid() && c < |db.lists| && db.lists[c] == s + kids && top in s && OHFI_OFFSET <= top.ohfi
    ensures Replaced(s + kids, top, child) == {} && Keep(s + kids, {}) == s + kids && top in s + kids
    ensures forall o :: o in s ==> (Above(s + kids, o, top) <==> Above(s, o, top))
    ensures forall o :: o in kids ==> !Above(s + kids, o, top)
  {
    var r := s + kids;
    KeepAll(r, {});
    assert r[0] == s[0] && Ordered(r);
    var k :| 0 <= k < |s| && s[k] == top;
    assert r[k] == top && r[0].ohfi < OHFI_OFFSET;
    RootedPrefix(s, kids);
    forall o | o in s
      ensures Above(r, o, top) <==> Above(s, o, top)
    {
      AboveExtended(s, kids, o, top);
    }
    forall o | o in kids
      ensures !Above(r, o, top)
    {
      var j :| 0 <= j < |kids| && kids[j] == o;
      assert r[|s| + j] == o;
      SubtreeIsSubtree(r, o.ohfi);
    }
  }

  lemma RootedPrefix(s: seq<CmaObject>, more: seq<CmaObject>)
    requires s != [] && Ordered(s + more) && Rooted(s + more)
    ensures Rooted(s) && Ordered(s)
  {
    var r := s + more;
    assert forall i :: 0 <= i < |s| ==> r[i] == s[i];
    forall o | o in s && o != s[0]
      ensures HasId(s, o.ohfiParent)
    {
      assert o in r && HasId(r, o.ohfiParent);
      var p :| p in r && p.ohfi == o.ohfiParent;
      var j :| 0 <= j < |s| && s[j] == o;
      assert r[j] == o;
      var m :| 0 <= m < |r| && r[m] == p;
      assert m < |s| ==> s[m] == p;
    }
  }

  /** The tree of a node, spelled out. */
  lemma TreeParts(node: Remote, at: Place, id: nat)
    requires !node.Unreadable?
    ensures var t := ToTree(node);
            && EntryOf(t, at, id).size == Total(t)
            && (node.RemoteFile? ==> t.children == [] && Total(t) == node.size)
            && (node.RemoteFolder? ==> t.kind == Folder && t.children == ToTrees(node.children, |node.children|))
            && (Outcome(node) == OK ==> Total(t) == Bytes(node))
  {
    if Outcome(node) == OK {
      ArrivesWhole(node);
    }
  }

  lemma NothingReplaced(all: seq<seq<CmaObject>>, c: nat)
    requires c < |all|
    ensures all == all[c := Keep(all[c], {}) + []]
    ensures Keep(all[c], {}) == all[c]
  {
    KeepAll(all[c], {});
    assert all[c] + [] == all[c];
  }

  /** The objects that stay when `node` comes: the whole list, or the list without one subtree. */
  lemma BaseFacts(db: Database, c: nat, s: seq<CmaObject>, newcomer: CmaObject, parent: CmaObject, node: Remote)
    requires db.Valid() && c < |db.lists| && db.lists[c] == s + [newcomer] && parent in s
    requires newcomer.ohfiParent == parent.ohfi
    ensures var base := Keep(s, Replaced(s, parent, node));
            && parent in base && newcomer !in base
            && (forall o :: o in base ==> o in s)
            && (forall o :: o in s && o.ohfi !in Replaced(s, parent, node) ==> o in base)
            && (forall o :: o in base ==> (Above(base + [newcomer], o, newcomer) <==> Above(s, o, parent)))
  {
    PartOfCategory(db, c, s, newcomer, parent);
    var d := Replaced(s, parent, node);
    var base := Keep(s, d);
    KeepMembers(s, d);
    KeepAll(s, {});
    var r := s + [newcomer];
    RootedPrefix(s, [newcomer]);
    NewcomerLast(s, newcomer);
    if d == {} {
      GainOfNewcomer(s, base, 0, newcomer, parent);
    } else {
      var top := PathMatch(s, node.name).ohfi;
      MatchBehindRoot(s, node.name);
      SubtreeIsSubtree(s, top);
      KeepOrdered(s, d);
      RestRooted(s, top);
      AppendOrdered(base, newcomer);
      GainOfNewcomer(s, base, top, newcomer, parent);
    }
  }

  lemma NewcomerLast(s: seq<CmaObject>, newcomer: CmaObject)
    requires s != [] && Ordered(s + [newcomer])
    ensures newcomer.ohfiParent < newcomer.ohfi && newcomer !in s && forall o :: o in s ==> o.ohfi < newcomer.ohfi
  {
    var r := s + [newcomer];
    assert r[|s|] == newcomer && forall i :: 0 <= i < |s| ==> r[i] == s[i];
    forall o | o in s
      ensures o.ohfi < newcomer.ohfi
    {
      var j :| 0 <= j < |s| && s[j] == o;
      assert r[j] == o;
    }
  }
}
