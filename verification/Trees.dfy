/** What a stretch of a category list looks like when it is the preorder of a forest. */
module Trees {
  import opened Forest
  import opened Entries

  /** The contents of an object, apart from its links. */
  datatype Entry = Entry(ohfi: nat, ohfiParent: nat, kinds: set<DataKind>, name: string,
                         relPath: Option<string>, path: string, size: nat, handle: nat)

  /** What an object hands on to the objects created under it. */
  datatype Place = Place(ohfi: nat, kinds: set<DataKind>, relPath: Option<string>, path: string)

  /** A file or folder, with the size it has by itself. */
  datatype Tree = Tree(name: string, kind: DataKind, own: nat, handle: nat, children: seq<Tree>)

  ghost function View(o: CmaObject): Entry
    reads o`name, o`relPath, o`path, o`size, o`handle
  {
    Entry(o.ohfi, o.ohfiParent, o.kinds, o.name, o.relPath, o.path, o.size, o.handle)
  }

  ghost function Views(s: seq<CmaObject>): (r: seq<Entry>)
    reads s`name, s`relPath, s`path, s`size, s`handle
    ensures |r| == |s| && forall i :: 0 <= i < |s| ==> r[i] == View(s[i])
  {
    if s == [] then [] else Views(s[..|s| - 1]) + [View(s[|s| - 1])]
  }

  ghost function PlaceAt(o: CmaObject): Place
    reads o`relPath, o`path
  {
    Place(o.ohfi, o.kinds, o.relPath, o.path)
  }

  function NodeCount(t: Tree): nat
    decreases t, 0
  {
    1 + NodeCountUpTo(t.children, |t.children|)
  }

  function NodeCountUpTo(ts: seq<Tree>, n: nat): nat
    requires n <= |ts|
    decreases ts, n
  {
    if n == 0 then 0 else NodeCountUpTo(ts, n - 1) + NodeCount(ts[n - 1])
  }

  /** A folder is as large as everything in it, and what it has by itself. */
  function Total(t: Tree): nat
    decreases t, 0
  {
    t.own + TotalUpTo(t.children, |t.children|)
  }

  function TotalUpTo(ts: seq<Tree>, n: nat): nat
    requires n <= |ts|
    decreases ts, n
  {
    if n == 0 then 0 else TotalUpTo(ts, n - 1) + Total(ts[n - 1])
  }

  function EntryOf(t: Tree, at: Place, id: nat): Entry {
    Entry(id, at.ohfi, {t.kind} + (at.kinds - {Folder}), t.name, Some(JoinRel(at.relPath, t.name)),
          at.path + "/" + t.name, Total(t), t.handle)
  }

  function PlaceOf(e: Entry): Place {
    Place(e.ohfi, e.kinds, e.relPath, e.path)
  }

  /** The entries of `t` in preorder, numbered from `id`. */
  function Preorder(t: Tree, at: Place, id: nat): seq<Entry>
    decreases t, 0
  {
    var e := EntryOf(t, at, id);
    [e] + PreorderUpTo(t.children, |t.children|, PlaceOf(e), id + 1)
  }

  /** The preorders of the first `n` trees, one after the other. */
  function PreorderUpTo(ts: seq<Tree>, n: nat, at: Place, id: nat): seq<Entry>
    requires n <= |ts|
    decreases ts, n
  {
    if n == 0 then []
    else PreorderUpTo(ts, n - 1, at, id) + Preorder(ts[n - 1], at, id + NodeCountUpTo(ts, n - 1))
  }

  /** Preorder numbering: ids are consecutive, and every parent lies before, inside the same tree. */
  lemma {:induction false} PreorderIds(t: Tree, at: Place, id: nat)
    ensures |Preorder(t, at, id)| == NodeCount(t)
    ensures Preorder(t, at, id)[0] == EntryOf(t, at, id)
    ensures forall j :: 0 <= j < NodeCount(t) ==> Preorder(t, at, id)[j].ohfi == id + j
    ensures forall j :: 0 < j < NodeCount(t) ==> id <= Preorder(t, at, id)[j].ohfiParent < id + j
    decreases t, 0
  {
    PreorderUpToIds(t.children, |t.children|, PlaceOf(EntryOf(t, at, id)), id + 1);
  }

  lemma {:induction false} PreorderUpToIds(ts: seq<Tree>, n: nat, at: Place, id: nat)
    requires n <= |ts|
    ensures |PreorderUpTo(ts, n, at, id)| == NodeCountUpTo(ts, n)
    ensures forall j :: 0 <= j < NodeCountUpTo(ts, n) ==> PreorderUpTo(ts, n, at, id)[j].ohfi == id + j
    ensures forall j :: 0 <= j < NodeCountUpTo(ts, n) ==>
              var p := PreorderUpTo(ts, n, at, id)[j].ohfiParent; p == at.ohfi || id <= p < id + j
    decreases ts, n
  {
    if n > 0 {
      PreorderUpToIds(ts, n - 1, at, id);
      PreorderIds(ts[n - 1], at, id + NodeCountUpTo(ts, n - 1));
    }
  }

  /** The forest of the first `n` trees depends on these trees only. */
  lemma {:induction false} PreorderPrefix(ts: seq<Tree>, us: seq<Tree>, n: nat, at: Place, id: nat)
    requires n <= |ts| && n <= |us| && ts[..n] == us[..n]
    ensures NodeCountUpTo(ts, n) == NodeCountUpTo(us, n)
    ensures TotalUpTo(ts, n) == TotalUpTo(us, n)
    ensures PreorderUpTo(ts, n, at, id) == PreorderUpTo(us, n, at, id)
  {
    if n > 0 {
      assert ts[n - 1] == ts[..n][n - 1] == us[..n][n - 1] == us[n - 1];
      assert ts[..n - 1] == ts[..n][..n - 1] == us[..n][..n - 1] == us[..n - 1];
      PreorderPrefix(ts, us, n - 1, at, id);
    }
  }

  lemma {:induction false} ViewsConcat(a: seq<CmaObject>, b: seq<CmaObject>)
    ensures Views(a + b) == Views(a) + Views(b)
  {
    if b == [] {
      assert a + b == a;
    } else {
      assert (a + b)[..|a + b| - 1] == a + b[..|b| - 1];
      ViewsConcat(a, b[..|b| - 1]);
    }
  }

  /** One more tree behind the others. */
  lemma OneMoreTree(ts: seq<Tree>, t: Tree, at: Place, id: nat)
    ensures var us := ts + [t];
            var n := |ts|;
            && NodeCountUpTo(us, n + 1) == NodeCountUpTo(ts, n) + NodeCount(t)
            && TotalUpTo(us, n + 1) == TotalUpTo(ts, n) + Total(t)
            && PreorderUpTo(us, n + 1, at, id) ==
               PreorderUpTo(ts, n, at, id) + Preorder(t, at, id + NodeCountUpTo(ts, n))
  {
    hide NodeCount, Total, Preorder;
    assert (ts + [t])[..|ts|] == ts[..|ts|] && (ts + [t])[|ts|] == t;
    PreorderPrefix(ts + [t], ts, |ts|, at, id);
  }

  /** An object and what was put below it make up a tree. */
  lemma TreeAssembled(t: Tree, at: Place, id: nat, o: CmaObject, below: seq<CmaObject>)
    requires View(o) == EntryOf(t, at, id)
    requires Views(below) == PreorderUpTo(t.children, |t.children|, PlaceAt(o), id + 1)
    ensures Views([o] + below) == Preorder(t, at, id)
  {
    ViewsConcat([o], below);
    assert [o][..0] == [];
    assert Views([o]) == [View(o)];
  }
}
