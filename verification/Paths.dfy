/** Names and paths through additions and removals. */
module Paths {
  import opened Forest
  import opened Removal
  import opened Database
  import opened Entries
  import opened Trees
  import opened Rename
  import opened RenameLaws

  predicate PathUnder(e: Entry, at: Place) {
    e.relPath == Some(JoinRel(at.relPath, e.name)) && e.path == at.path + "/" + e.name
  }

  /** Every object of the list has the path that its parent in the list gives it. */
  ghost predicate Tied(s: seq<CmaObject>)
    reads s`name, s`relPath, s`path
  {
    forall o, p {:trigger FitsUnder(o, p)} :: o in s && p in s && o.ohfiParent == p.ohfi ==> FitsUnder(o, p)
  }

  ghost predicate FitsUnder(o: CmaObject, p: CmaObject)
    reads o`name, o`relPath, o`path, p`relPath, p`path
    ensures FitsUnder(o, p) <==> PathOk(View(o), View(p))
  {
    o.relPath == Some(JoinRel(p.relPath, o.name)) && o.path == p.path + "/" + o.name
  }

  lemma TiedIsPathsOk(s: seq<CmaObject>)
    requires Ordered(s) && s != [] && Rooted(s) && s[0].ohfiParent == 0 && 0 < s[0].ohfi
    ensures PathsOk(s, Views(s)) <==> s[0].relPath == None && Tied(s)
  {
    hide FitsUnder, PathOk;
    var v := Views(s);
    if s[0].relPath == None && Tied(s) {
      forall i | 0 < i < |s|
        ensures HasId(s, s[i].ohfiParent) && PathOk(v[i], v[ParentIndex(s, i)])
      {
        assert s[i] in s && s[i] != s[0] && HasId(s, s[i].ohfiParent);
        assert FitsUnder(s[i], s[ParentIndex(s, i)]);
      }
    }
    if PathsOk(s, v) {
      forall o, p | o in s && p in s && o.ohfiParent == p.ohfi
        ensures FitsUnder(o, p)
      {
        var i, m := Position(s, o), Position(s, p);
        assert 0 < i;
        PathOkAt(s, v, i);
        SameId(s, p, s[ParentIndex(s, i)]);
        assert v[i] == View(o) && v[ParentIndex(s, i)] == View(p);
      }
    }
  }

  lemma KeepTied(s: seq<CmaObject>, d: set<nat>)
    requires Tied(s)
    ensures Tied(Keep(s, d))
  {
    KeepMembers(s, d);
  }

  /** In a preorder, every path fits the place or the entry it is under. */
  lemma {:induction false} PreorderPaths(t: Tree, at: Place, id: nat, j: nat)
    requires at.ohfi < id && j < NodeCount(t)
    ensures var v := Preorder(t, at, id);
            && |v| == NodeCount(t)
            && v[j].relPath.Some?
            && (if j == 0 then PathUnder(v[j], at)
                else id <= v[j].ohfiParent < id + |v| && PathOk(v[j], v[v[j].ohfiParent - id]))
    decreases t, 0
  {
    var e := EntryOf(t, at, id);
    PreorderIds(t, at, id);
    if j > 0 {
      var below := PreorderUpTo(t.children, |t.children|, PlaceOf(e), id + 1);
      PreorderUpToIds(t.children, |t.children|, PlaceOf(e), id + 1);
      PreorderUpToPaths(t.children, |t.children|, PlaceOf(e), id + 1, j - 1);
      assert Preorder(t, at, id)[j] == below[j - 1];
      var p := below[j - 1].ohfiParent;
      assert p != id ==> Preorder(t, at, id)[p - id] == below[p - (id + 1)];
    }
  }

  lemma {:induction false} PreorderUpToPaths(ts: seq<Tree>, n: nat, at: Place, id: nat, j: nat)
    requires n <= |ts| && at.ohfi < id && j < NodeCountUpTo(ts, n)
    ensures var v := PreorderUpTo(ts, n, at, id);
            && |v| == NodeCountUpTo(ts, n)
            && v[j].relPath.Some?
            && (if v[j].ohfiParent == at.ohfi then PathUnder(v[j], at)
                else id <= v[j].ohfiParent < id + |v| && PathOk(v[j], v[v[j].ohfiParent - id]))
    decreases ts, n
  {
    hide PathOk, PathUnder, Preorder, NodeCount;
    var before := PreorderUpTo(ts, n - 1, at, id);
    var k := NodeCountUpTo(ts, n - 1);
    var last := Preorder(ts[n - 1], at, id + k);
    PreorderUpToIds(ts, n - 1, at, id);
    PreorderIds(ts[n - 1], at, id + k);
    if j < k {
      PreorderUpToPaths(ts, n - 1, at, id, j);
    } else {
      PreorderPaths(ts[n - 1], at, id + k, j - k);
      assert PreorderUpTo(ts, n, at, id)[j] == last[j - k];
    }
  }

  /** Objects that come in as a preorder under `last` are tied to it and to each other. */
  lemma AppendTied(s: seq<CmaObject>, last: CmaObject, added: seq<CmaObject>, ts: seq<Tree>, n: nat, at: Place, id: nat)
    requires Ordered(s + added) && last in s && Tied(s) && n <= |ts|
    requires at.ohfi == last.ohfi && at.relPath == last.relPath && at.path == last.path
    requires Views(added) == PreorderUpTo(ts, n, at, id)
    requires forall o :: o in s ==> o.ohfi < id && o.ohfiParent < id
    ensures Tied(s + added) && forall o :: o in added ==> o.relPath.Some?
  {
    hide PreorderUpTo, NodeCountUpTo, JoinRel, PathOk;
    var r, v := s + added, Views(added);
    PreorderUpToIds(ts, n, at, id);
    forall o | o in added
      ensures o.relPath.Some? && id <= o.ohfi
    {
      var j := Position(added, o);
      assert v[j] == View(o);
      PreorderUpToPaths(ts, n, at, id, j);
    }
    forall o, p | o in r && p in r && o.ohfiParent == p.ohfi
      ensures FitsUnder(o, p)
    {
      if o in added {
        var j := Position(added, o);
        assert v[j] == View(o);
        PreorderUpToPaths(ts, n, at, id, j);
        if p in added {
          var m := Position(added, p);
          assert v[m] == View(p) && v[m].ohfi == id + m;
        } else if o.ohfiParent == at.ohfi {
          SameInList(r, last, p);
          UnderIsOk(View(o), at, View(last));
        }
      }
    }
  }

  lemma SameInList(r: seq<CmaObject>, a: CmaObject, b: CmaObject)
    requires Ordered(r) && a in r && b in r && a.ohfi == b.ohfi
    ensures a == b
  {
    SameId(r, a, b);
  }

  lemma UnderIsOk(e: Entry, at: Place, p: Entry)
    requires PathUnder(e, at) && p.relPath == at.relPath && p.path == at.path
    ensures PathOk(e, p)
  {
  }
}
