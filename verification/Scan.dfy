/** Filling the database from the file system: addEntriesForDirectory, POSIX version
    (src/utilities.c:460-511). */
module Scan {
  import opened Forest
  import opened Database
  import opened Entries
  import opened Trees

  datatype Stat = Stat(isDir: bool, size: nat)

  /** One directory entry, in the order readdir delivers it.  `stat` is the outcome of stat on
      the entry's own path.  `runOn` is the outcome on the path the scan uses when the stat of the
      entries just before has failed: the buffer is then not cut back, and this name is glued to
      theirs.  `opens` and `content` are what opendir and readdir yield for the entry's own path. */
  datatype Dirent = Dirent(name: string, stat: Option<Stat>, runOn: Option<Stat>, opens: bool, content: seq<Dirent>)

  predicate Hidden(e: Dirent) {
    |e.name| > 0 && e.name[0] == '.'
  }

  function Lookup(e: Dirent, glued: bool): Option<Stat> {
    if glued then e.runOn else e.stat
  }

  /** Whether the path buffer still holds the names of entries whose stat failed. */
  function Glued(es: seq<Dirent>, n: nat): bool
    requires n <= |es|
  {
    n > 0 &&
    if Hidden(es[n - 1]) then Glued(es, n - 1) else Lookup(es[n - 1], Glued(es, n - 1)).None?
  }

  /** The trees that the scan makes of the first `n` entries. */
  function Visible(es: seq<Dirent>, n: nat): seq<Tree>
    requires n <= |es|
    decreases es, n
  {
    if n == 0 then []
    else
      var e := es[n - 1];
      var found := Lookup(e, Glued(es, n - 1));
      if Hidden(e) || found.None? then Visible(es, n - 1)
      else Visible(es, n - 1) + [TreeOf(e, found.value)]
  }

  function TreeOf(e: Dirent, found: Stat): Tree
    decreases e, 0
  {
    Tree(e.name, if found.isDir then Folder else File, found.size, 0,
         if found.isDir then Scanned(e.opens, e.content) else [])
  }

  /** The trees found in a directory: none if it cannot be opened. */
  function Scanned(opens: bool, es: seq<Dirent>): seq<Tree>
    decreases es, |es| + 1
  {
    if opens then Visible(es, |es|) else []
  }

  /** Adds what is in a directory under `last`. */
  method AddEntriesForDirectory(db: Database, last: CmaObject, opens: bool, es: seq<Dirent>, ghost c: nat)
    returns (ghost added: seq<CmaObject>)
    requires db.Valid() && c < |db.lists| && last in db.lists[c]
    modifies db`ohfiCount, db`lists, db`home, db`repr, db.lists[c]`next, last`size
    ensures db.Valid() && fresh(added) && old(db.repr) <= db.repr && fresh(db.repr - old(db.repr))
    ensures db.lists == old(db.lists)[c := old(db.lists[c]) + added]
    ensures var trees := Scanned(opens, es);
            && Views(added) == PreorderUpTo(trees, |trees|, PlaceAt(last), old(db.ohfiCount))
            && last.size == old(last.size) + TotalUpTo(trees, |trees|)
            && db.ohfiCount == old(db.ohfiCount) + NodeCountUpTo(trees, |trees|)
    decreases es, 0
  {
    hide Shape, Within, AllLinked, Visible, Glued, Lookup, TreeOf, PreorderUpTo, Preorder, NodeCountUpTo,
         NodeCount, TotalUpTo, Total, Views;
    added := [];
    assert db.lists[c] + added == db.lists[c];
    NothingScanned(es, PlaceAt(last), db.ohfiCount);
    if !opens {
      return;
    }
    ghost var all, s, trees, id, at := db.lists, db.lists[c], [], db.ohfiCount, PlaceAt(last);
    var totalSize, glued, i := 0, false, 0;
    while i < |es|
      invariant i <= |es| && glued == Glued(es, i) && trees == Visible(es, i)
      invariant old(db.repr) <= db.repr && fresh(db.repr - old(db.repr))
      invariant db.Valid() && c < |db.lists| && fresh(added) && db.lists == all[c := s + added]
      invariant Views(added) == PreorderUpTo(trees, |trees|, at, id)
      invariant totalSize == TotalUpTo(trees, |trees|) && last.size == old(last.size) && at == PlaceAt(last)
      invariant db.ohfiCount == id + NodeCountUpTo(trees, |trees|)
    {
      var e := es[i];
      ScanStep(es, i);
      i := i + 1;
      if Hidden(e) {
        continue;
      }
      var found := Lookup(e, glued);
      glued := found.None?;
      if found.None? {
        continue;
      }
      ghost var t, soFar := TreeOf(e, found.value), added;
      label before:
      var current, sub := AddEntry(db, last, e, found.value, c);
      assert Views(soFar) == old@before(Views(soFar));
      Appended(all, c, s, soFar, sub);
      OneMoreTree(trees, t, at, id);
      ViewsConcat(soFar, sub);
      added := soFar + sub;
      trees := trees + [t];
      totalSize := totalSize + current.size;
    }
    last.size := last.size + totalSize;
  }

  /** What the loop does for one entry whose stat succeeded. */
  method AddEntry(db: Database, last: CmaObject, e: Dirent, found: Stat, ghost c: nat)
    returns (current: CmaObject, ghost added: seq<CmaObject>)
    requires db.Valid() && c < |db.lists| && last in db.lists[c]
    modifies db`ohfiCount, db`lists, db`home, db`repr, db.lists[c]`next
    ensures db.Valid() && fresh(added) && old(db.repr) <= db.repr && fresh(db.repr - old(db.repr))
    ensures db.lists == old(db.lists)[c := old(db.lists[c]) + added]
    ensures var t := TreeOf(e, found);
            && Views(added) == Preorder(t, PlaceAt(last), old(db.ohfiCount))
            && current.size == Total(t)
            && db.ohfiCount == old(db.ohfiCount) + NodeCount(t)
    decreases e, 1
  {
    hide Shape, Within, AllLinked, Scanned, PreorderUpTo, Preorder, NodeCountUpTo, TotalUpTo, Views, JoinRel;
    ghost var all, s, id, at := db.lists, db.lists[c], db.ohfiCount, PlaceAt(last);
    ghost var t := TreeOf(e, found);
    current := AddToDatabase(db, last, e.name, found.size, if found.isDir then Folder else File, c);
    ghost var sub := [];
    NothingScanned(e.content, PlaceAt(current), db.ohfiCount);
    assert s + ([current] + []) == s + [current] && [current] + [] == [current];
    if Folder in current.kinds {
      sub := AddEntriesForDirectory(db, current, e.opens, e.content, c);
    }
    Appended(all, c, s, [current], sub);
    TreeAssembled(t, at, id, current, sub);
    added := [current] + sub;
  }

  lemma Appended(all: seq<seq<CmaObject>>, c: nat, s: seq<CmaObject>, a: seq<CmaObject>, b: seq<CmaObject>)
    requires c < |all|
    ensures var l := all[c := s + a];
            l[c := l[c] + b] == all[c := s + (a + b)]
  {
    assert (s + a) + b == s + (a + b);
  }

  lemma NothingScanned(es: seq<Dirent>, at: Place, id: nat)
    ensures Visible(es, 0) == [] && !Glued(es, 0)
    ensures NodeCountUpTo([], 0) == 0 && TotalUpTo([], 0) == 0 && PreorderUpTo([], 0, at, id) == []
  {
  }

  lemma ScanStep(es: seq<Dirent>, i: nat)
    requires i < |es|
    ensures var e := es[i];
            var found := Lookup(e, Glued(es, i));
            && (Hidden(e) ==> Glued(es, i + 1) == Glued(es, i) && Visible(es, i + 1) == Visible(es, i))
            && (!Hidden(e) ==> Glued(es, i + 1) == found.None?)
            && (!Hidden(e) && found.None? ==> Visible(es, i + 1) == Visible(es, i))
            && (!Hidden(e) && found.Some? ==> Visible(es, i + 1) == Visible(es, i) + [TreeOf(e, found.value)])
  {
  }

  // ---------- Which entries are seen, and with which stat ----------

  /** Names that begin with a dot are not looked at. */
  predicate Dotted(name: string) {
    name != "" && name[0] == '.'
  }

  /** The stat that each of the first `n` entries gets: its own, unless the last undotted entry before it got none;
      then it is that of the path the names have run together to. */
  ghost predicate Looked(es: seq<Dirent>, n: nat, looked: seq<Option<Stat>>) {
    && |looked| == n <= |es|
    && (forall i {:trigger looked[i]} :: 0 <= i < n && (forall m :: 0 <= m < i ==> Dotted(es[m].name)) ==>
          looked[i] == es[i].stat)
    && (forall i, j {:trigger looked[i], looked[j]} ::
          0 <= j < i < n && !Dotted(es[j].name) && (forall m :: j < m < i ==> Dotted(es[m].name)) ==>
            looked[i] == if looked[j].None? then es[i].runOn else es[i].stat)
  }

  /** The trees are those of the undotted entries that got a stat, in order, `ps` being their positions: each has the
      name, and the kind and size in that stat, and below it what the directory holds, if it is one and opens. */
  ghost predicate SeenAt(es: seq<Dirent>, n: nat, looked: seq<Option<Stat>>, ps: seq<nat>, trees: seq<Tree>) {
    && |looked| == n <= |es| && |ps| == |trees|
    && (forall k, l {:trigger ps[k], ps[l]} :: 0 <= k < l < |ps| ==> ps[k] < ps[l])
    && (forall i {:trigger looked[i]} :: 0 <= i < n ==> (i in ps <==> !Dotted(es[i].name) && looked[i].Some?))
    && (forall k {:trigger trees[k]} {:trigger ps[k]} :: 0 <= k < |ps| ==>
          ps[k] < n && looked[ps[k]].Some? && TreeFor(es[ps[k]], looked[ps[k]].value, trees[k]))
  }

  predicate TreeFor(e: Dirent, stat: Stat, t: Tree) {
    && t.name == e.name && t.kind == (if stat.isDir then Folder else File) && t.own == stat.size && t.handle == 0
    && t.children == if stat.isDir && e.opens then Visible(e.content, |e.content|) else []
  }

  lemma {:induction false} VisibleIs(es: seq<Dirent>, n: nat) returns (looked: seq<Option<Stat>>, ps: seq<nat>)
    requires n <= |es|
    ensures Looked(es, n, looked) && SeenAt(es, n, looked, ps, Visible(es, n))
  {
    ghost var last;
    looked, ps, last := VisibleUpTo(es, n);
  }

  /** The last undotted entry before `i` decides whether the names have run together. */
  ghost predicate LastLooked(es: seq<Dirent>, i: nat, looked: seq<Option<Stat>>, last: int) {
    && -1 <= last < i <= |es| && |looked| == i
    && (forall m :: last < m < i ==> Dotted(es[m].name))
    && (last >= 0 ==> !Dotted(es[last].name))
    && (Glued(es, i) <==> last >= 0 && looked[last].None?)
  }

  lemma {:induction false} VisibleUpTo(es: seq<Dirent>, n: nat)
    returns (looked: seq<Option<Stat>>, ps: seq<nat>, last: int)
    requires n <= |es|
    ensures LastLooked(es, n, looked, last) && Looked(es, n, looked) && SeenAt(es, n, looked, ps, Visible(es, n))
  {
    hide SeenAt, Looked, LastLooked, Visible, Glued, Lookup;
    if n == 0 {
      NothingLooked(es);
      looked, ps, last := [], [], -1;
    } else {
      looked, ps, last := VisibleUpTo(es, n - 1);
      var i := n - 1;
      var found := Lookup(es[i], Glued(es, i));
      OneSeen(es, i, looked, ps, found);
      NextLooked(es, i, looked, last, found);
      if !Dotted(es[i].name) {
        last := i;
        if found.Some? {
          ps := ps + [i];
        }
      }
      looked := looked + [found];
    }
  }

  lemma NothingLooked(es: seq<Dirent>)
    ensures LastLooked(es, 0, [], -1) && Looked(es, 0, []) && SeenAt(es, 0, [], [], Visible(es, 0))
  {
  }

  lemma NextLooked(es: seq<Dirent>, i: nat, looked: seq<Option<Stat>>, last: int, found: Option<Stat>)
    requires i < |es| && LastLooked(es, i, looked, last) && Looked(es, i, looked)
    requires found == Lookup(es[i], Glued(es, i))
    ensures Looked(es, i + 1, looked + [found])
    ensures LastLooked(es, i + 1, looked + [found], if Dotted(es[i].name) then last else i)
  {
    ScanStep(es, i);
    OneLooked(es, i, looked, last, found);
  }

  lemma OneLooked(es: seq<Dirent>, i: nat, looked: seq<Option<Stat>>, last: int, found: Option<Stat>)
    requires i < |es| && Looked(es, i, looked) && -1 <= last < i
    requires forall m :: last < m < i ==> Dotted(es[m].name)
    requires last >= 0 ==> !Dotted(es[last].name)
    requires found == if last >= 0 && looked[last].None? then es[i].runOn else es[i].stat
    ensures Looked(es, i + 1, looked + [found])
  {
    var more := looked + [found];
    forall a, b {:trigger more[a], more[b]} |
      0 <= b < a < i + 1 && !Dotted(es[b].name) && (forall m :: b < m < a ==> Dotted(es[m].name))
      ensures more[a] == if more[b].None? then es[a].runOn else es[a].stat
    {
      if a == i {
        assert b == last;
      } else {
        assert more[a] == looked[a] && more[b] == looked[b];
      }
    }
  }

  lemma OneSeen(es: seq<Dirent>, i: nat, looked: seq<Option<Stat>>, ps: seq<nat>, found: Option<Stat>)
    requires i < |es| && SeenAt(es, i, looked, ps, Visible(es, i)) && found == Lookup(es[i], Glued(es, i))
    ensures SeenAt(es, i + 1, looked + [found], if !Dotted(es[i].name) && found.Some? then ps + [i] else ps,
                   Visible(es, i + 1))
  {
    hide Visible, Glued, Lookup, Scanned, TreeOf, TreeFor;
    ScanStep(es, i);
    if !Dotted(es[i].name) && found.Some? {
      ChildrenSeen(es[i], found.value);
      OneMoreSeen(es, i, looked, ps, Visible(es, i), found, TreeOf(es[i], found.value));
    } else {
      NoneMoreSeen(es, i, looked, ps, Visible(es, i), found);
    }
  }

  lemma OneMoreSeen(es: seq<Dirent>, i: nat, looked: seq<Option<Stat>>, ps: seq<nat>, trees: seq<Tree>,
                    found: Option<Stat>, t: Tree)
    requires i < |es| && SeenAt(es, i, looked, ps, trees) && found.Some? && !Dotted(es[i].name)
    requires TreeFor(es[i], found.value, t)
    ensures SeenAt(es, i + 1, looked + [found], ps + [i], trees + [t])
  {
    hide TreeFor;
    var more, at, all := looked + [found], ps + [i], trees + [t];
    forall m {:trigger more[m]} | 0 <= m < i + 1
      ensures m in at <==> !Dotted(es[m].name) && more[m].Some?
    {
      if m < i {
        assert more[m] == looked[m];
      }
    }
    forall k {:trigger all[k]} | 0 <= k < |at|
      ensures at[k] < i + 1 && more[at[k]].Some? && TreeFor(es[at[k]], more[at[k]].value, all[k])
    {
      if k < |ps| {
        assert all[k] == trees[k] && at[k] == ps[k] && more[at[k]] == looked[ps[k]];
      }
    }
    assert forall k :: 0 <= k < |ps| ==> trees[k] == trees[k] && ps[k] < i;
  }

  lemma NoneMoreSeen(es: seq<Dirent>, i: nat, looked: seq<Option<Stat>>, ps: seq<nat>, trees: seq<Tree>,
                     found: Option<Stat>)
    requires i < |es| && SeenAt(es, i, looked, ps, trees) && (found.None? || Dotted(es[i].name))
    ensures SeenAt(es, i + 1, looked + [found], ps, trees)
  {
    hide TreeFor;
    var more := looked + [found];
    forall m {:trigger more[m]} | 0 <= m < i + 1
      ensures m in ps <==> !Dotted(es[m].name) && more[m].Some?
    {
      if m < i {
        assert more[m] == looked[m];
      } else {
        assert forall k :: 0 <= k < |ps| ==> trees[k] == trees[k] && ps[k] < i;
      }
    }
    forall k {:trigger trees[k]} | 0 <= k < |ps|
      ensures ps[k] < i + 1 && more[ps[k]].Some? && TreeFor(es[ps[k]], more[ps[k]].value, trees[k])
    {
      assert more[ps[k]] == looked[ps[k]];
    }
  }

  lemma ChildrenSeen(e: Dirent, found: Stat)
    ensures TreeFor(e, found, TreeOf(e, found))
  {
  }

  // ---------- What a failed stat costs ----------

  /** The trees that the scan is meant to make: of all visible entries, at any depth, that stat succeeds on. */
  function Meant(es: seq<Dirent>, n: nat): seq<Tree>
    requires n <= |es|
    decreases es, n
  {
    if n == 0 then []
    else if Hidden(es[n - 1]) || es[n - 1].stat.None? then Meant(es, n - 1)
    else Meant(es, n - 1) + [MeantOf(es[n - 1], es[n - 1].stat.value)]
  }

  function MeantOf(e: Dirent, stat: Stat): Tree
    decreases e, 0
  {
    Tree(e.name, if stat.isDir then Folder else File, stat.size, 0,
         if stat.isDir && e.opens then Meant(e.content, |e.content|) else [])
  }

  /** No directory holds a name twice. */
  predicate Distinct(es: seq<Dirent>)
    decreases es
  {
    && (forall i, j :: 0 <= i < j < |es| ==> es[i].name != es[j].name)
    && forall e :: e in es ==> Distinct(e.content)
  }

  /** The scan gets every entry's own stat, in this directory and in those that it reads below. */
  predicate AllReadRight(es: seq<Dirent>)
    decreases es
  {
    forall i {:trigger es[i]} :: 0 <= i < |es| ==>
      Hidden(es[i]) ||
      (Lookup(es[i], Glued(es, i)) == es[i].stat &&
       (es[i].stat.Some? && es[i].stat.value.isDir && es[i].opens ==> AllReadRight(es[i].content)))
  }

  predicate ReadRight(es: seq<Dirent>, i: nat)
    requires i < |es|
  {
    var e := es[i];
    Hidden(e) ||
    (Lookup(e, Glued(es, i)) == e.stat &&
     (e.stat.Some? && e.stat.value.isDir && e.opens ==> AllReadRight(e.content)))
  }

  /** A stat that fails leaves the name in the path buffer.  The scan finds, at any depth, exactly what it is
      meant to find if and only if in no directory it reads the stat of a glued path differs from the entry's. */
  lemma {:induction false} ScanCompleteIff(es: seq<Dirent>)
    requires Distinct(es)
    ensures Visible(es, |es|) == Meant(es, |es|) <==> AllReadRight(es)
    decreases es, |es| + 1
  {
    ScanUpTo(es, |es|);
    EachReadRight(es);
  }

  lemma {:induction false} EachReadRight(es: seq<Dirent>)
    ensures AllReadRight(es) <==> forall i :: 0 <= i < |es| ==> ReadRight(es, i)
  {
    hide Glued, Lookup, Hidden;
    if !AllReadRight(es) {
      var i :| 0 <= i < |es| && !Hidden(es[i]) &&
               !(Lookup(es[i], Glued(es, i)) == es[i].stat &&
                 (es[i].stat.Some? && es[i].stat.value.isDir && es[i].opens ==> AllReadRight(es[i].content)));
      assert !ReadRight(es, i);
    } else {
      forall i | 0 <= i < |es|
        ensures ReadRight(es, i)
      {
        var e := es[i];
      }
    }
  }

  lemma {:induction false} ScanUpTo(es: seq<Dirent>, n: nat)
    requires Distinct(es) && n <= |es|
    ensures Visible(es, n) == Meant(es, n) <==> forall i :: 0 <= i < n ==> ReadRight(es, i)
    decreases es, n
  {
    hide Distinct, Glued, ReadRight, Visible, Meant, Seen, ToSee, Lookup;
    if n == 0 {
      NothingSeen(es);
    } else {
      ScanUpTo(es, n - 1);
      EntryUpTo(es, n - 1);
      OneMoreEntry(es, n - 1);
      if Visible(es, n) == Meant(es, n) {
        PrefixAgrees(es, n - 1);
      }
    }
  }

  lemma NothingSeen(es: seq<Dirent>)
    ensures Visible(es, 0) == [] && Meant(es, 0) == []
  {
  }

  /** What one entry adds on either side. */
  function Seen(e: Dirent, found: Option<Stat>): seq<Tree> {
    if Hidden(e) || found.None? then [] else [TreeOf(e, found.value)]
  }

  function ToSee(e: Dirent): seq<Tree> {
    if Hidden(e) || e.stat.None? then [] else [MeantOf(e, e.stat.value)]
  }

  /** It is the same, a tree or none, exactly if the entry is read right. */
  lemma {:induction false} EntryUpTo(es: seq<Dirent>, i: nat)
    requires Distinct(es) && i < |es|
    ensures ReadRight(es, i) <==> Seen(es[i], Lookup(es[i], Glued(es, i))) == ToSee(es[i])
    decreases es, i
  {
    hide Glued, AllReadRight, Distinct;
    var e, found := es[i], Lookup(es[i], Glued(es, i));
    ContentDistinct(es, e);
    ScanCompleteIff(e.content);
    if !Hidden(e) && found.Some? && e.stat.Some? {
      assert Seen(e, found)[0] == TreeOf(e, found.value) && ToSee(e)[0] == MeantOf(e, e.stat.value);
      assert TreeOf(e, found.value) == MeantOf(e, e.stat.value) <==>
        found == e.stat && (found.value.isDir && e.opens ==> AllReadRight(e.content));
    }
  }

  lemma ContentDistinct(es: seq<Dirent>, e: Dirent)
    requires Distinct(es) && e in es
    ensures Distinct(e.content)
  {
  }

  lemma OneMoreEntry(es: seq<Dirent>, i: nat)
    requires i < |es|
    ensures Visible(es, i + 1) == Visible(es, i) + Seen(es[i], Lookup(es[i], Glued(es, i)))
    ensures Meant(es, i + 1) == Meant(es, i) + ToSee(es[i])
  {
    hide TreeOf, MeantOf, Glued, Lookup;
  }

  /** The trees that entries add carry their names, so equal lists grow by equal trees. */
  lemma PrefixAgrees(es: seq<Dirent>, i: nat)
    requires Distinct(es) && i < |es| && Visible(es, i + 1) == Meant(es, i + 1)
    ensures Visible(es, i) == Meant(es, i)
    ensures Seen(es[i], Lookup(es[i], Glued(es, i))) == ToSee(es[i])
  {
    hide Distinct, Glued, TreeOf, MeantOf, Lookup, Visible, Meant;
    NamesBefore(es, i);
    TreeNames(es[i]);
    OneMoreEntry(es, i);
    SameEnds(Visible(es, i), Seen(es[i], Lookup(es[i], Glued(es, i))), Meant(es, i), ToSee(es[i]), es[i].name);
  }

  lemma Overlap(a: seq<Tree>, x: seq<Tree>, b: seq<Tree>, y: seq<Tree>)
    requires a + x == b + y
    ensures |a| < |b| ==> exists t :: t in x && t in b
  {
    if |a| < |b| {
      assert (a + x)[|a|] == x[0] && (b + y)[|a|] == b[|a|];
      assert x[0] in x && b[|a|] in b;
    }
  }

  lemma SameEnds(a: seq<Tree>, x: seq<Tree>, b: seq<Tree>, y: seq<Tree>, name: string)
    requires a + x == b + y && |x| <= 1 && |y| <= 1
    requires (forall t :: t in a || t in b ==> t.name != name) && (forall t :: t in x || t in y ==> t.name == name)
    ensures a == b && x == y
  {
    Overlap(a, x, b, y);
    Overlap(b, y, a, x);
    assert a == (a + x)[..|a|] && b == (b + y)[..|b|];
    assert x == (a + x)[|a|..] && y == (b + y)[|b|..];
  }

  lemma TreeNames(e: Dirent)
    ensures forall s: Stat :: TreeOf(e, s).name == e.name
    ensures forall s: Stat :: MeantOf(e, s).name == e.name
  {
  }

  lemma NamesBefore(es: seq<Dirent>, i: nat)
    requires Distinct(es) && i < |es|
    ensures forall t :: t in Visible(es, i) || t in Meant(es, i) ==> t.name != es[i].name
  {
    NamesFrom(es, i);
  }

  predicate NameAmong(es: seq<Dirent>, n: nat, name: string)
    requires n <= |es|
  {
    exists i :: 0 <= i < n && es[i].name == name
  }

  lemma {:induction false} NamesFrom(es: seq<Dirent>, n: nat)
    requires n <= |es|
    ensures forall t :: t in Visible(es, n) || t in Meant(es, n) ==> NameAmong(es, n, t.name)
  {
    if n > 0 {
      NamesFrom(es, n - 1);
      LastNames(es, n);
      hide Visible, Meant;
      forall t | t in Visible(es, n) || t in Meant(es, n)
        ensures NameAmong(es, n, t.name)
      {
        if t in Visible(es, n - 1) || t in Meant(es, n - 1) {
          var i :| 0 <= i < n - 1 && es[i].name == t.name;
          assert es[i].name == t.name;
        } else {
          assert es[n - 1].name == t.name;
        }
      }
    }
  }

  lemma LastNames(es: seq<Dirent>, n: nat)
    requires 0 < n <= |es|
    ensures forall t :: t in Visible(es, n) ==> t in Visible(es, n - 1) || t.name == es[n - 1].name
    ensures forall t :: t in Meant(es, n) ==> t in Meant(es, n - 1) || t.name == es[n - 1].name
  {
    hide TreeOf, MeantOf, Glued, Lookup;
    TreeNames(es[n - 1]);
  }

  // ---------- Where no glued path exists ----------

  predicate NoGluedPath(es: seq<Dirent>)
    decreases es
  {
    forall e :: e in es ==> e.runOn == None && NoGluedPath(e.content)
  }

  predicate Failing(e: Dirent) {
    !Hidden(e) && e.stat.None?
  }

  /** Some entry that stat succeeds on comes behind one that it fails on. */
  predicate Overrun(es: seq<Dirent>, n: nat)
    requires n <= |es|
  {
    exists i, j :: 0 <= i < j < n && Failing(es[i]) && !Hidden(es[j]) && es[j].stat.Some?
  }

  /** Nor does that happen in any directory below that can be read. */
  predicate NeverOverrun(es: seq<Dirent>)
    decreases es
  {
    && !Overrun(es, |es|)
    && forall e :: e in es && !Hidden(e) && e.stat.Some? && e.stat.value.isDir && e.opens ==> NeverOverrun(e.content)
  }

  /** If no glued path exists, the scan is complete exactly when nothing that can be read comes behind an entry that
      cannot, in any directory it reads. */
  lemma ScanCompleteIffNeverOverrun(es: seq<Dirent>)
    requires Distinct(es) && NoGluedPath(es)
    ensures Visible(es, |es|) == Meant(es, |es|) <==> NeverOverrun(es)
  {
    ScanCompleteIff(es);
    RightIffNeverOverrun(es);
  }

  lemma {:induction false} GluedBehindFailing(es: seq<Dirent>, n: nat)
    requires n <= |es| && forall e :: e in es ==> e.runOn == None
    ensures Glued(es, n) <==> exists i :: 0 <= i < n && Failing(es[i])
  {
    if n > 0 {
      GluedBehindFailing(es, n - 1);
      assert es[n - 1] in es;
    }
  }

  /** Entry `i`, when no path in this directory can be glued. */
  predicate EntryRight(es: seq<Dirent>, i: nat)
    requires i < |es|
  {
    var e := es[i];
    Hidden(e) ||
    (!(e.stat.Some? && exists j :: 0 <= j < i && Failing(es[j])) &&
     (e.stat.Some? && e.stat.value.isDir && e.opens ==> NeverOverrun(e.content)))
  }

  lemma EachEntryRight(es: seq<Dirent>)
    ensures NeverOverrun(es) <==> forall i :: 0 <= i < |es| ==> EntryRight(es, i)
  {
    hide Hidden, Failing;
    if NeverOverrun(es) {
      forall i | 0 <= i < |es|
        ensures EntryRight(es, i)
      {
        assert es[i] in es;
        if !Hidden(es[i]) && es[i].stat.Some? {
          NotOverrunAt(es, i);
        }
      }
    } else if Overrun(es, |es|) {
      var i, j :| 0 <= i < j < |es| && Failing(es[i]) && !Hidden(es[j]) && es[j].stat.Some?;
      assert !EntryRight(es, j);
    } else {
      var e :| e in es && !Hidden(e) && e.stat.Some? && e.stat.value.isDir && e.opens && !NeverOverrun(e.content);
      var i :| 0 <= i < |es| && es[i] == e;
      assert !EntryRight(es, i);
    }
  }

  lemma NotOverrunAt(es: seq<Dirent>, i: nat)
    requires i < |es| && !Overrun(es, |es|) && !Hidden(es[i]) && es[i].stat.Some?
    ensures forall j :: 0 <= j < i ==> !Failing(es[j])
  {
  }

  lemma {:induction false} RightIffNeverOverrun(es: seq<Dirent>)
    requires NoGluedPath(es)
    ensures AllReadRight(es) <==> NeverOverrun(es)
    decreases es
  {
    hide Glued, AllReadRight, NeverOverrun, Failing, Hidden;
    EachReadRight(es);
    EachEntryRight(es);
    forall i | 0 <= i < |es|
      ensures ReadRight(es, i) <==> EntryRight(es, i)
    {
      assert es[i] in es;
      GluedBehindFailing(es, i);
      RightIffNeverOverrun(es[i].content);
    }
  }
}
