/** Building the database: initDatabase and createDatabase (src/database.c:39-133, 315-328). */
module Startup {
  import opened Forest
  import opened Database
  import opened Entries
  import opened Trees
  import opened Scan
  import opened Sending
  import opened Browse
  import opened Paths
  import opened Sizes
  import opened Events

  /** What opendir and readdir yield for the directory of a category. */
  datatype Directory = Directory(opens: bool, content: seq<Dirent>)

  function TreesOf(d: Directory): seq<Tree> {
    Scanned(d.opens, d.content)
  }

  /** The first object id of category `i`: behind the five filters and the categories before. */
  function FirstId(dirs: seq<Directory>, i: nat): nat
    requires i <= |dirs|
  {
    if i == 0 then OHFI_OFFSET + 5
    else FirstId(dirs, i - 1) + NodeCountUpTo(TreesOf(dirs[i - 1]), |TreesOf(dirs[i - 1])|)
  }

  /** createFilter, for each of the virtual folders of one root. */
  method MakeFilters(owner: nat, specs: seq<(string, bv32)>, count: nat) returns (fs: seq<Filter>)
    ensures |fs| == |specs|
    ensures forall j :: 0 <= j < |fs| ==> fs[j] == Filter(count + j, owner, specs[j].0, specs[j].1)
  {
    fs := [];
    while |fs| < |specs|
      invariant |fs| <= |specs|
      invariant forall j :: 0 <= j < |fs| ==> fs[j] == Filter(count + j, owner, specs[j].0, specs[j].1)
    {
      fs := fs + [Filter(count + |fs|, owner, specs[|fs|].0, specs[|fs|].1)];
    }
  }

  /** Root `i` is what its category says, and its filters are known to be its own. */
  ghost predicate RootMade(cat: Category, root: CmaObject, filters: map<nat, nat>, i: nat) {
    && root.ohfi == cat.ohfi && root.ohfiParent == 0 && root.kinds == {cat.kind}
    && root.dirType == DIR_ROOT | DIR_REGULAR
    && |root.filters| == |cat.filters|
    && (forall j :: 0 <= j < |root.filters| ==>
          root.filters[j].name == cat.filters[j].0 && root.filters[j].dirType == cat.filters[j].1)
    && (forall f :: f in root.filters ==> f.ohfi in filters && filters[f.ohfi] == i)
  }

  /** The roots made so far, with the ids of their filters. */
  ghost predicate RootsMade(cats: seq<Category>, roots: seq<CmaObject>, filters: map<nat, nat>, count: nat) {
    && |roots| <= |cats| && OHFI_OFFSET <= count
    && (forall i {:trigger roots[i]} :: 0 <= i < |roots| ==> RootMade(cats[i], roots[i], filters, i))
    && (forall x {:trigger filters[x]} :: x in filters ==>
          OHFI_OFFSET <= x < count && filters[x] < |roots| && HasFilter(roots[filters[x]], x))
  }

  function IdMap(n: nat): (m: map<nat, nat>)
    requires n <= |CATEGORIES|
    ensures forall i :: 0 <= i < n ==> CATEGORIES[i].ohfi in m && m[CATEGORIES[i].ohfi] == i
    ensures forall x :: x in m ==> m[x] < n && CATEGORIES[m[x]].ohfi == x
  {
    if n == 0 then map[]
    else
      assert forall i :: 0 <= i < n - 1 ==> CATEGORIES[i].ohfi != CATEGORIES[n - 1].ohfi;
      IdMap(n - 1)[CATEGORIES[n - 1].ohfi := n - 1]
  }

  lemma CategoryFacts(i: nat)
    requires i < |CATEGORIES|
    ensures CATEGORIES[i].kind != Folder && CATEGORIES[i].kind != File && 0 < CATEGORIES[i].ohfi < OHFI_OFFSET
  {
  }

  ghost function Singles(roots: seq<CmaObject>): (lists: seq<seq<CmaObject>>)
    ensures |lists| == |roots| && forall i :: 0 <= i < |roots| ==> lists[i] == [roots[i]]
    ensures lists == seq(|roots|, i requires 0 <= i < |roots| => [roots[i]])
  {
    seq(|roots|, i requires 0 <= i < |roots| => [roots[i]])
  }

  lemma FreshWellFormed(roots: seq<CmaObject>, filters: map<nat, nat>, count: nat, i: nat)
    requires RootsMade(CATEGORIES, roots, filters, count) && i < |roots|
    ensures WellFormed([roots[i]], roots[i], count) && 0 < roots[i].ohfi < OHFI_OFFSET
  {
    CategoryFacts(i);
    assert roots[i].kinds - {Folder, File} == roots[i].kinds;
  }

  lemma FreshIds(roots: seq<CmaObject>, home: map<nat, nat>, filters: map<nat, nat>, count: nat)
    requires forall i {:trigger roots[i]} :: 0 <= i < |roots| ==>
               && roots[i].ohfi in home && home[roots[i].ohfi] == i && roots[i].ohfi < OHFI_OFFSET
               && forall f :: f in roots[i].filters ==> f.ohfi in filters && filters[f.ohfi] == i
    requires forall x {:trigger home[x]} :: x in home ==> home[x] < |roots| && roots[home[x]].ohfi == x
    requires forall x {:trigger filters[x]} :: x in filters ==>
               OHFI_OFFSET <= x < count && filters[x] < |roots| && HasFilter(roots[filters[x]], x)
    ensures IdsUnique(Singles(roots), home, filters, count)
  {
    var lists := Singles(roots);
    forall x | x in home
      ensures home[x] < |lists| && HasId(lists[home[x]], x)
    {
      assert roots[home[x]] in lists[home[x]];
    }
  }

  lemma FreshShape(roots: seq<CmaObject>, filters: map<nat, nat>, count: nat)
    requires RootsMade(CATEGORIES, roots, filters, count) && |roots| == |CATEGORIES|
    ensures Shape(roots, Singles(roots), IdMap(|roots|), filters, count)
  {
    forall i | 0 <= i < |roots|
      ensures WellFormed(Singles(roots)[i], roots[i], count) && roots[i].ohfi < OHFI_OFFSET
    {
      FreshWellFormed(roots, filters, count, i);
    }
    FreshIds(roots, IdMap(|roots|), filters, count);
  }

  ghost function Marked(lo: nat, hi: nat, n: nat): (m: map<nat, nat>)
    ensures forall x :: x in m <==> lo <= x < hi
    ensures forall x :: x in m ==> m[x] == n
  {
    if hi <= lo then map[] else Marked(lo, hi - 1, n)[hi - 1 := n]
  }

  /** initDatabase: ten roots, five filters. */
  method InitDatabase(paths: seq<string>) returns (db: Database)
    requires |paths| == |CATEGORIES|
    ensures fresh(db) && fresh(db.repr) && db.Valid() && Standard(db.roots) && db.ohfiCount == OHFI_OFFSET + 5
    ensures |db.lists| == |db.roots| == |paths|
    ensures forall i {:trigger db.roots[i]} :: 0 <= i < |paths| ==>
              && db.lists[i] == [db.roots[i]] && db.roots[i].relPath == None && db.roots[i].path == paths[i]
              && db.roots[i].size == 0
  {
    hide RootsMade, IdMap, Shape, Standard, RootMade, MoreFilters, Marked;
    NoRoots();
    var roots: seq<CmaObject>, count: nat := [], OHFI_OFFSET;
    ghost var filters: map<nat, nat> := map[];
    while |roots| < |CATEGORIES|
      invariant RootsMade(CATEGORIES, roots, filters, count) && |roots| <= |CATEGORIES|
      invariant forall i {:trigger roots[i]} :: 0 <= i < |roots| ==>
                  fresh(roots[i]) && roots[i].next == null && roots[i].relPath == None &&
                    roots[i].path == paths[i] && roots[i].size == 0
      invariant count == OHFI_OFFSET +
                         if |roots| == 0 then 0 else if |roots| == 1 then 2 else if |roots| == 2 then 4 else 5
    {
      var c, n := CATEGORIES[|roots|], |roots|;
      var fs := MakeFilters(c.ohfi, c.filters, count);
      var root := new CmaObject(c.ohfi, 0, {c.kind}, DIR_ROOT | DIR_REGULAR, fs, "", None, paths[n], 0);
      ghost var more := filters + Marked(count, count + |fs|, n);
      FiltersBelow(CATEGORIES, roots, filters, count);
      FiltersAdded(filters, count, |fs|, n);
      NewRoot(c, root, fs, count, filters, more, n);
      OneMoreRoot(CATEGORIES, roots, filters, count, root, fs, more);
      roots, filters, count := roots + [root], more, count + |fs|;
    }
    FreshShape(roots, filters, count);
    NowStandard(roots, filters, count);
    db := new Database(roots, IdMap(|roots|), filters, count);
  }

  lemma NoRoots()
    ensures RootsMade(CATEGORIES, [], map[], OHFI_OFFSET)
  {
  }

  lemma NowStandard(roots: seq<CmaObject>, filters: map<nat, nat>, count: nat)
    requires RootsMade(CATEGORIES, roots, filters, count) && |roots| == |CATEGORIES|
    ensures Standard(roots)
  {
  }

  /** The filters there were, and those of root `n`. */
  ghost predicate MoreFilters(filters: map<nat, nat>, count: nat, more: map<nat, nat>, k: nat, n: nat) {
    && (forall x :: x in filters ==> x in more && more[x] == filters[x])
    && (forall x :: count <= x < count + k ==> x in more && more[x] == n)
    && (forall x :: x in more ==> x in filters || count <= x < count + k)
  }

  lemma FiltersAdded(filters: map<nat, nat>, count: nat, k: nat, n: nat)
    requires forall x :: x in filters ==> x < count
    ensures MoreFilters(filters, count, filters + Marked(count, count + k, n), k, n)
  {
  }

  lemma FiltersBelow(cats: seq<Category>, roots: seq<CmaObject>, filters: map<nat, nat>, count: nat)
    requires RootsMade(cats, roots, filters, count)
    ensures OHFI_OFFSET <= count && forall x :: x in filters ==> x < count
  {
    hide RootMade, HasFilter;
    forall x | x in filters
      ensures x < count
    {
      var y := filters[x];
    }
  }

  lemma OneMoreRoot(cats: seq<Category>, roots: seq<CmaObject>, filters: map<nat, nat>, count: nat, root: CmaObject,
                    fs: seq<Filter>, more: map<nat, nat>)
    requires RootsMade(cats, roots, filters, count) && |roots| < |cats|
    requires RootMade(cats[|roots|], root, more, |roots|) && MoreFilters(filters, count, more, |fs|, |roots|)
    requires root.filters == fs && forall j :: 0 <= j < |fs| ==> fs[j].ohfi == count + j
    ensures RootsMade(cats, roots + [root], more, count + |fs|)
  {
    hide RootMade, MoreFilters, RootsMade, FilterKnown;
    var n := |roots|;
    FiltersBelow(cats, roots, filters, count);
    forall i | 0 <= i < n + 1
      ensures RootMade(cats[i], (roots + [root])[i], more, i)
    {
      if i < n {
        OldRoot(cats, roots, filters, count, more, |fs|, n, i);
        assert (roots + [root])[i] == roots[i];
      }
    }
    forall x | x in more
      ensures FilterKnown(roots + [root], more, count + |fs|, x)
    {
      OneFilter(cats, roots, filters, count, root, fs, more, x);
    }
    NowMade(cats, roots + [root], more, count + |fs|);
  }

  /** A filter has an id given out, and belongs to the root that it is said to belong to. */
  ghost predicate FilterKnown(roots: seq<CmaObject>, filters: map<nat, nat>, count: nat, x: nat)
    requires x in filters
  {
    OHFI_OFFSET <= x < count && filters[x] < |roots| && HasFilter(roots[filters[x]], x)
  }

  lemma NowMade(cats: seq<Category>, roots: seq<CmaObject>, filters: map<nat, nat>, count: nat)
    requires |roots| <= |cats| && OHFI_OFFSET <= count
    requires forall i :: 0 <= i < |roots| ==> RootMade(cats[i], roots[i], filters, i)
    requires forall x :: x in filters ==> FilterKnown(roots, filters, count, x)
    ensures RootsMade(cats, roots, filters, count)
  {
    hide RootMade;
  }

  lemma OneFilter(cats: seq<Category>, roots: seq<CmaObject>, filters: map<nat, nat>, count: nat, root: CmaObject,
                  fs: seq<Filter>, more: map<nat, nat>, x: nat)
    requires RootsMade(cats, roots, filters, count) && MoreFilters(filters, count, more, |fs|, |roots|) && x in more
    requires root.filters == fs && forall j :: 0 <= j < |fs| ==> fs[j].ohfi == count + j
    ensures FilterKnown(roots + [root], more, count + |fs|, x)
  {
    hide RootMade;
    if x in filters {
      assert FilterKnown(roots, filters, count, x);
    } else {
      assert fs[x - count] in root.filters;
    }
  }

  lemma OldRoot(cats: seq<Category>, roots: seq<CmaObject>, filters: map<nat, nat>, count: nat, more: map<nat, nat>,
                k: nat, n: nat, i: nat)
    requires RootsMade(cats, roots, filters, count) && i < |roots| && MoreFilters(filters, count, more, k, n)
    ensures RootMade(cats[i], roots[i], more, i)
  {
    assert RootMade(cats[i], roots[i], filters, i);
  }

  lemma NewRoot(cat: Category, root: CmaObject, fs: seq<Filter>, count: nat, filters: map<nat, nat>,
                more: map<nat, nat>, n: nat)
    requires root.ohfi == cat.ohfi && root.ohfiParent == 0 && root.kinds == {cat.kind}
    requires root.dirType == DIR_ROOT | DIR_REGULAR && root.filters == fs && |fs| == |cat.filters|
    requires forall j :: 0 <= j < |fs| ==>
               fs[j] == Filter(count + j, cat.ohfi, cat.filters[j].0, cat.filters[j].1)
    requires MoreFilters(filters, count, more, |fs|, n)
    ensures RootMade(cat, root, more, n)
  {
  }

  // ---------- After the scan ----------

  /** The category holds the preorder of the trees found under its directory, and its root is as large
      as all of them. */
  ghost predicate CategoryScanned(s: seq<CmaObject>, dir: Directory, id: nat)
    reads s`name, s`relPath, s`path, s`size, s`handle
  {
    var ts := TreesOf(dir);
    && s != [] && s[0].relPath == None
    && Views(s[1..]) == PreorderUpTo(ts, |ts|, PlaceAt(s[0]), id)
    && s[0].size == TotalUpTo(ts, |ts|)
  }

  /** The scan of one category, which leaves the other categories as they are. */
  method ScanCategory(db: Database, root: CmaObject, dir: Directory, ghost i: nat)
    requires db.Valid() && i < |db.lists| && db.lists[i] == [root] && root.relPath == None && root.size == 0
    modifies db`ohfiCount, db`lists, db`home, db`repr, db.lists[i]`next, root`size
    ensures db.Valid() && |db.lists| == |old(db.lists)| && old(db.repr) <= db.repr && fresh(db.repr - old(db.repr))
    ensures db.lists[i] != [] && db.lists[i][0] == root
    ensures CategoryScanned(db.lists[i], dir, old(db.ohfiCount))
    ensures forall m :: 0 <= m < |db.lists| && m != i ==> db.lists[m] == old(db.lists[m])
    ensures db.ohfiCount == old(db.ohfiCount) + NodeCountUpTo(TreesOf(dir), |TreesOf(dir)|)
  {
    hide Shape, Within, AllLinked, CategoryScanned, Views, PreorderUpTo, NodeCountUpTo, TotalUpTo;
    ghost var id := db.ohfiCount;
    ghost var added := AddEntriesForDirectory(db, root, dir.opens, dir.content, i);
    NowScanned(root, added, dir, id);
  }

  /** createDatabase.  `dirs` are the directories of the categories, `paths` their paths. */
  method CreateDatabase(paths: seq<string>, dirs: seq<Directory>) returns (db: Database)
    requires |paths| == |dirs| == |CATEGORIES|
    ensures fresh(db) && fresh(db.repr) && db.Valid() && Standard(db.roots)
    ensures |db.lists| == |dirs| && db.ohfiCount == FirstId(dirs, |dirs|)
    ensures forall i {:trigger db.lists[i]} :: 0 <= i < |dirs| ==>
              CategoryScanned(db.lists[i], dirs[i], FirstId(dirs, i))
    ensures forall i {:trigger db.lists[i]} :: 0 <= i < |dirs| ==> db.lists[i] != [] && db.lists[i][0].path == paths[i]
    ensures Sound(db) && PathsRight(db) && AllGrouped(db)
  {
    hide Shape, Within, AllLinked, Standard, CategoryScanned, Views, TreesOf, NodeCountUpTo, TotalUpTo;
    db := InitDatabase(paths);
    var i := 0;
    while i < |db.roots|
      invariant i <= |db.roots| == |dirs| == |db.lists| && fresh(db.repr)
      invariant db.Valid() && Standard(db.roots) && db.ohfiCount == FirstId(dirs, i)
      invariant forall m {:trigger db.lists[m]} :: 0 <= m < i ==>
                  CategoryScanned(db.lists[m], dirs[m], FirstId(dirs, m))
      invariant forall m {:trigger db.lists[m]} {:trigger db.roots[m]} :: i <= m < |dirs| ==>
                  db.lists[m] == [db.roots[m]] && db.roots[m].relPath == None && db.roots[m].size == 0
      invariant forall m {:trigger db.lists[m]} :: 0 <= m < |dirs| ==>
                  db.lists[m] != [] && db.lists[m][0] == db.roots[m] && db.lists[m][0].path == paths[m]
    {
      RootsApart(db, i);
      ScanCategory(db, db.roots[i], dirs[i], i);
      i := i + 1;
    }
    StartsRight(db, dirs);
  }

  lemma RootsApart(db: Database, i: nat)
    requires db.Valid() && i < |db.lists|
    ensures |db.roots| == |db.lists| && db.lists[i] != [] && db.lists[i][0] == db.roots[i] && db.roots[i] in db.repr
    ensures forall m, j {:trigger db.lists[m][j]} ::
              0 <= m < |db.lists| && m != i && 0 <= j < |db.lists[m]| ==> db.lists[m][j] !in db.lists[i]
    ensures forall m {:trigger db.roots[m]} {:trigger db.lists[m]} :: 0 <= m < |db.lists| && m != i ==>
              db.roots[m] !in db.lists[i] && db.roots[m] != db.roots[i]
  {
    ListsDisjoint(db, i);
    ListFacts(db, i);
    forall m | 0 <= m < |db.lists| && m != i
      ensures db.roots[m] !in db.lists[i] && db.roots[m] != db.roots[i]
    {
      assert db.lists[m][0] == db.roots[m];
    }
  }

  lemma NowScanned(root: CmaObject, added: seq<CmaObject>, dir: Directory, id: nat)
    requires root.relPath == None && root.size == TotalUpTo(TreesOf(dir), |TreesOf(dir)|)
    requires Views(added) == PreorderUpTo(TreesOf(dir), |TreesOf(dir)|, PlaceAt(root), id)
    ensures CategoryScanned([root] + added, dir, id)
  {
    assert ([root] + added)[1..] == added;
  }

  lemma StartsRight(db: Database, dirs: seq<Directory>)
    requires db.Valid() && |db.lists| == |dirs|
    requires forall i {:trigger db.lists[i]} :: 0 <= i < |dirs| ==>
               CategoryScanned(db.lists[i], dirs[i], FirstId(dirs, i))
    ensures Sound(db) && PathsRight(db) && AllGrouped(db)
  {
    hide CategoryScanned, Named, Tied, Grouped, Linked, Ordered, Rooted;
    forall i | 0 <= i < |db.lists|
      ensures Named(db.lists[i]) && Tied(db.lists[i]) && Grouped(db.lists[i])
    {
      ListFacts(db, i);
      FirstIdHigh(dirs, i);
      ScannedRight(db.lists[i], dirs[i], FirstId(dirs, i));
    }
  }

  lemma {:induction false} FirstIdHigh(dirs: seq<Directory>, i: nat)
    requires i <= |dirs|
    ensures OHFI_OFFSET < FirstId(dirs, i)
  {
    if i > 0 {
      FirstIdHigh(dirs, i - 1);
    }
  }

  /** What a scan yields: paths that fit, and contiguous top-level subtrees. */
  lemma ScannedRight(s: seq<CmaObject>, dir: Directory, id: nat)
    requires Ordered(s) && CategoryScanned(s, dir, id) && s[0].ohfiParent == 0 && 0 < s[0].ohfi < id
    ensures Named(s) && Tied(s) && Grouped(s)
  {
    hide PreorderUpTo, NodeCountUpTo, TotalUpTo, Tied, Grouped, Views, Ordered;
    var ts, at, added := TreesOf(dir), PlaceAt(s[0]), s[1..];
    assert s == [s[0]] + added;
    AloneTied(s[0]);
    AppendTied([s[0]], s[0], added, ts, |ts|, at, id);
    forall i | 0 < i < |s|
      ensures s[i].relPath.Some?
    {
      assert s[i] in added;
    }
    ScannedGrouped(s, ts, at, id);
  }

  lemma AloneTied(root: CmaObject)
    requires root.ohfiParent != root.ohfi
    ensures Tied([root])
  {
  }

  lemma ScannedGrouped(s: seq<CmaObject>, ts: seq<Tree>, at: Place, id: nat)
    requires s != [] && Views(s[1..]) == PreorderUpTo(ts, |ts|, at, id) && at.ohfi == s[0].ohfi < id
    ensures Grouped(s)
  {
    hide PreorderUpTo, NodeCountUpTo, Views;
    var added := s[1..];
    forall i, j | 0 < i < j < |s| && TopLevel(s, i) && !TopLevel(s, j)
      ensures s[i].ohfi <= s[j].ohfiParent
    {
      PreorderUpToIds(ts, |ts|, at, id);
      ForestGrouped(ts, |ts|, at, id, i - 1, j - 1);
      assert Views(added)[i - 1] == View(s[i]) && Views(added)[j - 1] == View(s[j]);
    }
  }

  lemma {:induction false} ForestGrouped(ts: seq<Tree>, n: nat, at: Place, id: nat, i: nat, j: nat)
    requires n <= |ts| && at.ohfi < id && i < j < NodeCountUpTo(ts, n)
    ensures var v := PreorderUpTo(ts, n, at, id);
            && |v| == NodeCountUpTo(ts, n)
            && (v[i].ohfiParent == at.ohfi && v[j].ohfiParent != at.ohfi ==> v[i].ohfi <= v[j].ohfiParent)
  {
    var k := NodeCountUpTo(ts, n - 1);
    PreorderUpToIds(ts, n, at, id);
    PreorderUpToIds(ts, n - 1, at, id);
    PreorderIds(ts[n - 1], at, id + k);
    if j < k {
      ForestGrouped(ts, n - 1, at, id, i, j);
    } else {
      var last := Preorder(ts[n - 1], at, id + k);
      assert PreorderUpTo(ts, n, at, id)[j] == last[j - k];
      assert i >= k ==> PreorderUpTo(ts, n, at, id)[i] == last[i - k];
    }
  }

  /** Every object of a scanned category is as large as its children, and as what stat reported for it. */
  lemma ScannedBalanced(s: seq<CmaObject>, dir: Directory, id: nat, i: nat)
    requires Ordered(s) && CategoryScanned(s, dir, id) && s[0].ohfiParent == 0 && 0 < s[0].ohfi < id
    requires i < |s|
    ensures |s| == 1 + |OwnsUpTo(TreesOf(dir), |TreesOf(dir)|)|
    ensures Own(Views(s), i) == if i == 0 then 0 else OwnsUpTo(TreesOf(dir), |TreesOf(dir)|)[i - 1]
  {
    hide PreorderUpTo, NodeCountUpTo, TotalUpTo, OwnsUpTo, Own, Views, CategoryScanned, TreesOf, Bigger, Ordered;
    var ts := TreesOf(dir);
    var before := View(s[0]).(size := 0);
    ScannedLength(s, dir, id);
    ScannedViews(s, dir, id);
    ScanKeepsOwn([before], ts, id, i);
    AloneOwnsNothing(before);
  }

  lemma ScannedLength(s: seq<CmaObject>, dir: Directory, id: nat)
    requires CategoryScanned(s, dir, id)
    ensures var ts := TreesOf(dir);
            |s| == 1 + NodeCountUpTo(ts, |ts|) == 1 + |OwnsUpTo(ts, |ts|)|
  {
    hide PreorderUpTo, NodeCountUpTo, TotalUpTo, OwnsUpTo, TreesOf, Views;
    var ts := TreesOf(dir);
    PreorderUpToIds(ts, |ts|, PlaceAt(s[0]), id);
    OwnsLength(ts, |ts|);
  }

  lemma ScannedViews(s: seq<CmaObject>, dir: Directory, id: nat)
    requires CategoryScanned(s, dir, id)
    ensures var before := View(s[0]).(size := 0);
            Views(s) == Bigger([before], TotalUpTo(TreesOf(dir), |TreesOf(dir)|)) +
                        PreorderUpTo(TreesOf(dir), |TreesOf(dir)|, PlaceOf(before), id)
  {
    hide PreorderUpTo, TotalUpTo, Views;
    var before := View(s[0]).(size := 0);
    ViewsConcat([s[0]], s[1..]);
    assert s == [s[0]] + s[1..];
    ViewsOne(s[0]);
    assert Bigger([before], TotalUpTo(TreesOf(dir), |TreesOf(dir)|)) == [View(s[0])];
    assert PlaceOf(before) == PlaceAt(s[0]);
  }

  lemma AloneOwnsNothing(e: Entry)
    requires e.size == 0
    ensures Own([e], 0) == 0
  {
    SingleSum(e, e.ohfi);
  }
}
