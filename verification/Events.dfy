/** The handlers that change the database (src/opencma.c). */
module Events {
  import opened Forest
  import opened Removal
  import opened Database
  import opened Entries
  import opened Trees
  import opened Receive
  import opened Rename
  import opened RenameLaws
  import opened Paths
  import opened Sizes
  import opened Sending

  /** Only the root of a category has no relative path. */
  ghost predicate Named(s: seq<CmaObject>)
    reads s`relPath
  {
    && s != [] && s[0].relPath == None
    && forall i {:trigger s[i]} :: 0 < i < |s| ==> s[i].relPath.Some?
  }

  /** What holds of the database between any two events. */
  ghost predicate Sound(db: Database)
    reads db, db.repr
  {
    && db.Valid()
    && forall i :: 0 <= i < |db.lists| ==> Named(db.lists[i])
  }

  /** Every path is what the parents say. */
  ghost predicate PathsRight(db: Database)
    requires Within(db.lists, db.repr)
    reads db, db.repr`name, db.repr`relPath, db.repr`path
  {
    forall i :: 0 <= i < |db.lists| ==> Tied(db.lists[i])
  }

  /** The subtrees of top-level entries are contiguous. */
  ghost predicate AllGrouped(db: Database)
    reads db
  {
    forall i :: 0 <= i < |db.lists| ==> Grouped(db.lists[i])
  }

  /** The list left by a removal and an addition. */
  lemma NamedAfter(s: seq<CmaObject>, d: set<nat>, added: seq<CmaObject>)
    requires Named(s) && Ordered(s) && s[0].ohfi !in d
    requires forall o :: o in added ==> o.relPath.Some?
    ensures Named(Keep(s, d) + added)
  {
    var r := Keep(s, d) + added;
    KeepMembers(s, d);
    KeepFirst(s, d);
    KeepOrdered(s, d);
    forall i | 0 < i < |r|
      ensures r[i].relPath.Some?
    {
      if i < |Keep(s, d)| {
        var m := Position(s, Keep(s, d)[i]);
        assert m != 0;
      } else {
        assert r[i] in added;
      }
    }
  }

  /** The object has the id, or one of its virtual folders has. */
  ghost predicate Answers(o: CmaObject, ohfi: nat) {
    o.ohfi == ohfi || HasFilter(o, ohfi)
  }

  lemma FoundAnswers(db: Database, ohfi: nat, found: CmaObject)
    requires db.Valid() && Finds(db, ohfi, found)
    ensures Answers(found, ohfi)
  {
    if ohfi !in db.home {
      assert HasFilter(db.lists[db.filters[ohfi]][0], ohfi);
    }
  }

  /** What the handlers need to know of the list they work on. */
  lemma ListFacts(db: Database, c: nat)
    requires db.Valid() && c < |db.lists|
    ensures var s := db.lists[c];
            && |db.lists| == |db.roots| && s != [] && s[0] == db.roots[c] && Ordered(s) && Linked(s) && Rooted(s)
            && s[0].ohfiParent == 0 && 0 < s[0].ohfi < OHFI_OFFSET && OHFI_OFFSET <= db.ohfiCount
            && (forall o :: o in s ==> o in db.repr && o.ohfi < db.ohfiCount && o.ohfiParent < db.ohfiCount)
            && (forall o :: o in s ==> (o.ohfiParent == 0 <==> o == s[0]))
  {
    var s := db.lists[c];
    assert forall o :: o in s && o != db.roots[c] ==> o.ohfi < db.ohfiCount;
    forall o | o in s
      ensures o.ohfi < db.ohfiCount && o.ohfiParent < db.ohfiCount
      ensures o.ohfiParent == 0 <==> o == s[0]
    {
      ParentBelow(s, o);
      if o != s[0] {
        assert HasId(s, o.ohfiParent);
        var p :| p in s && p.ohfi == o.ohfiParent;
        var m := Position(s, p);
        assert s[0].ohfi <= p.ohfi;
      }
    }
  }

  /** Nothing is at another place than before, except in category `c`. */
  lemma OthersNamed(db: Database, lists: seq<seq<CmaObject>>, c: nat)
    requires |lists| == |db.lists| && c < |lists|
    requires forall i :: 0 <= i < |lists| && i != c ==> db.lists[i] == lists[i]
    requires forall i :: 0 <= i < |lists| && i != c ==> Named(lists[i])
    requires Named(db.lists[c]) && db.Valid()
    ensures Sound(db)
  {
  }

  // ---------- Creating ----------

  /** An empty file or folder. */
  function Leaf(title: string, kind: DataKind): Tree {
    Tree(title, kind, 0, 0, [])
  }

  lemma LeafAlone(o: CmaObject, title: string, kind: DataKind, at: Place, id: nat)
    requires View(o) == Entry(id, at.ohfi, {kind} + (at.kinds - {Folder}), title, Some(JoinRel(at.relPath, title)),
                              at.path + "/" + title, 0, 0)
    ensures Views([o]) == Preorder(Leaf(title, kind), at, id)
  {
    ViewsOne(o);
    assert TotalUpTo([], 0) == 0 && PreorderUpTo([], 0, PlaceAt(o), id + 1) == [];
    TreeAssembled(Leaf(title, kind), at, id, o, []);
    assert [o] + [] == [o];
  }

  /** The create commands of vitaEventOperateObject (src/opencma.c:664-696): the object is added, and
      taken out again if the file or directory cannot be made. */
  method CreateEntry(db: Database, ohfi: nat, title: string, kind: DataKind, makes: bool)
    returns (code: Code, ghost parent: CmaObject?, ghost c: nat, ghost added: seq<CmaObject>)
    requires Sound(db) && (kind == Folder || kind == File)
    modifies db`ohfiCount, db`lists, db`home, db`repr, db.repr`next
    ensures Sound(db)
    ensures parent == null <==> ohfi !in old(db.home) && ohfi !in db.filters
    ensures parent != null ==> c < |old(db.lists)| && parent in old(db.lists[c]) && Answers(parent, ohfi)
    ensures code == if parent == null then NotExistObject else if makes then OK else FailedOperateObject
    ensures code != OK ==> db.lists == old(db.lists)
    ensures db.ohfiCount == old(db.ohfiCount) + if parent == null then 0 else 1
    ensures code == OK ==>
              && db.lists == old(db.lists)[c := old(db.lists[c]) + added] && fresh(added)
              && Views(added) == Preorder(Leaf(title, kind), PlaceAt(parent), old(db.ohfiCount))
    ensures old(db.repr) <= db.repr && fresh(db.repr - old(db.repr))
  {
    hide Shape, Within, AllLinked, Linked, Ordered, Rooted, Keep, Subtree, HasId, Named, Finds, HasFilter,
         Views, Answers, JoinRel, Preorder;
    c, added := 0, [];
    var root := OhfiToObject(db, ohfi);
    parent := root;
    FoundMeans(db, ohfi, root);
    if root == null {
      return NotExistObject, null, c, added;
    }
    ghost var k;
    c, k := WhereFound(db, ohfi, root);
    ListFacts(db, c);
    FoundAnswers(db, ohfi, root);
    code, added := AddOrWithdraw(db, root, title, kind, makes, c);
  }

  /** The object is added, and stays if the file or directory can be made. */
  method AddOrWithdraw(db: Database, root: CmaObject, title: string, kind: DataKind, makes: bool, ghost c: nat)
    returns (code: Code, ghost added: seq<CmaObject>)
    requires Sound(db) && (kind == Folder || kind == File) && c < |db.lists| && root in db.lists[c]
    modifies db`ohfiCount, db`lists, db`home, db`repr, db.lists[c]`next
    ensures Sound(db) && old(db.repr) <= db.repr && fresh(db.repr - old(db.repr))
    ensures code == if makes then OK else FailedOperateObject
    ensures db.ohfiCount == old(db.ohfiCount) + 1
    ensures code != OK ==> db.lists == old(db.lists)
    ensures code == OK ==>
              && db.lists == old(db.lists)[c := old(db.lists[c]) + added] && fresh(added)
              && Views(added) == Preorder(Leaf(title, kind), PlaceAt(root), old(db.ohfiCount))
  {
    hide Shape, Within, AllLinked, Linked, Ordered, Rooted, Keep, Subtree, HasId, Named, HasFilter, Views,
         JoinRel, Preorder;
    added := [];
    ghost var lists, s := db.lists, db.lists[c];
    ListFacts(db, c);
    NamedAfterCreate(s);
    var newobj := AddToDatabase(db, root, title, 0, kind, c);
    if !makes {
      assert [newobj] + [] == [newobj];
      assert lists[c := s] == lists;
      Withdraw(db, newobj, [], root, c, s);
      return FailedOperateObject, added;
    }
    code, added := OK, [newobj];
    NamedAfter(s, {}, [newobj]);
    LeafAlone(newobj, title, kind, PlaceAt(root), newobj.ohfi);
    OthersNamed(db, lists, c);
  }

  lemma NamedAfterCreate(s: seq<CmaObject>)
    ensures Keep(s, {}) == s
  {
    KeepAll(s, {});
  }

  // ---------- Deleting ----------

  /** vitaEventDeleteObject (src/opencma.c:501-527).  A category root has no parent object to start from. */
  method DeleteObject(db: Database, ohfi: nat)
    returns (code: Code, ghost c: nat)
    requires Sound(db)
    modifies db`lists, db`home, db.repr`next
    ensures Sound(db)
    ensures code == if ohfi in old(db.home) then if ohfi < OHFI_OFFSET then Undefined else OK
                    else if ohfi in db.filters then Undefined
                    else InvalidOhfi
    ensures code != OK ==> db.lists == old(db.lists)
    ensures code == OK ==> c < |old(db.lists)| && HasId(old(db.lists[c]), ohfi)
    ensures code == OK ==>
              db.lists == old(db.lists)[c := Keep(old(db.lists[c]), Subtree(old(db.lists[c]), ohfi))]
    ensures forall i {:trigger db.lists[i]} :: 0 <= i < |old(db.lists)| && 0 < ohfi && code == OK ==>
              db.lists[i] == Keep(old(db.lists[i]), Subtree(old(db.lists[i]), ohfi))
  {
    hide Shape, Within, AllLinked, Linked, Ordered, Rooted, Keep, Subtree, HasId, Named, HasFilter;
    c := 0;
    var object_ := OhfiToObject(db, ohfi);
    FoundMeans(db, ohfi, object_);
    if object_ == null {
      return InvalidOhfi, c;
    }
    ghost var k;
    c, k := WhereFound(db, ohfi, object_);
    ghost var lists, s := db.lists, db.lists[c];
    ListFacts(db, c);
    RootOrEntry(db, c, k, ohfi);
    var parent := OhfiToObject(db, object_.ohfiParent);
    if parent == null {
      NoParent(db, c, object_);
      return Undefined, c;
    }
    ParentFound(db, c, object_, parent);
    assert Named(s);
    forall i | 0 <= i < |lists| && i != c
      ensures Keep(lists[i], Subtree(lists[i], ohfi)) == lists[i]
    {
      OnlyHere(db, c, i, object_);
    }
    RemoveEntry(db, ohfi, parent, c);
    NamedRest(s, ohfi);
    OthersNamed(db, lists, c);
    code := OK;
  }

  lemma NoParent(db: Database, c: nat, o: CmaObject)
    requires db.Valid() && c < |db.lists| && o in db.lists[c] && Finds(db, o.ohfiParent, null)
    ensures o == db.lists[c][0] && o.ohfi < OHFI_OFFSET
  {
    ParentInCategory(db, c, o);
    ListFacts(db, c);
  }

  lemma ParentFound(db: Database, c: nat, o: CmaObject, parent: CmaObject)
    requires db.Valid() && c < |db.lists| && o in db.lists[c] && Finds(db, o.ohfiParent, parent)
    ensures parent in db.lists[c] && parent.ohfi == o.ohfiParent < o.ohfi && o != db.lists[c][0]
    ensures HasId(db.lists[c], o.ohfi)
  {
    ParentInCategory(db, c, o);
    ListFacts(db, c);
    forall x | x in db.home
      ensures 0 < x
    {
      assert HasId(db.lists[db.home[x]], x);
      var p :| p in db.lists[db.home[x]] && p.ohfi == x;
      var j := Position(db.lists[db.home[x]], p);
    }
  }

  lemma RootOrEntry(db: Database, c: nat, k: nat, ohfi: nat)
    requires db.Valid() && c < |db.lists| && k < |db.lists[c]| && Finds(db, ohfi, db.lists[c][k])
    ensures ohfi in db.home ==> db.lists[c][k].ohfi == ohfi
    ensures ohfi !in db.home ==> ohfi in db.filters && k == 0 && db.lists[c][0].ohfi != ohfi
    ensures k == 0 <==> db.lists[c][k].ohfi < OHFI_OFFSET
  {
    var o := db.lists[c][k];
    assert o in db.lists[c];
    if ohfi !in db.home {
      assert HasFilter(db.lists[db.filters[ohfi]][0], ohfi);
      assert o == db.lists[db.filters[ohfi]][0];
    }
  }

  lemma OnlyHere(db: Database, c: nat, i: nat, o: CmaObject)
    requires db.Valid() && c < |db.lists| && o in db.lists[c] && i < |db.lists| && i != c && 0 < o.ohfi
    ensures Keep(db.lists[i], Subtree(db.lists[i], o.ohfi)) == db.lists[i]
  {
    assert !HasId(db.lists[i], o.ohfi);
    ElsewhereUntouched(db.roots, db.lists, db.home, db.filters, db.ohfiCount, i, o.ohfi);
  }

  lemma NamedRest(s: seq<CmaObject>, top: nat)
    requires Named(s) && Ordered(s) && s[0].ohfi < top
    ensures Named(Keep(s, Subtree(s, top)))
  {
    SubtreeIsSubtree(s, top);
    NamedAfter(s, Subtree(s, top), []);
    assert Keep(s, Subtree(s, top)) + [] == Keep(s, Subtree(s, top));
  }

  // ---------- Renaming ----------

  /** The entries of the list after the command: renamed, or renamed and renamed back. */
  ghost function AfterRename(s: seq<CmaObject>, v: seq<Entry>, k: nat, title: string, moves: bool): seq<Entry>
    requires Ordered(s) && |v| == |s| && k < |s| && AllNamed(v[k..])
  {
    var r := RenamedList(s, v, k, v[k].name, title);
    StillNamed(s, v, k, v[k].name, title);
    if moves then r else RenamedList(s, r, k, r[k].name, v[k].name)
  }

  lemma StillNamed(s: seq<CmaObject>, v: seq<Entry>, k: nat, find: string, repl: string)
    requires Ordered(s) && |v| == |s| && k < |s| && AllNamed(v[k..])
    ensures AllNamed(RenamedList(s, v, k, find, repl)[k..])
  {
    var r := RenamedList(s, v, k, find, repl);
    forall i | 0 <= i < |r[k..]|
      ensures r[k..][i].relPath.Some?
    {
      assert r[k..][i] == r[k + i] == After(s[k..], v[k..], find, repl, i);
    }
  }

  /** One call of renameRootEntry on the entry at position `k`. */
  method RenameAt(db: Database, root: CmaObject, title: string, ghost c: nat, ghost k: nat)
    requires db.Valid() && c < |db.lists| && 0 < k < |db.lists[c]| && root == db.lists[c][k]
    requires Ordered(db.lists[c]) && AllNamed(Views(db.lists[c])[k..])
    modifies db.lists[c]`name, db.lists[c]`relPath, db.lists[c]`path
    ensures db.Valid()
    ensures Views(db.lists[c]) == RenamedList(db.lists[c], old(Views(db.lists[c])), k, old(root.name), title)
  {
    hide Shape, Within, AllLinked, Views, After;
    ghost var s, v := db.lists[c], Views(db.lists[c]);
    ListFacts(db, c);
    TailLinked(s, k);
    assert Views(s[k..]) == v[k..];
    RenameRootEntry(root, None, title, s[k..]);
    RenamedWhole(s, v, k, v[k].name, title);
  }

  lemma RenamedWhole(s: seq<CmaObject>, v: seq<Entry>, k: nat, find: string, repl: string)
    requires Ordered(s) && |v| == |s| && k < |s| && AllNamed(v[k..])
    requires forall i {:trigger s[i]} :: 0 <= i < k ==> View(s[i]) == v[i]
    requires forall i {:trigger s[k..][i]} :: 0 <= i < |s| - k ==>
               View(s[k..][i]) == After(s[k..], v[k..], find, repl, i)
    ensures Views(s) == RenamedList(s, v, k, find, repl)
  {
    hide After;
    forall i | 0 <= i < |s|
      ensures View(s[i]) == RenamedList(s, v, k, find, repl)[i]
    {
      if k <= i {
        assert s[k..][i - k] == s[i];
      }
    }
  }

  lemma NamedTail(s: seq<CmaObject>, k: nat)
    requires Named(s) && 0 < k < |s|
    ensures AllNamed(Views(s)[k..])
  {
    forall i | 0 <= i < |Views(s)[k..]|
      ensures Views(s)[k..][i].relPath.Some?
    {
      assert Views(s)[k..][i] == View(s[k + i]);
    }
  }

  lemma NamedViews(s: seq<CmaObject>)
    requires Named(s)
    ensures Views(s)[0].relPath == None
    ensures forall i {:trigger Views(s)[i]} :: 0 < i < |s| ==> Views(s)[i].relPath.Some?
  {
    assert Views(s)[0] == View(s[0]);
    forall i | 0 < i < |s|
      ensures Views(s)[i].relPath.Some?
    {
      assert Views(s)[i] == View(s[i]);
    }
  }

  lemma NamedFromViews(s: seq<CmaObject>, v: seq<Entry>, k: nat)
    requires |v| == |s| && 0 < k < |s| && v[0].relPath == None
    requires forall i :: 0 < i < k ==> v[i].relPath.Some?
    requires Views(s)[..k] == v[..k] && AllNamed(Views(s)[k..])
    ensures Named(s)
  {
    forall i | 0 < i < |s|
      ensures s[i].relPath.Some?
    {
      assert Views(s)[i] == View(s[i]);
      if i < k {
        assert Views(s)[..k][i] == v[..k][i];
      } else {
        assert Views(s)[k..][i - k].relPath.Some?;
      }
    }
    assert Views(s)[..k][0] == v[..k][0] && Views(s)[0] == View(s[0]);
  }

  /** The two calls of the rename command. */
  method RenameAndMove(db: Database, root: CmaObject, title: string, moves: bool, ghost c: nat, ghost k: nat)
    returns (code: Code)
    requires db.Valid() && c < |db.lists| && 0 < k < |db.lists[c]| && root == db.lists[c][k] && Named(db.lists[c])
    modifies db.lists[c]`name, db.lists[c]`relPath, db.lists[c]`path
    ensures db.Valid() && Named(db.lists[c])
    ensures code == if moves then OK else FailedOperateObject
    ensures Ordered(db.lists[c]) && AllNamed(old(Views(db.lists[c]))[k..])
    ensures Views(db.lists[c]) == AfterRename(db.lists[c], old(Views(db.lists[c])), k, title, moves)
  {
    hide Shape, Within, AllLinked, Linked, Ordered, Rooted, HasId, Named, HasFilter, Views, AllNamed, After;
    ghost var s := db.lists[c];
    ghost var v := Views(s);
    ListFacts(db, c);
    NamedTail(s, k);
    NamedViews(s);
    var origName := root.name;
    RenameAt(db, root, title, c, k);
    StillNamed(s, v, k, v[k].name, title);
    code := OK;
    if !moves {
      ghost var r := Views(s);
      RenameAt(db, root, origName, c, k);
      StillNamed(s, r, k, r[k].name, origName);
      code := FailedOperateObject;
    }
    RenamedNamed(s, v, k);
  }

  /** The rename command (src/opencma.c:698-726).  `moves` tells whether the file system follows suit;
      if not, the entry is renamed back.  A category root has no name to be replaced. */
  method RenameObject(db: Database, ohfi: nat, title: string, moves: bool)
    returns (code: Code, ghost c: nat, ghost k: nat)
    requires Sound(db)
    modifies db.repr`name, db.repr`relPath, db.repr`path
    ensures Sound(db)
    ensures code == if ohfi in db.home then
                      if ohfi < OHFI_OFFSET then Undefined else if moves then OK else FailedOperateObject
                    else if ohfi in db.filters then Undefined
                    else NotExistObject
    ensures code == OK || code == FailedOperateObject ==>
              && c < |db.lists| && 0 < k < |db.lists[c]| && db.lists[c][k].ohfi == ohfi
              && Ordered(db.lists[c]) && AllNamed(old(Views(db.lists[c]))[k..])
              && Views(db.lists[c]) == AfterRename(db.lists[c], old(Views(db.lists[c])), k, title, moves)
    ensures forall i {:trigger db.lists[i]} ::
              0 <= i < |db.lists| && ((code == OK || code == FailedOperateObject) ==> i != c) ==>
                Views(db.lists[i]) == old(Views(db.lists[i]))
  {
    hide Shape, Within, AllLinked, Linked, Ordered, Rooted, HasId, Named, HasFilter, Views, AllNamed, After;
    hide AfterRename, Finds;
    c, k := 0, 0;
    var root := OhfiToObject(db, ohfi);
    FoundMeans(db, ohfi, root);
    if root == null {
      return NotExistObject, c, k;
    }
    c, k := WhereFound(db, ohfi, root);
    ghost var s := db.lists[c];
    ghost var v := Views(s);
    ListFacts(db, c);
    RootOrEntry(db, c, k, ohfi);
    assert Named(s);
    if root.ohfi < OHFI_OFFSET {
      return Undefined, c, k;
    }
    code := RenameAndMove(db, root, title, moves, c, k);
    ListsDisjoint(db, c);
    OthersNamed(db, db.lists, c);
  }

  lemma RenamedNamed(s: seq<CmaObject>, v: seq<Entry>, k: nat)
    requires |v| == |s| && 0 < k < |s| && v[0].relPath == None
    requires forall i {:trigger v[i]} :: 0 < i < k ==> v[i].relPath.Some?
    requires forall i {:trigger v[i]} :: 0 <= i < k ==> View(s[i]) == v[i]
    requires AllNamed(Views(s)[k..])
    ensures Named(s)
  {
    assert Views(s)[..k] == v[..k];
    NamedFromViews(s, v, k);
  }

  // ---------- Receiving ----------

  /** Entry `k` holds `m` more by itself, and every other entry holds what it held. */
  ghost predicate OnlyGained(v: seq<Entry>, v': seq<Entry>, k: nat, m: nat) {
    |v| == |v'| && forall i :: 0 <= i < |v| ==> Own(v', i) == Own(v, i) + if i == k then m else 0
  }

  /** vitaEventGetPartOfObject (src/opencma.c:740-781).  `writes` tells whether the data could be written;
      a directory cannot be opened for writing. */
  method GetPartOfObject(db: Database, ohfi: nat, size: nat, writes: bool)
    returns (code: Code, ghost c: nat, ghost k: nat)
    requires Sound(db)
    modifies db.repr`size
    ensures Sound(db)
    ensures code == InvalidOhfi <==> ohfi !in db.home && ohfi !in db.filters
    ensures code == OK || code == InvalidPermission || code == InvalidOhfi
    ensures code != InvalidOhfi ==> c < |db.lists| && k < |db.lists[c]| && Ordered(db.lists[c])
                                    && Answers(db.lists[c][k], ohfi)
                                    && (code == OK <==> writes && File in db.lists[c][k].kinds)
    ensures code == OK ==> Grown(db.lists[c], old(Views(db.lists[c])), Views(db.lists[c]), k, size)
    ensures code == OK ==> OnlyGained(old(Views(db.lists[c])), Views(db.lists[c]), k, size)
    ensures forall i {:trigger db.lists[i]} :: 0 <= i < |db.lists| && (code == OK ==> i != c) ==>
              Views(db.lists[i]) == old(Views(db.lists[i]))
  {
    hide Shape, Within, AllLinked, Linked, Ordered, Rooted, HasId, HasFilter, Views, Above, Own, Finds,
         Answers, Grown, OnlyGained;
    c, k := 0, 0;
    var object_ := OhfiToObject(db, ohfi);
    FoundMeans(db, ohfi, object_);
    if object_ == null {
      return InvalidOhfi, c, k;
    }
    c, k := WhereFound(db, ohfi, object_);
    FoundAnswers(db, ohfi, object_);
    ghost var s, v := db.lists[c], Views(db.lists[c]);
    ListFacts(db, c);
    if !writes || File !in object_.kinds {
      return InvalidPermission, c, k;
    }
    ListsDisjoint(db, c);
    IncrementSize(db, object_, size, c);
    GrownBy(s, v, k, size);
    code := OK;
  }

  lemma GrownBy(s: seq<CmaObject>, v: seq<Entry>, k: nat, m: nat)
    requires Ordered(s) && |v| == |s| && k < |s|
    requires forall i {:trigger v[i]} :: 0 <= i < |s| ==> v[i].ohfi == s[i].ohfi && v[i].ohfiParent == s[i].ohfiParent
    requires forall i {:trigger s[i].size} :: 0 <= i < |s| ==>
               s[i].size == v[i].size + if Above(s, s[i], s[k]) then m else 0
    ensures Grown(s, v, Views(s), k, m)
    ensures OnlyGained(v, Views(s), k, m)
  {
    hide Own, Above;
    assert forall i :: 0 <= i < |s| ==> Views(s)[i] == View(s[i]);
    forall i | 0 <= i < |s|
      ensures Own(Views(s), i) == Own(v, i) + if i == k then m else 0
    {
      IncrementKeepsOwn(s, v, Views(s), k, m, i);
    }
  }

  /** vitaEventGetTreatObject (src/opencma.c:956-976): `node` is what the device offers under the handle. */
  method GetTreatObject(db: Database, ohfiParent: nat, node: Remote)
    returns (code: Code, ghost parent: CmaObject?, ghost c: nat, ghost added: seq<CmaObject>)
    requires Sound(db)
    modifies db`ohfiCount, db`lists, db`home, db`repr, db.repr`next, db.repr`size
    ensures Sound(db) && old(db.repr) <= db.repr && fresh(db.repr - old(db.repr))
    ensures parent == null <==> ohfiParent !in old(db.home) && ohfiParent !in db.filters
    ensures parent != null ==> c < |old(db.lists)| && parent in old(db.lists[c]) && Answers(parent, ohfiParent)
    ensures code == if parent == null then InvalidOhfi
                    else if node.RemoteFolder? && File in parent.kinds then Undefined
                    else Outcome(node)
    ensures code == InvalidOhfi || code == Undefined ==> db.lists == old(db.lists)
    ensures db.ohfiCount == old(db.ohfiCount) + if code == InvalidOhfi || code == Undefined then 0 else IdsUsed(node)
    ensures !(code == InvalidOhfi || code == Undefined) ==>
              && db.lists == old(db.lists)[c := Keep(old(db.lists[c]),
                                                     old(Replaced(db.lists[c], parent, node))) + added]
              && (code == OK ==> Views(added) == Preorder(ToTree(node), old(PlaceAt(parent)), old(db.ohfiCount)))
              && (code != OK ==> added == []) && fresh(added)
    ensures !(code == InvalidOhfi || code == Undefined) ==>
              forall o {:trigger o.size} ::
                o in old(db.lists[c]) && o.ohfi !in old(Replaced(db.lists[c], parent, node)) ==>
                  o.size == old(o.size) + Gain(old(db.lists[c]), o, parent, Bytes(node))
    ensures forall o {:trigger o.size} ::
              o in old(db.repr) && (code == InvalidOhfi || code == Undefined || o !in old(db.lists[c])) ==>
                o.size == old(o.size)
  {
    hide Shape, Within, AllLinked, Linked, Ordered, Rooted, Keep, Subtree, HasId, Named, Finds, HasFilter,
         Views, Preorder, Answers, Above, PathMatch;
    c, added := 0, [];
    var top := OhfiToObject(db, ohfiParent);
    parent := top;
    FoundMeans(db, ohfiParent, top);
    if top == null {
      return InvalidOhfi, null, c, added;
    }
    ghost var k;
    c, k := WhereFound(db, ohfiParent, top);
    FoundAnswers(db, ohfiParent, top);
    ListFacts(db, c);
    if node.RemoteFolder? && File in top.kinds {
      return Undefined, parent, c, added;
    }
    ghost var lists, s, at, id := db.lists, db.lists[c], PlaceAt(top), db.ohfiCount;
    ghost var gone := Replaced(s, top, node);
    code, added := GetAllObjects(db, top, node, c);
    assert Named(s);
    RootStays(s, top, node, gone);
    AddedNamed(added, ToTree(node), at, id, code == OK);
    NamedAfter(s, gone, added);
    OthersNamed(db, lists, c);
  }

  /** A replaced entry is not the root. */
  lemma RootStays(s: seq<CmaObject>, parent: CmaObject, node: Remote, gone: set<nat>)
    requires Ordered(s) && s != [] && gone == Replaced(s, parent, node)
    ensures s[0].ohfi !in gone
  {
    if gone != {} {
      MatchBehindRoot(s, node.name);
      SubtreeIsSubtree(s, PathMatch(s, node.name).ohfi);
    }
  }

  lemma AddedNamed(added: seq<CmaObject>, t: Tree, at: Place, id: nat, ok: bool)
    requires at.ohfi < id
    requires if ok then Views(added) == Preorder(t, at, id) else added == []
    ensures forall o :: o in added ==> o.relPath.Some?
  {
    hide Preorder;
    forall o | o in added
      ensures o.relPath.Some?
    {
      var j := Position(added, o);
      assert Views(added)[j] == View(o);
      PreorderIds(t, at, id);
      PreorderPaths(t, at, id, j);
    }
  }

  /** What a receive that fails leaves behind.  No new entry remains; but the list is as it was exactly
      when nothing had the same name in the category root, for a replaced entry does not come back. */
  lemma FailedReceiveRestoresIff(s: seq<CmaObject>, parent: CmaObject, node: Remote)
    requires Ordered(s) && s != []
    ensures Keep(s, Replaced(s, parent, node)) == s <==>
            node.Unreadable? || parent != s[0] || PathMatch(s, node.name) == null
  {
    var gone := Replaced(s, parent, node);
    if gone == {} {
      KeepAll(s, {});
    }
    if !(node.Unreadable? || parent != s[0] || PathMatch(s, node.name) == null) {
      var top := PathMatch(s, node.name);
      SubtreeIsSubtree(s, top.ohfi);
      KeepShorter(s, gone, Position(s, top));
    }
  }

  /** It does happen: a file that cannot be written takes away the entry it would have replaced. */
  lemma FailedReceiveLosesEntry(root: CmaObject, a: CmaObject)
    requires root.ohfi == 2 && root.ohfiParent == 0 && a.ohfi == 1000 && a.ohfiParent == 2
    requires root.relPath == None && a.relPath == Some("x")
    ensures var node := RemoteFile("x", 1, 5, false);
            && Outcome(node) == InvalidPermission
            && Keep([root, a], Replaced([root, a], root, node)) == [root]
  {
    var s, node := [root, a], RemoteFile("x", 1, 5, false);
    assert FirstWithPath(s, "x", 1) == 1;
    assert PathMatch(s, "x") == a;
    SubtreeIsSubtree(s, 1000);
    KeepConcat([root], [a], Subtree(s, 1000));
    assert [root] + [a] == s;
    KeepAll([root], Subtree(s, 1000));
    KeepNone([a], Subtree(s, 1000));
  }
}
