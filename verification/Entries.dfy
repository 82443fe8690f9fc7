/** Adding, finding and removing entries (src/database.c). */
module Entries {
  import opened Forest
  import opened Database
  import opened Removal

  /** The response codes of this part of the program.  `Undefined` stands for the cases in which the
      source goes on with a null pointer or with data of another kind. */
  datatype Code =
    | OK | InvalidData | InvalidPermission | FailedOperateObject | InvalidOhfi | NotExistObject | SendFailed | Undefined

  function JoinRel(relPath: Option<string>, name: string): string {
    if relPath.None? then name else relPath.value + "/" + name
  }

  /** The position of an object in its list. */
  ghost function Position(s: seq<CmaObject>, o: CmaObject): (k: nat)
    requires o in s
    ensures k < |s| && s[k] == o
  {
    var k :| 0 <= k < |s| && s[k] == o;
    k
  }

  lemma AppendLinked(s: seq<CmaObject>, o: CmaObject)
    requires s != [] && o.next == null && s[|s| - 1].next == o
    requires forall i {:trigger s[i].next} :: 0 <= i < |s| - 1 ==> s[i].next == s[i + 1]
    ensures Linked(s + [o])
  {
  }

  /** addToDatabase (src/database.c:226-313): the new object gets the next id and goes to the
      end of the list its parent `root` is in. */
  method AddToDatabase(db: Database, root: CmaObject, name: string, size: nat, kind: DataKind, ghost c: nat)
    returns (current: CmaObject)
    requires db.Valid() && c < |db.lists| && root in db.lists[c]
    requires kind == Folder || kind == File
    modifies db`ohfiCount, db`lists, db`home, db`repr, db.lists[c]`next
    ensures db.Valid() && fresh(current)
    ensures db.lists == old(db.lists)[c := old(db.lists[c]) + [current]]
    ensures db.repr == old(db.repr) + {current}
    ensures current.ohfi == old(db.ohfiCount) && db.ohfiCount == old(db.ohfiCount) + 1
    ensures db.home == old(db.home)[current.ohfi := c]
    ensures current.ohfiParent == root.ohfi && current.kinds == {kind} + (root.kinds - {Folder})
    ensures current.name == name && current.size == size && current.handle == 0
    ensures current.relPath == Some(JoinRel(root.relPath, name)) && current.path == root.path + "/" + name
  {
    hide Shape;
    ghost var s, k := db.lists[c], Position(db.lists[c], root);
    ParentFacts(db, c, root);
    ListsDisjoint(db, c);
    current := new CmaObject(db.ohfiCount, root.ohfi, {kind} + (root.kinds - {Folder}), DIR_REGULAR, [],
                             name, Some(JoinRel(root.relPath, name)), root.path + "/" + name, size);
    var tail := root;
    while tail.next != null
      invariant k < |s| && tail == s[k]
      decreases |s| - k
    {
      assert tail.next == s[k + 1];
      tail := tail.next;
      k := k + 1;
    }
    assert k == |s| - 1;
    tail.next := current;
    assert forall i :: 0 <= i < |db.lists| && i != c ==> Linked(db.lists[i]);
    AppendShape(db.roots, db.lists, db.home, db.filters, db.ohfiCount, c, current);
    AppendLinked(s, current);
    db.ohfiCount := db.ohfiCount + 1;
    db.home := db.home[current.ohfi := c];
    db.lists := db.lists[c := s + [current]];
    db.repr := db.repr + {current};
  }

  /** No object is in two categories. */
  lemma ListsDisjoint(db: Database, c: nat)
    requires Shape(db.roots, db.lists, db.home, db.filters, db.ohfiCount) && c < |db.lists|
    ensures forall i, j {:trigger db.lists[i][j]} ::
              0 <= i < |db.lists| && i != c && 0 <= j < |db.lists[i]| ==> db.lists[i][j] !in db.lists[c]
    ensures forall i :: 0 <= i < |db.lists| && i != c ==> forall o :: o in db.lists[i] ==> o !in db.lists[c]
  {
    forall i, j | 0 <= i < |db.lists| && i != c && 0 <= j < |db.lists[i]|
      ensures db.lists[i][j] !in db.lists[c]
    {
      assert db.lists[i][j] in db.lists[i];
    }
  }

  lemma ParentFacts(db: Database, c: nat, root: CmaObject)
    requires db.Valid() && c < |db.lists| && root in db.lists[c]
    ensures HasId(db.lists[c], root.ohfi)
    ensures root.kinds - {Folder, File} == db.roots[c].kinds
  {
  }

  // ---------- Lookup ----------

  /** What ohfiToObject is for: the object with that id, or the owner of the filter with that id. */
  ghost predicate Finds(db: Database, ohfi: nat, found: CmaObject?)
    reads db
    requires Shape(db.roots, db.lists, db.home, db.filters, db.ohfiCount)
  {
    if ohfi in db.home then found != null && found.ohfi == ohfi && found in db.lists[db.home[ohfi]]
    else if ohfi in db.filters then found == db.roots[db.filters[ohfi]]
    else found == null
  }

  /** At most one object answers to an id. */
  lemma FoundOnce(db: Database, ohfi: nat, a: CmaObject?, b: CmaObject?)
    requires Shape(db.roots, db.lists, db.home, db.filters, db.ohfiCount)
    requires Finds(db, ohfi, a) && Finds(db, ohfi, b)
    ensures a == b
  {
    if ohfi in db.home {
      SameId(db.lists[db.home[ohfi]], a, b);
    }
  }

  /** Category `i` does not answer to `ohfi`, with its first `k` objects. */
  ghost predicate NotAmong(s: seq<CmaObject>, k: nat, ohfi: nat)
    requires k <= |s|
  {
    forall j {:trigger s[j]} :: 0 <= j < k ==> s[j].ohfi != ohfi && !HasFilter(s[j], ohfi)
  }

  lemma NotFoundAnywhere(db: Database, ohfi: nat)
    requires Shape(db.roots, db.lists, db.home, db.filters, db.ohfiCount)
    requires forall i :: 0 <= i < |db.lists| ==> NotAmong(db.lists[i], |db.lists[i]|, ohfi)
    ensures Finds(db, ohfi, null)
  {
    forall x | x in db.home
      ensures x != ohfi
    {
      assert HasId(db.lists[db.home[x]], x);
      var p :| p in db.lists[db.home[x]] && p.ohfi == x;
      var j :| 0 <= j < |db.lists[db.home[x]]| && db.lists[db.home[x]][j] == p;
    }
    forall x | x in db.filters
      ensures x != ohfi
    {
      assert db.lists[db.filters[x]][0] == db.roots[db.filters[x]];
      assert HasFilter(db.lists[db.filters[x]][0], x);
    }
  }

  /** An object that carries the id, or a filter with the id, is the answer. */
  lemma FoundHere(db: Database, ohfi: nat, i: nat, k: nat)
    requires Shape(db.roots, db.lists, db.home, db.filters, db.ohfiCount)
    requires i < |db.lists| && k < |db.lists[i]|
    ensures db.lists[i][k].ohfi == ohfi ==> Finds(db, ohfi, db.lists[i][k])
    ensures HasFilter(db.lists[i][k], ohfi) ==> Finds(db, ohfi, db.lists[i][k]) && k == 0
  {
    var o := db.lists[i][k];
    assert o in db.lists[i];
    if HasFilter(o, ohfi) {
      var f :| f in o.filters && f.ohfi == ohfi;
      assert o == db.lists[i][0];
    }
  }

  method OwnsFilter(current: CmaObject, ohfi: nat) returns (found: bool)
    ensures found <==> HasFilter(current, ohfi)
  {
    found := false;
    var j := 0;
    while j < |current.filters|
      invariant j <= |current.filters|
      invariant forall m :: 0 <= m < j ==> current.filters[m].ohfi != ohfi
    {
      if current.filters[j].ohfi == ohfi {
        assert current.filters[j] in current.filters;
        return true;
      }
      j := j + 1;
    }
  }

  /** ohfiToObject (src/database.c:405-449). */
  method OhfiToObject(db: Database, ohfi: nat) returns (found: CmaObject?)
    requires db.Valid()
    ensures Finds(db, ohfi, found)
  {
    hide Shape, Finds, HasFilter, NotAmong;
    OneListEach(db);
    found := null;
    var i := 0;
    while i < |db.roots|
      invariant i <= |db.roots| == |db.lists|
      invariant found == null
      invariant forall m :: 0 <= m < i ==> NotAmong(db.lists[m], |db.lists[m]|, ohfi)
    {
      ghost var s := db.lists[i];
      CategoryStart(db, i, ohfi);
      var current: CmaObject? := db.roots[i];
      ghost var k := 0;
      while current != null
        invariant k <= |s| && current == (if k < |s| then s[k] else null)
        invariant found == null ==> NotAmong(s, k, ohfi)
        invariant found != null ==> Finds(db, ohfi, found)
        decreases |s| - k
      {
        FoundHere(db, ohfi, i, k);
        NotAmongNext(s, k, ohfi);
        if current.ohfi == ohfi {
          found := current;
          break;
        }
        var filtered := OwnsFilter(current, ohfi);
        if filtered {
          found := current;     // only the inner loop is left; the walk goes on
        }
        current := current.next;
        k := k + 1;
      }
      if found != null {
        return;
      }
      i := i + 1;
    }
    NotFoundAnywhere(db, ohfi);
  }

  lemma FoundMeans(db: Database, ohfi: nat, found: CmaObject?)
    requires db.Valid() && Finds(db, ohfi, found)
    ensures found == null <==> ohfi !in db.home && ohfi !in db.filters
  {
  }

  lemma WhereFound(db: Database, ohfi: nat, found: CmaObject) returns (c: nat, k: nat)
    requires db.Valid() && Finds(db, ohfi, found)
    ensures c < |db.lists| && k < |db.lists[c]| && db.lists[c][k] == found
    ensures ohfi in db.home ==> c == db.home[ohfi]
  {
    c := if ohfi in db.home then db.home[ohfi] else db.filters[ohfi];
    if ohfi !in db.home {
      assert HasFilter(db.lists[c][0], ohfi);
      assert found == db.lists[c][0];
    }
    k := Position(db.lists[c], found);
  }

  lemma OneListEach(db: Database)
    requires db.Valid()
    ensures |db.roots| == |db.lists|
  {
  }

  lemma CategoryStart(db: Database, i: nat, ohfi: nat)
    requires db.Valid() && i < |db.lists|
    ensures db.lists[i] != [] && db.lists[i][0] == db.roots[i] && Linked(db.lists[i])
    ensures NotAmong(db.lists[i], 0, ohfi)
  {
  }

  lemma NotAmongNext(s: seq<CmaObject>, k: nat, ohfi: nat)
    requires k < |s|
    ensures NotAmong(s, k, ohfi) && s[k].ohfi != ohfi && !HasFilter(s[k], ohfi) ==> NotAmong(s, k + 1, ohfi)
  {
  }

  // ---------- Looking up a path ----------

  /** The first entry behind the root, from position `k` on, whose relative path is `path`. */
  ghost function FirstWithPath(s: seq<CmaObject>, path: string, k: nat): (r: nat)
    requires k <= |s|
    reads s`relPath
    ensures k <= r <= |s|
    ensures forall j :: k <= j < r ==> s[j].relPath != Some(path)
    ensures r < |s| ==> s[r].relPath == Some(path)
    decreases |s| - k
  {
    if k == |s| || s[k].relPath == Some(path) then k else FirstWithPath(s, path, k + 1)
  }

  /** The first match within a list: its root is never looked at. */
  ghost function PathMatch(s: seq<CmaObject>, path: string): (r: CmaObject?)
    reads s`relPath
    ensures r != null ==> r in s
  {
    if s == [] then null
    else
      var j := FirstWithPath(s, path, 1);
      if j < |s| then s[j] else null
  }

  /** pathToObject (src/database.c:452-488): `ohfiRoot` 0 means all categories. */
  method PathToObject(db: Database, path: string, ohfiRoot: nat) returns (found: CmaObject?)
    requires db.Valid()
    ensures found == null ==> forall i :: 0 <= i < |db.lists| && (ohfiRoot == 0 || db.roots[i].ohfi == ohfiRoot) ==>
                                PathMatch(db.lists[i], path) == null
    ensures found != null ==> exists i :: 0 <= i < |db.lists| && (ohfiRoot == 0 || db.roots[i].ohfi == ohfiRoot) &&
                                PathMatch(db.lists[i], path) == found &&
                                forall m :: 0 <= m < i && (ohfiRoot == 0 || db.roots[m].ohfi == ohfiRoot) ==>
                                  PathMatch(db.lists[m], path) == null
  {
    hide Shape;
    OneListEach(db);
    found := null;
    var i := 0;
    while i < |db.roots|
      invariant i <= |db.roots|
      invariant found == null
      invariant forall m :: 0 <= m < i && (ohfiRoot == 0 || db.roots[m].ohfi == ohfiRoot) ==>
                  PathMatch(db.lists[m], path) == null
    {
      if ohfiRoot != 0 && db.roots[i].ohfi != ohfiRoot {
        i := i + 1;
        continue;
      }
      ghost var s, k := db.lists[i], 1;
      CategoryStart(db, i, 0);
      var current := db.roots[i].next;
      while current != null
        invariant 1 <= k <= |s| && current == (if k < |s| then s[k] else null)
        invariant FirstWithPath(s, path, 1) == FirstWithPath(s, path, k)
        invariant found == null
        decreases |s| - k
      {
        if current.relPath == Some(path) {
          found := current;
          break;
        }
        current := current.next;
        k := k + 1;
      }
      assert found == PathMatch(s, path);
      if found != null {
        return;
      }
      i := i + 1;
    }
  }

  // ---------- Removal inside the database ----------

  /** The subtree of an entry is the same seen from any point before the entry. */
  lemma TailSubtree(s: seq<CmaObject>, k: nat, top: nat)
    requires Ordered(s) && k < |s| && s[k].ohfi <= top && HasId(s, top)
    ensures Subtree(s[k..], top) == Subtree(s, top)
    ensures Keep(s, Subtree(s, top)) == s[..k] + Keep(s[k..], Subtree(s[k..], top))
  {
    var d := Subtree(s, top);
    SubtreeIsSubtree(s, top);
    forall x | x in d && x != top
      ensures HasId(s[k..], x)
    {
      assert HasId(s, x);
      var o :| o in s && o.ohfi == x;
      InTail(s, k, o);
    }
    SubtreeUnique(s[k..], top, d);
    assert s == s[..k] + s[k..];
    KeepConcat(s[..k], s[k..], d);
    KeepAll(s[..k], d);
  }

  /** removeFromDatabase, called with a `start` before the entry in the same category. */
  method RemoveEntry(db: Database, ohfi: nat, start: CmaObject, ghost c: nat)
    requires db.Valid() && c < |db.lists| && start in db.lists[c]
    requires start.ohfi < ohfi && HasId(db.lists[c], ohfi)
    modifies db`lists, db`home, db.lists[c]`next
    ensures db.Valid()
    ensures db.lists == old(db.lists)[c := Keep(old(db.lists[c]), Subtree(old(db.lists[c]), ohfi))]
    ensures db.home == old(db.home) - Subtree(old(db.lists[c]), ohfi)
  {
    hide Shape, Ordered, Keep, Subtree, Within, AllLinked, Linked, HasId;
    ghost var s, k := db.lists[c], Position(db.lists[c], start);
    ghost var d := Subtree(s, ohfi);
    ghost var lists' := db.lists[c := Keep(s, d)];
    RemovalAllowed(db, c, s, k, ohfi);
    RemoveFromDatabase(ohfi, start, s[k..]);
    assert Linked(Keep(s, d)) by {
      TailSubtree(s, k, ohfi);
      TailStart(s, k, ohfi, d);
      RelinkTail(s, k, Keep(s[k..], d));
    }
    assert AllLinked(lists', db.repr) by {
      ListsDisjoint(db, c);
      AllLinkedUpdate(db.lists, c, Keep(s, d), db.repr);
    }
    RemoveShape(db.roots, db.lists, db.home, db.filters, db.ohfiCount, c, ohfi);
    db.home := db.home - d;
    db.lists := lists';
  }

  lemma RemovalAllowed(db: Database, c: nat, s: seq<CmaObject>, k: nat, ohfi: nat)
    requires db.Valid() && c < |db.lists| && s == db.lists[c] && k < |s|
    requires s[k].ohfi < ohfi && HasId(s, ohfi)
    ensures |db.lists| == |db.roots| && ohfi != db.roots[c].ohfi
    ensures Ordered(s) && Ordered(s[k..]) && Linked(s[k..])
    ensures exists t :: 1 <= t < |s[k..]| && s[k..][t].ohfi == ohfi
    ensures forall i {:trigger s[i]} :: 0 <= i < k ==> s[i] !in s[k..]
    ensures forall i {:trigger s[i].next} :: 0 <= i < k ==> s[i].next == s[i + 1]
    ensures forall i :: 0 <= i < |db.lists| ==> Linked(db.lists[i])
    ensures Within(db.lists[c := Keep(s, Subtree(s, ohfi))], db.repr)
  {
    assert forall i :: 0 <= i < |db.lists| ==> Linked(db.lists[i]);
    assert s != [] && s[0] == db.roots[c] && Ordered(s);
    TailLinked(s, k);
    TargetBehind(s, k, ohfi);
    KeepWithin(s, Subtree(s, ohfi), db.repr);
    WithinUpdate(db.lists, db.repr, c, Keep(s, Subtree(s, ohfi)), db.repr);
  }

  lemma CategoryOrder(db: Database, c: nat)
    requires db.Valid() && c < |db.lists|
    ensures |db.lists| == |db.roots|
    ensures var s := db.lists[c];
            s != [] && s[0] == db.roots[c] && Ordered(s) && Linked(s) && 0 < s[0].ohfi &&
            forall o :: o in s ==> o in db.repr
  {
  }

  lemma KeepWithin(s: seq<CmaObject>, d: set<nat>, r: set<CmaObject>)
    requires forall o :: o in s ==> o in r
    ensures forall o :: o in Keep(s, d) ==> o in r
  {
    KeepMembers(s, d);
  }

  lemma TargetBehind(s: seq<CmaObject>, k: nat, top: nat)
    requires Ordered(s) && k < |s| && s[k].ohfi < top && HasId(s, top)
    ensures exists t :: 1 <= t < |s[k..]| && s[k..][t].ohfi == top
    ensures Ordered(s[k..]) && s[0].ohfi != top
  {
    var o :| o in s && o.ohfi == top;
    InTail(s, k, o);
    var t :| 0 <= t < |s[k..]| && s[k..][t] == o;
  }

  lemma TailStart(s: seq<CmaObject>, k: nat, top: nat, d: set<nat>)
    requires Ordered(s) && k < |s| && s[k].ohfi < top && d == Subtree(s, top)
    ensures Keep(s[k..], d) != [] && Keep(s[k..], d)[0] == s[k]
  {
    SubtreeIsSubtree(s, top);
    KeepFirst(s[k..], d);
  }

  // ---------- Sizes of an object and its ancestors ----------

  /** `o` is `below`'s ancestor in list `s`, or `below` itself. */
  ghost predicate Above(s: seq<CmaObject>, o: CmaObject, below: CmaObject) {
    below.ohfi in Subtree(s, o.ohfi)
  }

  /** The ancestors of an object are itself and the ancestors of its parent. */
  lemma AboveStep(s: seq<CmaObject>, below: CmaObject, parent: CmaObject)
    requires Ordered(s) && below in s && parent in s && parent.ohfi == below.ohfiParent
    ensures forall o :: o in s ==> (Above(s, o, below) <==> o == below || Above(s, o, parent))
    ensures !Above(s, below, parent)
  {
    ParentBelow(s, below);
    SubtreeIsSubtree(s, below.ohfi);
    forall o | o in s
      ensures Above(s, o, below) <==> o == below || Above(s, o, parent)
    {
      SubtreeIsSubtree(s, o.ohfi);
      if o.ohfi == below.ohfi {
        SameId(s, o, below);
      }
    }
  }

  /** A root, whose parent id is 0, has no ancestor but itself. */
  lemma AboveRoot(s: seq<CmaObject>, root: CmaObject)
    requires Ordered(s) && root in s && root.ohfiParent == 0 && s[0].ohfi > 0
    ensures forall o :: o in s ==> (Above(s, o, root) <==> o == root)
  {
    forall o | o in s
      ensures Above(s, o, root) <==> o == root
    {
      SubtreeIsSubtree(s, o.ohfi);
      var j :| 0 <= j < |s| && s[j] == o;
      if o.ohfi == root.ohfi {
        SameId(s, o, root);
      }
    }
  }

  lemma AboveSelf(s: seq<CmaObject>, o: CmaObject)
    requires Ordered(s) && o in s
    ensures Above(s, o, o)
  {
    SubtreeIsSubtree(s, o.ohfi);
  }

  /** The only objects without a parent in the database are the category roots. */
  lemma ParentInCategory(db: Database, c: nat, o: CmaObject)
    requires db.Valid() && c < |db.lists| && o in db.lists[c]
    ensures Ordered(db.lists[c]) && db.lists[c][0].ohfi > 0
    ensures o.ohfiParent > 0 ==> o.ohfiParent in db.home && db.home[o.ohfiParent] == c
    ensures o.ohfiParent < o.ohfi
  {
    var s := db.lists[c];
    ParentBelow(s, o);
    if o != s[0] {
      assert HasId(s, o.ohfiParent);
      var p :| p in s && p.ohfi == o.ohfiParent;
    }
  }

  /** incrementSizeMetadata (src/opencma.c:193-200): every object on the way up to the category
      root, and no other, grows by `size`. */
  method IncrementSize(db: Database, start: CmaObject, size: nat, ghost c: nat)
    requires db.Valid() && c < |db.lists| && start in db.lists[c]
    modifies db.lists[c]`size
    ensures db.Valid()
    ensures forall o {:trigger o.size} :: o in db.lists[c] ==>
              o.size == old(o.size) + if Above(db.lists[c], o, start) then size else 0
  {
    hide Shape, Above, HasId, Within, Ordered;
    ghost var s := db.lists[c];
    var current := start;
    while true
      invariant current in s && db.Valid() && db.lists[c] == s
      invariant forall o {:trigger o.size} :: o in s ==>
                  o.size == old(o.size) + if Above(s, o, start) && !Above(s, o, current) then size else 0
      invariant forall o :: o in s && Above(s, o, current) ==> Above(s, o, start)
      decreases current.ohfi
    {
      ParentInCategory(db, c, current);
      current.size := current.size + size;
      AboveSelf(s, current);
      if current.ohfiParent == 0 {
        AboveRoot(s, current);
        break;
      }
      var parent := OhfiToObject(db, current.ohfiParent);
      if parent == null {
        break;
      }
      AboveStep(s, current, parent);
      current := parent;
    }
  }
}
