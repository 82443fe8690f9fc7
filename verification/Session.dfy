/** What one event does to the database, and what it keeps. */
module Session {
  import opened Forest
  import opened Database
  import opened Entries
  import opened Trees
  import opened Receive
  import opened Rename
  import opened RenameLaws
  import opened Paths
  import opened Sizes
  import opened Sending
  import opened Browse
  import opened Events
  import opened Effects

  /** New entries go directly under a category root: that is what answers to the id, be it its own or that of a
      virtual folder. */
  ghost predicate IntoRoot(a: Snapshot, e: Event) {
    e.Create? || e.GetTreat? ==> forall c: nat, k: nat :: AnswersAt(a, c, k, e.ohfi) ==> k == 0
  }

  /** Nothing goes, and nothing comes from the device but bytes. */
  predicate Gentle(e: Event) {
    e.Create? || e.RenameTo? || e.GetPart? || e.Send? || e.List?
  }

  /** A rename that finds what it looks for at the end of the strings; one that is taken back may also find it
      elsewhere, if it finds it there again. */
  ghost predicate SafeRename(s: seq<CmaObject>, v: seq<Entry>, k: nat, title: string, moves: bool)
    requires Ordered(s) && |v| == |s| && k < |s| && AllNamed(v[k..])
  {
    if moves then title == v[k].name || RenameSafe(v[k]) else BackInPlace(s, v, k, title)
  }

  /** The event is no rename, or a safe one of the entry with the id. */
  ghost predicate SafeAt(a: Snapshot, e: Event) {
    e.RenameTo? ==>
      Fits(a) && forall c, k {:trigger a.lists[c][k]} ::
        0 <= c < |a.lists| && 0 < k < |a.lists[c]| && a.lists[c][k].ohfi == e.ohfi ==>
          Ordered(a.lists[c]) && AllNamed(a.views[c][k..]) && SafeRename(a.lists[c], a.views[c], k, e.title, e.moves)
  }

  // ---------- Ids ----------

  /** An object of these lists was in the same list before, or has an id that was not given out then. */
  ghost predicate OnlyNewer(lists: seq<seq<CmaObject>>, before: seq<seq<CmaObject>>, count: nat) {
    |lists| == |before| && forall c, o {:trigger o in lists[c]} :: 0 <= c < |lists| && o in lists[c] ==>
      o in before[c] || count <= o.ohfi
  }

  lemma NewerAfter(lists: seq<seq<CmaObject>>, before: seq<seq<CmaObject>>, c: nat, d: set<nat>, added: seq<CmaObject>,
                   t: Tree, at: Place, id: nat)
    requires c < |before| && lists == before[c := Keep(before[c], d) + added]
    requires added == [] || Views(added) == Preorder(t, at, id)
    ensures OnlyNewer(lists, before, id)
  {
    hide Keep, Preorder;
    KeepMembers(before[c], d);
    PreorderIds(t, at, id);
    forall o | o in added
      ensures id <= o.ohfi
    {
      var j := Position(added, o);
      assert View(o) == Preorder(t, at, id)[j];
    }
  }

  lemma SameLists(lists: seq<seq<CmaObject>>, count: nat)
    ensures OnlyNewer(lists, lists, count)
  {
  }

  lemma NewerTwice(lists: seq<seq<CmaObject>>, between: seq<seq<CmaObject>>, before: seq<seq<CmaObject>>, n: nat,
                   m: nat)
    requires OnlyNewer(lists, between, m) && OnlyNewer(between, before, n) && n <= m
    ensures OnlyNewer(lists, before, n)
  {
  }

  // ---------- Contiguity ----------

  /** A removal, and an addition of one tree, keep paths right; directly under the root they keep the
      list grouped. */
  lemma ChangeKeeps(db: Database, c: nat, s: seq<CmaObject>, d: set<nat>, added: seq<CmaObject>, parent: CmaObject,
                    t: Tree, id: nat)
    requires db.Valid() && c < |db.lists| && db.lists[c] == Keep(s, d) + added
    requires Ordered(s) && s != [] && s[0].ohfi !in d && parent in s && parent.ohfi !in d
    requires IdsBelow(s, id)
    requires added == [] || Views(added) == Preorder(t, PlaceAt(parent), id)
    ensures Tied(s) ==> Tied(db.lists[c])
    ensures Grouped(s) && parent == s[0] ==> Grouped(db.lists[c])
  {
    hide Tied, Grouped, Preorder, Views, Rooted, Linked;
    var base := Keep(s, d);
    ListFacts(db, c);
    KeepMembers(s, d);
    KeepFirst(s, d);
    if Tied(s) {
      KeepTied(s, d);
    }
    if Grouped(s) {
      KeepGrouped(s, d);
    }
    if added == [] {
      assert base + added == base;
    } else {
      TreeAdded(base, added, parent, t, id);
      if Tied(s) {
        AppendTied(base, parent, added, [t], 1, PlaceAt(parent), id);
      }
      if Grouped(s) && parent == s[0] {
        AppendGroupedIff(base, parent, added);
      }
    }
  }

  lemma TreeAdded(base: seq<CmaObject>, added: seq<CmaObject>, parent: CmaObject, t: Tree, id: nat)
    requires Views(added) == Preorder(t, PlaceAt(parent), id)
    ensures added != [] && added[0].ohfiParent == parent.ohfi
    ensures forall j :: 0 < j < |added| ==> added[0].ohfi <= added[j].ohfiParent
    ensures Views(added) == PreorderUpTo([t], 1, PlaceAt(parent), id)
  {
    hide Preorder, PreorderUpTo, NodeCountUpTo, Views;
    PreorderIds(t, PlaceAt(parent), id);
    assert forall j :: 0 <= j < |added| ==> Views(added)[j] == View(added[j]);
    SingleTree(t, PlaceAt(parent), id);
  }

  lemma SingleTree(t: Tree, at: Place, id: nat)
    ensures PreorderUpTo([t], 1, at, id) == Preorder(t, at, id)
  {
    assert NodeCountUpTo([t], 0) == 0 && PreorderUpTo([t], 0, at, id) == [];
  }

  /** Facts about every list at once. */
  lemma EveryList(db: Database)
    requires Sound(db)
    ensures forall c {:trigger db.lists[c]} :: 0 <= c < |db.lists| ==>
              && Ordered(db.lists[c]) && db.lists[c] != [] && 0 < db.lists[c][0].ohfi < OHFI_OFFSET
              && db.lists[c][0] == db.roots[c] && IdsBelow(db.lists[c], db.ohfiCount)
    ensures |db.lists| == |db.roots|
  {
    forall c | 0 <= c < |db.lists|
      ensures Ordered(db.lists[c]) && db.lists[c] != [] && 0 < db.lists[c][0].ohfi < OHFI_OFFSET
      ensures db.lists[c][0] == db.roots[c] && IdsBelow(db.lists[c], db.ohfiCount)
    {
      ListFacts(db, c);
    }
  }

  ghost predicate IdsBelow(s: seq<CmaObject>, id: nat) {
    forall o :: o in s ==> o.ohfi < id && o.ohfiParent < id
  }

  lemma EachGrouped(db: Database, lists: seq<seq<CmaObject>>, c: nat)
    requires |lists| == |db.lists| && c < |lists|
    requires forall i :: 0 <= i < |lists| && i != c ==> db.lists[i] == lists[i] && Grouped(lists[i])
    requires Grouped(db.lists[c])
    ensures AllGrouped(db)
  {
  }

  lemma EachTied(db: Database, lists: seq<seq<CmaObject>>, c: nat)
    requires db.Valid() && |lists| == |db.lists| && c < |lists|
    requires forall i :: 0 <= i < |lists| && i != c ==> db.lists[i] == lists[i] && Tied(lists[i])
    requires Tied(db.lists[c])
    ensures PathsRight(db)
  {
  }

  /** What answers to the id is then the root itself. */
  lemma AnswersRoot(a: Snapshot, e: Event, c: nat, parent: CmaObject)
    requires c < |a.lists| && parent in a.lists[c] && (e.Create? || e.GetTreat?) && Answers(parent, e.ohfi)
    requires IntoRoot(a, e)
    ensures parent == a.lists[c][0]
  {
    var k := Position(a.lists[c], parent);
    assert AnswersAt(a, c, k, e.ohfi);
  }

  // ---------- Balances ----------

  /** Every folder of the list holds by itself what `l` says, and nothing if it lies behind what `l` tells of: it is
      as large as its children and that. */
  ghost predicate Balanced(s: seq<CmaObject>, l: seq<int>)
    reads s`name, s`relPath, s`path, s`size, s`handle
  {
    BalancedViews(s, Views(s), l)
  }

  function Told(l: seq<int>, i: nat): int {
    if i < |l| then l[i] else 0
  }

  ghost predicate BalancedViews(s: seq<CmaObject>, v: seq<Entry>, l: seq<int>) {
    && |l| <= |s| == |v|
    && forall i {:trigger s[i]} :: 0 <= i < |s| && File !in s[i].kinds ==> Own(v, i) == Told(l, i)
  }

  ghost predicate AllBalanced(db: Database, ledger: seq<seq<int>>)
    requires Within(db.lists, db.repr)
    reads db, db.repr`name, db.repr`relPath, db.repr`path, db.repr`size, db.repr`handle
  {
    && |ledger| == |db.lists|
    && forall c {:trigger db.lists[c]} {:trigger ledger[c]} :: 0 <= c < |ledger| ==> Balanced(db.lists[c], ledger[c])
  }

  /** Sizes alone decide about balances. */
  lemma {:induction false} SameSizes(v: seq<Entry>, w: seq<Entry>, id: nat, n: nat)
    requires |v| == |w| && n <= |v|
    requires forall j {:trigger v[j]} {:trigger w[j]} :: 0 <= j < |v| ==>
               v[j].ohfi == w[j].ohfi && v[j].ohfiParent == w[j].ohfiParent && v[j].size == w[j].size
    ensures ChildrenSum(v, id, n) == ChildrenSum(w, id, n)
  {
    if n > 0 {
      SameSizes(v, w, id, n - 1);
    }
  }

  lemma BalancedSame(s: seq<CmaObject>, v: seq<Entry>, w: seq<Entry>, l: seq<int>)
    requires BalancedViews(s, v, l) && |w| == |v|
    requires forall j {:trigger v[j]} {:trigger w[j]} :: 0 <= j < |v| ==>
               v[j].ohfi == w[j].ohfi && v[j].ohfiParent == w[j].ohfiParent && v[j].size == w[j].size
    ensures BalancedViews(s, w, l)
  {
    forall i | 0 <= i < |s| && File !in s[i].kinds
      ensures Own(w, i) == Told(l, i)
    {
      SameSizes(v, w, v[i].ohfi, |s|);
    }
  }

  lemma BalancedCreate(s: seq<CmaObject>, added: seq<CmaObject>, parent: CmaObject, title: string, kind: DataKind,
                       id: nat, l: seq<int>)
    requires Balanced(s, l) && IdsBelow(s, id) && parent in s
    requires Views(added) == Preorder(Leaf(title, kind), PlaceAt(parent), id)
    ensures Balanced(s + added, l)
  {
    hide Own, Views, Preorder;
    ViewsConcat(s, added);
    LeafEntry(title, kind, PlaceAt(parent), id);
    var e := Views(added)[0];
    assert |added| == 1 && (s + added)[..|s|] == s;
    assert forall j {:trigger Views(s)[j]} :: 0 <= j < |s| ==> Views(s)[j] == View(s[j]) && s[j] in s;
    forall i | 0 <= i < |s + added| && File !in (s + added)[i].kinds
      ensures Own(Views(s + added), i) == Told(l, i)
    {
      assert i < |s| ==> (s + added)[i] == s[i];
      CreateKeepsOwn(Views(s), e, i);
    }
  }

  lemma LeafEntry(title: string, kind: DataKind, at: Place, id: nat)
    ensures var v := Preorder(Leaf(title, kind), at, id);
            |v| == 1 && v == [v[0]] && v[0].size == 0 && v[0].ohfi == id && v[0].ohfiParent == at.ohfi
  {
    assert TotalUpTo([], 0) == 0;
  }

  lemma EachBalanced(db: Database, lists: seq<seq<CmaObject>>, c: nat, ledger: seq<seq<int>>)
    requires db.Valid() && |lists| == |db.lists| == |ledger| && c < |lists|
    requires forall i :: 0 <= i < |lists| && i != c ==> db.lists[i] == lists[i] && Balanced(lists[i], ledger[i])
    requires Balanced(db.lists[c], ledger[c])
    ensures AllBalanced(db, ledger)
  {
  }

  /** The create commands, with their effect. */
  method CreateEvent(db: Database, e: Event)
    returns (code: Code, ghost parent: CmaObject?, ghost c: nat, ghost added: seq<CmaObject>)
    requires Sound(db) && e.Create? && WellTyped(e)
    modifies db`ohfiCount, db`lists, db`home, db`repr, db.repr`next
    ensures Sound(db) && code != Undefined && old(db.repr) <= db.repr && fresh(db.repr - old(db.repr))
    ensures Effect(old(Snap(db)), Snap(db), e, code)
    ensures old(db.ohfiCount) <= db.ohfiCount && OnlyNewer(db.lists, old(db.lists), old(db.ohfiCount))
    ensures code != OK ==> db.lists == old(db.lists)
    ensures code == OK ==>
              && c < |old(db.lists)| && parent in old(db.lists[c]) && Answers(parent, e.ohfi)
              && db.lists == old(db.lists)[c := old(db.lists[c]) + added]
              && Views(added) == Preorder(Leaf(e.title, e.kind), PlaceAt(parent), old(db.ohfiCount))
  {
    hide Named, Answers, AllLinked, Within, Shape, Views, Preorder, Known, Effect, Keep, OnlyNewer;
    ghost var a := Snap(db);
    SameLists(db.lists, db.ohfiCount);
    KnownMeans(db, e.ohfi);
    code, parent, c, added := CreateEntry(db, e.ohfi, e.title, e.kind, e.makes);
    if code != OK {
      NothingHappened(a, db, e, code);
    } else {
      CreateHappened(a, db, e, c, parent, added);
      KeepAll(a.lists[c], {});
      NewerAfter(db.lists, a.lists, c, {}, added, Leaf(e.title, e.kind), PlaceAt(parent), a.count);
    }
  }

  /** The same, with the balances, none of which changes. */
  method CreateBalanced(db: Database, e: Event, ghost ledger: seq<seq<int>>)
    returns (code: Code, ghost parent: CmaObject?, ghost c: nat, ghost added: seq<CmaObject>)
    requires Sound(db) && e.Create? && WellTyped(e)
    modifies db`ohfiCount, db`lists, db`home, db`repr, db.repr`next
    ensures Sound(db) && code != Undefined && old(db.repr) <= db.repr && fresh(db.repr - old(db.repr))
    ensures old(AllBalanced(db, ledger)) ==> AllBalanced(db, ledger)
    ensures Effect(old(Snap(db)), Snap(db), e, code)
    ensures old(db.ohfiCount) <= db.ohfiCount && OnlyNewer(db.lists, old(db.lists), old(db.ohfiCount))
    ensures code != OK ==> db.lists == old(db.lists)
    ensures code == OK ==>
              && c < |old(db.lists)| && parent in old(db.lists[c]) && Answers(parent, e.ohfi)
              && db.lists == old(db.lists)[c := old(db.lists[c]) + added]
              && Views(added) == Preorder(Leaf(e.title, e.kind), PlaceAt(parent), old(db.ohfiCount))
  {
    hide Named, Answers, AllLinked, Within, Shape, Views, Preorder, Effect, OnlyNewer, Balanced, Ordered;
    ghost var lists, id := db.lists, db.ohfiCount;
    EveryList(db);
    ghost var balanced := AllBalanced(db, ledger);
    code, parent, c, added := CreateEvent(db, e);
    if code == OK && balanced {
      BalancedCreate(lists[c], added, parent, e.title, e.kind, id, ledger[c]);
      EachBalanced(db, lists, c, ledger);
    }
  }

  /** Creating keeps all paths right and all balances, and contiguity when it is done under a root. */
  method CreateTidy(db: Database, e: Event, ghost ledger: seq<seq<int>>) returns (code: Code)
    requires Sound(db) && e.Create? && WellTyped(e)
    modifies db`ohfiCount, db`lists, db`home, db`repr, db.repr`next
    ensures Sound(db) && code != Undefined && old(db.repr) <= db.repr && fresh(db.repr - old(db.repr))
    ensures old(AllGrouped(db)) && IntoRoot(old(Snap(db)), e) ==> AllGrouped(db)
    ensures old(PathsRight(db)) ==> PathsRight(db)
    ensures old(AllBalanced(db, ledger)) ==> AllBalanced(db, ledger)
    ensures old(db.ohfiCount) <= db.ohfiCount && OnlyNewer(db.lists, old(db.lists), old(db.ohfiCount))
    ensures Effect(old(Snap(db)), Snap(db), e, code)
  {
    hide Named, Tied, Grouped, Keep, Linked, Ordered, Rooted, Answers, AllLinked, Within, Shape, Views,
         JoinRel, AllBalanced, Preorder, Effect, OnlyNewer;
    ghost var lists, id := db.lists, db.ohfiCount;
    EveryList(db);
    ghost var grouped, right, a := AllGrouped(db), PathsRight(db), Snap(db);
    ghost var parent, c, added;
    code, parent, c, added := CreateBalanced(db, e, ledger);
    if code == OK {
      KeepAll(lists[c], {});
      ChangeKeeps(db, c, lists[c], {}, added, parent, Leaf(e.title, e.kind), id);
      if right {
        EachTied(db, lists, c);
      }
      if grouped && IntoRoot(a, e) {
        AnswersRoot(a, e, c, parent);
        EachGrouped(db, lists, c);
      }
    }
  }

  method DeleteTidy(db: Database, e: Event) returns (code: Code)
    requires Sound(db) && e.Delete?
    modifies db`lists, db`home, db.repr`next
    ensures Sound(db) && OnlyNewer(db.lists, old(db.lists), db.ohfiCount)
    ensures Effect(old(Snap(db)), Snap(db), e, code)
    ensures old(AllGrouped(db)) ==> AllGrouped(db)
    ensures old(PathsRight(db)) ==> PathsRight(db)
  {
    hide Named, Tied, Grouped, Keep, Subtree, Linked, Ordered, Rooted, AllLinked, Within, Shape, HasId, Known,
         Effect, Views, IsEntry;
    ghost var lists, a := db.lists, Snap(db);
    EveryList(db);
    KnownMeans(db, e.ohfi);
    EntryMeans(db, e.ohfi);
    ghost var grouped, right := AllGrouped(db), PathsRight(db);
    ghost var c;
    code, c := DeleteObject(db, e.ohfi);
    if code != OK {
      NothingHappened(a, db, e, code);
    } else {
      DeleteHappened(a, db, e, c);
      ghost var d := Subtree(lists[c], e.ohfi);
      RootOutside(lists[c], e.ohfi);
      assert Keep(lists[c], d) + [] == Keep(lists[c], d);
      NewerAfter(db.lists, lists, c, d, [], Leaf("", File), PlaceAt(lists[c][0]), db.ohfiCount);
      if right {
        KeepTied(lists[c], d);
        EachTied(db, lists, c);
      }
      if grouped {
        assert Grouped(lists[c]);
        KeepGrouped(lists[c], d);
        EachGrouped(db, lists, c);
      }
    }
  }

  lemma RootOutside(s: seq<CmaObject>, top: nat)
    requires Ordered(s) && s != [] && HasId(s, top)
    ensures s[0].ohfi < top ==> s[0].ohfi !in Subtree(s, top)
  {
    SubtreeIsSubtree(s, top);
  }

  /** vitaEventGetTreatObject, with its effect. */
  method TreatEvent(db: Database, e: Event)
    returns (code: Code, ghost parent: CmaObject?, ghost c: nat, ghost added: seq<CmaObject>)
    requires Sound(db) && e.GetTreat?
    modifies db`ohfiCount, db`lists, db`home, db`repr, db.repr`next, db.repr`size
    ensures Sound(db) && old(db.repr) <= db.repr && fresh(db.repr - old(db.repr))
    ensures Effect(old(Snap(db)), Snap(db), e, code)
    ensures old(db.ohfiCount) <= db.ohfiCount && OnlyNewer(db.lists, old(db.lists), old(db.ohfiCount))
    ensures code == InvalidOhfi || code == Undefined ==> db.lists == old(db.lists)
    ensures !(code == InvalidOhfi || code == Undefined) ==>
              && c < |old(db.lists)| && parent in old(db.lists[c]) && Answers(parent, e.ohfi)
              && db.lists == old(db.lists)[c := Keep(old(db.lists[c]),
                                                     old(Replaced(db.lists[c], parent, e.node))) + added]
              && (added == [] || Views(added) == Preorder(ToTree(e.node), old(PlaceAt(parent)), old(db.ohfiCount)))
  {
    hide Named, Keep, Subtree, Linked, Ordered, Rooted, AllLinked, Within, Shape, Answers, Preorder, Views,
         Replaced, Known, Effect, Outcome, IdsUsed, ReplacedIn, Gain, IsFile;
    ghost var lists, a := db.lists, Snap(db);
    KnownMeans(db, e.ohfi);
    FileMeans(db, e.ohfi);
    EveryShape(db, a.views);
    EveryMember(db);
    EveryReplaced(db, a, e.node);
    ListsApart(db);
    label before:
    code, parent, c, added := GetTreatObject(db, e.ohfi, e.node);
    if code != InvalidOhfi {
      assert AnswersAt(a, c, Position(lists[c], parent), e.ohfi);
    }
    if code == InvalidOhfi || code == Undefined {
      NothingHappened(a, db, e, code);
    } else {
      ghost var d := old@before(Replaced(lists[c], parent, e.node));
      ghost var k := Position(lists[c], parent);
      ghost var base := Keep(lists[c], d);
      assert a.lists[c][k] == parent && d == ReplacedIn(lists[c], a.views[c], k, e.node);
      KeepMembers(lists[c], d);
      StillInPlace(lists[c], a.views[c], base, lists[c][k], Bytes(e.node));
      forall i {:trigger a.views[i]} | 0 <= i < |a.lists| && i != c
        ensures Views(lists[i]) == a.views[i]
      {
        assert forall j {:trigger a.views[i][j]} :: 0 <= j < |lists[i]| ==> View(lists[i][j]) == a.views[i][j];
        SameViews(lists[i], a.views[i]);
      }
      TreatHappened(a, db, e, code, c, k, base, added);
      NewerAfter(db.lists, lists, c, d, added, ToTree(e.node), old@before(PlaceAt(parent)), a.count);
    }
  }

  lemma ListsApart(db: Database)
    requires db.Valid()
    ensures forall i, j, c {:trigger db.lists[i][j], db.lists[c]} ::
              0 <= i < |db.lists| && 0 <= j < |db.lists[i]| && 0 <= c < |db.lists| && i != c ==>
                db.lists[i][j] !in db.lists[c]
  {
    hide Shape;
    forall c | 0 <= c < |db.lists|
      ensures forall i, j {:trigger db.lists[i][j]} ::
                0 <= i < |db.lists| && i != c && 0 <= j < |db.lists[i]| ==> db.lists[i][j] !in db.lists[c]
    {
      ListsDisjoint(db, c);
    }
  }

  /** What stays has the size it is meant to have, and all else as before. */
  lemma StillInPlace(s: seq<CmaObject>, v: seq<Entry>, base: seq<CmaObject>, parent: CmaObject, n: nat)
    requires |v| == |s| && forall o :: o in base ==> o in s
    requires forall j {:trigger v[j]} :: 0 <= j < |s| ==> View(s[j]) == v[j].(size := s[j].size)
    requires forall j {:trigger v[j]} :: 0 <= j < |s| && s[j] in base ==>
               s[j].size == v[j].size + Gain(s, s[j], parent, n)
    ensures forall o, j {:trigger o in base, v[j]} :: o in base && 0 <= j < |s| && o == s[j] ==>
              View(o) == v[j].(size := v[j].size + Gain(s, o, parent, n))
  {
    hide Gain;
  }

  method TreatTidy(db: Database, e: Event) returns (code: Code)
    requires Sound(db) && e.GetTreat?
    modifies db`ohfiCount, db`lists, db`home, db`repr, db.repr`next, db.repr`size
    ensures Sound(db) && old(db.repr) <= db.repr && fresh(db.repr - old(db.repr))
    ensures old(AllGrouped(db)) && IntoRoot(old(Snap(db)), e) ==> AllGrouped(db)
    ensures old(PathsRight(db)) ==> PathsRight(db)
    ensures old(db.ohfiCount) <= db.ohfiCount && OnlyNewer(db.lists, old(db.lists), old(db.ohfiCount))
    ensures Effect(old(Snap(db)), Snap(db), e, code)
  {
    hide Named, Tied, Grouped, Keep, Subtree, Linked, Ordered, Rooted, AllLinked, Within, Shape, Answers,
         Preorder, Views, Replaced, Effect, OnlyNewer, ToTree, Outcome, IdsUsed, HasFilter;
    ghost var lists, id, a := db.lists, db.ohfiCount, Snap(db);
    EveryList(db);
    ghost var parent, c, added;
    label before:
    code, parent, c, added := TreatEvent(db, e);
    if code != InvalidOhfi && code != Undefined {
      assert old@before(Replaced(lists[c], parent, e.node)) == Replaced(lists[c], parent, e.node);
      TreatKeeps(db, a, e, c, parent, added, id);
    }
  }

  lemma TreatKeeps(db: Database, a: Snapshot, e: Event, c: nat, parent: CmaObject, added: seq<CmaObject>, id: nat)
    requires Sound(db) && e.GetTreat? && c < |a.lists| && parent in a.lists[c] && Answers(parent, e.ohfi)
    requires Ordered(a.lists[c]) && a.lists[c] != [] && IdsBelow(a.lists[c], id)
    requires db.lists == a.lists[c := Keep(a.lists[c], Replaced(a.lists[c], parent, e.node)) + added]
    requires added == [] || Views(added) == Preorder(ToTree(e.node), PlaceAt(parent), id)
    ensures (forall i :: 0 <= i < |a.lists| ==> Tied(a.lists[i])) ==> PathsRight(db)
    ensures (forall i :: 0 <= i < |a.lists| ==> Grouped(a.lists[i])) && IntoRoot(a, e) ==> AllGrouped(db)
  {
    hide Tied, Grouped, Keep, Views, Ordered, Rooted, Linked, AllLinked, Within, Shape, Preorder, Replaced, ToTree,
         Answers, IntoRoot;
    var s := a.lists[c];
    var d := Replaced(s, parent, e.node);
    ParentStays(s, parent, e.node);
    ChangeKeeps(db, c, s, d, added, parent, ToTree(e.node), id);
    if forall i :: 0 <= i < |a.lists| ==> Tied(a.lists[i]) {
      EachTied(db, a.lists, c);
    }
    if (forall i :: 0 <= i < |a.lists| ==> Grouped(a.lists[i])) && IntoRoot(a, e) {
      AnswersRoot(a, e, c, parent);
      EachGrouped(db, a.lists, c);
    }
  }

  lemma EveryReplaced(db: Database, a: Snapshot, node: Remote)
    requires Sound(db) && a == Snap(db)
    ensures forall c, k {:trigger a.lists[c][k]} :: 0 <= c < |a.lists| && 0 <= k < |a.lists[c]| ==>
              ReplacedIn(a.lists[c], a.views[c], k, node) == Replaced(a.lists[c], a.lists[c][k], node)
  {
    hide Named, ReplacedIn, Replaced, Views, Ordered;
    EveryList(db);
    forall c, k | 0 <= c < |a.lists| && 0 <= k < |a.lists[c]|
      ensures ReplacedIn(a.lists[c], a.views[c], k, node) == Replaced(a.lists[c], a.lists[c][k], node)
    {
      ReplacedIs(a.lists[c], a.views[c], k, node);
    }
  }

  /** Neither the root nor the parent is replaced. */
  lemma ParentStays(s: seq<CmaObject>, parent: CmaObject, node: Remote)
    requires Ordered(s) && s != [] && parent in s
    ensures s[0].ohfi !in Replaced(s, parent, node) && parent.ohfi !in Replaced(s, parent, node)
  {
    RootStays(s, parent, node, Replaced(s, parent, node));
  }

  // ---------- Renaming, receiving bytes, sending, listing ----------

  lemma AfterKeepsRest(s: seq<CmaObject>, v: seq<Entry>, find: string, repl: string, i: nat)
    requires Ordered(s) && |v| == |s| && AllNamed(v) && i < |s|
    ensures var a := After(s, v, find, repl, i);
            a.ohfi == v[i].ohfi && a.ohfiParent == v[i].ohfiParent && a.size == v[i].size && a.kinds == v[i].kinds
  {
  }

  lemma RenameKeepsRest(s: seq<CmaObject>, v: seq<Entry>, k: nat, title: string, moves: bool)
    requires Ordered(s) && |v| == |s| && k < |s| && AllNamed(v[k..])
    ensures var a := AfterRename(s, v, k, title, moves);
            |a| == |s| && forall i {:trigger v[i]} {:trigger a[i]} :: 0 <= i < |s| ==>
              a[i].ohfi == v[i].ohfi && a[i].ohfiParent == v[i].ohfiParent && a[i].size == v[i].size
  {
    hide After;
    var r := RenamedList(s, v, k, v[k].name, title);
    StillNamed(s, v, k, v[k].name, title);
    forall i | 0 <= i < |s|
      ensures r[i].ohfi == v[i].ohfi && r[i].ohfiParent == v[i].ohfiParent && r[i].size == v[i].size
    {
      if k <= i {
        AfterKeepsRest(s[k..], v[k..], v[k].name, title, i - k);
      }
    }
    var b := RenamedList(s, r, k, r[k].name, v[k].name);
    forall i | 0 <= i < |s|
      ensures b[i].ohfi == r[i].ohfi && b[i].ohfiParent == r[i].ohfiParent && b[i].size == r[i].size
    {
      if k <= i {
        AfterKeepsRest(s[k..], r[k..], r[k].name, v[k].name, i - k);
      }
    }
  }

  /** A safe rename leaves every path right, also when it is taken back. */
  lemma RenameTied(s: seq<CmaObject>, v: seq<Entry>, k: nat, title: string, moves: bool)
    requires Ordered(s) && |v| == |s| && 0 < k < |s| && PathsOk(s, v) && AllNamed(v[k..])
    requires SafeRename(s, v, k, title, moves)
    ensures PathsOk(s, AfterRename(s, v, k, title, moves))
  {
    hide PathsOk, RenameSafe, Replace, After, BackInPlace;
    if !moves {
      TopTwice(s, v, k, title);
      BackRightIff(s, v, k, title);
    } else if title == v[k].name {
      RenamedToItself(s, v, k);
    } else {
      RenameKeepsPaths(s, v, k, title);
    }
  }

  method RenameTidy(db: Database, e: Event, ghost ledger: seq<seq<int>>) returns (code: Code)
    requires Sound(db) && e.RenameTo?
    modifies db.repr`name, db.repr`relPath, db.repr`path
    ensures Sound(db)
    ensures Effect(old(Snap(db)), Snap(db), e, code)
    ensures old(PathsRight(db)) && SafeAt(old(Snap(db)), e) ==> PathsRight(db)
    ensures old(AllBalanced(db, ledger)) ==> AllBalanced(db, ledger)
  {
    hide Named, Tied, Linked, Ordered, Rooted, AllLinked, Within, Shape, BalancedViews, Views, AfterRename,
         AllNamed, RenameSafe, PathsOk, PathsRight, AllBalanced, SafeAt, Known, Effect, IsEntry;
    EveryList(db);
    ghost var views, a := AllViews(db), Snap(db);
    KnownMeans(db, e.ohfi);
    EntryMeans(db, e.ohfi);
    ghost var right, balanced := PathsRight(db) && SafeAt(a, e), AllBalanced(db, ledger);
    EveryPath(db, views);
    EveryBalance(db, views, ledger);
    ghost var c, k;
    code, c, k := RenameObject(db, e.ohfi, e.title, e.moves);
    ghost var changed := code == OK || code == FailedOperateObject;
    if changed {
      RenameHappened(a, db, e, code, c, k);
    } else {
      NothingHappened(a, db, e, code);
    }
    if right {
      if changed {
        SafeHere(a, e, c, k);
        RenamePaths(db, views, c, k, e);
      } else {
        SamePaths(db, views);
      }
    }
    if balanced {
      if changed {
        RenameBalances(db, views, c, k, e, ledger);
      } else {
        SameBalances(db, views, ledger);
      }
    }
  }

  lemma EveryPath(db: Database, views: seq<seq<Entry>>)
    requires Sound(db) && views == AllViews(db)
    ensures PathsRight(db) ==> forall i {:trigger views[i]} :: 0 <= i < |views| ==>
              Ordered(db.lists[i]) && |views[i]| == |db.lists[i]| && PathsOk(db.lists[i], views[i])
  {
    hide Tied, PathsOk, Views, Linked, Rooted;
    if PathsRight(db) {
      forall i | 0 <= i < |db.lists|
        ensures Ordered(db.lists[i]) && PathsOk(db.lists[i], views[i])
      {
        ListFacts(db, i);
        TiedIsPathsOk(db.lists[i]);
        assert Named(db.lists[i]) && Tied(db.lists[i]);
      }
    }
  }

  lemma EveryBalance(db: Database, views: seq<seq<Entry>>, ledger: seq<seq<int>>)
    requires db.Valid() && views == AllViews(db)
    ensures AllBalanced(db, ledger) ==> |ledger| == |db.lists| && forall i {:trigger views[i]} :: 0 <= i < |views| ==>
              BalancedViews(db.lists[i], views[i], ledger[i])
  {
    hide BalancedViews, Views, Shape;
    if AllBalanced(db, ledger) {
      forall i | 0 <= i < |views|
        ensures BalancedViews(db.lists[i], views[i], ledger[i])
      {
        assert Balanced(db.lists[i], ledger[i]);
      }
    }
  }

  lemma SafeHere(a: Snapshot, e: Event, c: nat, k: nat)
    requires Fits(a) && e.RenameTo? && SafeAt(a, e)
    requires c < |a.lists| && 0 < k < |a.lists[c]| && a.lists[c][k].ohfi == e.ohfi
    ensures Ordered(a.lists[c]) && AllNamed(a.views[c][k..]) && SafeRename(a.lists[c], a.views[c], k, e.title, e.moves)
  {
  }

  lemma RenamePaths(db: Database, views: seq<seq<Entry>>, c: nat, k: nat, e: Event)
    requires Sound(db) && |views| == |db.lists| && c < |views| && e.RenameTo?
    requires 0 < k < |db.lists[c]| == |views[c]| && Ordered(db.lists[c]) && AllNamed(views[c][k..])
    requires forall i {:trigger views[i]} :: 0 <= i < |views| ==>
               Ordered(db.lists[i]) && |views[i]| == |db.lists[i]| && PathsOk(db.lists[i], views[i])
    requires forall i {:trigger views[i]} :: 0 <= i < |views| && i != c ==> Views(db.lists[i]) == views[i]
    requires Views(db.lists[c]) == AfterRename(db.lists[c], views[c], k, e.title, e.moves)
    requires SafeRename(db.lists[c], views[c], k, e.title, e.moves)
    ensures PathsRight(db)
  {
    hide PathsOk, Tied, AfterRename, Views, RenameSafe, Replace, AllNamed, Linked, Rooted, Ordered, Shape;
    RenameTied(db.lists[c], views[c], k, e.title, e.moves);
    forall i | 0 <= i < |views|
      ensures Ordered(db.lists[i]) && PathsOk(db.lists[i], Views(db.lists[i]))
    {
      assert |views[i]| == |db.lists[i]|;
    }
    PathsBack(db);
  }

  lemma PathsBack(db: Database)
    requires Sound(db)
    requires forall i {:trigger db.lists[i]} :: 0 <= i < |db.lists| ==>
               Ordered(db.lists[i]) && PathsOk(db.lists[i], Views(db.lists[i]))
    ensures PathsRight(db)
  {
    hide PathsOk, Tied, Views, Linked, Rooted, Ordered;
    forall i | 0 <= i < |db.lists|
      ensures Tied(db.lists[i])
    {
      ListFacts(db, i);
      TiedIsPathsOk(db.lists[i]);
    }
  }

  lemma SamePaths(db: Database, views: seq<seq<Entry>>)
    requires Sound(db) && |views| == |db.lists|
    requires forall i {:trigger views[i]} :: 0 <= i < |views| ==>
               Ordered(db.lists[i]) && |views[i]| == |db.lists[i]| && PathsOk(db.lists[i], views[i])
    requires forall i {:trigger views[i]} :: 0 <= i < |views| ==> Views(db.lists[i]) == views[i]
    ensures PathsRight(db)
  {
    hide PathsOk, Tied, Views, Linked, Rooted, Ordered;
    forall i | 0 <= i < |views|
      ensures Ordered(db.lists[i]) && PathsOk(db.lists[i], Views(db.lists[i]))
    {
      assert |views[i]| == |db.lists[i]|;
    }
    PathsBack(db);
  }

  lemma RenameBalances(db: Database, views: seq<seq<Entry>>, c: nat, k: nat, e: Event, ledger: seq<seq<int>>)
    requires db.Valid() && |views| == |db.lists| == |ledger| && c < |views| && e.RenameTo?
    requires k < |db.lists[c]| == |views[c]| && Ordered(db.lists[c]) && AllNamed(views[c][k..])
    requires forall i {:trigger views[i]} :: 0 <= i < |views| && i != c ==> Views(db.lists[i]) == views[i]
    requires Views(db.lists[c]) == AfterRename(db.lists[c], views[c], k, e.title, e.moves)
    requires forall i {:trigger views[i]} :: 0 <= i < |views| ==> BalancedViews(db.lists[i], views[i], ledger[i])
    ensures AllBalanced(db, ledger)
  {
    hide BalancedViews, AfterRename, Views, AllNamed, Ordered, Shape;
    RenameKeepsRest(db.lists[c], views[c], k, e.title, e.moves);
    BalancedSame(db.lists[c], views[c], Views(db.lists[c]), ledger[c]);
    forall i | 0 <= i < |views|
      ensures Balanced(db.lists[i], ledger[i])
    {
      assert BalancedViews(db.lists[i], views[i], ledger[i]);
    }
  }

  lemma SameBalances(db: Database, views: seq<seq<Entry>>, ledger: seq<seq<int>>)
    requires db.Valid() && |views| == |db.lists| == |ledger|
    requires forall i {:trigger views[i]} :: 0 <= i < |views| ==> Views(db.lists[i]) == views[i]
    requires forall i {:trigger views[i]} :: 0 <= i < |views| ==> BalancedViews(db.lists[i], views[i], ledger[i])
    ensures AllBalanced(db, ledger)
  {
    hide BalancedViews, Views, Shape;
    forall i | 0 <= i < |views|
      ensures Balanced(db.lists[i], ledger[i])
    {
      assert BalancedViews(db.lists[i], views[i], ledger[i]);
    }
  }

  method PartTidy(db: Database, e: Event, ghost ledger: seq<seq<int>>) returns (code: Code)
    requires Sound(db) && e.GetPart?
    modifies db.repr`size
    ensures Sound(db) && code != Undefined
    ensures Effect(old(Snap(db)), Snap(db), e, code)
    ensures old(PathsRight(db)) ==> PathsRight(db)
    ensures old(AllBalanced(db, ledger)) ==> AllBalanced(db, ledger)
  {
    hide Named, Tied, Linked, Ordered, Rooted, AllLinked, Within, Shape, BalancedViews, Views, Answers, Grown,
         OnlyGained, AllBalanced, Known, Effect, SizesOnly, IsFile;
    EveryList(db);
    ghost var views, a := AllViews(db), Snap(db);
    KnownMeans(db, e.ohfi);
    FileMeans(db, e.ohfi);
    EveryShape(db, views);
    ghost var balanced := AllBalanced(db, ledger);
    EveryBalance(db, views, ledger);
    ghost var c, k;
    code, c, k := GetPartOfObject(db, e.ohfi, e.size, e.writes);
    if code != InvalidOhfi {
      assert AnswersAt(a, c, k, e.ohfi);
    }
    if code == OK {
      forall j {:trigger views[c][j]} | 0 <= j < |views[c]|
        ensures View(db.lists[c][j]) == views[c][j].(size := db.lists[c][j].size)
      {
      }
      OnlySizes(db.lists[c], views[c]);
      PartHappened(a, db, e, c, k);
    } else {
      NothingHappened(a, db, e, code);
    }
    if balanced {
      if code == OK {
        PartBalances(db, views, c, k, e.size, ledger);
      } else {
        SameBalances(db, views, ledger);
      }
    }
  }

  lemma OnlySizes(s: seq<CmaObject>, v: seq<Entry>)
    requires |v| == |s| && forall j {:trigger v[j]} :: 0 <= j < |v| ==> View(s[j]) == v[j].(size := s[j].size)
    ensures SizesOnly(v, Views(s))
  {
  }

  lemma PartBalances(db: Database, views: seq<seq<Entry>>, c: nat, k: nat, m: nat, ledger: seq<seq<int>>)
    requires db.Valid() && |views| == |db.lists| == |ledger| && c < |views| && k < |db.lists[c]|
    requires File in db.lists[c][k].kinds && OnlyGained(views[c], Views(db.lists[c]), k, m)
    requires forall i {:trigger views[i]} :: 0 <= i < |views| && i != c ==> Views(db.lists[i]) == views[i]
    requires forall i {:trigger views[i]} :: 0 <= i < |views| ==> BalancedViews(db.lists[i], views[i], ledger[i])
    ensures AllBalanced(db, ledger)
  {
    hide Views, Shape, Own;
    forall i | 0 <= i < |views|
      ensures Balanced(db.lists[i], ledger[i])
    {
      assert BalancedViews(db.lists[i], views[i], ledger[i]);
    }
  }

  /** The same ids and sizes. */
  ghost predicate SameShape(v: seq<Entry>, w: seq<Entry>) {
    && |v| == |w|
    && forall j {:trigger v[j]} {:trigger w[j]} :: 0 <= j < |v| ==>
         v[j].ohfi == w[j].ohfi && v[j].ohfiParent == w[j].ohfiParent && v[j].size == w[j].size
  }

  lemma SizesKeepBalances(db: Database, views: seq<seq<Entry>>, ledger: seq<seq<int>>)
    requires db.Valid() && |views| == |db.lists| == |ledger|
    requires forall i {:trigger views[i]} :: 0 <= i < |views| ==> SameShape(views[i], Views(db.lists[i]))
    requires forall i {:trigger views[i]} :: 0 <= i < |views| ==> BalancedViews(db.lists[i], views[i], ledger[i])
    ensures AllBalanced(db, ledger)
  {
    hide BalancedViews, Views, Shape;
    forall i | 0 <= i < |views|
      ensures Balanced(db.lists[i], ledger[i])
    {
      assert BalancedViews(db.lists[i], views[i], ledger[i]);
      assert SameShape(views[i], Views(db.lists[i]));
      BalancedSame(db.lists[i], views[i], Views(db.lists[i]), ledger[i]);
    }
  }

  /** vitaEventSendObject, with its effect. */
  method SendEvent(db: Database, e: Event) returns (code: Code)
    requires Sound(db) && e.Send?
    modifies db.repr`handle
    ensures Sound(db) && code != Undefined
    ensures Effect(old(Snap(db)), Snap(db), e, code)
  {
    hide Named, Linked, Ordered, Rooted, AllLinked, Within, Shape, Views, SentRight, HandlesSet, Grouped, Stop,
         Subtree, Known, Effect, Answers, StopsAt, TopLevel, Finds, HasFilter, WasSent, AllSendable;
    ghost var views, a := AllViews(db), Snap(db);
    EveryShape(db, views);
    KnownMeans(db, e.ohfi);
    ghost var c, k;
    var log;
    code, log, c, k := SendObject(db, e.ohfi, e.parentHandle, e.unreadable, e.replies);
    EveryMember(db);
    if code == InvalidOhfi {
      NothingHappened(a, db, e, code);
    } else {
      FoundAnswers(db, e.ohfi, db.lists[c][k]);
      SentHandles(db.lists[c], k, log);
      forall i {:trigger views[c][i]} | 0 <= i < |views[c]|
        ensures View(db.lists[c][i]) ==
                views[c][i].(handle := if k <= i < k + |log| then log[i - k].handle else views[c][i].handle)
      {
      }
      forall i {:trigger views[i]} | 0 <= i < |views| && i != c
        ensures Views(db.lists[i]) == views[i]
      {
        assert forall j {:trigger views[i][j]} :: 0 <= j < |views[i]| ==> View(db.lists[i][j]) == views[i][j];
        SameViews(db.lists[i], views[i]);
      }
      SendHappened(a, db, e, code, c, k, log);
    }
  }

  method SendTidy(db: Database, e: Event, ghost ledger: seq<seq<int>>) returns (code: Code)
    requires Sound(db) && e.Send?
    modifies db.repr`handle
    ensures Sound(db) && code != Undefined
    ensures Effect(old(Snap(db)), Snap(db), e, code)
    ensures old(PathsRight(db)) ==> PathsRight(db)
    ensures old(AllBalanced(db, ledger)) ==> AllBalanced(db, ledger)
  {
    hide Named, Tied, Linked, Ordered, Rooted, AllLinked, Within, Shape, BalancedViews, Views, AllBalanced, Effect;
    ghost var views := AllViews(db);
    ghost var balanced := AllBalanced(db, ledger);
    EveryBalance(db, views, ledger);
    EveryShape(db, views);
    code := SendEvent(db, e);
    EveryMember(db);
    if balanced {
      forall i | 0 <= i < |views|
        ensures SameShape(views[i], Views(db.lists[i]))
      {
        assert forall j {:trigger views[i][j]} :: 0 <= j < |views[i]| ==> Views(db.lists[i])[j] == View(db.lists[i][j]);
      }
      SizesKeepBalances(db, views, ledger);
    }
  }

  lemma SentHandles(s: seq<CmaObject>, k: nat, log: seq<Sent>)
    requires k + |log| <= |s| && HandlesSet(s, k, log)
    ensures forall i {:trigger s[i]} :: k <= i < k + |log| ==> s[i].handle == log[i - k].handle
  {
    forall i | k <= i < k + |log|
      ensures s[i].handle == log[i - k].handle
    {
      assert s[k + (i - k)].handle == log[i - k].handle;
    }
  }

  lemma EveryMember(db: Database)
    requires db.Valid()
    ensures forall i, j {:trigger db.lists[i][j]} :: 0 <= i < |db.lists| && 0 <= j < |db.lists[i]| ==>
              db.lists[i][j] in db.repr
  {
    forall i, j | 0 <= i < |db.lists| && 0 <= j < |db.lists[i]|
      ensures db.lists[i][j] in db.repr
    {
      assert db.lists[i][j] in db.lists[i];
    }
  }

  lemma EveryShape(db: Database, views: seq<seq<Entry>>)
    requires db.Valid() && views == AllViews(db)
    ensures forall i, j {:trigger views[i][j]} :: 0 <= i < |views| && 0 <= j < |views[i]| ==>
              |views[i]| == |db.lists[i]| && views[i][j] == View(db.lists[i][j])
  {
  }

  /** One event. */
  method Step(db: Database, e: Event, ghost ledger: seq<seq<int>>) returns (code: Code)
    requires Sound(db) && WellTyped(e) && Standard(db.roots)
    modifies db, db.repr
    ensures Sound(db) && old(db.repr) <= db.repr && fresh(db.repr - old(db.repr))
    ensures old(db.ohfiCount) <= db.ohfiCount && OnlyNewer(db.lists, old(db.lists), old(db.ohfiCount))
    ensures Effect(old(Snap(db)), Snap(db), e, code)
    ensures old(AllGrouped(db)) && IntoRoot(old(Snap(db)), e) ==> AllGrouped(db)
    ensures old(PathsRight(db)) && SafeAt(old(Snap(db)), e) ==> PathsRight(db)
    ensures old(AllBalanced(db, ledger)) && Gentle(e) ==> AllBalanced(db, ledger)
  {
    hide AllGrouped, PathsRight, AllBalanced, SafeAt, Shape, Within, AllLinked, Named, Standard, CreateEffect,
         DeleteEffect, RenameEffect, PartEffect, TreatEffect, SendEffect;
    ghost var a := Snap(db);
    match e {
      case Create(_, _, _, _) => code := CreateTidy(db, e, ledger);
      case Delete(_) => code := DeleteTidy(db, e);
      case RenameTo(_, _, _) => code := RenameTidy(db, e, ledger);
      case GetPart(_, _, _) => code := PartTidy(db, e, ledger);
      case GetTreat(_, _) => code := TreatTidy(db, e);
      case Send(_, _, _, _) => code := SendTidy(db, e, ledger);
      case List(_) =>
        var _, _, _, _, _ := FilterObjects(db, e.ohfi);
        code := OK;
        assert Snap(db).views == a.views;
    }
  }
}
