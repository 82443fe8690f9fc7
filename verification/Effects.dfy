/** What each event does to the database, as a relation between what it holds before and after. */
module Effects {
  import opened Forest
  import opened Database
  import opened Entries
  import opened Trees
  import opened Receive
  import opened Rename
  import opened RenameLaws
  import opened Sizes
  import opened Sending
  import opened Events

  datatype Event =
    | Create(ohfi: nat, title: string, kind: DataKind, makes: bool)
    | Delete(ohfi: nat)
    | RenameTo(ohfi: nat, title: string, moves: bool)
    | GetPart(ohfi: nat, size: nat, writes: bool)
    | GetTreat(ohfi: nat, node: Remote)
    | Send(ohfi: nat, parentHandle: nat, unreadable: set<nat>, replies: seq<Reply>)
    | List(ohfi: nat)

  predicate WellTyped(e: Event) {
    e.Create? ==> e.kind == Folder || e.kind == File
  }

  /** The entries of every list. */
  ghost function AllViews(db: Database): (views: seq<seq<Entry>>)
    requires Within(db.lists, db.repr)
    reads db, db.repr
    ensures |views| == |db.lists| && forall c :: 0 <= c < |views| ==> views[c] == Views(db.lists[c])
  {
    seq(|db.lists|, c requires 0 <= c < |db.lists| && Within(db.lists, db.repr) reads db, db.repr => Views(db.lists[c]))
  }

  /** The lists, what their objects hold, and the id counter. */
  datatype Snapshot = Snapshot(lists: seq<seq<CmaObject>>, views: seq<seq<Entry>>, count: nat)

  ghost function Snap(db: Database): (a: Snapshot)
    requires Within(db.lists, db.repr)
    reads db, db.repr
    ensures Fits(a) && a.lists == db.lists && a.views == AllViews(db) && a.count == db.ohfiCount
  {
    Snapshot(db.lists, AllViews(db), db.ohfiCount)
  }

  ghost predicate Fits(a: Snapshot) {
    |a.views| == |a.lists| && forall c {:trigger a.views[c]} :: 0 <= c < |a.views| ==> |a.views[c]| == |a.lists[c]|
  }

  // ---------- The effects ----------

  ghost predicate Same(a: Snapshot, b: Snapshot) {
    b.lists == a.lists && b.views == a.views
  }

  /** The object at position `k` of category `c` has the id, or the filter with the id. */
  ghost predicate AnswersAt(a: Snapshot, c: nat, k: nat, ohfi: nat) {
    c < |a.lists| && k < |a.lists[c]| && Answers(a.lists[c][k], ohfi)
  }

  ghost predicate Known(a: Snapshot, ohfi: nat) {
    exists c, k :: AnswersAt(a, c, k, ohfi)
  }

  /** The id is that of an object, and not of a category root. */
  ghost predicate IsEntry(a: Snapshot, ohfi: nat) {
    OHFI_OFFSET <= ohfi && exists c :: 0 <= c < |a.lists| && HasId(a.lists[c], ohfi)
  }

  /** What answers to the id is a file. */
  ghost predicate IsFile(a: Snapshot, ohfi: nat) {
    exists c: nat, k: nat :: AnswersAt(a, c, k, ohfi) && File in a.lists[c][k].kinds
  }

  /** An empty entry more, at the end of the category. */
  ghost predicate Created(a: Snapshot, b: Snapshot, e: Event, c: nat, k: nat)
    requires Fits(a) && Fits(b) && e.Create?
  {
    && AnswersAt(a, c, k, e.ohfi) && |b.lists| == |a.lists|
    && a.lists[c] <= b.lists[c] && b.lists == a.lists[c := b.lists[c]]
    && b.views == a.views[c := a.views[c] + Preorder(Leaf(e.title, e.kind), PlaceOf(a.views[c][k]), a.count)]
  }

  ghost predicate CreateEffect(a: Snapshot, b: Snapshot, e: Event, code: Code)
    requires Fits(a) && Fits(b) && e.Create?
  {
    if code == OK then e.makes && b.count == a.count + 1 && exists c, k :: Created(a, b, e, c, k)
    else if code == FailedOperateObject then !e.makes && Known(a, e.ohfi) && Same(a, b) && b.count == a.count + 1
    else code == NotExistObject && !Known(a, e.ohfi) && b == a
  }

  /** An object that is still in its list holds what it held. */
  ghost predicate Retained(a: Snapshot, b: Snapshot, c: nat)
    requires Fits(a) && Fits(b) && c < |a.lists| == |b.lists|
  {
    forall i, j {:trigger b.views[c][i], a.views[c][j]} ::
      0 <= i < |b.lists[c]| && 0 <= j < |a.lists[c]| && b.lists[c][i] == a.lists[c][j] ==>
        b.views[c][i] == a.views[c][j]
  }

  ghost predicate Deleted(a: Snapshot, b: Snapshot, ohfi: nat, c: nat)
    requires Fits(a) && Fits(b)
  {
    && c < |a.lists| && HasId(a.lists[c], ohfi) && |b.lists| == |a.lists|
    && b.lists == a.lists[c := Keep(a.lists[c], Subtree(a.lists[c], ohfi))]
    && b.views == a.views[c := b.views[c]] && Retained(a, b, c)
  }

  ghost predicate DeleteEffect(a: Snapshot, b: Snapshot, e: Event, code: Code)
    requires Fits(a) && Fits(b) && e.Delete?
  {
    && b.count == a.count
    && if IsEntry(a, e.ohfi) then code == OK && exists c :: Deleted(a, b, e.ohfi, c)
       else Same(a, b) && code == if Known(a, e.ohfi) then Undefined else InvalidOhfi
  }

  /** Renamed, or renamed and renamed back. */
  ghost predicate Renamed(a: Snapshot, b: Snapshot, e: Event, c: nat, k: nat)
    requires Fits(a) && Fits(b) && e.RenameTo?
  {
    && c < |a.lists| && 0 < k < |a.lists[c]| && a.lists[c][k].ohfi == e.ohfi
    && Ordered(a.lists[c]) && AllNamed(a.views[c][k..])
    && b.views == a.views[c := AfterRename(a.lists[c], a.views[c], k, e.title, e.moves)]
  }

  ghost predicate RenameEffect(a: Snapshot, b: Snapshot, e: Event, code: Code)
    requires Fits(a) && Fits(b) && e.RenameTo?
  {
    && b.count == a.count && b.lists == a.lists
    && if IsEntry(a, e.ohfi) then
         code == (if e.moves then OK else FailedOperateObject) && exists c, k :: Renamed(a, b, e, c, k)
       else Same(a, b) && code == if Known(a, e.ohfi) then Undefined else NotExistObject
  }

  /** Only sizes differ. */
  predicate SizesOnly(v: seq<Entry>, w: seq<Entry>) {
    |v| == |w| && forall j {:trigger w[j]} :: 0 <= j < |v| ==> w[j] == v[j].(size := w[j].size)
  }

  /** An object and its ancestors have grown. */
  ghost predicate Filled(a: Snapshot, b: Snapshot, e: Event, c: nat, k: nat)
    requires Fits(a) && Fits(b) && e.GetPart?
  {
    && AnswersAt(a, c, k, e.ohfi) && File in a.lists[c][k].kinds && |b.views| == |a.views|
    && b.views == a.views[c := b.views[c]]
    && Grown(a.lists[c], a.views[c], b.views[c], k, e.size) && SizesOnly(a.views[c], b.views[c])
  }

  ghost predicate PartEffect(a: Snapshot, b: Snapshot, e: Event, code: Code)
    requires Fits(a) && Fits(b) && e.GetPart?
  {
    && b.count == a.count && b.lists == a.lists
    && if e.writes && IsFile(a, e.ohfi) then code == OK && exists c, k :: Filled(a, b, e, c, k)
       else Same(a, b) && code == if Known(a, e.ohfi) then InvalidPermission else InvalidOhfi
  }

  /** The first entry behind the root with that relative path. */
  function FirstNamed(v: seq<Entry>, path: string, k: nat): (r: nat)
    requires k <= |v|
    ensures k <= r <= |v|
    ensures r < |v| ==> v[r].relPath == Some(path)
    ensures forall i :: k <= i < r ==> v[i].relPath != Some(path)
    decreases |v| - k
  {
    if k == |v| || v[k].relPath == Some(path) then k else FirstNamed(v, path, k + 1)
  }

  /** The ids that go when an object of that name comes to position `k` of a list. */
  ghost function ReplacedIn(s: seq<CmaObject>, v: seq<Entry>, k: nat, node: Remote): set<nat>
    requires |v| == |s| && k < |s|
  {
    if node.Unreadable? || k != 0 || FirstNamed(v, node.name, 1) == |s| then {}
    else Subtree(s, s[FirstNamed(v, node.name, 1)].ohfi)
  }

  /** What stays of the list has grown where the new bytes are below it; behind it is the new tree, or nothing. */
  ghost predicate CameIn(a: Snapshot, b: Snapshot, e: Event, code: Code, c: nat, k: nat)
    requires Fits(a) && Fits(b) && e.GetTreat?
  {
    && AnswersAt(a, c, k, e.ohfi) && |b.lists| == |a.lists|
    && var s, v := a.lists[c], a.views[c];
    var base := Keep(s, ReplacedIn(s, v, k, e.node));
    && base <= b.lists[c] && b.lists == a.lists[c := b.lists[c]] && b.views == a.views[c := b.views[c]]
    && b.views[c][|base|..] == (if code == OK then Preorder(ToTree(e.node), PlaceOf(v[k]), a.count) else [])
    && forall i, j {:trigger b.views[c][i], v[j]} :: 0 <= i < |base| && 0 <= j < |s| && base[i] == s[j] ==>
         b.views[c][i] == v[j].(size := v[j].size + Gain(s, s[j], s[k], Bytes(e.node)))
  }

  ghost predicate TreatEffect(a: Snapshot, b: Snapshot, e: Event, code: Code)
    requires Fits(a) && Fits(b) && e.GetTreat?
  {
    if !Known(a, e.ohfi) then code == InvalidOhfi && b == a
    else if e.node.RemoteFolder? && IsFile(a, e.ohfi) then code == Undefined && b == a
    else code == Outcome(e.node) && b.count == a.count + IdsUsed(e.node) && exists c, k :: CameIn(a, b, e, code, c, k)
  }

  /** The objects of the walk went out in order, until its end or until one could not be sent. */
  ghost predicate WentOut(a: Snapshot, b: Snapshot, e: Event, code: Code, c: nat, k: nat, log: seq<Sent>)
    requires Fits(a) && Fits(b) && e.Send?
  {
    && AnswersAt(a, c, k, e.ohfi) && b.lists == a.lists
    && var s, v := a.lists[c], a.views[c];
    && Ordered(s) && SentRight(s, k, log, e.parentHandle, e.replies) && |log| <= Stop(s, k) - k
    && AllSendable(s, k, |log|, e.unreadable)
    && (if code == OK then |log| == Stop(s, k) - k
        else |log| < Stop(s, k) - k && StopsAt(code, s[k + |log|], |log|, e.unreadable, e.replies))
    && b.views == a.views[c := b.views[c]]
    && forall i {:trigger b.views[c][i]} :: 0 <= i < |s| ==>
         b.views[c][i] == v[i].(handle := if k <= i < k + |log| then log[i - k].handle else v[i].handle)
  }

  ghost predicate SendEffect(a: Snapshot, b: Snapshot, e: Event, code: Code)
    requires Fits(a) && Fits(b) && e.Send?
  {
    && b.count == a.count && b.lists == a.lists
    && if !Known(a, e.ohfi) then code == InvalidOhfi && Same(a, b)
       else code != InvalidOhfi && exists c, k, log :: WentOut(a, b, e, code, c, k, log)
  }

  /** The event turns what the database holds from `a` into `b`, and ends with `code`. */
  ghost predicate Effect(a: Snapshot, b: Snapshot, e: Event, code: Code)
    requires Fits(a) && Fits(b)
  {
    match e
    case Create(_, _, _, _) => CreateEffect(a, b, e, code)
    case Delete(_) => DeleteEffect(a, b, e, code)
    case RenameTo(_, _, _) => RenameEffect(a, b, e, code)
    case GetPart(_, _, _) => PartEffect(a, b, e, code)
    case GetTreat(_, _) => TreatEffect(a, b, e, code)
    case Send(_, _, _, _) => SendEffect(a, b, e, code)
    case List(_) => b == a && code == OK
  }

  // ---------- That they take place ----------

  /** Whether an id is known, seen from the maps and from the lists. */
  lemma KnownMeans(db: Database, ohfi: nat)
    requires db.Valid()
    ensures Known(Snap(db), ohfi) <==> ohfi in db.home || ohfi in db.filters
  {
    hide Within, AllLinked, Shape, Answers;
    var a := Snap(db);
    if Known(a, ohfi) {
      var c, k :| AnswersAt(a, c, k, ohfi);
      AnswerKnown(db, ohfi, c, k);
    }
    if ohfi in db.home || ohfi in db.filters {
      var c, k := KnownAnswers(db, ohfi);
      assert AnswersAt(a, c, k, ohfi);
    }
  }

  lemma AnswerKnown(db: Database, ohfi: nat, c: nat, k: nat)
    requires db.Valid() && c < |db.lists| && k < |db.lists[c]| && Answers(db.lists[c][k], ohfi)
    ensures ohfi in db.home || ohfi in db.filters
  {
    hide Within, AllLinked, Ordered, Rooted, WellFormed;
    FoundHere(db, ohfi, c, k);
    FoundMeans(db, ohfi, db.lists[c][k]);
  }

  lemma KnownAnswers(db: Database, ohfi: nat) returns (c: nat, k: nat)
    requires db.Valid() && (ohfi in db.home || ohfi in db.filters)
    ensures c < |db.lists| && k < |db.lists[c]| && Answers(db.lists[c][k], ohfi)
  {
    hide Within, AllLinked, Ordered, Rooted;
    if ohfi in db.home {
      c := db.home[ohfi];
      assert HasId(db.lists[c], ohfi);
      var o :| o in db.lists[c] && o.ohfi == ohfi;
      k := Position(db.lists[c], o);
    } else {
      c, k := db.filters[ohfi], 0;
    }
  }

  /** The same for an entry, and for a file. */
  lemma EntryMeans(db: Database, ohfi: nat)
    requires db.Valid()
    ensures IsEntry(Snap(db), ohfi) <==> OHFI_OFFSET <= ohfi && ohfi in db.home
  {
    hide Within, AllLinked, Ordered, Rooted, WellFormed;
    var a := Snap(db);
    if exists c :: 0 <= c < |a.lists| && HasId(a.lists[c], ohfi) {
      var c :| 0 <= c < |a.lists| && HasId(a.lists[c], ohfi);
      var o :| o in db.lists[c] && o.ohfi == ohfi;
      assert o.ohfi in db.home;
    }
    if ohfi in db.home {
      assert HasId(db.lists[db.home[ohfi]], ohfi);
    }
  }

  lemma FileMeans(db: Database, ohfi: nat)
    requires db.Valid()
    ensures forall c: nat, k: nat {:trigger AnswersAt(Snap(db), c, k, ohfi)} :: AnswersAt(Snap(db), c, k, ohfi) ==>
              (IsFile(Snap(db), ohfi) <==> File in db.lists[c][k].kinds)
    ensures IsFile(Snap(db), ohfi) ==> Known(Snap(db), ohfi)
  {
    hide Within, AllLinked, Shape, Answers, Finds;
    var a := Snap(db);
    forall c: nat, k: nat, i: nat, m: nat | AnswersAt(a, c, k, ohfi) && AnswersAt(a, i, m, ohfi)
      ensures db.lists[c][k] == db.lists[i][m]
    {
      AnswerFound(db, ohfi, c, k);
      AnswerFound(db, ohfi, i, m);
      FoundOnce(db, ohfi, db.lists[c][k], db.lists[i][m]);
    }
  }

  lemma AnswerFound(db: Database, ohfi: nat, c: nat, k: nat)
    requires db.Valid() && c < |db.lists| && k < |db.lists[c]| && Answers(db.lists[c][k], ohfi)
    ensures Finds(db, ohfi, db.lists[c][k])
  {
    hide Within, AllLinked, Finds, Shape;
    FoundHere(db, ohfi, c, k);
  }

  /** What the codes of an event that changes nothing but the counter say. */
  ghost predicate Idle(a: Snapshot, count: nat, e: Event, code: Code) {
    var known := Known(a, e.ohfi);
    match e
    case Create(_, _, _, makes) =>
      if known then code == FailedOperateObject && !makes && count == a.count + 1
      else code == NotExistObject && count == a.count
    case Delete(_) => !IsEntry(a, e.ohfi) && code == (if known then Undefined else InvalidOhfi) && count == a.count
    case RenameTo(_, _, _) =>
      !IsEntry(a, e.ohfi) && code == (if known then Undefined else NotExistObject) && count == a.count
    case GetPart(_, _, writes) =>
      !(writes && IsFile(a, e.ohfi)) && code == (if known then InvalidPermission else InvalidOhfi) && count == a.count
    case GetTreat(_, node) =>
      (if known then code == Undefined && node.RemoteFolder? && IsFile(a, e.ohfi) else code == InvalidOhfi) &&
      count == a.count
    case Send(_, _, _, _) => !known && code == InvalidOhfi && count == a.count
    case List(_) => code == OK && count == a.count
  }

  lemma NothingHappened(a: Snapshot, db: Database, e: Event, code: Code)
    requires db.Valid() && Fits(a) && db.lists == a.lists && Idle(a, db.ohfiCount, e, code)
    requires forall i {:trigger a.views[i]} :: 0 <= i < |a.lists| ==> Views(a.lists[i]) == a.views[i]
    ensures Effect(a, Snap(db), e, code)
  {
    hide Shape, AllLinked, Views, Known, IsEntry, IsFile;
    assert Snap(db).views == a.views;
  }

  lemma CreateHappened(a: Snapshot, db: Database, e: Event, c: nat, parent: CmaObject, added: seq<CmaObject>)
    requires db.Valid() && Fits(a) && e.Create? && e.makes && db.ohfiCount == a.count + 1
    requires c < |a.lists| && parent in a.lists[c] && Answers(parent, e.ohfi)
    requires db.lists == a.lists[c := a.lists[c] + added]
    requires forall i {:trigger a.views[i]} :: 0 <= i < |a.lists| ==> Views(a.lists[i]) == a.views[i]
    requires Views(added) == Preorder(Leaf(e.title, e.kind), PlaceAt(parent), a.count)
    ensures Effect(a, Snap(db), e, OK)
  {
    hide Shape, AllLinked, Preorder, Answers, Views;
    var b, k := Snap(db), Position(a.lists[c], parent);
    assert a.views[c] == Views(a.lists[c]);
    assert PlaceOf(a.views[c][k]) == PlaceAt(parent);
    ViewsConcat(a.lists[c], added);
    assert b.views == a.views[c := Views(a.lists[c] + added)];
    assert Created(a, b, e, c, k);
  }

  lemma DeleteHappened(a: Snapshot, db: Database, e: Event, c: nat)
    requires db.Valid() && Fits(a) && e.Delete? && OHFI_OFFSET <= e.ohfi && db.ohfiCount == a.count
    requires c < |a.lists| && HasId(a.lists[c], e.ohfi)
    requires db.lists == a.lists[c := Keep(a.lists[c], Subtree(a.lists[c], e.ohfi))]
    requires forall i {:trigger a.views[i]} :: 0 <= i < |a.lists| ==> Views(a.lists[i]) == a.views[i]
    ensures Effect(a, Snap(db), e, OK)
  {
    hide Shape, AllLinked, Keep, Subtree, HasId;
    var b := Snap(db);
    assert a.views[c] == Views(a.lists[c]);
    assert b.views == a.views[c := b.views[c]];
    assert Retained(a, b, c);
    assert Deleted(a, b, e.ohfi, c);
  }

  lemma RenameHappened(a: Snapshot, db: Database, e: Event, code: Code, c: nat, k: nat)
    requires db.Valid() && Fits(a) && e.RenameTo? && db.lists == a.lists && db.ohfiCount == a.count
    requires code == (if e.moves then OK else FailedOperateObject) && IsEntry(a, e.ohfi)
    requires c < |a.lists| && 0 < k < |a.lists[c]| && a.lists[c][k].ohfi == e.ohfi
    requires Ordered(a.lists[c]) && AllNamed(a.views[c][k..])
    requires Views(a.lists[c]) == AfterRename(a.lists[c], a.views[c], k, e.title, e.moves)
    requires forall i {:trigger a.views[i]} :: 0 <= i < |a.lists| && i != c ==> Views(a.lists[i]) == a.views[i]
    ensures Effect(a, Snap(db), e, code)
  {
    hide Shape, AllLinked, AfterRename, AllNamed, Ordered, IsEntry;
    var b := Snap(db);
    assert b.views == a.views[c := Views(a.lists[c])];
    assert Renamed(a, b, e, c, k);
  }

  /** A move that fails leaves the snapshot as it was if and only if what is replaced stays in place. */
  lemma FailedMoveRestoresIff(a: Snapshot, b: Snapshot, e: Event, c: nat, k: nat)
    requires Fits(a) && Fits(b) && e.RenameTo? && !e.moves && Renamed(a, b, e, c, k) && PathsOk(a.lists[c], a.views[c])
    ensures b.views == a.views <==> BackInPlace(a.lists[c], a.views[c], k, e.title)
  {
    hide PathsOk, AllNamed, BackInPlace, Replace, After, Ordered;
    TopTwice(a.lists[c], a.views[c], k, e.title);
    RestoredIff(a.lists[c], a.views[c], k, e.title);
    assert b.views[c] == BackList(a.lists[c], a.views[c], k, e.title);
    assert a.views == a.views[c := a.views[c]];
  }

  lemma PartHappened(a: Snapshot, db: Database, e: Event, c: nat, k: nat)
    requires db.Valid() && Fits(a) && e.GetPart? && e.writes && db.lists == a.lists && db.ohfiCount == a.count
    requires AnswersAt(a, c, k, e.ohfi) && File in a.lists[c][k].kinds
    requires Grown(a.lists[c], a.views[c], Views(a.lists[c]), k, e.size)
    requires SizesOnly(a.views[c], Views(a.lists[c]))
    requires forall i {:trigger a.views[i]} :: 0 <= i < |a.lists| && i != c ==> Views(a.lists[i]) == a.views[i]
    ensures Effect(a, Snap(db), e, OK)
  {
    hide Shape, AllLinked, Grown, SizesOnly, Answers;
    var b := Snap(db);
    assert b.views == a.views[c := Views(a.lists[c])];
    assert Filled(a, b, e, c, k);
  }

  lemma SendHappened(a: Snapshot, db: Database, e: Event, code: Code, c: nat, k: nat, log: seq<Sent>)
    requires db.Valid() && Fits(a) && e.Send? && db.lists == a.lists && db.ohfiCount == a.count && code != InvalidOhfi
    requires AnswersAt(a, c, k, e.ohfi) && Ordered(a.lists[c])
    requires SentRight(a.lists[c], k, log, e.parentHandle, e.replies) && |log| <= Stop(a.lists[c], k) - k
    requires AllSendable(a.lists[c], k, |log|, e.unreadable)
    requires if code == OK then |log| == Stop(a.lists[c], k) - k
             else |log| < Stop(a.lists[c], k) - k &&
                  StopsAt(code, a.lists[c][k + |log|], |log|, e.unreadable, e.replies)
    requires forall i {:trigger a.views[c][i]} :: 0 <= i < |a.lists[c]| ==>
               View(a.lists[c][i]) ==
               a.views[c][i].(handle := if k <= i < k + |log| then log[i - k].handle else a.views[c][i].handle)
    requires forall i {:trigger a.views[i]} :: 0 <= i < |a.lists| && i != c ==> Views(a.lists[i]) == a.views[i]
    ensures Effect(a, Snap(db), e, code)
  {
    hide Shape, AllLinked, SentRight, Stop, StopsAt, Ordered, Answers, AllSendable;
    var b := Snap(db);
    assert b.views == a.views[c := Views(a.lists[c])];
    assert forall i {:trigger b.views[c][i]} :: 0 <= i < |a.lists[c]| ==>
      b.views[c][i] == View(a.lists[c][i]) && a.views[c][i] == a.views[c][i];
    assert WentOut(a, b, e, code, c, k, log);
  }

  // ---------- Receiving ----------

  lemma {:induction false} FirstNamedIs(s: seq<CmaObject>, path: string, k: nat)
    requires k <= |s|
    ensures FirstNamed(Views(s), path, k) == FirstWithPath(s, path, k)
    decreases |s| - k
  {
    if k < |s| {
      assert Views(s)[k] == View(s[k]);
      FirstNamedIs(s, path, k + 1);
    }
  }

  /** The ids that go, seen from the entries. */
  lemma ReplacedIs(s: seq<CmaObject>, v: seq<Entry>, k: nat, node: Remote)
    requires Ordered(s) && k < |s| && v == Views(s)
    ensures ReplacedIn(s, v, k, node) == Replaced(s, s[k], node)
  {
    hide Subtree, Views;
    assert k != 0 ==> s[k] != s[0];
    if !node.Unreadable? {
      FirstNamedIs(s, node.name, 1);
    }
  }

  lemma TreatHappened(a: Snapshot, db: Database, e: Event, code: Code, c: nat, k: nat, base: seq<CmaObject>,
                      added: seq<CmaObject>)
    requires db.Valid() && Fits(a) && e.GetTreat? && code == Outcome(e.node) &&
               db.ohfiCount == a.count + IdsUsed(e.node) && !(e.node.RemoteFolder? && IsFile(a, e.ohfi))
    requires AnswersAt(a, c, k, e.ohfi) && base == Keep(a.lists[c], ReplacedIn(a.lists[c], a.views[c], k, e.node))
    requires db.lists == a.lists[c := base + added]
    requires if code == OK then Views(added) == Preorder(ToTree(e.node), PlaceOf(a.views[c][k]), a.count)
             else added == []
    requires forall o, j {:trigger o in base, a.views[c][j]} ::
               o in base && 0 <= j < |a.lists[c]| && o == a.lists[c][j] ==>
                 var v := a.views[c][j];
                 View(o) == v.(size := v.size + Gain(a.lists[c], o, a.lists[c][k], Bytes(e.node)))
    requires forall i {:trigger a.views[i]} :: 0 <= i < |a.lists| && i != c ==> Views(a.lists[i]) == a.views[i]
    ensures Effect(a, Snap(db), e, code)
  {
    hide Shape, AllLinked, Preorder, Answers, Keep, Gain, Views, ReplacedIn, IsFile;
    var b := Snap(db);
    ViewsConcat(base, added);
    assert b.views[c] == Views(base) + Views(added);
    assert b.views == a.views[c := b.views[c]];
    assert b.views[c][|base|..] == Views(added);
    forall i, j {:trigger b.views[c][i], a.views[c][j]} | 0 <= i < |base| && 0 <= j < |a.lists[c]| &&
      base[i] == a.lists[c][j]
      ensures b.views[c][i] ==
              a.views[c][j].(size := a.views[c][j].size + Gain(a.lists[c], a.lists[c][j], a.lists[c][k], Bytes(e.node)))
    {
      assert base[i] in base && b.views[c][i] == View(base[i]);
      var v := a.views[c][j];
    }
    assert CameIn(a, b, e, code, c, k);
  }
}
