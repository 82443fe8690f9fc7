/** Whole runs of events against one database, from the first scan on. */
module Runs {
  import opened Forest
  import opened Database
  import opened Entries
  import opened Trees
  import opened RenameLaws
  import opened Paths
  import opened Sizes
  import opened Sending
  import opened Browse
  import opened Events
  import opened Effects
  import opened Startup
  import opened Session

  // ---------- The invariants, seen in a snapshot ----------

  /** Ids and parents are as they should be in every list, and at most one object of all answers to an id, by its
      own or that of a virtual folder. */
  ghost predicate Proper(a: Snapshot) {
    && Fits(a) && OneAnswer(a)
    && forall c {:trigger a.lists[c]} :: 0 <= c < |a.lists| ==>
         a.lists[c] != [] && WellFormed(a.lists[c], a.lists[c][0], a.count)
  }

  ghost predicate OneAnswer(a: Snapshot) {
    && (forall c: nat, k: nat, d: nat, m: nat, x: nat ::
          AnswersAt(a, c, k, x) && AnswersAt(a, d, m, x) ==> c == d && k == m)
    && (forall c: nat, x: nat :: c < |a.lists| && a.lists[c] != [] && HasFilter(a.lists[c][0], x) ==>
          OHFI_OFFSET <= x < a.count)
  }

  ghost predicate GroupedAt(a: Snapshot) {
    forall c {:trigger a.lists[c]} :: 0 <= c < |a.lists| ==> Grouped(a.lists[c])
  }

  /** Every path is made from the parent's. */
  ghost predicate PathsAt(a: Snapshot) {
    && Proper(a)
    && forall c {:trigger a.views[c]} :: 0 <= c < |a.views| ==> PathsOk(a.lists[c], a.views[c])
  }

  /** Every folder is as large as its children and what the ledger says, which is nothing for a new one. */
  ghost predicate BalancedAt(a: Snapshot, ledger: seq<seq<int>>) {
    && Fits(a) && |ledger| == |a.lists|
    && forall c {:trigger a.views[c]} :: 0 <= c < |a.views| ==> BalancedViews(a.lists[c], a.views[c], ledger[c])
  }

  lemma SnapMeans(db: Database, ledger: seq<seq<int>>)
    requires Sound(db)
    ensures Proper(Snap(db)) && (GroupedAt(Snap(db)) <==> AllGrouped(db))
    ensures PathsAt(Snap(db)) <==> PathsRight(db)
    ensures BalancedAt(Snap(db), ledger) <==> AllBalanced(db, ledger)
  {
    hide Named, WellFormed, Grouped, PathsOk, Tied, BalancedViews, Views, AllLinked, Within, IdsUnique;
    var a := Snap(db);
    SnapProper(db);
    forall c | 0 <= c < |db.lists|
      ensures PathsOk(a.lists[c], a.views[c]) <==> Tied(db.lists[c])
    {
      ListFacts(db, c);
      TiedIsPathsOk(db.lists[c]);
      assert Named(db.lists[c]);
      NamedRoot(db.lists[c]);
    }
  }

  lemma NamedRoot(s: seq<CmaObject>)
    requires Named(s)
    ensures s != [] && s[0].relPath == None
  {
  }

  lemma SnapProper(db: Database)
    requires db.Valid()
    ensures Proper(Snap(db)) && forall c {:trigger db.lists[c]} :: 0 <= c < |db.lists| ==> Ordered(db.lists[c])
  {
    hide AllLinked, Within, Views, Answers, Finds, HasFilter, OneAnswer;
    var a := Snap(db);
    assert forall c :: 0 <= c < |db.lists| ==> WellFormed(db.lists[c], db.roots[c], db.ohfiCount);
    SnapOneAnswer(db);
  }

  lemma SnapOneAnswer(db: Database)
    requires db.Valid()
    ensures OneAnswer(Snap(db))
  {
    hide AllLinked, Within, Shape, Answers, Finds, HasFilter;
    var a := Snap(db);
    forall c: nat, k: nat, d: nat, m: nat, x: nat | AnswersAt(a, c, k, x) && AnswersAt(a, d, m, x)
      ensures c == d && k == m
    {
      AnswerFound(db, x, c, k);
      AnswerFound(db, x, d, m);
      FoundOnce(db, x, db.lists[c][k], db.lists[d][m]);
      PlaceOnce(db, c, k, d, m);
    }
    forall c: nat, x: nat | c < |a.lists| && a.lists[c] != [] && HasFilter(a.lists[c][0], x)
      ensures OHFI_OFFSET <= x < a.count
    {
      FilterBelow(db, c, x);
    }
  }

  lemma PlaceOnce(db: Database, c: nat, k: nat, d: nat, m: nat)
    requires db.Valid() && c < |db.lists| && d < |db.lists| && k < |db.lists[c]| && m < |db.lists[d]|
    requires db.lists[c][k] == db.lists[d][m]
    ensures c == d && k == m
  {
    assert db.lists[c][k] in db.lists[c] && db.lists[d][m] in db.lists[d];
    assert db.home[db.lists[c][k].ohfi] == c && db.home[db.lists[d][m].ohfi] == d;
    ListFacts(db, c);
  }

  lemma FilterBelow(db: Database, c: nat, x: nat)
    requires db.Valid() && c < |db.lists| && HasFilter(db.lists[c][0], x)
    ensures OHFI_OFFSET <= x < db.ohfiCount
  {
    var f :| f in db.lists[c][0].filters && f.ohfi == x;
    assert x in db.filters;
    assert db.filters[x] == c;
  }

  // ---------- What holds at every point of a run ----------

  /** The `i`th event of the run did what it is for. */
  ghost predicate TookPlace(history: seq<Snapshot>, events: seq<Event>, codes: seq<Code>, i: nat)
    requires i < |events| && i < |codes| && i + 1 < |history|
  {
    Fits(history[i]) && Fits(history[i + 1]) && Effect(history[i], history[i + 1], events[i], codes[i])
  }

  lemma OneMoreEvent(history: seq<Snapshot>, events: seq<Event>, codes: seq<Code>, b: Snapshot, code: Code)
    requires |history| == |codes| + 1 && |codes| < |events|
    requires forall i :: 0 <= i < |codes| ==> TookPlace(history, events, codes, i)
    requires Fits(history[|codes|]) && Fits(b) && Effect(history[|codes|], b, events[|codes|], code)
    ensures var h, r := history + [b], codes + [code];
            && (forall i :: 0 <= i < |r| ==> TookPlace(h, events, r, i))
            && (forall i :: 0 <= i <= |codes| ==> h[i] == history[i]) && h[|r|] == b
  {
    hide Effect;
    var h, r := history + [b], codes + [code];
    forall i | 0 <= i < |r|
      ensures TookPlace(h, events, r, i)
    {
      if i < |codes| {
        assert TookPlace(history, events, codes, i);
      }
    }
  }

  /** The counter has not gone back since point `j`, and every object at point `i` was there then or has a newer
      id: an id that was given out and is gone never comes back. */
  ghost predicate NewerSince(history: seq<Snapshot>, j: nat, i: nat)
    requires j < |history| && i < |history|
  {
    history[j].count <= history[i].count && OnlyNewer(history[i].lists, history[j].lists, history[j].count)
  }

  /** Point `i` of the run: the lists are well-formed; they are grouped if they were and what has come in since came
      in under category roots; the paths are right if they were and every rename since met the guards; the sizes
      balance if they did and nothing has been deleted or received as a tree since. */
  ghost predicate Kept(history: seq<Snapshot>, events: seq<Event>, ledger: seq<seq<int>>, i: nat)
    requires i < |history| && i <= |events|
  {
    && Proper(history[i])
    && (GroupedAt(history[0]) && (forall j :: 0 <= j < i ==> IntoRoot(history[j], events[j])) ==> GroupedAt(history[i]))
    && (PathsAt(history[0]) && (forall j :: 0 <= j < i ==> SafeAt(history[j], events[j])) ==> PathsAt(history[i]))
    && (BalancedAt(history[0], ledger) && (forall j :: 0 <= j < i ==> Gentle(events[j])) ==>
          BalancedAt(history[i], ledger))
    && forall j :: 0 <= j <= i ==> NewerSince(history, j, i)
  }

  lemma KeptAtFirst(a: Snapshot, events: seq<Event>, ledger: seq<seq<int>>)
    requires Proper(a)
    ensures Kept([a], events, ledger, 0)
  {
    SameLists(a.lists, a.count);
  }

  lemma KeptBefore(history: seq<Snapshot>, events: seq<Event>, ledger: seq<seq<int>>, b: Snapshot, i: nat)
    requires i < |history| && i <= |events| && Kept(history, events, ledger, i)
    ensures Kept(history + [b], events, ledger, i)
  {
    hide Proper, GroupedAt, PathsAt, BalancedAt, OnlyNewer, IntoRoot, SafeAt, Gentle;
    var h := history + [b];
    assert forall j :: 0 <= j <= i ==> h[j] == history[j];
    forall j | 0 <= j <= i
      ensures NewerSince(h, j, i)
    {
      assert NewerSince(history, j, i);
    }
    if forall j :: 0 <= j < i ==> IntoRoot(h[j], events[j]) {
      forall j | 0 <= j < i
        ensures IntoRoot(history[j], events[j])
      {
        assert IntoRoot(h[j], events[j]);
      }
    }
    if forall j :: 0 <= j < i ==> SafeAt(h[j], events[j]) {
      forall j | 0 <= j < i
        ensures SafeAt(history[j], events[j])
      {
        assert SafeAt(h[j], events[j]);
      }
    }
  }

  /** One more event that keeps what events keep. */
  lemma KeptNext(history: seq<Snapshot>, events: seq<Event>, ledger: seq<seq<int>>, n: nat, b: Snapshot)
    requires |history| == n + 1 && n < |events| && Proper(b)
    requires forall i :: 0 <= i <= n ==> Kept(history, events, ledger, i)
    requires GroupedAt(history[n]) && IntoRoot(history[n], events[n]) ==> GroupedAt(b)
    requires PathsAt(history[n]) && SafeAt(history[n], events[n]) ==> PathsAt(b)
    requires BalancedAt(history[n], ledger) && Gentle(events[n]) ==> BalancedAt(b, ledger)
    requires history[n].count <= b.count && OnlyNewer(b.lists, history[n].lists, history[n].count)
    ensures forall i :: 0 <= i <= n + 1 ==> Kept(history + [b], events, ledger, i)
  {
    hide Proper, GroupedAt, PathsAt, BalancedAt, OnlyNewer, IntoRoot, SafeAt, Gentle;
    var h, m := history + [b], n + 1;
    forall i | 0 <= i <= n
      ensures Kept(h, events, ledger, i)
    {
      KeptBefore(history, events, ledger, b, i);
    }
    assert Kept(history, events, ledger, n);
    forall j | 0 <= j <= m
      ensures NewerSince(h, j, m)
    {
      if j <= n {
        assert NewerSince(history, j, n);
        NewerTwice(b.lists, history[n].lists, history[j].lists, history[j].count, history[n].count);
      } else {
        SameLists(b.lists, b.count);
      }
    }
  }

  /** A run of events, which ends early only where the program itself goes astray.  `history` is what the
      database holds before each event, and in the end. */
  method Run(db: Database, events: seq<Event>, ghost ledger: seq<seq<int>>)
    returns (codes: seq<Code>, ghost history: seq<Snapshot>)
    requires Sound(db) && Standard(db.roots) && forall e :: e in events ==> WellTyped(e)
    modifies db, db.repr
    ensures Sound(db)
    ensures |codes| <= |events| && (|codes| < |events| ==> codes != [] && codes[|codes| - 1] == Undefined)
    ensures |history| == |codes| + 1 && history[0] == old(Snap(db)) && history[|codes|] == Snap(db)
    ensures forall i :: 0 <= i < |codes| ==> TookPlace(history, events, codes, i)
    ensures forall i :: 0 <= i <= |codes| ==> Kept(history, events, ledger, i)
    ensures old(db.ohfiCount) <= db.ohfiCount && OnlyNewer(db.lists, old(db.lists), old(db.ohfiCount))
    ensures old(AllGrouped(db)) && (forall i :: 0 <= i < |codes| ==> IntoRoot(history[i], events[i])) ==>
              AllGrouped(db)
    ensures old(PathsRight(db)) && (forall i :: 0 <= i < |codes| ==> SafeAt(history[i], events[i])) ==>
              PathsRight(db)
    ensures old(AllBalanced(db, ledger)) && (forall e :: e in events ==> Gentle(e)) ==> AllBalanced(db, ledger)
  {
    hide AllGrouped, PathsRight, AllBalanced, Named, Shape, AllLinked, IntoRoot, Gentle, WellTyped, Standard,
         SafeAt, OnlyNewer, Effect, Proper, GroupedAt, PathsAt, BalancedAt, Kept, TookPlace;
    codes, history := [], [Snap(db)];
    SnapMeans(db, ledger);
    KeptAtFirst(Snap(db), events, ledger);
    while |codes| < |events|
      invariant |codes| <= |events| && Sound(db) && old(db.repr) <= db.repr && fresh(db.repr - old(db.repr))
      invariant |codes| > 0 && codes[|codes| - 1] == Undefined ==> |codes| == |events|
      invariant |history| == |codes| + 1 && history[0] == old(Snap(db)) && history[|codes|] == Snap(db)
      invariant forall i :: 0 <= i < |codes| ==> TookPlace(history, events, codes, i)
      invariant forall i :: 0 <= i <= |codes| ==> Kept(history, events, ledger, i)
    {
      var e := events[|codes|];
      SnapMeans(db, ledger);
      var code := Step(db, e, ledger);
      SnapMeans(db, ledger);
      KeptNext(history, events, ledger, |codes|, Snap(db));
      OneMoreEvent(history, events, codes, Snap(db), code);
      history := history + [Snap(db)];
      codes := codes + [code];
      if code == Undefined {
        break;
      }
    }
    SnapMeans(db, ledger);
    KeptInTheEnd(history, events, ledger, |codes|);
  }

  lemma KeptInTheEnd(history: seq<Snapshot>, events: seq<Event>, ledger: seq<seq<int>>, n: nat)
    requires |history| == n + 1 && n <= |events| && Kept(history, events, ledger, n)
    ensures NewerSince(history, 0, n)
    ensures GroupedAt(history[0]) && (forall j :: 0 <= j < n ==> IntoRoot(history[j], events[j])) ==>
              GroupedAt(history[n])
    ensures PathsAt(history[0]) && (forall j :: 0 <= j < n ==> SafeAt(history[j], events[j])) ==>
              PathsAt(history[n])
    ensures BalancedAt(history[0], ledger) && (forall e :: e in events ==> Gentle(e)) ==> BalancedAt(history[n], ledger)
  {
    hide Proper, GroupedAt, PathsAt, BalancedAt, IntoRoot, SafeAt, Gentle, NewerSince;
    assert forall j :: 0 <= j < n ==> events[j] in events;
  }

  // ---------- What a send meets in a run ----------

  /** The send went out from position `k` of category `c`, and an entry directly under the root sent exactly its
      subtree. */
  ghost predicate SentWhole(a: Snapshot, b: Snapshot, e: Event, c: nat, k: nat, log: seq<Sent>)
    requires Fits(a) && Fits(b) && e.Send?
  {
    && WentOut(a, b, e, OK, c, k, log)
    && (TopLevel(a.lists[c], k) ==>
          a.lists[c][k].ohfi == e.ohfi &&
          forall x {:trigger WasSent(log, x)} :: x in Subtree(a.lists[c], e.ohfi) <==> WasSent(log, x))
  }

  /** Behind events that put entries under category roots only, every send that ends well sends exactly the subtree
      of a top-level entry. */
  lemma SendsAreWhole(history: seq<Snapshot>, events: seq<Event>, codes: seq<Code>, ledger: seq<seq<int>>, i: nat)
    requires i < |codes| && i < |events| && i + 1 < |history| && Kept(history, events, ledger, i)
    requires TookPlace(history, events, codes, i) && events[i].Send? && codes[i] == OK
    requires GroupedAt(history[0]) && forall j :: 0 <= j < i ==> IntoRoot(history[j], events[j])
    ensures var a, b, e := history[i], history[i + 1], events[i];
            exists c, k, log :: SentWhole(a, b, e, c, k, log)
  {
    hide WentOut, Grouped, WellFormed, Known, IntoRoot, SafeAt, Gentle, NewerSince, BalancedAt, PathsAt;
    var a, b, e := history[i], history[i + 1], events[i];
    assert Effect(a, b, e, OK);
    var c, k, log :| WentOut(a, b, e, OK, c, k, log);
    SentFromTop(a, b, e, c, k, log);
    assert SentWhole(a, b, e, c, k, log);
  }

  lemma SentFromTop(a: Snapshot, b: Snapshot, e: Event, c: nat, k: nat, log: seq<Sent>)
    requires Proper(a) && Fits(b) && e.Send? && GroupedAt(a) && WentOut(a, b, e, OK, c, k, log)
    ensures SentWhole(a, b, e, c, k, log)
  {
    hide Grouped, Subtree, SentRight, AllSendable, WasSent, Stop;
    var s := a.lists[c];
    if TopLevel(s, k) {
      assert s[k] in s && s[k] != s[0];
      WalkExact(s, s[0], a.count, k);
      SentIsSubtree(s, k, log, e.parentHandle, e.replies);
    }
  }

  // ---------- From the first scan ----------

  /** What the folders of a freshly scanned database hold by themselves. */
  function FirstLedger(dirs: seq<Directory>): (ledger: seq<seq<int>>)
    ensures |ledger| == |dirs|
    ensures forall c :: 0 <= c < |dirs| ==> ledger[c] == [0] + OwnsUpTo(TreesOf(dirs[c]), |TreesOf(dirs[c])|)
  {
    seq(|dirs|, c requires 0 <= c < |dirs| => [0] + OwnsUpTo(TreesOf(dirs[c]), |TreesOf(dirs[c])|))
  }

  lemma StartsBalanced(db: Database, dirs: seq<Directory>)
    requires db.Valid() && |db.lists| == |dirs|
    requires forall i {:trigger db.lists[i]} :: 0 <= i < |dirs| ==>
               CategoryScanned(db.lists[i], dirs[i], FirstId(dirs, i))
    ensures AllBalanced(db, FirstLedger(dirs))
  {
    hide CategoryScanned, Balanced, TreesOf, OwnsUpTo, Shape, Ordered, Rooted, Linked;
    forall c | 0 <= c < |dirs|
      ensures Balanced(db.lists[c], FirstLedger(dirs)[c])
    {
      ListFacts(db, c);
      FirstIdHigh(dirs, c);
      ListBalanced(db.lists[c], dirs[c], FirstId(dirs, c));
    }
  }

  lemma ListBalanced(s: seq<CmaObject>, dir: Directory, id: nat)
    requires Ordered(s) && s != [] && CategoryScanned(s, dir, id) && s[0].ohfiParent == 0 && 0 < s[0].ohfi < id
    ensures Balanced(s, [0] + OwnsUpTo(TreesOf(dir), |TreesOf(dir)|))
  {
    hide CategoryScanned, Own, TreesOf, OwnsUpTo, Views, Ordered;
    ScannedBalanced(s, dir, id, 0);
    forall i | 0 <= i < |s|
      ensures |s| == 1 + |OwnsUpTo(TreesOf(dir), |TreesOf(dir)|)|
      ensures Own(Views(s), i) == ([0] + OwnsUpTo(TreesOf(dir), |TreesOf(dir)|))[i]
    {
      ScannedBalanced(s, dir, id, i);
    }
  }

  /** The first snapshot holds, for every category, the root and behind it the preorder of what lies in its
      directory, numbered behind the filters and the categories before. */
  ghost predicate StartsScanned(a: Snapshot, paths: seq<string>, dirs: seq<Directory>)
    requires |paths| == |dirs| == |CATEGORIES|
  {
    && Fits(a) && |a.lists| == |dirs| && a.count == FirstId(dirs, |dirs|)
    && forall i {:trigger a.views[i]} :: 0 <= i < |dirs| ==>
         ScannedAt(a.views[i], i, paths[i], dirs[i], FirstId(dirs, i))
  }

  ghost predicate ScannedAt(v: seq<Entry>, i: nat, path: string, dir: Directory, id: nat)
    requires i < |CATEGORIES|
  {
    var ts := TreesOf(dir);
    && v != [] && v[0].ohfi == CATEGORIES[i].ohfi && v[0].ohfiParent == 0 && v[0].kinds == {CATEGORIES[i].kind}
    && v[0].relPath == None && v[0].path == path && v[0].size == TotalUpTo(ts, |ts|)
    && v[1..] == PreorderUpTo(ts, |ts|, PlaceOf(v[0]), id)
  }

  lemma ScanSeen(db: Database, paths: seq<string>, dirs: seq<Directory>)
    requires db.Valid() && Standard(db.roots) && |paths| == |dirs| == |CATEGORIES| == |db.lists|
    requires db.ohfiCount == FirstId(dirs, |dirs|)
    requires forall i {:trigger db.lists[i]} :: 0 <= i < |dirs| ==>
               CategoryScanned(db.lists[i], dirs[i], FirstId(dirs, i))
    requires forall i {:trigger db.lists[i]} :: 0 <= i < |dirs| ==> db.lists[i] != [] && db.lists[i][0].path == paths[i]
    ensures StartsScanned(Snap(db), paths, dirs)
  {
    hide CategoryScanned, ScannedAt, FirstId, TreesOf, Shape, Views, Standard;
    forall i | 0 <= i < |dirs|
      ensures ScannedAt(Snap(db).views[i], i, paths[i], dirs[i], FirstId(dirs, i))
    {
      ListFacts(db, i);
      OneScanSeen(db.lists[i], db.roots, i, paths[i], dirs[i], FirstId(dirs, i));
    }
  }

  lemma OneScanSeen(s: seq<CmaObject>, roots: seq<CmaObject>, i: nat, path: string, dir: Directory, id: nat)
    requires Standard(roots) && i < |CATEGORIES| && CategoryScanned(s, dir, id)
    requires s != [] && s[0] == roots[i] && s[0].ohfiParent == 0 && s[0].path == path
    ensures ScannedAt(Views(s), i, path, dir, id)
  {
    hide PreorderUpTo, TotalUpTo, TreesOf;
    assert s == [s[0]] + s[1..];
    ViewsConcat([s[0]], s[1..]);
    ViewsOne(s[0]);
    assert Views(s)[1..] == Views(s[1..]) && Views(s)[0] == View(s[0]);
  }

  /** From the first scan to the last event. */
  method Serve(paths: seq<string>, dirs: seq<Directory>, events: seq<Event>)
    returns (db: Database, codes: seq<Code>, ghost history: seq<Snapshot>)
    requires |paths| == |dirs| == |CATEGORIES| && forall e :: e in events ==> WellTyped(e)
    ensures Sound(db) && |codes| <= |events| && |history| == |codes| + 1 && history[|codes|] == Snap(db)
    ensures |codes| < |events| ==> codes != [] && codes[|codes| - 1] == Undefined
    ensures StartsScanned(history[0], paths, dirs)
    ensures GroupedAt(history[0]) && PathsAt(history[0]) && BalancedAt(history[0], FirstLedger(dirs))
    ensures forall i :: 0 <= i < |codes| ==> TookPlace(history, events, codes, i)
    ensures forall i :: 0 <= i <= |codes| ==> Kept(history, events, FirstLedger(dirs), i)
    ensures (forall i :: 0 <= i < |codes| ==> IntoRoot(history[i], events[i])) ==> AllGrouped(db)
    ensures (forall i :: 0 <= i < |codes| ==> SafeAt(history[i], events[i])) ==> PathsRight(db)
    ensures (forall e :: e in events ==> Gentle(e)) ==> AllBalanced(db, FirstLedger(dirs))
  {
    hide AllGrouped, PathsRight, AllBalanced, IntoRoot, Gentle, WellTyped, Standard, CategoryScanned, SafeAt,
         TookPlace, Kept, StartsScanned, GroupedAt, PathsAt, BalancedAt, Proper, OnlyNewer, Named, Shape;
    db := CreateDatabase(paths, dirs);
    StartsBalanced(db, dirs);
    ScanSeen(db, paths, dirs);
    SnapMeans(db, FirstLedger(dirs));
    codes, history := Run(db, events, FirstLedger(dirs));
  }
}
