/** Sending an entry to the device: the loop of vitaEventSendObject (src/opencma.c:270-345). */
module Sending {
  import opened Forest
  import opened Database
  import opened Entries
  import opened Rename

  // ---------- Contiguity of top-level subtrees ----------

  /** `s[i]` hangs directly from the category root. */
  ghost predicate TopLevel(s: seq<CmaObject>, i: nat)
    requires i < |s|
  {
    0 < i && s[i].ohfiParent == s[0].ohfi
  }

  /** No top-level entry comes between an object and its parent. */
  ghost predicate Grouped(s: seq<CmaObject>) {
    forall i, j {:trigger TopLevel(s, i), TopLevel(s, j)} ::
      0 < i < j < |s| && TopLevel(s, i) && !TopLevel(s, j) ==> s[i].ohfi <= s[j].ohfiParent
  }

  /** Where the send loop stops: the first object behind `k` whose parent id is below OHFI_OFFSET. */
  ghost function Stop(s: seq<CmaObject>, k: nat): (m: nat)
    requires k < |s|
    ensures k < m <= |s|
    ensures forall i :: k < i < m ==> OHFI_OFFSET <= s[i].ohfiParent
    ensures m < |s| ==> s[m].ohfiParent < OHFI_OFFSET
    decreases |s| - k
  {
    if k + 1 == |s| || s[k + 1].ohfiParent < OHFI_OFFSET then k + 1 else Stop(s, k + 1)
  }

  /** The walk that starts at the top-level entry `s[k]` meets exactly its subtree. */
  ghost predicate WalkIsSubtree(s: seq<CmaObject>, k: nat)
    requires k < |s|
  {
    forall i :: 0 <= i < |s| ==> (k <= i < Stop(s, k) <==> s[i].ohfi in Subtree(s, s[k].ohfi))
  }

  /** Behind the root, a parent id below OHFI_OFFSET is the root's. */
  lemma TopLevelMeans(s: seq<CmaObject>, root: CmaObject, count: nat, i: nat)
    requires WellFormed(s, root, count) && 0 < i < |s|
    ensures TopLevel(s, i) <==> s[i].ohfiParent < OHFI_OFFSET
    ensures HasId(s, s[i].ohfiParent)
  {
    assert s[i] in s && s[i] != s[0] && HasId(s, s[i].ohfiParent);
    var p := ParentIndex(s, i);
    assert s[p] in s;
  }

  /** No object that the walk from `s[k]` meets has its parent before `s[k]`. */
  ghost predicate WalkStaysBelow(s: seq<CmaObject>, k: nat)
    requires k < |s|
  {
    forall i :: k < i < Stop(s, k) ==> s[k].ohfi <= s[i].ohfiParent
  }

  lemma {:induction false} BlockBelow(s: seq<CmaObject>, root: CmaObject, count: nat, k: nat, i: nat)
    requires WellFormed(s, root, count) && 0 < k < |s| && WalkStaysBelow(s, k) && k <= i < Stop(s, k)
    ensures s[i].ohfi in Subtree(s, s[k].ohfi)
    decreases i
  {
    SubtreeIsSubtree(s, s[k].ohfi);
    assert s[i] in s;
    if k < i {
      TopLevelMeans(s, root, count, i);
      var p := ParentIndex(s, i);
      BlockBelow(s, root, count, k, p);
    }
  }

  lemma {:induction false} BehindNotBelow(s: seq<CmaObject>, root: CmaObject, count: nat, k: nat, i: nat)
    requires WellFormed(s, root, count) && Grouped(s) && 0 < k < |s| && Stop(s, k) <= i < |s|
    ensures s[i].ohfi !in Subtree(s, s[k].ohfi)
    decreases i
  {
    var m := Stop(s, k);
    SubtreeIsSubtree(s, s[k].ohfi);
    assert s[i] in s;
    TopLevelMeans(s, root, count, m);
    TopLevelMeans(s, root, count, i);
    if !TopLevel(s, i) {
      var p := ParentIndex(s, i);
      BehindNotBelow(s, root, count, k, p);
    }
  }

  ghost function LastTop(s: seq<CmaObject>, i: nat, j: nat): (t: nat)
    requires i <= j < |s| && TopLevel(s, i)
    ensures i <= t <= j && TopLevel(s, t) && forall m :: t < m <= j ==> !TopLevel(s, m)
    decreases j
  {
    if TopLevel(s, j) then j else LastTop(s, i, j - 1)
  }

  lemma {:induction false} StopBehind(s: seq<CmaObject>, root: CmaObject, count: nat, t: nat, j: nat)
    requires WellFormed(s, root, count) && 0 < t <= j < |s|
    requires forall m :: t < m <= j ==> !TopLevel(s, m)
    ensures j < Stop(s, t)
  {
    if Stop(s, t) <= j {
      TopLevelMeans(s, root, count, Stop(s, t));
      assert false;
    }
  }

  /** Contiguity is exactly what the send loop relies on: every walk from a top-level entry meets
      the subtree of the entry and nothing else if and only if the list is grouped. */
  lemma SendExactIffGrouped(s: seq<CmaObject>, root: CmaObject, count: nat)
    requires WellFormed(s, root, count)
    ensures Grouped(s) <==> forall k :: 0 <= k < |s| && TopLevel(s, k) ==> WalkIsSubtree(s, k)
  {
    if Grouped(s) {
      forall k | 0 <= k < |s| && TopLevel(s, k)
        ensures WalkIsSubtree(s, k)
      {
        WalkExact(s, root, count, k);
      }
    }
    if forall k :: 0 <= k < |s| && TopLevel(s, k) ==> WalkIsSubtree(s, k) {
      forall i, j | 0 < i < j < |s| && TopLevel(s, i) && !TopLevel(s, j)
        ensures s[i].ohfi <= s[j].ohfiParent
      {
        var t := LastTop(s, i, j);
        StopBehind(s, root, count, t, j);
        assert WalkIsSubtree(s, t);
        SubtreeIsSubtree(s, s[t].ohfi);
        assert s[j] in s;
      }
    }
  }

  lemma WalkExact(s: seq<CmaObject>, root: CmaObject, count: nat, k: nat)
    requires WellFormed(s, root, count) && Grouped(s) && k < |s| && TopLevel(s, k)
    ensures WalkIsSubtree(s, k)
  {
    forall i | k < i < Stop(s, k)
      ensures s[k].ohfi <= s[i].ohfiParent
    {
      TopLevelMeans(s, root, count, i);
    }
    WalkExactIff(s, root, count, k);
  }

  /** For any entry of a grouped list, top-level or not: the walk runs on to the end of the entry's group, and
      meets exactly the subtree if and only if no object in between has its parent before the entry. */
  lemma WalkExactIff(s: seq<CmaObject>, root: CmaObject, count: nat, k: nat)
    requires WellFormed(s, root, count) && Grouped(s) && 0 < k < |s|
    ensures WalkIsSubtree(s, k) <==> WalkStaysBelow(s, k)
  {
    hide Grouped;
    SubtreeIsSubtree(s, s[k].ohfi);
    if WalkIsSubtree(s, k) {
      forall i | k < i < Stop(s, k)
        ensures s[k].ohfi <= s[i].ohfiParent
      {
        assert s[i] in s;
      }
    }
    if WalkStaysBelow(s, k) {
      forall i | 0 <= i < |s|
        ensures k <= i < Stop(s, k) <==> s[i].ohfi in Subtree(s, s[k].ohfi)
      {
        if k <= i < Stop(s, k) {
          BlockBelow(s, root, count, k, i);
        } else if Stop(s, k) <= i {
          BehindNotBelow(s, root, count, k, i);
        }
      }
    }
  }

  /** Below a top-level folder the walk can miss its mark: a file, and another behind it in the same folder. */
  lemma InnerWalkOverruns(root: CmaObject, a: CmaObject, f: CmaObject, g: CmaObject)
    requires root.ohfi == 2 && root.ohfiParent == 0 && a.ohfi == 1000 && a.ohfiParent == 2
    requires f.ohfi == 1001 && f.ohfiParent == 1000 && g.ohfi == 1002 && g.ohfiParent == 1000
    ensures var s := [root, a, f, g];
            Grouped(s) && Stop(s, 2) == 4 && !WalkStaysBelow(s, 2) && g.ohfi !in Subtree(s, 1001)
  {
    var s := [root, a, f, g];
    assert s[3] == g && s[2] == f && s[1] == a && s[0] == root;
    assert Stop(s, 3) == 4;
    assert s[3].ohfiParent == 1000;
    assert Ordered(s);
    SubtreeIsSubtree(s, 1001);
    assert g in s;
  }

  // ---------- What keeps the lists grouped ----------

  /** Removing objects behind the root never breaks a group. */
  lemma KeepGrouped(s: seq<CmaObject>, d: set<nat>)
    requires Ordered(s) && s != [] && Grouped(s) && s[0].ohfi !in d
    ensures Grouped(Keep(s, d))
  {
    var r := Keep(s, d);
    KeepMembers(s, d);
    KeepFirst(s, d);
    KeepOrdered(s, d);
    forall i, j | 0 < i < j < |r| && TopLevel(r, i) && !TopLevel(r, j)
      ensures r[i].ohfi <= r[j].ohfiParent
    {
      assert r[i] in s && r[j] in s && r[0] == s[0];
      var m :| 0 <= m < |s| && s[m] == r[i];
      var n :| 0 <= n < |s| && s[n] == r[j];
      assert TopLevel(s, m) && !TopLevel(s, n);
    }
  }

  /** All top-level entries come no later than `parent`, or `parent` is the root. */
  ghost predicate LastBlock(s: seq<CmaObject>, parent: CmaObject)
    requires s != []
  {
    parent == s[0] || forall i :: 0 < i < |s| && TopLevel(s, i) ==> s[i].ohfi <= parent.ohfi
  }

  /** New objects put behind a list, the first under `parent`, every other one under a new object:
      the list stays grouped exactly when `parent` is the root or belongs to the last group. */
  lemma AppendGroupedIff(s: seq<CmaObject>, parent: CmaObject, added: seq<CmaObject>)
    requires Ordered(s + added) && s != [] && parent in s && Grouped(s) && added != []
    requires added[0].ohfiParent == parent.ohfi
    requires forall j :: 0 < j < |added| ==> added[0].ohfi <= added[j].ohfiParent
    ensures Grouped(s + added) <==> LastBlock(s, parent)
  {
    var r := s + added;
    assert forall i :: 0 <= i < |s| ==> r[i] == s[i];
    assert forall j :: 0 <= j < |added| ==> r[|s| + j] == added[j];
    assert forall i :: 0 <= i < |s| ==> (TopLevel(r, i) <==> TopLevel(s, i));
    var q :| 0 <= q < |s| && s[q] == parent;
    assert r[q] == parent;
    var n := |s|;
    assert r[n] == added[0];
    if LastBlock(s, parent) {
      forall i, j | 0 < i < j < |r| && TopLevel(r, i) && !TopLevel(r, j)
        ensures r[i].ohfi <= r[j].ohfiParent
      {
        if j >= n {
          AppendedPair(s, parent, added, i, j - n);
        } else {
          assert TopLevel(s, i) && !TopLevel(s, j);
        }
      }
    } else {
      var i :| 0 < i < |s| && TopLevel(s, i) && s[i].ohfi > parent.ohfi;
      assert TopLevel(r, i) && !TopLevel(r, n);
    }
  }

  lemma AppendedPair(s: seq<CmaObject>, parent: CmaObject, added: seq<CmaObject>, i: nat, j: nat)
    requires Ordered(s + added) && s != [] && parent in s && LastBlock(s, parent)
    requires added != [] && added[0].ohfiParent == parent.ohfi
    requires forall j :: 0 < j < |added| ==> added[0].ohfi <= added[j].ohfiParent
    requires 0 < i < |s| + j && j < |added|
    requires TopLevel(s + added, i) && !TopLevel(s + added, |s| + j)
    ensures (s + added)[i].ohfi <= added[j].ohfiParent
  {
    var r := s + added;
    assert r[|s| + j] == added[j] && r[0] == s[0] && r[|s|] == added[0] && r[0].ohfi < r[|s|].ohfi;
    forall b | |s| < b < |r|
      ensures r[b].ohfiParent != r[0].ohfi
    {
      assert r[b] == added[b - |s|];
    }
    if i < |s| {
      assert TopLevel(s, i);
      if j > 0 {
        assert r[i].ohfi < r[|s|].ohfi;
      }
    }
  }

  /** Creating an entry outside the last group really happens and really breaks contiguity: with
      two folders in a category, a file created in the first one. */
  lemma CreateInEarlierFolderBreaks(root: CmaObject, a: CmaObject, b: CmaObject, f: CmaObject)
    requires root.ohfi == 2 && root.ohfiParent == 0
    requires a.ohfi == 1000 && a.ohfiParent == 2 && b.ohfi == 1001 && b.ohfiParent == 2
    requires f.ohfi == 1002 && f.ohfiParent == 1000
    ensures Grouped([root, a, b]) && !Grouped([root, a, b, f])
    ensures f.ohfi in Subtree([root, a, b, f], 1000) && Stop([root, a, b, f], 1) == 2
  {
    var s := [root, a, b];
    var r := s + [f];
    assert r == [root, a, b, f];
    assert TopLevel(s, 2) && s[2].ohfi > a.ohfi;
    AppendGroupedIff(s, a, [f]);
    assert r[2].ohfiParent < OHFI_OFFSET;
    SubtreeIsSubtree(r, 1000);
    assert r[3] in r;
  }

  // ---------- The send loop ----------

  /** What the device answers to one object: whether it accepts it, the parent handle it reports
      back, and the handle it gives the object. */
  datatype Reply = Reply(ok: bool, parentHandle: nat, handle: nat)

  /** One object delivered to the device. */
  datatype Sent = Sent(ohfi: nat, parentHandle: nat, handle: nat)

  /** The first `n` objects from `k` on went out in list order, each under the handle the device gave
      to its parent; an object whose parent is not among them goes where the device put the one before. */
  ghost predicate SentRight(s: seq<CmaObject>, k: nat, log: seq<Sent>, parentHandle: nat, replies: seq<Reply>)
    requires Ordered(s)
  {
    && k + |log| <= |s| && |log| <= |replies|
    && forall j {:trigger log[j]} :: 0 <= j < |log| ==>
         && log[j].ohfi == s[k + j].ohfi && log[j].handle == replies[j].handle && replies[j].ok
         && log[j].parentHandle == HandleFor(s, k, j, log, parentHandle, replies)
  }

  ghost function HandleFor(s: seq<CmaObject>, k: nat, j: nat, log: seq<Sent>, parentHandle: nat,
                           replies: seq<Reply>): nat
    requires Ordered(s) && k + j < |s| && j <= |log| && j <= |replies|
  {
    if HasId(s, s[k + j].ohfiParent) && k <= ParentIndex(s, k + j) then log[ParentIndex(s, k + j) - k].handle
    else if j == 0 then parentHandle
    else replies[j - 1].parentHandle
  }

  ghost predicate WasSent(log: seq<Sent>, x: nat) {
    exists j :: 0 <= j < |log| && log[j].ohfi == x
  }

  /** Why the device does not get object `o` as the `n`th: there is no answer, a refusal, or nothing to send. */
  predicate Refused(o: CmaObject, n: nat, replies: seq<Reply>) {
    n >= |replies| || !replies[n].ok || !(Folder in o.kinds || File in o.kinds)
  }

  /** What lies from position `k` on, `n` objects, can be read and is all files and folders. */
  ghost predicate AllSendable(s: seq<CmaObject>, k: nat, n: nat, unreadable: set<nat>)
    requires k + n <= |s|
  {
    forall i :: k <= i < k + n ==>
      (Folder in s[i].kinds || File in s[i].kinds) && !(File in s[i].kinds && s[i].ohfi in unreadable)
  }

  /** What has gone out so far went out right, and could be sent. */
  ghost predicate WentRight(s: seq<CmaObject>, k: nat, log: seq<Sent>, parentHandle: nat, replies: seq<Reply>,
                            unreadable: set<nat>)
    requires Ordered(s)
  {
    SentRight(s, k, log, parentHandle, replies) && AllSendable(s, k, |log|, unreadable)
  }

  lemma WentMeans(s: seq<CmaObject>, k: nat, log: seq<Sent>, parentHandle: nat, replies: seq<Reply>,
                  unreadable: set<nat>)
    requires Ordered(s) && WentRight(s, k, log, parentHandle, replies, unreadable)
    ensures k + |log| <= |s| && |log| <= |replies|
    ensures SentRight(s, k, log, parentHandle, replies) && AllSendable(s, k, |log|, unreadable)
  {
  }

  /** How the loop may end early: at the object behind those sent. */
  predicate StopsAt(code: Code, o: CmaObject, n: nat, unreadable: set<nat>, replies: seq<Reply>) {
    || (code == NotExistObject && File in o.kinds && o.ohfi in unreadable)
    || (code == SendFailed && !(File in o.kinds && o.ohfi in unreadable) && Refused(o, n, replies))
  }

  /** The handles that the objects of the walk have been given, and no other object. */
  ghost predicate HandlesSet(s: seq<CmaObject>, k: nat, log: seq<Sent>)
    requires k + |log| <= |s|
    reads s`handle
  {
    forall j {:trigger log[j]} :: 0 <= j < |log| ==> s[k + j].handle == log[j].handle
  }

  /** The inner loop (src/opencma.c:313-320): the handle of the parent, if it is between `start` and
      the object. */
  method ParentHandle(start: CmaObject, object_: CmaObject, before: nat, ghost s: seq<CmaObject>, ghost k: nat,
                      ghost n: nat)
    returns (parentHandle: nat)
    requires Linked(s) && Ordered(s) && k <= n < |s| && start == s[k] && object_ == s[n]
    ensures parentHandle == if HasId(s, s[n].ohfiParent) && k <= ParentIndex(s, n) then s[ParentIndex(s, n)].handle
                            else before
  {
    parentHandle := before;
    var temp: CmaObject? := start;
    ghost var i := k;
    while temp != null && temp != object_
      invariant k <= i <= n && temp == s[i]
      invariant forall m :: k <= m < i ==> s[m].ohfi != s[n].ohfiParent
      decreases n - i
    {
      assert s[i].next == s[i + 1];
      if temp.ohfi == object_.ohfiParent {
        parentHandle := temp.handle;
        FoundParent(s, n, i);
        return;
      }
      temp := temp.next;
      i := i + 1;
    }
    assert i == n;
  }

  lemma FoundParent(s: seq<CmaObject>, n: nat, i: nat)
    requires Ordered(s) && i < n < |s| && s[i].ohfi == s[n].ohfiParent
    ensures HasId(s, s[n].ohfiParent) && ParentIndex(s, n) == i
  {
    assert s[i] in s;
  }

  /** Setting the handle of the object that has just been sent. */
  method SetHandle(db: Database, current: CmaObject, sent: Sent, ghost s: seq<CmaObject>, ghost k: nat,
                   ghost log: seq<Sent>)
    requires db.Valid() && Ordered(s) && Linked(s) && k + |log| < |s| && current == s[k + |log|]
    requires HandlesSet(s, k, log)
    modifies current`handle
    ensures db.Valid() && current.handle == sent.handle && HandlesSet(s, k, log + [sent])
    ensures forall i {:trigger s[i]} :: 0 <= i < |s| && i != k + |log| ==> s[i].handle == old(s[i].handle)
    ensures current.next == if k + |log| + 1 < |s| then s[k + |log| + 1] else null
  {
    current.handle := sent.handle;
  }

  /** vitaEventSendObject.  `unreadable` are the files that cannot be read, `replies` what the device
      answers, in order; when there is none left the device is gone.  `s` and `k` tell where the object is. */
  method SendObject(db: Database, ohfi: nat, parentHandle: nat, unreadable: set<nat>, replies: seq<Reply>)
    returns (code: Code, log: seq<Sent>, ghost c: nat, ghost k: nat)
    requires db.Valid()
    modifies db.repr`handle
    ensures db.Valid()
    ensures code in {OK, InvalidOhfi, NotExistObject, SendFailed}
    ensures code == InvalidOhfi <==> ohfi !in db.home && ohfi !in db.filters
    ensures code == InvalidOhfi ==> log == []
    ensures code == InvalidOhfi ==> forall o {:trigger o.handle} :: o in db.repr ==> o.handle == old(o.handle)
    ensures code != InvalidOhfi ==> c < |db.lists| && k < |db.lists[c]| && Finds(db, ohfi, db.lists[c][k])
    ensures code != InvalidOhfi ==>
              var s := db.lists[c];
              && Ordered(s) && SentRight(s, k, log, parentHandle, replies)
              && |log| <= Stop(s, k) - k && (code == OK ==> |log| == Stop(s, k) - k)
              && HandlesSet(s, k, log) && AllSendable(s, k, |log|, unreadable)
              && (forall i, m {:trigger db.lists[i][m]} ::
                    0 <= i < |db.lists| && 0 <= m < |db.lists[i]| && !(i == c && k <= m < k + |log|) ==>
                      db.lists[i][m].handle == old(db.lists[i][m].handle))
    ensures code == NotExistObject || code == SendFailed ==>
              |log| < Stop(db.lists[c], k) - k && StopsAt(code, db.lists[c][k + |log|], |log|, unreadable, replies)
    ensures code == OK && Grouped(db.lists[c]) && TopLevel(db.lists[c], k) ==>
              forall x {:trigger WasSent(log, x)} :: x in Subtree(db.lists[c], ohfi) <==> WasSent(log, x)
  {
    hide Shape, Within, AllLinked, HasId, Subtree, Grouped, TopLevel, HasFilter, Stop, SentRight,
         WalkIsSubtree, Ordered, WasSent, HandlesSet;
    c, k := 0, 0;
    var start := OhfiToObject(db, ohfi);
    FoundMeans(db, ohfi, start);
    if start == null {
      return InvalidOhfi, [], c, k;
    }
    c, k := WhereFound(db, ohfi, start);
    ListsDisjoint(db, c);
    CategoryOrder(db, c);
    code, log := SendFrom(db, start, parentHandle, unreadable, replies, c, k);
    if code == OK {
      WholeSubtree(db, c, k, ohfi, log, parentHandle, replies);
    }
  }

  /** One round of the do-while loop: `n` objects have been sent. */
  method SendOne(db: Database, start: CmaObject, current: CmaObject, handleOfParent: nat, unreadable: set<nat>,
                 replies: seq<Reply>, n: nat, ghost s: seq<CmaObject>, ghost k: nat, ghost log: seq<Sent>,
                 ghost parentHandle: nat)
    returns (code: Code, sent: Sent)
    requires db.Valid() && Ordered(s) && Linked(s) && n == |log| && k + n < |s| && start == s[k] && current == s[k + n]
    requires WentRight(s, k, log, parentHandle, replies, unreadable) && HandlesSet(s, k, log)
    requires n <= |replies| && handleOfParent == if n == 0 then parentHandle else replies[n - 1].parentHandle
    modifies current`handle
    ensures db.Valid() && code in {OK, NotExistObject, SendFailed}
    ensures code == OK ==>
              && n < |replies| && WentRight(s, k, log + [sent], parentHandle, replies, unreadable)
              && HandlesSet(s, k, log + [sent])
              && (forall i {:trigger s[i]} :: 0 <= i < |s| && i != k + n ==> s[i].handle == old(s[i].handle))
              && current.next == if k + n + 1 < |s| then s[k + n + 1] else null
    ensures code == NotExistObject <==> File in current.kinds && current.ohfi in unreadable
    ensures code == OK <==>
              && !(File in current.kinds && current.ohfi in unreadable)
              && (Folder in current.kinds || File in current.kinds) && n < |replies| && replies[n].ok
    ensures code != OK ==> current.handle == old(current.handle) && HandlesSet(s, k, log)
    ensures code != OK ==> StopsAt(code, s[k + n], n, unreadable, replies)
  {
    hide Shape, Within, AllLinked, HasId, SentRight, HandlesSet, WentRight, AllSendable;
    WentMeans(s, k, log, parentHandle, replies, unreadable);
    sent := Sent(0, 0, 0);
    if File in current.kinds && current.ohfi in unreadable {
      return NotExistObject, sent;
    }
    var handle := ParentHandle(start, current, handleOfParent, s, k, k + n);
    if !(Folder in current.kinds || File in current.kinds) || n == |replies| || !replies[n].ok {
      return SendFailed, sent;
    }
    code, sent := OK, Sent(current.ohfi, handle, replies[n].handle);
    OneMoreSent(s, k, log, parentHandle, replies, sent);
    OneMoreSendable(s, k, n, unreadable);
    WentOn(s, k, log + [sent], parentHandle, replies, unreadable);
    SetHandle(db, current, sent, s, k, log);
  }

  lemma WentOn(s: seq<CmaObject>, k: nat, log: seq<Sent>, parentHandle: nat, replies: seq<Reply>, unreadable: set<nat>)
    requires Ordered(s) && SentRight(s, k, log, parentHandle, replies) && k + |log| <= |s|
    requires AllSendable(s, k, |log|, unreadable)
    ensures WentRight(s, k, log, parentHandle, replies, unreadable)
  {
  }

  lemma OneMoreSendable(s: seq<CmaObject>, k: nat, n: nat, unreadable: set<nat>)
    requires k + n < |s| && AllSendable(s, k, n, unreadable)
    requires Folder in s[k + n].kinds || File in s[k + n].kinds
    requires !(File in s[k + n].kinds && s[k + n].ohfi in unreadable)
    ensures AllSendable(s, k, n + 1, unreadable)
  {
  }

  /** The do-while loop, from `start` on. */
  method SendFrom(db: Database, start: CmaObject, parentHandle: nat, unreadable: set<nat>, replies: seq<Reply>,
                  ghost c: nat, ghost k: nat)
    returns (code: Code, log: seq<Sent>)
    requires db.Valid() && c < |db.lists| && k < |db.lists[c]| && start == db.lists[c][k]
    modifies db.lists[c]`handle
    ensures db.Valid() && code in {OK, NotExistObject, SendFailed}
    ensures var s := db.lists[c];
            && Ordered(s) && SentRight(s, k, log, parentHandle, replies) && AllSendable(s, k, |log|, unreadable)
            && |log| <= Stop(s, k) - k && (code == OK ==> |log| == Stop(s, k) - k)
            && HandlesSet(s, k, log)
            && (forall i {:trigger s[i]} :: 0 <= i < |s| && !(k <= i < k + |log|) ==> s[i].handle == old(s[i].handle))
    ensures code != OK ==>
              |log| < Stop(db.lists[c], k) - k && StopsAt(code, db.lists[c][k + |log|], |log|, unreadable, replies)
  {
    hide Shape, Within, AllLinked, Linked, HasId, Subtree, HasFilter, Stop, SentRight, Ordered, HandlesSet,
         AllSendable, WentRight, StopsAt, InWalk, HandlesAre, HandlesOf, Database.Valid;
    ghost var s := db.lists[c];
    CategoryOrder(db, c);
    ghost var before := HandlesOf(s);
    var current: CmaObject? := start;
    var handleOfParent := parentHandle;
    var more := true;
    code, log := OK, [];
    NothingSent(s, k, parentHandle, replies, unreadable, before);
    while more
      invariant code == OK && db.Valid() && InWalk(s, k, |log|, current, more)
      invariant WentRight(s, k, log, parentHandle, replies, unreadable) && HandlesAre(s, k, log, before)
      invariant |log| <= |replies| &&
                handleOfParent == if log == [] then parentHandle else replies[|log| - 1].parentHandle
      decreases Stop(s, k) - k - |log|, more
    {
      InWalkMeans(s, k, |log|, current, more);
      var sent;
      code, sent, current, more :=
        SendNext(db, start, current, handleOfParent, unreadable, replies, s, k, log, parentHandle, before);
      if code != OK {
        break;
      }
      handleOfParent := replies[|log|].parentHandle;
      log := log + [sent];
    }
    InWalkMeans(s, k, |log|, current, more);
    WentMeans(s, k, log, parentHandle, replies, unreadable);
    HandlesMean(s, k, log, before);
  }

  /** One round of the loop, and the step to the next object. */
  method SendNext(db: Database, start: CmaObject, current: CmaObject, handleOfParent: nat, unreadable: set<nat>,
                  replies: seq<Reply>, ghost s: seq<CmaObject>, ghost k: nat, log: seq<Sent>, ghost parentHandle: nat,
                  ghost before: seq<nat>)
    returns (code: Code, sent: Sent, next: CmaObject?, more: bool)
    requires db.Valid() && Ordered(s) && Linked(s) && k < |s| && start == s[k] && InWalk(s, k, |log|, current, true)
    requires WentRight(s, k, log, parentHandle, replies, unreadable) && HandlesAre(s, k, log, before)
    requires |log| <= |replies|
    requires handleOfParent == if log == [] then parentHandle else replies[|log| - 1].parentHandle
    modifies current`handle
    ensures db.Valid() && code in {OK, NotExistObject, SendFailed}
    ensures code == OK ==>
              && |log| < |replies| && WentRight(s, k, log + [sent], parentHandle, replies, unreadable)
              && HandlesAre(s, k, log + [sent], before) && InWalk(s, k, |log| + 1, next, more)
    ensures code != OK ==>
              && next == current && more && HandlesAre(s, k, log, before)
              && StopsAt(code, current, |log|, unreadable, replies)
  {
    hide Shape, Within, AllLinked, Linked, HasId, Subtree, HasFilter, Stop, SentRight, Ordered,
         AllSendable, WentRight, StopsAt, InWalk;
    InWalkMeans(s, k, |log|, current, true);
    next, more := current, true;
    code, sent := SendOne(db, start, current, handleOfParent, unreadable, replies, |log|, s, k, log, parentHandle);
    if code != OK {
      return;
    }
    next := current.next;
    more := next != null && OHFI_OFFSET <= next.ohfiParent;
    WalkOn(s, k, |log| + 1, next);
  }

  ghost function HandlesOf(s: seq<CmaObject>): (h: seq<nat>)
    reads s`handle
    ensures |h| == |s| && forall i :: 0 <= i < |s| ==> h[i] == s[i].handle
  {
    if s == [] then [] else HandlesOf(s[..|s| - 1]) + [s[|s| - 1].handle]
  }

  /** The objects of the walk have the handles in the log, and all others the one they had. */
  ghost predicate HandlesAre(s: seq<CmaObject>, k: nat, log: seq<Sent>, before: seq<nat>)
    reads s`handle
  {
    && k + |log| <= |s| == |before| && HandlesSet(s, k, log)
    && forall i {:trigger s[i]} :: 0 <= i < |s| && !(k <= i < k + |log|) ==> s[i].handle == before[i]
  }

  lemma HandlesMean(s: seq<CmaObject>, k: nat, log: seq<Sent>, before: seq<nat>)
    requires HandlesAre(s, k, log, before)
    ensures k + |log| <= |s| == |before| && HandlesSet(s, k, log)
    ensures forall i {:trigger s[i]} :: 0 <= i < |s| && !(k <= i < k + |log|) ==> s[i].handle == before[i]
  {
  }

  /** The walk from position `k` has come to `current`, behind `n` objects, and goes on or is at its end. */
  ghost predicate InWalk(s: seq<CmaObject>, k: nat, n: nat, current: CmaObject?, more: bool) {
    && k + n <= |s| && current == (if k + n < |s| then s[k + n] else null)
    && k < |s| && if more then k + n < Stop(s, k) else k + n == Stop(s, k)
  }

  lemma InWalkMeans(s: seq<CmaObject>, k: nat, n: nat, current: CmaObject?, more: bool)
    requires InWalk(s, k, n, current, more)
    ensures k < |s| && k + n <= Stop(s, k) <= |s| && current == if k + n < |s| then s[k + n] else null
    ensures if more then k + n < Stop(s, k) else k + n == Stop(s, k)
  {
  }

  lemma NothingSent(s: seq<CmaObject>, k: nat, parentHandle: nat, replies: seq<Reply>, unreadable: set<nat>,
                    before: seq<nat>)
    requires Ordered(s) && k < |s| && before == HandlesOf(s)
    ensures WentRight(s, k, [], parentHandle, replies, unreadable) && HandlesAre(s, k, [], before)
    ensures InWalk(s, k, 0, s[k], true)
  {
  }

  lemma OneMoreSent(s: seq<CmaObject>, k: nat, log: seq<Sent>, parentHandle: nat, replies: seq<Reply>, sent: Sent)
    requires Ordered(s) && SentRight(s, k, log, parentHandle, replies) && HandlesSet(s, k, log)
    requires k + |log| < |s| && |log| < |replies| && replies[|log|].ok
    requires sent.ohfi == s[k + |log|].ohfi && sent.handle == replies[|log|].handle
    requires sent.parentHandle ==
             var n := k + |log|;
             if HasId(s, s[n].ohfiParent) && k <= ParentIndex(s, n) then s[ParentIndex(s, n)].handle
             else if log == [] then parentHandle
             else replies[|log| - 1].parentHandle
    ensures SentRight(s, k, log + [sent], parentHandle, replies)
  {
    var more := log + [sent];
    forall j | 0 <= j < |more|
      ensures more[j].parentHandle == HandleFor(s, k, j, more, parentHandle, replies)
    {
      if j < |log| {
        assert more[j] == log[j];
      } else {
        assert forall i :: 0 <= i < |log| ==> more[i] == log[i];
      }
    }
  }

  /** One step of the walk, or its end. */
  lemma WalkOn(s: seq<CmaObject>, k: nat, n: nat, next: CmaObject?)
    requires 0 < n && k + n - 1 < |s| && k + n - 1 < Stop(s, k)
    requires next == if k + n < |s| then s[k + n] else null
    ensures InWalk(s, k, n, next, next != null && OHFI_OFFSET <= next.ohfiParent)
  {
  }

  /** What a complete walk has sent is the subtree, if that is what the walk meets. */
  lemma SentIsSubtree(s: seq<CmaObject>, k: nat, log: seq<Sent>, parentHandle: nat, replies: seq<Reply>)
    requires Ordered(s) && k < |s| && WalkIsSubtree(s, k)
    requires SentRight(s, k, log, parentHandle, replies) && |log| == Stop(s, k) - k
    ensures forall x {:trigger WasSent(log, x)} :: x in Subtree(s, s[k].ohfi) <==> WasSent(log, x)
  {
    SubtreeIsSubtree(s, s[k].ohfi);
    forall x | x in Subtree(s, s[k].ohfi)
      ensures WasSent(log, x)
    {
      assert s[k] in s;
      assert HasId(s, x);
      var o :| o in s && o.ohfi == x;
      var i :| 0 <= i < |s| && s[i] == o;
      assert log[i - k].ohfi == x;
    }
    forall x | WasSent(log, x)
      ensures x in Subtree(s, s[k].ohfi)
    {
      var j :| 0 <= j < |log| && log[j].ohfi == x;
      assert log[j].ohfi == s[k + j].ohfi;
    }
  }

  /** For a top-level entry of a grouped list, what was sent is the subtree. */
  lemma WholeSubtree(db: Database, c: nat, k: nat, ohfi: nat, log: seq<Sent>, parentHandle: nat, replies: seq<Reply>)
    requires db.Valid() && c < |db.lists| && k < |db.lists[c]| && Finds(db, ohfi, db.lists[c][k])
    requires Ordered(db.lists[c]) && SentRight(db.lists[c], k, log, parentHandle, replies)
    requires |log| == Stop(db.lists[c], k) - k
    ensures Grouped(db.lists[c]) && TopLevel(db.lists[c], k) ==>
              forall x {:trigger WasSent(log, x)} :: x in Subtree(db.lists[c], ohfi) <==> WasSent(log, x)
  {
    hide Grouped, SentRight, Stop, Subtree, WalkIsSubtree, WasSent, Shape, Ordered, WellFormed, Finds;
    var s := db.lists[c];
    if Grouped(s) && TopLevel(s, k) {
      OneListEach(db);
      TopIsItself(db, c, k, ohfi);
      WalkExact(s, db.roots[c], db.ohfiCount, k);
      SentIsSubtree(s, k, log, parentHandle, replies);
    }
  }

  lemma TopIsItself(db: Database, c: nat, k: nat, ohfi: nat)
    requires db.Valid() && c < |db.lists| && k < |db.lists[c]| && Finds(db, ohfi, db.lists[c][k])
    requires TopLevel(db.lists[c], k)
    ensures db.lists[c][k].ohfi == ohfi
    ensures WellFormed(db.lists[c], db.roots[c], db.ohfiCount)
  {
    forall i | 0 <= i < |db.roots|
      ensures db.lists[c][k] != db.roots[i]
    {
      assert db.lists[i][0] == db.roots[i] && db.lists[i][0].ohfiParent == 0 && db.lists[c][0].ohfi > 0;
    }
  }
}
