/** Storage ids in a Canon directory dump: ptp_unpack_canon_directory (src/ptp-pack.c:1800-1911). */
module CanonDirectory {

  /** The fields of a 0x4c byte record that the propagation uses; all are 32 bits wide. */
  datatype DirEntry = DirEntry(storageId: nat, objectId: nat, nextId: nat, nextChild: nat)

  const NONE: nat := 0xffff_ffff

  /** Records with this storage id are objects, the others stand for storages. */
  predicate IsObject(e: DirEntry) {
    e.storageId == NONE
  }

  /** The ids of the objects, in order. */
  function Handles(dir: seq<DirEntry>, n: nat): (hs: seq<nat>)
    requires n <= |dir|
    ensures |hs| <= n
  {
    if n == 0 then []
    else if IsObject(dir[n - 1]) then Handles(dir, n - 1) + [dir[n - 1].objectId]
    else Handles(dir, n - 1)
  }

  /** The first object with that id, or the number of objects. */
  function Find(hs: seq<nat>, id: nat): (j: nat)
    ensures j <= |hs|
    ensures j < |hs| ==> hs[j] == id
    ensures forall m :: 0 <= m < j ==> hs[m] != id
  {
    if hs == [] || hs[0] == id then 0 else 1 + Find(hs[1..], id)
  }

  /** The storage id that object `j` gets from the storages among the first `n` records. */
  function Seed(dir: seq<DirEntry>, hs: seq<nat>, j: nat, n: nat): (id: nat)
    requires n <= |dir|
    ensures id == NONE ||
              exists m :: 0 <= m < n && !IsObject(dir[m]) && dir[m].storageId == id && Find(hs, dir[m].nextChild) == j
    ensures id == NONE ==> forall m :: 0 <= m < n && !IsObject(dir[m]) ==> Find(hs, dir[m].nextChild) != j
    ensures id != NONE ==>
              exists m :: 0 <= m < n && dir[m].storageId == id && Find(hs, dir[m].nextChild) == j &&
                          forall l :: m < l < n && !IsObject(dir[l]) ==> Find(hs, dir[l].nextChild) != j
  {
    if n == 0 then NONE
    else if !IsObject(dir[n - 1]) && Find(hs, dir[n - 1].nextChild) == j then dir[n - 1].storageId
    else Seed(dir, hs, j, n - 1)
  }

  /** The loop passes a storage id on from the object of record `e` to object `k`.  When the next id is
      dangling, the child is not looked at either. */
  predicate Follows(hs: seq<nat>, e: DirEntry, k: nat) {
    && IsObject(e) && k < |hs|
    && (|| (e.nextId != NONE && Find(hs, e.nextId) == k)
        || (e.nextChild != NONE && Find(hs, e.nextChild) == k && (e.nextId == NONE || Find(hs, e.nextId) < |hs|)))
  }

  /** Storage id `id` reaches object `k` from a storage's next child in at most `n` links. */
  ghost predicate Reaches(dir: seq<DirEntry>, id: nat, k: nat, n: nat)
    decreases n
  {
    var hs := Handles(dir, |dir|);
    || (id != NONE && k < |hs| && Seed(dir, hs, k, |dir|) == id)
    || (n > 0 && (exists i {:trigger dir[i]} ::
                    0 <= i < |dir| && Follows(hs, dir[i], k) && Reaches(dir, id, Find(hs, dir[i].objectId), n - 1)))
  }

  ghost predicate ReachedBy(dir: seq<DirEntry>, id: nat, k: nat) {
    exists n: nat :: Reaches(dir, id, k, n)
  }

  ghost predicate Reachable(dir: seq<DirEntry>, k: nat) {
    exists id: nat :: ReachedBy(dir, id, k)
  }

  // ---------- Properties of a state of the storage ids ----------

  /** Every id was passed on from a storage. */
  ghost predicate Justified(dir: seq<DirEntry>, ids: seq<nat>) {
    forall k {:trigger ids[k]} :: 0 <= k < |ids| && ids[k] != NONE ==> ReachedBy(dir, ids[k], k)
  }

  /** What the storages gave stays. */
  ghost predicate Seeded(dir: seq<DirEntry>, hs: seq<nat>, ids: seq<nat>) {
    forall k {:trigger ids[k]} :: 0 <= k < |ids| && Seed(dir, hs, k, |dir|) != NONE ==>
      ids[k] == Seed(dir, hs, k, |dir|)
  }

  /** Record `e` has nothing left to pass on. */
  ghost predicate Settled(hs: seq<nat>, ids: seq<nat>, e: DirEntry)
    requires |ids| == |hs|
  {
    IsObject(e) && Find(hs, e.objectId) < |hs| && ids[Find(hs, e.objectId)] != NONE ==>
      forall k {:trigger ids[k]} :: 0 <= k < |ids| && Follows(hs, e, k) ==> ids[k] != NONE
  }

  ghost predicate Fixpoint(dir: seq<DirEntry>, hs: seq<nat>, ids: seq<nat>)
    requires |ids| == |hs|
  {
    forall i {:trigger dir[i]} :: 0 <= i < |dir| ==> Settled(hs, ids, dir[i])
  }

  function Unset(ids: seq<nat>): (u: nat)
    ensures u <= |ids|
    ensures u == 0 ==> forall k :: 0 <= k < |ids| ==> ids[k] != NONE
  {
    if ids == [] then 0
    else Unset(ids[..|ids| - 1]) + if ids[|ids| - 1] == NONE then 1 else 0
  }

  lemma {:induction false} UnsetUpdate(ids: seq<nat>, k: nat, id: nat)
    requires k < |ids| && ids[k] == NONE && id != NONE
    ensures Unset(ids[k := id]) == Unset(ids) - 1
  {
    var up := ids[k := id];
    if k == |ids| - 1 {
      assert up[..|up| - 1] == ids[..|ids| - 1];
    } else {
      assert up[..|up| - 1] == ids[..|ids| - 1][k := id];
      UnsetUpdate(ids[..|ids| - 1], k, id);
    }
  }

  lemma {:induction false} SomeSet(ids: seq<nat>, k: nat)
    requires k < |ids| && ids[k] != NONE
    ensures Unset(ids) < |ids|
  {
    if k < |ids| - 1 {
      SomeSet(ids[..|ids| - 1], k);
    }
  }

  /** At the fixpoint, whatever can be reached has been reached. */
  lemma {:induction false} ReachedAtFixpoint(dir: seq<DirEntry>, ids: seq<nat>, id: nat, k: nat, n: nat)
    requires var hs := Handles(dir, |dir|);
             |ids| == |hs| && Fixpoint(dir, hs, ids) && Seeded(dir, hs, ids)
    requires k < |ids| && Reaches(dir, id, k, n)
    ensures ids[k] != NONE
    decreases n
  {
    var hs := Handles(dir, |dir|);
    if !(id != NONE && Seed(dir, hs, k, |dir|) == id) {
      var i :| 0 <= i < |dir| && Follows(hs, dir[i], k) && Reaches(dir, id, Find(hs, dir[i].objectId), n - 1);
      var j := Find(hs, dir[i].objectId);
      ObjectFound(dir, i, |dir|);
      ReachedAtFixpoint(dir, ids, id, j, n - 1);
      assert Settled(hs, ids, dir[i]);
    }
  }

  /** The id of every object record is among the handles. */
  lemma {:induction false} ObjectFound(dir: seq<DirEntry>, i: nat, n: nat)
    requires i < n <= |dir| && IsObject(dir[i])
    ensures dir[i].objectId in Handles(dir, n)
    ensures Find(Handles(dir, n), dir[i].objectId) < |Handles(dir, n)|
  {
    if i < n - 1 {
      ObjectFound(dir, i, n - 1);
    }
    assert dir[i].objectId in Handles(dir, n);
    var m :| 0 <= m < |Handles(dir, n)| && Handles(dir, n)[m] == dir[i].objectId;
  }

  // ---------- The code ----------

  /** The search `for (j = 0; j < n; j++) if (id == Handler[j]) break;`. */
  method FindHandle(hs: seq<nat>, id: nat) returns (j: nat)
    ensures j == Find(hs, id)
  {
    j := 0;
    while j < |hs|
      invariant j <= |hs| && forall m :: 0 <= m < j ==> hs[m] != id
    {
      if hs[j] == id {
        break;
      }
      j := j + 1;
    }
  }

  /** The walk over the storage records (src/ptp-pack.c:1846-1856). */
  method SeedStorages(dir: seq<DirEntry>, hs: seq<nat>, ids: array<nat>)
    requires ids.Length == |hs| && forall k :: 0 <= k < ids.Length ==> ids[k] == NONE
    modifies ids
    ensures forall k :: 0 <= k < ids.Length ==> ids[k] == Seed(dir, hs, k, |dir|)
  {
    var i := 0;
    while i < |dir|
      invariant i <= |dir| && forall k :: 0 <= k < ids.Length ==> ids[k] == Seed(dir, hs, k, i)
    {
      var cur := dir[i];
      i := i + 1;
      if IsObject(cur) {
        continue;
      }
      var j := FindHandle(hs, cur.nextChild);
      if j == |hs| {
        continue;
      }
      ids[j] := cur.storageId;
    }
  }

  /** Passing an id on to object `j`, if it has none. */
  lemma PassedOn(dir: seq<DirEntry>, hs: seq<nat>, ids: seq<nat>, i: nat, j: nat)
    requires hs == Handles(dir, |dir|) && |ids| == |hs| && i < |dir| && j < |hs|
    requires Follows(hs, dir[i], j) && Find(hs, dir[i].objectId) < |hs| && ids[Find(hs, dir[i].objectId)] != NONE
    requires Justified(dir, ids) && Seeded(dir, hs, ids) && ids[j] == NONE
    ensures var up := ids[j := ids[Find(hs, dir[i].objectId)]];
            Justified(dir, up) && Seeded(dir, hs, up) && Unset(up) == Unset(ids) - 1
  {
    var id := ids[Find(hs, dir[i].objectId)];
    UnsetUpdate(ids, j, id);
    var n: nat :| Reaches(dir, id, Find(hs, dir[i].objectId), n);
    assert Reaches(dir, id, j, n + 1);
    var up := ids[j := id];
    forall k | 0 <= k < |up| && up[k] != NONE
      ensures ReachedBy(dir, up[k], k)
    {
      if k != j {
        assert ids[k] == up[k];
      }
    }
  }

  /** How a pass has gone so far, from `start`. */
  ghost predicate Passing(dir: seq<DirEntry>, hs: seq<nat>, start: seq<nat>, ids: seq<nat>, i: nat, changed: nat)
    requires |ids| == |hs| && i <= |dir|
  {
    && Justified(dir, ids) && Seeded(dir, hs, ids)
    && |start| == |ids| && Unset(ids) + changed == Unset(start)
    && (changed == 0 ==> ids == start && forall m {:trigger dir[m]} :: 0 <= m < i ==> Settled(hs, ids, dir[m]))
    && (changed > 0 ==> Unset(start) < |start|)
  }

  /** One round of `while (1)`. */
  method Pass(dir: seq<DirEntry>, hs: seq<nat>, ids: array<nat>) returns (changed: nat)
    requires hs == Handles(dir, |dir|) && ids.Length == |hs|
    requires Justified(dir, ids[..]) && Seeded(dir, hs, ids[..])
    modifies ids
    ensures Passing(dir, hs, old(ids[..]), ids[..], |dir|, changed)
  {
    hide Justified, Seeded, Unset, Settled, Follows;
    changed := 0;
    ghost var start := ids[..];
    var i := 0;
    while i < |dir|
      invariant i <= |dir| && Passing(dir, hs, start, ids[..], i, changed)
    {
      changed := PassRecord(dir, hs, ids, i, changed, start);
      i := i + 1;
    }
  }

  /** What a pass does with one record. */
  method PassRecord(dir: seq<DirEntry>, hs: seq<nat>, ids: array<nat>, i: nat, before: nat, ghost start: seq<nat>)
    returns (changed: nat)
    requires hs == Handles(dir, |dir|) && ids.Length == |hs| && i < |dir|
    requires Passing(dir, hs, start, ids[..], i, before)
    modifies ids
    ensures Passing(dir, hs, start, ids[..], i + 1, changed)
  {
    hide Justified, Seeded, Unset, Passing, Settled, Handles;
    changed := before;
    var cur := dir[i];
    if !IsObject(cur) {
      NothingToPass(dir, hs, start, ids[..], i, changed);
      return;
    }
    var j := FindHandle(hs, cur.objectId);
    ObjectFound(dir, i, |dir|);
    if j == |hs| {
      return;
    }
    var storageId := ids[j];
    if storageId == NONE {
      NothingToPass(dir, hs, start, ids[..], i, changed);
      return;
    }
    if cur.nextId != NONE {
      var next := FindHandle(hs, cur.nextId);
      if next == |hs| {
        NoLinks(dir, hs, start, ids[..], i, changed);
        return;
      }
      changed := GiveTo(dir, hs, ids, i, next, changed, start);
    }
    if cur.nextChild != NONE {
      var child := FindHandle(hs, cur.nextChild);
      if child == |hs| {
        RecordDone(dir, hs, start, ids[..], i, changed);
        return;
      }
      changed := GiveTo(dir, hs, ids, i, child, changed, start);
    }
    RecordDone(dir, hs, start, ids[..], i, changed);
  }

  /** The storage id of record `i`'s object goes to object `j`, unless that has one. */
  method GiveTo(dir: seq<DirEntry>, hs: seq<nat>, ids: array<nat>, i: nat, j: nat, before: nat, ghost start: seq<nat>)
    returns (changed: nat)
    requires hs == Handles(dir, |dir|) && ids.Length == |hs| && i < |dir| && j < |hs| && Follows(hs, dir[i], j)
    requires Find(hs, dir[i].objectId) < |hs| && ids[Find(hs, dir[i].objectId)] != NONE
    requires Passing(dir, hs, start, ids[..], i, before)
    modifies ids
    ensures Passing(dir, hs, start, ids[..], i, changed) && ids[j] != NONE
    ensures forall k :: 0 <= k < ids.Length ==> old(ids[k]) != NONE ==> ids[k] == old(ids[k])
  {
    hide Justified, Seeded, Follows, Handles, Settled;
    changed := before;
    if ids[j] == NONE {
      PassedOn(dir, hs, ids[..], i, j);
      SomeSet(ids[..], Find(hs, dir[i].objectId));
      ghost var up := ids[..][j := ids[Find(hs, dir[i].objectId)]];
      var source := FindHandle(hs, dir[i].objectId);
      ids[j] := ids[source];
      assert ids[..] == up;
      changed := changed + 1;
    }
  }

  lemma NothingToPass(dir: seq<DirEntry>, hs: seq<nat>, start: seq<nat>, ids: seq<nat>, i: nat, changed: nat)
    requires |ids| == |hs| && i < |dir| && Passing(dir, hs, start, ids, i, changed)
    requires IsObject(dir[i]) ==> Find(hs, dir[i].objectId) < |hs| && ids[Find(hs, dir[i].objectId)] == NONE
    ensures Passing(dir, hs, start, ids, i + 1, changed)
  {
  }

  lemma NoLinks(dir: seq<DirEntry>, hs: seq<nat>, start: seq<nat>, ids: seq<nat>, i: nat, changed: nat)
    requires |ids| == |hs| && i < |dir| && Passing(dir, hs, start, ids, i, changed)
    requires dir[i].nextId != NONE && Find(hs, dir[i].nextId) == |hs|
    ensures Passing(dir, hs, start, ids, i + 1, changed)
  {
  }

  lemma RecordDone(dir: seq<DirEntry>, hs: seq<nat>, start: seq<nat>, ids: seq<nat>, i: nat, changed: nat)
    requires |ids| == |hs| && i < |dir| && Passing(dir, hs, start, ids, i, changed)
    requires dir[i].nextId != NONE && Find(hs, dir[i].nextId) < |hs| ==> ids[Find(hs, dir[i].nextId)] != NONE
    requires dir[i].nextChild != NONE && Find(hs, dir[i].nextChild) < |hs| ==> ids[Find(hs, dir[i].nextChild)] != NONE
    ensures Passing(dir, hs, start, ids, i + 1, changed)
  {
  }

  /** The early exit is taken at the fixpoint only: nothing has changed, or everything has an id. */
  lemma ExitAtFixpoint(dir: seq<DirEntry>, hs: seq<nat>, start: seq<nat>, ids: seq<nat>, changed: nat)
    requires |ids| == |hs| && Passing(dir, hs, start, ids, |dir|, changed)
    requires changed == 0 || changed == |hs| - 1
    ensures Fixpoint(dir, hs, ids)
  {
    if changed > 0 {
      assert Unset(ids) == 0;
    }
  }

  /** `ps` are the positions of the objects, in order, and `hs` their ids: those of exactly the records with the
      storage id 0xffffffff. */
  ghost predicate Picked(dir: seq<DirEntry>, ps: seq<nat>, hs: seq<nat>) {
    && |ps| == |hs|
    && (forall k {:trigger ps[k]} :: 0 <= k < |ps| ==> ps[k] < |dir| && hs[k] == dir[ps[k]].objectId)
    && (forall k, l {:trigger ps[k], ps[l]} :: 0 <= k < l < |ps| ==> ps[k] < ps[l])
    && (forall i {:trigger i in ps} {:trigger dir[i]} :: 0 <= i < |dir| ==>
          (i in ps <==> dir[i].storageId == 0xffff_ffff))
  }

  method CollectHandles(dir: seq<DirEntry>) returns (hs: seq<nat>, ghost ps: seq<nat>)
    ensures hs == Handles(dir, |dir|) && Picked(dir, ps, hs)
  {
    hs, ps := [], [];
    var i := 0;
    while i < |dir|
      invariant i <= |dir| && hs == Handles(dir, i) && |ps| == |hs|
      invariant forall k {:trigger ps[k]} :: 0 <= k < |ps| ==> ps[k] < i && hs[k] == dir[ps[k]].objectId
      invariant forall k, l {:trigger ps[k], ps[l]} :: 0 <= k < l < |ps| ==> ps[k] < ps[l]
      invariant forall m {:trigger m in ps} {:trigger dir[m]} :: 0 <= m < i ==>
                  (m in ps <==> dir[m].storageId == 0xffff_ffff)
    {
      if IsObject(dir[i]) {
        hs, ps := hs + [dir[i].objectId], ps + [i];
      }
      i := i + 1;
    }
  }

  // ---------- What the storage ids mean, record by record ----------

  /** Object `j` is the first with that id. */
  predicate First(hs: seq<nat>, id: nat, j: nat) {
    j < |hs| && hs[j] == id && forall m :: 0 <= m < j ==> hs[m] != id
  }

  lemma FirstIsFind(hs: seq<nat>, id: nat, j: nat)
    ensures First(hs, id, j) <==> j < |hs| && Find(hs, id) == j
    ensures id in hs <==> Find(hs, id) < |hs|
  {
    if id in hs {
      var m :| 0 <= m < |hs| && hs[m] == id;
    }
  }

  /** Record `m` is the last of a storage to name object `k` as its next child. */
  ghost predicate LastStorage(dir: seq<DirEntry>, hs: seq<nat>, k: nat, m: nat) {
    && m < |dir| && dir[m].storageId != 0xffff_ffff && First(hs, dir[m].nextChild, k)
    && forall l :: m < l < |dir| && dir[l].storageId != 0xffff_ffff ==> !First(hs, dir[l].nextChild, k)
  }

  /** Record `i`, of object `a`, names object `b` as the next one, or as its child.  A next one that is not there
      hides the child. */
  ghost predicate Names(dir: seq<DirEntry>, hs: seq<nat>, i: nat, a: nat, b: nat) {
    && i < |dir| && dir[i].storageId == 0xffff_ffff && First(hs, dir[i].objectId, a)
    && (|| (dir[i].nextId != 0xffff_ffff && First(hs, dir[i].nextId, b))
        || (dir[i].nextChild != 0xffff_ffff && First(hs, dir[i].nextChild, b)
            && (dir[i].nextId == 0xffff_ffff || dir[i].nextId in hs)))
  }

  /** The records `path` lead from the next child of storage record `m` to object `k`: each is one of the object that
      the one before has named. */
  ghost predicate Path(dir: seq<DirEntry>, hs: seq<nat>, m: nat, path: seq<nat>, k: nat)
    decreases |path|
  {
    if path == [] then LastStorage(dir, hs, k, m)
    else
      var n := |path| - 1;
      exists a: nat :: Names(dir, hs, path[n], a, k) && Path(dir, hs, m, path[..n], a)
  }

  /** Some path brings the id of its storage to object `k`. */
  ghost predicate Brings(dir: seq<DirEntry>, hs: seq<nat>, k: nat, id: nat) {
    exists m: nat, path :: Path(dir, hs, m, path, k) && m < |dir| && dir[m].storageId == id
  }

  lemma FollowsIsNames(dir: seq<DirEntry>, hs: seq<nat>, i: nat, a: nat, b: nat)
    requires i < |dir|
    ensures Names(dir, hs, i, a, b) <==> Follows(hs, dir[i], b) && a < |hs| && Find(hs, dir[i].objectId) == a
  {
    FirstIsFind(hs, dir[i].objectId, a);
    FirstIsFind(hs, dir[i].nextId, b);
    FirstIsFind(hs, dir[i].nextChild, b);
  }

  lemma SeedIsLast(dir: seq<DirEntry>, hs: seq<nat>, k: nat, id: nat)
    requires k < |hs|
    ensures id != NONE && Seed(dir, hs, k, |dir|) == id <==>
            exists m: nat :: LastStorage(dir, hs, k, m) && m < |dir| && dir[m].storageId == id
  {
    forall m | 0 <= m < |dir|
      ensures First(hs, dir[m].nextChild, k) <==> Find(hs, dir[m].nextChild) == k
    {
      FirstIsFind(hs, dir[m].nextChild, k);
    }
    var s := Seed(dir, hs, k, |dir|);
    if s != NONE {
      var m :| 0 <= m < |dir| && dir[m].storageId == s && Find(hs, dir[m].nextChild) == k &&
               forall l :: m < l < |dir| && !IsObject(dir[l]) ==> Find(hs, dir[l].nextChild) != k;
      assert LastStorage(dir, hs, k, m);
      forall l | LastStorage(dir, hs, k, l)
        ensures l == m
      {
      }
    }
  }

  /** What reaches an object is what some path brings. */
  lemma {:induction false} ReachesIsPath(dir: seq<DirEntry>, id: nat, k: nat, n: nat)
    requires Reaches(dir, id, k, n)
    ensures Brings(dir, Handles(dir, |dir|), k, id)
    decreases n
  {
    hide Handles, Follows, Seed, Names, LastStorage;
    var hs := Handles(dir, |dir|);
    if id != NONE && k < |hs| && Seed(dir, hs, k, |dir|) == id {
      SeedIsLast(dir, hs, k, id);
      var m: nat :| LastStorage(dir, hs, k, m) && m < |dir| && dir[m].storageId == id;
      LastStorageObject(dir, hs, k, m);
      assert Path(dir, hs, m, [], k);
    } else {
      var i: nat :| 0 <= i < |dir| && Follows(hs, dir[i], k) && Reaches(dir, id, Find(hs, dir[i].objectId), n - 1);
      var a := Find(hs, dir[i].objectId);
      FollowsObject(dir, i, k);
      ReachesIsPath(dir, id, a, n - 1);
      var m: nat, path :| Path(dir, hs, m, path, a) && m < |dir| && dir[m].storageId == id;
      FollowsIsNames(dir, hs, i, a, k);
      assert (path + [i])[..|path|] == path;
      assert Path(dir, hs, m, path + [i], k);
    }
  }

  lemma FollowsObject(dir: seq<DirEntry>, i: nat, k: nat)
    requires i < |dir| && Follows(Handles(dir, |dir|), dir[i], k)
    ensures Find(Handles(dir, |dir|), dir[i].objectId) < |Handles(dir, |dir|)|
  {
    ObjectFound(dir, i, |dir|);
  }

  lemma {:induction false} PathReaches(dir: seq<DirEntry>, m: nat, path: seq<nat>, k: nat)
    requires Path(dir, Handles(dir, |dir|), m, path, k)
    ensures m < |dir| && k < |Handles(dir, |dir|)| && Reaches(dir, dir[m].storageId, k, |path|)
    decreases |path|
  {
    hide Handles, Follows, Seed, Names, LastStorage;
    var hs := Handles(dir, |dir|);
    if path == [] {
      LastStorageObject(dir, hs, k, m);
      SeedIsLast(dir, hs, k, dir[m].storageId);
    } else {
      var n := |path| - 1;
      var a: nat :| Names(dir, hs, path[n], a, k) && Path(dir, hs, m, path[..n], a);
      PathReaches(dir, m, path[..n], a);
      NamesBounds(dir, hs, path[n], a, k);
      FollowsIsNames(dir, hs, path[n], a, k);
      assert dir[path[n]] == dir[path[n]];
    }
  }

  lemma LastStorageObject(dir: seq<DirEntry>, hs: seq<nat>, k: nat, m: nat)
    requires LastStorage(dir, hs, k, m)
    ensures k < |hs| && m < |dir| && dir[m].storageId != NONE
  {
  }

  lemma NamesBounds(dir: seq<DirEntry>, hs: seq<nat>, i: nat, a: nat, b: nat)
    requires Names(dir, hs, i, a, b)
    ensures i < |dir| && a < |hs| && b < |hs|
  {
  }

  /** ptp_unpack_canon_directory: object `k` ends with a storage id if and only if one reaches it, and
      the id it ends with is one that does. */
  method UnpackCanonDirectory(dir: seq<DirEntry>) returns (hs: seq<nat>, ids: array<nat>, ghost ps: seq<nat>)
    ensures Picked(dir, ps, hs) && fresh(ids) && ids.Length == |hs|
    ensures forall k :: 0 <= k < |hs| && ids[k] != 0xffff_ffff ==> Brings(dir, hs, k, ids[k])
    ensures forall k, id :: 0 <= k < |hs| && Brings(dir, hs, k, id) ==> ids[k] != 0xffff_ffff
    ensures forall k, m: nat :: 0 <= k < |hs| && LastStorage(dir, hs, k, m) ==> ids[k] == dir[m].storageId
    ensures hs == Handles(dir, |dir|)
    ensures forall k :: 0 <= k < |hs| ==> (ids[k] != NONE <==> Reachable(dir, k))
    ensures forall k :: 0 <= k < |hs| && ids[k] != NONE ==> ReachedBy(dir, ids[k], k)
    ensures Fixpoint(dir, hs, ids[..])
  {
    hide Handles, Settled, Follows, Reaches, Fixpoint;
    hs, ps := CollectHandles(dir);
    ids := new nat[|hs|](_ => NONE);
    SeedStorages(dir, hs, ids);
    SeedsJustified(dir, hs, ids[..]);
    while true
      invariant Justified(dir, ids[..]) && Seeded(dir, hs, ids[..])
      decreases Unset(ids[..])
    {
      ghost var start := ids[..];
      var changed := Pass(dir, hs, ids);
      if changed == 0 || changed == |hs| - 1 {
        ExitAtFixpoint(dir, hs, start, ids[..], changed);
        break;
      }
    }
    forall k | 0 <= k < |hs|
      ensures ids[k] != NONE <==> Reachable(dir, k)
      ensures ids[k] != NONE ==> ReachedBy(dir, ids[k], k)
    {
      assert ids[..][k] == ids[k];
      if Reachable(dir, k) {
        var id: nat :| ReachedBy(dir, id, k);
        var n: nat :| Reaches(dir, id, k, n);
        ReachedAtFixpoint(dir, ids[..], id, k, n);
      }
    }
    PathsDecide(dir, hs, ids[..]);
  }

  lemma PathsDecide(dir: seq<DirEntry>, hs: seq<nat>, ids: seq<nat>)
    requires hs == Handles(dir, |dir|) && |ids| == |hs| && Seeded(dir, hs, ids)
    requires forall k {:trigger ids[k]} :: 0 <= k < |ids| ==> (ids[k] != NONE <==> Reachable(dir, k))
    requires forall k {:trigger ids[k]} :: 0 <= k < |ids| && ids[k] != NONE ==> ReachedBy(dir, ids[k], k)
    ensures forall k {:trigger ids[k]} :: 0 <= k < |ids| && ids[k] != NONE ==> Brings(dir, hs, k, ids[k])
    ensures forall k, id :: 0 <= k < |ids| && Brings(dir, hs, k, id) ==> ids[k] != NONE
    ensures forall k, m: nat :: 0 <= k < |ids| && LastStorage(dir, hs, k, m) ==> m < |dir| && ids[k] == dir[m].storageId
  {
    hide Handles, Reaches, Path, LastStorage, Seed;
    forall k | 0 <= k < |ids| && ids[k] != NONE
      ensures Brings(dir, hs, k, ids[k])
    {
      var n: nat :| Reaches(dir, ids[k], k, n);
      ReachesIsPath(dir, ids[k], k, n);
    }
    forall k, id | 0 <= k < |ids| && Brings(dir, hs, k, id)
      ensures ids[k] != NONE
    {
      var m: nat, path :| Path(dir, hs, m, path, k) && m < |dir| && dir[m].storageId == id;
      PathReaches(dir, m, path, k);
      assert ReachedBy(dir, id, k);
    }
    forall k, m: nat | 0 <= k < |ids| && LastStorage(dir, hs, k, m)
      ensures m < |dir| && ids[k] == dir[m].storageId
    {
      LastStorageObject(dir, hs, k, m);
      SeedIsLast(dir, hs, k, dir[m].storageId);
    }
  }

  lemma SeedsJustified(dir: seq<DirEntry>, hs: seq<nat>, ids: seq<nat>)
    requires hs == Handles(dir, |dir|) && |ids| == |hs|
    requires forall k :: 0 <= k < |ids| ==> ids[k] == Seed(dir, hs, k, |dir|)
    ensures Justified(dir, ids) && Seeded(dir, hs, ids)
  {
    forall k | 0 <= k < |ids| && ids[k] != NONE
      ensures ReachedBy(dir, ids[k], k)
    {
      assert Reaches(dir, ids[k], k, 0);
    }
  }

  /** The id an object carries is that of a storage record. */
  lemma {:induction false} ReachedFromStorage(dir: seq<DirEntry>, id: nat, k: nat, n: nat)
    requires Reaches(dir, id, k, n)
    ensures exists m :: 0 <= m < |dir| && !IsObject(dir[m]) && dir[m].storageId == id
    decreases n
  {
    var hs := Handles(dir, |dir|);
    if !(id != NONE && k < |hs| && Seed(dir, hs, k, |dir|) == id) {
      var i :| 0 <= i < |dir| && Follows(hs, dir[i], k) && Reaches(dir, id, Find(hs, dir[i].objectId), n - 1);
      ReachedFromStorage(dir, id, Find(hs, dir[i].objectId), n - 1);
    }
  }
}
