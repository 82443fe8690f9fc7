/** What a rename does to names and paths, and when it does what is meant. */
module RenameLaws {
  import opened Forest
  import opened Entries
  import opened Trees
  import opened Strings
  import opened Rename

  /** Every path is the parent's path, a slash, and the name; relative paths start below the root. */
  ghost predicate PathsOk(s: seq<CmaObject>, v: seq<Entry>)
    requires Ordered(s) && |v| == |s|
  {
    && (s != [] ==> v[0].relPath == None)
    && forall i {:trigger v[i]} :: 0 < i < |s| ==>
         HasId(s, s[i].ohfiParent) && PathOk(v[i], v[ParentIndex(s, i)])
  }

  predicate PathOk(e: Entry, parent: Entry) {
    e.relPath == Some(JoinRel(parent.relPath, e.name)) && e.path == parent.path + "/" + e.name
  }

  /** The entries of a list after renameRootEntry on `s[k]`. */
  ghost function RenamedList(s: seq<CmaObject>, v: seq<Entry>, k: nat, find: string, repl: string): (r: seq<Entry>)
    requires Ordered(s) && |v| == |s| && k < |s| && AllNamed(v[k..])
    ensures |r| == |s|
    ensures forall i :: 0 <= i < |s| ==> r[i] == if i < k then v[i] else After(s[k..], v[k..], find, repl, i - k)
  {
    seq(|s|, i requires 0 <= i < |s| => if i < k then v[i] else After(s[k..], v[k..], find, repl, i - k))
  }

  /** The full path of an entry is the root's path, a slash, and the relative path. */
  lemma {:induction false} PathIsRooted(s: seq<CmaObject>, v: seq<Entry>, i: nat)
    requires Ordered(s) && |v| == |s| && PathsOk(s, v) && 0 < i < |s|
    ensures v[i].relPath.Some? && v[i].path == (v[0].path + "/") + v[i].relPath.value
  {
    var e := v[i];
    var p := ParentIndex(s, i);
    assert PathOk(e, v[p]);
    if p > 0 {
      PathIsRooted(s, v, p);
    }
  }

  lemma NamedBelowRoot(s: seq<CmaObject>, v: seq<Entry>, k: nat)
    requires Ordered(s) && |v| == |s| && PathsOk(s, v) && 0 < k <= |s|
    ensures AllNamed(v[k..])
  {
    forall i | 0 <= i < |v[k..]|
      ensures v[k..][i].relPath.Some?
    {
      PathIsRooted(s, v, k + i);
    }
  }

  lemma RenamedStrings(ppath: string, prel: Option<string>, n: string, title: string)
    requires FirstAtEnd(JoinRel(prel, n), n) && FirstAtEnd(ppath + "/" + n, JoinRel(prel, n))
    ensures StrReplace(n, n, title) == title
    ensures StrReplace(JoinRel(prel, n), n, title) == JoinRel(prel, title)
    ensures StrReplace(ppath + "/" + n, JoinRel(prel, n), JoinRel(prel, title)) == ppath + "/" + title
  {
    hide FirstIndex, StrReplace, FirstAtEnd;
    var rel, path := JoinRel(prel, n), ppath + "/" + n;
    AtEndMeans(path, rel);
    PartsReplaced(ppath, prel, n, title);
    ReplaceWhole(n, title);
    ReplaceEnd(rel, n, title);
    ReplaceEnd(path, rel, JoinRel(prel, title));
  }

  lemma AtEndMeans(h: string, f: string)
    requires FirstAtEnd(h, f)
    ensures |f| <= |h| && h[|h| - |f|..] == f
  {
  }

  lemma PartsReplaced(ppath: string, prel: Option<string>, n: string, title: string)
    requires var rel, path := JoinRel(prel, n), ppath + "/" + n;
             |rel| <= |path| && path[|path| - |rel|..] == rel
    ensures var rel, path := JoinRel(prel, n), ppath + "/" + n;
            && |n| <= |rel| && rel[..|rel| - |n|] + title == JoinRel(prel, title)
            && path[..|path| - |rel|] + JoinRel(prel, title) == ppath + "/" + title
  {
    var q := if prel.None? then "" else prel.value + "/";
    var rel, path := q + n, ppath + "/" + n;
    assert rel == JoinRel(prel, n) && q + title == JoinRel(prel, title) && rel[..|rel| - |n|] == q;
    var base := path[..|path| - |rel|];
    assert path == base + rel;
    assert base + q == path[..|path| - |n|] == ppath + "/";
    assert base + (q + title) == (base + q) + title;
  }

  /** When both occurrences that strreplace looks for are the final ones, the entry gets the new
      name, and its paths are right for that name. */
  lemma RenamedEntry(s: seq<CmaObject>, v: seq<Entry>, k: nat, title: string)
    requires Ordered(s) && |v| == |s| && PathsOk(s, v) && 0 < k < |s|
    requires v[k].relPath.Some? && FirstAtEnd(v[k].relPath.value, v[k].name)
    requires FirstAtEnd(v[k].path, v[k].relPath.value)
    ensures HasId(s, s[k].ohfiParent)
    ensures var e, p := Replace(v[k], v[k].name, title), v[ParentIndex(s, k)];
            && e.name == title && PathOk(e, p)
            && e == v[k].(name := e.name, relPath := e.relPath, path := e.path)
  {
    var e := v[k];
    var p := v[ParentIndex(s, k)];
    assert PathOk(e, p);
    RenamedStrings(p.path, p.relPath, e.name, title);
  }

  /** A path below the renamed entry: its beginning is replaced, its ending `more` kept. */
  lemma MovedStrings(rel: string, path: string, rel': string, sfx: string, n: string)
    requires FirstAtEnd(path, rel)
    ensures var more := sfx + "/" + n;
            && rel + sfx + "/" + n == rel + more && rel' + sfx + "/" + n == rel' + more
            && StrReplace(n, rel + more, rel' + more) == n
            && StrReplace(rel + more, rel + more, rel' + more) == rel' + more
            && StrReplace(path + more, rel + more, rel' + more) == StrReplace(path, rel, rel') + more
  {
    hide FirstIndex, StrReplace;
    var more := sfx + "/" + n;
    ReplaceWhole(rel + more, rel' + more);
    ReplaceNothing(n, rel + more, rel' + more);
    FirstAtEndExtends(path, rel, more);
    ReplaceEnd(path + more, rel + more, rel' + more);
    ReplaceEnd(path, rel, rel');
    assert (path + more)[..|path + more| - |rel + more|] == path[..|path| - |rel|];
    assert path[..|path| - |rel|] + (rel' + more) == (path[..|path| - |rel|] + rel') + more;
  }

  /** `a` is `e` with the beginnings of its paths, which are those of `top`, replaced by those of `top'`. */
  predicate Follows(e: Entry, top: Entry, a: Entry, top': Entry) {
    && e.relPath.Some? && top.relPath.Some? && top'.relPath.Some?
    && |top.relPath.value| <= |e.relPath.value| && e.relPath.value[..|top.relPath.value|] == top.relPath.value
    && |top.path| <= |e.path| && e.path[..|top.path|] == top.path
    && e.path[|top.path|..] == e.relPath.value[|top.relPath.value|..]
    && a.relPath == Some(top'.relPath.value + e.relPath.value[|top.relPath.value|..])
    && a.path == top'.path + e.path[|top.path|..]
  }

  lemma FollowsItself(e: Entry, a: Entry)
    requires e.relPath.Some? && a.relPath.Some?
    ensures Follows(e, e, a, a)
  {
    assert e.relPath.value[|e.relPath.value|..] == "" && e.path[|e.path|..] == "";
    assert e.relPath.value[..|e.relPath.value|] == e.relPath.value && e.path[..|e.path|] == e.path;
    assert a.relPath.value + "" == a.relPath.value && a.path + "" == a.path;
  }

  /** One level down: the child of an entry that follows does so, too. */
  lemma ChildFollows(e: Entry, parent: Entry, a: Entry, top: Entry, title: string)
    requires PathOk(e, parent) && top.relPath.Some? && FirstAtEnd(top.path, top.relPath.value)
    requires Follows(parent, top, a, Replace(top, top.name, title))
    ensures e.relPath.Some?
    ensures var m := Moved(e, parent.relPath.value, a.relPath.value);
            Follows(e, top, m, Replace(top, top.name, title)) && m == e.(relPath := m.relPath, path := m.path)
  {
    hide FirstIndex, StrReplace;
    var top' := Replace(top, top.name, title);
    var rel, path := top.relPath.value, top.path;
    var sfx := parent.relPath.value[|rel|..];
    var more := sfx + "/" + e.name;
    assert parent.relPath.value == rel + sfx && parent.path == path + sfx;
    assert e.relPath.value == rel + more && e.path == path + more;
    MovedStrings(rel, path, top'.relPath.value, sfx, e.name);
    assert e.relPath.value[|rel|..] == more && e.path[|path|..] == more;
  }

  /** What is below the renamed entry follows it: the paths keep their endings. */
  lemma {:induction false} RenamedBelow(s: seq<CmaObject>, v: seq<Entry>, k: nat, title: string, i: nat)
    requires Ordered(s) && |v| == |s| && PathsOk(s, v) && 0 < k <= i < |s| && Above(s, s[k], s[i])
    requires v[k].relPath.Some? && FirstAtEnd(v[k].path, v[k].relPath.value) && AllNamed(v[k..])
    ensures var a := After(s[k..], v[k..], v[k].name, title, i - k);
            && Follows(v[i], v[k], a, Replace(v[k], v[k].name, title))
            && (k < i ==> a == v[i].(relPath := a.relPath, path := a.path))
    decreases i
  {
    hide FirstAtEnd, StrReplace, Above, Subtree, HasId, After, PathsOk, Follows, PathOk, Replace, Moved;
    SegmentFacts(s, k, i);
    SegmentFacts(s, k, k);
    if i == k {
      AfterTop(s[k..], v[k..], v[k].name, title);
      FollowsItself(v[k], Replace(v[k], v[k].name, title));
    } else {
      var p := ParentIndex(s, i);
      RenamedBelow(s, v, k, title, p);
      PathOkAt(s, v, i);
      AfterBelow(s[k..], v[k..], v[k].name, title, i - k);
      ChildFollows(v[i], v[p], After(s[k..], v[k..], v[k].name, title, p - k), v[k], title);
    }
  }

  lemma PathOkAt(s: seq<CmaObject>, v: seq<Entry>, i: nat)
    requires Ordered(s) && |v| == |s| && PathsOk(s, v) && 0 < i < |s|
    ensures HasId(s, s[i].ohfiParent) && PathOk(v[i], v[ParentIndex(s, i)])
  {
    var e := v[i];
  }

  // ---------- The laws ----------

  /** The guards: the name is the last component of the relative path by first match, and the
      relative path the ending of the full path by first match. */
  predicate RenameSafe(e: Entry) {
    e.relPath.Some? && FirstAtEnd(e.relPath.value, e.name) && FirstAtEnd(e.path, e.relPath.value)
  }

  /** Under the guards a rename keeps all paths consistent. */
  lemma RenameKeepsPaths(s: seq<CmaObject>, v: seq<Entry>, k: nat, title: string)
    requires Ordered(s) && |v| == |s| && PathsOk(s, v) && 0 < k < |s| && AllNamed(v[k..])
    requires RenameSafe(v[k])
    ensures PathsOk(s, RenamedList(s, v, k, v[k].name, title))
  {
    hide FirstIndex, StrReplace, Above, Subtree, HasId, After, PathsOk;
    var r := RenamedList(s, v, k, v[k].name, title);
    forall i | 0 < i < |s|
      ensures HasId(s, s[i].ohfiParent) && PathOk(r[i], r[ParentIndex(s, i)])
    {
      PathOkAt(s, v, i);
      RenamedLink(s, v, k, title, i);
    }
    PathsOkFrom(s, v, r);
  }

  lemma PathsOkFrom(s: seq<CmaObject>, v: seq<Entry>, r: seq<Entry>)
    requires Ordered(s) && |v| == |s| == |r| && PathsOk(s, v)
    requires s != [] ==> r[0] == v[0]
    requires forall i :: 0 < i < |s| ==> HasId(s, s[i].ohfiParent) && PathOk(r[i], r[ParentIndex(s, i)])
    ensures PathsOk(s, r)
  {
  }

  lemma RenamedLink(s: seq<CmaObject>, v: seq<Entry>, k: nat, title: string, i: nat)
    requires Ordered(s) && |v| == |s| && PathsOk(s, v) && 0 < k < |s| && AllNamed(v[k..])
    requires RenameSafe(v[k]) && 0 < i < |s| && HasId(s, s[i].ohfiParent)
    ensures var r := RenamedList(s, v, k, v[k].name, title);
            PathOk(r[i], r[ParentIndex(s, i)])
  {
    hide FirstIndex, StrReplace, Above, Subtree, HasId, After, PathsOk;
    var p := ParentIndex(s, i);
    PathOkAt(s, v, i);
    if i < k {
    } else if i == k {
      RenamedEntry(s, v, k, title);
      AfterTop(s[k..], v[k..], v[k].name, title);
    } else {
      SegmentFacts(s, k, i);
      AboveIndex(s, k, i);
      if Above(s, s[k], s[i]) {
        RenamedBelow(s, v, k, title, i);
        RenamedBelow(s, v, k, title, p);
        FollowsParent(v[i], v[p], v[k], Replace(v[k], v[k].name, title));
      } else {
        AfterOutside(s[k..], v[k..], v[k].name, title, i - k);
        if k <= p {
          OutsideParent(s, k, i, p);
          SegmentFacts(s, k, p);
          AfterOutside(s[k..], v[k..], v[k].name, title, p - k);
        }
      }
    }
  }

  lemma OutsideParent(s: seq<CmaObject>, k: nat, i: nat, p: nat)
    requires Ordered(s) && k <= p < i < |s| && HasId(s, s[i].ohfiParent) && p == ParentIndex(s, i)
    requires !Above(s, s[k], s[i])
    ensures k < p && !Above(s, s[k], s[p])
  {
    AboveIndex(s, k, i);
    AboveIndex(s, k, k);
  }

  /** Replacing the same beginning in an entry and in its parent keeps their relation. */
  lemma FollowsParent(e: Entry, p: Entry, top: Entry, top': Entry)
    requires PathOk(e, p) && top.relPath.Some? && top'.relPath.Some? && p.relPath.Some? && e.relPath.Some?
    requires |top.relPath.value| <= |p.relPath.value| && |top.path| <= |p.path|
    ensures e.relPath == Some(p.relPath.value + "/" + e.name)
    ensures Some(top'.relPath.value + e.relPath.value[|top.relPath.value|..]) ==
            Some(JoinRel(Some(top'.relPath.value + p.relPath.value[|top.relPath.value|..]), e.name))
    ensures top'.path + e.path[|top.path|..] == (top'.path + p.path[|top.path|..]) + "/" + e.name
  {
    var a, b := top.relPath.value, p.relPath.value;
    assert (b + "/" + e.name)[|a|..] == b[|a|..] + "/" + e.name;
    assert (p.path + "/" + e.name)[|top.path|..] == p.path[|top.path|..] + "/" + e.name;
    assert top'.relPath.value + (b[|a|..] + "/" + e.name) == (top'.relPath.value + b[|a|..]) + "/" + e.name;
    assert top'.path + (p.path[|top.path|..] + "/" + e.name) == (top'.path + p.path[|top.path|..]) + "/" + e.name;
  }

  /** For names without slashes, the renamed entry gets the right paths exactly under the guards
      (or when the name does not change). */
  lemma RenameRightIff(s: seq<CmaObject>, v: seq<Entry>, k: nat, title: string)
    requires Ordered(s) && |v| == |s| && PathsOk(s, v) && 0 < k < |s|
    requires SlashFree(v[k].name) && SlashFree(title)
    ensures HasId(s, s[k].ohfiParent) && v[k].relPath.Some?
    ensures PathOk(Replace(v[k], v[k].name, title), v[ParentIndex(s, k)]) <==>
            title == v[k].name || RenameSafe(v[k])
  {
    PathOkAt(s, v, k);
    PathIsRooted(s, v, k);
    var e, p := v[k], v[ParentIndex(s, k)];
    RightIff(e, p, v[0].path + "/", title);
  }

  /** It does go wrong: renaming the file a in the folder a renames the folder in the file's path. */
  lemma RenameGoesWrong(e: Entry)
    requires e.name == "a" && e.relPath == Some("a/a")
    ensures Replace(e, e.name, "b").relPath == Some("b/a") && !RenameSafe(e)
  {
    assert OccursAt("a/a", "a", 0);
    assert FirstIndex("a/a", "a", 0) == Some(0);
    assert "a/a"[..0] + "b" + "a/a"[1..] == "b/a";
  }

  lemma RightIff(e: Entry, p: Entry, base: string, title: string)
    requires PathOk(e, p) && EmptyOrSlashEnded(base) && e.path == base + e.relPath.value
    requires SlashFree(e.name) && SlashFree(title)
    ensures PathOk(Replace(e, e.name, title), p) <==> title == e.name || RenameSafe(e)
  {
    hide FirstIndex, StrReplace, SlashFree, EmptyOrSlashEnded, FirstAtEnd;
    var q := if p.relPath.None? then "" else p.relPath.value + "/";
    EndsInSlash(p.relPath);
    ReplaceWhole(e.name, title);
    NameReplacedIff(q, e.name, title);
    PathReplacedIff(base, q, e.name, title);
    PathsSplit(e, p, base, q, title);
  }

  lemma EndsInSlash(relPath: Option<string>)
    ensures EmptyOrSlashEnded(if relPath.None? then "" else relPath.value + "/")
  {
  }

  /** The strings of an entry and of the entry that is meant, cut into the same parts. */
  lemma PathsSplit(e: Entry, p: Entry, base: string, q: string, title: string)
    requires PathOk(e, p) && e.path == base + e.relPath.value
    requires q == if p.relPath.None? then "" else p.relPath.value + "/"
    ensures e.relPath.value == q + e.name && JoinRel(p.relPath, title) == q + title
    ensures p.path + "/" + title == base + (q + title)
  {
    assert e.relPath.value == q + e.name;
    assert base + (q + e.name) == (base + q) + e.name && p.path + "/" + e.name == (p.path + "/") + e.name;
    assert base + q == e.path[..|e.path| - |e.name|] == p.path + "/";
    assert base + (q + title) == (base + q) + title;
  }

  /** Replacing a name by itself changes nothing. */
  lemma {:induction false} SameName(s: seq<CmaObject>, v: seq<Entry>, name: string, i: nat)
    requires Ordered(s) && |v| == |s| && AllNamed(v) && i < |s|
    ensures After(s, v, name, name, i) == v[i]
    decreases i
  {
    hide FirstIndex, StrReplace, HasId, Above, Ordered;
    var rel := v[i].relPath.value;
    ReplaceSame(v[i].path, rel);
    if i == 0 {
      ReplaceSame(v[0].name, name);
      ReplaceSame(rel, name);
    } else if HasId(s, s[i].ohfiParent) && Above(s, s[0], s[i]) {
      var p := ParentIndex(s, i);
      SameName(s, v, name, p);
      var find := v[p].relPath.value + "/" + v[i].name;
      ReplaceSame(v[i].name, find);
      ReplaceSame(rel, find);
    }
  }

  lemma RenamedToItself(s: seq<CmaObject>, v: seq<Entry>, k: nat)
    requires Ordered(s) && |v| == |s| && k < |s| && AllNamed(v[k..])
    ensures RenamedList(s, v, k, v[k].name, v[k].name) == v
  {
    hide After;
    var r := RenamedList(s, v, k, v[k].name, v[k].name);
    forall i | 0 <= i < |s|
      ensures r[i] == v[i]
    {
      if k <= i {
        SameName(s[k..], v[k..], v[k].name, i - k);
      }
    }
  }

  /** The same for the whole list: for names without slashes, every path fits again exactly under the guards (or
      when the name does not change). */
  lemma ListRightIff(s: seq<CmaObject>, v: seq<Entry>, k: nat, title: string)
    requires Ordered(s) && |v| == |s| && PathsOk(s, v) && 0 < k < |s| && AllNamed(v[k..])
    requires SlashFree(v[k].name) && SlashFree(title)
    ensures PathsOk(s, RenamedList(s, v, k, v[k].name, title)) <==> title == v[k].name || RenameSafe(v[k])
  {
    hide SlashFree, RenameSafe, After, PathsOk, Replace, PathOk;
    var r := RenamedList(s, v, k, v[k].name, title);
    if title == v[k].name {
      RenamedToItself(s, v, k);
    } else if RenameSafe(v[k]) {
      RenameKeepsPaths(s, v, k, title);
    } else if PathsOk(s, r) {
      RenameRightIff(s, v, k, title);
      PathOkAt(s, r, k);
      AfterTop(s[k..], v[k..], v[k].name, title);
      assert false;
    }
  }

  /** Renaming back, as the failed move does, restores every entry, when the guards hold before
      and hold again for the new name. */
  lemma RenameBack(s: seq<CmaObject>, v: seq<Entry>, k: nat, title: string)
    requires Ordered(s) && |v| == |s| && PathsOk(s, v) && 0 < k < |s| && AllNamed(v[k..])
    requires RenameSafe(v[k])
    requires RenameSafe(Replace(v[k], v[k].name, title))
    ensures var r := RenamedList(s, v, k, v[k].name, title);
            && AllNamed(r[k..]) && r[k].name == title
            && RenamedList(s, r, k, r[k].name, v[k].name) == v
  {
    hide FirstIndex, StrReplace, Above, Subtree, HasId, After, PathsOk;
    var r := RenamedList(s, v, k, v[k].name, title);
    RenameKeepsPaths(s, v, k, title);
    NamedBelowRoot(s, r, k);
    RenamedEntry(s, v, k, title);
    SegmentFacts(s, k, k);
    AfterTop(s[k..], v[k..], v[k].name, title);
    RenamedEntry(s, r, k, v[k].name);
    var b := RenamedList(s, r, k, r[k].name, v[k].name);
    forall i | 0 <= i < |s|
      ensures b[i] == v[i]
    {
      if i >= k {
        BackAgain(s, v, r, k, title, i);
      }
    }
  }

  lemma RenamedTop(s: seq<CmaObject>, v: seq<Entry>, k: nat, title: string)
    requires Ordered(s) && |v| == |s| && PathsOk(s, v) && 0 < k < |s| && AllNamed(v[k..]) && RenameSafe(v[k])
    ensures var r := RenamedList(s, v, k, v[k].name, title);
            r[k] == Replace(v[k], v[k].name, title) && r[k].name == title
  {
    hide After, PathsOk;
    RenamedEntry(s, v, k, title);
    AfterTop(s[k..], v[k..], v[k].name, title);
  }

  lemma BackAgain(s: seq<CmaObject>, v: seq<Entry>, r: seq<Entry>, k: nat, title: string, i: nat)
    requires Ordered(s) && |v| == |s| && PathsOk(s, v) && 0 < k <= i < |s| && AllNamed(v[k..])
    requires r == RenamedList(s, v, k, v[k].name, title) && PathsOk(s, r) && AllNamed(r[k..])
    requires RenameSafe(v[k]) && RenameSafe(r[k]) && r[k].name == title
    ensures After(s[k..], r[k..], title, v[k].name, i - k) == v[i]
  {
    hide FirstIndex, StrReplace, Above, Subtree, HasId, After, PathsOk;
    SegmentFacts(s, k, k);
    SegmentFacts(s, k, i);
    AfterTop(s[k..], v[k..], v[k].name, title);
    AfterTop(s[k..], r[k..], title, v[k].name);
    PathOkAt(s, v, k);
    RenamedEntry(s, v, k, title);
    RenamedEntry(s, r, k, v[k].name);
    if i > k && Above(s, s[k], s[i]) {
      RenamedBelow(s, v, k, title, i);
      RenamedBelow(s, r, k, v[k].name, i);
      EndingsAgree(v[i], v[k], r[i], r[k]);
    } else if i > k {
      AfterOutside(s[k..], v[k..], v[k].name, title, i - k);
      AfterOutside(s[k..], r[k..], title, v[k].name, i - k);
    }
  }

  lemma EndingsAgree(e: Entry, top: Entry, e': Entry, top': Entry)
    requires e.relPath.Some? && top.relPath.Some? && e'.relPath.Some? && top'.relPath.Some?
    requires |top.relPath.value| <= |e.relPath.value| && e.relPath.value[..|top.relPath.value|] == top.relPath.value
    requires |top.path| <= |e.path| && e.path[..|top.path|] == top.path
    requires e'.relPath.value == top'.relPath.value + e.relPath.value[|top.relPath.value|..]
    requires e'.path == top'.path + e.path[|top.path|..]
    ensures top.relPath.value + e'.relPath.value[|top'.relPath.value|..] == e.relPath.value
    ensures top.path + e'.path[|top'.path|..] == e.path
  {
  }

  // ---------- Renaming back, whatever the first rename did ----------

  /** The relative path first occurs in the full path where it did before. */
  predicate InPlace(e: Entry, a: Entry) {
    && e.relPath.Some? && a.relPath.Some?
    && FirstIndex(a.path, a.relPath.value, 0) == FirstIndex(e.path, e.relPath.value, 0)
  }

  /** What was looked for first occurs, once it is replaced, where it did before: the name in the relative path of the
      entry, and the relative path in the full path, for the entry and all below it. */
  ghost predicate BackInPlace(s: seq<CmaObject>, v: seq<Entry>, k: nat, title: string)
    requires Ordered(s) && |v| == |s| && k < |s| && AllNamed(v[k..])
  {
    var r := RenamedList(s, v, k, v[k].name, title);
    && v[k].relPath.Some? && r[k].relPath.Some?
    && FirstIndex(r[k].relPath.value, title, 0) == FirstIndex(v[k].relPath.value, v[k].name, 0)
    && forall i {:trigger Above(s, s[k], s[i])} :: k <= i < |s| && Above(s, s[k], s[i]) ==> InPlace(v[i], r[i])
  }

  /** The list after a rename and a rename back. */
  ghost function BackList(s: seq<CmaObject>, v: seq<Entry>, k: nat, title: string): (b: seq<Entry>)
    requires Ordered(s) && |v| == |s| && k < |s| && AllNamed(v[k..])
    ensures |b| == |s|
  {
    var r := RenamedList(s, v, k, v[k].name, title);
    assert AllNamed(r[k..]);
    RenamedList(s, r, k, title, v[k].name)
  }

  /** The entry itself. */
  lemma TopTwice(s: seq<CmaObject>, v: seq<Entry>, k: nat, title: string)
    requires Ordered(s) && |v| == |s| && PathsOk(s, v) && 0 < k < |s| && AllNamed(v[k..])
    ensures var r, b := RenamedList(s, v, k, v[k].name, title), BackList(s, v, k, title);
            && v[k].relPath.Some? && r[k] == Replace(v[k], v[k].name, title)
            && r[k].name == title && b[k] == Replace(r[k], title, v[k].name)
            && b[k].name == v[k].name && b[k] == v[k].(relPath := b[k].relPath, path := b[k].path)
  {
    hide After, StrReplace;
    var r := RenamedList(s, v, k, v[k].name, title);
    AfterTop(s[k..], v[k..], v[k].name, title);
    AfterTop(s[k..], r[k..], title, v[k].name);
    ReplaceWhole(v[k].name, title);
    ReplaceWhole(title, v[k].name);
  }

  /** An entry below its parent: the path is looked up whole. */
  lemma MovedWhole(e: Entry, oldRel: string, newRel: string)
    requires e.relPath == Some(oldRel + "/" + e.name)
    ensures Moved(e, oldRel, newRel) ==
            var rel := newRel + "/" + e.name;
            e.(relPath := Some(rel), path := StrReplace(e.path, e.relPath.value, rel))
  {
    hide StrReplace;
    ReplaceWhole(e.relPath.value, newRel + "/" + e.name);
    ReplaceNothing(e.name, e.relPath.value, newRel + "/" + e.name);
  }

  /** An entry further down, there and back. */
  lemma BelowTwice(s: seq<CmaObject>, v: seq<Entry>, k: nat, title: string, i: nat)
    requires Ordered(s) && |v| == |s| && PathsOk(s, v) && 0 < k < i < |s| && AllNamed(v[k..]) && Above(s, s[k], s[i])
    ensures HasId(s, s[i].ohfiParent) && k <= ParentIndex(s, i) && Above(s, s[k], s[ParentIndex(s, i)])
    ensures var r, b, p := RenamedList(s, v, k, v[k].name, title), BackList(s, v, k, title), ParentIndex(s, i);
            && v[i].relPath.Some? && v[p].relPath.Some? && r[p].relPath.Some? && b[p].relPath.Some?
            && v[i].relPath.value == v[p].relPath.value + "/" + v[i].name
            && var rel, back := r[p].relPath.value + "/" + v[i].name, b[p].relPath.value + "/" + v[i].name;
               && r[i] == v[i].(relPath := Some(rel), path := StrReplace(v[i].path, v[i].relPath.value, rel))
               && b[i] == v[i].(relPath := Some(back), path := StrReplace(r[i].path, rel, back))
  {
    hide After, StrReplace, Above, HasId, PathsOk, Moved;
    var r, b := RenamedList(s, v, k, v[k].name, title), BackList(s, v, k, title);
    SegmentFacts(s, k, i);
    var p := ParentIndex(s, i);
    PathOkAt(s, v, i);
    AfterBelow(s[k..], v[k..], v[k].name, title, i - k);
    AfterBelow(s[k..], r[k..], title, v[k].name, i - k);
    MovedWhole(v[i], v[p].relPath.value, r[p].relPath.value);
    MovedWhole(r[i], r[p].relPath.value, b[p].relPath.value);
  }

  /** Once the entry has its relative path back, so has all below it. */
  lemma {:induction false} RelativeBack(s: seq<CmaObject>, v: seq<Entry>, k: nat, title: string, i: nat)
    requires Ordered(s) && |v| == |s| && PathsOk(s, v) && 0 < k <= i < |s| && AllNamed(v[k..]) && Above(s, s[k], s[i])
    requires BackList(s, v, k, title)[k].relPath == v[k].relPath
    ensures BackList(s, v, k, title)[i].relPath == v[i].relPath
    decreases i
  {
    hide BackList, PathsOk, Above, HasId, StrReplace;
    if k < i {
      BelowTwice(s, v, k, title, i);
      RelativeBack(s, v, k, title, ParentIndex(s, i));
    }
  }

  lemma OccursBehind(base: string, rel: string)
    ensures FirstIndex(base + rel, rel, 0).Some?
  {
    assert OccursAt(base + rel, rel, |base|);
  }

  /** And then it is restored exactly if its relative path stays in place. */
  lemma EntryBackIff(s: seq<CmaObject>, v: seq<Entry>, k: nat, title: string, i: nat)
    requires Ordered(s) && |v| == |s| && PathsOk(s, v) && 0 < k <= i < |s| && AllNamed(v[k..]) && Above(s, s[k], s[i])
    requires BackList(s, v, k, title)[k].relPath == v[k].relPath
    ensures BackList(s, v, k, title)[i] == v[i] <==> InPlace(v[i], RenamedList(s, v, k, v[k].name, title)[i])
  {
    hide PathsOk, BackList, RenamedList, Above, HasId, StrReplace, FirstIndex;
    var r := RenamedList(s, v, k, v[k].name, title);
    RelativeBack(s, v, k, title, i);
    PathIsRooted(s, v, i);
    OccursBehind(v[0].path + "/", v[i].relPath.value);
    TopTwice(s, v, k, title);
    if k < i {
      BelowTwice(s, v, k, title, i);
    }
    ReplacedBackIff(v[i].path, v[i].relPath.value, r[i].relPath.value);
  }

  lemma RestElsewhere(s: seq<CmaObject>, v: seq<Entry>, k: nat, title: string, i: nat)
    requires Ordered(s) && |v| == |s| && k < |s| && AllNamed(v[k..]) && i < |s|
    requires i < k || !Above(s, s[k], s[i])
    ensures BackList(s, v, k, title)[i] == v[i]
  {
    hide After, Above;
    var r := RenamedList(s, v, k, v[k].name, title);
    if k <= i {
      SegmentFacts(s, k, i);
      AboveIndex(s, k, i);
      AfterOutside(s[k..], v[k..], v[k].name, title, i - k);
      AfterOutside(s[k..], r[k..], title, v[k].name, i - k);
    }
  }

  /** Renaming back restores every entry if and only if what was replaced stays in place, whatever the first rename
      has made of the paths. */
  lemma RestoredIff(s: seq<CmaObject>, v: seq<Entry>, k: nat, title: string)
    requires Ordered(s) && |v| == |s| && PathsOk(s, v) && 0 < k < |s| && AllNamed(v[k..])
    ensures BackList(s, v, k, title) == v <==> BackInPlace(s, v, k, title)
  {
    hide PathsOk, BackList, RenamedList, Above, HasId, StrReplace, FirstIndex;
    var r, b := RenamedList(s, v, k, v[k].name, title), BackList(s, v, k, title);
    TopTwice(s, v, k, title);
    PathOkAt(s, v, k);
    AboveIndex(s, k, k);
    NameWithin(v[k], v[ParentIndex(s, k)]);
    ReplacedBackIff(v[k].relPath.value, v[k].name, title);
    if b[k].relPath == v[k].relPath {
      forall i | 0 <= i < |s|
        ensures b[i] == v[i] <==> (k <= i && Above(s, s[k], s[i]) ==> InPlace(v[i], r[i]))
      {
        if k <= i && Above(s, s[k], s[i]) {
          EntryBackIff(s, v, k, title, i);
        } else {
          RestElsewhere(s, v, k, title, i);
        }
      }
    }
  }

  lemma NameWithin(e: Entry, p: Entry)
    requires PathOk(e, p)
    ensures e.relPath.Some? && FirstIndex(e.relPath.value, e.name, 0).Some?
  {
    var q := if p.relPath.None? then "" else p.relPath.value + "/";
    assert e.relPath.value == q + e.name;
    OccursBehind(q, e.name);
  }

  /** Names and parents determine all paths that fit. */
  lemma {:induction false} SamePathsAt(s: seq<CmaObject>, v: seq<Entry>, b: seq<Entry>, i: nat)
    requires Ordered(s) && |v| == |b| == |s| && PathsOk(s, v) && PathsOk(s, b) && i < |s| && b[0] == v[0]
    requires forall j :: 0 <= j < |s| ==> b[j] == v[j].(relPath := b[j].relPath, path := b[j].path)
    ensures b[i] == v[i]
    decreases i
  {
    hide PathsOk;
    if i > 0 {
      PathOkAt(s, v, i);
      PathOkAt(s, b, i);
      SamePathsAt(s, v, b, ParentIndex(s, i));
    }
  }

  lemma StringsOnly(s: seq<CmaObject>, v: seq<Entry>, k: nat, title: string, i: nat)
    requires Ordered(s) && |v| == |s| && PathsOk(s, v) && 0 < k < |s| && AllNamed(v[k..]) && i < |s|
    ensures var b := BackList(s, v, k, title);
            b[i] == v[i].(relPath := b[i].relPath, path := b[i].path)
  {
    hide PathsOk, BackList, Above, HasId, StrReplace;
    if i == k {
      TopTwice(s, v, k, title);
    } else if k < i && Above(s, s[k], s[i]) {
      BelowTwice(s, v, k, title, i);
    } else {
      RestElsewhere(s, v, k, title, i);
    }
  }

  /** That is also exactly when every path fits again: a rename back leaves all paths right or some entry changed. */
  lemma BackRightIff(s: seq<CmaObject>, v: seq<Entry>, k: nat, title: string)
    requires Ordered(s) && |v| == |s| && PathsOk(s, v) && 0 < k < |s| && AllNamed(v[k..])
    ensures PathsOk(s, BackList(s, v, k, title)) <==> BackInPlace(s, v, k, title)
  {
    hide PathsOk, BackList, BackInPlace, Above;
    RestoredIff(s, v, k, title);
    var b := BackList(s, v, k, title);
    if PathsOk(s, b) {
      forall i | 0 <= i < |s|
        ensures b[i] == v[i].(relPath := b[i].relPath, path := b[i].path)
      {
        StringsOnly(s, v, k, title, i);
      }
      RestElsewhere(s, v, k, title, 0);
      forall i | 0 <= i < |s|
        ensures b[i] == v[i]
      {
        SamePathsAt(s, v, b, i);
      }
    }
  }

  /** After a rename under the guards, for names without slashes, that comes down to the guards for the new name: they
      hold, or it is the old name. */
  lemma RenameBackIff(s: seq<CmaObject>, v: seq<Entry>, k: nat, title: string)
    requires Ordered(s) && |v| == |s| && PathsOk(s, v) && 0 < k < |s| && AllNamed(v[k..])
    requires RenameSafe(v[k]) && SlashFree(v[k].name) && SlashFree(title)
    ensures var r := RenamedList(s, v, k, v[k].name, title);
            && AllNamed(r[k..]) && r[k].name == title
            && (RenamedList(s, r, k, r[k].name, v[k].name) == v <==> title == v[k].name || RenameSafe(r[k]))
            && (BackInPlace(s, v, k, title) <==> title == v[k].name || RenameSafe(r[k]))
  {
    hide SlashFree, RenameSafe, After, PathsOk, PathOk, Replace, BackInPlace;
    var r := RenamedList(s, v, k, v[k].name, title);
    RenameKeepsPaths(s, v, k, title);
    NamedBelowRoot(s, r, k);
    RestoredIff(s, v, k, title);
    RenamedTop(s, v, k, title);
    if title == v[k].name {
      RenamedToItself(s, v, k);
    } else if RenameSafe(r[k]) {
      RenameBack(s, v, k, title);
    } else {
      ListRightIff(s, r, k, v[k].name);
    }
  }

  /** A rename can go wrong and be taken back all the same: the file a/a becomes b/a, and a/a again. */
  lemma WrongButRestored(e: Entry)
    requires e.name == "a" && e.relPath == Some("a/a") && e.path == "R/a/a"
    ensures !RenameSafe(e) && Replace(Replace(e, "a", "b"), "b", "a") == e
  {
    hide StrReplace, FirstIndex;
    RenameGoesWrong(e);
    ReplacedAt("", "a", "", "b");
    ReplacedAt("", "b", "", "a");
    ReplacedAt("", "a", "/a", "b");
    ReplacedAt("", "b", "/a", "a");
    ReplacedAt("R/", "a/a", "", "b/a");
    ReplacedAt("R/", "b/a", "", "a/a");
    assert "" + "a" + "" == "a" && "" + "b" + "" == "b";
    assert "" + "a" + "/a" == "a/a" && "" + "b" + "/a" == "b/a";
    assert "R/" + "a/a" + "" == "R/a/a" && "R/" + "b/a" + "" == "R/b/a";
  }

  /** And one that goes right may not be taken back: the file ab/c becomes ab/a, and then cb/a. */
  lemma RightButNotRestored(e: Entry)
    requires e.name == "c" && e.relPath == Some("ab/c") && e.path == "R/ab/c"
    ensures RenameSafe(e) && Replace(e, "c", "a").relPath == Some("ab/a")
    ensures Replace(Replace(e, "c", "a"), "a", "c").relPath == Some("cb/a")
  {
    hide StrReplace, FirstIndex;
    ReplacedAt("ab/", "c", "", "a");
    ReplacedAt("R/", "ab/c", "", "ab/a");
    ReplacedAt("", "a", "b/a", "c");
    assert "ab/" + "c" + "" == "ab/c" && "ab/" + "a" + "" == "ab/a" == "" + "a" + "b/a";
    assert "R/" + "ab/c" + "" == "R/ab/c" && "" + "c" + "b/a" == "cb/a";
  }
}
