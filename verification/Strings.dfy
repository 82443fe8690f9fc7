/** strstr and strreplace (src/utilities.c:541-561). */
module Strings {
  import opened Forest

  predicate OccursAt(h: string, f: string, i: nat) {
    i + |f| <= |h| && h[i..i + |f|] == f
  }

  /** strstr from position `k` on: the first occurrence of `f` in `h`. */
  function FirstIndex(h: string, f: string, k: nat): (r: Option<nat>)
    requires k <= |h|
    ensures r.Some? ==> k <= r.value && OccursAt(h, f, r.value)
    ensures forall i {:trigger OccursAt(h, f, i)} :: k <= i && OccursAt(h, f, i) ==> r.Some? && r.value <= i
    decreases |h| - k
  {
    if OccursAt(h, f, k) then Some(k)
    else if k == |h| then None
    else FirstIndex(h, f, k + 1)
  }

  /** Replaces the first occurrence of `find`, if there is one. */
  function StrReplace(h: string, find: string, replace: string): string {
    var found := FirstIndex(h, find, 0);
    if found.None? then h else h[..found.value] + replace + h[found.value + |find|..]
  }

  /** The first occurrence of `f` in `h` is its end. */
  predicate FirstAtEnd(h: string, f: string) {
    |f| <= |h| && FirstIndex(h, f, 0) == Some(|h| - |f|)
  }

  predicate SlashFree(s: string) {
    '/' !in s
  }

  /** What follows the last slash. */
  function LastComponent(s: string): string {
    if s == "" then ""
    else if s[|s| - 1] == '/' then ""
    else LastComponent(s[..|s| - 1]) + [s[|s| - 1]]
  }

  lemma {:induction false} LastOfJoined(a: string, b: string)
    requires SlashFree(b)
    ensures LastComponent(a + "/" + b) == b
  {
    var s := a + "/" + b;
    if b == "" {
      assert s[|s| - 1] == '/';
    } else {
      assert s[..|s| - 1] == a + "/" + b[..|b| - 1];
      assert s[|s| - 1] == b[|b| - 1];
      LastOfJoined(a, b[..|b| - 1]);
    }
  }

  lemma {:induction false} LastOfSlashFree(b: string)
    requires SlashFree(b)
    ensures LastComponent(b) == b
  {
    if b != "" {
      LastOfSlashFree(b[..|b| - 1]);
    }
  }

  /** The last component of a string with a slash depends only on what follows any of its slashes. */
  lemma {:induction false} LastOfTail(a: string, w: string)
    requires !SlashFree(w)
    ensures LastComponent(a + w) == LastComponent(w)
  {
    var s := a + w;
    assert s[|s| - 1] == w[|w| - 1];
    if w[|w| - 1] != '/' {
      assert s[..|s| - 1] == a + w[..|w| - 1];
      LastOfTail(a, w[..|w| - 1]);
    }
  }

  lemma {:induction false} LastGrows(a: string, b: string)
    requires SlashFree(b)
    ensures |LastComponent(a + b)| >= |b|
  {
    if b != "" {
      var s := a + b;
      assert s[|s| - 1] == b[|b| - 1];
      assert s[..|s| - 1] == a + b[..|b| - 1];
      LastGrows(a, b[..|b| - 1]);
    }
  }

  lemma ReplaceWhole(h: string, r: string)
    ensures StrReplace(h, h, r) == r
  {
    assert OccursAt(h, h, 0);
  }

  lemma ReplaceNothing(h: string, find: string, r: string)
    requires |h| < |find|
    ensures StrReplace(h, find, r) == h
  {
  }

  lemma ReplaceSame(h: string, find: string)
    ensures StrReplace(h, find, find) == h
  {
  }

  lemma ReplaceEnd(h: string, find: string, r: string)
    requires FirstAtEnd(h, find)
    ensures StrReplace(h, find, r) == h[..|h| - |find|] + r
  {
    assert h[|h|..] == "";
  }

  /** What starts with a character that comes in nothing before it is found there. */
  lemma ReplacedAt(a: string, f: string, b: string, r: string)
    requires f != "" && f[0] !in a
    ensures FirstIndex(a + f + b, f, 0) == Some(|a|) && StrReplace(a + f + b, f, r) == a + r + b
  {
    var h := a + f + b;
    assert OccursAt(h, f, |a|);
    forall j: nat | OccursAt(h, f, j)
      ensures |a| <= j
    {
      assert h[j..j + |f|][0] == h[j];
    }
    assert h[..|a|] == a && h[|a| + |f|..] == b;
  }

  /** Replacing `f` by `r` and then `r` by `f` gives the string back exactly if `r` then first occurs where `f` did. */
  lemma ReplacedBackIff(h: string, f: string, r: string)
    requires FirstIndex(h, f, 0).Some?
    ensures var h' := StrReplace(h, f, r);
            StrReplace(h', r, f) == h <==> FirstIndex(h', r, 0) == FirstIndex(h, f, 0)
  {
    hide FirstIndex, OccursAt, StrReplace;
    var h' := StrReplace(h, f, r);
    var i := Replaced(h, f, r);
    var a, b := h[..i], h[i + |f|..];
    Inserted(a, r, b);
    var j := Replaced(h', r, f);
    Inserted(h'[..j], f, h'[j + |r|..]);
  }

  lemma Replaced(h: string, f: string, r: string) returns (i: nat)
    requires FirstIndex(h, f, 0).Some?
    ensures FirstIndex(h, f, 0) == Some(i) && i + |f| <= |h| && h == h[..i] + f + h[i + |f|..]
    ensures StrReplace(h, f, r) == h[..i] + r + h[i + |f|..]
  {
    i := FirstIndex(h, f, 0).value;
    Around(h, f, i);
  }

  lemma Inserted(a: string, f: string, b: string)
    ensures OccursAt(a + f + b, f, |a|) && (a + f + b)[..|a|] == a && (a + f + b)[|a| + |f|..] == b
  {
  }

  /** If `f` first occurs at the end of `h`, then so it does with the same addition to both. */
  lemma FirstAtEndExtends(h: string, f: string, more: string)
    requires FirstAtEnd(h, f)
    ensures FirstAtEnd(h + more, f + more)
  {
    var g, e := h + more, f + more;
    var n := |h| - |f|;
    assert g[n..n + |e|] == h[n..] + more == f + more;
    assert OccursAt(g, e, n);
    forall i: nat | OccursAt(g, e, i)
      ensures n <= i
    {
      if i < n {
        assert g[i..i + |e|][..|f|] == e[..|f|] == f;
        assert g[i..i + |f|] == g[i..i + |e|][..|f|];
        assert h[i..i + |f|] == g[i..i + |f|];
        assert OccursAt(h, f, i);
      }
    }
  }

  predicate EmptyOrSlashEnded(s: string) {
    s == "" || s[|s| - 1] == '/'
  }

  lemma LastAfter(q: string, n: string)
    requires EmptyOrSlashEnded(q) && SlashFree(n)
    ensures LastComponent(q + n) == n
  {
    if q == "" {
      assert q + n == n;
      LastOfSlashFree(n);
    } else {
      assert q == q[..|q| - 1] + "/";
      assert q + n == q[..|q| - 1] + "/" + n;
      LastOfJoined(q[..|q| - 1], n);
    }
  }

  lemma Around(h: string, f: string, i: nat)
    requires OccursAt(h, f, i)
    ensures h == h[..i] + f + h[i + |f|..]
  {
  }

  lemma Regrouped(a: string, b: string, c: string)
    ensures a + (b + c) == (a + b) + c
  {
  }

  /** An occurrence of a last component before its place ends before the last slash. */
  lemma BeforeSlash(q: string, n: string, i: nat)
    requires EmptyOrSlashEnded(q) && SlashFree(n) && OccursAt(q + n, n, i) && i < |q|
    ensures !SlashFree((q + n)[i + |n|..])
  {
    var h := q + n;
    assert h[|q| - 1] == '/';
    forall j | i <= j < i + |n|
      ensures h[j] != '/'
    {
      assert h[j] == h[i..i + |n|][j - i] == n[j - i];
      assert n[j - i] in n;
    }
    assert h[i + |n|..][|q| - 1 - i - |n|] == '/';
  }

  /** Replacing it there leaves the last component as it was. */
  lemma EarlierNameDiffers(q: string, n: string, t: string, i: nat)
    requires EmptyOrSlashEnded(q) && SlashFree(n) && SlashFree(t) && OccursAt(q + n, n, i) && i < |q| && n != t
    ensures var h := q + n;
            h[..i] + t + h[i + |n|..] != q + t
  {
    BeforeSlash(q, n, i);
    Around(q + n, n, i);
    hide OccursAt, LastComponent, SlashFree, EmptyOrSlashEnded;
    var h := q + n;
    var w := h[i + |n|..];
    LastOfTail(h[..i] + n, w);
    LastOfTail(h[..i] + t, w);
    LastAfter(q, n);
    LastAfter(q, t);
  }

  /** Renaming the last component by replacing its first occurrence comes out right exactly when
      that occurrence is the last component, or the name does not change. */
  lemma NameReplacedIff(q: string, n: string, t: string)
    requires EmptyOrSlashEnded(q) && SlashFree(n) && SlashFree(t)
    ensures StrReplace(q + n, n, t) == q + t <==> n == t || FirstAtEnd(q + n, n)
  {
    hide SlashFree, EmptyOrSlashEnded;
    var h := q + n;
    assert OccursAt(h, n, |q|);
    var i := FirstIndex(h, n, 0).value;
    if n == t {
      ReplaceSame(h, n);
    } else if i == |q| {
      ReplaceEnd(h, n, t);
      assert h[..|h| - |n|] == q;
    } else {
      EarlierNameDiffers(q, n, t, i);
    }
  }

  lemma LongLast(u: string, q: string, n: string, w: string)
    requires SlashFree(n) && SlashFree(w)
    ensures |LastComponent(u + (q + n) + w)| >= |n| + |w|
  {
    assert u + (q + n) + w == (u + q) + (n + w);
    LastGrows(u + q, n + w);
  }

  /** Replacing an earlier occurrence leaves the last component as it was. */
  lemma EarlierOccurrence(base: string, q: string, n: string, t: string, i: nat)
    requires EmptyOrSlashEnded(base) && EmptyOrSlashEnded(q) && SlashFree(n) && SlashFree(t)
    requires OccursAt(base + (q + n), q + n, i) && i < |base|
    ensures var h := base + (q + n);
            LastComponent(h[..i] + (q + t) + h[i + |q + n|..]) == n
  {
    Around(base + (q + n), q + n, i);
    SlashEnded(base, q);
    hide OccursAt, LastComponent, EmptyOrSlashEnded;
    var h := base + (q + n);
    var u, w := h[..i], h[i + |q + n|..];
    Regrouped(base, q, n);
    LastAfter(base + q, n);
    if SlashFree(w) {
      LongLast(u, q, n, w);
    }
    LastOfTail(u + (q + n), w);
    LastOfTail(u + (q + t), w);
  }

  lemma SlashEnded(a: string, b: string)
    requires EmptyOrSlashEnded(a) && EmptyOrSlashEnded(b)
    ensures EmptyOrSlashEnded(a + b)
  {
  }

  lemma EarlierDiffers(base: string, q: string, n: string, t: string, i: nat)
    requires EmptyOrSlashEnded(base) && EmptyOrSlashEnded(q) && SlashFree(n) && SlashFree(t) && n != t
    requires OccursAt(base + (q + n), q + n, i) && i < |base|
    ensures var h := base + (q + n);
            h[..i] + (q + t) + h[i + |q + n|..] != base + (q + t)
  {
    SlashEnded(base, q);
    hide OccursAt, LastComponent, SlashFree, EmptyOrSlashEnded;
    EarlierOccurrence(base, q, n, t, i);
    Regrouped(base, q, t);
    LastAfter(base + q, t);
  }

  /** The same for the relative path inside the full path. */
  lemma PathReplacedIff(base: string, q: string, n: string, t: string)
    requires EmptyOrSlashEnded(base) && EmptyOrSlashEnded(q) && SlashFree(n) && SlashFree(t)
    ensures StrReplace(base + (q + n), q + n, q + t) == base + (q + t) <==>
            n == t || FirstAtEnd(base + (q + n), q + n)
  {
    var rel, rel' := q + n, q + t;
    var h := base + rel;
    assert h[|base|..|base| + |rel|] == rel;
    assert OccursAt(h, rel, |base|);
    var i := FirstIndex(h, rel, 0).value;
    if n == t {
      ReplaceSame(h, rel);
    } else if i == |base| {
      ReplaceEnd(h, rel, rel');
      assert h[..|h| - |rel|] == base;
    } else {
      EarlierDiffers(base, q, n, t, i);
    }
  }
}
