/** Absolute '/'-separated path strings, as the plugin builds them by string
    concatenation (`$dir . '/' . $name`). */
module Paths {

  /** `p` lies strictly inside directory `d`. */
  predicate Under(p: string, d: string) {
    d + "/" <= p
  }

  /** `p` is `d` itself or lies inside it. */
  predicate AtOrUnder(p: string, d: string) {
    p == d || Under(p, d)
  }

  /** A path segment that the filesystem would read as "." or "..". */
  predicate DotSegment(r: string) {
    r == "." || r == ".." || "./" <= r || "../" <= r
  }

  /** A canonical absolute path: starts with '/', has no empty, "." or ".."
      segment and no trailing '/'. The filesystem root itself is implicit. */
  predicate Canonical(p: string) {
    && |p| >= 2 && p[0] == '/' && p[|p| - 1] != '/'
    && (forall i :: 0 <= i < |p| - 1 && p[i] == '/' ==> p[i + 1] != '/' && !DotSegment(p[i + 1..]))
  }

  /** A name `readdir` can return for a real entry: not empty, no '/', not "." or "..". */
  predicate Plain(name: string) {
    name != "" && '/' !in name && name != "." && name != ".."
  }

  /** `c` is an immediate child of directory `d`. */
  predicate ChildOf(c: string, d: string) {
    Under(c, d) && |c| > |d| + 1 && '/' !in c[|d| + 1..]
  }

  /** The first index at or after `k` holding '/', or `|q|` when there is none. */
  function NextSlash(q: string, k: nat): (j: nat)
    requires k <= |q|
    ensures k <= j <= |q|
    ensures j < |q| ==> q[j] == '/'
    ensures forall i :: k <= i < j ==> q[i] != '/'
    decreases |q| - k
  {
    if k == |q| || q[k] == '/' then k else NextSlash(q, k + 1)
  }

  /** The child of `d` through which `q` is reached. */
  function StepToward(q: string, d: string): (c: string)
    requires Under(q, d)
  {
    q[..NextSlash(q, |d| + 1)]
  }

  /** The strict '/'-prefixes of `p`, i.e. its ancestor directories (the root excluded). */
  function Ancestors(p: string): (s: set<string>)
    ensures forall i :: 0 < i < |p| && p[i] == '/' ==> p[..i] in s
    ensures forall a :: a in s ==> Under(p, a)
  {
    set i | 0 < i < |p| && p[i] == '/' :: p[..i]
  }

  lemma UnderTrans(x: string, c: string, d: string)
    requires Under(x, c) && Under(c, d)
    ensures Under(x, d)
  {
    assert (d + "/") <= c;
    assert c <= x;
  }

  lemma UnderNotSelf(p: string, d: string)
    requires Under(p, d)
    ensures p != d && |p| > |d|
  {
  }

  /** An ancestor of an ancestor is an ancestor. */
  lemma AncestorsOfAncestor(p: string, a: string)
    requires a in Ancestors(p)
    ensures Ancestors(a) <= Ancestors(p)
  {
    forall b | b in Ancestors(a) ensures b in Ancestors(p) {
      var i :| 0 < i < |a| && a[i] == '/' && b == a[..i];
      var j :| 0 < j < |p| && p[j] == '/' && a == p[..j];
      assert p[i] == '/' && b == p[..i];
    }
  }

  /** The ancestors of a canonical path are canonical. */
  lemma AncestorCanonical(p: string, i: nat)
    requires Canonical(p) && 0 < i < |p| && p[i] == '/'
    ensures Canonical(p[..i])
  {
    var a := p[..i];
    assert a[|a| - 1] != '/' by {
      assert p[i - 1] != '/';
    }
    forall j | 0 <= j < |a| - 1 && a[j] == '/'
      ensures a[j + 1] != '/' && !DotSegment(a[j + 1..])
    {
      assert p[j] == '/';
      var r, s := a[j + 1..], p[j + 1..];
      assert s == r + p[i..];
      assert p[i..][0] == '/';
    }
  }

  /** A plain name appended to a canonical directory gives a canonical child. */
  lemma ChildPath(d: string, name: string)
    requires Canonical(d) && Plain(name)
    ensures Canonical(d + "/" + name)
    ensures ChildOf(d + "/" + name, d)
    ensures (d + "/" + name)[|d| + 1..] == name
    ensures Ancestors(d + "/" + name) == Ancestors(d) + {d}
  {
    ChildPathCanonical(d, name);
    ChildPathAncestors(d, name);
    var p := d + "/" + name;
    assert p[|d| + 1..] == name;
  }

  lemma ChildPathCanonical(d: string, name: string)
    requires Canonical(d) && Plain(name)
    ensures Canonical(d + "/" + name)
  {
    var p := d + "/" + name;
    assert p[|p| - 1] == name[|name| - 1];
    assert forall k :: 0 <= k < |d| ==> p[k] == d[k];
    assert forall k :: |d| < k < |p| ==> p[k] == name[k - |d| - 1];
    forall i | 0 <= i < |p| - 1 && p[i] == '/'
      ensures p[i + 1] != '/' && !DotSegment(p[i + 1..])
    {
      if i < |d| - 1 {
        assert d[i] == '/';
        ChildPathSegment(d, name, i);
      } else if i == |d| {
        assert p[i + 1..] == name;
        PlainNotDot(name);
      }
    }
  }

  lemma PlainNotDot(name: string)
    requires Plain(name)
    ensures name[0] != '/' && !DotSegment(name)
  {
    PrefixCharsIn("./", name);
    PrefixCharsIn("../", name);
    assert "./"[1] == '/' && "../"[2] == '/';
  }

  lemma PrefixCharsIn(pre: string, s: string)
    ensures pre <= s ==> forall k :: 0 <= k < |pre| ==> pre[k] in s
  {
    if pre <= s {
      forall k | 0 <= k < |pre| ensures pre[k] in s {
        assert s[k] == pre[k];
      }
    }
  }

  lemma ChildPathSegment(d: string, name: string, i: nat)
    requires Canonical(d) && Plain(name)
    requires i < |d| - 1 && d[i] == '/'
    ensures (d + "/" + name)[i + 1] != '/'
    ensures !DotSegment((d + "/" + name)[i + 1..])
  {
    var p := d + "/" + name;
    var s, r := p[i + 1..], d[i + 1..];
    assert s == r + "/" + name;
    assert !DotSegment(r);
    assert |r| >= 1 && r[0] != '/';
    if |r| == 1 {
      assert r[0] != '.';
    } else {
      assert s[..2] == r[..2];
      if |r| > 2 { assert s[..3] == r[..3]; }
    }
  }

  /** No '/' follows the separator in `d + "/" + name`. */
  lemma ChildSlashes(d: string, name: string)
    requires Plain(name)
    ensures forall i :: |d| < i < |d + "/" + name| ==> (d + "/" + name)[i] != '/'
  {
    forall i | |d| < i < |d + "/" + name| ensures (d + "/" + name)[i] != '/' {
      assert (d + "/" + name)[i] == name[i - |d| - 1];
    }
  }

  lemma ChildPathAncestors(d: string, name: string)
    requires Canonical(d) && Plain(name)
    ensures Ancestors(d + "/" + name) == Ancestors(d) + {d}
  {
    var p := d + "/" + name;
    ChildSlashes(d, name);
    forall a | a in Ancestors(p) ensures a in Ancestors(d) + {d} {
      var i :| 0 < i < |p| && p[i] == '/' && a == p[..i];
      if i < |d| {
        assert d[i] == '/' && a == d[..i];
      } else if i == |d| {
        assert a == d;
      }
    }
    forall a | a in Ancestors(d) + {d} ensures a in Ancestors(p) {
      if a == d {
        assert p[|d|] == '/' && p[..|d|] == d;
      } else {
        var i :| 0 < i < |d| && d[i] == '/' && a == d[..i];
        assert p[i] == '/' && p[..i] == a;
      }
    }
  }

  /** The first step from `d` towards a canonical `q` inside it is a child of `d`
      that is `q` itself or an ancestor of `q`. */
  lemma StepTowardIsChild(q: string, d: string)
    requires Canonical(q) && Under(q, d)
    ensures ChildOf(StepToward(q, d), d)
    ensures AtOrUnder(q, StepToward(q, d))
    ensures StepToward(q, d) == q || StepToward(q, d) in Ancestors(q)
  {
    assert q[|d|] == '/';
    assert |q| > |d| + 1;
    assert q[|d| + 1] != '/';
    var j := NextSlash(q, |d| + 1);
    var c := q[..j];
    assert j > |d| + 1;
    assert c[..|d| + 1] == q[..|d| + 1];
    assert Under(c, d);
    assert forall i :: |d| + 1 <= i < j ==> c[i] != '/';
    var tail := c[|d| + 1..];
    assert '/' !in tail by {
      forall k | 0 <= k < |tail| ensures tail[k] != '/' {
        assert tail[k] == c[|d| + 1 + k];
      }
    }
    if j < |q| {
      assert q[..j + 1] == c + "/";
      assert Under(q, c);
    } else {
      assert c == q;
    }
  }

  /** `NextSlash` is characterised by its three postconditions. */
  lemma {:induction false} NextSlashIs(q: string, k: nat, j: nat)
    requires k <= j <= |q|
    requires j == |q| || q[j] == '/'
    requires forall i :: k <= i < j ==> q[i] != '/'
    ensures NextSlash(q, k) == j
    decreases j - k
  {
    if k < j {
      NextSlashIs(q, k + 1, j);
    }
  }

  /** A child of `d` on the way to `x` is the first step from `d` towards `x`. */
  lemma ChildIsStep(x: string, c: string, d: string)
    requires ChildOf(c, d) && AtOrUnder(x, c)
    ensures Under(x, d) && c == StepToward(x, d)
  {
    UnderChild(x, c, d);
    assert c <= x;
    var tail := c[|d| + 1..];
    forall i | |d| + 1 <= i < |c| ensures x[i] != '/' {
      assert x[i] == tail[i - |d| - 1];
    }
    NextSlashIs(x, |d| + 1, |c|);
  }

  /** Two children of `d` on the way to the same path are the same child. */
  lemma ChildUnique(x: string, c1: string, c2: string, d: string)
    requires ChildOf(c1, d) && ChildOf(c2, d)
    requires AtOrUnder(x, c1) && AtOrUnder(x, c2)
    ensures c1 == c2
  {
    ChildIsStep(x, c1, d);
    ChildIsStep(x, c2, d);
  }

  /** Paths inside a child of `d` are inside `d`. */
  lemma UnderChild(x: string, c: string, d: string)
    requires ChildOf(c, d) && AtOrUnder(x, c)
    ensures Under(x, d)
  {
    if x != c { UnderTrans(x, c, d); }
  }

  /** `p`, inside `from`, moved to the same place inside `to`. */
  function Rebase(p: string, from: string, to: string): (r: string)
    requires Under(p, from)
    ensures Under(r, to) && |r| - |to| == |p| - |from|
  {
    to + p[|from|..]
  }

  /** Moving there and back is the identity. */
  lemma RebaseBack(p: string, from: string, to: string)
    requires Under(p, from)
    ensures Rebase(Rebase(p, from, to), to, from) == p
  {
    var r := Rebase(p, from, to);
    assert r[|to|..] == p[|from|..];
    assert p == from + p[|from|..];
  }

  /** A common prefix can be cancelled on both sides of `<=` and `==`. */
  lemma PrefixCancel(x: string, y: string, t: string)
    ensures (x + y <= x + t) == (y <= t)
    ensures (x + y == x + t) == (y == t)
  {
    if x + y <= x + t {
      assert y == (x + t)[|x|..|x| + |y|];
    }
    if y <= t {
      assert x + t == (x + y) + t[|y|..];
    }
    if x + y == x + t {
      assert y == (x + t)[|x|..];
    }
  }

  /** Rebasing keeps a path at or inside the corresponding child. */
  lemma RebaseChild(p: string, from: string, to: string, name: string)
    requires Under(p, from)
    ensures AtOrUnder(p, from + "/" + name) == AtOrUnder(Rebase(p, from, to), to + "/" + name)
    ensures Rebase(from + "/" + name, from, to) == to + "/" + name
  {
    var t := p[|from|..];
    var r := Rebase(p, from, to);
    assert p == from + t;
    assert from + "/" + name == from + ("/" + name);
    assert from + "/" + name + "/" == from + ("/" + name + "/");
    assert to + "/" + name == to + ("/" + name);
    assert to + "/" + name + "/" == to + ("/" + name + "/");
    PrefixCancel(from, "/" + name, t);
    PrefixCancel(from, "/" + name + "/", t);
    PrefixCancel(to, "/" + name, t);
    PrefixCancel(to, "/" + name + "/", t);
    assert (from + "/" + name)[|from|..] == "/" + name;
  }

  /** Rebasing from a child to the corresponding child is rebasing from the parent. */
  lemma RebaseThroughChild(p: string, from: string, to: string, name: string)
    requires Under(p, from + "/" + name)
    ensures Under(p, from)
    ensures Rebase(p, from + "/" + name, to + "/" + name) == Rebase(p, from, to)
  {
    var c := from + "/" + name;
    assert from + "/" <= c;
    assert c <= p;
    assert p[|from|..] == "/" + name + p[|c|..];
    assert to + "/" + name + p[|c|..] == to + ("/" + name + p[|c|..]);
  }

  /** Two directories on the way to the same path are nested or equal. */
  lemma AncestorsLinear(t: string, a: string, b: string)
    requires Under(t, a) && Under(t, b)
    ensures a == b || Under(a, b) || Under(b, a)
  {
    if |a| < |b| {
      assert (a + "/") == t[..|a| + 1] == b[..|a| + 1];
    } else if |b| < |a| {
      assert (b + "/") == t[..|b| + 1] == a[..|b| + 1];
    } else {
      assert a == t[..|a|] == b;
    }
  }

  /** The name under which `readdir` lists a child, and how the child's path is rebuilt from it. */
  lemma ChildName(c: string, d: string)
    requires Canonical(c) && ChildOf(c, d)
    ensures Plain(c[|d| + 1..]) && c == d + "/" + c[|d| + 1..]
  {
    var name := c[|d| + 1..];
    assert c[|d|] == '/';
    assert !DotSegment(name);
    assert c == c[..|d| + 1] + name;
  }
}
