/** Copying a file or a directory inside the jail (internal/filemanager/archive.go, CopyEntry and
    copyRec). Existing directories are merged into, existing files stop the copy. */
module Copy {
  import opened Common
  import opened Paths
  import opened FileTree

  ghost predicate Apart(a: Path, b: Path) { !(a <= b) && !(b <= a) }

  /** Where the copy of `p` goes. */
  function To(src: Path, dest: Path, p: Path): Path
    requires src <= p
  {
    dest + p[|src|..]
  }

  /** Where the copy at `q` comes from. */
  function From(src: Path, dest: Path, q: Path): Path
    requires dest <= q
  {
    src + q[|dest|..]
  }

  /** `u` is `t` with some copies added: nothing is changed or removed, and everything new lies in the
      destination and equals its original. */
  ghost predicate Extends(t: Tree, u: Tree, src: Path, dest: Path) {
    && (forall q | q in t :: q in u && u[q] == t[q])
    && (forall q | q in u && q !in t :: dest <= q && From(src, dest, q) in Real(t, src) && u[q] == t[From(src, dest, q)])
  }

  ghost predicate Complete(t: Tree, u: Tree, src: Path, dest: Path) {
    forall p | p in Real(t, src) :: To(src, dest, p) in u
  }

  /** Nothing stands in the way of the copy of `p`: a file's name is free, and what its parent is copied
      to is not something other than a directory. */
  ghost predicate ClearAt(t: Tree, src: Path, dest: Path, p: Path)
    requires src <= p && p in t
  {
    && (t[p].File? ==> To(src, dest, p) !in t)
    && (p != src ==> var d := To(src, dest, Parent(p)); d in t ==> t[d].Dir?)
  }

  ghost predicate Clear(t: Tree, src: Path, dest: Path)
    requires src in t && dest != []
  {
    t[src].Link? || (IsDir(t, Parent(dest)) && forall p | p in Real(t, src) :: ClearAt(t, src, dest, p))
  }

  // ---- One child of a directory ----

  /** The copy has reached the children in `done`. */
  ghost predicate Reached(t: Tree, u: Tree, src: Path, dest: Path, done: set<Path>) {
    && Wf(u) && Extends(t, u, src, dest) && dest in u
    && (forall q | q in u && q !in t && q != dest :: From(src, dest, q)[..|src| + 1] in done)
    && (forall p | p in Real(t, src) && (p == src || p[..|src| + 1] in done) :: To(src, dest, p) in u && ClearAt(t, src, dest, p))
  }

  function Child(src: Path, dest: Path, c: Path): Path
    requires |c| == |src| + 1
  {
    dest + [c[|src|]]
  }

  lemma SourceStays(t: Tree, u: Tree, src: Path, dest: Path)
    requires Extends(t, u, src, dest) && Apart(src, dest)
    ensures forall p | src <= p :: p in u <==> p in t
    ensures Real(u, src) == Real(t, src) && AtOrBelow(u, src) == AtOrBelow(t, src)
  {
    forall p | src <= p && p in u ensures p in t {
      if p !in t { BothPrefixes(src, dest, p); }
    }
  }

  lemma BothPrefixes(a: Path, b: Path, p: Path)
    requires a <= p && b <= p
    ensures a <= b || b <= a
  {
    if |a| <= |b| { assert a == p[..|a|] == b[..|a|]; } else { assert b == p[..|b|] == a[..|b|]; }
  }

  lemma SameCopy(src: Path, dest: Path, c: Path, p: Path)
    requires src <= c && |c| == |src| + 1 && c <= p
    ensures To(c, Child(src, dest, c), p) == To(src, dest, p)
    ensures p[..|src| + 1] == c
  {
    assert p[|src|..] == [c[|src|]] + p[|c|..];
  }

  lemma SameSource(src: Path, dest: Path, c: Path, q: Path)
    requires src <= c && |c| == |src| + 1 && Child(src, dest, c) <= q
    ensures dest <= q && q != dest
    ensures From(c, Child(src, dest, c), q) == From(src, dest, q)
    ensures From(src, dest, q)[..|src| + 1] == c
  {
    var d := Child(src, dest, c);
    assert q[|dest|..] == [c[|src|]] + q[|d|..];
    assert c == src + [c[|src|]];
  }

  /** Below the copy of a child not yet reached, nothing has changed. */
  lemma Untouched(t: Tree, u: Tree, src: Path, dest: Path, done: set<Path>, c: Path, q: Path)
    requires Reached(t, u, src, dest, done) && src <= c && |c| == |src| + 1 && c !in done
    requires Child(src, dest, c) <= q
    ensures q in u <==> q in t
  {
    SameSource(src, dest, c, q);
  }

  /** The directory copied to is there, unless something else already had its name. */
  lemma DestIsDir(t: Tree, u: Tree, src: Path, dest: Path, done: set<Path>)
    requires Reached(t, u, src, dest, done) && IsDir(t, src)
    ensures IsDir(u, dest) <==> (dest in t ==> t[dest].Dir?)
  {
    if dest !in t { assert From(src, dest, dest) == src; }
  }

  lemma SameClear(t: Tree, u: Tree, src: Path, dest: Path, done: set<Path>, c: Path, p: Path)
    requires Reached(t, u, src, dest, done) && Apart(src, dest) && IsDir(t, src)
    requires c in Children(t, src) && c !in done && p in Real(t, c)
    ensures p in u && (ClearAt(t, src, dest, p) <==> ClearAt(u, c, Child(src, dest, c), p) && (p == c ==> IsDir(u, dest)))
  {
    var d := Child(src, dest, c);
    SameCopy(src, dest, c, p);
    Untouched(t, u, src, dest, done, c, To(src, dest, p));
    if p == c {
      DestIsDir(t, u, src, dest, done);
      assert To(src, dest, Parent(c)) == dest;
    } else {
      assert c <= Parent(p);
      SameCopy(src, dest, c, Parent(p));
      Untouched(t, u, src, dest, done, c, To(src, dest, Parent(p)));
    }
  }

  lemma LinkHasNothing(t: Tree, c: Path)
    requires Wf(t) && c in t && t[c].Link?
    ensures Real(t, c) == {}
  {
    OnlyItself(t, c);
  }

  lemma ChildClear(t: Tree, u: Tree, src: Path, dest: Path, done: set<Path>, c: Path)
    requires Wf(t) && Reached(t, u, src, dest, done) && Apart(src, dest) && IsDir(t, src)
    requires c in Children(t, src) && c !in done
    ensures c in u && u[c] == t[c] && Real(u, c) == Real(t, c)
    ensures Clear(u, c, Child(src, dest, c)) <==> forall p | p in Real(t, c) :: ClearAt(t, src, dest, p)
  {
    SourceStays(t, u, src, dest);
    forall p | p in Real(t, c)
      ensures ClearAt(t, src, dest, p) <==> ClearAt(u, c, Child(src, dest, c), p) && (p == c ==> IsDir(u, dest))
    {
      SameClear(t, u, src, dest, done, c, p);
    }
    assert Parent(Child(src, dest, c)) == dest;
    if t[c].Link? { LinkHasNothing(t, c); } else { assert c in Real(t, c); }
  }

  lemma ChildApart(src: Path, dest: Path, c: Path)
    requires Apart(src, dest) && src <= c && |c| == |src| + 1
    ensures Apart(c, Child(src, dest, c))
  {
    var d := Child(src, dest, c);
    if c <= d { BothPrefixes(src, dest, d); }
    if d <= c { BothPrefixes(src, dest, c); }
  }

  /** After one more child. */
  lemma ReachedNext(t: Tree, u: Tree, v: Tree, src: Path, dest: Path, done: set<Path>, c: Path)
    requires Wf(t) && Wf(v) && Reached(t, u, src, dest, done) && Apart(src, dest) && IsDir(t, src)
    requires c in Children(t, src) && c !in done && c in u
    requires Extends(u, v, c, Child(src, dest, c)) && Complete(u, v, c, Child(src, dest, c)) && Clear(u, c, Child(src, dest, c))
    ensures Reached(t, v, src, dest, done + {c})
  {
    var d := Child(src, dest, c);
    ChildClear(t, u, src, dest, done, c);
    ExtendsOn(t, u, v, src, dest, done, c);
    forall q | q in v && q !in t && q != dest ensures From(src, dest, q)[..|src| + 1] in done + {c} {
      if q !in u { SameSource(src, dest, c, q); }
    }
    forall p | p in Real(t, src) && (p == src || p[..|src| + 1] in done + {c}) ensures To(src, dest, p) in v && ClearAt(t, src, dest, p) {
      if p != src && p[..|src| + 1] == c {
        SameCopy(src, dest, c, p);
        assert p in Real(u, c);
      }
    }
  }

  lemma ExtendsOn(t: Tree, u: Tree, v: Tree, src: Path, dest: Path, done: set<Path>, c: Path)
    requires Wf(t) && Reached(t, u, src, dest, done) && Apart(src, dest) && IsDir(t, src)
    requires c in Children(t, src) && c !in done && c in u
    requires Extends(u, v, c, Child(src, dest, c))
    ensures Extends(t, v, src, dest)
  {
    ChildClear(t, u, src, dest, done, c);
    SourceStays(t, u, src, dest);
    forall q | q in v && q !in t ensures dest <= q && From(src, dest, q) in Real(t, src) && v[q] == t[From(src, dest, q)] {
      if q !in u { SameSource(src, dest, c, q); }
    }
  }

  // ---- The copy ----

  lemma FileCopied(t: Tree, src: Path, dest: Path)
    requires Wf(t) && src in t && t[src].File? && dest != [] && dest !in t && IsDir(t, Parent(dest))
    ensures var u := t[dest := t[src]]; Wf(u) && Extends(t, u, src, dest) && Complete(t, u, src, dest) && Clear(t, src, dest)
  {
    NewNodeWf(t, dest, t[src]);
    OnlyItself(t, src);
    assert From(src, dest, dest) == src && To(src, dest, src) == dest;
  }

  lemma DirStarted(t: Tree, u: Tree, src: Path, dest: Path)
    requires Wf(t) && IsDir(t, src) && dest != []
    requires if dest in t then u == t else IsDir(t, Parent(dest)) && u == t[dest := Dir]
    ensures Reached(t, u, src, dest, {})
  {
    if dest !in t { NewNodeWf(t, dest, Dir); }
    assert From(src, dest, dest) == src && To(src, dest, src) == dest;
  }

  lemma DirFinished(t: Tree, u: Tree, src: Path, dest: Path)
    requires Wf(t) && IsDir(t, src) && dest != [] && IsDir(t, Parent(dest)) && Reached(t, u, src, dest, Children(t, src))
    ensures Complete(t, u, src, dest) && Clear(t, src, dest)
  {
    forall p | p in Real(t, src) && p != src ensures p[..|src| + 1] in Children(t, src) {
      if |p| > |src| + 1 { assert IsDir(t, p[..|src| + 1]); } else { assert p[..|src| + 1] == p; }
    }
  }

  lemma ChildStopped(t: Tree, u: Tree, src: Path, dest: Path, done: set<Path>, c: Path)
    requires Wf(t) && Reached(t, u, src, dest, done) && Apart(src, dest) && IsDir(t, src) && dest != []
    requires c in Children(t, src) && c !in done && c in u && !Clear(u, c, Child(src, dest, c))
    ensures !Clear(t, src, dest)
  {
    ChildClear(t, u, src, dest, done, c);
    var p :| p in Real(t, c) && !ClearAt(t, src, dest, p);
    assert p in Real(t, src);
  }

  // ---- Copying in any position ----

  /** Nothing that was there is changed, and what is new lies at or below `dest`, no deeper than `bound`. */
  ghost predicate Adds(t: Tree, u: Tree, dest: Path, bound: int) {
    && (forall q | q in t :: q in u && u[q] == t[q])
    && (forall q | q in u && q !in t :: dest <= q && |q| <= bound && !u[q].Link?)
  }

  ghost predicate Shallow(t: Tree, src: Path, depth: nat) { forall p | p in t && src <= p :: |p| <= depth }

  /** The destination is not inside the source: apart from it, or above it. */
  ghost predicate Outside(src: Path, dest: Path) { Apart(src, dest) || dest < src }

  lemma ChildOutside(src: Path, dest: Path, c: Path)
    requires Outside(src, dest) && src <= c && |c| == |src| + 1
    ensures Outside(c, Child(src, dest, c)) && (Apart(src, dest) ==> Apart(c, Child(src, dest, c)))
  {
    if Apart(src, dest) { ChildApart(src, dest, c); }
  }

  /** New nodes do not make the part of the source still to be read any deeper. */
  lemma StaysShallow(t: Tree, u: Tree, src: Path, dest: Path, depth: nat)
    requires Shallow(t, src, depth) && Adds(t, u, dest, |dest| + depth - |src|) && Outside(src, dest)
    ensures Shallow(u, src, depth)
  {
    forall p | p in u && src <= p ensures |p| <= depth {
      if p !in t && Apart(src, dest) { BothPrefixes(src, dest, p); }
    }
  }

  lemma StaysLinkFree(t: Tree, u: Tree, dest: Path, d: Path, bound: int)
    requires NoLinkAt(t, dest) && Adds(t, u, dest, bound) && dest <= d
    ensures NoLinkAt(u, d)
  {
    forall q | q in u && (q <= d || d <= q) ensures !u[q].Link? {
      assert q <= dest || dest <= q by { if q <= d { BothPrefixes(q, dest, d); } }
    }
  }

  lemma AddsOn(t: Tree, u: Tree, v: Tree, dest: Path, d: Path, bound: int)
    requires Adds(t, u, dest, bound) && Adds(u, v, d, bound) && dest <= d
    ensures Adds(t, v, dest, bound)
  {
  }

  /** Copy `src` to `dest`, a directory's children in any order. Whatever happens it ends and nothing that
      was there is changed or removed. With source and destination apart it succeeds exactly when nothing
      is in the way. */
  method CopyRec(fs: FileSystem, src: Path, dest: Path, ghost depth: nat) returns (ok: bool)
    requires Wf(fs.tree) && src in fs.tree && dest != [] && Outside(src, dest) && Shallow(fs.tree, src, depth)
    requires NoLinkAt(fs.tree, dest)
    modifies fs
    ensures Wf(fs.tree) && Adds(old(fs.tree), fs.tree, dest, |dest| + depth - |src|)
    ensures Apart(src, dest) ==>
      && Extends(old(fs.tree), fs.tree, src, dest)
      && (ok <==> Clear(old(fs.tree), src, dest))
      && (ok ==> Complete(old(fs.tree), fs.tree, src, dest))
    decreases depth - |src|, 2
  {
    ghost var t := fs.tree;
    if fs.tree[src].Link? {
      LinkHasNothing(t, src);
      return true;
    }
    NoLinkBelow(t, dest, Parent(dest));
    if fs.tree[src].File? {
      ok := CopyFile(fs, src, dest);
      return;
    }
    var made := fs.Mkdir(dest);
    if made == Refused { return false; }
    DirStarted(t, fs.tree, src, dest);
    StaysShallow(t, fs.tree, src, dest, depth);
    if Apart(src, dest) { SourceStays(t, fs.tree, src, dest); }
    assert dest in t ==> IsDir(t, dest[..|dest| - 1]);
    ok := CopyChildren(fs, t, src, dest, depth);
  }

  /** Where the loop over a directory's children stands. */
  ghost predicate Going(t: Tree, u: Tree, src: Path, dest: Path, depth: nat, done: set<Path>) {
    && Wf(u) && Adds(t, u, dest, |dest| + depth - |src|)
    && (Apart(src, dest) ==> Reached(t, u, src, dest, done))
  }

  /** What the loop leaves when a child could not be copied. */
  ghost predicate Stopped(t: Tree, u: Tree, src: Path, dest: Path, depth: nat) {
    && Wf(u) && Adds(t, u, dest, |dest| + depth - |src|)
    && (Apart(src, dest) && src in t && dest != [] ==> Extends(t, u, src, dest) && !Clear(t, src, dest))
  }

  method CopyChildren(fs: FileSystem, ghost t: Tree, src: Path, dest: Path, ghost depth: nat) returns (ok: bool)
    requires Wf(t) && IsDir(t, src) && dest != [] && IsDir(t, Parent(dest)) && Outside(src, dest)
    requires Going(t, fs.tree, src, dest, depth, {}) && Shallow(t, src, depth) && src in fs.tree
    requires Apart(src, dest) ==> AtOrBelow(fs.tree, src) == AtOrBelow(t, src)
    requires NoLinkAt(t, dest)
    modifies fs
    ensures Wf(fs.tree) && Adds(t, fs.tree, dest, |dest| + depth - |src|)
    ensures Apart(src, dest) ==>
      && Extends(t, fs.tree, src, dest)
      && (ok <==> Clear(t, src, dest))
      && (ok ==> Complete(t, fs.tree, src, dest))
    decreases depth - |src|, 1
  {
    var children := Children(fs.tree, src);
    if Apart(src, dest) { SameChildren(fs.tree, t, src); }
    var left := children;
    while left != {}
      invariant left <= children && children <= Children(fs.tree, src)
      invariant Going(t, fs.tree, src, dest, depth, children - left)
      decreases |left|
    {
      var c := Pick(left);
      ok := CopyChild(fs, t, src, dest, depth, children - left, c);
      if !ok { return; }
      assert children - left + {c} == children - (left - {c});
      left := left - {c};
    }
    assert children - left == children;
    if Apart(src, dest) { DirFinished(t, fs.tree, src, dest); }
    return true;
  }

  method CopyChild(fs: FileSystem, ghost t: Tree, src: Path, dest: Path, ghost depth: nat, ghost done: set<Path>, c: Path)
    returns (ok: bool)
    requires Wf(t) && IsDir(t, src) && dest != [] && Outside(src, dest) && Shallow(t, src, depth)
    requires Going(t, fs.tree, src, dest, depth, done) && c in Children(fs.tree, src) && c !in done
    requires NoLinkAt(t, dest) && (Apart(src, dest) ==> c in Children(t, src))
    modifies fs
    ensures if ok then Going(t, fs.tree, src, dest, depth, done + {c}) else Stopped(t, fs.tree, src, dest, depth)
    ensures Children(old(fs.tree), src) <= Children(fs.tree, src)
    decreases depth - |src|, 0
  {
    ghost var u := fs.tree;
    var d := dest + [c[|src|]];
    ChildOutside(src, dest, c);
    StaysShallow(t, u, src, dest, depth);
    StaysLinkFree(t, u, dest, d, |dest| + depth - |src|);
    ok := CopyRec(fs, c, d, depth);
    AddsOn(t, u, fs.tree, dest, d, |dest| + depth - |src|);
    if Apart(src, dest) {
      if ok {
        ReachedNext(t, u, fs.tree, src, dest, done, c);
      } else {
        ChildStopped(t, u, src, dest, done, c);
        ExtendsOn(t, u, fs.tree, src, dest, done, c);
      }
    }
  }

  lemma SameChildren(u: Tree, t: Tree, src: Path)
    requires AtOrBelow(u, src) == AtOrBelow(t, src)
    ensures Children(u, src) == Children(t, src)
  {
    forall p ensures p in Children(u, src) <==> p in AtOrBelow(u, src) && |p| == |src| + 1 {}
    forall p ensures p in Children(t, src) <==> p in AtOrBelow(t, src) && |p| == |src| + 1 {}
  }

  method CopyFile(fs: FileSystem, src: Path, dest: Path) returns (ok: bool)
    requires Wf(fs.tree) && src in fs.tree && fs.tree[src].File? && dest != [] && NoLinkTo(fs.tree, Parent(dest))
    modifies fs
    ensures Wf(fs.tree) && Extends(old(fs.tree), fs.tree, src, dest)
    ensures ok <==> Clear(old(fs.tree), src, dest)
    ensures ok ==> Complete(old(fs.tree), fs.tree, src, dest)
  {
    ghost var t := fs.tree;
    ok := fs.OpenExclusive(dest);
    if !ok {
      assert src in Real(t, src) && To(src, dest, src) == dest;
      return;
    }
    NoLinkOpened(t, dest);
    fs.Append(dest, fs.tree[src].data);
    assert fs.tree[dest].data == "" + t[src].data == t[src].data;
    assert fs.tree == t[dest := t[src]];
    FileCopied(t, src, dest);
  }

  datatype Outcome = Copied | OutsideJail | IntoItself | NotFound | Failed

  lemma Depth(s: set<Path>) returns (d: nat)
    ensures forall p | p in s :: |p| <= d
    decreases |s|
  {
    d := 0;
    if s != {} {
      var p :| p in s;
      d := Depth(s - {p});
      d := if |p| > d then |p| else d;
    }
  }

  /** The source, the way to it and everything at the destination are free of symbolic links. */
  ghost predicate LinkFree(t: Tree, src: Path, dest: Path) { NoLinkTo(t, src) && NoLinkAt(t, dest) }

  /** The request as the panel makes it. What happens through a symbolic link is not modelled. A destination
      above the source is merged into, without damage to what is there. */
  method CopyEntry(fs: FileSystem, srcRel: string, destRel: string) returns (r: Outcome)
    requires Wf(fs.tree)
    modifies fs
    ensures var src, dest, t := Norm(srcRel), Norm(destRel), old(fs.tree);
            && (r == OutsideJail <==> src == [] || dest == [])
            && (r == IntoItself <==> src != [] && dest != [] && src <= dest)
            && (r == OutsideJail || r == IntoItself ==> fs.tree == t)
    ensures var src, dest, t := Norm(srcRel), Norm(destRel), old(fs.tree);
            LinkFree(t, src, dest) && r != OutsideJail && r != IntoItself ==>
              && (r == NotFound <==> src !in t)
              && (r == NotFound ==> fs.tree == t)
              && Wf(fs.tree) && (forall q | q in t :: q in fs.tree && fs.tree[q] == t[q])
              && (forall q | q in fs.tree && q !in t :: dest <= q)
    ensures var src, dest, t := Norm(srcRel), Norm(destRel), old(fs.tree);
            LinkFree(t, src, dest) && Apart(src, dest) && src in t ==>
              && (r == Copied <==> Clear(t, src, dest))
              && Extends(t, fs.tree, src, dest)
              && (r == Copied ==> Complete(t, fs.tree, src, dest))
  {
    var src, dest := Norm(srcRel), Norm(destRel);
    if src == [] || dest == [] { return OutsideJail; }
    if src <= dest { return IntoItself; }
    if !NoLinkTo(fs.tree, src) || exists q :: q in fs.tree && (q <= dest || dest <= q) && fs.tree[q].Link? {
      var ok := fs.Through();
      var found: bool := *;
      return if !found then NotFound else if ok then Copied else Failed;
    }
    if src !in fs.tree { return NotFound; }
    ghost var depth := Depth(fs.tree.Keys);
    var ok := CopyRec(fs, src, dest, depth);
    return if ok then Copied else Failed;
  }

  /** Onto a fresh name in a directory nothing is in the way, and the destination then holds exactly the
      source without its links; the source and everything else is as before. */
  lemma FreshCopy(t: Tree, u: Tree, src: Path, dest: Path)
    requires Wf(t) && src in t && !t[src].Link? && dest != [] && Apart(src, dest)
    requires dest !in t && IsDir(t, Parent(dest))
    ensures Clear(t, src, dest)
    ensures Extends(t, u, src, dest) && Complete(t, u, src, dest) ==>
      && (forall q | !(dest <= q) :: q in u <==> q in t)
      && (forall q | q in t :: u[q] == t[q])
      && (forall q | dest <= q :: q in u <==> From(src, dest, q) in Real(t, src))
      && (forall q | q in u && dest <= q :: u[q] == t[From(src, dest, q)])
  {
    forall q | dest <= q ensures q !in t {
      assert q[..|dest|] == dest;
      if |q| == |dest| { assert q == dest; }
    }
    forall p | p in Real(t, src) ensures ClearAt(t, src, dest, p) {
    }
    if Extends(t, u, src, dest) && Complete(t, u, src, dest) {
      forall q | dest <= q && From(src, dest, q) in Real(t, src) ensures q in u {
        assert To(src, dest, From(src, dest, q)) == q;
      }
    }
  }
}
