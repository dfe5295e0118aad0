/** Archiving selected names of a directory, and getting them back (internal/filemanager/archive.go, Zip
    and zipRec). */
module Zip {
  import opened Common
  import opened Texts
  import opened Paths
  import opened FileTree
  import opened Unzip

  /** The entry for the path `p` of the tree, named relative to `dir`. */
  function EntryOf(t: Tree, dir: Path, p: Path): Entry
    requires dir <= p && p in t && !t[p].Link?
  {
    var name := Join(p[|dir|..], "/");
    if t[p].Dir? then Entry(name + "/", DirEntry, "", true, false) else Entry(name, FileEntry, t[p].data, true, false)
  }

  /** What is archived at and below `src`: everything real but the archive itself. */
  function Subtree(t: Tree, src: Path, skip: Path): set<Path> { Real(t, src) - {skip} }

  /** Entry i stands for the path ps[i]. */
  ghost predicate Packs(entries: seq<Entry>, t: Tree, dir: Path, ps: seq<Path>) {
    |entries| == |ps| && forall i | 0 <= i < |ps| :: dir <= ps[i] && ps[i] in t && !t[ps[i]].Link? && entries[i] == EntryOf(t, dir, ps[i])
  }

  ghost predicate StandsFor(e: Entry, t: Tree, dir: Path, p: Path) {
    dir <= p && p in t && !t[p].Link? && e == EntryOf(t, dir, p)
  }

  ghost predicate HasEntry(entries: seq<Entry>, t: Tree, dir: Path, p: Path) {
    exists i :: 0 <= i < |entries| && StandsFor(entries[i], t, dir, p)
  }

  ghost predicate HasPath(e: Entry, t: Tree, dir: Path, s: set<Path>) {
    exists p :: p in s && StandsFor(e, t, dir, p)
  }

  /** The archive holds an entry for every path of the set, and no other. */
  ghost predicate Contains(entries: seq<Entry>, t: Tree, dir: Path, s: set<Path>) {
    && (forall p | p in s :: HasEntry(entries, t, dir, p))
    && (forall i | 0 <= i < |entries| :: HasPath(entries[i], t, dir, s))
  }

  lemma PackedIsContained(entries: seq<Entry>, t: Tree, dir: Path, ps: seq<Path>, s: set<Path>)
    requires Packs(entries, t, dir, ps) && Covers(ps, s)
    ensures Contains(entries, t, dir, s)
  {
    forall p | p in s ensures HasEntry(entries, t, dir, p) {
      assert p in ps;
      var i :| 0 <= i < |ps| && ps[i] == p;
      assert StandsFor(entries[i], t, dir, p);
    }
    forall i | 0 <= i < |entries| ensures HasPath(entries[i], t, dir, s) {
      assert ps[i] in ps && StandsFor(entries[i], t, dir, ps[i]);
    }
  }

  ghost predicate Covers(ps: seq<Path>, s: set<Path>) { forall p :: p in ps <==> p in s }

  /** The part of the subtree that the listing order has reached: `src` itself and what lies below the
      children in `done`. */
  ghost predicate Reached(t: Tree, src: Path, skip: Path, done: set<Path>, ps: seq<Path>) {
    forall p :: p in ps <==> p in Subtree(t, src, skip) && (p == src || p[..|src| + 1] in done)
  }

  lemma ReachedNext(t: Tree, src: Path, skip: Path, done: set<Path>, ps: seq<Path>, c: Path, more: seq<Path>)
    requires Reached(t, src, skip, done, ps) && c in Children(t, src) && Covers(more, Subtree(t, c, skip))
    ensures Reached(t, src, skip, done + {c}, ps + more)
  {
    forall p ensures p in ps + more <==> p in Subtree(t, src, skip) && (p == src || p[..|src| + 1] in done + {c}) {
      if p in Subtree(t, src, skip) && p != src {
        assert c <= p <==> p[..|src| + 1] == c;
      }
    }
  }

  lemma AllReached(t: Tree, src: Path, skip: Path, ps: seq<Path>)
    requires Wf(t) && Reached(t, src, skip, Children(t, src), ps)
    ensures Covers(ps, Subtree(t, src, skip))
  {
    forall p | p in Subtree(t, src, skip) && p != src ensures p[..|src| + 1] in Children(t, src) {
      if |p| > |src| + 1 { assert IsDir(t, p[..|src| + 1]); } else { assert p[..|src| + 1] == p; }
    }
  }

  lemma PacksMore(a: seq<Entry>, b: seq<Entry>, t: Tree, dir: Path, ps: seq<Path>, qs: seq<Path>)
    requires Packs(a, t, dir, ps) && Packs(b, t, dir, qs)
    ensures Packs(a + b, t, dir, ps + qs)
  {
  }

  /** Add `src` and everything below it to the archive; a directory's entries come in any order. */
  method ZipRec(t: Tree, dir: Path, src: Path, skip: Path) returns (out: seq<Entry>, ghost ps: seq<Path>)
    requires Wf(t) && src in t && dir <= src && (skip in t ==> !t[skip].Dir?)
    ensures Contains(out, t, dir, Subtree(t, src, skip))
    ensures Packs(out, t, dir, ps) && Covers(ps, Subtree(t, src, skip))
    decreases AtOrBelow(t, src), 1
  {
    out, ps := [], [];
    if src == skip || t[src].Link? {
      OnlyItself(t, src);
    } else if t[src].File? {
      out, ps := [EntryOf(t, dir, src)], [src];
      OnlyItself(t, src);
    } else {
      out, ps := ZipDir(t, dir, src, skip);
    }
    PackedIsContained(out, t, dir, ps, Subtree(t, src, skip));
  }

  method ZipDir(t: Tree, dir: Path, src: Path, skip: Path) returns (out: seq<Entry>, ghost ps: seq<Path>)
    requires Wf(t) && IsDir(t, src) && src != skip && dir <= src && (skip in t ==> !t[skip].Dir?)
    ensures Contains(out, t, dir, Subtree(t, src, skip))
    ensures Packs(out, t, dir, ps) && Covers(ps, Subtree(t, src, skip))
    decreases AtOrBelow(t, src), 0
  {
    out, ps := [EntryOf(t, dir, src)], [src];
    var children := Children(t, src);
    var left := children;
    while left != {}
      invariant left <= children && Packs(out, t, dir, ps) && Reached(t, src, skip, children - left, ps)
      decreases |left|
    {
      var c := Pick(left);
      ChildBelow(t, src, c);
      var more, qs := ZipRec(t, dir, c, skip);
      ReachedNext(t, src, skip, children - left, ps, c, qs);
      PacksMore(out, more, t, dir, ps, qs);
      assert children - left + {c} == children - (left - {c});
      out, ps, left := out + more, ps + qs, left - {c};
    }
    assert children - left == children;
    AllReached(t, src, skip, ps);
    PackedIsContained(out, t, dir, ps, Subtree(t, src, skip));
  }

  /** What a selection of names takes from a directory. */
  function Picked(t: Tree, dir: Path, names: seq<string>, skip: Path): set<Path> {
    set p | p in t && dir < p && p[|dir|] in names && !t[p].Link? && p != skip
  }

  lemma PickedNext(t: Tree, dir: Path, names: seq<string>, skip: Path, k: nat)
    requires k < |names|
    ensures Picked(t, dir, names[..k + 1], skip) == Picked(t, dir, names[..k], skip) + Subtree(t, dir + [names[k]], skip)
  {
    assert names[..k + 1] == names[..k] + [names[k]];
    forall p | p in t ensures dir < p && p[|dir|] == names[k] <==> dir + [names[k]] <= p {
    }
  }

  predicate LinkFree(t: Tree, dir: Path, names: seq<string>, dest: Path) {
    (dest != [] ==> NoLinkTo(t, Parent(dest))) && forall i | 0 <= i < |names| :: NoLinkTo(t, dir + [names[i]])
  }

  method ZipAll(t: Tree, dir: Path, names: seq<string>, skip: Path)
    returns (ok: bool, entries: seq<Entry>, ghost ps: seq<Path>)
    requires Wf(t) && (skip in t ==> !t[skip].Dir?)
    ensures ok <==> forall i | 0 <= i < |names| :: dir + [names[i]] in t
    ensures ok ==> Packs(entries, t, dir, ps) && Covers(ps, Picked(t, dir, names, skip))
  {
    entries, ps := [], [];
    for k := 0 to |names|
      invariant Packs(entries, t, dir, ps) && Covers(ps, Picked(t, dir, names[..k], skip))
      invariant forall i | 0 <= i < k :: dir + [names[i]] in t
    {
      var src := dir + [names[k]];
      if src !in t { return false, entries, ps; }
      var more, qs := ZipRec(t, dir, src, skip);
      PacksMore(entries, more, t, dir, ps, qs);
      PickedNext(t, dir, names, skip, k);
      entries, ps := entries + more, ps + qs;
    }
    assert names[..|names|] == names;
    return true, entries, ps;
  }

  /** The archive is made under a name not yet taken, and then filled name by name; a missing name stops
      it and leaves the archive behind. What happens through a symbolic link, on the way to the archive or
      to a selected name or as one, is not modelled. */
  method ZipNames(fs: FileSystem, dir: Path, names: seq<string>, dest: Path)
    returns (ok: bool, entries: seq<Entry>, ghost ps: seq<Path>)
    requires Wf(fs.tree) && forall i | 0 <= i < |names| :: Plain(names[i])
    modifies fs
    ensures dest == [] ==> !ok && fs.tree == old(fs.tree)
    ensures LinkFree(old(fs.tree), dir, names, dest) ==>
      && (ok <==>
        && dest != [] && IsDir(old(fs.tree), Parent(dest)) && dest !in old(fs.tree)
        && forall i | 0 <= i < |names| :: dir + [names[i]] in old(fs.tree) || dir + [names[i]] == dest)
      && (ok ==> Contains(entries, fs.tree, dir, Picked(fs.tree, dir, names, dest)))
      && (ok ==> Packs(entries, fs.tree, dir, ps) && Covers(ps, Picked(fs.tree, dir, names, dest)))
      && (fs.tree == old(fs.tree) || fs.tree == old(fs.tree)[dest := File("")])
      && (ok ==> dest in fs.tree && fs.tree[dest].File? && Wf(fs.tree))
  {
    if dest == [] { return false, [], []; }
    if !LinkFree(fs.tree, dir, names, dest) {
      ok := fs.Through();
      entries, ps := *, *;
      return;
    }
    ghost var t := fs.tree;
    ok := fs.OpenExclusive(dest);
    if !ok { return false, [], []; }
    NewNodeWf(t, dest, File(""));
    ok, entries, ps := ZipAll(fs.tree, dir, names, dest);
    if ok { PackedIsContained(entries, fs.tree, dir, ps, Picked(fs.tree, dir, names, dest)); }
  }
}
