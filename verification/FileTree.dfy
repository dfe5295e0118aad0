/** A jailed file tree and the few system calls that the archive code makes on it
    (internal/filemanager/archive.go, mkdirAll and the calls on os.Root). */
module FileTree {
  import opened Paths

  datatype Node = Dir | File(data: string) | Link

  type Tree = map<Path, Node>

  predicate IsDir(t: Tree, p: Path) { p in t && t[p].Dir? }

  /** Every proper prefix of a path in the tree is a directory. */
  ghost predicate Wf(t: Tree) {
    IsDir(t, []) && forall p, k | p in t && 0 <= k < |p| :: IsDir(t, p[..k])
  }

  function Parent(p: Path): Path
    requires p != []
  {
    p[..|p| - 1]
  }

  /** The path and everything above it. */
  function Heads(p: Path): set<Path> { set k | 0 <= k <= |p| :: p[..k] }

  lemma InHeads(p: Path, q: Path)
    ensures q in Heads(p) <==> q <= p
  {
    if q <= p { assert q == p[..|q|]; }
  }

  /** The tree with the missing directories on the way to `p`, and `p` itself. */
  function WithDirs(t: Tree, p: Path): Tree {
    map q | q in t.Keys + Heads(p) :: if q in t then t[q] else Dir
  }

  /** Nothing on the way to `p` is other than a directory. */
  ghost predicate CanMake(t: Tree, p: Path) {
    forall k | 0 <= k < |p| && p[..k] in t :: t[p[..k]].Dir?
  }

  lemma DirAlreadyThere(t: Tree, p: Path)
    requires Wf(t) && p in t
    ensures WithDirs(t, p) == t
  {
    forall q | q in Heads(p) ensures q in t {
      InHeads(p, q);
      assert q == p[..|q|];
      if |q| < |p| { assert IsDir(t, p[..|q|]); } else { assert q == p; }
    }
  }

  lemma OneMoreDir(t: Tree, p: Path, k: nat)
    requires k < |p|
    ensures WithDirs(t, p[..k + 1]) == if p[..k + 1] in t then WithDirs(t, p[..k]) else WithDirs(t, p[..k])[p[..k + 1] := Dir]
  {
    HeadsNext(p, k);
  }

  lemma HeadsNext(p: Path, k: nat)
    requires k < |p|
    ensures Heads(p[..k + 1]) == Heads(p[..k]) + {p[..k + 1]}
  {
    var more, less := p[..k + 1], p[..k];
    forall q | q in Heads(more) ensures q in Heads(less) + {more} {
      InHeads(more, q);
      InHeads(less, q);
      if |q| <= k { assert q == more[..|q|] == less[..|q|]; } else { assert q == more; }
    }
    forall q | q in Heads(less) + {more} ensures q in Heads(more) {
      InHeads(more, q);
      InHeads(less, q);
      if q <= less { assert q == less[..|q|] == more[..|q|]; }
    }
  }

  lemma WithDirsWf(t: Tree, p: Path)
    requires Wf(t) && CanMake(t, p)
    ensures Wf(WithDirs(t, p)) && p in WithDirs(t, p)
  {
    var u := WithDirs(t, p);
    InHeads(p, p);
    forall q, k | q in u && 0 <= k < |q| ensures IsDir(u, q[..k]) {
      if q in t {
        assert IsDir(t, q[..k]);
      } else {
        InHeads(p, q);
        InHeads(p, q[..k]);
        assert q[..k] == p[..k];
      }
    }
  }

  /** No symbolic link on the way to `p`, nor `p` itself. */
  predicate NoLinkTo(t: Tree, p: Path) {
    forall k | 0 <= k <= |p| :: p[..k] in t ==> !t[p[..k]].Link?
  }

  /** No symbolic link on the way to `p`, nor at or below it. */
  ghost predicate NoLinkAt(t: Tree, p: Path) {
    forall q | q in t && (q <= p || p <= q) :: !t[q].Link?
  }

  /** The directories and files at and below `src`; symbolic links are left out. */
  function Real(t: Tree, src: Path): set<Path> {
    set p | p in t && src <= p && !t[p].Link?
  }

  function Children(t: Tree, src: Path): set<Path> {
    set p | p in t && src <= p && |p| == |src| + 1
  }

  function AtOrBelow(t: Tree, src: Path): set<Path> {
    set p | p in t && src <= p
  }

  lemma ChildBelow(t: Tree, src: Path, c: Path)
    requires src in t && c in Children(t, src)
    ensures AtOrBelow(t, c) < AtOrBelow(t, src)
  {
    assert src !in AtOrBelow(t, c) && src in AtOrBelow(t, src);
  }

  lemma OnlyItself(t: Tree, c: Path)
    requires Wf(t) && c in t && !t[c].Dir?
    ensures forall p | p in t && c <= p :: p == c
  {
    forall p | p in t && c <= p ensures p == c {
      assert p[..|c|] == c;
    }
  }

  lemma NewNodeWf(t: Tree, p: Path, n: Node)
    requires Wf(t) && p != [] && p !in t && IsDir(t, Parent(p))
    ensures Wf(t[p := n])
  {
    var u := t[p := n];
    forall q, k | q in u && 0 <= k < |q| ensures IsDir(u, q[..k]) {
      if q in t {
        assert IsDir(t, q[..k]);
      } else {
        assert k < |Parent(p)| ==> p[..k] == Parent(p)[..k];
      }
    }
  }

  datatype Made = Created | Existed | Refused

  class FileSystem {
    var tree: Tree
    /** Bytes written to files so far. */
    ghost var written: nat

    /** What a call does that meets a symbolic link on its path is not modelled: the system follows the link
        inside the jail, so anything may happen to the tree. */
    method Through() returns (ok: bool)
      modifies `tree
    {
      tree, ok := *, *;
    }

    method Mkdir(p: Path) returns (r: Made)
      requires p != [] && NoLinkTo(tree, Parent(p))
      modifies `tree
      ensures r == if p in old(tree) then Existed else if IsDir(old(tree), Parent(p)) then Created else Refused
      ensures tree == if r == Created then old(tree)[p := Dir] else old(tree)
    {
      if p in tree { return Existed; }
      if !IsDir(tree, Parent(p)) { return Refused; }
      tree := tree[p := Dir];
      return Created;
    }

    /** Directories are made from the top down; one that exists is passed over, whatever it is. A refusal
        leaves nothing behind. */
    method MkdirAll(p: Path) returns (ok: bool)
      modifies `tree
      ensures old(Wf(tree) && NoLinkTo(tree, p)) ==>
                && (ok <==> CanMake(old(tree), p))
                && tree == if ok then WithDirs(old(tree), p) else old(tree)
    {
      ghost var t := tree;
      ghost var plain := Wf(t) && NoLinkTo(t, p);
      assert p[..0] == [];
      if plain { DirAlreadyThere(t, p[..0]); }
      for k := 0 to |p|
        invariant plain ==> tree == WithDirs(t, p[..k])
        invariant plain ==> forall j | 0 <= j < k && p[..j] in t :: t[p[..j]].Dir?
      {
        var acc := p[..k + 1];
        assert Parent(acc) == p[..k];
        if plain { NoLinkMade(t, p, k); }
        if !NoLinkTo(tree, Parent(acc)) {
          ok := Through();
          return;
        }
        MadeSoFar(t, p, k);
        OneMoreDir(t, p, k);
        var r := Mkdir(acc);
        if r == Refused {
          if plain { DirAlreadyThere(t, p[..k]); }
          return false;
        }
        if plain && r == Existed { StillDir(t, p, k); }
      }
      assert p[..|p|] == p;
      return true;
    }

    /** Open for writing, created or cut to nothing; then write. */
    method OpenTruncated(p: Path) returns (ok: bool)
      requires p != []
      modifies `tree
      ensures NoLinkTo(old(tree), p) ==>
                && (ok <==> IsDir(old(tree), Parent(p)) && !IsDir(old(tree), p))
                && tree == if ok then old(tree)[p := File("")] else old(tree)
    {
      if !NoLinkTo(tree, p) {
        ok := Through();
        return;
      }
      if !IsDir(tree, Parent(p)) || IsDir(tree, p) { return false; }
      tree := tree[p := File("")];
      return true;
    }

    /** Open for writing only when there is nothing by that name. */
    method OpenExclusive(p: Path) returns (ok: bool)
      requires p != [] && NoLinkTo(tree, Parent(p))
      modifies `tree
      ensures ok <==> IsDir(old(tree), Parent(p)) && p !in old(tree)
      ensures tree == if ok then old(tree)[p := File("")] else old(tree)
    {
      if !IsDir(tree, Parent(p)) || p in tree { return false; }
      tree := tree[p := File("")];
      return true;
    }

    /** Write to the file opened at `p`; every byte is counted, wherever it goes. */
    method Append(p: Path, data: string)
      modifies this
      ensures written == old(written) + |data|
      ensures IsFile(old(tree), p) && NoLinkTo(old(tree), p) ==> tree == old(tree)[p := File(old(tree)[p].data + data)]
    {
      written := written + |data|;
      if IsFile(tree, p) && NoLinkTo(tree, p) {
        tree := tree[p := File(tree[p].data + data)];
      } else {
        var _ := Through();
      }
    }
  }

  predicate IsFile(t: Tree, p: Path) { p in t && t[p].File? }

  lemma NoLinkMade(t: Tree, p: Path, k: nat)
    requires k < |p| && NoLinkTo(t, p)
    ensures NoLinkTo(WithDirs(t, p[..k]), p[..k])
  {
    forall j | 0 <= j <= k && p[..k][..j] in t ensures !t[p[..k][..j]].Link? {
      assert p[..k][..j] == p[..j];
    }
  }

  lemma MadeSoFar(t: Tree, p: Path, k: nat)
    requires k < |p|
    ensures p[..k] in WithDirs(t, p[..k])
    ensures p[..k + 1] in WithDirs(t, p[..k]) <==> p[..k + 1] in t
    ensures !IsDir(WithDirs(t, p[..k]), p[..k]) ==> p[..k] in t && !t[p[..k]].Dir?
  {
    InHeads(p[..k], p[..k]);
    InHeads(p[..k], p[..k + 1]);
  }

  lemma NoLinkOpened(t: Tree, p: Path)
    requires p != [] && NoLinkTo(t, Parent(p))
    ensures NoLinkTo(t[p := File("")], p)
  {
    var u := t[p := File("")];
    forall k | 0 <= k <= |p| && p[..k] in u ensures !u[p[..k]].Link? {
      if k < |p| { assert p[..k] == Parent(p)[..k]; } else { assert p[..k] == p; }
    }
  }

  lemma NoLinkBelow(t: Tree, dest: Path, p: Path)
    requires NoLinkAt(t, dest) && (dest <= p || p <= dest)
    ensures NoLinkTo(t, p)
  {
    forall k | 0 <= k <= |p| && p[..k] in t ensures !t[p[..k]].Link? {
      if dest <= p {
        if k <= |dest| { assert p[..k] == dest[..k]; } else { assert p[..k][..|dest|] == dest; }
      } else {
        assert p[..k] == dest[..k];
      }
    }
  }

  lemma StillDir(t: Tree, p: Path, k: nat)
    requires Wf(t) && k < |p| && p[..k + 1] in t
    ensures IsDir(t, p[..k])
  {
    assert p[..k + 1][..k] == p[..k];
  }
}
