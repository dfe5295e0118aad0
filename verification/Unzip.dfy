/** Extracting an archive (internal/filemanager/archive.go, unzipTo). An archive is its list of entries;
    what a header declares about sizes plays no part. */
module Unzip {
  import opened Common
  import opened Paths
  import opened FileTree

  datatype Kind = DirEntry | FileEntry | LinkEntry

  /** `opens` is whether the entry's data can be read at all, `broken` whether reading it ends in an error
      after `data`. */
  datatype Entry = Entry(name: string, kind: Kind, data: string, opens: bool, broken: bool)

  /** The extracted tree after one entry that met no obstacle. */
  function Applied(t: Tree, dest: Path, e: Entry): Tree {
    var name := Norm(e.name);
    if name == [] || e.kind.LinkEntry? then t
    else if e.kind.DirEntry? then WithDirs(t, dest + name)
    else WithDirs(t, Parent(dest + name))[dest + name := File(e.data)]
  }

  function Extracted(t: Tree, dest: Path, entries: seq<Entry>): Tree {
    if entries == [] then t else Applied(Extracted(t, dest, entries[..|entries| - 1]), dest, Last(entries))
  }

  /** Nothing in the tree is in the way of the entry, and its data can be read to the end. */
  ghost predicate CanApply(t: Tree, dest: Path, e: Entry) {
    var name := Norm(e.name);
    if name == [] || e.kind.LinkEntry? then true
    else if e.kind.DirEntry? then CanMake(t, dest + name)
    else CanWrite(t, dest + name, e)
  }

  function FileSize(e: Entry): nat {
    if Norm(e.name) == [] || !e.kind.FileEntry? then 0 else |e.data|
  }

  /** The bytes of all files in the archive. */
  function Size(entries: seq<Entry>): nat {
    if entries == [] then 0 else Size(entries[..|entries| - 1]) + FileSize(Last(entries))
  }

  /** Each entry in turn can be extracted, within the limit. */
  ghost predicate Passes(t: Tree, dest: Path, entries: seq<Entry>, maxBytes: nat) {
    entries == [] ||
    var before := entries[..|entries| - 1];
    Passes(t, dest, before, maxBytes) && CanApply(Extracted(t, dest, before), dest, Last(entries)) && Size(entries) <= maxBytes
  }

  lemma {:induction false} PassesBefore(t: Tree, dest: Path, entries: seq<Entry>, maxBytes: nat, k: nat)
    requires Passes(t, dest, entries, maxBytes) && k <= |entries|
    ensures Passes(t, dest, entries[..k], maxBytes)
  {
    if k == |entries| {
      assert entries[..k] == entries;
    } else {
      PassesBefore(t, dest, entries[..|entries| - 1], maxBytes, k);
      assert entries[..|entries| - 1][..k] == entries[..k];
    }
  }

  /** The paths of the entries that make something, in order. */
  function Targets(dest: Path, entries: seq<Entry>): seq<Path> {
    if entries == [] then []
    else Targets(dest, entries[..|entries| - 1]) + Target(dest, Last(entries))
  }

  function Target(dest: Path, e: Entry): seq<Path> {
    if Norm(e.name) == [] || e.kind.LinkEntry? then [] else [dest + Norm(e.name)]
  }

  /** The entry makes a directory or a file. */
  predicate Makes(e: Entry) {
    Norm(e.name) != [] && (e.kind.DirEntry? || e.kind.FileEntry?)
  }

  /** The paths listed are those of the entries that make something, in order, each below the destination. */
  ghost predicate Lists(dest: Path, entries: seq<Entry>, paths: seq<Path>, at: seq<nat>) {
    && Positions(at, |entries|) && |paths| == |at|
    && (forall j | 0 <= j < |at| :: paths[j] == dest + Norm(entries[at[j]].name))
    && (forall i | 0 <= i < |entries| :: Makes(entries[i]) <==> i in at)
  }

  lemma ListsNext(dest: Path, entries: seq<Entry>, paths: seq<Path>, at: seq<nat>)
    requires entries != [] && Lists(dest, entries[..|entries| - 1], paths, at)
    ensures Makes(Last(entries)) ==> Lists(dest, entries, paths + [dest + Norm(Last(entries).name)], at + [|entries| - 1])
    ensures !Makes(Last(entries)) ==> Lists(dest, entries, paths, at)
  {
    PositionsNext(at, |entries| - 1);
  }

  lemma {:induction false} TargetsListed(dest: Path, entries: seq<Entry>) returns (at: seq<nat>)
    ensures Lists(dest, entries, Targets(dest, entries), at)
  {
    at := [];
    if entries != [] {
      var init := entries[..|entries| - 1];
      at := TargetsListed(dest, init);
      ListsNext(dest, entries, Targets(dest, init), at);
      if Makes(Last(entries)) { at := at + [|entries| - 1]; }
    }
  }

  // ---- What an extracted tree holds ----

  /** The entry makes the file `p`. */
  predicate FileAt(dest: Path, e: Entry, p: Path) { Makes(e) && e.kind.FileEntry? && p == dest + Norm(e.name) }

  /** The entry makes `p` or something below it. */
  predicate LeadsTo(dest: Path, e: Entry, p: Path) { Makes(e) && p <= dest + Norm(e.name) }

  /** Entry `i` is the last one that makes the file `p`. */
  predicate LastFileAt(dest: Path, entries: seq<Entry>, p: Path, i: nat) {
    i < |entries| && FileAt(dest, entries[i], p) && forall j | i < j < |entries| :: !FileAt(dest, entries[j], p)
  }

  lemma InWithDirs(t: Tree, q: Path, p: Path)
    ensures p in WithDirs(t, q) <==> p in t || p <= q
    ensures p in WithDirs(t, q) ==> WithDirs(t, q)[p] == if p in t then t[p] else Dir
  {
    InHeads(q, p);
  }

  /** What one entry leaves at `p`. */
  lemma AppliedAt(t: Tree, dest: Path, e: Entry, p: Path)
    ensures var u := Applied(t, dest, e);
      if FileAt(dest, e, p) then p in u && u[p] == File(e.data)
      else (p in u <==> p in t || LeadsTo(dest, e, p)) && (p in u ==> u[p] == if p in t then t[p] else Dir)
  {
    if Makes(e) {
      var target := dest + Norm(e.name);
      if e.kind.DirEntry? {
        InWithDirs(t, target, p);
      } else {
        InWithDirs(t, Parent(target), p);
        assert p <= target ==> p <= Parent(target) || p == target;
      }
    }
  }

  /** The last file of a name in the archive is what is extracted under it. */
  lemma {:induction false} LastFileStays(t: Tree, dest: Path, entries: seq<Entry>, p: Path, i: nat)
    requires LastFileAt(dest, entries, p, i)
    ensures p in Extracted(t, dest, entries) && Extracted(t, dest, entries)[p] == File(entries[i].data)
  {
    var n := |entries| - 1;
    AppliedAt(Extracted(t, dest, entries[..n]), dest, entries[n], p);
    if i < n {
      LastFileStays(t, dest, entries[..n], p, i);
    }
  }

  /** Where the archive has no file there is what was there before, or else a directory when an entry leads
      there. */
  lemma {:induction false} NoFileStays(t: Tree, dest: Path, entries: seq<Entry>, p: Path)
    requires forall i | 0 <= i < |entries| :: !FileAt(dest, entries[i], p)
    ensures p in Extracted(t, dest, entries) <==> p in t || exists i :: 0 <= i < |entries| && LeadsTo(dest, entries[i], p)
    ensures p in Extracted(t, dest, entries) ==> Extracted(t, dest, entries)[p] == if p in t then t[p] else Dir
  {
    if entries != [] {
      var n := |entries| - 1;
      NoFileStays(t, dest, entries[..n], p);
      AppliedAt(Extracted(t, dest, entries[..n]), dest, entries[n], p);
      assert forall i | 0 <= i < n :: entries[..n][i] == entries[i];
    }
  }

  lemma {:induction false} TargetsBefore(dest: Path, entries: seq<Entry>, k: nat)
    requires k <= |entries|
    ensures Targets(dest, entries[..k]) <= Targets(dest, entries)
  {
    if k == |entries| {
      assert entries[..k] == entries;
    } else {
      TargetsBefore(dest, entries[..|entries| - 1], k);
      assert entries[..|entries| - 1][..k] == entries[..k];
    }
  }

  /** A path strictly below the destination whose further components are plain names. */
  ghost predicate Below(dest: Path, p: Path) { dest < p && AllPlain(p[|dest|..]) }

  /** Whatever the names in the archive, every path lies below the destination. */
  lemma {:induction false} TargetsBelow(dest: Path, entries: seq<Entry>)
    ensures |Targets(dest, entries)| <= |entries|
    ensures forall i | 0 <= i < |Targets(dest, entries)| :: Below(dest, Targets(dest, entries)[i])
  {
    if entries != [] {
      TargetsBelow(dest, entries[..|entries| - 1]);
      NormIsPlain(Last(entries).name);
    }
  }

  /** No symbolic link on the way to the destination or below it. */
  ghost predicate Good(t: Tree, dest: Path) {
    Wf(t) && NoLinkAt(t, dest)
  }

  /** Below the destination anything may change; elsewhere nothing, except that missing directories on the
      way to it may have been made. */
  ghost predicate Framed(t: Tree, u: Tree, dest: Path) {
    && (forall p | p in t && !(dest <= p) :: p in u && u[p] == t[p])
    && (forall p | p in u && p !in t && !(dest <= p) :: p <= dest && u[p].Dir?)
  }

  /** What every step of an extraction keeps. */
  ghost predicate Keeps(t: Tree, u: Tree, dest: Path) { Good(u, dest) && Framed(t, u, dest) }

  lemma KeepsOn(t: Tree, u: Tree, v: Tree, dest: Path)
    requires Keeps(t, u, dest) && Keeps(u, v, dest)
    ensures Keeps(t, v, dest)
  {
  }

  lemma DirsKeep(t: Tree, dest: Path, p: Path)
    requires Good(t, dest) && CanMake(t, p) && (dest <= p || p <= dest)
    ensures Keeps(t, WithDirs(t, p), dest)
  {
    WithDirsWf(t, p);
    forall q | q in Heads(p) ensures q <= dest || dest <= q { InHeads(p, q); }
  }

  lemma FileKeeps(t: Tree, dest: Path, p: Path, data: string)
    requires Good(t, dest) && dest < p && IsDir(t, Parent(p)) && !IsDir(t, p)
    ensures Keeps(t, t[p := File(data)], dest)
  {
    var u := t[p := File(data)];
    forall q, k | q in u && 0 <= k < |q| ensures IsDir(u, q[..k]) {
      if q in t {
        assert IsDir(t, q[..k]);
      } else {
        assert k < |Parent(p)| ==> p[..k] == Parent(p)[..k];
      }
    }
  }

  datatype Result = Wrote(bytes: nat) | Failed

  function Taken(e: Entry, room: nat): string {
    if |e.data| <= room then e.data else e.data[..room + 1]
  }

  /** Both states of the file that a write goes through. */
  lemma WriteKeeps(t: Tree, u: Tree, dest: Path, p: Path, data: string)
    requires Keeps(t, u, dest) && dest < p && IsDir(u, Parent(p)) && !IsDir(u, p)
    ensures Keeps(t, u[p := File("")], dest) && Keeps(t, u[p := File(data)], dest)
  {
    FileKeeps(u, dest, p, "");
    FileKeeps(u, dest, p, data);
    KeepsOn(t, u, u[p := File("")], dest);
    KeepsOn(t, u, u[p := File(data)], dest);
  }

  /** The target has just been opened, on a path without symbolic links. */
  ghost predicate Opened(t: Tree, target: Path) { target in t && t[target] == File("") && NoLinkTo(t, target) }

  /** Copy into an opened file at most one byte more than there is room for. */
  method CopyLimited(fs: FileSystem, target: Path, e: Entry, room: nat) returns (r: Result)
    modifies fs
    ensures r.Wrote? || (r.Failed? && (e.broken || !e.opens))
    ensures r.Wrote? && r.bytes <= room ==> e.opens && !e.broken
    ensures r.Wrote? ==> r.bytes == |Taken(e, room)|
    ensures Opened(old(fs.tree), target) ==>
              fs.tree == if r.Wrote? || e.opens then old(fs.tree)[target := File(Taken(e, room))] else old(fs.tree)
    ensures fs.written == old(fs.written) + if r.Wrote? || e.opens then |Taken(e, room)| else 0
  {
    if !e.opens { return Failed; }
    var take := Taken(e, room);
    assert "" + take == take;
    fs.Append(target, take);
    // An error that follows the last byte the limit lets through may or may not be seen.
    var seen: bool := *;
    if e.broken && (|e.data| <= room || (|e.data| == room + 1 && seen)) { return Failed; }
    return Wrote(|take|);
  }

  ghost predicate CanWrite(t: Tree, target: Path, e: Entry)
    requires target != []
  {
    var p := Parent(target);
    CanMake(t, p) && (p in t ==> t[p].Dir?) && !IsDir(t, target) && e.opens && !e.broken
  }

  /** Making a parent neither turns it into a directory nor makes its children. */
  lemma ParentMade(t: Tree, target: Path)
    requires target != []
    ensures IsDir(WithDirs(t, Parent(target)), Parent(target)) <==> (Parent(target) in t ==> t[Parent(target)].Dir?)
    ensures IsDir(WithDirs(t, Parent(target)), target) <==> IsDir(t, target)
  {
    InHeads(Parent(target), Parent(target));
    InHeads(Parent(target), target);
  }

  lemma WriteOpened(u: Tree, dest: Path, target: Path)
    requires Good(u[target := File("")], dest) && dest < target
    ensures Opened(u[target := File("")], target)
  {
    NoLinkBelow(u[target := File("")], dest, target);
  }

  method WriteEntry(fs: FileSystem, dest: Path, target: Path, e: Entry, room: nat) returns (r: Result)
    requires dest < target
    modifies fs
    ensures r.Wrote? ==> r.bytes == |Taken(e, room)| && fs.written == old(fs.written) + r.bytes
    ensures fs.written == old(fs.written) || fs.written == old(fs.written) + |Taken(e, room)|
    ensures Good(old(fs.tree), dest) ==>
      && Keeps(old(fs.tree), fs.tree, dest)
      && (r.Failed? ==> !CanWrite(old(fs.tree), target, e))
      && (r.Wrote? && r.bytes <= room ==> CanWrite(old(fs.tree), target, e))
      && (r.Wrote? ==> fs.tree == WithDirs(old(fs.tree), Parent(target))[target := File(Taken(e, room))])
  {
    ghost var t := fs.tree;
    ghost var plain := Good(t, dest);
    assert dest <= Parent(target);
    ParentMade(t, target);
    if plain { NoLinkBelow(t, dest, Parent(target)); }
    var ok := fs.MkdirAll(Parent(target));
    if !ok { return Failed; }
    ghost var u := fs.tree;
    if plain {
      DirsKeep(t, dest, Parent(target));
      NoLinkBelow(u, dest, target);
    }
    ok := fs.OpenTruncated(target);
    if !ok { return Failed; }
    if plain {
      WriteKeeps(t, u, dest, target, Taken(e, room));
      WriteOpened(u, dest, target);
    }
    r := CopyLimited(fs, target, e, room);
    assert u[target := File("")][target := File(Taken(e, room))] == u[target := File(Taken(e, room))];
  }

  /** One entry, with `room` bytes left of the limit: the path it made, if any, and the bytes it wrote. */
  method ExtractEntry(fs: FileSystem, dest: Path, e: Entry, room: nat) returns (ok: bool, made: seq<Path>, bytes: nat)
    modifies fs
    ensures old(fs.written) <= fs.written <= old(fs.written) + room + 1
    ensures ok ==> made == Target(dest, e) && fs.written == old(fs.written) + bytes
    ensures ok ==> bytes == if FileSize(e) <= room then FileSize(e) else room + 1
    ensures Good(old(fs.tree), dest) ==>
      && Keeps(old(fs.tree), fs.tree, dest)
      && (!ok ==> !CanApply(old(fs.tree), dest, e))
      && (ok && bytes <= room ==> CanApply(old(fs.tree), dest, e) && fs.tree == Applied(old(fs.tree), dest, e))
  {
    ghost var t := fs.tree;
    var name := Norm(e.name);
    if name == [] { return true, [], 0; }
    var target := dest + name;
    if e.kind.LinkEntry? { return true, [], 0; }
    if e.kind.DirEntry? {
      if Good(t, dest) { NoLinkBelow(t, dest, target); }
      ok := fs.MkdirAll(target);
      if !ok { return false, [], 0; }
      if Good(t, dest) { DirsKeep(t, dest, target); }
      return true, [target], 0;
    }
    var r := WriteEntry(fs, dest, target, e, room);
    if r.Failed? { return false, [], 0; }
    return true, [target], r.bytes;
  }

  datatype Outcome = Done | TooBig | Broken

  const MAX_BYTES := 512 * 1024 * 1024
  const MAX_ENTRIES := 10000

  /** Whatever the archive declares and whatever the destination holds, the bytes written and the paths
      reported stay within the limits and the paths below the destination. Without symbolic links on the way
      to the destination or below it, the archive is extracted exactly when nothing is in the way and the
      limits hold, and nothing else changes. */
  method UnzipTo(fs: FileSystem, entries: seq<Entry>, dest: Path, maxBytes: nat, maxEntries: nat)
    returns (r: Outcome, created: seq<Path>)
    modifies fs
    ensures old(fs.written) <= fs.written <= old(fs.written) + maxBytes + 1
    ensures created <= Targets(dest, entries) && |created| <= maxEntries
    ensures r == Done ==> fs.written == old(fs.written) + Size(entries) <= old(fs.written) + maxBytes
    ensures r == Done ==> created == Targets(dest, entries)
    ensures |entries| > maxEntries ==> r == TooBig && created == [] && fs.tree == old(fs.tree)
    ensures Good(old(fs.tree), dest) ==>
      && Keeps(old(fs.tree), fs.tree, dest)
      && (r == Done <==> |entries| <= maxEntries && Passes(old(fs.tree), dest, entries, maxBytes))
      && (r == Done ==> fs.tree == Extracted(old(fs.tree), dest, entries))
  {
    if |entries| > maxEntries { return TooBig, []; }
    r, created := ExtractAll(fs, entries, dest, maxBytes);
  }

  method ExtractAll(fs: FileSystem, entries: seq<Entry>, dest: Path, maxBytes: nat) returns (r: Outcome, created: seq<Path>)
    modifies fs
    ensures old(fs.written) <= fs.written <= old(fs.written) + maxBytes + 1
    ensures created <= Targets(dest, entries) && |created| <= |entries|
    ensures r == Done ==> fs.written == old(fs.written) + Size(entries) <= old(fs.written) + maxBytes
    ensures r == Done ==> created == Targets(dest, entries)
    ensures Good(old(fs.tree), dest) ==> Ended(old(fs.tree), dest, entries, maxBytes, fs.tree, r == Done)
  {
    created := [];
    ghost var t := fs.tree;
    ghost var plain := Good(t, dest);
    ghost var before := fs.written;
    var total: nat := 0;
    for k := 0 to |entries|
      invariant total <= maxBytes && fs.written == before + total && Counted(dest, entries, k, created, total)
      invariant plain ==> Tracked(t, dest, entries, maxBytes, k, fs.tree)
    {
      ghost var now := fs.tree;
      var ok, made, bytes := ExtractEntry(fs, dest, entries[k], maxBytes - total);
      CountedNext(dest, entries, k, created, total);
      if plain { TrackedNext(t, dest, entries, maxBytes, k, now, fs.tree, ok && bytes <= maxBytes - total, total); }
      if !ok { return Broken, created; }
      total := total + bytes;
      created := created + made;
      if total > maxBytes { return TooBig, created; }
    }
    assert entries[..|entries|] == entries;
    return Done, created;
  }

  /** How an extraction may end: with the whole archive in place exactly when all of it passes. */
  ghost predicate Ended(t: Tree, dest: Path, entries: seq<Entry>, maxBytes: nat, u: Tree, done: bool) {
    && Keeps(t, u, dest)
    && (done <==> Passes(t, dest, entries, maxBytes))
    && (done ==> u == Extracted(t, dest, entries))
  }

  /** The panel's extraction, with its own limits. */
  method Unzip(fs: FileSystem, entries: seq<Entry>, dest: Path) returns (r: Outcome, created: seq<Path>)
    modifies fs
    ensures fs.written <= old(fs.written) + MAX_BYTES + 1
    ensures |created| <= MAX_ENTRIES && forall i | 0 <= i < |created| :: Below(dest, created[i])
    ensures Good(old(fs.tree), dest) ==>
      && Keeps(old(fs.tree), fs.tree, dest)
      && (r == Done <==> |entries| <= MAX_ENTRIES && Passes(old(fs.tree), dest, entries, MAX_BYTES))
      && (r == Done ==> fs.tree == Extracted(old(fs.tree), dest, entries))
  {
    r, created := UnzipTo(fs, entries, dest, MAX_BYTES, MAX_ENTRIES);
    TargetsBelow(dest, entries);
  }

  /** What has been counted before entry k. */
  ghost predicate Counted(dest: Path, entries: seq<Entry>, k: nat, created: seq<Path>, total: nat) {
    && k <= |entries|
    && created == Targets(dest, entries[..k]) && |created| <= k && created <= Targets(dest, entries)
    && total == Size(entries[..k])
  }

  /** What the tree is before entry k. */
  ghost predicate Tracked(t: Tree, dest: Path, entries: seq<Entry>, maxBytes: nat, k: nat, u: Tree) {
    k <= |entries| && Keeps(t, u, dest) && u == Extracted(t, dest, entries[..k]) && Passes(t, dest, entries[..k], maxBytes)
  }

  lemma CountedNext(dest: Path, entries: seq<Entry>, k: nat, created: seq<Path>, total: nat)
    requires Counted(dest, entries, k, created, total) && k < |entries|
    ensures Counted(dest, entries, k + 1, created + Target(dest, entries[k]), total + FileSize(entries[k]))
    ensures created + Target(dest, entries[k]) <= Targets(dest, entries)
  {
    Boundaries(map[], dest, entries, 0, k);
  }

  /** `v` is the tree after entry k, which was applied within the limit or stopped the extraction. */
  lemma TrackedNext(t: Tree, dest: Path, entries: seq<Entry>, maxBytes: nat, k: nat, u: Tree, v: Tree, applied: bool, total: nat)
    requires Tracked(t, dest, entries, maxBytes, k, u) && k < |entries| && total == Size(entries[..k]) <= maxBytes
    requires Keeps(u, v, dest)
    requires if applied then CanApply(u, dest, entries[k]) && v == Applied(u, dest, entries[k]) && total + FileSize(entries[k]) <= maxBytes
             else !CanApply(u, dest, entries[k]) || total + FileSize(entries[k]) > maxBytes
    ensures Keeps(t, v, dest)
    ensures if applied then Tracked(t, dest, entries, maxBytes, k + 1, v) else !Passes(t, dest, entries, maxBytes)
  {
    KeepsOn(t, u, v, dest);
    Boundaries(t, dest, entries, maxBytes, k);
  }

  /** What the next entry adds, and that the archive does not pass when the next entry does not. */
  lemma Boundaries(t: Tree, dest: Path, entries: seq<Entry>, maxBytes: nat, k: nat)
    requires k < |entries|
    ensures Size(entries[..k + 1]) == Size(entries[..k]) + FileSize(entries[k])
    ensures Targets(dest, entries[..k + 1]) == Targets(dest, entries[..k]) + Target(dest, entries[k])
    ensures Extracted(t, dest, entries[..k + 1]) == Applied(Extracted(t, dest, entries[..k]), dest, entries[k])
    ensures Targets(dest, entries[..k]) <= Targets(dest, entries) && Targets(dest, entries[..k + 1]) <= Targets(dest, entries)
    ensures |Targets(dest, entries[..k + 1])| <= k + 1
    ensures Passes(t, dest, entries[..k + 1], maxBytes) <==>
      && Passes(t, dest, entries[..k], maxBytes)
      && CanApply(Extracted(t, dest, entries[..k]), dest, entries[k])
      && Size(entries[..k]) + FileSize(entries[k]) <= maxBytes
    ensures Passes(t, dest, entries, maxBytes) ==> Passes(t, dest, entries[..k + 1], maxBytes)
  {
    assert entries[..k + 1][..k] == entries[..k];
    TargetsBefore(dest, entries, k);
    TargetsBefore(dest, entries, k + 1);
    TargetsBelow(dest, entries[..k + 1]);
    if Passes(t, dest, entries, maxBytes) { PassesBefore(t, dest, entries, maxBytes, k + 1); }
  }
}
