/** Unzipping what was zipped, into an empty directory, gives the same directories and files. */
module ZipRoundTrip {
  import opened Common
  import opened Paths
  import opened FileTree
  import opened Unzip
  import opened Zip

  /** The path in the archived directory that `q`, below the destination, comes from. */
  function Back(dir: Path, out: Path, q: Path): Path
    requires out <= q
  {
    dir + q[|out|..]
  }

  /** `w` is `u` with the part `s` of `t` under `dir` put below `out`, and nothing else below `out`. */
  ghost predicate Grafted(w: Tree, u: Tree, t: Tree, dir: Path, out: Path, s: set<Path>) {
    && (forall q | !(out < q) :: q in w <==> q in u)
    && (forall q | q in u && !(out < q) :: w[q] == u[q])
    && (forall q | out < q :: q in w <==> Back(dir, out, q) in s)
    && (forall q | q in w && out < q :: Back(dir, out, q) in t && w[q] == t[Back(dir, out, q)])
  }

  /** The paths strictly below `dir` on the way to `p`, and `p`. */
  function Steps(dir: Path, p: Path): set<Path> { set h | h in Heads(p) && dir < h }

  lemma InSteps(dir: Path, p: Path, h: Path)
    ensures h in Steps(dir, p) <==> dir < h <= p
  {
    InHeads(p, h);
  }

  /** Where q stands on the way to a target, and where its source stands on the way to p. */
  lemma SameStep(dir: Path, out: Path, p: Path, q: Path)
    requires dir < p && out < q
    ensures q <= out + p[|dir|..] <==> Back(dir, out, q) <= p
    ensures dir < Back(dir, out, q)
    ensures q == out + p[|dir|..] <==> Back(dir, out, q) == p
  {
    var r := q[|out|..];
    var target := out + p[|dir|..];
    assert q == out + r && Back(dir, out, q) == dir + r && p == dir + p[|dir|..];
    assert target[|out|..] == p[|dir|..] && (dir + r)[|dir|..] == r;
    if q <= target { assert target[..|q|][|out|..] == p[|dir|..][..|r|]; assert dir + r == p[..|dir| + |r|]; }
    if dir + r <= p { assert p[|dir|..][..|r|] == r; assert q == target[..|q|]; }
  }

  /** An empty directory `out` of the tree `u`. */
  ghost predicate Empty(u: Tree, out: Path) { Wf(u) && IsDir(u, out) && forall q | q in u :: !(out < q) }

  lemma NothingGrafted(u: Tree, t: Tree, dir: Path, out: Path)
    requires Empty(u, out)
    ensures Grafted(u, u, t, dir, out, {})
  {
  }

  /** Making the directories on the way to the copy of `h`, all of them directories in the source. */
  lemma DirsGrafted(w: Tree, u: Tree, t: Tree, dir: Path, out: Path, s: set<Path>, h: Path)
    requires Empty(u, out) && Grafted(w, u, t, dir, out, s)
    requires dir < h && forall g | dir < g <= h :: IsDir(t, g)
    ensures Grafted(WithDirs(w, out + h[|dir|..]), u, t, dir, out, s + Steps(dir, h))
  {
    var x := out + h[|dir|..];
    var v := WithDirs(w, x);
    forall q ensures q in v <==> q in w || q <= x { InHeads(x, q); }
    forall q | !(out < q) ensures (q in v <==> q in u) && (q in u ==> v[q] == u[q]) {
      if q <= x { OnTheWay(u, out, x, q); }
    }
    forall q | out < q ensures q in v <==> Back(dir, out, q) in s + Steps(dir, h) {
      SameStep(dir, out, h, q);
      InSteps(dir, h, Back(dir, out, q));
    }
    forall q | q in v && out < q ensures Back(dir, out, q) in t && v[q] == t[Back(dir, out, q)] {
      SameStep(dir, out, h, q);
      if q !in w { assert IsDir(t, Back(dir, out, q)); }
    }
  }

  lemma OnTheWay(u: Tree, out: Path, x: Path, q: Path)
    requires Empty(u, out) && out <= x && q <= x && !(out < q)
    ensures IsDir(u, q)
  {
    assert q == out[..|q|];
    if |q| == |out| { assert q == out; }
  }

  lemma FileGrafted(w: Tree, u: Tree, t: Tree, dir: Path, out: Path, s: set<Path>, p: Path)
    requires Grafted(w, u, t, dir, out, s) && dir < p && p in t
    ensures Grafted(w[out + p[|dir|..] := t[p]], u, t, dir, out, s + {p})
  {
    var x := out + p[|dir|..];
    forall q | out < q ensures q == x <==> Back(dir, out, q) == p { SameStep(dir, out, p, q); }
  }

  /** Nothing grafted is in the way of another path of the same source. */
  lemma WayClear(w: Tree, u: Tree, t: Tree, dir: Path, out: Path, s: set<Path>, p: Path)
    requires Empty(u, out) && Wf(t) && Grafted(w, u, t, dir, out, s)
    requires dir < p && p in t
    ensures CanMake(w, out + p[|dir|..])
    ensures out + p[|dir|..] in w ==> w[out + p[|dir|..]] == t[p]
  {
    var x := out + p[|dir|..];
    SameStep(dir, out, p, x);
    forall k | 0 <= k < |x| && x[..k] in w ensures w[x[..k]].Dir? {
      var q := x[..k];
      if out < q {
        SameStep(dir, out, p, q);
        assert Back(dir, out, q) == p[..|Back(dir, out, q)|];
        assert IsDir(t, p[..|Back(dir, out, q)|]);
      } else {
        OnTheWay(u, out, x, q);
      }
    }
  }

  lemma EntryName(t: Tree, dir: Path, p: Path)
    requires dir < p && p in t && !t[p].Link? && AllPlain(p[|dir|..])
    ensures Norm(EntryOf(t, dir, p).name) == p[|dir|..]
  {
    NormJoin(p[|dir|..]);
  }

  lemma RootStays(w: Tree, u: Tree, t: Tree, dir: Path, out: Path, s: set<Path>)
    requires Empty(u, out) && Grafted(w, u, t, dir, out, s)
    ensures WithDirs(w, out) == w
  {
    forall q | q in Heads(out) ensures q in w {
      InHeads(out, q);
      OnTheWay(u, out, out, q);
    }
  }

  lemma AllDirs(t: Tree, p: Path)
    requires Wf(t) && p in t
    ensures forall g: Path | g <= p && g != p :: IsDir(t, g)
  {
    forall g: Path | g <= p && g != p ensures IsDir(t, g) {
      assert g == p[..|g|];
    }
  }

  lemma LastStep(dir: Path, p: Path)
    requires dir < p
    ensures Steps(dir, p) == (if Parent(p) == dir then {} else Steps(dir, Parent(p))) + {p}
  {
    forall h ensures h in Steps(dir, p) <==> h in (if Parent(p) == dir then {} else Steps(dir, Parent(p))) + {p} {
      InSteps(dir, p, h);
      InSteps(dir, Parent(p), h);
      if h <= p && h != p { assert h == p[..|h|] == Parent(p)[..|h|]; }
    }
  }

  /** The parent directories of a file's copy. */
  lemma ParentGrafted(w: Tree, u: Tree, t: Tree, dir: Path, out: Path, s: set<Path>, p: Path)
    requires Empty(u, out) && Wf(t) && Grafted(w, u, t, dir, out, s) && dir < p && p in t
    ensures Grafted(WithDirs(w, Parent(out + p[|dir|..])), u, t, dir, out,
                    s + if Parent(p) == dir then {} else Steps(dir, Parent(p)))
  {
    if Parent(p) == dir {
      assert Parent(out + p[|dir|..]) == out;
      RootStays(w, u, t, dir, out, s);
      assert s + {} == s;
    } else {
      AllDirs(t, p);
      assert Parent(out + p[|dir|..]) == out + Parent(p)[|dir|..];
      DirsGrafted(w, u, t, dir, out, s, Parent(p));
    }
  }

  lemma FileClear(w: Tree, u: Tree, t: Tree, dir: Path, out: Path, s: set<Path>, p: Path)
    requires Empty(u, out) && Wf(t) && Grafted(w, u, t, dir, out, s) && dir < p && p in t && t[p].File?
    ensures var x := out + p[|dir|..];
            CanMake(w, Parent(x)) && (Parent(x) in w ==> w[Parent(x)].Dir?) && !IsDir(w, x)
  {
    var x := out + p[|dir|..];
    WayClear(w, u, t, dir, out, s, p);
    assert Parent(x) == x[..|x| - 1];
    forall k | 0 <= k < |Parent(x)| && Parent(x)[..k] in w ensures w[Parent(x)[..k]].Dir? {
      assert Parent(x)[..k] == x[..k];
    }
  }

  /** One more entry of the archive. */
  lemma EntryGrafted(w: Tree, u: Tree, t: Tree, dir: Path, out: Path, s: set<Path>, p: Path)
    requires Empty(u, out) && Wf(t) && Grafted(w, u, t, dir, out, s)
    requires dir < p && p in t && !t[p].Link? && AllPlain(p[|dir|..])
    ensures CanApply(w, out, EntryOf(t, dir, p))
    ensures Grafted(Applied(w, out, EntryOf(t, dir, p)), u, t, dir, out, s + Steps(dir, p))
  {
    EntryName(t, dir, p);
    if t[p].Dir? {
      AllDirs(t, p);
      WayClear(w, u, t, dir, out, s, p);
      forall g | dir < g <= p ensures IsDir(t, g) { if g != p { assert g <= p && g != p; } }
      DirsGrafted(w, u, t, dir, out, s, p);
    } else {
      FileClear(w, u, t, dir, out, s, p);
      ParentGrafted(w, u, t, dir, out, s, p);
      var more := if Parent(p) == dir then {} else Steps(dir, Parent(p));
      FileGrafted(WithDirs(w, Parent(out + p[|dir|..])), u, t, dir, out, s + more, p);
      LastStep(dir, p);
      assert s + more + {p} == s + Steps(dir, p);
    }
  }

  /** What a list of paths covers, with the directories on the way. */
  function Seen(dir: Path, ps: seq<Path>): set<Path> {
    if ps == [] then {} else Seen(dir, ps[..|ps| - 1]) + Steps(dir, Last(ps))
  }

  ghost predicate Archivable(t: Tree, dir: Path, ps: seq<Path>) {
    forall i | 0 <= i < |ps| :: dir < ps[i] && ps[i] in t && !t[ps[i]].Link? && AllPlain(ps[i][|dir|..])
  }

  lemma AllButLast(t: Tree, dir: Path, entries: seq<Entry>, ps: seq<Path>)
    requires Archivable(t, dir, ps) && Packs(entries, t, dir, ps) && ps != []
    ensures var n := |ps| - 1;
            && |entries| == |ps| && Archivable(t, dir, ps[..n]) && Packs(entries[..n], t, dir, ps[..n])
            && dir < Last(ps) && Last(ps) in t && !t[Last(ps)].Link? && AllPlain(Last(ps)[|dir|..])
            && Last(entries) == EntryOf(t, dir, Last(ps))
  {
  }

  lemma {:induction false} ExtractGrafts(u: Tree, t: Tree, dir: Path, out: Path, entries: seq<Entry>, ps: seq<Path>)
    requires Empty(u, out) && Wf(t) && Archivable(t, dir, ps) && Packs(entries, t, dir, ps)
    ensures Grafted(Extracted(u, out, entries), u, t, dir, out, Seen(dir, ps))
  {
    if ps == [] {
      NothingGrafted(u, t, dir, out);
    } else {
      var n := |ps| - 1;
      AllButLast(t, dir, entries, ps);
      ExtractGrafts(u, t, dir, out, entries[..n], ps[..n]);
      EntryGrafted(Extracted(u, out, entries[..n]), u, t, dir, out, Seen(dir, ps[..n]), Last(ps));
    }
  }

  lemma {:induction false} ExtractPasses(u: Tree, t: Tree, dir: Path, out: Path, entries: seq<Entry>, ps: seq<Path>, maxBytes: nat)
    requires Empty(u, out) && Wf(t) && Archivable(t, dir, ps) && Packs(entries, t, dir, ps)
    requires Size(entries) <= maxBytes
    ensures Passes(u, out, entries, maxBytes)
  {
    if ps != [] {
      var n := |ps| - 1;
      AllButLast(t, dir, entries, ps);
      ExtractPasses(u, t, dir, out, entries[..n], ps[..n], maxBytes);
      ExtractGrafts(u, t, dir, out, entries[..n], ps[..n]);
      EntryGrafted(Extracted(u, out, entries[..n]), u, t, dir, out, Seen(dir, ps[..n]), Last(ps));
    }
  }

  lemma StepPicked(t: Tree, dir: Path, names: seq<string>, skip: Path, p: Path, h: Path)
    requires Wf(t) && (skip in t ==> !t[skip].Dir?) && p in Picked(t, dir, names, skip) && h in Steps(dir, p)
    ensures h in Picked(t, dir, names, skip)
  {
    InSteps(dir, p, h);
    AllDirs(t, p);
    assert h[|dir|] == p[|dir|];
    if h != p { assert IsDir(t, h); }
  }

  /** The picked paths are closed under going up, so the directories on the way are picked too. */
  lemma {:induction false} SeenIsPicked(t: Tree, dir: Path, names: seq<string>, skip: Path, ps: seq<Path>)
    requires Wf(t) && (skip in t ==> !t[skip].Dir?)
    requires forall i | 0 <= i < |ps| :: ps[i] in Picked(t, dir, names, skip)
    ensures Seen(dir, ps) <= Picked(t, dir, names, skip) && forall i | 0 <= i < |ps| :: ps[i] in Seen(dir, ps)
  {
    if ps != [] {
      var p := Last(ps);
      SeenIsPicked(t, dir, names, skip, ps[..|ps| - 1]);
      forall h | h in Steps(dir, p) ensures h in Picked(t, dir, names, skip) { StepPicked(t, dir, names, skip, p, h); }
      InSteps(dir, p, p);
    }
  }

  /** Zip, then unzip into an empty directory: the directory then holds exactly the picked directories and
      files, each with its contents, under its name; nothing else changed; and nothing but the two limits
      can stop the extraction. */
  lemma RoundTrip(t: Tree, dir: Path, names: seq<string>, archive: Path, ps: seq<Path>, entries: seq<Entry>,
                  u: Tree, out: Path, maxBytes: nat)
    requires Wf(t) && (archive in t ==> !t[archive].Dir?)
    requires Packs(entries, t, dir, ps) && Covers(ps, Picked(t, dir, names, archive))
    requires forall p | p in Picked(t, dir, names, archive) :: AllPlain(p[|dir|..])
    requires Empty(u, out)
    ensures Grafted(Extracted(u, out, entries), u, t, dir, out, Picked(t, dir, names, archive))
    ensures Size(entries) <= maxBytes ==> Passes(u, out, entries, maxBytes)
  {
    forall i | 0 <= i < |ps| ensures ps[i] in Picked(t, dir, names, archive) { assert ps[i] in ps; }
    ExtractGrafts(u, t, dir, out, entries, ps);
    if Size(entries) <= maxBytes { ExtractPasses(u, t, dir, out, entries, ps, maxBytes); }
    SeenIsPicked(t, dir, names, archive, ps);
    forall p | p in Picked(t, dir, names, archive) ensures p in Seen(dir, ps) { assert p in ps; }
    assert Seen(dir, ps) == Picked(t, dir, names, archive);
  }
}
