/** Paths inside the jail (internal/filemanager/filemanager.go, norm): a clean path is the sequence of its
    components, and the root, which the program writes ".", is the empty sequence. */
module Paths {
  import opened Texts
  import opened Splits

  type Path = seq<string>

  /** What a file can be called. */
  predicate IsName(n: string) { n != "" && n != "." && n != ".." && '/' !in n }

  predicate Plain(n: string) { IsName(n) && '\\' !in n }

  ghost predicate AllNames(p: Path) { forall i | 0 <= i < |p| :: IsName(p[i]) }

  ghost predicate AllPlain(p: Path) { forall i | 0 <= i < |p| :: Plain(p[i]) }

  function Slashed(s: string): (r: string)
    ensures |r| == |s| && '\\' !in r
    ensures forall i | 0 <= i < |s| :: r[i] == if s[i] == '\\' then '/' else s[i]
  {
    seq(|s|, i requires 0 <= i < |s| => if s[i] == '\\' then '/' else s[i])
  }

  /** Follow the parts from `at`: empty parts and "." stay, ".." goes up and stops at the root. */
  function Walk(at: Path, parts: seq<string>): Path
    decreases |parts|
  {
    if parts == [] then at
    else if parts[0] == "" || parts[0] == "." then Walk(at, parts[1..])
    else if parts[0] == ".." then Walk(if at == [] then [] else at[..|at| - 1], parts[1..])
    else Walk(at + [parts[0]], parts[1..])
  }

  function Norm(s: string): Path { Walk([], Split(Slashed(s), '/')) }

  lemma {:induction false} WalkNames(at: Path, parts: seq<string>)
    requires AllPlain(at) && Without(parts, '/') && Without(parts, '\\')
    ensures AllPlain(Walk(at, parts))
    decreases |parts|
  {
    if parts != [] {
      var next := if parts[0] == "" || parts[0] == "." then at
                  else if parts[0] == ".." then (if at == [] then [] else at[..|at| - 1])
                  else at + [parts[0]];
      WalkNames(next, parts[1..]);
    }
  }

  lemma {:induction false} SplitKeepsOut(s: string, sep: char, c: char)
    requires c !in s
    ensures Without(Split(s, sep), c)
  {
    if s != "" {
      SplitKeepsOut(s[1..], sep, c);
    }
  }

  /** No input escapes: every component of a normalised path is an ordinary name without slashes of
      either kind, so a name like "../../x" comes out as "x". */
  lemma NormIsPlain(s: string)
    ensures AllPlain(Norm(s))
  {
    JoinSplit(Slashed(s), '/');
    SplitKeepsOut(Slashed(s), '/', '\\');
    WalkNames([], Split(Slashed(s), '/'));
  }

  lemma {:induction false} WalkOn(at: Path, parts: seq<string>, more: seq<string>)
    ensures Walk(at, parts + more) == Walk(Walk(at, parts), more)
    decreases |parts|
  {
    if parts == [] {
      assert parts + more == more;
    } else {
      assert (parts + more)[1..] == parts[1..] + more;
      WalkOn(if parts[0] == "" || parts[0] == "." then at
             else if parts[0] == ".." then (if at == [] then [] else at[..|at| - 1])
             else at + [parts[0]], parts[1..], more);
    }
  }

  /** One more part leads on from where the rest leads to. */
  lemma NormOn(s: string, part: string, slash: char)
    requires (slash == '/' || slash == '\\') && '/' !in part && '\\' !in part
    ensures Norm(s + [slash] + part) == Walk(Norm(s), [part])
  {
    var u := Slashed(s);
    SplitOne(part, '/');
    SplitAppend(u, part, '/');
    SlashedPlain(part);
    assert Slashed(s + [slash] + part) == u + ['/'] + part;
    WalkOn([], Split(u, '/'), [part]);
  }

  /** A slash of either kind in front changes nothing. */
  lemma NormRooted(s: string, slash: char)
    requires slash == '/' || slash == '\\'
    ensures Norm([slash] + s) == Norm(s)
  {
    var u := Slashed(s);
    SplitAppend("", u, '/');
    assert Slashed([slash] + s) == "" + ['/'] + u;
    assert ([""] + Split(u, '/'))[1..] == Split(u, '/');
  }

  /** What one more part does: nothing and "." stay, ".." drops the last component or stays at the root, and any
      other part goes below. */
  lemma NormGoesOn(s: string, part: string, slash: char)
    requires (slash == '/' || slash == '\\') && '/' !in part && '\\' !in part
    ensures part == "" || part == "." ==> Norm(s + [slash] + part) == Norm(s)
    ensures part == ".." && Norm(s) == [] ==> Norm(s + [slash] + part) == []
    ensures part == ".." && Norm(s) != [] ==> exists last :: Norm(s) == Norm(s + [slash] + part) + [last]
    ensures IsName(part) ==> Norm(s + [slash] + part) == Norm(s) + [part]
  {
    var at := Norm(s);
    NormOn(s, part, slash);
    StepFrom(at, part);
    if part == ".." && at != [] {
      assert at == at[..|at| - 1] + [at[|at| - 1]];
    }
  }

  lemma StepFrom(at: Path, part: string)
    ensures Walk(at, [part]) == if part == "" || part == "." then at
                                else if part == ".." then (if at == [] then [] else at[..|at| - 1])
                                else at + [part]
  {
    assert [part][1..] == [];
  }

  lemma {:induction false} WalkAppends(at: Path, p: Path, more: seq<string>)
    requires AllNames(p)
    ensures Walk(at, p + more) == Walk(at + p, more)
    decreases |p|
  {
    if p == [] {
      assert p + more == more && at + p == at;
    } else {
      WalkAppends(at + [p[0]], p[1..], more);
      assert (p + more)[1..] == p[1..] + more;
      assert at + [p[0]] + p[1..] == at + p;
    }
  }

  lemma SlashedPlain(s: string)
    requires '\\' !in s
    ensures Slashed(s) == s
  {
  }

  lemma {:induction false} JoinPlain(p: Path, c: char)
    requires Without(p, c) && c != '/'
    ensures c !in Join(p, "/")
  {
    if |p| > 1 {
      JoinPlain(p[1..], c);
    }
  }

  /** Normalising a plain path, with or without a final slash, gives its components back. */
  lemma NormJoin(p: Path)
    requires AllPlain(p)
    ensures Norm(Join(p, "/")) == p && Norm(Join(p, "/") + "/") == p
  {
    var s := Join(p, "/");
    JoinPlain(p, '\\');
    SlashedPlain(s);
    SlashedPlain(s + "/");
    SplitAppend(s, "", '/');
    assert s + ['/'] + "" == s + "/";
    if p == [] {
      assert Split(s, '/') == [""];
      assert Split(s + "/", '/') == [""] + [""];
    } else {
      SplitJoin(p, '/');
      WalkAppends([], p, []);
      WalkAppends([], p, [""]);
      assert p + [] == p && [] + p == p;
    }
  }

  lemma NormIdempotent(s: string)
    ensures Norm(Join(Norm(s), "/")) == Norm(s)
  {
    NormIsPlain(s);
    NormJoin(Norm(s));
  }

  /** A path of real file names survives being written out and normalised exactly when no name holds a
      backslash. */
  lemma SurvivesExactlyWhen(p: Path)
    requires AllNames(p)
    ensures Norm(Join(p, "/")) == p <==> Without(p, '\\')
  {
    if Without(p, '\\') {
      NormJoin(p);
    } else {
      NormIsPlain(Join(p, "/"));
    }
  }
}
