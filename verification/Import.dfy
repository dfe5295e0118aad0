/** Importing the virtual hosts found on disk: two passes of inserts, a relink
    pass that repairs rows created flat, and a prune pass. */
module Import {
  import opened Common
  import opened Database
  import opened Panel

  /** A discovered host: its name, whether the panel wrote it, whether the name is
      one the panel may import. */
  datatype Found = Found(domain: string, ours: bool, valid: bool)

  // ----- The parent of a name -------------------------------------------------

  predicate Under(parent: string, child: string) {
    parent != "" && StrictSuffix(parent, child)
  }

  /** `p` is the longest name in the universe that `d` sits under, or "" if none. */
  ghost predicate IsParentName(p: string, d: string, universe: set<string>) {
    && (p == "" || (p in universe && Under(p, d)))
    && (forall q | q in universe && Under(q, d) :: |q| <= |p|)
  }

  /** The grouping does not depend on the order anything is visited in. */
  lemma ParentNameUnique(p: string, q: string, d: string, universe: set<string>)
    requires IsParentName(p, d, universe) && IsParentName(q, d, universe)
    ensures p == q
  {
    assert |p| == |q|;
    if p != "" {
      assert p == d[|d| - |p|..] == q;
    }
  }

  method ParentDomainIn(d: string, universe: set<string>) returns (best: string)
    ensures IsParentName(best, d, universe)
  {
    best := "";
    var rest := universe;
    while rest != {}
      invariant rest <= universe && IsParentName(best, d, universe - rest)
    {
      var p := Pick(rest);
      if p != d && Under(p, d) && |p| > |best| {
        best := p;
      }
      rest := rest - {p};
      assert universe - rest <= universe;
    }
    assert universe - rest == universe;
  }

  // ----- What the passes keep ---------------------------------------------------

  ghost predicate HasRow(db: Db, d: string) {
    exists s :: s in db.sites && db.sites[s].domain == d
  }

  /** Row `s` sits under its parent name, or stands flat. */
  ghost predicate Linked(db: Db, s: int, universe: set<string>)
    requires s in db.sites
  {
    var row := db.sites[s];
    row.parent.Some? ==> row.parent.value in db.sites && IsParentName(db.sites[row.parent.value].domain, row.domain, universe)
  }

  /** Rows are only added, and those added are imported rows of candidates, flat
      or under their parent name. */
  ghost predicate Imported(before: Db, db: Db, names: set<string>, universe: set<string>) {
    && (forall s | s in before.sites :: s in db.sites && db.sites[s] == before.sites[s])
    && (forall s | s in db.sites && s !in before.sites :: !db.sites[s].managed && db.sites[s].domain in names && Linked(db, s, universe))
  }

  ghost predicate Grew(old_: Db, new_: Db) {
    forall s | s in old_.sites :: s in new_.sites && new_.sites[s] == old_.sites[s]
  }

  function Insertion(admin: int, d: string, parent: Option<int>): Write {
    InsertSite(admin, d, if parent.Some? then Subdomain else Main, parent, false)
  }

  /** A parent that may be given to a new row named `d`. */
  ghost predicate ParentFor(db: Db, d: string, parent: Option<int>, universe: set<string>) {
    parent.Some? ==>
      parent.value in db.sites && db.sites[parent.value].domain != "" && IsParentName(db.sites[parent.value].domain, d, universe)
  }

  lemma Inserted(before: Db, db: Db, admin: int, d: string, parent: Option<int>, names: set<string>, universe: set<string>)
    requires Imported(before, db, names, universe) && d in names && ParentFor(db, d, parent, universe)
    requires db.nextSite !in db.sites
    ensures var t := Apply(db, Insertion(admin, d, parent));
      Imported(before, t, names, universe) && Grew(db, t) && HasRow(t, d) && t.users == db.users && t.sites.Keys == db.sites.Keys + {db.nextSite}
  {
    var t, n := Apply(db, Insertion(admin, d, parent)), db.nextSite;
    assert n in t.sites && t.sites[n].domain == d;
    forall s | s in t.sites && s !in before.sites
      ensures !t.sites[s].managed && t.sites[s].domain in names && Linked(t, s, universe)
    {
      if s != n {
        assert Linked(db, s, universe);
      }
    }
  }

  /** Inserts one candidate; only a fault can leave its name without a row. */
  method Create(st: Store, admin: int, d: string, parent: Option<int>, ghost before: Db, ghost names: set<string>, ghost universe: set<string>)
    returns (ok: bool)
    requires st.Valid() && admin in st.db.users && d in names && Imported(before, st.db, names, universe)
    requires ParentFor(st.db, d, parent, universe)
    modifies st
    ensures st.Valid() && admin in st.db.users && Imported(before, st.db, names, universe) && Grew(old(st.db), st.db)
    ensures (st.faultless ==> old(st.faultless)) && (st.faultless ==> HasRow(st.db, d))
    ensures |st.db.sites.Keys| == |old(st.db).sites.Keys| + if ok then 1 else 0
    ensures st.db == if ok then Apply(old(st.db), Insertion(admin, d, parent)) else old(st.db)
  {
    Inserted(before, st.db, admin, d, parent, names, universe);
    ok := st.Exec(Insertion(admin, d, parent));
  }

  ghost predicate AllHaveRows(db: Db, names: set<string>) {
    forall d | d in names :: HasRow(db, d)
  }

  lemma RowsRemain(a: Db, b: Db, names: set<string>)
    requires Grew(a, b) && AllHaveRows(a, names)
    ensures AllHaveRows(b, names)
  {
    forall d | d in names ensures HasRow(b, d) {
      assert HasRow(a, d);
      var s :| s in a.sites && a.sites[s].domain == d;
      assert s in b.sites && b.sites[s].domain == d;
    }
  }

  /** The store while candidates are being inserted. */
  ghost predicate Importing(st: Store, admin: int, before: Db, names: set<string>, universe: set<string>)
    reads st
  {
    st.Valid() && admin in st.db.users && Imported(before, st.db, names, universe)
  }

  /** The names a pass takes: those without a parent name first, then the others. */
  ghost function Due(names: set<string>, mains: bool, universe: set<string>): set<string> {
    set d | d in names && mains == IsParentName("", d, universe)
  }

  /** The row just inserted for `d` is under the row of its parent name when there is one, and flat if not. */
  ghost predicate PutUnder(before: Db, db: Db, admin: int, d: string, universe: set<string>) {
    var n := before.nextSite;
    && n in db.sites && n !in before.sites && db == before.(sites := before.sites[n := db.sites[n]], nextSite := n + 1)
    && db.sites[n] == Site(admin, d, if db.sites[n].parent.Some? then Subdomain else Main, db.sites[n].parent, false, Php, None)
    && (db.sites[n].parent.Some? ==> db.sites[n].parent.value in before.sites)
    && forall t | t in before.sites && before.sites[t].domain != "" && IsParentName(before.sites[t].domain, d, universe) ::
         db.sites[n].parent == Some(t)
  }

  lemma PutUnderParent(before: Db, admin: int, d: string, pd: string, parent: Option<int>, universe: set<string>)
    requires Good(before) && IsParentName(pd, d, universe)
    requires parent.Some? ==> parent.value in before.sites && before.sites[parent.value].domain == pd
    requires parent.None? ==> pd == "" || !HasRow(before, pd)
    ensures PutUnder(before, Apply(before, Insertion(admin, d, parent)), admin, d, universe)
  {
    forall t | t in before.sites && before.sites[t].domain != "" && IsParentName(before.sites[t].domain, d, universe)
      ensures parent == Some(t)
    {
      ParentNameUnique(before.sites[t].domain, pd, d, universe);
      assert t in before.sites && before.sites[t].domain == pd;
      assert HasRow(before, pd);
      var p: int := parent.value;
      assert p in before.sites && before.sites[p].domain == pd;
    }
  }

  /** One candidate in pass 1 (mains) or pass 2 (subdomains): names without a
      parent name become flat rows in the first, the others go under their
      parent's row in the second, or flat if it has no row yet. */
  method ImportOne(st: Store, admin: int, d: string, mains: bool, universe: set<string>, ghost before: Db, ghost names: set<string>)
    returns (ok: bool)
    requires d in names && Importing(st, admin, before, names, universe)
    modifies st
    ensures Importing(st, admin, before, names, universe) && Grew(old(st.db), st.db)
    ensures (st.faultless ==> old(st.faultless))
    ensures st.faultless && d in Due(names, mains, universe) ==> HasRow(st.db, d)
    ensures if ok then PutUnder(old(st.db), st.db, admin, d, universe) else st.db == old(st.db)
    ensures |st.db.sites.Keys| == |old(st.db).sites.Keys| + if ok then 1 else 0
  {
    var pd := ParentDomainIn(d, universe);
    if IsParentName("", d, universe) {
      ParentNameUnique(pd, "", d, universe);
    }
    ok := false;
    if mains {
      if pd == "" {
        PutUnderParent(st.db, admin, d, pd, None, universe);
        ok := Create(st, admin, d, None, before, names, universe);
      }
    } else if pd != "" {
      var parent := st.SiteByDomain(pd);
      PutUnderParent(st.db, admin, d, pd, parent, universe);
      ok := Create(st, admin, d, parent, before, names, universe);
    }
  }

  lemma RowAdded(db: Db, due: set<string>, done: set<string>, d: string)
    requires AllHaveRows(db, due * done) && (d in due ==> HasRow(db, d))
    ensures AllHaveRows(db, due * (done + {d}))
  {
  }

  /** One pass over the candidates; every name due in it ends with a row. */
  method ImportPass(st: Store, admin: int, names: seq<string>, mains: bool, universe: set<string>,
                    ghost before: Db, ghost due: set<string>)
    returns (n: nat)
    requires Importing(st, admin, before, NamesOf(names), universe) && due == Due(NamesOf(names), mains, universe)
    modifies st
    ensures Importing(st, admin, before, NamesOf(names), universe) && Grew(old(st.db), st.db)
    ensures (st.faultless ==> old(st.faultless) && AllHaveRows(st.db, due))
    ensures n == |st.db.sites.Keys| - |old(st.db).sites.Keys|
  {
    n := 0;
    ghost var done: set<string> := {};
    for k := 0 to |names|
      invariant Importing(st, admin, before, NamesOf(names), universe) && Grew(old(st.db), st.db)
      invariant done == NamesOf(names[..k])
      invariant st.faultless ==> old(st.faultless) && AllHaveRows(st.db, due * done)
      invariant n == |st.db.sites.Keys| - |old(st.db).sites.Keys|
    {
      ghost var was, clean := st.db, st.faultless;
      var ok := ImportOne(st, admin, names[k], mains, universe, before, NamesOf(names));
      if clean {
        RowsRemain(was, st.db, due * done);
        if st.faultless {
          RowAdded(st.db, due, done, names[k]);
        }
      }
      TakenNames(names, k);
      if ok {
        n := n + 1;
      }
      done := done + {names[k]};
    }
    assert NamesOf(names[..|names|]) == NamesOf(names);
    assert due * done == due;
  }

  // ----- Relinking ---------------------------------------------------------------

  /** An imported row that stands flat has no parent name. */
  ghost predicate Settled(db: Db, s: int, universe: set<string>)
    requires s in db.sites
  {
    !db.sites[s].managed && db.sites[s].kind.Main? ==> IsParentName("", db.sites[s].domain, universe)
  }

  /** Row `s` changed, if at all, from a flat imported row to one under its parent name. */
  ghost predicate RowRegrouped(a: Db, b: Db, s: int, universe: set<string>)
    requires s in a.sites && s in b.sites
  {
    b.sites[s] == a.sites[s]
    || (!a.sites[s].managed && a.sites[s].kind.Main? && b.sites[s].parent.Some? && Linked(b, s, universe)
        && b.sites[s] == a.sites[s].(kind := Subdomain, parent := b.sites[s].parent))
  }

  ghost predicate Regrouped(a: Db, b: Db, universe: set<string>) {
    && b.sites.Keys == a.sites.Keys
    && (forall s | s in a.sites :: b.sites[s].domain == a.sites[s].domain)
    && (forall s | s in a.sites :: RowRegrouped(a, b, s, universe))
  }

  method RelinkOne(st: Store, s: int, universe: set<string>)
    requires st.Valid() && s in st.db.sites
    modifies st
    ensures st.Valid() && (st.faultless ==> old(st.faultless))
    ensures st.db.sites.Keys == old(st.db).sites.Keys
    ensures forall t | t in old(st.db).sites && t != s :: st.db.sites[t] == old(st.db).sites[t]
    ensures st.db.sites[s].domain == old(st.db).sites[s].domain && RowRegrouped(old(st.db), st.db, s, universe)
    ensures st.faultless && AllHaveRows(old(st.db), universe) ==> Settled(st.db, s, universe)
  {
    var row := st.db.sites[s];
    if row.managed || row.kind.Subdomain? {
      return;
    }
    var pd := ParentDomainIn(row.domain, universe);
    if pd == "" {
      return;
    }
    var parent := st.SiteByDomain(pd);
    if parent.None? || parent.value == s {
      assert !HasRow(st.db, pd);
      return;
    }
    assert Placed(st.db, row) && Backed(st.db, s, row);
    var _ := st.Exec(SetSiteParent(s, parent.value));
  }

  lemma StillLinked(b: Db, c: Db, t: int, universe: set<string>)
    requires c.sites.Keys == b.sites.Keys && t in b.sites && c.sites[t] == b.sites[t]
    requires forall r | r in b.sites :: c.sites[r].domain == b.sites[r].domain
    ensures Linked(b, t, universe) ==> Linked(c, t, universe)
  {
    if b.sites[t].parent.Some? && Linked(b, t, universe) {
      var p: int := b.sites[t].parent.value;
      assert p in b.sites;
      assert c.sites[p].domain == b.sites[p].domain;
    }
  }

  lemma RegroupStep(a: Db, b: Db, c: Db, s: int, universe: set<string>)
    requires Regrouped(a, b, universe) && s in b.sites && c.sites.Keys == b.sites.Keys
    requires forall t | t in b.sites && t != s :: c.sites[t] == b.sites[t]
    requires c.sites[s].domain == b.sites[s].domain && RowRegrouped(b, c, s, universe)
    ensures Regrouped(a, c, universe)
  {
    forall t | t in a.sites ensures RowRegrouped(a, c, t, universe) {
      assert RowRegrouped(a, b, t, universe);
      if c.sites[t] == b.sites[t] { StillLinked(b, c, t, universe); }
    }
  }

  lemma RegroupKeepsRows(a: Db, b: Db, universe: set<string>)
    requires Regrouped(a, b, universe) && AllHaveRows(a, universe)
    ensures AllHaveRows(b, universe)
  {
    forall d | d in universe ensures HasRow(b, d) {
      assert HasRow(a, d);
      var s :| s in a.sites && a.sites[s].domain == d;
      assert s in b.sites && b.sites[s].domain == d;
    }
  }

  ghost predicate AllSettled(db: Db, rows: set<int>, universe: set<string>) {
    forall s | s in rows && s in db.sites :: Settled(db, s, universe)
  }

  /** Groups every flat imported row whose parent name has a row. */
  method Relink(st: Store, universe: set<string>)
    requires st.Valid()
    modifies st
    ensures st.Valid() && (st.faultless ==> old(st.faultless))
    ensures Regrouped(old(st.db), st.db, universe)
    ensures st.faultless && AllHaveRows(old(st.db), universe) ==> AllSettled(st.db, st.db.sites.Keys, universe)
  {
    var todo: set<int> := st.db.sites.Keys;
    ghost var done: set<int> := {};
    while todo != {}
      invariant st.Valid() && (st.faultless ==> old(st.faultless))
      invariant Regrouped(old(st.db), st.db, universe)
      invariant todo <= st.db.sites.Keys == todo + done && todo !! done
      invariant st.faultless && AllHaveRows(old(st.db), universe) ==> AllSettled(st.db, done, universe)
    {
      ghost var was := st.db;
      var s := Pick(todo);
      RelinkOne(st, s, universe);
      RegroupStep(old(st.db), was, st.db, s, universe);
      if AllHaveRows(old(st.db), universe) {
        RegroupKeepsRows(old(st.db), was, universe);
      }
      todo, done := todo - {s}, done + {s};
    }
  }

  // ----- Pruning -------------------------------------------------------------------

  predicate Stale(db: Db, s: int, onDisk: set<string>)
    requires s in db.sites
  {
    !db.sites[s].managed && db.sites[s].domain !in onDisk
  }

  /** No row changed, and a row that went was stale or went with its parent. */
  ghost predicate OnlyStaleGone(a: Db, b: Db, onDisk: set<string>) {
    && (forall s | s in b.sites :: s in a.sites && b.sites[s] == a.sites[s])
    && (forall s | s in a.sites && s !in b.sites ::
          Stale(a, s, onDisk) || (a.sites[s].parent.Some? && a.sites[s].parent.value !in b.sites))
  }

  lemma StaleDropped(a: Db, b: Db, s: int, onDisk: set<string>)
    requires OnlyStaleGone(a, b, onDisk) && s in a.sites && Stale(a, s, onDisk)
    ensures OnlyStaleGone(a, DeleteSites(b, {s}), onDisk) && s !in DeleteSites(b, {s}).sites
  {
    DoomedIsLeast(b.sites, {s});
    var gone := Doomed(b.sites, {s});
    forall t | t in b.sites && t in gone && t != s ensures b.sites[t].parent.Some? && b.sites[t].parent.value in gone {
      assert t in Children(b.sites, gone);
    }
  }

  function StaleRows(db: Db, onDisk: set<string>): set<int> {
    set s | s in db.sites && Stale(db, s, onDisk)
  }

  /** Rows went, and with them exactly the apps and repositories that reference one of them. */
  ghost predicate Thinned(a: Db, b: Db) {
    && b.sites.Keys <= a.sites.Keys
    && b == a.(sites := b.sites, apps := map x | x in a.apps && x in b.sites :: a.apps[x],
               repos := map r | r in a.repos && a.repos[r] in b.sites :: a.repos[r])
  }

  lemma ReferencesLive(a: Db)
    requires Good(a)
    ensures a.apps.Keys <= a.sites.Keys && forall r | r in a.repos :: a.repos[r] in a.sites
  {
    forall x | x in a.apps ensures x in a.sites {}
  }

  lemma ThinnedStart(a: Db)
    requires Good(a)
    ensures Thinned(a, a)
  {
    ReferencesLive(a);
    assert a.apps == map x | x in a.apps && x in a.sites :: a.apps[x];
    var m := map r | r in a.repos && a.repos[r] in a.sites :: a.repos[r];
    forall r | r in a.repos ensures r in m {
      assert a.repos[r] in a.sites;
    }
    assert m.Keys == a.repos.Keys;
    assert m == a.repos;
  }

  lemma ThinnedNext(a: Db, b: Db, s: int)
    requires Thinned(a, b)
    ensures Thinned(a, DeleteSites(b, {s}))
  {
    var t := DeleteSites(b, {s});
    assert t.apps == map x | x in a.apps && x in t.sites :: a.apps[x];
    assert t.repos == map r | r in a.repos && a.repos[r] in t.sites :: a.repos[r];
  }

  lemma {:induction false} GoneIsDoomed(a: Db, b: Db, onDisk: set<string>, s: int)
    requires Good(a) && OnlyStaleGone(a, b, onDisk) && s in a.sites && s !in b.sites
    ensures s in Doomed(a.sites, StaleRows(a, onDisk))
    decreases |a.sites[s].domain|
  {
    DoomedIsLeast(a.sites, StaleRows(a, onDisk));
    if !Stale(a, s, onDisk) {
      assert Placed(a, a.sites[s]);
      var p: int := a.sites[s].parent.value;
      GoneIsDoomed(a, b, onDisk, p);
      assert s in Children(a.sites, Doomed(a.sites, StaleRows(a, onDisk)));
    }
  }

  lemma DoomedIsGone(a: Db, b: Db, onDisk: set<string>)
    requires Good(a) && Good(b) && OnlyStaleGone(a, b, onDisk)
    requires forall s | s in b.sites :: !Stale(b, s, onDisk)
    ensures Doomed(a.sites, StaleRows(a, onDisk)) <= a.sites.Keys - b.sites.Keys
  {
    var gone := a.sites.Keys - b.sites.Keys;
    forall s | s in Children(a.sites, gone) ensures s in gone {
      assert s in b.sites ==> Placed(b, b.sites[s]);
    }
    DoomedIsLeast(a.sites, StaleRows(a, onDisk));
  }

  /** Deleting the stale rows one after another, in any order, is one cascade from all of them. */
  lemma PruneIsOneCascade(a: Db, b: Db, onDisk: set<string>)
    requires Good(a) && Good(b) && OnlyStaleGone(a, b, onDisk) && Thinned(a, b)
    requires forall s | s in b.sites :: !Stale(b, s, onDisk)
    ensures b == DeleteSites(a, StaleRows(a, onDisk))
  {
    var d := Doomed(a.sites, StaleRows(a, onDisk));
    DoomedIsGone(a, b, onDisk);
    forall s | s in a.sites && s !in b.sites ensures s in d { GoneIsDoomed(a, b, onDisk, s); }
    var t := DeleteSites(a, StaleRows(a, onDisk));
    assert b.sites.Keys == a.sites.Keys - d;
    ReferencesLive(a);
    assert t.sites == b.sites;
    assert t.apps == b.apps;
    assert t.repos.Keys == b.repos.Keys by {
      forall r | r in a.repos ensures r in t.repos <==> r in b.repos {}
    }
    assert t.repos == b.repos;
  }

  /** Every managed row survives the prune exactly when none hangs, at any depth, below a stale imported row. */
  lemma ManagedSurviveExactly(db: Db, onDisk: set<string>)
    requires Good(db)
    ensures (forall s | s in db.sites && db.sites[s].managed :: s in DeleteSites(db, StaleRows(db, onDisk)).sites)
      <==> (forall s | s in db.sites && db.sites[s].managed :: !Below(db, s, StaleRows(db, onDisk)))
  {
    forall s | s in db.sites
      ensures s in DeleteSites(db, StaleRows(db, onDisk)).sites <==> !Below(db, s, StaleRows(db, onDisk))
    {
      DoomedMeansBelow(db, StaleRows(db, onDisk), s);
    }
  }

  /** An adopted subdomain below an imported site whose host is gone. */
  const ADOPTED := Db(map[1 := Admin],
                      map[1 := Site(1, "b", Main, None, false, Php, None),
                          2 := Site(1, "a.b", Subdomain, Some(1), true, Php, None)],
                      map[], map[], 3, 1, {})

  lemma ManagedRowPruned()
    ensures Good(ADOPTED) && ADOPTED.sites[2].managed && !Stale(ADOPTED, 2, {"a.b"})
    ensures 2 !in DeleteSites(ADOPTED, StaleRows(ADOPTED, {"a.b"})).sites
  {
    assert "a.b"[1..] == ".b" && "a.b"[2..] == "b";
    assert Stale(ADOPTED, 1, {"a.b"});
    DoomedIsLeast(ADOPTED.sites, StaleRows(ADOPTED, {"a.b"}));
    assert 2 in Children(ADOPTED.sites, Doomed(ADOPTED.sites, StaleRows(ADOPTED, {"a.b"})));
  }

  method PruneOne(st: Store, s: int, onDisk: set<string>, ghost a: Db)
    requires st.Valid() && s in a.sites && Stale(a, s, onDisk) && OnlyStaleGone(a, st.db, onDisk) && Thinned(a, st.db)
    modifies st
    ensures st.Valid() && (st.faultless ==> old(st.faultless))
    ensures OnlyStaleGone(a, st.db, onDisk) && Thinned(a, st.db) && st.db.sites.Keys <= old(st.db).sites.Keys
    ensures st.faultless ==> s !in st.db.sites
  {
    StaleDropped(a, st.db, s, onDisk);
    ThinnedNext(a, st.db, s);
    var _ := st.Exec(DeleteSite(s));
  }

  /** Drops imported rows whose host is gone. The cascade takes whatever hangs
      below them, managed rows included; nothing else goes, and no row changes. */
  method Prune(st: Store, onDisk: set<string>)
    requires st.Valid()
    modifies st
    ensures st.Valid() && (st.faultless ==> old(st.faultless))
    ensures OnlyStaleGone(old(st.db), st.db, onDisk)
    ensures st.faultless ==> st.db == DeleteSites(old(st.db), StaleRows(old(st.db), onDisk))
    ensures (forall s | s in old(st.db).sites :: !Stale(old(st.db), s, onDisk)) ==> st.db == old(st.db)
  {
    var snapshot := st.db;
    var todo: set<int> := snapshot.sites.Keys;
    ThinnedStart(snapshot);
    while todo != {}
      invariant st.Valid() && (st.faultless ==> old(st.faultless))
      invariant snapshot == old(st.db) && todo <= snapshot.sites.Keys
      invariant OnlyStaleGone(snapshot, st.db, onDisk) && Thinned(snapshot, st.db)
      invariant st.faultless ==> forall s | s in st.db.sites && s !in todo :: !Stale(snapshot, s, onDisk)
      invariant (forall s | s in snapshot.sites :: !Stale(snapshot, s, onDisk)) ==> st.db == snapshot
    {
      var s := Pick(todo);
      todo := todo - {s};
      if Stale(snapshot, s, onDisk) {
        PruneOne(st, s, onDisk, snapshot);
      }
    }
    if st.faultless { PruneIsOneCascade(snapshot, st.db, onDisk); }
  }

  // ----- The whole scan ----------------------------------------------------------------

  /** The hosts that may be imported and are not tracked yet: not the panel's own, validly named, not
      dismissed, and without a row. */
  method Candidates(st: Store, found: seq<Found>, dismissed: set<string>) returns (names: seq<string>)
    ensures forall d :: d in names <==> exists f :: f in found && f.domain == d && !f.ours && f.valid && d !in dismissed && !HasRow(st.db, d)
  {
    names := [];
    for k := 0 to |found|
      invariant forall d :: d in names <==> exists j :: 0 <= j < k && found[j].domain == d && !found[j].ours && found[j].valid && d !in dismissed && !HasRow(st.db, d)
    {
      var f := found[k];
      var tracked := st.SiteByDomain(f.domain);
      if tracked.Some? {
        var t: int := tracked.value;
        assert t in st.db.sites && st.db.sites[t].domain == f.domain;
      }
      if !f.ours && f.valid && f.domain !in dismissed && tracked.None? {
        names := names + [f.domain];
      }
    }
  }

  function Domains(db: Db): set<string> {
    set s | s in db.sites :: db.sites[s].domain
  }

  /** Row `s` is exactly where its name puts it. */
  ghost predicate Grouped(db: Db, s: int, universe: set<string>)
    requires s in db.sites
  {
    var row := db.sites[s];
    if row.kind.Main? then row.parent.None? && IsParentName("", row.domain, universe)
    else row.parent.Some? && row.parent.value in db.sites && IsParentName(db.sites[row.parent.value].domain, row.domain, universe)
  }

  lemma UniverseHasRows(before: Db, half: Db, full: Db, names: set<string>, universe: set<string>)
    requires Imported(before, full, names, universe) && Grew(half, full)
    requires AllHaveRows(half, Due(names, true, universe)) && AllHaveRows(full, Due(names, false, universe))
    ensures AllHaveRows(full, names) && AllHaveRows(full, Domains(before) + names)
  {
    RowsRemain(half, full, Due(names, true, universe));
    forall d | d in names ensures HasRow(full, d) {
      assert d in Due(names, true, universe) + Due(names, false, universe);
    }
    forall d | d in Domains(before) ensures HasRow(full, d) {
      var s :| s in before.sites && before.sites[s].domain == d;
      assert s in full.sites && full.sites[s].domain == d;
    }
  }

  /** The rows a scan groups: those it added, and the imported ones that stood flat. */
  predicate ToGroup(before: Db, s: int) {
    s !in before.sites || (!before.sites[s].managed && before.sites[s].kind.Main?)
  }

  /** After the relink each of them is where its name puts it, and every other row is unchanged. */
  lemma ScanGroups(before: Db, full: Db, linked: Db, names: set<string>, universe: set<string>)
    requires Good(linked) && Imported(before, full, names, universe) && Regrouped(full, linked, universe)
    requires AllSettled(linked, linked.sites.Keys, universe)
    requires Good(before)
    ensures forall s | s in linked.sites && ToGroup(before, s) :: Grouped(linked, s, universe)
    ensures forall s | s in before.sites && !ToGroup(before, s) :: s in linked.sites && linked.sites[s] == before.sites[s]
  {
    forall s | s in linked.sites && ToGroup(before, s) ensures Grouped(linked, s, universe) {
      assert RowRegrouped(full, linked, s, universe) && Placed(linked, linked.sites[s]) && Settled(linked, s, universe);
      if s in before.sites { assert Placed(before, before.sites[s]); }
      RegroupKeepsParents(full, linked, s, universe);
    }
    forall s | s in before.sites && !ToGroup(before, s) ensures linked.sites[s] == before.sites[s] {
      assert RowRegrouped(full, linked, s, universe);
    }
  }

  lemma RegroupKeepsParents(a: Db, b: Db, s: int, universe: set<string>)
    requires Regrouped(a, b, universe) && s in a.sites && Linked(a, s, universe)
    ensures Linked(b, s, universe)
  {
    assert RowRegrouped(a, b, s, universe);
    if a.sites[s].parent.Some? {
      var p: int := a.sites[s].parent.value;
      assert b.sites[p].domain == a.sites[p].domain;
    }
  }

  /** What a scan leaves behind: a row for each name, each new one where it belongs. */
  ghost predicate Scanned(before: Db, db: Db, names: set<string>, universe: set<string>, n: int) {
    && AllHaveRows(db, names)
    && n == |db.sites.Keys| - |before.sites.Keys|
    && (forall s | s in before.sites :: s in db.sites && (!ToGroup(before, s) ==> db.sites[s] == before.sites[s]))
    && (forall s | s in db.sites && ToGroup(before, s) :: !db.sites[s].managed && Grouped(db, s, universe))
  }

  /** The two insert passes. */
  method InsertCandidates(st: Store, admin: int, names: seq<string>, universe: set<string>) returns (n: nat)
    requires st.Valid() && admin in st.db.users && universe == Domains(st.db) + NamesOf(names)
    modifies st
    ensures st.Valid() && (st.faultless ==> old(st.faultless))
    ensures Imported(old(st.db), st.db, NamesOf(names), universe)
    ensures st.faultless ==> AllHaveRows(st.db, NamesOf(names)) && AllHaveRows(st.db, universe)
    ensures n == |st.db.sites.Keys| - |old(st.db).sites.Keys|
  {
    ghost var before := st.db;
    var mains := ImportPass(st, admin, names, true, universe, before, Due(NamesOf(names), true, universe));
    ghost var half, clean := st.db, st.faultless;
    var subs := ImportPass(st, admin, names, false, universe, before, Due(NamesOf(names), false, universe));
    n := mains + subs;
    if st.faultless {
      UniverseHasRows(before, half, st.db, NamesOf(names), universe);
    }
  }

  /** The insert passes and the relink pass. */
  method Register(st: Store, admin: int, names: seq<string>, universe: set<string>) returns (n: nat)
    requires st.Valid() && admin in st.db.users && universe == Domains(st.db) + NamesOf(names)
    modifies st
    ensures st.Valid()
    ensures st.faultless ==> Scanned(old(st.db), st.db, NamesOf(names), universe, n)
    ensures forall s | s in st.db.sites :: if s in old(st.db).sites then st.db.sites[s].domain == old(st.db).sites[s].domain
              && st.db.sites[s].managed == old(st.db).sites[s].managed else st.db.sites[s].domain in names
  {
    n := InsertCandidates(st, admin, names, universe);
    ghost var full := st.db;
    Relink(st, universe);
    forall s | s in st.db.sites ensures RowRegrouped(full, st.db, s, universe) {
    }
    if st.faultless {
      ScanGroups(old(st.db), full, st.db, NamesOf(names), universe);
      RegroupKeepsRows(full, st.db, universe);
    }
  }

  /** Registers what a scan finds. If only constraints refuse statements, every candidate ends with a row,
      and each row the scan added, and each imported row that stood flat, sits under the longest name it is a
      subdomain of among tracked and discovered ones, or is a main site if there is none; no other row
      changes. From the tables `grouped` so reached the prune then takes exactly the stale rows with what
      hangs below them, which is nothing when no imported row has lost its host. */
  method ImportExisting(st: Store, admin: int, found: seq<Found>, dismissed: set<string>)
    returns (n: nat, ghost names: set<string>, ghost universe: set<string>, ghost grouped: Db)
    requires st.Valid() && admin in st.db.users
    modifies st
    ensures st.Valid()
    ensures forall d :: d in names <==> exists f :: f in found && f.domain == d && !f.ours && f.valid && d !in dismissed && !HasRow(old(st.db), d)
    ensures universe == Domains(old(st.db)) + names
    ensures st.faultless ==> Scanned(old(st.db), grouped, names, universe, n)
    ensures st.faultless ==> st.db == DeleteSites(grouped, StaleRows(grouped, OnDisk(found)))
    ensures (forall s | s in old(st.db).sites :: !Stale(old(st.db), s, OnDisk(found))) ==> st.db == grouped
  {
    var cands := Candidates(st, found, dismissed);
    var known := Domains(st.db) + NamesOf(cands);
    names, universe := NamesOf(cands), known;
    n := Register(st, admin, cands, known);
    grouped := st.db;
    Prune(st, OnDisk(found));
    if forall s | s in old(st.db).sites :: !Stale(old(st.db), s, OnDisk(found)) {
      forall s | s in grouped.sites ensures !Stale(grouped, s, OnDisk(found)) {
        if s !in old(st.db).sites {
          assert grouped.sites[s].domain in OnDisk(found);
        }
      }
    }
  }

  function OnDisk(found: seq<Found>): set<string> {
    set f | f in found :: f.domain
  }
}
