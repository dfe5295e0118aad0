/** The panel's site, repository and app tables: their declared constraints, the
    statements the program issues, and exactly when a statement keeps the tables
    consistent. */
module Database {
  import opened Common

  datatype SiteType = Main | Subdomain

  datatype Role = Admin | User

  datatype Mode = Php | Static | Spa | Proxy

  datatype Site = Site(user: int, domain: string, kind: SiteType, parent: Option<int>,
                       managed: bool, mode: Mode, repo: Option<int>)

  datatype App = App(port: int, managed: bool, command: string)

  /** Rows by id. An app is keyed by its site, which is unique; a repository row
      is reduced to its project, the site it is linked to. Ids are never reused. */
  datatype Db = Db(users: map<int, Role>, sites: map<int, Site>, repos: map<int, int>, apps: map<int, App>,
                   nextSite: int, nextRepo: int, dismissed: set<string>)

  /** `parent` is a name `child` sits under: "child" ends in "." + parent. */
  predicate StrictSuffix(parent: string, child: string) {
    |child| > |parent| && child[|child| - |parent| - 1] == '.' && child[|child| - |parent|..] == parent
  }

  // ----- Consistency ---------------------------------------------------------

  /** Domains are unique, a row is a subdomain exactly when it has a parent, and
      every parent is a live row whose name is a strict dotted suffix. */
  ghost predicate Forest(db: Db) {
    && (forall s | s in db.sites :: s < db.nextSite)
    && (forall s, t | s in db.sites && t in db.sites && db.sites[s].domain == db.sites[t].domain :: s == t)
    && (forall s | s in db.sites :: Placed(db, db.sites[s]))
  }

  predicate Placed(db: Db, row: Site) {
    && row.parent.Some? == row.kind.Subdomain?
    && (row.parent.Some? ==> row.parent.value in db.sites && StrictSuffix(db.sites[row.parent.value].domain, row.domain))
  }

  /** What a row says about apps and repositories is backed by rows: a proxy site
      has an app; a mapped site is managed and names a live repository of its own
      project, which is itself or its parent. */
  predicate Backed(db: Db, s: int, row: Site) {
    && (row.mode == Proxy ==> s in db.apps)
    && (row.repo.Some? ==>
          row.managed && row.repo.value in db.repos
          && (db.repos[row.repo.value] == s || row.parent == Some(db.repos[row.repo.value])))
  }

  ghost predicate Served(db: Db) {
    && (forall s | s in db.sites :: Backed(db, s, db.sites[s]))
    && (forall a | a in db.apps :: a in db.sites)
    && (forall r | r in db.repos :: r < db.nextRepo && db.repos[r] in db.sites)
    && (forall q, r | q in db.repos && r in db.repos && db.repos[q] == db.repos[r] :: q == r)
  }

  ghost predicate Good(db: Db) {
    Forest(db) && Served(db)
  }

  // ----- Cascading deletes --------------------------------------------------------

  function Children(sites: map<int, Site>, doomed: set<int>): set<int> {
    set s | s in sites && sites[s].parent.Some? && sites[s].parent.value in doomed
  }

  /** The rows a delete of `roots` takes with it through the parent references. */
  function Doomed(sites: map<int, Site>, roots: set<int>): set<int>
    decreases sites.Keys - roots
  {
    var more := Children(sites, roots) - roots;
    if more == {} then roots else
      assert more <= sites.Keys - roots;
      Doomed(sites, roots + more)
  }

  /** The doomed rows are the least set that holds the roots and, with a row, its
      children; whatever was not a root is there because of its parent. */
  lemma {:induction false} DoomedIsLeast(sites: map<int, Site>, roots: set<int>)
    ensures var d := Doomed(sites, roots);
      && roots <= d <= roots + sites.Keys && Children(sites, d) <= d
      && (forall s | s in d - roots :: s in Children(sites, d))
      && (forall c: set<int> | roots <= c && Children(sites, c) <= c :: d <= c)
    decreases sites.Keys - roots
  {
    var more := Children(sites, roots) - roots;
    if more != {} {
      assert more <= sites.Keys - roots;
      DoomedIsLeast(sites, roots + more);
      var d := Doomed(sites, roots);
      forall c: set<int> | roots <= c && Children(sites, c) <= c ensures d <= c {
        assert Children(sites, roots) <= Children(sites, c);
        assert roots + more <= c;
      }
    } else {
      forall s | s in Children(sites, roots) ensures s in roots {
        assert s in roots || s in more;
      }
    }
  }

  /** Deleting site rows: their descendants go, and with them every app and
      repository that references one of them. */
  function DeleteSites(db: Db, roots: set<int>): Db {
    var d := Doomed(db.sites, roots);
    db.(sites := db.sites - d, apps := db.apps - d, repos := map r | r in db.repos && db.repos[r] !in d :: db.repos[r])
  }

  function SitesOf(db: Db, user: int): set<int> {
    set s | s in db.sites && db.sites[s].user == user
  }

  // ----- Statements -----------------------------------------------------------------

  datatype Write =
    | InsertSite(user: int, domain: string, kind: SiteType, parent: Option<int>, managed: bool)
    | SetSiteParent(site: int, parentId: int)
    | MarkManaged(site: int)
    | DeleteSite(site: int)
    | DeleteUser(user: int)
    | SetServe(site: int, mode: Mode)
    | SetMapping(site: int, repo: int, mode: Mode)
    | ClearMapping(repo: int)
    | InsertRepo(project: int)
    | DeleteRepo(repo: int)
    | InsertApp(site: int, command: string)
    | UpdateApp(site: int, command: string)
    | DeleteApp(site: int)
    | DismissImport(domain: string)

  /** A UNIQUE or foreign-key constraint refuses the statement. */
  predicate Rejects(db: Db, w: Write) {
    match w
    case InsertSite(user, domain, _, parent, _) =>
      user !in db.users || (exists s :: s in db.sites && db.sites[s].domain == domain)
      || (parent.Some? && parent.value !in db.sites)
    case SetSiteParent(s, p) => s in db.sites && p !in db.sites
    case InsertRepo(p) => p !in db.sites || exists r :: r in db.repos && db.repos[r] == p
    case InsertApp(s, _) => s !in db.sites || s in db.apps || exists a :: a in db.apps && db.apps[a].port == s
    case _ => false
  }

  function Update(db: Db, s: int, row: Site): Db {
    db.(sites := db.sites[s := row])
  }

  /** The effect of an accepted statement. */
  function Apply(db: Db, w: Write): Db {
    match w
    case InsertSite(user, domain, kind, parent, managed) =>
      Update(db, db.nextSite, Site(user, domain, kind, parent, managed, Php, None)).(nextSite := db.nextSite + 1)
    case SetSiteParent(s, p) =>
      if s in db.sites then Update(db, s, db.sites[s].(kind := Subdomain, parent := Some(p))) else db
    case MarkManaged(s) =>
      if s in db.sites then Update(db, s, db.sites[s].(managed := true)) else db
    case DeleteSite(s) => DeleteSites(db, {s})
    case DeleteUser(u) => DeleteSites(db, SitesOf(db, u)).(users := db.users - {u})
    case SetServe(s, mode) =>
      if s in db.sites then Update(db, s, db.sites[s].(mode := mode)) else db
    case SetMapping(s, r, mode) =>
      if s in db.sites then Update(db, s, db.sites[s].(repo := Some(r), mode := mode)) else db
    case ClearMapping(r) =>
      db.(sites := map s | s in db.sites :: if db.sites[s].repo == Some(r) then db.sites[s].(repo := None) else db.sites[s])
    case InsertRepo(p) => db.(repos := db.repos[db.nextRepo := p], nextRepo := db.nextRepo + 1)
    case DeleteRepo(r) => db.(repos := db.repos - {r})
    case InsertApp(s, command) => db.(apps := db.apps[s := App(s, true, command)])
    case UpdateApp(s, command) =>
      if s in db.apps then db.(apps := db.apps[s := db.apps[s].(managed := true, command := command)]) else db
    case DeleteApp(s) => db.(apps := db.apps - {s})
    case DismissImport(d) => db.(dismissed := db.dismissed + {d})
  }

  // ----- Exactly when a statement keeps the tables consistent ---------------------------

  /** The guard of each statement: what the program must have made sure of. */
  ghost predicate Allowed(db: Db, w: Write) {
    match w
    case InsertSite(_, domain, kind, parent, _) =>
      parent.Some? == kind.Subdomain?
      && (parent.Some? ==> parent.value in db.sites ==> StrictSuffix(db.sites[parent.value].domain, domain))
    case SetSiteParent(s, p) =>
      s in db.sites && p in db.sites ==>
        StrictSuffix(db.sites[p].domain, db.sites[s].domain)
        && Backed(db, s, db.sites[s].(kind := Subdomain, parent := Some(p)))
    case SetServe(s, mode) => s in db.sites && mode == Proxy ==> s in db.apps
    case SetMapping(s, r, mode) => s in db.sites ==> Backed(db, s, db.sites[s].(repo := Some(r), mode := mode))
    case DeleteRepo(r) => r in db.repos ==> forall s | s in db.sites :: db.sites[s].repo != Some(r)
    case DeleteApp(s) => s in db.sites ==> db.sites[s].mode != Proxy
    case _ => true
  }

  /** Changing one row in place, its name and id aside. */
  lemma UpdateKeeps(db: Db, s: int, row: Site)
    requires Good(db) && s in db.sites && row.domain == db.sites[s].domain
    ensures Good(Update(db, s, row)) <==> Placed(db, row) && Backed(db, s, row)
  {
    var t := Update(db, s, row);
    forall u | u in db.sites ensures Placed(t, db.sites[u]) && Backed(t, u, db.sites[u]) {
      assert Placed(db, db.sites[u]) && Backed(db, u, db.sites[u]);
    }
    assert t.sites[s] == row;
    assert Placed(t, row) <==> Placed(db, row);
  }

  lemma InsertSiteKeeps(db: Db, w: Write)
    requires Good(db) && w.InsertSite? && !Rejects(db, w)
    ensures Good(Apply(db, w)) <==> Allowed(db, w)
  {
    var t, s := Apply(db, w), db.nextSite;
    forall u | u in db.sites ensures Placed(t, db.sites[u]) && Backed(t, u, db.sites[u]) {
      assert Placed(db, db.sites[u]) && Backed(db, u, db.sites[u]);
    }
    assert Backed(t, s, t.sites[s]);
    assert Placed(t, t.sites[s]) <==> Allowed(db, w);
  }

  lemma DeleteSitesKeeps(db: Db, roots: set<int>)
    requires Good(db)
    ensures Good(DeleteSites(db, roots))
  {
    var t := DeleteSites(db, roots);
    DoomedIsLeast(db.sites, roots);
    forall u | u in t.sites ensures Placed(t, t.sites[u]) && Backed(t, u, t.sites[u]) {
      assert Placed(db, db.sites[u]) && Backed(db, u, db.sites[u]);
      assert u !in Children(db.sites, Doomed(db.sites, roots));
    }
  }

  lemma RowUpdateKeeps(db: Db, w: Write)
    requires Good(db) && !Rejects(db, w) && (w.SetSiteParent? || w.MarkManaged? || w.SetServe? || w.SetMapping?)
    ensures Good(Apply(db, w)) <==> Allowed(db, w)
  {
    if w.site in db.sites {
      var row := db.sites[w.site];
      assert Placed(db, row) && Backed(db, w.site, row);
      UpdateKeeps(db, w.site, Apply(db, w).sites[w.site]);
    }
  }

  lemma InsertRepoKeeps(db: Db, w: Write)
    requires Good(db) && !Rejects(db, w) && w.InsertRepo?
    ensures Good(Apply(db, w)) <==> Allowed(db, w)
  {
    var t := Apply(db, w);
    forall u | u in db.sites ensures Placed(t, t.sites[u]) && Backed(t, u, t.sites[u]) {
      assert Placed(db, db.sites[u]) && Backed(db, u, db.sites[u]);
    }
  }

  /** A row that at most loses its repository, in a table whose domains stay. */
  lemma RowUnmapped(db: Db, t: Db, u: int)
    requires u in db.sites && Placed(db, db.sites[u]) && Backed(db, u, db.sites[u])
    requires t.sites.Keys == db.sites.Keys && t.apps == db.apps && t.repos == db.repos
    requires forall v | v in db.sites :: t.sites[v].domain == db.sites[v].domain
    requires t.sites[u] == db.sites[u] || t.sites[u] == db.sites[u].(repo := None)
    ensures Placed(t, t.sites[u]) && Backed(t, u, t.sites[u])
  {
    if db.sites[u].parent.Some? {
      var p: int := db.sites[u].parent.value;
      assert p in db.sites;
    }
  }

  lemma ClearMappingKeeps(db: Db, w: Write)
    requires Good(db) && !Rejects(db, w) && w.ClearMapping?
    ensures Good(Apply(db, w)) <==> Allowed(db, w)
  {
    var t := Apply(db, w);
    forall u | u in db.sites ensures Placed(t, t.sites[u]) && Backed(t, u, t.sites[u]) {
      assert Placed(db, db.sites[u]) && Backed(db, u, db.sites[u]);
      RowUnmapped(db, t, u);
    }
  }

  lemma DeleteRepoKeeps(db: Db, w: Write)
    requires Good(db) && !Rejects(db, w) && w.DeleteRepo?
    ensures Good(Apply(db, w)) <==> Allowed(db, w)
  {
    var t := Apply(db, w);
    forall u | u in db.sites ensures Placed(t, t.sites[u]) {
      assert Placed(db, db.sites[u]);
    }
    forall u | u in db.sites && Allowed(db, w) ensures Backed(t, u, t.sites[u]) {
      assert Backed(db, u, db.sites[u]);
    }
    if !Allowed(db, w) {
      var u :| u in db.sites && db.sites[u].repo == Some(w.repo);
      assert !Backed(t, u, t.sites[u]);
    }
  }

  lemma AppWriteKeeps(db: Db, w: Write)
    requires Good(db) && !Rejects(db, w) && (w.InsertApp? || w.UpdateApp? || w.DeleteApp?)
    ensures Good(Apply(db, w)) <==> Allowed(db, w)
  {
    var t := Apply(db, w);
    forall u | u in db.sites ensures Placed(t, t.sites[u]) && (Allowed(db, w) ==> Backed(t, u, t.sites[u])) {
      assert Placed(db, db.sites[u]) && Backed(db, u, db.sites[u]);
    }
    if !Allowed(db, w) {
      assert !Backed(t, w.site, t.sites[w.site]);
    }
  }

  /** A statement the constraints accept keeps the tables consistent exactly when
      its guard holds; the constraints alone do not see to it. */
  lemma KeptExactlyWhenAllowed(db: Db, w: Write)
    requires Good(db) && !Rejects(db, w)
    ensures Good(Apply(db, w)) <==> Allowed(db, w)
  {
    match w
    case InsertSite(_, _, _, _, _) => InsertSiteKeeps(db, w);
    case DeleteSite(s) => DeleteSitesKeeps(db, {s});
    case DeleteUser(u) =>
      DeleteSitesKeeps(db, SitesOf(db, u));
      SameTables(DeleteSites(db, SitesOf(db, u)), Apply(db, w));
    case SetSiteParent(_, _) => RowUpdateKeeps(db, w);
    case MarkManaged(_) => RowUpdateKeeps(db, w);
    case SetServe(_, _) => RowUpdateKeeps(db, w);
    case SetMapping(_, _, _) => RowUpdateKeeps(db, w);
    case ClearMapping(_) => ClearMappingKeeps(db, w);
    case InsertRepo(_) => InsertRepoKeeps(db, w);
    case DismissImport(_) => SameTables(db, Apply(db, w));
    case DeleteRepo(_) => DeleteRepoKeeps(db, w);
    case _ => AppWriteKeeps(db, w);
  }

  lemma SameTables(db: Db, t: Db)
    requires Good(db) && t == db.(users := t.users, dismissed := t.dismissed)
    ensures Good(t)
  {
    forall u | u in db.sites ensures Placed(t, t.sites[u]) && Backed(t, u, t.sites[u]) {
      assert Placed(db, db.sites[u]) && Backed(db, u, db.sites[u]);
    }
  }

  // ----- Acyclicity ------------------------------------------------------------------

  /** Following parents for `n` steps. */
  function Ancestor(db: Db, s: int, n: nat): Option<int>
    requires Good(db) && s in db.sites
    decreases n
  {
    if n == 0 then Some(s)
    else
      match db.sites[s].parent
      case None => None
      case Some(p) => assert Placed(db, db.sites[s]); Ancestor(db, p, n - 1)
  }

  /** Names get strictly shorter on the way up, so no row is its own ancestor. */
  lemma {:induction false} ParentsAcyclic(db: Db, s: int, n: nat)
    requires Good(db) && s in db.sites && n > 0
    ensures var a := Ancestor(db, s, n);
      a.Some? ==> a.value in db.sites && a.value != s && StrictSuffix(db.sites[a.value].domain, db.sites[s].domain)
    decreases n
  {
    assert Placed(db, db.sites[s]);
    if n > 1 && db.sites[s].parent.Some? {
      var p := db.sites[s].parent.value;
      ParentsAcyclic(db, p, n - 1);
    }
  }

  /** Some row of `roots` is `s` itself or above it. */
  ghost predicate Below(db: Db, s: int, roots: set<int>)
    requires Good(db) && s in db.sites
  {
    exists n: nat :: Ancestor(db, s, n).Some? && Ancestor(db, s, n).value in roots
  }

  lemma BelowParent(db: Db, s: int, p: int, roots: set<int>)
    requires Good(db) && s in db.sites && db.sites[s].parent == Some(p) && p in db.sites
    ensures Below(db, p, roots) ==> Below(db, s, roots)
    ensures Below(db, s, roots) && s !in roots ==> Below(db, p, roots)
  {
    if Below(db, p, roots) {
      var n: nat :| Ancestor(db, p, n).Some? && Ancestor(db, p, n).value in roots;
      assert Ancestor(db, s, n + 1) == Ancestor(db, p, n);
    }
    if Below(db, s, roots) && s !in roots {
      var n: nat :| Ancestor(db, s, n).Some? && Ancestor(db, s, n).value in roots;
      assert Ancestor(db, s, n) == Ancestor(db, p, n - 1);
    }
  }

  lemma BelowNothing(db: Db, s: int, roots: set<int>)
    requires Good(db) && s in db.sites && db.sites[s].parent.None? && s !in roots
    ensures !Below(db, s, roots)
  {
    forall n: nat ensures Ancestor(db, s, n) == if n == 0 then Some(s) else None {
    }
  }

  /** A cascade takes exactly the rows that hang, at any depth, below the rows deleted. */
  lemma {:induction false} DoomedMeansBelow(db: Db, roots: set<int>, s: int)
    requires Good(db) && s in db.sites
    ensures s in Doomed(db.sites, roots) <==> Below(db, s, roots)
    decreases |db.sites[s].domain|
  {
    DoomedIsLeast(db.sites, roots);
    assert Placed(db, db.sites[s]);
    if s in roots {
      assert Ancestor(db, s, 0) == Some(s);
    } else if db.sites[s].parent.Some? {
      var p: int := db.sites[s].parent.value;
      var d := Doomed(db.sites, roots);
      DoomedMeansBelow(db, roots, p);
      BelowParent(db, s, p, roots);
      assert Below(db, p, roots) <==> Below(db, s, roots);
      assert p in d <==> s in Children(db.sites, d);
      assert s in d <==> s in Children(db.sites, d);
    } else {
      BelowNothing(db, s, roots);
      assert s !in Children(db.sites, Doomed(db.sites, roots));
    }
  }

  /** What deleting rows leaves: the site rows not below them, unchanged, the apps and repositories of the
      sites that stay, and everything else as it was. */
  lemma CascadeMeans(db: Db, roots: set<int>)
    requires Good(db)
    ensures var t := DeleteSites(db, roots);
      && (forall s | s in db.sites :: s in t.sites <==> !Below(db, s, roots))
      && (forall s | s in t.sites :: s in db.sites && t.sites[s] == db.sites[s])
      && (forall a | a in db.apps :: a in t.apps <==> a in t.sites)
      && (forall a | a in t.apps :: a in db.apps && t.apps[a] == db.apps[a])
      && (forall r | r in db.repos :: r in t.repos <==> db.repos[r] in t.sites)
      && (forall r | r in t.repos :: r in db.repos && t.repos[r] == db.repos[r])
      && t == db.(sites := t.sites, apps := t.apps, repos := t.repos)
  {
    var t := DeleteSites(db, roots);
    forall s | s in db.sites ensures s in t.sites <==> !Below(db, s, roots) {
      DoomedMeansBelow(db, roots, s);
    }
    forall a | a in db.apps ensures a in db.sites {}
    forall r | r in db.repos ensures db.repos[r] in db.sites {}
  }

  // ----- Runs ----------------------------------------------------------------------------

  /** A statement as the database executes it: refused whole, or applied whole. */
  ghost function Execute(db: Db, w: Write): Db {
    if Rejects(db, w) then db else Apply(db, w)
  }

  ghost function Play(db: Db, ws: seq<Write>): Db {
    if ws == [] then db else Execute(Play(db, ws[..|ws| - 1]), Last(ws))
  }

  /** Each statement's guard holds when its turn comes. */
  ghost predicate Guarded(db: Db, ws: seq<Write>) {
    ws == [] || (Guarded(db, ws[..|ws| - 1]) && Allowed(Play(db, ws[..|ws| - 1]), Last(ws)))
  }

  /** A run of guarded statements may be cut off anywhere. */
  lemma {:induction false} CutAnywhere(db: Db, ws: seq<Write>, k: nat)
    requires Good(db) && Guarded(db, ws) && k <= |ws|
    ensures Good(Play(db, ws[..k]))
    decreases |ws|
  {
    if ws == [] {
      assert ws[..k] == [];
    } else {
      var init := ws[..|ws| - 1];
      if k < |ws| {
        CutAnywhere(db, init, k);
        assert init[..k] == ws[..k];
      } else {
        CutAnywhere(db, init, |init|);
        assert init[..|init|] == init && ws[..k] == ws;
        if !Rejects(Play(db, init), Last(ws)) {
          KeptExactlyWhenAllowed(Play(db, init), Last(ws));
        }
      }
    }
  }

  /** What a run of guarded statements, cut off anywhere, can be relied on for: names are unique; a row is a
      subdomain exactly when it has a parent, a live row it is named under; a proxy site has its app; and a
      mapped site names a live repository of its own project, itself or its parent. */
  lemma RunsKeepReferences(db: Db, ws: seq<Write>, k: nat)
    requires Good(db) && Guarded(db, ws) && k <= |ws|
    ensures var sites := Play(db, ws[..k]).sites;
      && (forall s, t | s in sites && t in sites && sites[s].domain == sites[t].domain :: s == t)
      && (forall s | s in sites :: sites[s].kind.Subdomain? <==> sites[s].parent.Some?)
      && (forall s | s in sites && sites[s].parent.Some? ::
            sites[s].parent.value in sites && StrictSuffix(sites[sites[s].parent.value].domain, sites[s].domain))
    ensures var t := Play(db, ws[..k]);
      && (forall s | s in t.sites && t.sites[s].mode == Proxy :: s in t.apps)
      && (forall s | s in t.sites && t.sites[s].repo.Some? ::
            && t.sites[s].repo.value in t.repos
            && var project := t.repos[t.sites[s].repo.value];
               project in t.sites && (project == s || t.sites[s].parent == Some(project)))
  {
    CutAnywhere(db, ws, k);
    var t := Play(db, ws[..k]);
    forall s | s in t.sites ensures Placed(t, t.sites[s]) && Backed(t, s, t.sites[s]) {}
  }

  // ----- The startup migration of the apps table ----------------------------------------------

  /** TRIM strips spaces only. */
  predicate NoCommand(command: string) {
    forall i | 0 <= i < |command| :: command[i] == ' '
  }

  function Retired(db: Db): set<int> {
    set a | a in db.apps && !db.apps[a].managed && NoCommand(db.apps[a].command)
  }

  /** Sites of retired apps serve files again. */
  function RevertRetired(db: Db): Db {
    db.(sites := map s | s in db.sites :: if s in Retired(db) then db.sites[s].(mode := Php) else db.sites[s])
  }

  function DropRetired(db: Db): Db {
    db.(apps := db.apps - Retired(db))
  }

  function ManageAll(db: Db): Db {
    db.(apps := map a | a in db.apps :: db.apps[a].(managed := true))
  }

  function AlignPorts(db: Db): Db {
    db.(apps := map a | a in db.apps :: db.apps[a].(port := a))
  }

  function Migrate(db: Db): Db {
    AlignPorts(ManageAll(DropRetired(RevertRetired(db))))
  }

  /** A change of app contents or a drop of apps no proxy site needs. */
  lemma AppsChangeKeeps(db: Db, t: Db)
    requires Good(db) && t == db.(apps := t.apps) && t.apps.Keys <= db.apps.Keys
    requires forall s | s in db.sites && db.sites[s].mode == Proxy :: s in t.apps
    ensures Good(t)
  {
    forall u | u in db.sites ensures Placed(t, t.sites[u]) && Backed(t, u, t.sites[u]) {
      assert Placed(db, db.sites[u]) && Backed(db, u, db.sites[u]);
    }
  }

  lemma RevertKeeps(db: Db)
    requires Good(db)
    ensures Good(RevertRetired(db))
  {
    var t := RevertRetired(db);
    forall u | u in t.sites ensures Placed(t, t.sites[u]) && Backed(t, u, t.sites[u]) {
      assert Placed(db, db.sites[u]) && Backed(db, u, db.sites[u]);
    }
  }

  /** The migration may be cut off after any of its statements. */
  lemma MigrationKeepsGood(db: Db)
    requires Good(db)
    ensures Good(RevertRetired(db)) && Good(DropRetired(RevertRetired(db)))
    ensures Good(ManageAll(DropRetired(RevertRetired(db)))) && Good(Migrate(db))
  {
    RevertKeeps(db);
    var a := RevertRetired(db);
    forall s | s in a.sites && a.sites[s].mode == Proxy ensures s in DropRetired(a).apps {
      assert Backed(a, s, a.sites[s]) && Backed(db, s, db.sites[s]);
    }
    AppsChangeKeeps(a, DropRetired(a));
    ProxiesBacked(DropRetired(a));
    AppsChangeKeeps(DropRetired(a), ManageAll(DropRetired(a)));
    ProxiesBacked(ManageAll(DropRetired(a)));
    AppsChangeKeeps(ManageAll(DropRetired(a)), Migrate(db));
  }

  lemma ProxiesBacked(db: Db)
    requires Good(db)
    ensures forall s | s in db.sites && db.sites[s].mode == Proxy :: s in db.apps
  {
    forall s | s in db.sites && db.sites[s].mode == Proxy ensures s in db.apps {
      assert Backed(db, s, db.sites[s]);
    }
  }

  /** What the migration does: an app that is not managed and has no command goes, and its site serves files
      again; every other app stays with its command, managed, and mirrors its site's id; nothing else changes. */
  lemma MigrationMeans(db: Db)
    ensures var t := Migrate(db);
      && (forall a | a in db.apps :: a in t.apps <==> db.apps[a].managed || !NoCommand(db.apps[a].command))
      && (forall a | a in t.apps :: a in db.apps && t.apps[a] == App(a, true, db.apps[a].command))
      && t.sites.Keys == db.sites.Keys
      && (forall s | s in db.sites ::
            t.sites[s] == if s in db.apps && s !in t.apps then db.sites[s].(mode := Php) else db.sites[s])
      && t == db.(sites := t.sites, apps := t.apps)
  {
  }

  /** Every app mirrors its site's id in the legacy port column. */
  predicate PortsAligned(db: Db) {
    forall a | a in db.apps :: db.apps[a].port == a
  }

  /** Migrating again changes nothing, and afterwards a new app row never collides. */
  lemma MigrationIdempotent(db: Db)
    ensures Migrate(Migrate(db)) == Migrate(db) && PortsAligned(Migrate(db))
    ensures forall s, command :: s in db.sites && s !in Migrate(db).apps ==> !Rejects(Migrate(db), InsertApp(s, command))
  {
    var m := Migrate(db);
    assert Retired(m) == {};
    assert RevertRetired(m).sites == m.sites;
    assert DropRetired(m).apps == m.apps && ManageAll(m).apps == m.apps && AlignPorts(m).apps == m.apps;
  }

  lemma PortsStayAligned(db: Db, w: Write)
    requires PortsAligned(db)
    ensures PortsAligned(Apply(db, w))
  {
  }
}
