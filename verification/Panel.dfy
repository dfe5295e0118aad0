/** The panel's operations on sites, repositories and apps, as the statements
    they issue in order. Any statement may fail and the process may die between
    two of them; every state the tables pass through is consistent. */
module Panel {
  import opened Common
  import opened Database

  ghost predicate NameTaken(db: Db, domain: string) {
    exists t :: t in db.sites && db.sites[t].domain == domain
  }

  ghost predicate HasRepo(db: Db, project: int) {
    exists r :: r in db.repos && db.repos[r] == project
  }

  class Store {
    var db: Db
    ghost const base: Db          // the tables when the store was opened
    ghost var log: seq<Write>     // the statements applied since, in order
    ghost var faultless: bool     // only constraints have refused a statement so far

    /** Every statement was guarded when it was applied, so by `CutAnywhere` each
        state since opening was consistent. */
    ghost predicate Valid()
      reads this
    {
      Good(base) && Guarded(base, log) && db == Play(base, log) && Good(db)
    }

    constructor (tables: Db)
      requires Good(tables)
      ensures Valid() && db == base == tables && log == [] && faultless
    {
      db, base, log, faultless := tables, tables, [], true;
    }

    /** One statement: applied whole, or refused by a constraint or a fault. */
    method Exec(w: Write) returns (ok: bool)
      requires Valid() && Allowed(db, w)
      modifies this
      ensures Valid()
      ensures ok ==> !Rejects(old(db), w) && db == Apply(old(db), w) && log == old(log) + [w]
      ensures !ok ==> db == old(db) && log == old(log)
      ensures faultless == (old(faultless) && (ok || Rejects(old(db), w)))
    {
      var fault: bool := *;
      if fault || Rejects(db, w) {
        faultless := faultless && Rejects(db, w);
        return false;
      }
      KeptExactlyWhenAllowed(db, w);
      ghost var before := log;
      db := Apply(db, w);
      log := log + [w];
      assert log[..|log| - 1] == before;
      return true;
    }

    method SiteByDomain(domain: string) returns (s: Option<int>)
      ensures s.Some? ==> s.value in db.sites && db.sites[s.value].domain == domain
      ensures s.None? ==> forall t | t in db.sites :: db.sites[t].domain != domain
      ensures s.Some? <==> NameTaken(db, domain)
    {
      if exists t :: t in db.sites && db.sites[t].domain == domain {
        var t :| t in db.sites && db.sites[t].domain == domain;
        return Some(t);
      }
      return None;
    }

    method RepoByProject(project: int) returns (r: Option<int>)
      ensures r.Some? ==> r.value in db.repos && db.repos[r.value] == project
      ensures r.None? ==> forall q | q in db.repos :: db.repos[q] != project
      ensures r.Some? <==> HasRepo(db, project)
    {
      if exists q :: q in db.repos && db.repos[q] == project {
        var q :| q in db.repos && db.repos[q] == project;
        return Some(q);
      }
      return None;
    }
  }

  /** A subdomain label: letters, digits and inner hyphens, at most 63. */
  predicate ValidLabel(name: string) {
    && 0 < |name| <= 63 && name[0] != '-' && name[|name| - 1] != '-'
    && forall i | 0 <= i < |name| :: 'a' <= name[i] <= 'z' || '0' <= name[i] <= '9' || name[i] == '-'
  }

  /** A label is one component of a name. */
  lemma LabelIsOneComponent(name: string)
    requires ValidLabel(name)
    ensures name != "" && '.' !in name && |name| <= 63
  {
  }

  /** The site that holds the repository of a site's project. */
  function ProjectOf(s: int, row: Site): int {
    if row.kind.Subdomain? && row.parent.Some? then row.parent.value else s
  }

  /** The mode a blank or explicit submit asks for; proxy is never entered here. */
  function FileMode(asked: Option<Mode>, current: Mode): Option<Mode> {
    match asked
    case None => Some(if current.Proxy? then Php else current)
    case Some(m) => if m.Proxy? then None else Some(m)
  }

  /** Creates a main site; `provisioned` says whether pool, vhost and reload worked. */
  method CreateSite(st: Store, owner: int, domain: string, provisioned: bool) returns (s: Option<int>)
    requires st.Valid()
    modifies st
    ensures st.Valid()
    ensures s.Some? ==>
              && provisioned && s.value == old(st.db).nextSite && !NameTaken(old(st.db), domain)
              && st.db == old(st.db).(sites := old(st.db).sites[s.value := Site(owner, domain, Main, None, true, Php, None)],
                                      nextSite := s.value + 1)
    ensures s.None? ==> st.db == old(st.db)
    ensures s.None? && st.faultless ==> NameTaken(old(st.db), domain) || owner !in old(st.db).users || !provisioned
  {
    var existing := st.SiteByDomain(domain);
    if existing.Some? || owner !in st.db.users || !provisioned {
      return None;
    }
    var next := st.db.nextSite;
    var ok := st.Exec(InsertSite(owner, domain, Main, None, true));
    return if ok then Some(next) else None;
  }

  /** Creates "name.parent" under a managed site, whatever its depth. */
  method AddSubdomain(st: Store, parentId: int, name: string, provisioned: bool) returns (s: Option<int>)
    requires st.Valid()
    modifies st
    ensures st.Valid()
    ensures s.Some? ==>
              && ValidLabel(name) && parentId in old(st.db).sites && old(st.db).sites[parentId].managed
              && s.value == old(st.db).nextSite
              && var parent := old(st.db).sites[parentId];
                 var row := Site(parent.user, name + "." + parent.domain, Subdomain, Some(parentId), true, Php, None);
                 st.db == old(st.db).(sites := old(st.db).sites[s.value := row], nextSite := s.value + 1)
    ensures s.None? ==> st.db == old(st.db)
    ensures s.None? && st.faultless && provisioned && ValidLabel(name)
              && parentId in old(st.db).sites && old(st.db).sites[parentId].managed ==>
              var parent := old(st.db).sites[parentId];
              NameTaken(old(st.db), name + "." + parent.domain) || parent.user !in old(st.db).users
  {
    if !ValidLabel(name) || parentId !in st.db.sites || !st.db.sites[parentId].managed {
      return None;
    }
    var parent := st.db.sites[parentId];
    var domain := name + "." + parent.domain;
    var existing := st.SiteByDomain(domain);
    if existing.Some? || parent.user !in st.db.users || !provisioned {
      return None;
    }
    assert domain[|domain| - |parent.domain|..] == parent.domain;
    var next := st.db.nextSite;
    var ok := st.Exec(InsertSite(parent.user, domain, Subdomain, Some(parentId), true));
    return if ok then Some(next) else None;
  }

  /** Drops a site's app once the site no longer needs it; a fault leaves it. */
  method RemoveAppFor(st: Store, s: int)
    requires st.Valid() && (s in st.db.sites ==> !st.db.sites[s].mode.Proxy?)
    modifies st
    ensures st.Valid() && (st.faultless ==> old(st.faultless))
    ensures st.db == old(st.db).(apps := st.db.apps)
    ensures st.db.apps == old(st.db).apps || st.db.apps == old(st.db).apps - {s}
    ensures st.faultless ==> s !in st.db.apps
  {
    if s in st.db.apps {
      var _ := st.Exec(DeleteApp(s));
    }
  }

  /** How a change of a site's serving ended: done, refused by a check or by the store, or written to the
      tables but reported as failed because the web server or the app could not be brought to match. */
  datatype Change = Done | Refused | NotApplied

  /** Serves files from a site: the mode changes before the app goes, and both before the vhost is written.
      `checked` is whether the owner and the document root passed, `applied` whether the vhost was rendered
      and the server reloaded. */
  method SetServeMode(st: Store, s: int, asked: Option<Mode>, checked: bool, applied: bool) returns (o: Change)
    requires st.Valid()
    modifies st
    ensures st.Valid()
    ensures o.Refused? ==> st.db == old(st.db)
    ensures !o.Refused? ==>
              && o == (if applied then Done else NotApplied)
              && checked && s in old(st.db).sites && old(st.db).sites[s].managed && asked != Some(Proxy)
              && var row := old(st.db).sites[s];
                 var mode := if asked.Some? then asked.value else if row.mode == Proxy then Php else row.mode;
              && (st.db.apps == old(st.db).apps || st.db.apps == old(st.db).apps - {s})
              && st.db == old(st.db).(sites := old(st.db).sites[s := row.(mode := mode)], apps := st.db.apps)
              && (st.faultless ==> s !in st.db.apps)
    ensures o.Refused? && st.faultless ==>
              !checked || s !in old(st.db).sites || !old(st.db).sites[s].managed || asked == Some(Proxy)
  {
    if s !in st.db.sites || !st.db.sites[s].managed {
      return Refused;
    }
    var mode := FileMode(asked, st.db.sites[s].mode);
    if mode.None? || !checked {
      return Refused;
    }
    var ok := st.Exec(SetServe(s, mode.value));
    if !ok {
      return Refused;
    }
    RemoveAppFor(st, s);
    return if applied then Done else NotApplied;
  }

  /** Site `s` has a managed app with this command, every other app is as before, and the sites are these. */
  ghost predicate AppSet(a: Db, b: Db, s: int, command: string, sites: map<int, Site>) {
    && s in b.apps && b.apps[s].command == command && b.apps[s].managed
    && b.apps[s].port == (if s in a.apps then a.apps[s].port else s)
    && b.apps - {s} == a.apps - {s}
    && b == a.(apps := b.apps, sites := sites)
  }

  /** Writes a site's app row: a new one, or the one it has. */
  method SetApp(st: Store, s: int, command: string) returns (ok: bool)
    requires st.Valid()
    modifies st
    ensures st.Valid() && (st.faultless ==> old(st.faultless))
    ensures if ok then AppSet(old(st.db), st.db, s, command, old(st.db).sites) else st.db == old(st.db)
    ensures !ok && st.faultless && PortsAligned(old(st.db)) ==> s !in old(st.db).sites
  {
    if s in st.db.apps {
      ok := st.Exec(UpdateApp(s, command));
    } else {
      ok := st.Exec(InsertApp(s, command));
    }
  }

  /** Runs a site's app behind the proxy: the app row comes before the mode, and both before the vhost and
      the app's unit. `tenant` is whether owner and command passed their checks. */
  method SetProxyApp(st: Store, s: int, command: string, tenant: bool, applied: bool) returns (o: Change)
    requires st.Valid()
    modifies st
    ensures st.Valid()
    ensures o.Refused? ==> st.db == old(st.db) || AppSet(old(st.db), st.db, s, command, old(st.db).sites)
    ensures !o.Refused? ==>
              && o == (if applied then Done else NotApplied)
              && tenant && s in old(st.db).sites && old(st.db).sites[s].managed
              && AppSet(old(st.db), st.db, s, command, old(st.db).sites[s := old(st.db).sites[s].(mode := Proxy)])
    ensures o.Refused? && st.faultless && PortsAligned(old(st.db)) ==>
              !tenant || s !in old(st.db).sites || !old(st.db).sites[s].managed
  {
    if s !in st.db.sites || !st.db.sites[s].managed || !tenant {
      return Refused;
    }
    var ok := SetApp(st, s, command);
    if !ok {
      return Refused;
    }
    ok := st.Exec(SetServe(s, Proxy));
    if !ok {
      return Refused;
    }
    return if applied then Done else NotApplied;
  }

  /** A managed main site without a repository. */
  ghost predicate Linkable(db: Db, project: int) {
    project in db.sites && db.sites[project].kind.Main? && db.sites[project].managed && !HasRepo(db, project)
  }

  /** Attaches a repository to a managed main site that has none. */
  method LinkRepo(st: Store, project: int, keyOk: bool) returns (r: Option<int>)
    requires st.Valid()
    modifies st
    ensures st.Valid()
    ensures r.Some? ==>
              && keyOk && Linkable(old(st.db), project) && r.value == old(st.db).nextRepo
              && st.db == old(st.db).(repos := old(st.db).repos[r.value := project], nextRepo := r.value + 1)
    ensures st.db.sites == old(st.db).sites && st.db.apps == old(st.db).apps && st.db.users == old(st.db).users
    ensures r.None? && st.faultless ==> (!keyOk || !Linkable(old(st.db), project)) && st.db.repos == old(st.db).repos
  {
    if project !in st.db.sites || !st.db.sites[project].kind.Main? || !st.db.sites[project].managed {
      return None;
    }
    var existing := st.RepoByProject(project);
    if existing.Some? {
      return None;
    }
    ghost var before := st.db;
    var next := st.db.nextRepo;
    var ok := st.Exec(InsertRepo(project));
    if !ok {
      return None;
    }
    assert next !in before.repos;
    if !keyOk {
      forall s | s in st.db.sites ensures st.db.sites[s].repo != Some(next) {
        assert Backed(before, s, before.sites[s]);
      }
      var _ := st.Exec(DeleteRepo(next));
      return None;
    }
    return Some(next);
  }

  /** Detaches a project's repository: mappings are cleared before the row goes. */
  method UnlinkRepo(st: Store, project: int) returns (ok: bool)
    requires st.Valid()
    modifies st
    ensures st.Valid()
    ensures st.db.sites.Keys == old(st.db).sites.Keys && st.db.apps == old(st.db).apps
    ensures ok ==> forall r | r in old(st.db).repos && old(st.db).repos[r] == project ::
              && st.db.repos == old(st.db).repos - {r} && st.db.users == old(st.db).users
              && forall s | s in old(st.db).sites :: st.db.sites[s] ==
                   if old(st.db).sites[s].repo == Some(r) then old(st.db).sites[s].(repo := None) else old(st.db).sites[s]
    ensures ok && (forall r | r in old(st.db).repos :: old(st.db).repos[r] != project) ==> st.db == old(st.db)
    ensures ok ==> forall r | r in st.db.repos :: st.db.repos[r] != project
    ensures st.faultless ==> ok
  {
    var r := st.RepoByProject(project);
    if r.None? {
      return true;
    }
    ok := st.Exec(ClearMapping(r.value));
    if ok {
      ok := st.Exec(DeleteRepo(r.value));
    }
  }

  /** The site names a live repository of its own project and is served in this mode; its app row may be gone, and
      nothing else has changed. */
  ghost predicate Mapped(before: Db, after: Db, s: int, mode: Mode) {
    && s in before.sites && s in after.sites && after.sites[s].repo.Some? && after.sites[s].repo.value in before.repos
    && var row, r := before.sites[s], after.sites[s].repo.value;
    && before.repos[r] == (if row.kind.Subdomain? && row.parent.Some? then row.parent.value else s)
    && (after.apps == before.apps || after.apps == before.apps - {s})
    && after == before.(sites := before.sites[s := row.(repo := Some(r), mode := mode)], apps := after.apps)
  }

  lemma MappedBy(before: Db, after: Db, s: int, r: int, mode: Mode)
    requires s in before.sites && r in before.repos && before.repos[r] == ProjectOf(s, before.sites[s])
    requires after.apps == before.apps || after.apps == before.apps - {s}
    requires after == Apply(before, SetMapping(s, r, mode)).(apps := after.apps)
    ensures Mapped(before, after, s, mode)
  {
  }

  /** Points a site at a folder of its project's repository. `checked` is whether the folder passed,
      `applied` whether the vhost was rendered and, without a build to wait for, the server reloaded. */
  method MapSite(st: Store, s: int, asked: Option<Mode>, checked: bool, applied: bool) returns (o: Change)
    requires st.Valid()
    modifies st
    ensures st.Valid()
    ensures o.Refused? ==> st.db == old(st.db)
    ensures !o.Refused? ==>
              && o == (if applied then Done else NotApplied)
              && checked && s in old(st.db).sites && old(st.db).sites[s].managed && asked != Some(Proxy)
              && Mapped(old(st.db), st.db, s, if asked.Some? then asked.value else Php)
              && (st.faultless ==> s !in st.db.apps)
    ensures o.Refused? && st.faultless && checked && asked != Some(Proxy) && s in old(st.db).sites && old(st.db).sites[s].managed ==>
              var row := old(st.db).sites[s];
              !HasRepo(old(st.db), if row.kind.Subdomain? && row.parent.Some? then row.parent.value else s)
  {
    if s !in st.db.sites || !st.db.sites[s].managed {
      return Refused;
    }
    var row := st.db.sites[s];
    var r := st.RepoByProject(ProjectOf(s, row));
    var mode := FileMode(asked, Php);
    if r.None? || mode.None? || !checked {
      return Refused;
    }
    var ok := st.Exec(SetMapping(s, r.value, mode.value));
    if !ok {
      return Refused;
    }
    RemoveAppFor(st, s);
    MappedBy(old(st.db), st.db, s, r.value, mode.value);
    return if applied then Done else NotApplied;
  }

  /** The auto-mapping an activation applies when its clone is done uses the repository it read before the
      clone, a repository of this very site. The tables stay consistent exactly when it is still linked. */
  lemma AutoMapAfterUnlink(db: Db, s: int, r: int, mode: Mode)
    requires Good(db) && s in db.sites && db.sites[s].managed
    requires mode != Proxy && (r in db.repos ==> db.repos[r] == s)
    ensures Good(Apply(db, SetMapping(s, r, mode))) <==> r in db.repos
  {
    KeptExactlyWhenAllowed(db, SetMapping(s, r, mode));
  }

  /** A managed site with a repository, and what an unlink during the clone makes of the tables. */
  const LINKED := Db(map[1 := Admin], map[1 := Site(1, "a.b", Main, None, true, Php, None)], map[5 := 1], map[], 2, 6, {})
  const UNLINKED := Apply(Apply(LINKED, ClearMapping(5)), DeleteRepo(5))

  lemma LinkedIsGood()
    ensures Good(LINKED) && Apply(LINKED, ClearMapping(5)) == LINKED
  {
    assert Apply(LINKED, ClearMapping(5)).sites == LINKED.sites;
  }

  lemma UnlinkedIsGood()
    ensures Good(UNLINKED) && 5 !in UNLINKED.repos && UNLINKED.sites == LINKED.sites
  {
    LinkedIsGood();
    KeptExactlyWhenAllowed(LINKED, DeleteRepo(5));
  }

  lemma UnlinkDuringClone()
    ensures Good(LINKED) && Good(UNLINKED)
    ensures Good(Apply(LINKED, SetMapping(1, 5, Php))) && !Good(Apply(UNLINKED, SetMapping(1, 5, Php)))
  {
    LinkedIsGood();
    UnlinkedIsGood();
    AutoMapAfterUnlink(LINKED, 1, 5, Php);
    AutoMapAfterUnlink(UNLINKED, 1, 5, Php);
  }

  /** The last step of an adoption. */
  method Adopt(st: Store, s: int) returns (ok: bool)
    requires st.Valid()
    modifies st
    ensures st.Valid()
    ensures ok ==> s in old(st.db).sites && !old(st.db).sites[s].managed
                   && st.db == old(st.db).(sites := old(st.db).sites[s := old(st.db).sites[s].(managed := true)])
    ensures !ok ==> st.db == old(st.db)
    ensures !ok && st.faultless ==> s !in old(st.db).sites || old(st.db).sites[s].managed
  {
    if s !in st.db.sites || st.db.sites[s].managed {
      return false;
    }
    ok := st.Exec(MarkManaged(s));
  }

  /** Deletes a site; `torn` are the sites whose server artifacts are removed. An imported site is only
      forgotten, and its name noted so that a later scan does not bring it back. */
  method RemoveSite(st: Store, s: int, applied: bool) returns (ok: bool, torn: set<int>)
    requires st.Valid()
    modifies st
    ensures st.Valid()
    ensures ok ==> s in old(st.db).sites && st.db == DeleteSites(old(st.db), {s}).(dismissed := st.db.dismissed)
    ensures !ok ==> st.db == old(st.db).(dismissed := st.db.dismissed)
    ensures !ok && st.faultless ==> s !in old(st.db).sites || (old(st.db).sites[s].managed && !applied)
    ensures st.db.dismissed == old(st.db).dismissed || (s in old(st.db).sites && !old(st.db).sites[s].managed
              && st.db.dismissed == old(st.db).dismissed + {old(st.db).sites[s].domain})
    ensures ok && st.faultless && !old(st.db).sites[s].managed ==> old(st.db).sites[s].domain in st.db.dismissed
    ensures s in old(st.db).sites && old(st.db).sites[s].managed ==>
              torn == set t | t in old(st.db).sites && old(st.db).sites[t].managed
                              && (t == s || (old(st.db).sites[s].kind.Main? && old(st.db).sites[t].parent == Some(s)))
    ensures s !in old(st.db).sites || !old(st.db).sites[s].managed ==> torn == {}
  {
    torn := {};
    if s !in st.db.sites {
      return false, {};
    }
    if !st.db.sites[s].managed {
      var _ := st.Exec(DismissImport(st.db.sites[s].domain));
      ok := st.Exec(DeleteSite(s));
      return;
    }
    torn := set t | t in st.db.sites && st.db.sites[t].managed
              && (t == s || (st.db.sites[s].kind.Main? && st.db.sites[t].parent == Some(s)));
    if !applied {
      return false, torn;
    }
    ok := st.Exec(DeleteSite(s));
  }

  function Admins(db: Db): set<int> {
    set u | u in db.users && db.users[u].Admin?
  }

  /** Deletes an account with every site it owns and all their descendants; `torn` are the sites whose
      server artifacts are removed. `counted` is whether the administrators could be counted: the last one
      is protected only then. */
  method DeleteAccount(st: Store, user: int, counted: bool, applied: bool) returns (ok: bool, torn: set<int>)
    requires st.Valid()
    modifies st
    ensures st.Valid()
    ensures ok ==> user in old(st.db).users && applied
                   && st.db == DeleteSites(old(st.db), SitesOf(old(st.db), user)).(users := old(st.db).users - {user})
    ensures !ok && st.faultless ==> user !in old(st.db).users || !applied || (counted && Admins(old(st.db)) == {user})
    ensures ok && counted && Admins(old(st.db)) != {} ==> Admins(st.db) != {}
    ensures user in old(st.db).users && counted && Admins(old(st.db)) == {user} ==> !ok && torn == {}
    ensures ok ==> forall s | s in st.db.sites :: st.db.sites[s].user != user
    ensures ok ==> torn == set s | s in SitesOf(old(st.db), user) && old(st.db).sites[s].managed
    ensures !ok ==> st.db == old(st.db)
  {
    if user !in st.db.users {
      return false, {};
    }
    OthersRemain(st.db, user);
    if st.db.users[user].Admin? && counted && |Admins(st.db)| <= 1 {
      return false, {};
    }
    torn := set s | s in SitesOf(st.db, user) && st.db.sites[s].managed;
    if !applied {
      return false, torn;
    }
    DoomedIsLeast(st.db.sites, SitesOf(st.db, user));
    ok := st.Exec(DeleteUser(user));
  }

  lemma OthersRemain(db: Db, user: int)
    ensures var t := Apply(db, DeleteUser(user)); Admins(t) == Admins(db) - {user}
    ensures Admins(db) == {user} ==> |Admins(db)| <= 1
    ensures |Admins(db)| > 1 ==> Admins(db) - {user} != {}
    ensures user in Admins(db) && |Admins(db)| <= 1 ==> Admins(db) == {user}
  {
    assert Admins(db) - {user} == {} ==> Admins(db) == {} || Admins(db) == {user};
    if user in Admins(db) {
      assert |Admins(db) - {user}| == |Admins(db)| - 1;
    }
  }

  /** Deleting an account covers the artifacts of every row its cascade takes exactly when no row of another
      account hangs below its sites. */
  lemma AccountTeardownComplete(db: Db, user: int)
    ensures SitesOf(db, user) == Doomed(db.sites, SitesOf(db, user))
      <==> forall s | s in Children(db.sites, SitesOf(db, user)) :: db.sites[s].user == user
  {
    DoomedIsLeast(db.sites, SitesOf(db, user));
    var mine := SitesOf(db, user);
    if forall s | s in Children(db.sites, mine) :: db.sites[s].user == user {
      assert Children(db.sites, mine) <= mine;
    }
  }

  /** The rows whose artifacts a delete of a managed site looks at. */
  function Reach(db: Db, s: int): set<int>
    requires s in db.sites
  {
    {s} + if db.sites[s].kind.Main? then Children(db.sites, {s}) else {}
  }

  /** A delete looks at every row the cascade takes exactly when no row hangs below
      the ones it looks at; a deeper row loses its row but keeps its artifacts. */
  lemma TeardownComplete(db: Db, s: int)
    requires s in db.sites
    ensures Reach(db, s) <= Doomed(db.sites, {s})
    ensures Reach(db, s) == Doomed(db.sites, {s}) <==> Children(db.sites, Reach(db, s)) <= Reach(db, s)
  {
    DoomedIsLeast(db.sites, {s});
    assert Children(db.sites, {s}) <= Children(db.sites, Doomed(db.sites, {s}));
  }

  /** A subdomain of a subdomain. */
  const DEEP := Db(map[1 := Admin],
                   map[1 := Site(1, "c", Main, None, true, Php, None),
                       2 := Site(1, "b.c", Subdomain, Some(1), true, Php, None),
                       3 := Site(1, "a.b.c", Subdomain, Some(2), true, Php, None)],
                   map[], map[], 4, 1, {})

  lemma DeepRowKeepsArtifacts()
    ensures Good(DEEP) && 3 in Doomed(DEEP.sites, {1}) && 3 !in Reach(DEEP, 1)
  {
    DoomedIsLeast(DEEP.sites, {1});
    var d := Doomed(DEEP.sites, {1});
    assert 2 in Children(DEEP.sites, d);
    assert 3 in Children(DEEP.sites, d);
    DeepIsGood();
  }

  lemma DeepNames()
    ensures StrictSuffix("c", "b.c") && StrictSuffix("b.c", "a.b.c")
    ensures |"c"| == 1 && |"b.c"| == 3 && |"a.b.c"| == 5
  {
    assert "b.c"[2..] == "c" && "a.b.c"[2..] == "b.c";
  }

  lemma DeepForest()
    ensures Forest(DEEP)
  {
    DeepNames();
    assert DEEP.sites.Keys == {1, 2, 3};
    assert Placed(DEEP, DEEP.sites[1]) && Placed(DEEP, DEEP.sites[2]) && Placed(DEEP, DEEP.sites[3]);
  }

  lemma DeepIsGood()
    ensures Good(DEEP)
  {
    DeepForest();
  }
}
