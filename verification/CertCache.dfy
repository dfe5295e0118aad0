/** The certificate cache under concurrent TLS handshakes and file changes (internal/web/tls.go).
    A handshake picks its two paths, stats the certificate, stats the key, takes the mutex and answers
    from the cache or loads the two files one after the other. Every such step and every change of a
    file is atomic; `past` records the disk after each change, so a position in it is a moment. */
module CertCache {
  import opened CertFiles
  import opened Common

  /** What one handshake saw: both paths, both modification times and the moments it saw them at. */
  datatype Look = Look(cert: string, key: string, certTime: nat, certAt: nat, keyTime: nat, keyAt: nat)

  /** A cached pair: the look of the handshake that stored it, and when it read the two files. `direct` is
      false for a self-signed pair, stored because what it read did not load. */
  datatype Entry = Entry(look: Look, direct: bool, served: KeyPair, certLoaded: nat, keyLoaded: nat)

  datatype Phase =
    | Resolved(cert: string, key: string)
    | CertSeen(cert: string, key: string, certTime: nat, certAt: nat)
    | Waiting(look: Look)
    | Loading(look: Look)
    | CertLoaded(look: Look, data: Pem, loaded: nat)
    | Falling(look: Look, certLoaded: nat, keyLoaded: nat)
    | Served(look: Look, entry: Entry, hit: bool)

  datatype State = State(past: seq<Disk>, cache: Option<Entry>, mutex: Option<int>, shakes: map<int, Phase>)

  datatype Action =
    | Change(path: string, file: Option<File>)
    | Arrive(h: int, cert: string, key: string)
    | StatCert(h: int)
    | StatKey(h: int)
    | Lock(h: int)
    | LoadCert(h: int)
    | LoadKey(h: int)
    | FallBack(h: int, selfSigned: KeyPair)
    | GiveUp(h: int)

  function Now(s: State): nat requires s.past != [] { |s.past| - 1 }

  function Changed(d: Disk, path: string, file: Option<File>): Disk {
    if file.Some? then d[path := file.value] else d - {path}
  }

  predicate Newest(past: seq<Disk>, path: string, time: nat) {
    time > 0 && forall t | 0 <= t < |past| && path in past[t] :: past[t][path].mtime < time
  }

  predicate Matches(e: Entry, l: Look) {
    && e.look.cert == l.cert && e.look.key == l.key
    && e.look.certTime == l.certTime && e.look.keyTime == l.keyTime
  }

  predicate Enabled(s: State, a: Action)
    requires s.past != []
  {
    match a
    case Change(path, file) => file.Some? ==> Newest(s.past, path, file.value.mtime)
    case Arrive(h, _, _) => h !in s.shakes
    case StatCert(h) => h in s.shakes && s.shakes[h].Resolved?
    case StatKey(h) => h in s.shakes && s.shakes[h].CertSeen?
    case Lock(h) => h in s.shakes && s.shakes[h].Waiting? && s.mutex == None
    case LoadCert(h) => h in s.shakes && s.shakes[h].Loading?
    case LoadKey(h) => h in s.shakes && s.shakes[h].CertLoaded?
    case FallBack(h, selfSigned) => h in s.shakes && s.shakes[h].Falling? && Together(selfSigned.cert, selfSigned.key)
    case GiveUp(h) => h in s.shakes && s.shakes[h].Falling?
  }

  function Store(s: State, h: int, e: Entry): State {
    s.(cache := Some(e), mutex := None, shakes := s.shakes[h := Served(e.look, e, false)])
  }

  function Next(s: State, a: Action): State
    requires s.past != [] && Enabled(s, a)
  {
    var disk := Last(s.past);
    match a
    case Change(path, file) =>
      s.(past := s.past + [Changed(disk, path, file)])
    case Arrive(h, cert, key) => s.(shakes := s.shakes[h := Resolved(cert, key)])
    case StatCert(h) =>
      var p := s.shakes[h];
      s.(shakes := s.shakes[h := CertSeen(p.cert, p.key, ModTime(disk, p.cert), Now(s))])
    case StatKey(h) =>
      var p := s.shakes[h];
      s.(shakes := s.shakes[h := Waiting(Look(p.cert, p.key, p.certTime, p.certAt, ModTime(disk, p.key), Now(s)))])
    case Lock(h) =>
      var l := s.shakes[h].look;
      if s.cache.Some? && Matches(s.cache.value, l) then
        s.(shakes := s.shakes[h := Served(l, s.cache.value, true)])
      else s.(mutex := Some(h), shakes := s.shakes[h := Loading(l)])
    case LoadCert(h) =>
      var l := s.shakes[h].look;
      s.(shakes := s.shakes[h := if l.cert in disk then CertLoaded(l, disk[l.cert].data, Now(s)) else Falling(l, Now(s), Now(s))])
    case LoadKey(h) =>
      var p := s.shakes[h];
      if p.look.key in disk && Together(p.data, disk[p.look.key].data)
      then Store(s, h, Entry(p.look, true, KeyPair(p.data, disk[p.look.key].data), p.loaded, Now(s)))
      else s.(shakes := s.shakes[h := Falling(p.look, p.loaded, Now(s))])
    case FallBack(h, selfSigned) =>
      var p := s.shakes[h];
      Store(s, h, Entry(p.look, false, selfSigned, p.certLoaded, p.keyLoaded))
    case GiveUp(h) => s.(mutex := None, shakes := s.shakes - {h})
  }

  // ---- Files whose modification time grows with every change ----

  /** The file is the same one at every moment from t to u. */
  ghost predicate Unchanged(past: seq<Disk>, path: string, t: nat, u: nat)
    requires t <= u < |past|
  {
    path in past[t] && forall v | t <= v <= u :: path in past[v] && past[v][path] == past[t][path]
  }

  ghost predicate Grows(past: seq<Disk>, path: string) {
    && (forall t | 0 <= t < |past| && path in past[t] :: past[t][path].mtime > 0)
    && forall t, u | 0 <= t <= u < |past| && path in past[t] && path in past[u] ::
         && past[t][path].mtime <= past[u][path].mtime
         && (past[t][path].mtime == past[u][path].mtime ==> Unchanged(past, path, t, u))
  }

  /** The file is the same one at both moments and in between. */
  ghost predicate Steady(past: seq<Disk>, path: string, t: nat, u: nat)
    requires t < |past| && u < |past|
  {
    if t <= u then Unchanged(past, path, t, u) else Unchanged(past, path, u, t)
  }

  /** Both looks saw the same modification time, so the file that is there at `at` is the one that was there
      at `seen`; and what is read at `loaded`, after `seen`, is that file or a newer one. */
  lemma SameTimeSameFile(past: seq<Disk>, path: string, at: nat, seen: nat, loaded: nat)
    requires Grows(past, path) && at < |past| && seen <= loaded < |past| && path in past[at]
    requires ModTime(past[seen], path) == ModTime(past[at], path)
    ensures Steady(past, path, seen, at)
    ensures loaded <= at ==> Steady(past, path, at, loaded)
    ensures path in past[loaded] ==>
      && past[at][path].mtime <= past[loaded][path].mtime
      && (past[at][path] == past[loaded][path] <==> Steady(past, path, at, loaded))
  {
    assert path in past[seen];
    if seen <= at { assert Unchanged(past, path, seen, at); } else { assert Unchanged(past, path, at, seen); }
    if loaded <= at {
      assert path in past[loaded] && past[loaded][path] == past[seen][path] == past[at][path];
    }
  }

  lemma GrowsNext(past: seq<Disk>, path: string, file: Option<File>, other: string)
    requires past != [] && Grows(past, other)
    requires file.Some? ==> Newest(past, path, file.value.mtime)
    ensures Grows(past + [Changed(Last(past), path, file)], other)
  {
    var now: seq<Disk> := past + [Changed(Last(past), path, file)];
    var n := |past|;
    forall t, u | 0 <= t <= u < |now| && other in now[t] && other in now[u]
      ensures now[t][other].mtime <= now[u][other].mtime
      ensures now[t][other].mtime == now[u][other].mtime ==> Unchanged(now, other, t, u)
    {
      if u < n {
        assert now[t] == past[t] && now[u] == past[u];
        if now[t][other].mtime == now[u][other].mtime { StillUnchanged(past, now[n], other, t, u); }
      } else if t < n {
        assert now[t] == past[t];
        if other != path {
          assert now[n][other] == past[n - 1][other];
          if now[t][other].mtime == now[n][other].mtime { StillUnchanged(past, now[n], other, t, n - 1); }
        }
      }
    }
  }

  lemma StillUnchanged(past: seq<Disk>, d: Disk, path: string, t: nat, u: nat)
    requires t <= u < |past| && Unchanged(past, path, t, u)
    ensures Unchanged(past + [d], path, t, u)
  {
    forall v | t <= v <= u ensures path in (past + [d])[v] && (past + [d])[v][path] == (past + [d])[t][path] {
      assert path in past[v] && past[v][path] == past[t][path];
    }
  }

  // ---- What every reachable state satisfies ----

  ghost predicate LookOk(past: seq<Disk>, l: Look) {
    && l.certAt < |past| && l.certTime == ModTime(past[l.certAt], l.cert)
    && l.keyAt < |past| && l.keyTime == ModTime(past[l.keyAt], l.key)
  }

  /** The certificate as it is at one moment and the key as it is at another load together. */
  ghost predicate LoadsAt(past: seq<Disk>, cert: string, key: string, certAt: nat, keyAt: nat) {
    && certAt < |past| && keyAt < |past| && cert in past[certAt] && key in past[keyAt]
    && Together(past[certAt][cert].data, past[keyAt][key].data)
  }

  /** The pair read at the two moments. */
  ghost function PairAt(past: seq<Disk>, cert: string, key: string, certAt: nat, keyAt: nat): KeyPair
    requires LoadsAt(past, cert, key, certAt, keyAt)
  {
    KeyPair(past[certAt][cert].data, past[keyAt][key].data)
  }

  /** The load of a handshake came after its look. */
  ghost predicate LoadOk(past: seq<Disk>, l: Look, certLoaded: nat, keyLoaded: nat) {
    LookOk(past, l) && l.certAt <= certLoaded < |past| && l.keyAt <= keyLoaded < |past|
  }

  ghost predicate EntryOk(past: seq<Disk>, e: Entry) {
    && LoadOk(past, e.look, e.certLoaded, e.keyLoaded)
    && (e.direct <==> LoadsAt(past, e.look.cert, e.look.key, e.certLoaded, e.keyLoaded))
    && (e.direct ==> e.served == PairAt(past, e.look.cert, e.look.key, e.certLoaded, e.keyLoaded))
  }

  predicate Holds(p: Phase) { p.Loading? || p.CertLoaded? || p.Falling? }

  ghost predicate PhaseOk(past: seq<Disk>, p: Phase) {
    match p
    case Resolved(_, _) => true
    case CertSeen(cert, _, time, at) => at < |past| && time == ModTime(past[at], cert)
    case Waiting(l) => LookOk(past, l)
    case Loading(l) => LookOk(past, l)
    case Falling(l, c, k) => LoadOk(past, l, c, k) && !LoadsAt(past, l.cert, l.key, c, k)
    case CertLoaded(l, data, loaded) =>
      && LookOk(past, l) && l.certAt <= loaded < |past|
      && l.cert in past[loaded] && data == past[loaded][l.cert].data
    case Served(l, e, hit) =>
      && LookOk(past, l) && EntryOk(past, e)
      && if hit then Matches(e, l) else e.look == l
  }

  ghost predicate Inv(s: State) {
    && s.past != []
    && (forall path :: Grows(s.past, path))
    && (s.cache.Some? ==> EntryOk(s.past, s.cache.value))
    && (forall h | h in s.shakes :: PhaseOk(s.past, s.shakes[h]))
    && (forall h | h in s.shakes :: Holds(s.shakes[h]) <==> s.mutex == Some(h))
    && (s.mutex.Some? ==> s.mutex.value in s.shakes)
  }

  lemma PhaseKept(past: seq<Disk>, d: Disk, p: Phase)
    requires PhaseOk(past, p)
    ensures PhaseOk(past + [d], p)
  {
  }

  lemma ChangeKeeps(s: State, path: string, file: Option<File>)
    requires Inv(s) && Enabled(s, Change(path, file))
    ensures Inv(Next(s, Change(path, file)))
  {
    var t := Next(s, Change(path, file));
    forall other ensures Grows(t.past, other) {
      GrowsNext(s.past, path, file, other);
    }
    forall h | h in t.shakes ensures PhaseOk(t.past, t.shakes[h]) {
      PhaseKept(s.past, Last(t.past), s.shakes[h]);
    }
  }

  /** The steps that neither take, pass nor leave the mutex. */
  lemma QuietKeeps(s: State, a: Action)
    requires Inv(s) && Enabled(s, a) && (a.Arrive? || a.StatCert? || a.StatKey? || a.LoadCert?)
    ensures Inv(Next(s, a))
  {
  }

  lemma MutexKeeps(s: State, a: Action)
    requires Inv(s) && Enabled(s, a) && (a.Lock? || a.GiveUp?)
    ensures Inv(Next(s, a))
  {
  }

  lemma StoreKeeps(s: State, a: Action)
    requires Inv(s) && Enabled(s, a) && (a.LoadKey? || a.FallBack?)
    ensures Inv(Next(s, a))
  {
  }

  lemma InvKept(s: State, a: Action)
    requires Inv(s) && Enabled(s, a)
    ensures Inv(Next(s, a))
  {
    match a
    case Change(path, file) => ChangeKeeps(s, path, file);
    case Lock(_) => MutexKeeps(s, a);
    case GiveUp(_) => MutexKeeps(s, a);
    case LoadKey(_) => StoreKeeps(s, a);
    case FallBack(_, _) => StoreKeeps(s, a);
    case _ => QuietKeeps(s, a);
  }

  // ---- Whole runs ----

  ghost predicate Dated(d: Disk) { forall path | path in d :: d[path].mtime > 0 }

  /** The panel starts with any disk, an empty cache and no handshake. */
  function Start(d: Disk): State { State([d], None, None, map[]) }

  ghost predicate Legal(s: State, acts: seq<Action>)
    requires s.past != []
    decreases |acts|
  {
    acts == [] || (Enabled(s, acts[0]) && Legal(Next(s, acts[0]), acts[1..]))
  }

  ghost function Exec(s: State, acts: seq<Action>): (t: State)
    requires s.past != [] && Legal(s, acts)
    ensures t.past != []
    decreases |acts|
  {
    if acts == [] then s else Exec(Next(s, acts[0]), acts[1..])
  }

  lemma {:induction false} InvRuns(s: State, acts: seq<Action>)
    requires Inv(s) && Legal(s, acts)
    ensures Inv(Exec(s, acts))
    decreases |acts|
  {
    if acts != [] {
      InvKept(s, acts[0]);
      InvRuns(Next(s, acts[0]), acts[1..]);
    }
  }

  /** `s` follows from a start of the panel on the disk `d`. */
  ghost predicate Reached(d: Disk, s: State) {
    exists acts :: Legal(Start(d), acts) && Exec(Start(d), acts) == s
  }

  lemma InvReached(d: Disk, s: State)
    requires Dated(d) && Reached(d, s)
    ensures Inv(s)
  {
    var acts :| Legal(Start(d), acts) && Exec(Start(d), acts) == s;
    InvRuns(Start(d), acts);
  }

  /** The answer is the pair that the handshake looked at. */
  ghost predicate AnswersLook(past: seq<Disk>, l: Look, e: Entry) {
    e.direct && LoadsAt(past, l.cert, l.key, l.certAt, l.keyAt) && e.served == PairAt(past, l.cert, l.key, l.certAt, l.keyAt)
  }

  /** Neither file changed between the look of the handshake and the load behind its answer. */
  ghost predicate SteadyUpToLoad(past: seq<Disk>, l: Look, e: Entry)
    requires LookOk(past, l) && e.certLoaded < |past| && e.keyLoaded < |past|
  {
    Steady(past, l.cert, l.certAt, e.certLoaded) && Steady(past, l.key, l.keyAt, e.keyLoaded)
  }

  /** A file that was changed never gets back contents it had before. */
  ghost predicate NeverReturns(past: seq<Disk>, path: string) {
    forall t, u | 0 <= t <= u < |past| && path in past[t] && path in past[u] && past[t][path].data == past[u][path].data ::
      Unchanged(past, path, t, u)
  }

  lemma SteadySameData(past: seq<Disk>, path: string, t: nat, u: nat)
    requires t < |past| && u < |past| && path in past[t]
    ensures Steady(past, path, t, u) ==> path in past[u] && past[u][path] == past[t][path]
    ensures NeverReturns(past, path) && path in past[u] && past[u][path].data == past[t][path].data ==> Steady(past, path, t, u)
  {
    if Steady(past, path, t, u) {
      if t <= u { assert path in past[u]; } else { assert path in past[t] && past[t][path] == past[u][path]; }
    }
  }

  /** One hit on an entry, over a history in which both files' times grow. */
  lemma HitOnEntry(past: seq<Disk>, l: Look, e: Entry)
    requires LookOk(past, l) && EntryOk(past, e) && Matches(e, l) && Grows(past, l.cert) && Grows(past, l.key)
    requires LoadsAt(past, l.cert, l.key, l.certAt, l.keyAt)
    ensures e.certLoaded <= l.certAt && e.keyLoaded <= l.keyAt ==> SteadyUpToLoad(past, l, e)
    ensures SteadyUpToLoad(past, l, e) ==> AnswersLook(past, l, e)
    ensures NeverReturns(past, l.cert) && NeverReturns(past, l.key) && AnswersLook(past, l, e) ==> SteadyUpToLoad(past, l, e)
    ensures e.direct ==>
      && past[l.certAt][l.cert].mtime <= past[e.certLoaded][l.cert].mtime
      && past[l.keyAt][l.key].mtime <= past[e.keyLoaded][l.key].mtime
  {
    SameTimeSameFile(past, l.cert, l.certAt, e.look.certAt, e.certLoaded);
    SameTimeSameFile(past, l.key, l.keyAt, e.look.keyAt, e.keyLoaded);
    SteadySameData(past, l.cert, l.certAt, e.certLoaded);
    SteadySameData(past, l.key, l.keyAt, e.keyLoaded);
  }

  /** A hit of a handshake whose pair loads at its look. If both loads behind the cache entry came before
      that look, the answer is that pair. In general it is that pair whenever neither file changed up to its
      load, and, where changes bring new contents, only then. A directly loaded answer is never older. */
  lemma HitsServeTheDisk(d: Disk, s: State, h: int)
    requires Dated(d) && Reached(d, s)
    requires h in s.shakes && s.shakes[h].Served? && s.shakes[h].hit
    ensures LookOk(s.past, s.shakes[h].look) && EntryOk(s.past, s.shakes[h].entry) && Matches(s.shakes[h].entry, s.shakes[h].look)
    ensures var l, e := s.shakes[h].look, s.shakes[h].entry;
      LoadsAt(s.past, l.cert, l.key, l.certAt, l.keyAt) ==>
        && (e.certLoaded <= l.certAt && e.keyLoaded <= l.keyAt ==> AnswersLook(s.past, l, e))
        && (SteadyUpToLoad(s.past, l, e) ==> AnswersLook(s.past, l, e))
        && (NeverReturns(s.past, l.cert) && NeverReturns(s.past, l.key) ==>
              (AnswersLook(s.past, l, e) <==> SteadyUpToLoad(s.past, l, e)))
        && (e.direct ==>
              && s.past[l.certAt][l.cert].mtime <= s.past[e.certLoaded][l.cert].mtime
              && s.past[l.keyAt][l.key].mtime <= s.past[e.keyLoaded][l.key].mtime)
  {
    InvReached(d, s);
    assert PhaseOk(s.past, s.shakes[h]);
    var l, e := s.shakes[h].look, s.shakes[h].entry;
    if LoadsAt(s.past, l.cert, l.key, l.certAt, l.keyAt) {
      HitOnEntry(s.past, l, e);
    }
  }

  /** Conversely a hit whose pair is there but does not load is answered with a self-signed pair, when the
      loads behind the entry came first. */
  lemma BrokenPairFallsBack(d: Disk, s: State, h: int)
    requires Dated(d) && Reached(d, s)
    requires h in s.shakes && s.shakes[h].Served? && s.shakes[h].hit
    requires var l, e := s.shakes[h].look, s.shakes[h].entry;
      && l.certAt < |s.past| && l.keyAt < |s.past| && l.cert in s.past[l.certAt] && l.key in s.past[l.keyAt]
      && !LoadsAt(s.past, l.cert, l.key, l.certAt, l.keyAt)
      && e.certLoaded <= l.certAt && e.keyLoaded <= l.keyAt
    ensures !s.shakes[h].entry.direct
  {
    InvReached(d, s);
    assert PhaseOk(s.past, s.shakes[h]);
    var l, e := s.shakes[h].look, s.shakes[h].entry;
    SameTimeSameFile(s.past, l.cert, l.certAt, e.look.certAt, e.certLoaded);
    SameTimeSameFile(s.past, l.key, l.keyAt, e.look.keyAt, e.keyLoaded);
    SteadySameData(s.past, l.cert, l.certAt, e.certLoaded);
    SteadySameData(s.past, l.key, l.keyAt, e.keyLoaded);
  }

  /** At most one handshake is past the cache check, and only while it holds the mutex. */
  lemma OneLoader(d: Disk, s: State, h: int, k: int)
    requires Dated(d) && Reached(d, s)
    requires h in s.shakes && Holds(s.shakes[h]) && k in s.shakes && Holds(s.shakes[k])
    ensures h == k && s.mutex == Some(h)
  {
    InvReached(d, s);
  }

  // ---- A hit need not be answered with what it looked at ----

  const OLD := File(1, Certificate(1, 10))
  const KEY := File(1, PrivateKey(1))
  const BEFORE: Disk := map["c" := OLD, "k" := KEY]
  const LOOK := Look("c", "k", 1, 0, 1, 0)

  function Two(past: seq<Disk>, cache: Option<Entry>, mutex: Option<int>, first: Phase, second: Phase): State {
    State(past, cache, mutex, map[1 := first, 2 := second])
  }

  const CHOSEN := Resolved("c", "k")
  const HALF := CertSeen("c", "k", 1, 0)
  const BOTHWAIT := Two([BEFORE], None, None, Waiting(LOOK), Waiting(LOOK))

  function After(cert: Pem): seq<Disk> { [BEFORE, BEFORE["c" := File(2, cert)]] }

  lemma {:induction false} Extend(s: State, acts: seq<Action>, a: Action)
    requires s.past != [] && Legal(s, acts) && Enabled(Exec(s, acts), a)
    ensures Legal(s, acts + [a]) && Exec(s, acts + [a]) == Next(Exec(s, acts), a)
    decreases |acts|
  {
    if acts == [] {
      assert [a] == [a] + [];
    } else {
      assert (acts + [a])[1..] == acts[1..] + [a];
      Extend(Next(s, acts[0]), acts[1..], a);
    }
  }

  lemma ReachNext(d: Disk, s: State, a: Action)
    requires s.past != [] && Reached(d, s) && Enabled(s, a)
    ensures Reached(d, Next(s, a))
  {
    var acts :| Legal(Start(d), acts) && Exec(Start(d), acts) == s;
    Extend(Start(d), acts, a);
  }

  lemma OneLooks(d: Disk, s: State, h: int)
    requires s.past == [BEFORE] && Reached(d, s) && h !in s.shakes
    ensures Reached(d, s.(shakes := s.shakes[h := Waiting(LOOK)]))
  {
    var s1 := s.(shakes := s.shakes[h := CHOSEN]);
    ReachNext(d, s, Arrive(h, "c", "k"));
    ReachNext(d, s1, StatCert(h));
    var s2 := s1.(shakes := s1.shakes[h := HALF]);
    assert Next(s1, StatCert(h)) == s2;
    ReachNext(d, s2, StatKey(h));
    assert s2.shakes[h := Waiting(LOOK)] == s.shakes[h := Waiting(LOOK)];
  }

  lemma BothLook()
    ensures Reached(BEFORE, BOTHWAIT)
  {
    assert Exec(Start(BEFORE), []) == Start(BEFORE);
    OneLooks(BEFORE, Start(BEFORE), 1);
    OneLooks(BEFORE, State([BEFORE], None, None, map[1 := Waiting(LOOK)]), 2);
    assert map[1 := Waiting(LOOK)][2 := Waiting(LOOK)] == BOTHWAIT.shakes;
  }

  /** Both have looked; the certificate is rewritten; the first one has read it. */
  lemma FirstReads(cert: Pem)
    ensures Reached(BEFORE, Two(After(cert), None, Some(1), CertLoaded(LOOK, cert, 1), Waiting(LOOK)))
  {
    BothLook();
    var s1 := Two([BEFORE], None, Some(1), Loading(LOOK), Waiting(LOOK));
    ReachNext(BEFORE, BOTHWAIT, Lock(1));
    assert Next(BOTHWAIT, Lock(1)) == s1;
    var renew := Change("c", Some(File(2, cert)));
    ReachNext(BEFORE, s1, renew);
    var s2 := s1.(past := After(cert));
    assert Next(s1, renew) == s2;
    ReachNext(BEFORE, s2, LoadCert(1));
    assert Next(s2, LoadCert(1)) == Two(After(cert), None, Some(1), CertLoaded(LOOK, cert, 1), Waiting(LOOK));
  }

  /** The second handshake is served what the first one stored. */
  lemma SecondHits(past: seq<Disk>, e: Entry)
    requires past != [] && e.look == LOOK
    requires Reached(BEFORE, Two(past, Some(e), None, Served(LOOK, e, false), Waiting(LOOK)))
    ensures Reached(BEFORE, Two(past, Some(e), None, Served(LOOK, e, false), Served(LOOK, e, true)))
  {
    var s := Two(past, Some(e), None, Served(LOOK, e, false), Waiting(LOOK));
    ReachNext(BEFORE, s, Lock(2));
    assert Next(s, Lock(2)) == Two(past, Some(e), None, Served(LOOK, e, false), Served(LOOK, e, true));
  }

  /** Two handshakes look at the old certificate; it is renewed for the same key; the first one loads and
      stores the new one under the old modification time; the second one is served it from the cache. */
  lemma HitNewerThanStat()
    ensures var e := Entry(LOOK, true, KeyPair(Certificate(1, 11), PrivateKey(1)), 1, 1);
            var s := Two(After(Certificate(1, 11)), Some(e), None, Served(LOOK, e, false), Served(LOOK, e, true));
            && Reached(BEFORE, s) && Dated(BEFORE)
            && LoadsAt(s.past, "c", "k", 0, 0) && !AnswersLook(s.past, LOOK, e)
  {
    var cert := Certificate(1, 11);
    var e := Entry(LOOK, true, KeyPair(cert, PrivateKey(1)), 1, 1);
    FirstReads(cert);
    var s := Two(After(cert), None, Some(1), CertLoaded(LOOK, cert, 1), Waiting(LOOK));
    ReachNext(BEFORE, s, LoadKey(1));
    assert Next(s, LoadKey(1)) == Two(After(cert), Some(e), None, Served(LOOK, e, false), Waiting(LOOK));
    SecondHits(After(cert), e);
  }

  /** The same with a certificate for another key: the first one reads a pair that does not match, stores
      the self-signed pair under the old times, and the second one gets that, though the pair it looked at
      loads. */
  lemma HitFallsBack(selfSigned: KeyPair)
    requires Together(selfSigned.cert, selfSigned.key)
    ensures var e := Entry(LOOK, false, selfSigned, 1, 1);
            var s := Two(After(Certificate(2, 11)), Some(e), None, Served(LOOK, e, false), Served(LOOK, e, true));
            && Reached(BEFORE, s) && Dated(BEFORE)
            && LoadsAt(s.past, "c", "k", 0, 0) && !AnswersLook(s.past, LOOK, e)
  {
    var cert := Certificate(2, 11);
    var e := Entry(LOOK, false, selfSigned, 1, 1);
    FirstReads(cert);
    var s := Two(After(cert), None, Some(1), CertLoaded(LOOK, cert, 1), Waiting(LOOK));
    ReachNext(BEFORE, s, LoadKey(1));
    var falling := Two(After(cert), None, Some(1), Falling(LOOK, 1, 1), Waiting(LOOK));
    assert Next(s, LoadKey(1)) == falling;
    ReachNext(BEFORE, falling, FallBack(1, selfSigned));
    assert Next(falling, FallBack(1, selfSigned)) == Two(After(cert), Some(e), None, Served(LOOK, e, false), Waiting(LOOK));
    SecondHits(After(cert), e);
  }
}
