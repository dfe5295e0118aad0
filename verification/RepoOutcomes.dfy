/** What a repository's status says about the steps made on it: the steps are recorded as they are made,
    with their outcomes, and the status column is read off that record. */
module RepoOutcomes {
  import opened Common
  import opened RepoJobs

  // ----- The record of a run ---------------------------------------------------------

  /** A run began, worked, published or panicked. */
  datatype Step = Began(kind: Kind) | Worked(ok: bool) | Published(ok: bool) | Panicked

  /** A call asked for a run of a repository, or a worker made a step on it. */
  datatype Report = Asked(repo: int, kind: Kind) | Made(repo: int, worker: nat, step: Step)

  /** What a step puts on record: one entry, or none when it concerns no status. */
  ghost function ReportOf(s: State, a: Action): seq<Report>
    requires Enabled(s, a)
  {
    match a
    case Mark(c) => [Asked(s.callers[c].repo, s.callers[c].kind)]
    case MarkAgain(w) => [Made(s.workers[w].run.repo, w, Began(s.workers[w].run.kind))]
    case WorkDone(w, ok) => [Made(s.workers[w].run.repo, w, Worked(ok))]
    case PublishDone(w, ok) => [Made(s.workers[w].run.repo, w, Published(ok))]
    case Panic(w) => [Made(s.workers[w].firstRepo, w, Panicked)]
    case _ => []
  }

  ghost function Record(s: State, acts: seq<Action>): seq<Report>
    requires Legal(s, acts)
    decreases |acts|
  {
    if acts == [] then [] else ReportOf(s, acts[0]) + Record(Next(s, acts[0]), acts[1..])
  }

  /** The newest entry on repository `r`. */
  function LastOn(log: seq<Report>, r: int): Option<Report> {
    if log == [] then None
    else if Last(log).repo == r then Some(Last(log))
    else LastOn(log[..|log| - 1], r)
  }

  /** The newest entry on repository `r` that a run made. */
  function LastStep(log: seq<Report>, r: int): Option<Report> {
    if log == [] then None
    else if Last(log).repo == r && Last(log).Made? then Some(Last(log))
    else LastStep(log[..|log| - 1], r)
  }

  /** The newest entry that worker `w` made. */
  function LastBy(log: seq<Report>, w: nat): Option<Report> {
    if log == [] then None
    else if Last(log).Made? && Last(log).worker == w then Some(Last(log))
    else LastBy(log[..|log| - 1], w)
  }

  /** Entry `i` is the newest on `r`. */
  ghost predicate NewestOn(log: seq<Report>, r: int, i: nat) {
    i < |log| && log[i].repo == r && forall j | i < j < |log| :: log[j].repo != r
  }

  lemma {:induction false} LastOnMeans(log: seq<Report>, r: int)
    ensures if LastOn(log, r).None? then forall i | 0 <= i < |log| :: log[i].repo != r
            else exists i: nat :: NewestOn(log, r, i) && log[i] == LastOn(log, r).value
  {
    if log != [] {
      var init := log[..|log| - 1];
      if Last(log).repo == r {
        assert NewestOn(log, r, |log| - 1);
      } else {
        LastOnMeans(init, r);
        if LastOn(init, r).Some? {
          var i: nat :| NewestOn(init, r, i) && init[i] == LastOn(init, r).value;
          assert NewestOn(log, r, i) && log[i] == init[i];
        }
      }
    }
  }

  // ----- What a status says ---------------------------------------------------------------

  /** The status a row has after this step was made on it. */
  predicate Shows(newest: Report, st: Status) {
    match newest
    case Asked(_, kind) => ShowsKind(kind, st)
    case Made(_, _, Began(kind)) => ShowsKind(kind, st)
    case Made(_, _, Worked(ok)) => if ok then st.Building? else st.Failed?
    case Made(_, _, Published(ok)) => if ok then st.Succeeded? else st.Failed?
    case Made(_, _, Panicked) => st.Failed?
  }

  predicate ShowsKind(kind: Kind, st: Status) {
    (kind.Activate? <==> st.Cloning?) && (kind.Deploy? <==> st.Deploying?) && (kind.Build? <==> st.Building?)
  }

  /** A row shows the newest step made on it since `start`; with none it is as it was, or newly linked. */
  ghost predicate RowTold(start: State, s: State, log: seq<Report>, r: int)
    requires r in s.repos
  {
    match LastOn(log, r)
    case Some(newest) => Shows(newest, s.repos[r].status)
    case None => s.repos[r].status == if r in start.repos then start.repos[r].status else Linked
  }

  /** The step ends a run. */
  predicate Ending(step: Step) {
    step == Worked(false) || step.Published? || step.Panicked?
  }

  /** The newest step of a run on this worker's row is its own, and the one that led to its phase; only a
      panic in a worker that another repository started is recorded elsewhere. */
  ghost predicate WorkerTold(log: seq<Report>, w: nat, worker: Worker) {
    var r, step := worker.run.repo, LastStep(log, worker.run.repo);
    match worker.phase
    case Work => step == Some(Made(r, w, Began(worker.run.kind))) && !worker.run.kind.Build?
    case Publish => step == Some(Made(r, w, if worker.run.kind.Build? then Began(Build) else Worked(true)))
    case Ended =>
      || (step.Some? && step.value.Made? && step.value.worker == w && Ending(step.value.step))
      || (worker.firstRepo != r && LastBy(log, w) == Some(Made(worker.firstRepo, w, Panicked)))
    case _ => true
  }

  /** The record and the state agree. */
  ghost predicate Agrees(start: State, s: State, log: seq<Report>) {
    && start.nextRepo <= s.nextRepo
    && (forall i | 0 <= i < |log| :: log[i].repo < s.nextRepo)
    && (forall r | r in s.repos :: RowTold(start, s, log, r))
    && (forall w | w in s.workers :: OfProject(s, s.workers[w].firstRepo, s.workers[w].project))
    && (forall w | w in s.workers && s.workers[w].run.repo in s.repos :: WorkerTold(log, w, s.workers[w]))
  }

  // ----- Where rows, calls and requests come from -----------------------------------------------

  /** Rows come by linking and go by unlinking, and a row keeps its project. */
  lemma RowsComeAndGo(s: State, a: Action, r: int)
    requires RowsOk(s) && Enabled(s, a)
    ensures var t := Next(s, a);
      && (r in t.repos <==> (r in s.repos && a != Unlink(r)) || (a.Link? && r == s.nextRepo))
      && (r in t.repos && r in s.repos ==> t.repos[r].project == s.repos[r].project)
      && (r in t.repos && r !in s.repos ==> t.repos[r] == Repo(a.project, Linked))
  {
  }

  /** A call reads its row's project, marks the row busy and then submits exactly one request, which asks for the
      row and the kind of run the call was made for. */
  lemma CallBecomesRequest(s: State, c: nat, r: int, kind: Kind, w: nat)
    ensures Enabled(s, Read(c, r, kind)) ==>
      Next(s, Read(c, r, kind)) == s.(callers := s.callers[c := Caller(r, s.repos[r].project, kind, false)])
    ensures Enabled(s, Mark(c)) ==>
      Next(s, Mark(c)).callers == s.callers[c := s.callers[c].(marked := true)] && Next(s, Mark(c)).made == s.made
    ensures Enabled(s, Submit(c, w)) ==>
      var t, call := Next(s, Submit(c, w)), s.callers[c];
      && t.callers == s.callers - {c} && t.repos == s.repos
      && t.made == s.made[call.project := Of(s.made, call.project) + [Request(|Of(s.made, call.project)|, call.repo, call.kind)]]
  {
  }

  // ----- Every step keeps record and state in agreement ---------------------------------------

  lemma {:induction false} UnreportedIsNone(log: seq<Report>, r: int)
    requires forall i | 0 <= i < |log| :: log[i].repo < r
    ensures LastOn(log, r) == None
  {
    if log != [] {
      UnreportedIsNone(log[..|log| - 1], r);
    }
  }

  /** A worker runs a repository of its own project. */
  lemma RunOfProject(s: State, w: nat)
    requires Inv(s) && w in s.workers
    ensures OfProject(s, s.workers[w].run.repo, s.workers[w].project)
  {
    var p := s.workers[w].project;
    assert HistoryOk(s, p);
    assert OfProject(s, Of(s.made, p)[Last(Of(s.runs, p)).num].repo, p);
  }

  /** A step changes the status of the row it reports on, to what it reports, and of no other row. */
  lemma StatusAfter(s: State, a: Action, r: int)
    requires Enabled(s, a) && !a.Boot? && r in s.repos && r in Next(s, a).repos
    requires a.Link? ==> r != s.nextRepo
    ensures var t, rep := Next(s, a), ReportOf(s, a);
      if rep != [] && rep[0].repo == r then Shows(rep[0], t.repos[r].status) else t.repos[r].status == s.repos[r].status
  {
  }

  /** What is on record concerns repositories that exist or existed. */
  lemma ReportsKnown(start: State, s: State, log: seq<Report>, a: Action)
    requires Inv(s) && Agrees(start, s, log) && Enabled(s, a)
    ensures forall i | 0 <= i < |ReportOf(s, a)| :: ReportOf(s, a)[i].repo < s.nextRepo
  {
    if a.MarkAgain? || a.WorkDone? || a.PublishDone? {
      RunOfProject(s, a.worker);
    }
  }

  /** Row ids are never reused. */
  lemma RowsAreOld(s: State, a: Action, r: int)
    requires Enabled(s, a) && r in Next(s, a).repos
    ensures r in s.repos || (a.Link? && r == s.nextRepo && Next(s, a).repos[r].status == Linked)
  {
  }

  lemma RowKept(start: State, s: State, log: seq<Report>, a: Action, r: int)
    requires Inv(s) && RowsOk(start) && Agrees(start, s, log) && Enabled(s, a) && !a.Boot? && r in Next(s, a).repos
    ensures RowTold(start, Next(s, a), log + ReportOf(s, a), r)
  {
    var rep := ReportOf(s, a);
    RowsAreOld(s, a, r);
    if r in s.repos {
      assert RowTold(start, s, log, r);
      StatusAfter(s, a, r);
      assert rep != [] ==> (log + rep)[..|log|] == log;
      assert rep == [] ==> log + rep == log;
    } else {
      UnreportedIsNone(log, r);
      assert log + rep == log;
    }
  }

  /** A step of another worker, or of none, puts nothing about a run of this row on record. */
  lemma StepOnOther(s: State, log: seq<Report>, a: Action, w: nat)
    requires Inv(s) && Enabled(s, a) && w in s.workers && s.workers[w].run.repo in s.repos
    requires forall v | v in s.workers :: OfProject(s, s.workers[v].firstRepo, s.workers[v].project)
    requires forall i | 0 <= i < |ReportOf(s, a)| :: ReportOf(s, a)[i].Made? ==> ReportOf(s, a)[i].worker != w
    requires WorkerTold(log, w, s.workers[w])
    ensures WorkerTold(log + ReportOf(s, a), w, s.workers[w])
  {
    var rep := ReportOf(s, a);
    if rep == [] {
      assert log + rep == log;
    } else {
      assert (log + rep)[..|log|] == log;
      RunOfProject(s, w);
      if rep[0].Made? {
        RunOfProject(s, rep[0].worker);
      }
    }
  }

  /** A worker's own step puts what led to its new phase on record. */
  lemma OwnStep(s: State, log: seq<Report>, a: Action, w: nat)
    requires Enabled(s, a) && (a.MarkAgain? || a.WorkDone? || a.PublishDone? || a.Panic?) && a.worker == w
    requires WorkerTold(log, w, s.workers[w]) || a.Panic?
    ensures WorkerTold(log + ReportOf(s, a), w, Next(s, a).workers[w])
  {
    assert (log + ReportOf(s, a))[..|log|] == log;
  }

  /** What the steps other than a worker's own leave it with: the run it had, or one it has yet to look up. */
  lemma WorkerAfter(s: State, a: Action, w: nat)
    requires Enabled(s, a) && w in Next(s, a).workers
    ensures var t := Next(s, a).workers[w];
      || (w in s.workers && t == s.workers[w])
      || t.phase == Lookup || t.phase == Remark
      || (a == LookUp(w) && w in s.workers && t.run == s.workers[w].run && t.run.repo !in Next(s, a).repos)
      || OwnReport(a, w)
  {
  }

  /** Worker `w` itself makes a step that is put on record. */
  predicate OwnReport(a: Action, w: nat) {
    (a.MarkAgain? || a.WorkDone? || a.PublishDone? || a.Panic?) && a.worker == w
  }

  lemma OwnReportKept(s: State, log: seq<Report>, a: Action, w: nat)
    requires Enabled(s, a) && OwnReport(a, w)
    requires s.workers[w].run.repo in s.repos ==> WorkerTold(log, w, s.workers[w])
    requires s.workers[w].run.repo in Next(s, a).repos
    ensures WorkerTold(log + ReportOf(s, a), w, Next(s, a).workers[w])
  {
    OwnStep(s, log, a, w);
  }

  lemma OthersKept(start: State, s: State, log: seq<Report>, a: Action, w: nat)
    requires Inv(s) && Agrees(start, s, log) && Enabled(s, a) && !OwnReport(a, w)
    requires w in s.workers && s.workers[w].run.repo in Next(s, a).repos
    ensures WorkerTold(log + ReportOf(s, a), w, s.workers[w])
  {
    RunOfProject(s, w);
    RowsAreOld(s, a, s.workers[w].run.repo);
    StepOnOther(s, log, a, w);
  }

  lemma WorkerKept(start: State, s: State, log: seq<Report>, a: Action, w: nat)
    requires Inv(s) && Agrees(start, s, log) && Enabled(s, a)
    requires w in Next(s, a).workers && Next(s, a).workers[w].run.repo in Next(s, a).repos
    ensures WorkerTold(log + ReportOf(s, a), w, Next(s, a).workers[w])
  {
    WorkerAfter(s, a, w);
    if OwnReport(a, w) {
      OwnReportKept(s, log, a, w);
    } else if w in s.workers && Next(s, a).workers[w] == s.workers[w] {
      OthersKept(start, s, log, a, w);
    }
  }

  lemma OfProjectKept(s: State, a: Action, r: int, p: int)
    requires Enabled(s, a) && OfProject(s, r, p)
    ensures OfProject(Next(s, a), r, p)
  {
  }

  /** Only a submission makes a worker, on behalf of its own row. */
  lemma StarterAfter(s: State, a: Action, w: nat)
    requires Enabled(s, a) && w in Next(s, a).workers
    ensures var t := Next(s, a).workers[w];
      if w in s.workers then t.firstRepo == s.workers[w].firstRepo && t.project == s.workers[w].project
      else a.Submit? && t.firstRepo == s.callers[a.caller].repo && t.project == s.callers[a.caller].project
  {
  }

  lemma StarterKept(s: State, a: Action, w: nat)
    requires Inv(s) && Enabled(s, a) && w in Next(s, a).workers
    requires forall v | v in s.workers :: OfProject(s, s.workers[v].firstRepo, s.workers[v].project)
    ensures var t := Next(s, a); OfProject(t, t.workers[w].firstRepo, t.workers[w].project)
  {
    StarterAfter(s, a, w);
    var worker := Next(s, a).workers[w];
    OfProjectKept(s, a, worker.firstRepo, worker.project);
  }

  lemma AgreementKept(start: State, s: State, log: seq<Report>, a: Action)
    requires Inv(s) && RowsOk(start) && Agrees(start, s, log) && Enabled(s, a) && !a.Boot?
    ensures Agrees(start, Next(s, a), log + ReportOf(s, a))
  {
    var t := Next(s, a);
    ReportsKnown(start, s, log, a);
    forall r | r in t.repos ensures RowTold(start, t, log + ReportOf(s, a), r) {
      RowKept(start, s, log, a, r);
    }
    forall w | w in t.workers ensures OfProject(t, t.workers[w].firstRepo, t.workers[w].project) {
      StarterKept(s, a, w);
    }
    forall w | w in t.workers && t.workers[w].run.repo in t.repos ensures WorkerTold(log + ReportOf(s, a), w, t.workers[w]) {
      WorkerKept(start, s, log, a, w);
    }
  }

  ghost predicate Sound(start: State, s: State, log: seq<Report>) {
    Inv(s) && RowsOk(start) && Agrees(start, s, log)
  }

  lemma SoundKept(start: State, s: State, log: seq<Report>, a: Action)
    requires Sound(start, s, log) && Enabled(s, a) && !a.Boot?
    ensures Sound(start, Next(s, a), log + ReportOf(s, a))
  {
    InvKept(s, a);
    AgreementKept(start, s, log, a);
  }

  lemma RecordNext(s: State, log: seq<Report>, acts: seq<Action>)
    requires acts != [] && Legal(s, acts)
    ensures log + Record(s, acts) == log + ReportOf(s, acts[0]) + Record(Next(s, acts[0]), acts[1..])
  {
  }

  lemma {:induction false} RunAgrees(start: State, s: State, log: seq<Report>, acts: seq<Action>)
    requires Sound(start, s, log) && Legal(s, acts) && Boot !in acts
    ensures Sound(start, Exec(s, acts), log + Record(s, acts))
    decreases |acts|
  {
    if acts == [] {
      assert log + [] == log;
    } else {
      RecordNext(s, log, acts);
      SoundKept(start, s, log, acts[0]);
      RunAgrees(start, Next(s, acts[0]), log + ReportOf(s, acts[0]), acts[1..]);
    }
  }

  // ----- Whole runs ------------------------------------------------------------------------------

  /** The panel has just booted: no worker is about yet. */
  lemma RecordAgrees(s: State, acts: seq<Action>)
    requires Inv(s) && s.workers == map[] && Legal(s, acts) && Boot !in acts
    ensures Agrees(s, Exec(s, acts), Record(s, acts))
  {
    RunAgrees(s, s, [], acts);
    assert [] + Record(s, acts) == Record(s, acts);
  }

  /** From a boot to the next, whatever the interleaving: every row that is linked shows the newest step made
      on it. With none it is as the boot left it, or newly linked. */
  lemma StatusIsNewestStep(s: State, acts: seq<Action>, r: int)
    requires Inv(s) && s.workers == map[] && Legal(s, acts) && Boot !in acts && r in Exec(s, acts).repos
    ensures var st, newest := Exec(s, acts).repos[r].status, LastOn(Record(s, acts), r);
      if newest.None? then st == (if r in s.repos then s.repos[r].status else Linked)
      else Shows(newest.value, st)
  {
    RecordAgrees(s, acts);
    assert RowTold(s, Exec(s, acts), Record(s, acts), r);
  }

  /** A run whose row is still linked. At work and while it publishes, the newest step on the row is its own and
      succeeded, and the row has the busy status of its kind and stage; when it has ended, its last step is the
      newest, and the row is succeeded exactly when that step was a publish that went well, and failed otherwise.
      A request made since shows its own busy status instead; a panic in a worker that another repository started
      is on record there. */
  lemma RunOutcome(s: State, acts: seq<Action>, w: nat)
    requires Inv(s) && s.workers == map[] && Legal(s, acts) && Boot !in acts
    requires w in Exec(s, acts).workers && Exec(s, acts).workers[w].run.repo in Exec(s, acts).repos
    ensures var t, log := Exec(s, acts), Record(s, acts);
      var worker := t.workers[w];
      var r := worker.run.repo;
      var step, st, asked := LastStep(log, r), t.repos[r].status, LastOn(log, r) != LastStep(log, r);
      && (asked ==> LastOn(log, r).Some? && LastOn(log, r).value.Asked? && ShowsKind(LastOn(log, r).value.kind, st))
      && match worker.phase
         case Work =>
           && step == Some(Made(r, w, Began(worker.run.kind))) && !worker.run.kind.Build?
           && (!asked ==> ShowsKind(worker.run.kind, st))
         case Publish =>
           && step == Some(Made(r, w, if worker.run.kind.Build? then Began(Build) else Worked(true)))
           && (!asked ==> st.Building?)
         case Ended =>
           || (worker.firstRepo != r && LastBy(log, w) == Some(Made(worker.firstRepo, w, Panicked)))
           || (&& step.Some? && step.value.Made? && step.value.worker == w && Ending(step.value.step)
               && (!asked ==> if step.value.step == Published(true) then st.Succeeded? else st.Failed?))
         case _ => true
  {
    var t, log := Exec(s, acts), Record(s, acts);
    var r := t.workers[w].run.repo;
    RecordAgrees(s, acts);
    assert RowTold(s, t, log, r) && WorkerTold(log, w, t.workers[w]);
    NewestIsAskedOrStep(log, r);
  }

  /** The requests of a log are the entries that no worker made. */
  lemma {:induction false} NewestIsAskedOrStep(log: seq<Report>, r: int)
    ensures LastOn(log, r) == LastStep(log, r) || (LastOn(log, r).Some? && LastOn(log, r).value.Asked?)
  {
    if log != [] {
      NewestIsAskedOrStep(log[..|log| - 1], r);
    }
  }

  predicate Swept(before: Repo, after: Repo) {
    && after.project == before.project
    && (before.status in {Cloning, Deploying, Building} ==> after.status == Failed)
    && (before.status in {Linked, Succeeded, Failed} ==> after.status == before.status)
  }

  /** The startup sweep makes the busy rows failed and touches nothing else. */
  lemma SweepExactly(s: State, r: int)
    requires Enabled(s, Boot)
    ensures var t := Next(s, Boot);
      t.nextRepo == s.nextRepo && t.repos.Keys == s.repos.Keys && (r in s.repos ==> Swept(s.repos[r], t.repos[r]))
  {
  }

  lemma BootFirst(s: State, acts: seq<Action>)
    requires Init(s) && Legal(s, [Boot] + acts)
    ensures Legal(Next(s, Boot), acts) && Exec(s, [Boot] + acts) == Exec(Next(s, Boot), acts)
    ensures Inv(Next(s, Boot)) && Next(s, Boot).workers == map[] && Next(s, Boot).repos.Keys == s.repos.Keys
  {
    var run := [Boot] + acts;
    assert run[0] == Boot && run[1..] == acts;
    InitInv(s);
    InvKept(s, Boot);
  }

  lemma ShownAtRest(newest: Report, st: Status)
    requires Shows(newest, st) && !Busy(st)
    ensures newest.Made? && Ending(newest.step) && st == if newest.step == Published(true) then Succeeded else Failed
  {
  }

  /** From a boot to the next, when every step was benign and nothing is left to do: every row on which a step was
      made since shows how its last run ended, succeeded exactly when the publish went well. */
  lemma RestingRows(s: State, acts: seq<Action>, r: int)
    requires Init(s) && Legal(s, [Boot] + acts) && Boot !in acts && BenignRun(s, [Boot] + acts)
    requires var t := Exec(s, [Boot] + acts); t.up && t.jobs == map[] && t.callers == map[] && r in t.repos
    ensures var t, booted := Exec(s, [Boot] + acts), Next(s, Boot);
      var newest := LastOn(Record(booted, acts), r);
      if newest.None? then t.repos[r].status == if r in s.repos then booted.repos[r].status else Linked
      else newest.value.Made? && Ending(newest.value.step) &&
           t.repos[r].status == if newest.value.step == Published(true) then Succeeded else Failed
  {
    BusyMeansWork(s, [Boot] + acts);
    BootFirst(s, acts);
    StatusIsNewestStep(Next(s, Boot), acts, r);
    var newest := LastOn(Record(Next(s, Boot), acts), r);
    if newest.Some? {
      ShownAtRest(newest.value, Exec(s, [Boot] + acts).repos[r].status);
    }
  }
}
