/** Background repository jobs: the mutex-guarded table that runs at most one
    job per project and coalesces later requests into one follow-up, together
    with the status column that requesters and workers both write.

    The protocol is a state machine whose steps are the atomic pieces of the
    program: one store operation, or one region under the jobs mutex. */
module RepoJobs {
  import opened Common

  // ----- Rows, jobs, goroutines ------------------------------------------

  datatype Status = Linked | Cloning | Deploying | Building | Succeeded | Failed

  datatype Kind = Activate | Deploy | Build

  predicate Busy(st: Status) {
    st.Cloning? || st.Deploying? || st.Building?
  }

  /** The busy status a request of this kind writes before anything else. */
  function FirstStatus(kind: Kind): Status {
    match kind
    case Activate => Cloning
    case Deploy => Deploying
    case Build => Building
  }

  datatype Repo = Repo(project: int, status: Status)

  /** A request; `num` is its position among the requests of its project. */
  datatype Request = Request(num: nat, repo: int, kind: Kind)

  datatype Job = Job(running: bool, next: Option<Request>)

  /** Where a run stands: it looks its row up, re-marks it busy, works (clone or
      fetch), publishes (build and reload) and then reaches the mutex again. */
  datatype Phase = Lookup | Remark | Work | Publish | Ended

  /** A worker goroutine. `firstRepo` is the repository of the request that
      started it, which is the one a panic is recorded on. */
  datatype Worker = Worker(project: int, firstRepo: int, run: Request, phase: Phase)

  /** A Start* call in flight: it has read the row, and perhaps marked it. */
  datatype Caller = Caller(repo: int, project: int, kind: Kind, marked: bool)

  /** The requests listed for a project in a history. */
  function Of(history: map<int, seq<Request>>, project: int): seq<Request> {
    if project in history then history[project] else []
  }

  datatype State = State(
    up: bool,
    repos: map<int, Repo>,
    nextRepo: int,
    jobs: map<int, Job>,
    workers: map<nat, Worker>,
    callers: map<nat, Caller>,
    made: map<int, seq<Request>>,   // history: requests per project since boot
    runs: map<int, seq<Request>>)   // history: runs started per project since boot

  // ----- The two regions under the mutex -----------------------------------

  predicate Running(jobs: map<int, Job>, project: int) {
    project in jobs && jobs[project].running
  }

  /** The table after a request: it waits behind a running job, replacing what
      waited before, or makes the project's job running. */
  function Enter(jobs: map<int, Job>, project: int, req: Request): map<int, Job> {
    if Running(jobs, project) then jobs[project := jobs[project].(next := Some(req))]
    else jobs[project := Job(true, if project in jobs then jobs[project].next else None)]
  }

  /** The table after a run: the waiting request is taken out to be executed, or
      the project's entry goes. */
  function Leave(jobs: map<int, Job>, project: int): map<int, Job>
    requires project in jobs
  {
    if jobs[project].next.Some? then jobs[project := jobs[project].(next := None)] else jobs - {project}
  }

  // ----- Steps -------------------------------------------------------------

  datatype Action =
    | Link(project: int)
    | Unlink(repo: int)
    | Read(caller: nat, repo: int, kind: Kind)
    | Mark(caller: nat)
    | Submit(caller: nat, worker: nat)
    | LookUp(worker: nat)
    | MarkAgain(worker: nat)
    | WorkDone(worker: nat, ok: bool)
    | PublishDone(worker: nat, ok: bool)
    | Panic(worker: nat)
    | Finish(worker: nat)
    | Crash
    | Boot

  function SetStatus(repos: map<int, Repo>, id: int, st: Status): map<int, Repo> {
    if id in repos then repos[id := repos[id].(status := st)] else repos
  }

  /** The startup sweep over rows a previous process left busy. */
  function Sweep(repos: map<int, Repo>): map<int, Repo> {
    map r | r in repos :: if Busy(repos[r].status) then repos[r].(status := Failed) else repos[r]
  }

  predicate At(s: State, w: nat, phase: Phase) {
    w in s.workers && s.workers[w].phase == phase
  }

  ghost predicate Enabled(s: State, a: Action) {
    && s.up != a.Boot?
    && match a {
         case Link(p) => forall r | r in s.repos :: s.repos[r].project != p
         case Unlink(r) => r in s.repos
         case Read(c, r, _) => c !in s.callers && r in s.repos
         case Mark(c) => c in s.callers && !s.callers[c].marked
         case Submit(c, w) => c in s.callers && s.callers[c].marked && w !in s.workers
         case LookUp(w) => At(s, w, Lookup)
         case MarkAgain(w) => At(s, w, Remark)
         case WorkDone(w, _) => At(s, w, Work)
         case PublishDone(w, _) => At(s, w, Publish)
         case Panic(w) => w in s.workers && s.workers[w].phase != Ended
         case Finish(w) => At(s, w, Ended) && s.workers[w].project in s.jobs
         case Crash => true
         case Boot => true
       }
  }

  function SetPhase(s: State, w: nat, phase: Phase): State
    requires w in s.workers
  {
    s.(workers := s.workers[w := s.workers[w].(phase := phase)])
  }

  function StartRun(s: State, w: nat, worker: Worker): State {
    var p := worker.project;
    s.(workers := s.workers[w := worker], runs := s.runs[p := Of(s.runs, p) + [worker.run]])
  }

  ghost function Next(s: State, a: Action): State
    requires Enabled(s, a)
  {
    match a
    case Link(p) =>
      s.(repos := s.repos[s.nextRepo := Repo(p, Linked)], nextRepo := s.nextRepo + 1)
    case Unlink(r) =>
      s.(repos := s.repos - {r})
    case Read(c, r, kind) =>
      s.(callers := s.callers[c := Caller(r, s.repos[r].project, kind, false)])
    case Mark(c) =>
      var caller := s.callers[c];
      s.(repos := SetStatus(s.repos, caller.repo, FirstStatus(caller.kind)),
         callers := s.callers[c := caller.(marked := true)])
    case Submit(c, w) => Submitted(s, c, w)
    case LookUp(w) =>
      SetPhase(s, w, if s.workers[w].run.repo in s.repos then Remark else Ended)
    case MarkAgain(w) =>
      var run := s.workers[w].run;
      SetPhase(s, w, if run.kind.Build? then Publish else Work)
        .(repos := SetStatus(s.repos, run.repo, FirstStatus(run.kind)))
    case WorkDone(w, ok) =>
      SetPhase(s, w, if ok then Publish else Ended)
        .(repos := SetStatus(s.repos, s.workers[w].run.repo, if ok then Building else Failed))
    case PublishDone(w, ok) =>
      SetPhase(s, w, Ended)
        .(repos := SetStatus(s.repos, s.workers[w].run.repo, if ok then Succeeded else Failed))
    case Panic(w) =>
      SetPhase(s, w, Ended).(repos := SetStatus(s.repos, s.workers[w].firstRepo, Failed))
    case Finish(w) => Finished(s, w)
    case Crash =>
      State(false, s.repos, s.nextRepo, map[], map[], map[], map[], map[])
    case Boot =>
      s.(up := true, repos := Sweep(s.repos))
  }

  /** The request a caller is about to submit. */
  function Submission(s: State, c: nat): Request
    requires c in s.callers
  {
    var caller := s.callers[c];
    Request(|Of(s.made, caller.project)|, caller.repo, caller.kind)
  }

  function Submitted(s: State, c: nat, w: nat): State
    requires c in s.callers
  {
    var p, req := s.callers[c].project, Submission(s, c);
    var t := s.(jobs := Enter(s.jobs, p, req), callers := s.callers - {c},
                made := s.made[p := Of(s.made, p) + [req]]);
    if Running(s.jobs, p) then t else StartRun(t, w, Worker(p, req.repo, req, Lookup))
  }

  function Finished(s: State, w: nat): State
    requires w in s.workers && s.workers[w].project in s.jobs
  {
    var worker := s.workers[w];
    var next := s.jobs[worker.project].next;
    var t := s.(jobs := Leave(s.jobs, worker.project));
    if next.Some? then StartRun(t, w, worker.(run := next.value, phase := Lookup))
    else t.(workers := s.workers - {w})
  }

  // ----- Invariants ----------------------------------------------------------

  /** Mutual exclusion, and the table holds exactly the projects with a worker. */
  ghost predicate OneWorkerPerProject(s: State) {
    && (forall v, w | v in s.workers && w in s.workers && s.workers[v].project == s.workers[w].project :: v == w)
    && (forall w | w in s.workers :: s.workers[w].project in s.jobs)
    && (forall p | p in s.jobs :: s.jobs[p].running && HasWorker(s, p))
  }

  ghost predicate HasWorker(s: State, p: int) {
    exists w :: w in s.workers && s.workers[w].project == p
  }

  /** The runs of a project are a strictly increasing subsequence of its
      requests, and only the newest request can still be waiting. */
  ghost predicate Served(made: seq<Request>, runs: seq<Request>, live: bool, waiting: Option<Request>) {
    && (forall n | 0 <= n < |made| :: made[n].num == n)
    && (forall k | 0 <= k < |runs| :: runs[k].num < |made| && made[runs[k].num] == runs[k])
    && (forall i, j | 0 <= i < j < |runs| :: runs[i].num < runs[j].num)
    && (live || made != [] ==> runs != [])
    && (if live && waiting.Some?
        then made != [] && waiting.value == Last(made) && Last(runs).num < |made| - 1
        else made != [] ==> Last(runs).num == |made| - 1)
  }

  function Waiting(s: State, p: int): Option<Request> {
    if p in s.jobs then s.jobs[p].next else None
  }

  ghost predicate HistoryOk(s: State, p: int) {
    Served(Of(s.made, p), Of(s.runs, p), p in s.jobs, Waiting(s, p))
  }

  ghost predicate WorkersRunNewest(s: State) {
    forall w | w in s.workers :: var runs := Of(s.runs, s.workers[w].project);
      runs != [] && s.workers[w].run == Last(runs)
  }

  /** Repository ids are never reused and one project has at most one repository. */
  ghost predicate RowsOk(s: State) {
    && (forall r | r in s.repos :: r < s.nextRepo)
    && (forall q, r | q in s.repos && r in s.repos && s.repos[q].project == s.repos[r].project :: q == r)
    && (forall c | c in s.callers :: OfProject(s, s.callers[c].repo, s.callers[c].project))
    && (forall p, n | 0 <= n < |Of(s.made, p)| :: OfProject(s, Of(s.made, p)[n].repo, p))
  }

  predicate OfProject(s: State, r: int, p: int) {
    r < s.nextRepo && (r in s.repos ==> s.repos[r].project == p)
  }

  ghost predicate Inv(s: State) {
    && OneWorkerPerProject(s)
    && WorkersRunNewest(s)
    && RowsOk(s)
    && (forall p {:trigger HistoryOk(s, p)} :: HistoryOk(s, p))
    && (!s.up ==> s.jobs == map[] && s.workers == map[] && s.callers == map[] && s.made == map[] && s.runs == map[])
  }

  /** A process about to boot on whatever table an earlier one left behind. */
  ghost predicate Init(s: State) {
    && !s.up
    && s.jobs == map[] && s.workers == map[] && s.callers == map[] && s.made == map[] && s.runs == map[]
    && RowsOk(s)
  }

  lemma InitInv(s: State)
    requires Init(s)
    ensures Inv(s)
  {
  }

  // ----- Every step keeps the invariant ----------------------------------------

  /** A step that leaves the jobs table, the histories and the assignment of
      runs to workers alone: every step but submitting, finishing and crashing. */
  ghost predicate SameTable(s: State, t: State) {
    && t.jobs == s.jobs && t.made == s.made && t.runs == s.runs && t.workers.Keys == s.workers.Keys
    && (forall w | w in s.workers :: t.workers[w].project == s.workers[w].project && t.workers[w].run == s.workers[w].run)
  }

  lemma Quiet(s: State, a: Action)
    requires Enabled(s, a) && !a.Submit? && !a.Finish? && !a.Crash?
    ensures SameTable(s, Next(s, a))
  {
  }

  lemma QuietTableKept(s: State, t: State)
    requires OneWorkerPerProject(s) && WorkersRunNewest(s) && SameTable(s, t)
    ensures OneWorkerPerProject(t) && WorkersRunNewest(t)
  {
    forall p | p in t.jobs ensures HasWorker(t, p) {
      assert HasWorker(s, p);
      var w :| w in s.workers && s.workers[w].project == p;
      assert w in t.workers && t.workers[w].project == p;
    }
  }

  /** A request that waits changes neither workers nor runs. */
  lemma QueueTableKept(s: State, t: State, p: int)
    requires OneWorkerPerProject(s) && WorkersRunNewest(s) && p in s.jobs
    requires t.jobs.Keys == s.jobs.Keys && forall q | q in t.jobs :: t.jobs[q].running
    requires t.workers == s.workers && t.runs == s.runs
    ensures OneWorkerPerProject(t) && WorkersRunNewest(t)
  {
    forall q | q in t.jobs ensures HasWorker(t, q) {
      assert HasWorker(s, q);
    }
  }

  /** Putting worker `v` on a run of a project that has no other worker. */
  lemma AssignTableKept(s: State, t: State, v: nat, worker: Worker)
    requires OneWorkerPerProject(s)
    requires if v in s.workers then s.workers[v].project == worker.project else worker.project !in s.jobs
    requires t.jobs.Keys == s.jobs.Keys + {worker.project} && forall p | p in t.jobs :: t.jobs[p].running
    requires t.workers == s.workers[v := worker]
    ensures OneWorkerPerProject(t)
  {
    forall p | p in t.jobs ensures HasWorker(t, p) {
      if p == worker.project {
        assert v in t.workers && t.workers[v].project == p;
      } else {
        assert HasWorker(s, p);
        var w :| w in s.workers && s.workers[w].project == p;
        assert w in t.workers && t.workers[w].project == p;
      }
    }
  }

  lemma AssignNewest(s: State, t: State, v: nat, worker: Worker)
    requires OneWorkerPerProject(s) && WorkersRunNewest(s)
    requires if v in s.workers then s.workers[v].project == worker.project else worker.project !in s.jobs
    requires t.workers == s.workers[v := worker]
    requires t.runs == s.runs[worker.project := Of(s.runs, worker.project) + [worker.run]]
    ensures WorkersRunNewest(t)
  {
  }

  /** A worker and its project's entry go together. */
  lemma StopTableKept(s: State, t: State, v: nat)
    requires OneWorkerPerProject(s) && WorkersRunNewest(s) && v in s.workers
    requires t.jobs == s.jobs - {s.workers[v].project} && t.workers == s.workers - {v} && t.runs == s.runs
    ensures OneWorkerPerProject(t) && WorkersRunNewest(t)
  {
    forall p | p in t.jobs ensures HasWorker(t, p) {
      assert HasWorker(s, p);
      var w :| w in s.workers && s.workers[w].project == p;
      assert w in t.workers && t.workers[w].project == p;
    }
  }

  lemma SubmitTableKept(s: State, c: nat, v: nat)
    requires OneWorkerPerProject(s) && WorkersRunNewest(s) && c in s.callers && v !in s.workers
    ensures OneWorkerPerProject(Submitted(s, c, v)) && WorkersRunNewest(Submitted(s, c, v))
  {
    var t := Submitted(s, c, v);
    var p := s.callers[c].project;
    if p in s.jobs {
      QueueTableKept(s, t, p);
    } else {
      AssignTableKept(s, t, v, t.workers[v]);
      AssignNewest(s, t, v, t.workers[v]);
    }
  }

  lemma FinishTableKept(s: State, v: nat)
    requires OneWorkerPerProject(s) && WorkersRunNewest(s) && v in s.workers
    ensures OneWorkerPerProject(Finished(s, v)) && WorkersRunNewest(Finished(s, v))
  {
    var t := Finished(s, v);
    if s.jobs[s.workers[v].project].next.Some? {
      AssignTableKept(s, t, v, t.workers[v]);
      AssignNewest(s, t, v, t.workers[v]);
    } else {
      StopTableKept(s, t, v);
    }
  }

  lemma TableKept(s: State, a: Action)
    requires Inv(s) && Enabled(s, a)
    ensures OneWorkerPerProject(Next(s, a)) && WorkersRunNewest(Next(s, a))
  {
    match a
    case Submit(c, w) => SubmitTableKept(s, c, w);
    case Finish(w) => FinishTableKept(s, w);
    case Crash =>
    case _ =>
      Quiet(s, a);
      QuietTableKept(s, Next(s, a));
  }

  lemma ServedSubmit(made: seq<Request>, runs: seq<Request>, live: bool, waiting: Option<Request>, req: Request)
    requires Served(made, runs, live, waiting) && req.num == |made|
    ensures if live then Served(made + [req], runs, true, Some(req)) else Served(made + [req], runs + [req], true, None)
  {
  }

  lemma ServedLeave(made: seq<Request>, runs: seq<Request>, waiting: Option<Request>)
    requires Served(made, runs, true, waiting)
    ensures if waiting.Some? then Served(made, runs + [waiting.value], true, None) else Served(made, runs, false, None)
  {
  }

  lemma SubmittedHistory(s: State, c: nat, w: nat, p: int)
    requires c in s.callers
    ensures var t, q := Submitted(s, c, w), s.callers[c].project;
      && Of(t.made, p) == Of(s.made, p) + (if p == q then [Submission(s, c)] else [])
      && Of(t.runs, p) == Of(s.runs, p) + (if p == q && !Running(s.jobs, q) then [Submission(s, c)] else [])
  {
  }

  lemma SubmittedTable(s: State, c: nat, w: nat, p: int)
    requires c in s.callers
    ensures var t, q := Submitted(s, c, w), s.callers[c].project;
      && (p in t.jobs <==> p in s.jobs || p == q)
      && Waiting(t, p) == if p == q && Running(s.jobs, q) then Some(Submission(s, c)) else Waiting(s, p)
  {
  }

  /** What submitting does to the history of each project. */
  lemma SubmittedAt(s: State, c: nat, w: nat, p: int)
    requires c in s.callers
    ensures var t, q := Submitted(s, c, w), s.callers[c].project;
      && Of(t.made, p) == Of(s.made, p) + (if p == q then [Submission(s, c)] else [])
      && Of(t.runs, p) == Of(s.runs, p) + (if p == q && !Running(s.jobs, q) then [Submission(s, c)] else [])
      && (p in t.jobs <==> p in s.jobs || p == q)
      && Waiting(t, p) == if p == q && Running(s.jobs, q) then Some(Submission(s, c)) else Waiting(s, p)
  {
    SubmittedHistory(s, c, w, p);
    SubmittedTable(s, c, w, p);
  }

  lemma FinishedHistory(s: State, w: nat, p: int)
    requires w in s.workers && s.workers[w].project in s.jobs
    ensures var t, q := Finished(s, w), s.workers[w].project;
      && Of(t.made, p) == Of(s.made, p)
      && Of(t.runs, p) == Of(s.runs, p) + (if p == q && Waiting(s, q).Some? then [Waiting(s, q).value] else [])
  {
  }

  lemma FinishedTable(s: State, w: nat, p: int)
    requires w in s.workers && s.workers[w].project in s.jobs
    ensures var t, q := Finished(s, w), s.workers[w].project;
      && (p in t.jobs <==> p in s.jobs && (p == q ==> Waiting(s, q).Some?))
      && Waiting(t, p) == if p == q then None else Waiting(s, p)
  {
  }

  /** What finishing a run does to the history of each project. */
  lemma FinishedAt(s: State, w: nat, p: int)
    requires w in s.workers && s.workers[w].project in s.jobs
    ensures var t, q := Finished(s, w), s.workers[w].project;
      && Of(t.made, p) == Of(s.made, p)
      && Of(t.runs, p) == Of(s.runs, p) + (if p == q && Waiting(s, q).Some? then [Waiting(s, q).value] else [])
      && (p in t.jobs <==> p in s.jobs && (p == q ==> Waiting(s, q).Some?))
      && Waiting(t, p) == if p == q then None else Waiting(s, p)
  {
    FinishedHistory(s, w, p);
    FinishedTable(s, w, p);
  }

  lemma SubmitHistory(s: State, c: nat, w: nat, p: int)
    requires HistoryOk(s, p) && OneWorkerPerProject(s) && c in s.callers
    ensures HistoryOk(Submitted(s, c, w), p)
  {
    SubmittedAt(s, c, w, p);
    if p == s.callers[c].project {
      ServedSubmit(Of(s.made, p), Of(s.runs, p), p in s.jobs, Waiting(s, p), Submission(s, c));
    }
  }

  lemma FinishHistory(s: State, w: nat, p: int)
    requires HistoryOk(s, p) && w in s.workers && s.workers[w].project in s.jobs
    ensures HistoryOk(Finished(s, w), p)
  {
    FinishedAt(s, w, p);
    if p == s.workers[w].project {
      ServedLeave(Of(s.made, p), Of(s.runs, p), Waiting(s, p));
    }
  }

  lemma HistoryKept(s: State, a: Action, p: int)
    requires Inv(s) && Enabled(s, a)
    ensures HistoryOk(Next(s, a), p)
  {
    assert HistoryOk(s, p);
    match a
    case Submit(c, w) => SubmitHistory(s, c, w, p);
    case Finish(w) => FinishHistory(s, w, p);
    case Crash =>
    case _ => Quiet(s, a);
  }

  /** A step that neither adds requests or callers nor gives an id a new project. */
  ghost predicate RowsOnlyShrink(s: State, t: State) {
    && t.nextRepo == s.nextRepo && t.made == s.made
    && t.repos.Keys <= s.repos.Keys && (forall r | r in t.repos :: t.repos[r].project == s.repos[r].project)
    && (forall c | c in t.callers :: c in s.callers
          && t.callers[c].repo == s.callers[c].repo && t.callers[c].project == s.callers[c].project)
  }

  lemma Shrinks(s: State, a: Action)
    requires Enabled(s, a) && !a.Submit? && !a.Link? && !a.Read? && !a.Crash?
    ensures RowsOnlyShrink(s, Next(s, a))
  {
  }

  lemma RowsSurvive(s: State, t: State)
    requires RowsOk(s) && RowsOnlyShrink(s, t)
    ensures RowsOk(t)
  {
    forall p, n | 0 <= n < |Of(t.made, p)| ensures OfProject(t, Of(t.made, p)[n].repo, p) {
      assert OfProject(s, Of(s.made, p)[n].repo, p);
    }
  }

  lemma ReadRows(s: State, c: nat, r: int, kind: Kind)
    requires RowsOk(s) && Enabled(s, Read(c, r, kind))
    ensures RowsOk(Next(s, Read(c, r, kind)))
  {
    var t := Next(s, Read(c, r, kind));
    forall p, n | 0 <= n < |Of(t.made, p)| ensures OfProject(t, Of(t.made, p)[n].repo, p) {
      assert OfProject(s, Of(s.made, p)[n].repo, p);
    }
  }

  lemma SubmitRows(s: State, c: nat, w: nat)
    requires RowsOk(s) && c in s.callers
    ensures RowsOk(Submitted(s, c, w))
  {
    var t := Submitted(s, c, w);
    forall p, n | 0 <= n < |Of(t.made, p)| ensures OfProject(t, Of(t.made, p)[n].repo, p) {
      if n < |Of(s.made, p)| {
        assert OfProject(s, Of(s.made, p)[n].repo, p);
      }
    }
  }

  lemma LinkRows(s: State, p: int)
    requires RowsOk(s) && Enabled(s, Link(p))
    ensures RowsOk(Next(s, Link(p)))
  {
    var t := Next(s, Link(p));
    forall q, n | 0 <= n < |Of(t.made, q)| ensures OfProject(t, Of(t.made, q)[n].repo, q) {
      assert OfProject(s, Of(s.made, q)[n].repo, q);
    }
  }

  lemma RowsKept(s: State, a: Action)
    requires Inv(s) && Enabled(s, a)
    ensures RowsOk(Next(s, a))
  {
    match a
    case Submit(c, w) => SubmitRows(s, c, w);
    case Link(p) => LinkRows(s, p);
    case Read(c, r, kind) => ReadRows(s, c, r, kind);
    case Crash =>
    case _ =>
      Shrinks(s, a);
      RowsSurvive(s, Next(s, a));
  }

  /** Every step, in whatever interleaving, keeps the invariant. */
  lemma InvKept(s: State, a: Action)
    requires Inv(s) && Enabled(s, a)
    ensures Inv(Next(s, a))
  {
    RowsKept(s, a);
    TableKept(s, a);
    forall p ensures HistoryOk(Next(s, a), p) {
      HistoryKept(s, a, p);
    }
  }

  // ----- A busy row always has work behind it ------------------------------------

  /** A worker is inside a run of `r`. */
  ghost predicate RunOn(s: State, r: int) {
    exists w :: w in s.workers && s.workers[w].run.repo == r && s.workers[w].phase != Ended
  }

  /** A Start* call has marked `r` and is about to submit. */
  ghost predicate CallOn(s: State, r: int) {
    exists c :: c in s.callers && s.callers[c].repo == r && s.callers[c].marked
  }

  /** A request for `r` waits behind a running job. */
  ghost predicate WaitOn(s: State, r: int) {
    r in s.repos && var next := Waiting(s, s.repos[r].project); next.Some? && next.value.repo == r
  }

  ghost predicate Explained(s: State, r: int) {
    RunOn(s, r) || CallOn(s, r) || WaitOn(s, r)
  }

  predicate BusyRow(s: State, r: int) {
    r in s.repos && Busy(s.repos[r].status)
  }

  ghost predicate BusyExplained(s: State) {
    forall r | BusyRow(s, r) :: Explained(s, r)
  }

  /** The two ways a step can leave a row busy for ever: a submission pushes out
      the waiting request of another repository of the same project, or a panic
      is recorded on the repository that started the worker instead of the one
      being run. Either way nothing else may be behind the busy row. */
  ghost predicate Strands(s: State, a: Action)
    requires Enabled(s, a)
  {
    match a
    case Submit(c, _) =>
      var next := Waiting(s, s.callers[c].project);
      next.Some? && next.value.repo != s.callers[c].repo && BusyRow(s, next.value.repo)
      && !RunOn(s, next.value.repo) && !CallOn(s, next.value.repo)
    case Panic(w) =>
      var r := s.workers[w].run.repo;
      r != s.workers[w].firstRepo && BusyRow(s, r) && !WaitOn(s, r) && !CallOn(s, r)
    case _ => false
  }

  lemma MarkKeepsExplained(s: State, c: nat, r: int)
    requires Enabled(s, Mark(c)) && BusyRow(Next(s, Mark(c)), r) && (BusyRow(s, r) ==> Explained(s, r))
    ensures Explained(Next(s, Mark(c)), r)
  {
    var t := Next(s, Mark(c));
    assert t.workers == s.workers && t.jobs == s.jobs;
    if r == s.callers[c].repo {
      assert c in t.callers && t.callers[c].repo == r && t.callers[c].marked;
    } else if CallOn(s, r) {
      var d :| d in s.callers && s.callers[d].repo == r && s.callers[d].marked;
      assert d in t.callers && t.callers[d].repo == r && t.callers[d].marked;
    }
  }

  /** A worker's step inside its run: only the row it runs may lose it. */
  lemma WorkerKeepsExplained(s: State, t: State, w: nat, phase: Phase, r: int)
    requires w in s.workers && t.workers == s.workers[w := s.workers[w].(phase := phase)]
    requires t.jobs == s.jobs && t.callers == s.callers
    requires r in s.repos && r in t.repos && t.repos[r].project == s.repos[r].project
    requires Explained(s, r) || r == s.workers[w].run.repo
    requires r == s.workers[w].run.repo && phase == Ended ==> CallOn(s, r) || WaitOn(s, r)
    ensures Explained(t, r)
  {
    if r == s.workers[w].run.repo && phase != Ended {
      assert w in t.workers && t.workers[w].run.repo == r && t.workers[w].phase != Ended;
    } else if RunOn(s, r) {
      var v :| v in s.workers && s.workers[v].run.repo == r && s.workers[v].phase != Ended;
      if v != w {
        assert v in t.workers && t.workers[v].run.repo == r && t.workers[v].phase != Ended;
      }
    }
  }

  lemma RunStepKeepsExplained(s: State, a: Action, r: int)
    requires Enabled(s, a) && (a.LookUp? || a.MarkAgain? || a.WorkDone? || a.PublishDone? || a.Panic?)
    requires BusyRow(Next(s, a), r) && (BusyRow(s, r) ==> Explained(s, r)) && !Strands(s, a)
    ensures Explained(Next(s, a), r)
  {
    var t, w := Next(s, a), a.worker;
    WorkerKeepsExplained(s, t, w, t.workers[w].phase, r);
  }

  /** Submitting moves the caller's evidence into the table. */
  lemma SubmitKeepsExplained(s: State, c: nat, w: nat, r: int)
    requires Inv(s) && Enabled(s, Submit(c, w)) && BusyRow(s, r) && Explained(s, r) && !Strands(s, Submit(c, w))
    ensures Explained(Submitted(s, c, w), r)
  {
    var t, p, q := Submitted(s, c, w), s.callers[c].project, s.callers[c].repo;
    SubmittedAt(s, c, w, s.repos[r].project);
    assert OfProject(s, q, p);
    if r == q && Running(s.jobs, p) {
      assert WaitOn(t, r);
    } else if r == q {
      assert w in t.workers && t.workers[w].run.repo == r && t.workers[w].phase != Ended;
    } else if RunOn(s, r) {
      var v :| v in s.workers && s.workers[v].run.repo == r && s.workers[v].phase != Ended;
      assert v in t.workers && t.workers[v].run.repo == r && t.workers[v].phase != Ended;
    } else if CallOn(s, r) {
      var d :| d in s.callers && s.callers[d].repo == r && s.callers[d].marked;
      assert d in t.callers && t.callers[d].repo == r && t.callers[d].marked;
    } else {
      assert WaitOn(s, r) && s.repos[r].project != p;
    }
  }

  /** Leaving a run moves the waiting request into the worker. */
  lemma FinishKeepsExplained(s: State, w: nat, r: int)
    requires Inv(s) && Enabled(s, Finish(w)) && BusyRow(s, r) && Explained(s, r)
    ensures Explained(Finished(s, w), r)
  {
    var t := Finished(s, w);
    FinishedAt(s, w, s.repos[r].project);
    if RunOn(s, r) {
      var v :| v in s.workers && s.workers[v].run.repo == r && s.workers[v].phase != Ended;
      assert v in t.workers && t.workers[v].run.repo == r && t.workers[v].phase != Ended;
    } else if CallOn(s, r) {
      assert CallOn(t, r);
    } else if s.repos[r].project == s.workers[w].project {
      assert w in t.workers && t.workers[w].run.repo == r && t.workers[w].phase != Ended;
    } else {
      assert WaitOn(t, r);
    }
  }

  lemma TableStepKeepsExplained(s: State, a: Action, r: int)
    requires Enabled(s, a) && (a.Link? || a.Unlink? || a.Read?)
    requires BusyRow(Next(s, a), r) && RowsOk(s) && (BusyRow(s, r) ==> Explained(s, r))
    ensures Explained(Next(s, a), r)
  {
    var t := Next(s, a);
    if CallOn(s, r) {
      var d :| d in s.callers && s.callers[d].repo == r && s.callers[d].marked;
      assert d in t.callers && t.callers[d].repo == r && t.callers[d].marked;
    }
  }

  /** A step from an explained state that strands no row explains every row. */
  lemma ExplainedKept(s: State, a: Action)
    requires Inv(s) && Enabled(s, a) && BusyExplained(s) && !Strands(s, a) && !a.Crash?
    ensures BusyExplained(Next(s, a))
  {
    forall r | BusyRow(Next(s, a), r) ensures Explained(Next(s, a), r) {
      match a
      case Mark(c) => MarkKeepsExplained(s, c, r);
      case Submit(c, w) => SubmitKeepsExplained(s, c, w, r);
      case Finish(w) => FinishKeepsExplained(s, w, r);
      case Boot =>
      case Link(_) => TableStepKeepsExplained(s, a, r);
      case Unlink(_) => TableStepKeepsExplained(s, a, r);
      case Read(_, _, _) => TableStepKeepsExplained(s, a, r);
      case _ => RunStepKeepsExplained(s, a, r);
    }
  }

  /** A stranding submission leaves the displaced row busy with nothing behind it. */
  lemma SubmitStrands(s: State, c: nat, w: nat)
    requires Inv(s) && Enabled(s, Submit(c, w)) && Strands(s, Submit(c, w))
    ensures !BusyExplained(Submitted(s, c, w))
  {
    var t, p := Submitted(s, c, w), s.callers[c].project;
    var r := Waiting(s, p).value.repo;
    assert HistoryOk(s, p);
    assert OfProject(s, Last(Of(s.made, p)).repo, p);
    SubmittedAt(s, c, w, p);
    assert BusyRow(t, r) && t.workers == s.workers;
    forall d | d in t.callers ensures !(t.callers[d].repo == r && t.callers[d].marked) {
      assert d in s.callers;
    }
    assert !RunOn(s, r) ==> !RunOn(t, r);
    assert !Explained(t, r);
  }

  /** A misrecorded panic leaves the row it was running busy with nothing behind it. */
  lemma PanicStrands(s: State, w: nat)
    requires Inv(s) && Enabled(s, Panic(w)) && Strands(s, Panic(w))
    ensures !BusyExplained(Next(s, Panic(w)))
  {
    var t, r := Next(s, Panic(w)), s.workers[w].run.repo;
    assert BusyRow(t, r) && t.callers == s.callers && t.jobs == s.jobs;
    assert HistoryOk(s, s.workers[w].project);
    assert OfProject(s, r, s.workers[w].project);
    forall v | v in s.workers && s.workers[v].run.repo == r ensures v == w {
      assert HistoryOk(s, s.workers[v].project);
    }
    assert !CallOn(t, r) && !WaitOn(t, r);
    assert !Explained(t, r);
  }

  /** Exactly the stranding steps break "a busy row has work behind it". */
  lemma BusyExplainedExactly(s: State, a: Action)
    requires Inv(s) && Enabled(s, a) && BusyExplained(s) && !a.Crash?
    ensures BusyExplained(Next(s, a)) <==> !Strands(s, a)
  {
    if Strands(s, a) {
      if a.Submit? { SubmitStrands(s, a.caller, a.worker); } else { PanicStrands(s, a.worker); }
    } else {
      ExplainedKept(s, a);
    }
  }

  // ----- Whole runs ---------------------------------------------------------------

  ghost predicate Legal(s: State, acts: seq<Action>)
    decreases |acts|
  {
    acts == [] || (Enabled(s, acts[0]) && Legal(Next(s, acts[0]), acts[1..]))
  }

  ghost function Exec(s: State, acts: seq<Action>): State
    requires Legal(s, acts)
    decreases |acts|
  {
    if acts == [] then s else Exec(Next(s, acts[0]), acts[1..])
  }

  lemma {:induction false} RunKeepsInv(s: State, acts: seq<Action>)
    requires Inv(s) && Legal(s, acts)
    ensures Inv(Exec(s, acts))
    decreases |acts|
  {
    if acts != [] {
      InvKept(s, acts[0]);
      RunKeepsInv(Next(s, acts[0]), acts[1..]);
    }
  }

  /** In every reachable state a project has at most one worker, and the table
      holds an entry for a project exactly when it has one. */
  lemma MutualExclusion(s: State, acts: seq<Action>, v: nat, w: nat)
    requires Init(s) && Legal(s, acts)
    ensures var t := Exec(s, acts);
      && (v in t.workers && w in t.workers && t.workers[v].project == t.workers[w].project ==> v == w)
      && (forall p :: p in t.jobs <==> HasWorker(t, p))
  {
    InitInv(s);
    RunKeepsInv(s, acts);
  }

  /** In every reachable state the runs of a project are a strictly increasing
      subsequence of its requests, and an idle project has executed the newest. */
  lemma RunsFollowRequests(s: State, acts: seq<Action>, p: int)
    requires Init(s) && Legal(s, acts)
    ensures var t := Exec(s, acts); var made, runs := Of(t.made, p), Of(t.runs, p);
      && (forall k | 0 <= k < |runs| :: runs[k].num < |made| && made[runs[k].num] == runs[k])
      && (forall i, j | 0 <= i < j < |runs| :: runs[i].num < runs[j].num)
      && (p !in t.jobs && made != [] ==> runs != [] && Last(runs) == Last(made))
  {
    InitInv(s);
    RunKeepsInv(s, acts);
    assert HistoryOk(Exec(s, acts), p);
  }

  /** Request `n` is on its way: run `k` is the first that can serve it. */
  ghost predicate Awaited(s: State, p: int, k: nat, n: nat) {
    var made, runs := Of(s.made, p), Of(s.runs, p);
    && n < |made| && k <= |runs|
    && (if |runs| > k then runs[k].num >= n else Waiting(s, p).Some?)
  }

  lemma AwaitedSubmit(s: State, c: nat, w: nat, p: int, k: nat, n: nat)
    requires HistoryOk(s, p) && c in s.callers && Awaited(s, p, k, n)
    requires s.callers[c].project in s.jobs ==> Running(s.jobs, s.callers[c].project)
    ensures Awaited(Submitted(s, c, w), p, k, n)
  {
    SubmittedAt(s, c, w, p);
  }

  lemma AwaitedFinish(s: State, w: nat, p: int, k: nat, n: nat)
    requires HistoryOk(s, p) && w in s.workers && s.workers[w].project in s.jobs && Awaited(s, p, k, n)
    ensures Awaited(Finished(s, w), p, k, n)
  {
    FinishedAt(s, w, p);
  }

  lemma AwaitedKept(s: State, a: Action, p: int, k: nat, n: nat)
    requires Inv(s) && Enabled(s, a) && !a.Crash? && Awaited(s, p, k, n)
    ensures Awaited(Next(s, a), p, k, n)
  {
    assert HistoryOk(s, p);
    match a
    case Submit(c, w) => AwaitedSubmit(s, c, w, p, k, n);
    case Finish(w) => AwaitedFinish(s, w, p, k, n);
    case _ => Quiet(s, a);
  }

  lemma {:induction false} AwaitedRun(s: State, acts: seq<Action>, p: int, k: nat, n: nat)
    requires Inv(s) && Legal(s, acts) && Crash !in acts && Awaited(s, p, k, n)
    ensures Awaited(Exec(s, acts), p, k, n) && Inv(Exec(s, acts))
    decreases |acts|
  {
    if acts != [] {
      InvKept(s, acts[0]);
      AwaitedKept(s, acts[0], p, k, n);
      AwaitedRun(Next(s, acts[0]), acts[1..], p, k, n);
    }
  }

  /** No request is lost. Whatever happens after a request is submitted, short of
      a crash, the first run its project starts from then on executes it or a
      later one, and the project cannot go idle before that run has started. */
  lemma NoRequestLost(s: State, c: nat, w: nat, acts: seq<Action>)
    requires Inv(s) && Enabled(s, Submit(c, w)) && Legal(Submitted(s, c, w), acts) && Crash !in acts
    ensures var t, p := Exec(Submitted(s, c, w), acts), s.callers[c].project;
      var k, runs := |Of(s.runs, p)|, Of(t.runs, p);
      && (|runs| > k ==> runs[k].num >= Submission(s, c).num)
      && (p !in t.jobs ==> |runs| > k)
  {
    var p := s.callers[c].project;
    SubmittedAt(s, c, w, p);
    InvKept(s, Submit(c, w));
    AwaitedRun(Submitted(s, c, w), acts, p, |Of(s.runs, p)|, Submission(s, c).num);
  }

  function Rank(phase: Phase): nat {
    match phase
    case Lookup => 4
    case Remark => 3
    case Work => 2
    case Publish => 1
    case Ended => 0
  }

  /** Step `a` finishes worker `w`'s run or brings it strictly closer to its end. */
  ghost predicate Advances(s: State, w: nat, a: Action)
    requires w in s.workers && Enabled(s, a)
  {
    a == Finish(w) || (w in Next(s, a).workers && Rank(Next(s, a).workers[w].phase) < Rank(s.workers[w].phase))
  }

  /** A project with a job is never stuck: its worker always has such a step. */
  lemma JobsProgress(s: State, p: int)
    requires Inv(s) && p in s.jobs
    ensures exists w, a ::
              w in s.workers && s.workers[w].project == p && Enabled(s, a) && Advances(s, w, a)
  {
    assert HasWorker(s, p) && s.up;
    var w :| w in s.workers && s.workers[w].project == p;
    var a := match s.workers[w].phase
      case Lookup => LookUp(w)
      case Remark => MarkAgain(w)
      case Work => WorkDone(w, true)
      case Publish => PublishDone(w, true)
      case Ended => Finish(w);
    assert Enabled(s, a) && Advances(s, w, a);
  }

  /** No step of the run strands a row. */
  ghost predicate StrandsNothing(s: State, acts: seq<Action>)
    requires Legal(s, acts)
    decreases |acts|
  {
    acts == [] || (!Strands(s, acts[0]) && StrandsNothing(Next(s, acts[0]), acts[1..]))
  }

  /** What a caller or an operator can watch for: a submission whose repository is
      still linked, a panic in a run of the repository that started the worker. */
  ghost predicate Benign(s: State, a: Action)
    requires Enabled(s, a)
  {
    match a
    case Submit(c, _) => s.callers[c].repo in s.repos
    case Panic(w) => s.workers[w].run.repo == s.workers[w].firstRepo
    case _ => true
  }

  lemma BenignStrandsNothing(s: State, a: Action)
    requires Inv(s) && Enabled(s, a) && Benign(s, a)
    ensures !Strands(s, a)
  {
    if a.Submit? {
      var p := s.callers[a.caller].project;
      assert HistoryOk(s, p);
      if Waiting(s, p).Some? {
        assert OfProject(s, Last(Of(s.made, p)).repo, p);
      }
      assert OfProject(s, s.callers[a.caller].repo, p);
    }
  }

  /** Every step of the run is benign. */
  ghost predicate BenignRun(s: State, acts: seq<Action>)
    requires Legal(s, acts)
    decreases |acts|
  {
    acts == [] || (Benign(s, acts[0]) && BenignRun(Next(s, acts[0]), acts[1..]))
  }

  lemma {:induction false} BenignRunStrandsNothing(s: State, acts: seq<Action>)
    requires Inv(s) && Legal(s, acts) && BenignRun(s, acts)
    ensures StrandsNothing(s, acts)
    decreases |acts|
  {
    if acts != [] {
      BenignStrandsNothing(s, acts[0]);
      InvKept(s, acts[0]);
      BenignRunStrandsNothing(Next(s, acts[0]), acts[1..]);
    }
  }

  /** At every moment of the run at which the panel is up, a busy row has work behind it. */
  ghost predicate ExplainedThroughout(s: State, acts: seq<Action>)
    requires Legal(s, acts)
    decreases |acts|
  {
    (s.up ==> BusyExplained(s)) && (acts == [] || ExplainedThroughout(Next(s, acts[0]), acts[1..]))
  }

  lemma {:induction false} ExplainedExactly(s: State, acts: seq<Action>)
    requires Inv(s) && Legal(s, acts) && (s.up ==> BusyExplained(s))
    ensures ExplainedThroughout(s, acts) <==> StrandsNothing(s, acts)
    decreases |acts|
  {
    if acts != [] {
      var a := acts[0];
      InvKept(s, a);
      if s.up && !a.Crash? {
        BusyExplainedExactly(s, a);
        if Strands(s, a) { return; }
      }
      ExplainedExactly(Next(s, a), acts[1..]);
    }
  }

  /** Over whole runs, crashes and restarts included, busy rows have work behind them at every moment
      exactly when no step strands one. */
  lemma BusyThroughoutExactly(s: State, acts: seq<Action>)
    requires Init(s) && Legal(s, acts)
    ensures ExplainedThroughout(s, acts) <==> StrandsNothing(s, acts)
  {
    InitInv(s);
    ExplainedExactly(s, acts);
  }

  lemma {:induction false} ExplainedAtEnd(s: State, acts: seq<Action>)
    requires Legal(s, acts) && ExplainedThroughout(s, acts)
    ensures Exec(s, acts).up ==> BusyExplained(Exec(s, acts))
    decreases |acts|
  {
    if acts != [] {
      ExplainedAtEnd(Next(s, acts[0]), acts[1..]);
    }
  }

  /** From any boot on, crashes and restarts included: when every call submits while its repository is
      still linked, and every panic hits a run of the repository that started the worker, a row is busy
      only while a run, a queued request or a Start* call for it is live; so when no job and no call is
      left, no row is busy. */
  lemma BusyMeansWork(s: State, acts: seq<Action>)
    requires Init(s) && Legal(s, acts) && BenignRun(s, acts)
    ensures var t := Exec(s, acts); t.up ==>
      && (forall r | BusyRow(t, r) :: Explained(t, r))
      && (t.jobs == map[] && t.callers == map[] ==> forall r | r in t.repos :: !Busy(t.repos[r].status))
  {
    InitInv(s);
    RunKeepsInv(s, acts);
    BenignRunStrandsNothing(s, acts);
    BusyThroughoutExactly(s, acts);
    ExplainedAtEnd(s, acts);
    var t := Exec(s, acts);
    if t.up && t.jobs == map[] && t.callers == map[] {
      forall r | r in t.repos ensures !BusyRow(t, r) {
        assert !Explained(t, r);
      }
    }
  }

  /** A crash at any point followed by the startup sweep leaves no row busy. */
  lemma CrashRecovers(s: State)
    requires Inv(s) && s.up
    ensures var t := Next(Next(s, Crash), Boot);
      Inv(t) && t.repos.Keys == s.repos.Keys && forall r | r in t.repos :: !Busy(t.repos[r].status)
  {
    InvKept(s, Crash);
    InvKept(Next(s, Crash), Boot);
  }
}
