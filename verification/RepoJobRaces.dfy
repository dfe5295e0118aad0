/** Two reachable interleavings that leave a repository row busy for ever, one
    for each way a step can strand a row. */
module RepoJobRaces {
  import opened Common
  import opened RepoJobs

  lemma {:induction false} Extend(s: State, acts: seq<Action>, a: Action)
    requires Legal(s, acts) && Enabled(Exec(s, acts), a)
    ensures Legal(s, acts + [a]) && Exec(s, acts + [a]) == Next(Exec(s, acts), a)
    decreases |acts|
  {
    if acts == [] {
      assert [a] == [a] + [];
    } else {
      assert (acts + [a])[1..] == acts[1..] + [a];
      Extend(Next(s, acts[0]), acts[1..], a);
    }
  }

  /** `t` is reachable from a boot on a database. */
  ghost predicate Reachable(t: State) {
    exists s, acts :: Init(s) && Legal(s, acts) && Exec(s, acts) == t
  }

  lemma ReachNext(s: State, a: Action)
    requires Reachable(s) && Enabled(s, a)
    ensures Reachable(Next(s, a))
  {
    var s0, acts :| Init(s0) && Legal(s0, acts) && Exec(s0, acts) == s;
    Extend(s0, acts, a);
  }

  function Bare(repos: map<int, Repo>, nextRepo: int): State {
    State(true, repos, nextRepo, map[], map[], map[], map[], map[])
  }

  /** A freshly booted panel may hold any well-formed table with no busy row. */
  lemma BareReachable(repos: map<int, Repo>, nextRepo: int)
    requires RowsOk(Bare(repos, nextRepo)) && Sweep(repos) == repos
    ensures Reachable(Bare(repos, nextRepo))
  {
    var s := Bare(repos, nextRepo).(up := false);
    assert Exec(s, []) == s;
    assert Init(s);
    ReachNext(s, Boot);
  }

  // Project 7 is linked to repository 1. One deploy is running; a second Start*
  // call has marked the row but not submitted. The project is relinked to
  // repository 2, whose activation is marked and queued behind the running job.
  const FIRST := Request(0, 1, Deploy)
  const SECOND := Request(1, 2, Activate)
  const THIRD := Request(2, 1, Deploy)
  const STALE := Caller(1, 7, Deploy, true)
  const MARKED := Bare(map[1 := Repo(7, Deploying)], 2).(callers := map[0 := STALE])
  const BOTH := MARKED.(callers := map[0 := STALE, 1 := STALE])
  const STARTED := BOTH.(jobs := map[7 := Job(true, None)], workers := map[0 := Worker(7, 1, FIRST, Lookup)],
                         callers := map[1 := STALE], made := map[7 := [FIRST]], runs := map[7 := [FIRST]])
  const RELINKED := STARTED.(repos := map[2 := Repo(7, Linked)], nextRepo := 3)
  const CALLED := RELINKED.(repos := map[2 := Repo(7, Cloning)],
                            callers := map[1 := STALE, 2 := Caller(2, 7, Activate, true)])
  const QUEUED := CALLED.(callers := map[1 := STALE], jobs := map[7 := Job(true, Some(SECOND))],
                          made := map[7 := [FIRST, SECOND]])
  const DISPLACED := QUEUED.(callers := map[], jobs := map[7 := Job(true, Some(THIRD))],
                             made := map[7 := [FIRST, SECOND, THIRD]])
  const LEFT := DISPLACED.(workers := map[0 := Worker(7, 1, FIRST, Ended)])
  const RERUN := DISPLACED.(workers := map[0 := Worker(7, 1, THIRD, Lookup)], jobs := map[7 := Job(true, None)],
                            runs := map[7 := [FIRST, THIRD]])
  const DRAINED := RERUN.(workers := map[0 := Worker(7, 1, THIRD, Ended)])
  const STUCK := DRAINED.(workers := map[], jobs := map[])
  const ENDED := QUEUED.(workers := map[0 := Worker(7, 1, FIRST, Ended)])
  const FOLLOWUP := QUEUED.(jobs := map[7 := Job(true, None)], workers := map[0 := Worker(7, 1, SECOND, Lookup)],
                            runs := map[7 := [FIRST, SECOND]])

  /** `a` takes `s` to `t`. */
  ghost predicate Steps(s: State, a: Action, t: State) {
    Enabled(s, a) && Next(s, a) == t
  }

  lemma CallSteps()
    ensures Steps(MARKED, Read(1, 1, Deploy), MARKED.(callers := map[0 := STALE, 1 := STALE.(marked := false)]))
    ensures Steps(MARKED.(callers := map[0 := STALE, 1 := STALE.(marked := false)]), Mark(1), BOTH)
  {
  }

  lemma FirstSubmitted()
    ensures Steps(BOTH, Submit(0, 0), STARTED)
  {
    assert Submission(BOTH, 0) == FIRST;
    assert Of(map[], 7) + [FIRST] == [FIRST];
    var t := Next(BOTH, Submit(0, 0));
    assert t.made == STARTED.made && t.runs == STARTED.runs && t.callers == STARTED.callers;
  }

  lemma RelinkSteps()
    ensures Steps(STARTED, Unlink(1), STARTED.(repos := map[]))
    ensures Steps(STARTED.(repos := map[]), Link(7), RELINKED)
  {
  }

  lemma SecondCalled()
    ensures Steps(RELINKED, Read(2, 2, Activate), RELINKED.(callers := CALLED.callers[2 := Caller(2, 7, Activate, false)]))
    ensures Steps(RELINKED.(callers := CALLED.callers[2 := Caller(2, 7, Activate, false)]), Mark(2), CALLED)
  {
  }

  lemma SecondSubmitted()
    ensures Steps(CALLED, Submit(2, 1), QUEUED)
  {
    assert Submission(CALLED, 2) == SECOND;
    assert Of(CALLED.made, 7) + [SECOND] == [FIRST, SECOND];
    var t := Next(CALLED, Submit(2, 1));
    assert t.made == QUEUED.made && t.jobs == QUEUED.jobs && t.callers == QUEUED.callers;
  }

  lemma StaleSubmitted()
    ensures Steps(QUEUED, Submit(1, 1), DISPLACED) && Strands(QUEUED, Submit(1, 1))
  {
    assert Submission(QUEUED, 1) == THIRD;
    assert Of(QUEUED.made, 7) + [THIRD] == [FIRST, SECOND, THIRD];
    var t := Next(QUEUED, Submit(1, 1));
    assert t.made == DISPLACED.made && t.jobs == DISPLACED.jobs && t.callers == DISPLACED.callers;
  }

  lemma RunsDrain()
    ensures Steps(DISPLACED, LookUp(0), LEFT) && Steps(RERUN, LookUp(0), DRAINED)
  {
  }

  lemma RerunStarts()
    ensures Steps(LEFT, Finish(0), RERUN)
  {
    assert Of(LEFT.runs, 7) + [THIRD] == [FIRST, THIRD];
    var t := Next(LEFT, Finish(0));
    assert t.runs == RERUN.runs && t.jobs == RERUN.jobs && t.workers == RERUN.workers;
  }

  lemma TableEmpties()
    ensures Steps(DRAINED, Finish(0), STUCK)
  {
    var t := Next(DRAINED, Finish(0));
    assert t.jobs == STUCK.jobs && t.workers == STUCK.workers;
  }

  lemma FirstRunEnds()
    ensures Steps(QUEUED, LookUp(0), ENDED)
  {
  }

  lemma FollowupStarts()
    ensures Steps(ENDED, Finish(0), FOLLOWUP)
  {
    assert Of(ENDED.runs, 7) + [SECOND] == [FIRST, SECOND];
    var t := Next(ENDED, Finish(0));
    assert t.runs == FOLLOWUP.runs && t.jobs == FOLLOWUP.jobs && t.workers == FOLLOWUP.workers;
  }

  lemma Go(s: State, a: Action, t: State)
    requires Reachable(s) && Steps(s, a, t)
    ensures Reachable(t)
  {
    ReachNext(s, a);
  }

  const LINKED := Bare(map[1 := Repo(7, Linked)], 2)

  lemma FirstCalled()
    ensures Steps(LINKED, Read(0, 1, Deploy), LINKED.(callers := map[0 := STALE.(marked := false)]))
    ensures Steps(LINKED.(callers := map[0 := STALE.(marked := false)]), Mark(0), MARKED)
  {
  }

  lemma MarkedReachable()
    ensures Reachable(MARKED)
  {
    BareReachable(LINKED.repos, 2);
    FirstCalled();
    Go(LINKED, Read(0, 1, Deploy), LINKED.(callers := map[0 := STALE.(marked := false)]));
    Go(LINKED.(callers := map[0 := STALE.(marked := false)]), Mark(0), MARKED);
  }

  lemma QueuedReachable()
    ensures Reachable(QUEUED)
  {
    MarkedReachable();
    CallSteps();
    Go(MARKED, Read(1, 1, Deploy), MARKED.(callers := map[0 := STALE, 1 := STALE.(marked := false)]));
    Go(MARKED.(callers := map[0 := STALE, 1 := STALE.(marked := false)]), Mark(1), BOTH);
    FirstSubmitted();
    Go(BOTH, Submit(0, 0), STARTED);
    RelinkSteps();
    Go(STARTED, Unlink(1), STARTED.(repos := map[]));
    Go(STARTED.(repos := map[]), Link(7), RELINKED);
    SecondCalled();
    Go(RELINKED, Read(2, 2, Activate), RELINKED.(callers := CALLED.callers[2 := Caller(2, 7, Activate, false)]));
    Go(RELINKED.(callers := CALLED.callers[2 := Caller(2, 7, Activate, false)]), Mark(2), CALLED);
    SecondSubmitted();
    Go(CALLED, Submit(2, 1), QUEUED);
  }

  /** The stale call submits after the relink: the queued activation of the new
      repository is pushed out, both runs end at once because their row is gone,
      and repository 2 is left cloning with no job, worker or call anywhere. */
  lemma StaleSubmissionStrands()
    ensures Reachable(QUEUED) && Steps(QUEUED, Submit(1, 1), DISPLACED) && Strands(QUEUED, Submit(1, 1))
    ensures Reachable(STUCK) && STUCK.repos[2].status == Cloning
    ensures STUCK.jobs == map[] && STUCK.workers == map[] && STUCK.callers == map[]
  {
    QueuedReachable();
    StaleSubmitted();
    Go(QUEUED, Submit(1, 1), DISPLACED);
    RunsDrain();
    Go(DISPLACED, LookUp(0), LEFT);
    RerunStarts();
    Go(LEFT, Finish(0), RERUN);
    Go(RERUN, LookUp(0), DRAINED);
    TableEmpties();
    Go(DRAINED, Finish(0), STUCK);
  }

  lemma PanicMisrecorded()
    ensures Enabled(FOLLOWUP, Panic(0)) && Strands(FOLLOWUP, Panic(0))
    ensures 2 in Next(FOLLOWUP, Panic(0)).repos && Next(FOLLOWUP, Panic(0)).repos[2].status == Cloning
  {
  }

  /** The follow-up for repository 2 panics in a worker that repository 1 started:
      the failure is recorded on the missing row and repository 2 stays cloning. */
  lemma MisrecordedPanicStrands()
    ensures Reachable(FOLLOWUP) && Enabled(FOLLOWUP, Panic(0)) && Strands(FOLLOWUP, Panic(0))
    ensures 2 in Next(FOLLOWUP, Panic(0)).repos && Next(FOLLOWUP, Panic(0)).repos[2].status == Cloning
  {
    PanicMisrecorded();
    QueuedReachable();
    FirstRunEnds();
    Go(QUEUED, LookUp(0), ENDED);
    FollowupStarts();
    Go(ENDED, Finish(0), FOLLOWUP);
  }
}
