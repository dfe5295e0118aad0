/** The jobs map as the program holds it: a map from project to a job object,
    changed in place under the mutex. Its two regions implement the `Enter` and
    `Leave` of the protocol. */
module JobTable {
  import opened Common
  import opened RepoJobs

  class RepoJob {
    var running: bool
    var next: Option<Request>

    constructor ()
      ensures !running && next == None
    {
      running, next := false, None;
    }
  }

  /** Making an idle job first changes nothing about what a request does. */
  lemma EnterMade(jobs: map<int, Job>, project: int, req: Request)
    requires project !in jobs
    ensures var made := jobs[project := Job(false, None)];
            Enter(made, project, req) == Enter(jobs, project, req) && !Running(made, project) && !Running(jobs, project)
  {
  }

  class Table {
    var jobs: map<int, RepoJob>

    /** No two projects share a job object. */
    ghost predicate Valid()
      reads this
    {
      forall p, q | p in jobs && q in jobs && jobs[p] == jobs[q] :: p == q
    }

    ghost function View(): map<int, Job>
      reads this, jobs.Values
    {
      map p | p in jobs :: Job(jobs[p].running, jobs[p].next)
    }

    constructor ()
      ensures Valid() && View() == map[]
    {
      jobs := map[];
    }

    /** The project's job, made when there is none. */
    method JobOf(project: int) returns (job: RepoJob)
      requires Valid()
      modifies this`jobs
      ensures Valid() && fresh(jobs.Values - old(jobs.Values))
      ensures project in jobs && jobs[project] == job
      ensures jobs.Values <= old(jobs.Values) + {job}
      ensures View() == if project in old(jobs) then old(View()) else old(View())[project := Job(false, None)]
    {
      if project in jobs {
        return jobs[project];
      }
      job := new RepoJob();
      jobs := jobs[project := job];
      assert forall p | p in jobs && p != project :: jobs[p] in old(jobs.Values);
    }

    /** Leave the request with the project's job. */
    method Enqueue(project: int, job: RepoJob, req: Request) returns (start: bool)
      requires Valid() && project in jobs && jobs[project] == job
      modifies job
      ensures Valid() && View() == Enter(old(View()), project, req)
      ensures start <==> !Running(old(View()), project)
    {
      if job.running {
        job.next := Some(req);
        assert forall p | p in jobs :: View()[p] == Enter(old(View()), project, req)[p];
        return false;
      }
      job.running := true;
      assert forall p | p in jobs :: View()[p] == Enter(old(View()), project, req)[p];
      return true;
    }

    /** The region that takes a request; `start` tells the caller to start a worker on `job`. */
    method Request(project: int, req: Request) returns (job: RepoJob, start: bool)
      requires Valid()
      modifies this, jobs.Values
      ensures Valid() && fresh(jobs.Values - old(jobs.Values))
      ensures View() == Enter(old(View()), project, req)
      ensures start <==> !Running(old(View()), project)
      ensures project in jobs && jobs[project] == job
    {
      if project !in jobs { EnterMade(View(), project, req); }
      job := JobOf(project);
      start := Enqueue(project, job, req);
    }

    /** The region a worker enters after a run, with the job object it was started on. That object is
        still the project's entry, as the protocol shows; then the region is the protocol's exit. */
    method NextRun(project: int, job: RepoJob) returns (run: Option<Request>)
      requires Valid()
      modifies this`jobs, job
      ensures Valid()
      ensures run == old(job.next) && job.next == None
      ensures jobs == if run.Some? then old(jobs) else old(jobs) - {project}
      ensures job.running == (run.Some? && old(job.running))
      ensures project in old(jobs) && old(jobs[project]) == job ==> View() == Leave(old(View()), project)
    {
      run := job.next;
      if run.Some? {
        job.next := None;
      } else {
        job.running := false;
        jobs := jobs - {project};
      }
      if project in old(jobs) && old(jobs[project]) == job {
        assert forall p | p in jobs :: View()[p] == Leave(old(View()), project)[p];
      }
    }
  }
}
