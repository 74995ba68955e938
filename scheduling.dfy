/**
 * The job scheduler the forwarder drives (an APScheduler AsyncIOScheduler),
 * reduced to what the forwarder observes: a running flag and a job table
 * keyed by job id. Times are integer seconds.
 */
module Scheduling {
  import opened Wrappers
  import opened Model

  /** 'forward_messages', or the id of a one-shot deletion job. */
  datatype JobId = ForwardMessages | DeleteKey(chatId: ChatId, messageId: MessageId, stamp: nat)

  /** What a job calls when it fires: the broadcast cycle, or the deletion of one forwarded copy. */
  datatype Task = ForwardCycle | DeleteForwarded(chatId: ChatId, messageId: MessageId)

  /** An interval trigger of so many seconds, or a date trigger. */
  datatype Trigger = Every(seconds: int) | At(runAt: int)

  datatype Job = Job(task: Task, trigger: Trigger, nextRun: int)

  /**
   * The forwarder's job-table discipline: the broadcast cycle runs only under
   * the id 'forward_messages', and a deletion job is keyed by the chat and
   * message it deletes.
   */
  ghost predicate WellKeyed(jobs: map<JobId, Job>) {
    forall id :: id in jobs ==>
      (id.ForwardMessages? <==> jobs[id].task.ForwardCycle?) &&
      (id.DeleteKey? ==> jobs[id].task == DeleteForwarded(id.chatId, id.messageId))
  }

  /** The ids of the jobs that run the broadcast cycle. */
  function CycleJobs(jobs: map<JobId, Job>): set<JobId> {
    set id | id in jobs && jobs[id].task.ForwardCycle?
  }

  /** A well-keyed job table holds at most one broadcast-cycle job. */
  lemma AtMostOneCycleJob(jobs: map<JobId, Job>)
    requires WellKeyed(jobs)
    ensures CycleJobs(jobs) <= {ForwardMessages}
    ensures |CycleJobs(jobs)| <= 1
  {
    var c := CycleJobs(jobs);
    assert c <= {ForwardMessages};
    if ForwardMessages in c {
      assert c == {ForwardMessages};
    } else {
      assert c == {};
    }
  }

  /** t is the earliest next-run time in the table: what `get_jobs()[0].next_run_time` reports. */
  ghost predicate IsEarliest(jobs: map<JobId, Job>, t: int) {
    (exists id :: id in jobs && jobs[id].nextRun == t) &&
    (forall id :: id in jobs ==> t <= jobs[id].nextRun)
  }

  class Scheduler {
    var running: bool
    var jobs: map<JobId, Job>
    /** How many times the scheduler has been started. */
    ghost var starts: nat

    constructor ()
      ensures !running && jobs == map[] && starts == 0
    {
      running := false;
      jobs := map[];
      starts := 0;
    }

    /** scheduler.start(): starting a running scheduler raises, so callers must not. */
    method Start()
      requires !running
      modifies this
      ensures running && jobs == old(jobs) && starts == old(starts) + 1
    {
      running := true;
      starts := starts + 1;
    }

    /** scheduler.shutdown(): the memory job store keeps its jobs. */
    method Shutdown()
      requires running
      modifies this
      ensures !running && jobs == old(jobs) && starts == old(starts)
    {
      running := false;
    }

    /** add_job without replace_existing: an id already present raises, so callers must not reuse one. */
    method AddJob(id: JobId, job: Job)
      requires id !in jobs
      modifies this`jobs
      ensures jobs == old(jobs)[id := job]
    {
      jobs := jobs[id := job];
    }

    /** add_job(..., replace_existing=True) */
    method AddJobReplacing(id: JobId, job: Job)
      modifies this`jobs
      ensures jobs == old(jobs)[id := job]
    {
      jobs := jobs[id := job];
    }

    /** remove_job: `found` is false where the source's remove_job raises JobLookupError. */
    method RemoveJob(id: JobId) returns (found: bool)
      modifies this`jobs
      ensures found == (id in old(jobs))
      ensures jobs == old(jobs) - {id}
    {
      found := id in jobs;
      jobs := jobs - {id};
    }

    /** The next-run time of the first job of `get_jobs()`, which lists jobs by next-run time. */
    method EarliestRun() returns (r: Option<int>)
      ensures r.None? <==> jobs == map[]
      ensures r.Some? ==> IsEarliest(jobs, r.value)
    {
      var rest := jobs.Keys;
      r := None;
      while rest != {}
        invariant rest <= jobs.Keys
        invariant r.None? <==> rest == jobs.Keys
        invariant r.Some? ==> exists id :: id in jobs && id !in rest && jobs[id].nextRun == r.value
        invariant r.Some? ==> forall id :: id in jobs && id !in rest ==> r.value <= jobs[id].nextRun
        decreases rest
      {
        var id :| id in rest;
        var t := jobs[id].nextRun;
        if r.None? || t < r.value {
          r := Some(t);
        }
        rest := rest - {id};
      }
    }
  }
}
