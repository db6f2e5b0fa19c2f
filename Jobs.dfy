/**
 * The job registry of src/utils/storage.ts: the module-level `jobs` map from
 * a reminder id to the scheduled job that notifies about it, filled by
 * scheduleReminder and emptied by cancelScheduledReminder.
 */
module Jobs {
  import opened Reminders
  import opened Recurrence

  /**
   * A scheduled job, as an opaque handle: the rule it was armed with and the
   * reminder its callback notifies about.
   */
  datatype Job = Job(rule: Rule, reminder: Reminder)

  /** The job scheduleReminder arms for a reminder. */
  function JobFor(r: Reminder, clock: Clock): Job
  {
    Job(DeriveRule(r.frequency, clock(r.dueDate)), r)
  }

  /** The registry after scheduling `r`, when the scheduler did (`armed`) or did not hand back a job. */
  function Arm(jobs: map<int, Job>, r: Reminder, clock: Clock, armed: bool): map<int, Job>
  {
    if armed then jobs[r.id := JobFor(r, clock)] else jobs
  }

  /** The registry after scheduling every reminder of `items` in turn; `armed[i]` tells whether the i-th got a job. */
  function ArmAll(jobs: map<int, Job>, items: seq<Reminder>, armed: seq<bool>, clock: Clock): map<int, Job>
    requires |armed| == |items|
  {
    if items == [] then jobs
    else
      var n := |items| - 1;
      Arm(ArmAll(jobs, items[..n], armed[..n], clock), items[n], clock, armed[n])
  }

  /**
   * Scheduling a list touches only the ids in the list: every other entry is
   * kept as it was, and every entry it holds is an old one or the job of a
   * reminder in the list that got one, under that reminder's id.
   */
  lemma {:induction false} ArmAllFrame(jobs: map<int, Job>, items: seq<Reminder>, armed: seq<bool>, clock: Clock)
    requires |armed| == |items|
    ensures forall k :: (forall i :: 0 <= i < |items| ==> items[i].id != k) ==>
      (k in ArmAll(jobs, items, armed, clock) <==> k in jobs)
      && (k in jobs ==> ArmAll(jobs, items, armed, clock)[k] == jobs[k])
    ensures forall k :: k in ArmAll(jobs, items, armed, clock) ==>
      (k in jobs && ArmAll(jobs, items, armed, clock)[k] == jobs[k])
      || exists i :: 0 <= i < |items| && armed[i] && items[i].id == k && ArmAll(jobs, items, armed, clock)[k] == JobFor(items[i], clock)
  {
    if items != [] {
      var n := |items| - 1;
      ArmAllFrame(jobs, items[..n], armed[..n], clock);
    }
  }

  /**
   * A listed reminder that got a job holds it afterwards, unless a later
   * listed reminder with the same id got one too.
   */
  lemma {:induction false} ArmAllLastWins(jobs: map<int, Job>, items: seq<Reminder>, armed: seq<bool>, clock: Clock, i: nat)
    requires |armed| == |items|
    requires i < |items| && armed[i]
    requires forall j :: i < j < |items| && armed[j] ==> items[j].id != items[i].id
    ensures items[i].id in ArmAll(jobs, items, armed, clock)
    ensures ArmAll(jobs, items, armed, clock)[items[i].id] == JobFor(items[i], clock)
  {
    var n := |items| - 1;
    if i < n {
      ArmAllLastWins(jobs, items[..n], armed[..n], clock, i);
    }
  }

  class JobRegistry {
    /** The tracked job of each reminder id. */
    var jobs: map<int, Job>

    constructor ()
      ensures jobs == map[]
    {
      jobs := map[];
    }

    /**
     * The scheduler's scheduleJob: it may hand back a job armed with the rule,
     * or none. Callers see only this contract; the body is one admissible
     * scheduler.
     */
    static method ScheduleJob(rule: Rule, r: Reminder) returns (job: Option<Job>)
      ensures job.Some? ==> job.value == Job(rule, r)
    {
      job := Some(Job(rule, r));
    }

    /**
     * scheduleReminder: derive the rule and, when the scheduler hands back a
     * job, record it under the reminder's id, replacing any earlier entry.
     * When it hands back none, the registry is left as it was.
     */
    method ScheduleReminder(r: Reminder, clock: Clock) returns (armed: bool)
      modifies this
      ensures armed ==> jobs == old(jobs)[r.id := JobFor(r, clock)]
      ensures !armed ==> jobs == old(jobs)
      ensures jobs == Arm(old(jobs), r, clock, armed)
    {
      var rule := if r.frequency == Once then EmptyRule else DeriveRule(r.frequency, clock(r.dueDate));
      var job := ScheduleJob(rule, r);
      armed := job.Some?;
      if armed {
        jobs := jobs[r.id := job.value];
      }
    }

    /** cancelScheduledReminder: drop the id's entry; an id without a job is left alone. */
    method CancelScheduledReminder(id: int)
      modifies this
      ensures jobs == old(jobs) - {id}
      ensures id !in old(jobs) ==> jobs == old(jobs)
    {
      if id in jobs {
        jobs := jobs - {id};
      }
    }
  }
}
