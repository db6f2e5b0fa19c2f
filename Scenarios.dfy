/**
 * Clients of the store and its façade that run the documented scenarios
 * against fresh objects, plus two where what the code does differs from the
 * documented design: ids handed out again after a reload, and completed
 * reminders scheduled again by a reload.
 */
module Scenarios {
  import opened Reminders
  import opened Recurrence
  import opened Jobs
  import opened Storage
  import opened Facade

  const PayBill: Draft := Draft("Pay bill", None, "2024-01-01T09:00:00", Once)

  /** The first reminder of a fresh store gets id 1, is not completed, and is all the store lists. */
  method FirstReminderScenario(clock: Clock) returns (r: Reminder, listed: seq<Reminder>)
    ensures r.id == 1 && !r.completed
    ensures r.title == "Pay bill" && r.frequency == Once
    ensures listed == [r]
  {
    var jobs := new JobRegistry();
    var storage := new MemStorage(jobs);
    var armed;
    r, armed := Facade.CreateReminder(storage, PayBill, clock);
    var reply, _ := Facade.FetchReminders(storage, Missing, clock);
    listed := reply.reminders;
    assert storage.keys == [1];
  }

  /** Deleting the same id twice: the second call reports "Reminder not found", and the reminder is gone from the list. */
  method DeleteTwiceScenario(clock: Clock) returns (first: DeleteReply, second: DeleteReply, listed: seq<Reminder>)
    ensures first == DeleteReply("Reminder deleted", true)
    ensures second == DeleteReply("Reminder not found", false)
    ensures listed == []
  {
    var jobs := new JobRegistry();
    var storage := new MemStorage(jobs);
    var r, _ := storage.CreateReminder(PayBill, clock);
    first := Facade.DeleteReminder(storage, r.id);
    second := Facade.DeleteReminder(storage, r.id);
    listed := storage.GetReminders();
  }

  /** Completing an unknown id fails and leaves the list as it was. */
  method CompleteUnknownScenario(clock: Clock) returns (reply: CompleteReply, before: seq<Reminder>, after: seq<Reminder>)
    ensures reply == CompleteFailed("Reminder not found")
    ensures after == before && |after| == 1
  {
    var jobs := new JobRegistry();
    var storage := new MemStorage(jobs);
    var r, _ := storage.CreateReminder(PayBill, clock);
    before := storage.GetReminders();
    reply := Facade.MarkCompleted(storage, r.id + 1);
    after := storage.GetReminders();
  }

  /** Completing twice is idempotent: both calls return the same completed reminder and the table holds it. */
  method CompleteTwiceScenario(clock: Clock) returns (first: CompleteReply, second: CompleteReply, listed: seq<Reminder>)
    ensures first.Completed? && first.reminder.completed
    ensures second == first
    ensures listed == [first.reminder]
  {
    var jobs := new JobRegistry();
    var storage := new MemStorage(jobs);
    var r, _ := storage.CreateReminder(PayBill, clock);
    first := Facade.MarkCompleted(storage, r.id);
    second := Facade.MarkCompleted(storage, r.id);
    listed := storage.GetReminders();
    assert storage.keys == [1];
  }

  /**
   * A weekly reminder due on a Monday at 10:00 is armed, if at all, with the
   * rule "Mondays at 10:00"; deleting it leaves no job for it.
   */
  method WeeklyScenario(clock: Clock, due: string) returns (armedRule: Option<Rule>, registry: JobRegistry)
    requires clock(due) == DateParts(0, 10, 1, 8)
    ensures armedRule.Some? ==> armedRule.value == Rule(Some(0), Some(10), Some(1), None)
    ensures registry.jobs == map[]
  {
    registry := new JobRegistry();
    var storage := new MemStorage(registry);
    var r, armed := storage.CreateReminder(Draft("Stand-up", None, due, Weekly), clock);
    armedRule := if r.id in registry.jobs then Some(registry.jobs[r.id].rule) else None;
    var reply := Facade.DeleteReminder(storage, r.id);
  }

  /**
   * The counter is rebuilt from the stored list alone: after deleting the
   * newest reminder and reloading what was saved, the next reminder gets the
   * deleted reminder's id again.
   */
  method IdReuseAfterReload(clock: Clock) returns (deletedId: int, reissuedId: int)
    ensures deletedId == 2 && reissuedId == 2
  {
    var jobs := new JobRegistry();
    var storage := new MemStorage(jobs);
    var first, _ := storage.CreateReminder(PayBill, clock);
    var second, _ := storage.CreateReminder(PayBill, clock);
    deletedId := second.id;
    var _ := storage.DeleteReminder(second.id);
    var saved := storage.GetReminders();
    var _, _ := storage.LoadReminders(Parsed(saved), clock);
    var third, _ := storage.CreateReminder(PayBill, clock);
    reissuedId := third.id;
  }

  /**
   * Completing a reminder cancels its job, but a reload schedules every
   * loaded reminder again, completed or not.
   */
  method CompletedRearmedOnReload(clock: Clock) returns (completed: Reminder, armed: seq<bool>, registry: JobRegistry)
    ensures completed.completed
    ensures |armed| == 1
    ensures armed[0] ==> completed.id in registry.jobs && registry.jobs[completed.id].reminder == completed
  {
    registry := new JobRegistry();
    var storage := new MemStorage(registry);
    var r, _ := storage.CreateReminder(PayBill, clock);
    var res := storage.MarkCompleted(r.id);
    completed := res.value;
    assert registry.jobs == map[];
    var saved := storage.GetReminders();
    assert saved == [completed];
    var ok;
    ok, armed := storage.LoadReminders(Parsed(saved), clock);
    assert [completed][..0] == [];
  }

  /** Saving a store's list and loading it into a fresh store rebuilds the same table in the same order, with the counter past every id. */
  method ReloadScenario(storage: MemStorage, clock: Clock) returns (reloaded: MemStorage)
    requires storage.Valid()
    ensures reloaded.Valid() && reloaded.CounterAhead()
    ensures reloaded.reminders == storage.reminders
    ensures reloaded.keys == storage.keys
  {
    var saved := storage.GetReminders();
    var jobs := new JobRegistry();
    reloaded := new MemStorage(jobs);
    var _, _ := reloaded.LoadReminders(Parsed(saved), clock);
    ReloadRoundTrip(saved, storage.keys, storage.reminders);
  }
}
