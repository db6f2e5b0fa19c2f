/**
 * The exported functions of src/utils/storage.ts that callers use: each runs
 * one store operation on the shared store and turns a thrown error into a
 * plain reply object instead of letting it escape.
 */
module Facade {
  import opened Reminders
  import opened Jobs
  import opened Storage

  /** fetchReminders: the reminder list, or `{message}` when loading failed. */
  datatype FetchReply = Listing(reminders: seq<Reminder>) | FetchFailed(message: string)

  /** markCompleted: the updated reminder, or `{message}`. */
  datatype CompleteReply = Completed(reminder: Reminder) | CompleteFailed(message: string)

  /** deleteReminder: always `{message, ok}`. */
  datatype DeleteReply = DeleteReply(message: string, ok: bool)

  const FetchError: string := "Error fetching reminders"
  const Deleted: string := "Reminder deleted"

  /** The catch of markCompleted: any failure reads "Reminder not found", whatever its own message. */
  function CompleteReplyOf(res: Result<Reminder>): (reply: CompleteReply)
    ensures reply.Completed? <==> res.Ok?
    ensures res.Ok? ==> reply.reminder == res.value
    ensures reply.CompleteFailed? ==> reply.message == NotFound
  {
    match res
    case Ok(r) => Completed(r)
    case Err(_) => CompleteFailed(NotFound)
  }

  /** The try/catch of deleteReminder: `ok` tells whether the store call succeeded. */
  function DeleteReplyOf(res: Result<()>): (reply: DeleteReply)
    ensures reply.ok <==> res.Ok?
    ensures reply.message == if res.Ok? then Deleted else NotFound
  {
    if res.Ok? then DeleteReply(Deleted, true) else DeleteReply(NotFound, false)
  }

  /**
   * fetchReminders: load the stored slot into the store, then list it. A slot
   * that does not parse yields "Error fetching reminders" and leaves the store
   * as it was.
   */
  method FetchReminders(storage: MemStorage, stored: Stored, clock: Clock) returns (reply: FetchReply, armed: seq<bool>)
    requires storage.Valid()
    modifies storage, storage.registry
    ensures storage.Valid()
    ensures reply.FetchFailed? <==> stored.Malformed?
    ensures reply.FetchFailed? ==>
      && reply.message == FetchError
      && storage.reminders == old(storage.reminders) && storage.keys == old(storage.keys)
      && storage.currentId == old(storage.currentId) && storage.registry.jobs == old(storage.registry.jobs)
    ensures stored.Missing? ==>
      && storage.reminders == old(storage.reminders) && storage.keys == old(storage.keys)
      && storage.currentId == old(storage.currentId) && storage.registry.jobs == old(storage.registry.jobs)
    ensures stored.Parsed? ==>
      && storage.reminders == MergeEntries(old(storage.reminders), stored.items)
      && storage.keys == MergeOrder(old(storage.keys), stored.items)
      && storage.currentId == NextIdAfterLoad(stored.items)
      && |armed| == |stored.items|
      && storage.registry.jobs == ArmAll(old(storage.registry.jobs), stored.items, armed, clock)
    ensures reply.Listing? ==> ListsTable(reply.reminders, storage.keys, storage.reminders)
  {
    var ok;
    ok, armed := storage.LoadReminders(stored, clock);
    if !ok {
      return FetchFailed(FetchError), armed;
    }
    var rs := storage.GetReminders();
    reply := Listing(rs);
  }

  /** createReminder: the store call cannot fail here, so the reply is always the new reminder. */
  method CreateReminder(storage: MemStorage, draft: Draft, clock: Clock) returns (r: Reminder, armed: bool)
    requires storage.Valid()
    modifies storage, storage.registry
    ensures storage.Valid()
    ensures r.id == old(storage.currentId) && storage.currentId == old(storage.currentId) + 1
    ensures !r.completed && r.title == draft.title && r.description == draft.description
    ensures r.dueDate == draft.dueDate && r.frequency == draft.frequency
    ensures storage.reminders == old(storage.reminders)[r.id := r]
    ensures storage.keys == InsertKey(old(storage.keys), r.id)
    ensures storage.registry.jobs == Arm(old(storage.registry.jobs), r, clock, armed)
  {
    r, armed := storage.CreateReminder(draft, clock);
  }

  /** markCompleted: the completed copy of a known reminder, or "Reminder not found" with nothing changed. */
  method MarkCompleted(storage: MemStorage, id: int) returns (reply: CompleteReply)
    requires storage.Valid()
    modifies storage, storage.registry
    ensures storage.Valid()
    ensures reply.Completed? <==> id in old(storage.reminders)
    ensures reply.Completed? ==>
      && reply.reminder == old(storage.reminders)[id].(completed := true)
      && storage.reminders == old(storage.reminders)[id := reply.reminder]
      && storage.registry.jobs == old(storage.registry.jobs) - {id}
    ensures reply.CompleteFailed? ==>
      && reply.message == NotFound
      && storage.reminders == old(storage.reminders)
      && storage.registry.jobs == old(storage.registry.jobs)
    ensures storage.keys == old(storage.keys) && storage.currentId == old(storage.currentId)
  {
    var res := storage.MarkCompleted(id);
    reply := CompleteReplyOf(res);
  }

  /** deleteReminder: "Reminder deleted" with ok true for a known id, "Reminder not found" with ok false otherwise. */
  method DeleteReminder(storage: MemStorage, id: int) returns (reply: DeleteReply)
    requires storage.Valid()
    modifies storage, storage.registry
    ensures storage.Valid()
    ensures reply.ok <==> id in old(storage.reminders)
    ensures reply.message == if reply.ok then Deleted else NotFound
    ensures id !in storage.reminders && id !in storage.keys
    ensures reply.ok ==>
      && storage.reminders == old(storage.reminders) - {id}
      && storage.keys == RemoveKey(old(storage.keys), id)
      && storage.registry.jobs == old(storage.registry.jobs) - {id}
    ensures !reply.ok ==>
      && storage.reminders == old(storage.reminders) && storage.keys == old(storage.keys)
      && storage.registry.jobs == old(storage.registry.jobs)
    ensures storage.currentId == old(storage.currentId)
  {
    var res := storage.DeleteReminder(id);
    reply := DeleteReplyOf(res);
  }
}
