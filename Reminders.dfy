/**
 * The values shared by the reminder store and the scheduler of
 * src/utils/storage.ts: reminders, the frequencies they recur with, the
 * local-time components of a due date, and the results that stand for the
 * store's thrown errors.
 */
module Reminders {

  datatype Option<+T> = None | Some(value: T)

  /** A store operation either yields a value or fails with a message (a thrown Error). */
  datatype Result<+T> = Ok(value: T) | Err(message: string)

  /** The message of the error that completing or deleting an unknown id throws. */
  const NotFound: string := "Reminder not found"

  /** How often a reminder recurs. */
  datatype Frequency = Once | Hourly | Daily | Weekly | Monthly

  /** A stored reminder; `dueDate` is the date text the caller supplied. */
  datatype Reminder = Reminder(
    id: int,
    title: string,
    description: Option<string>,
    dueDate: string,
    frequency: Frequency,
    completed: bool)

  /** What a caller hands to createReminder: a reminder without its id and its completed flag. */
  datatype Draft = Draft(
    title: string,
    description: Option<string>,
    dueDate: string,
    frequency: Frequency)

  /**
   * The local-time components of a date, as getMinutes, getHours, getDay
   * (0 is Sunday) and getDate report them.
   */
  datatype DateParts = DateParts(minute: int, hour: int, dayOfWeek: int, date: int)

  /** How a due date's text reads as local-time components (`new Date(text)` and its getters). */
  type Clock = string -> DateParts
}
