/**
 * The recurrence rule scheduleReminder (src/utils/storage.ts) derives from a
 * reminder's frequency and the clock components of its due date.
 */
module Recurrence {
  import opened Reminders

  /** The fields of a RecurrenceRule that scheduleReminder may set; `None` is a field left unset. */
  datatype Rule = Rule(minute: Option<int>, hour: Option<int>, dayOfWeek: Option<int>, date: Option<int>)

  /** The names of those fields. */
  datatype Field = Minute | Hour | DayOfWeek | DayOfMonth

  /** A freshly constructed RecurrenceRule: nothing set. */
  const EmptyRule: Rule := Rule(None, None, None, None)

  function Component(rule: Rule, f: Field): Option<int>
  {
    match f
    case Minute => rule.minute
    case Hour => rule.hour
    case DayOfWeek => rule.dayOfWeek
    case DayOfMonth => rule.date
  }

  function Part(d: DateParts, f: Field): int
  {
    match f
    case Minute => d.minute
    case Hour => d.hour
    case DayOfWeek => d.dayOfWeek
    case DayOfMonth => d.date
  }

  /** The fields a rule sets. */
  function Pinned(rule: Rule): set<Field>
  {
    (if rule.minute.Some? then {Minute} else {})
    + (if rule.hour.Some? then {Hour} else {})
    + (if rule.dayOfWeek.Some? then {DayOfWeek} else {})
    + (if rule.date.Some? then {DayOfMonth} else {})
  }

  /** The clock fields a reminder of each frequency repeats on. */
  function FieldsOf(freq: Frequency): set<Field>
  {
    match freq
    case Once => {}
    case Hourly => {Minute}
    case Daily => {Hour, Minute}
    case Weekly => {DayOfWeek, Hour, Minute}
    case Monthly => {DayOfMonth, Hour, Minute}
  }

  /**
   * The rule of scheduleReminder: exactly the fields of the frequency are set,
   * each to the due date's own component.
   */
  function DeriveRule(freq: Frequency, due: DateParts): (rule: Rule)
    ensures Pinned(rule) == FieldsOf(freq)
    ensures forall f :: f in FieldsOf(freq) ==> Component(rule, f) == Some(Part(due, f))
  {
    match freq
    case Once => EmptyRule
    case Hourly => EmptyRule.(minute := Some(due.minute))
    case Daily => EmptyRule.(hour := Some(due.hour), minute := Some(due.minute))
    case Weekly => EmptyRule.(dayOfWeek := Some(due.dayOfWeek), hour := Some(due.hour), minute := Some(due.minute))
    case Monthly => EmptyRule.(date := Some(due.date), hour := Some(due.hour), minute := Some(due.minute))
  }

  /** A rule admits a moment when every field the rule sets agrees with that moment. */
  predicate Admits(rule: Rule, t: DateParts)
  {
    forall f :: Component(rule, f).Some? ==> Component(rule, f).value == Part(t, f)
  }

  /** The derived rule admits exactly the moments that share the due date's components of the frequency. */
  lemma AdmitsExactly(freq: Frequency, due: DateParts, t: DateParts)
    ensures Admits(DeriveRule(freq, due), t) <==> forall f :: f in FieldsOf(freq) ==> Part(t, f) == Part(due, f)
  {
  }

  /** The due date's own clock time is one the rule admits. */
  lemma DueDateAdmitted(freq: Frequency, due: DateParts)
    ensures Admits(DeriveRule(freq, due), due)
  {
    AdmitsExactly(freq, due, due);
  }

  /** A coarser frequency admits every moment a finer one does (weekly and monthly refine daily, daily refines hourly). */
  lemma CoarserAdmitsMore(finer: Frequency, coarser: Frequency, due: DateParts, t: DateParts)
    requires FieldsOf(coarser) <= FieldsOf(finer)
    requires Admits(DeriveRule(finer, due), t)
    ensures Admits(DeriveRule(coarser, due), t)
  {
    AdmitsExactly(finer, due, t);
    AdmitsExactly(coarser, due, t);
  }

  /** The "once" rule sets nothing, so it constrains no clock field at all. */
  lemma OnceRuleIsUnconstrained(due: DateParts, t: DateParts)
    ensures DeriveRule(Once, due) == EmptyRule
    ensures Admits(DeriveRule(Once, due), t)
  {
  }

  /** A weekly reminder due on a Monday at 10:00 recurs on Mondays (day 1) at 10:00. */
  lemma WeeklyMondayAtTen(due: DateParts)
    requires due.dayOfWeek == 1 && due.hour == 10 && due.minute == 0
    ensures DeriveRule(Weekly, due) == Rule(Some(0), Some(10), Some(1), None)
  {
  }
}
