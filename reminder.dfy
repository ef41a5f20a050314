/** A reminder sent some minutes before a kaisan (src/model/reminder.rs). */
module Reminder {
  import opened Wrappers
  import opened Numeric
  import opened Database
  import Say

  datatype Reminder = Reminder(minutes: U32)

  function BeforeMinutes(minutes: U32): (r: Reminder)
    ensures BeforeDuration(r) == minutes * 60
  {
    Reminder(minutes)
  }

  /** The lead time of the reminder, in seconds. */
  function BeforeDuration(r: Reminder): nat
  {
    r.minutes * 60
  }

  /** `From<Reminder> for DatabaseValue`. */
  function ToDatabaseValue(r: Reminder): DatabaseValue
  {
    U32(r.minutes)
  }

  /** `TryFrom<DatabaseValue> for Reminder`: through the integer conversion. */
  function FromDatabaseValue(v: DatabaseValue): Result<Reminder, ()>
  {
    match U32FromValue(v)
    case Ok(n) => Ok(Reminder(n))
    case Err(e) => Err(e)
  }

  /** The stored form of a reminder reads back as that reminder, and only integer values
    * read back as reminders. */
  lemma StoredReminderRoundTrip(r: Reminder, v: DatabaseValue)
    ensures FromDatabaseValue(ToDatabaseValue(r)) == Ok(r)
    ensures FromDatabaseValue(v).Ok? <==> v.U32?
    ensures FromDatabaseValue(v).Ok? ==> ToDatabaseValue(FromDatabaseValue(v).value) == v
  {
  }

  /** `Say for Reminder`: the lead time followed by "before". */
  function SayReminder(r: Reminder): string
  {
    Say.SayDuration(BeforeDuration(r)) + "前"
  }

  /** The wording names the lead time exactly: two reminders read the same only when
    * they are the same reminder. */
  lemma SayReminderIsInjective(a: Reminder, b: Reminder)
    requires SayReminder(a) == SayReminder(b)
    ensures a == b
  {
    var ta, tb := Say.SayDuration(BeforeDuration(a)), Say.SayDuration(BeforeDuration(b));
    assert ta == SayReminder(a)[..|SayReminder(a)| - 1];
    assert tb == SayReminder(b)[..|SayReminder(b)| - 1];
    Say.ReadSaidDuration(BeforeDuration(a));
    Say.ReadSaidDuration(BeforeDuration(b));
  }
}
