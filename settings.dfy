// The guild settings use cases (src/use_case/add_reminder.rs, remove_reminder.rs,
// set_requires_permission.rs, set_timezone.rs, set_reminds_random_kaisan.rs): each is
// allowed only to members who may manage the guild, writes the setting, and then
// reacts ✅ to the command message.

module Settings {
  import opened Wrappers
  import opened Time
  import opened Reminder
  import opened Errors
  import Schedule

  /** The permission check every settings change starts with. `permission` is what
    * asking for the author's permissions gave: whether they may manage the guild, or
    * the error of asking. */
  function PermissionError(permission: Result<bool, Error>): (r: Option<Error>)
    ensures r.None? <==> permission == Ok(true)
    ensures permission == Ok(false) ==> r == Some(InsufficientPermission(ManageGuild))
    ensures permission.Err? ==> r == Some(permission.error)
  {
    match permission
    case Err(e) => Some(e)
    case Ok(manageGuild) => if manageGuild then None else Some(InsufficientPermission(ManageGuild))
  }

  /** The settings store of a guild, and the reactions to the command message. The
    * reminders are a set, so adding one already there adds nothing. */
  class GuildSettings {
    var requiresPermission: bool
    var timezone: Tz
    var reminders: set<Reminder>
    var remindsRandomKaisan: bool
    var reactions: seq<char>

    constructor (requiresPermission: bool, timezone: Tz, reminders: set<Reminder>, remindsRandomKaisan: bool)
      ensures this.requiresPermission == requiresPermission && this.timezone == timezone
      ensures this.reminders == reminders && this.remindsRandomKaisan == remindsRandomKaisan
      ensures reactions == []
    {
      this.requiresPermission := requiresPermission;
      this.timezone := timezone;
      this.reminders := reminders;
      this.remindsRandomKaisan := remindsRandomKaisan;
      reactions := [];
    }

    /** Reacts ✅, unless the reaction fails. */
    method ReactDone(reactError: Option<Error>) returns (r: Result<(), Error>)
      modifies this
      ensures reactError.None? ==> r == Ok(()) && reactions == old(reactions) + [Schedule.Done]
      ensures reactError.Some? ==> r == Err(reactError.value) && reactions == old(reactions)
      ensures requiresPermission == old(requiresPermission) && timezone == old(timezone)
      ensures reminders == old(reminders) && remindsRandomKaisan == old(remindsRandomKaisan)
    {
      if reactError.Some? {
        return Err(reactError.value);
      }
      reactions := reactions + [Schedule.Done];
      return Ok(());
    }

    /** `add_reminder`: a reminder already set is a duplicate; a new one is added and
      * acknowledged. A failed reaction is reported, but the reminder stays added. */
    method AddReminder(reminder: Reminder, permission: Result<bool, Error>, storeError: Option<Error>,
                       reactError: Option<Error>)
      returns (r: Result<(), Error>)
      modifies this
      ensures PermissionError(permission).Some? ==>
        r == Err(PermissionError(permission).value) && reminders == old(reminders) && reactions == old(reactions)
      ensures PermissionError(permission).None? && storeError.Some? ==>
        r == Err(storeError.value) && reminders == old(reminders) && reactions == old(reactions)
      ensures PermissionError(permission).None? && storeError.None? && reminder in old(reminders) ==>
        r == Err(DuplicatedReminders(reminder)) && reminders == old(reminders) && reactions == old(reactions)
      ensures PermissionError(permission).None? && storeError.None? && reminder !in old(reminders) ==>
        reminders == old(reminders) + {reminder}
        && (reactError.None? ==> r == Ok(()) && reactions == old(reactions) + [Schedule.Done])
        && (reactError.Some? ==> r == Err(reactError.value) && reactions == old(reactions))
      ensures requiresPermission == old(requiresPermission) && timezone == old(timezone)
      ensures remindsRandomKaisan == old(remindsRandomKaisan)
    {
      var denied := PermissionError(permission);
      if denied.Some? {
        return Err(denied.value);
      }
      if storeError.Some? {
        return Err(storeError.value);
      }
      var added := reminder !in reminders;
      reminders := reminders + {reminder};
      if !added {
        return Err(DuplicatedReminders(reminder));
      }
      r := ReactDone(reactError);
    }

    /** `remove_reminder`: a reminder not set is reported missing; one that is set is
      * removed and the removal acknowledged. */
    method RemoveReminder(reminder: Reminder, permission: Result<bool, Error>, storeError: Option<Error>,
                          reactError: Option<Error>)
      returns (r: Result<(), Error>)
      modifies this
      ensures PermissionError(permission).Some? ==>
        r == Err(PermissionError(permission).value) && reminders == old(reminders) && reactions == old(reactions)
      ensures PermissionError(permission).None? && storeError.Some? ==>
        r == Err(storeError.value) && reminders == old(reminders) && reactions == old(reactions)
      ensures PermissionError(permission).None? && storeError.None? && reminder !in old(reminders) ==>
        r == Err(NoSuchReminder(reminder)) && reminders == old(reminders) && reactions == old(reactions)
      ensures PermissionError(permission).None? && storeError.None? && reminder in old(reminders) ==>
        reminders == old(reminders) - {reminder}
        && (reactError.None? ==> r == Ok(()) && reactions == old(reactions) + [Schedule.Done])
        && (reactError.Some? ==> r == Err(reactError.value) && reactions == old(reactions))
      ensures requiresPermission == old(requiresPermission) && timezone == old(timezone)
      ensures remindsRandomKaisan == old(remindsRandomKaisan)
    {
      var denied := PermissionError(permission);
      if denied.Some? {
        return Err(denied.value);
      }
      if storeError.Some? {
        return Err(storeError.value);
      }
      var removed := reminder in reminders;
      reminders := reminders - {reminder};
      if !removed {
        return Err(NoSuchReminder(reminder));
      }
      r := ReactDone(reactError);
    }

    /** `set_requires_permission`: the flag is written, then acknowledged; a failed
      * acknowledgement does not undo the write. */
    method SetRequiresPermission(value: bool, permission: Result<bool, Error>, storeError: Option<Error>,
                                 reactError: Option<Error>)
      returns (r: Result<(), Error>)
      modifies this
      ensures PermissionError(permission).Some? ==>
        r == Err(PermissionError(permission).value) && requiresPermission == old(requiresPermission)
        && reactions == old(reactions)
      ensures PermissionError(permission).None? && storeError.Some? ==>
        r == Err(storeError.value) && requiresPermission == old(requiresPermission) && reactions == old(reactions)
      ensures PermissionError(permission).None? && storeError.None? ==>
        requiresPermission == value
        && (reactError.None? ==> r == Ok(()) && reactions == old(reactions) + [Schedule.Done])
        && (reactError.Some? ==> r == Err(reactError.value) && reactions == old(reactions))
      ensures timezone == old(timezone) && reminders == old(reminders)
      ensures remindsRandomKaisan == old(remindsRandomKaisan)
    {
      var denied := PermissionError(permission);
      if denied.Some? {
        return Err(denied.value);
      }
      if storeError.Some? {
        return Err(storeError.value);
      }
      requiresPermission := value;
      r := ReactDone(reactError);
    }

    /** `set_timezone`: the time zone is written, then acknowledged. */
    method SetTimezone(value: Tz, permission: Result<bool, Error>, storeError: Option<Error>,
                       reactError: Option<Error>)
      returns (r: Result<(), Error>)
      modifies this
      ensures PermissionError(permission).Some? ==>
        r == Err(PermissionError(permission).value) && timezone == old(timezone) && reactions == old(reactions)
      ensures PermissionError(permission).None? && storeError.Some? ==>
        r == Err(storeError.value) && timezone == old(timezone) && reactions == old(reactions)
      ensures PermissionError(permission).None? && storeError.None? ==>
        timezone == value
        && (reactError.None? ==> r == Ok(()) && reactions == old(reactions) + [Schedule.Done])
        && (reactError.Some? ==> r == Err(reactError.value) && reactions == old(reactions))
      ensures requiresPermission == old(requiresPermission) && reminders == old(reminders)
      ensures remindsRandomKaisan == old(remindsRandomKaisan)
    {
      var denied := PermissionError(permission);
      if denied.Some? {
        return Err(denied.value);
      }
      if storeError.Some? {
        return Err(storeError.value);
      }
      timezone := value;
      r := ReactDone(reactError);
    }

    /** `set_reminds_random_kaisan`: the flag is written, then acknowledged. */
    method SetRemindsRandomKaisan(value: bool, permission: Result<bool, Error>, storeError: Option<Error>,
                                  reactError: Option<Error>)
      returns (r: Result<(), Error>)
      modifies this
      ensures PermissionError(permission).Some? ==>
        r == Err(PermissionError(permission).value) && remindsRandomKaisan == old(remindsRandomKaisan)
        && reactions == old(reactions)
      ensures PermissionError(permission).None? && storeError.Some? ==>
        r == Err(storeError.value) && remindsRandomKaisan == old(remindsRandomKaisan) && reactions == old(reactions)
      ensures PermissionError(permission).None? && storeError.None? ==>
        remindsRandomKaisan == value
        && (reactError.None? ==> r == Ok(()) && reactions == old(reactions) + [Schedule.Done])
        && (reactError.Some? ==> r == Err(reactError.value) && reactions == old(reactions))
      ensures requiresPermission == old(requiresPermission) && timezone == old(timezone)
      ensures reminders == old(reminders)
    {
      var denied := PermissionError(permission);
      if denied.Some? {
        return Err(denied.value);
      }
      if storeError.Some? {
        return Err(storeError.value);
      }
      remindsRandomKaisan := value;
      r := ReactDone(reactError);
    }
  }

  /** Adding the same reminder twice: the first time it is added and acknowledged,
    * the second time it is a duplicate, and the set holds it once. */
  method AddTwice(reminder: Reminder, tz: Tz) returns (first: Result<(), Error>, second: Result<(), Error>)
    ensures first == Ok(()) && second == Err(DuplicatedReminders(reminder))
  {
    var s := new GuildSettings(false, tz, {}, false);
    first := s.AddReminder(reminder, Ok(true), None, None);
    second := s.AddReminder(reminder, Ok(true), None, None);
    assert s.reminders == {reminder} && s.reactions == [Schedule.Done];
  }

  /** Removing a reminder twice: the first removal succeeds and leaves it absent, the
    * second finds nothing to remove. */
  method RemoveTwice(reminder: Reminder, others: set<Reminder>, tz: Tz)
    returns (first: Result<(), Error>, second: Result<(), Error>, left: set<Reminder>)
    ensures first == Ok(()) && second == Err(NoSuchReminder(reminder))
    ensures left == others - {reminder}
  {
    var s := new GuildSettings(false, tz, others + {reminder}, false);
    first := s.RemoveReminder(reminder, Ok(true), None, None);
    second := s.RemoveReminder(reminder, Ok(true), None, None);
    left := s.reminders;
  }

  /** Setting the random-kaisan reminder flag to false and then to true leaves it
    * true; a member without the permission changes nothing. */
  method SetFlagTwice(tz: Tz, initial: bool) returns (flag: bool, denied: Result<(), Error>, after: bool)
    ensures flag && after
    ensures denied == Err(InsufficientPermission(ManageGuild))
  {
    var s := new GuildSettings(false, tz, {}, initial);
    var r1 := s.SetRemindsRandomKaisan(false, Ok(true), None, None);
    var r2 := s.SetRemindsRandomKaisan(true, Ok(true), None, None);
    flag := s.remindsRandomKaisan;
    denied := s.SetRemindsRandomKaisan(false, Ok(false), None, None);
    after := s.remindsRandomKaisan;
  }
}
