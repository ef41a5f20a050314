/** The errors a request can end in (src/error.rs), together with the two errors the
  * reminder settings raise. */
module Errors {
  import opened Time
  import opened Reminder
  import opened Command

  /** The one permission the settings commands ask of their author. */
  datatype Permission = ManageGuild

  datatype Error =
    | InaccessibleGuild
    | NotInVoiceChannel
    | InvalidCommand(parseError: ParseCommandError)
    | InsufficientPermission(permission: Permission)
    | UnreachableTime(specified: Instant, at: Instant)
    | DuplicatedReminders(reminder: Reminder)
    | NoSuchReminder(reminder: Reminder)
    | Other(description: string)
}
