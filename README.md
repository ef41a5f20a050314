# kaisantantoudaijin, modelled in Dafny

kaisantantoudaijin ("the minister in charge of breaking up") is a Discord bot. It
disconnects the members of a voice channel at a time someone asks for. This project
models the bot's deterministic core and proves properties of it:

- **The command grammar.** A PEG (ordered-choice) grammar over Japanese and English
  text (`src/model/command.rs`) reads:
  - kanji and ASCII numbers, and bounded hours and minutes;
  - relative times (`5分後`, `1時間30分以内`) and clock times (`15時`, `15:30`, `半`,
    `明日の`, `tomorrow`, `まで`);
  - the English keywords `at`, `by`, `after` and `within`;
  - who is to be disconnected (`me`, `all`, mentions);
  - the settings commands.

  It is modelled with the parser library's error-position tracking. An older
  snapshot of the grammar (`src/command.rs`) is modelled alongside, for values only.
- **The time model** (`src/model/time.rs`): hours and minutes, durations, and how a time
  specifier resolves against the current instant and the guild's time zone.
- **Scheduling** (`src/use_case/schedule_kaisan.rs`):
  - resolving "at" and "by" ranges, including the unreachable-time check and the
    random draw;
  - announcing, then scheduling;
  - choosing the targets when the kaisan fires;
  - disconnecting them one by one, stopping at the first failure.
- **Values, codecs and storage**: the kaisanee specifier, reminders, the `DatabaseValue`
  conversions, and the DynamoDB attribute decoding and result logic.
- **Rendering**: the Japanese rendering of durations, booleans, joined lists, mentions,
  calculated times and every message.
- **Message handling** (`src/context.rs`): extracting the command from a message,
  filtering the voice states by channel, and dispatching.
- **Settings** (`src/use_case/*`): the permission-guarded writes and the reaction that
  acknowledges them.

## Model conventions

Instants are whole seconds since the Unix epoch (UTC). The time zone used when a time
is resolved is a fixed offset in seconds. A guild's stored time zone is a `Tz`, which
holds only the zone's name.

Everything the bot asks its platform for is a parameter of the operation that uses it:

- the current instant;
- the voice states of the guild;
- the author's permission;
- the random draw;
- the library parsers for RFC 3339 timestamps and time-zone names (`Command.ParseEnv`);
- which request fails, and with what (`Schedule.Faults`, and the `Option<Error>`
  arguments of the settings methods).

Requests that change something are logged in class fields:

- `Schedule.Chat` keeps the messages sent, the reactions, the users disconnected and the
  jobs scheduled;
- `Settings.GuildSettings` keeps the stored settings and the reactions.

A parse rule is a function from the input and a position to a `Parsed` value. A
`Parsed` value holds the optional result with its end position, and the furthest
position at which a visible alternative failed.

The modules are:

| module | file | models |
|---|---|---|
| `Wrappers`, `Numeric`, `Peg` | wrappers.dfy, numeric.dfy, peg.dfy | Option/Result, bounded integers and decimal text, the parser library's combinators |
| `Time` | time.dfy | src/model/time.rs |
| `Kaisanee`, `Reminder`, `Database` | kaisanee.dfy, reminder.dfy, database.dfy | src/model/kaisanee.rs, src/model/reminder.rs, src/database.rs |
| `DynamoDb` | dynamodb.dfy | src/database/dynamodb.rs |
| `Say`, `Messages` | say.dfy, message.dfy | src/say.rs, src/model/message.rs |
| `KanjiNumerals`, `Command`, `CommandText` | kanji.dfy, command.dfy, command_render.dfy | src/model/command.rs, and the reading of each command's spelling |
| `LegacyCommand` | legacy_command.dfy | src/command.rs |
| `Errors`, `Context`, `Schedule`, `Settings` | errors.dfy, context.dfy, schedule.dfy, settings.dfy | src/error.rs, src/context.rs, src/use_case/schedule_kaisan.rs, the settings use cases |

## Model

| member | source | states |
|---|---|---|
| Time.HourFromU8 | src/model/time.rs:12-18 | an hour is built exactly when x < 24, and reads back as x |
| Time.MinuteFromU8 | src/model/time.rs:33-39 | a minute is built exactly when x < 60, and reads back as x |
| Time.AfterWithHour | src/model/time.rs:55-60 | hours alone without minutes, hours and minutes with them; the duration is h hours plus the minutes |
| Time.AfterWithMinute | src/model/time.rs:62-67 | minutes alone without hours, hours and minutes with them; the duration is the hours plus m minutes |
| Time.DurationBounds | src/model/time.rs:69-78 | a duration is non-negative and at most 255 hours and 255 minutes; a seconds duration is under five minutes |
| Time.DurationIsAdditive | src/model/time.rs:69-78 | hours and minutes last as long as the hours plus the minutes |
| Time.AtWithHour | src/model/time.rs:96-105 | keeps the hour and the tomorrow flag; minutes are present exactly when given |
| Time.AtWithMinute | src/model/time.rs:107-116 | keeps the minute; with an hour it is hour and minute, today |
| Time.AfterResolvesToNowPlusDuration | src/model/time.rs:129 | "after d" resolves to now plus d's duration, whatever the time zone |
| Time.ExactlyIgnoresNowAndTimezone | src/model/time.rs:163 | an exact timestamp resolves to its own instant, whatever now and the time zone are |
| Time.AtHourMinuteResolution | src/model/time.rs:134-158 | h:m resolves to the local date of now (one day later for tomorrow) at h:m:00, read as UTC |
| Time.AtMinuteResolution | src/model/time.rs:142-144 | minute m resolves to the current local hour at minute m, with no rollover to the next hour |
| Time.TomorrowIsOneDayLater | src/model/time.rs:134-158 | the tomorrow forms resolve exactly one day after today's |
| Time.AtReadsLocalWallClockAsUtc | src/model/time.rs:130-162 | a clock time resolves as the local wall clock read in UTC: the offset is added to now and never subtracted |
| Time.InterestCoversEverySpecifier | src/model/time.rs:167-173 | every specifier shows a time, a duration, or both; it shows both exactly for now and exact timestamps |
| Kaisanee.MayIncludeOthers | src/model/kaisanee.rs:13-19 | only `Me` and the list naming just the user cannot include others |
| Kaisanee.MentionIsInjective | src/say.rs:164-176 | different users have different mentions |
| Kaisanee.MentionsAreInjective | src/say.rs:164-180 | different lists of users have different mention texts |
| Kaisanee.SayKaisaneeIsInjective | src/model/kaisanee.rs:28-35 | different kaisanee specifiers are said differently |
| Kaisanee.MentionsStartWithBracket | src/say.rs:164-180 | the mentions of a non-empty list start with `<` |
| Reminder.BeforeMinutes | src/model/reminder.rs:10-16 | a reminder n minutes before lasts n·60 seconds |
| Reminder.StoredReminderRoundTrip | src/model/reminder.rs:19-32 | a stored reminder reads back as itself; exactly the stored numbers read back as reminders, and they store back unchanged |
| Reminder.SayReminderIsInjective | src/model/reminder.rs:34-38 | different reminders are said differently |
| Numeric.ParseU32OfDisplay | src/database/dynamodb.rs:60-66 | the decimal text of every 32-bit number parses back as that number |
| Database.StringFromValue | src/database.rs:31-40 | reading a string succeeds exactly on string values |
| Database.U32FromValue | src/database.rs:42-51 | reading a number succeeds exactly on number values |
| Database.StringConversionRoundTrip | src/database.rs:13-40 | a string stores and reads back as itself, and a value read as a string stores back unchanged |
| Database.U32ConversionRoundTrip | src/database.rs:25-51 | a number stores and reads back as itself, and a value read as a number stores back unchanged |
| Database.ConversionsAreExclusive | src/database.rs:31-51 | every value reads as exactly one of a string and a number |
| DynamoDb.GuildKeyIsInjective | src/database/dynamodb.rs:26-28 | different guilds have different partition keys |
| DynamoDb.ExtractInvertsEncoding | src/database/dynamodb.rs:51-78 | an attribute written from a value is extracted as that value converted |
| DynamoDb.ExtractAttributeErrors | src/database/dynamodb.rs:51-78 | a missing key gives nothing; a kind other than S and N is an unexpected type; an unparsable number is malformed |
| DynamoDb.NumberMembersAsU32 | src/database/dynamodb.rs:177-192 | a number set reads as exactly the numbers its elements parse to |
| DynamoDb.SetAddAndRemoveAgreeWithMembers | src/database/dynamodb.rs:213-261 | adding reports a change exactly when the number was not yet a member, removing exactly when it was |
| DynamoDb.SetAttributeHoldsItsValue | src/database/dynamodb.rs:80-117 | a set attribute written from a value contains that value |
| DynamoDb.MismatchedSetIsAnError | src/database/dynamodb.rs:80-99 | a set of the wrong kind is an unexpected attribute type, for membership and for adding |
| DynamoDb.FlagSetThenGet | src/database/dynamodb.rs:263-300 | a written flag reads back; a missing item or attribute reads as the default |
| Say.Formatter.WriteStr | src/say.rs:38-48 | the text is appended to the buffer verbatim |
| Say.SayBoolIsInjective | src/say.rs:68-76 | はい and いいえ tell true and false apart |
| Say.SayDurationChars | src/say.rs:50-60 | a said duration holds only digits, signs and the units 時間 and 分 |
| Say.ReadSaidDuration | src/say.rs:50-60 | a said non-negative duration reads back as its whole minutes |
| Say.SayDurationOfNonNegative | src/say.rs:52-57 | a non-negative duration is said as its hours (when non-zero) and always its minutes |
| Say.ReadMinutes | src/say.rs:55-57 | the minutes part reads back as its number |
| Say.ReadHoursAndMinutes | src/say.rs:52-57 | hours and minutes read back as h·60+m minutes |
| Say.SayDurationExamples | src/say.rs:50-60 | one hour is 1時間0分, 90 minutes 1時間30分, and 30 seconds 0分 |
| Say.SayNegativeDuration | src/say.rs:50-60 | −90 minutes is −1時間−30分: both parts are truncated toward zero and carry the sign |
| Say.JoinSnoc | src/say.rs:145-157 | joining one more item appends the separator and the item |
| Say.JoinLength | src/say.rs:145-157 | a join is as long as the items plus one separator between each two |
| Say.SplitJoin | src/say.rs:145-157 | splitting a join at the separator gives the items back |
| Say.SayJoinedFmt | src/say.rs:145-157 | the loop writes the items with separators only between them, or the alternative for no items |
| Say.Mention | src/say.rs:164-176 | a mention holds no space |
| Say.Mentions | src/say.rs:164-176 | each user id becomes its mention, in order |
| Say.SayMentionsRecoversMentions | src/say.rs:164-180 | no users are said as nothing; otherwise the text splits at its spaces into the mentions |
| KanjiNumerals.KanjiDigit | src/model/command.rs:98-107 | a digit is read exactly on 一…九, as 1…9 |
| KanjiNumerals.KanjiTail | src/model/command.rs:109-117 | reads a value in 1..255 and consumes at least one character |
| KanjiNumerals.KanjiNumber | src/model/command.rs:119-123 | reads a value in 1..255 and consumes at least one character |
| KanjiNumerals.NoKanjiNumberAtNonNumeral | src/model/command.rs:98-123 | no kanji number starts at a character that is not a numeral |
| KanjiNumerals.KanjiNumberOfText | src/model/command.rs:98-123 | the canonical spelling of every n in 1..255 (五, 十二, 四十五, 百, 二百五十五) is read as n |
| KanjiNumerals.KanjiNumberAsWritten | src/model/command.rs:109-123 | the rules without the byte bound, in unbounded arithmetic: the value of the digits as written, which can exceed 255 |
| KanjiNumerals.KanjiHundredsOverflowAsWritten | src/model/command.rs:111-113 | as written, 三百 reads as 300 and 二百五十六 as 256, beyond a byte |
| KanjiNumerals.KanjiHundredsCorrected | src/model/command.rs:111-113 | with the byte bound, 三百 and 二百五十六 read only their first digit, and 二百五十五 is 255 |
| Command.UserRule | src/model/command.rs:78-79 | a mention is read at a non-empty span |
| Command.UsersRule | src/model/command.rs:81-82 | a list of users is never empty |
| Command.KaisaneeRule | src/model/command.rs:84-87 | a list of users read as the kaisanee is never empty |
| Command.NumberRule | src/model/command.rs:125-129 | a number consumes input, and its failure is never reported where it is quiet |
| Command.BoundedNumber | src/model/command.rs:141-151 | the value read is below the bound |
| Command.SpecAtTomorrow | src/model/command.rs:157-161 | 明日の gives a tomorrow clock time with an hour |
| Command.SpecAtRfc3339 | src/model/command.rs:163-169 | gives an exact timestamp |
| Command.SpecAtTail | src/model/command.rs:171-186 | gives a clock time |
| Command.SpecAtColon | src/model/command.rs:171-178 | `:minute` gives hour and minute |
| Command.SpecAtMinuteMark | src/model/command.rs:179-181 | N分 gives minute N, which is below 60 |
| Command.SpecAtHalf | src/model/command.rs:188-189 | 半 is minute 30 |
| Command.SpecAt | src/model/command.rs:191-195 | gives a clock time or an exact timestamp |
| Command.SpecAfter | src/model/command.rs:197-202 | gives a relative time |
| Command.SpecAfterSuffix | src/model/command.rs:204-212 | keeps the relative time it is given |
| Command.RelativeHours | src/model/command.rs:214-222 | hours, possibly with minutes, keep the number read as the hours |
| Command.UntilSuffix | src/model/command.rs:219-233 | succeeds exactly when the clock time did, and keeps it |
| Command.NowRange | src/model/command.rs:234 | now and 今すぐ are "at now" |
| Command.AtKeyword | src/model/command.rs:235-236 | `by` makes a "by" range and `at` an "at" range |
| Command.AfterKeyword | src/model/command.rs:237-238 | `within` makes a "by" range and `after` an "at" range, of a relative time |
| Command.SpecKaisanee | src/model/command.rs:240-241 | reads what the kaisanee rule reads, with を optional |
| Command.WordCommand | src/model/command.rs:244 | a word command is read exactly when its word is there |
| Command.KaisanLine | src/model/command.rs:253-258 | gives a kaisan command |
| Command.KaisanAfterRange | src/model/command.rs:253-258 | a kaisanee before the time only or after it only is the one used; neither is everyone; both is refused; the time range is the one read |
| Command.ParseCommand | src/model/command.rs:53-58 | a failed parse reports a suffix of the input |
| Command.WholeCommand | src/model/command.rs:53-57 | the command is accepted exactly when the grammar reads the whole input, with the grammar's value; a rejection reports the suffix from where reading failed |
| CommandText.TimeRangeOfText | src/model/command.rs:214-238 | the spelling of every time range (relative, clock time, tomorrow, now, with or without まで/以内) is read as that range |
| CommandText.NumberedRelativeOfText | src/model/command.rs:204-218 | "N秒/分 後" gives at, "以内" gives by, for seconds and minutes |
| CommandText.RelativeHoursOfText | src/model/command.rs:214-222 | "N時間M分後" gives hours and minutes, "N時間後" hours alone |
| CommandText.NumberedAtOfParts | src/model/command.rs:171-186 | "N時" and "N分", with まで for by, are clock times today |
| CommandText.TomorrowOfParts | src/model/command.rs:157-161 | "明日のN時" is hour N tomorrow |
| CommandText.ColonOfText | src/model/command.rs:171-178 | "h:m" with an optional " tomorrow" is hour and minute |
| CommandText.NowOfText | src/model/command.rs:234 | now is "at now" |
| CommandText.BoundedOfDisplay | src/model/command.rs:141-151 | a decimal below the bound is read as itself |
| CommandText.NoNumberAt | src/model/command.rs:125-151 | no digit and no numeral: no number, minute or hour |
| CommandText.UsersOfText | src/model/command.rs:78-82 | a list of mentions is read as those users, in order |
| CommandText.SpecKaisaneeOfText | src/model/command.rs:240-241 | me, all and mention lists are read as themselves |
| CommandText.BooleanOfText | src/model/command.rs:131-139 | true/yes/はい read as true and false/no/いいえ as false |
| CommandText.TimezoneOfText | src/model/command.rs:246-251 | timezone and a name the database knows give that time zone |
| CommandText.UnknownTimezoneRejected | src/model/command.rs:246-251 | a name the database does not know is no command |
| CommandText.DefaultKaisanOfText | src/model/command.rs:253-258 | a time range alone disconnects everyone |
| CommandText.KaisaneeTwiceRejected | src/model/command.rs:253-258 | a kaisanee both before and after the time is rejected |
| CommandText.KaisaneeBothSides | src/model/command.rs:253-258 | for any line, a kaisanee read before the time range and another read after it leave no kaisan line |
| CommandText.MeAfterTimeOfText | src/model/command.rs:253-258 | N分に私を解散 is the author's kaisan at minute N: the kaisanee after the time is used |
| CommandText.TenMinuteMeExample | src/model/command.rs:323-330 | 10分に私を解散 is the author's kaisan at minute 10 |
| CommandText.CommandOfText | src/model/command.rs:243-259 | every command's spelling is read back as that command |
| CommandText.WordCommandWithTrailing | src/model/command.rs:53-58 | help or show-setting followed by more text fails, reporting that text |
| LegacyCommand.WithHour | src/command.rs:55-61 | an hour alone without minutes, both with them, keeping the values |
| LegacyCommand.WithMinute | src/command.rs:63-68 | a minute alone without hours, both with them, keeping the values |
| LegacyCommand.SpecAtTail | src/command.rs:209-233 | N分 is minute N today; other forms carry hour N; only tomorrow forms are tomorrow |
| LegacyCommand.SpecAtTomorrow | src/command.rs:195-199 | 明日の gives a tomorrow clock time with an hour |
| LegacyCommand.SpecAtRfc3339 | src/command.rs:201-207 | gives an exact timestamp |
| LegacyCommand.SpecAtHalf | src/command.rs:235-236 | 半 is minute 30 today |
| LegacyCommand.SpecAt | src/command.rs:238-242 | gives a clock time or an exact timestamp |
| LegacyCommand.SpecAfter | src/command.rs:244-248 | a number with a minute or hour unit, that number as the minutes or hours |
| LegacyCommand.RangeKind | src/command.rs:252-267 | 以内まで is rejected; 後 alone gives at; 以内 or 後まで give by |
| LegacyCommand.UntilSuffix | src/command.rs:268-282 | まで makes a "by" range, its absence an "at" range |
| LegacyCommand.NowRange | src/command.rs:283 | now and 今すぐ are "at now" |
| LegacyCommand.KeywordRange | src/command.rs:284-287 | by and within give "by" ranges, at and after give "at" ranges |
| LegacyCommand.KaisanLine | src/command.rs:292-300 | the kaisanee given before the time is used; a line read is a kaisan command |
| LegacyCommand.KaisanAfterRange | src/command.rs:293-299 | a kaisanee before the time only or after it only is the one used; neither is everyone; both is refused |
| LegacyCommand.CommandRule | src/command.rs:292-300 | Help is read exactly where the text says help, four characters long; anything else read is a kaisan command |
| LegacyCommand.HelpOfText | src/command.rs:292-293 | help alone is the help command |
| LegacyCommand.HelpWithTrailing | src/command.rs:292-293 | help followed by any more text is no command |
| LegacyCommand.MinutesTable | src/command.rs:252-259 | N分 with 後/以内 × まで/nothing gives at, by, by, or rejection (以内まで), of N minutes, for everyone |
| LegacyCommand.HoursTable | src/command.rs:260-267 | the same table for N時間 |
| LegacyCommand.NoSeconds | src/command.rs:148-152 | N秒後 is not a command: this grammar has no seconds |
| LegacyCommand.ByHour | src/command.rs:268-274 | N時まで is "by hour N today" |
| LegacyCommand.KaisaneeTwice | src/command.rs:292-300 | a kaisanee both before and after the time is rejected |
| LegacyCommand.BothSidesRejected | src/command.rs:293-299 | for any line, a kaisanee read before the time range and another read after it leave no kaisan line |
| Messages.ClockFmt | src/model/message.rs:132-139 | writes N時 and N分 (minute when non-zero) when the hours differ, otherwise only N分 |
| Messages.TimePartFmt | src/model/message.rs:123-140 | writes the date prefix (when the dates differ) and the clock, only for specifiers that show a time |
| Messages.SayCalculatedFmt | src/model/message.rs:114-156 | the writes make up the calculated time's text |
| Messages.SayCalculatedParts | src/model/message.rs:123-152 | the date mark / appears exactly when a time is shown on another date; 、 exactly when both are shown; 後 exactly when a duration is; で exactly for random times |
| Messages.ClockTextIsInjective | src/model/message.rs:132-139 | different clock times are written differently |
| Messages.SayReminders | src/model/message.rs:84-90 | each reminder is said in order |
| Messages.KaisanMessageNamesUsers | src/model/message.rs:65 | the kaisan message splits into the users' mentions and 解散！ |
| Messages.RemindMessageNamesLeadTime | src/model/message.rs:66-71 | reminders with the same text have the same lead time |
| Messages.SettingMessageShowsFlags | src/model/message.rs:72-98 | the settings text shows はい or いいえ for each flag in its place |
| Messages.SettingMessageDeterminesFlags | src/model/message.rs:72-98 | settings texts that read the same have the same flags |
| Context.TrimStart | src/context.rs:194 | drops exactly the leading whitespace |
| Context.TrimEnd | src/context.rs:194 | drops exactly the trailing whitespace |
| Context.TrimRemovesOnlyWhitespace | src/context.rs:194 | the input is the leading whitespace, the trimmed text and the trailing whitespace |
| Context.TrimPadded | src/context.rs:194 | trimming padded trimmed text gives the text |
| Context.TrimIsIdempotent | src/context.rs:194 | trimming twice is trimming once |
| Context.BotMention | src/context.rs:188-195 | the bot's mention is bracketed |
| Context.ExtractCommand | src/context.rs:188-195 | a command is found exactly when the message starts or ends with the bot's mention or starts with !kaisan, and it is trimmed |
| Context.ExtractAfterMention | src/context.rs:189-191 | the trimmed text after a leading mention is the command |
| Context.ExtractBeforeMention | src/context.rs:192 | the trimmed text before a trailing mention is the command |
| Context.ExtractAfterBang | src/context.rs:193 | the trimmed text after !kaisan is the command |
| Context.LeadingMentionWins | src/context.rs:190-192 | with the mention on both sides, only the leading one is stripped |
| Context.VoiceChannelUsers | src/context.rs:87-98 | the loop collects the users whose voice state is in the channel; an inaccessible guild is an error |
| Context.UsersInMembership | src/context.rs:87-98 | a user is collected exactly when some voice state puts them in the channel |
| Context.UsersInAreDistinct | src/context.rs:87-98 | each user is collected once |
| Context.StateOf | src/context.rs:75-85 | finds the user's voice state, or there is none |
| Context.ConnectedVoiceChannel | src/context.rs:75-85 | an inaccessible guild is exactly the error case |
| Context.ConnectedAgreesWithUsers | src/context.rs:75-98 | a user is connected to a channel exactly when that channel's users include them |
| Context.Dispatch | src/context.rs:207-213 | Help runs help and a kaisan command schedules that kaisan |
| Context.HandleMessage | src/context.rs:197-214 | a message without a command does nothing; an error is a parse error |
| Context.HandleCommandMessage | src/context.rs:197-214 | a command after !kaisan or the bot's mention is dispatched |
| Context.HandleTrailingText | src/context.rs:200-202 | help followed by more text is an invalid command |
| Schedule.Resolve | src/use_case/schedule_kaisan.rs:40-77 | a time before now is unreachable; "at" fires at the time, "by" at now plus the draw; the announcement carries the resolved time |
| Schedule.ByFiresWithinBound | src/use_case/schedule_kaisan.rs:57-69 | any draw in the span fires between now and the bound |
| Schedule.ByAnnouncesTheBound | src/use_case/schedule_kaisan.rs:71-75 | the announcement of a "by" kaisan does not depend on the draw |
| Schedule.AfterAndNowAreReachable | src/use_case/schedule_kaisan.rs:40-48 | relative times and now are never unreachable |
| Schedule.PlanKaisan | src/use_case/schedule_kaisan.rs:27-85 | an author outside any voice channel is refused; the plan keeps the author, the channel and the kaisanee |
| Schedule.TargetUsers | src/use_case/schedule_kaisan.rs:131-143 | only users in the channel are targeted |
| Schedule.KeepPresentInside | src/use_case/schedule_kaisan.rs:137-141 | the filtered list holds only listed users who are present |
| Schedule.KeepPresentCounts | src/use_case/schedule_kaisan.rs:137-141 | the filtered list keeps the order and every duplicate of the present users |
| Schedule.MeTargetsTheAuthor | src/use_case/schedule_kaisan.rs:132-135 | me targets the author exactly when the author is present |
| Schedule.OnlyTheAuthorUnlessOthers | src/use_case/schedule_kaisan.rs:131-143 | a specifier that cannot include others targets only the author |
| Schedule.AllTargetsEveryone | src/use_case/schedule_kaisan.rs:136 | all targets exactly the users in the channel, each once |
| Schedule.Disconnectable | src/use_case/schedule_kaisan.rs:145-148 | counts the targets before the first failing disconnect |
| Schedule.KaisanDisconnectsTargetsInOrder | src/use_case/schedule_kaisan.rs:145-150 | the disconnected users are a prefix of the targets, and ✅ only follows all of them |
| Schedule.KaisanSucceedsWithoutFaults | src/use_case/schedule_kaisan.rs:145-155 | a kaisan succeeds exactly when every request does; then all targets are disconnected, ✅ follows, and the users are named when there are any |
| Schedule.Chat.Send | src/context.rs:115-122 | a sent message is logged; a failed one is not |
| Schedule.Chat.React | src/context.rs:131-138 | a reaction is logged; a failed one is not |
| Schedule.Chat.ScheduleKaisan | src/use_case/schedule_kaisan.rs:27-85 | a refused plan and a failed announcement schedule nothing; otherwise the announcement is sent and then the job scheduled |
| Schedule.Chat.Kaisan | src/use_case/schedule_kaisan.rs:123-156 | disconnects the targets in order up to the first failure, then reacts and names them, as the outcome function says |
| Schedule.Chat.KaisanTargets | src/use_case/schedule_kaisan.rs:145-155 | for given targets: the disconnections, the ✅ reaction, the message naming them and the result are those of the outcome function, and nothing is scheduled |
| Schedule.Chat.DisconnectAll | src/use_case/schedule_kaisan.rs:145-148 | the loop disconnects exactly the targets before the first failing one, in order, and returns that failure |
| Schedule.Chat.Fire | src/use_case/schedule_kaisan.rs:102-121 | waits until the fire instant (not at all once past), runs the kaisan, and on failure reacts ❌ and reports the error |
| Settings.PermissionError | src/use_case/add_reminder.rs:10-16 | only an author who may manage the guild passes; others are refused for that permission |
| Settings.GuildSettings.ReactDone | src/use_case/add_reminder.rs:20-22 | ✅ is logged unless the reaction fails |
| Settings.GuildSettings.AddReminder | src/use_case/add_reminder.rs:9-24 | a refused author or a store error changes nothing; a reminder already set is a duplicate; a new one is added and acknowledged |
| Settings.GuildSettings.RemoveReminder | src/use_case/remove_reminder.rs:9-24 | a refused author or a store error changes nothing; a reminder not set is missing; a set one is removed and acknowledged |
| Settings.GuildSettings.SetRequiresPermission | src/use_case/set_requires_permission.rs:8-20 | a refused author or a store error changes nothing; otherwise the flag is written and then acknowledged, and a failed reaction does not undo the write |
| Settings.GuildSettings.SetTimezone | src/use_case/set_timezone.rs:9-21 | the same for the time zone |
| Settings.GuildSettings.SetRemindsRandomKaisan | src/use_case/set_reminds_random_kaisan.rs:8-20 | the same for the random-kaisan reminder flag |
| Settings.AddTwice | src/use_case/add_reminder.rs:18-22 | adding a reminder twice succeeds, then is a duplicate |
| Settings.RemoveTwice | src/use_case/remove_reminder.rs:18-22 | removing a reminder twice succeeds, then finds it missing, and leaves it absent |
| Settings.SetFlagTwice | src/use_case/set_reminds_random_kaisan.rs:34-50 | false then true leaves the flag true; a refused author leaves it so |

## Left out

- Platform I/O is replaced by parameters and logs: Discord (the serenity cache and HTTP
  calls behind `voice_states`, `disconnect_user`, `message` and `react` in
  src/context.rs, and `Context::new`), and the DynamoDB and Redis clients.
- Concurrency and real time: the spawned task and its sleep in `schedule_kaisan_at` are the
  explicit `Schedule.Chat.Fire` step, which receives the current instant and the live voice
  states.
- Schedule.Resolve: takes the random draw as a parameter and accepts any integer draw;
  only Schedule.ByFiresWithinBound assumes a draw between 0 and the span. `gen_range`
  excludes its upper bound and panics on an empty span (a "by" time equal to now); the
  bound is not excluded and the panic is not modelled.
- Time zones are fixed offsets; daylight-saving rules and the IANA database are not
  modelled. The database lookup of a name is the `parseTimezone` parameter.
- Schedule.Resolve and Schedule.PlanKaisan take the offset as its own parameter. It is not
  derived from the guild's stored `Tz`, which holds only a name: the stored time zone and
  the offset used in scheduling are independent parameters.
- RFC 3339 timestamps (section 5.6 of RFC 3339) are parsed by the `parseRfc3339` parameter;
  only the grammar's character filter is modelled.
- Command.ParseCommand: the error carries the rest of the input from the furthest
  failure, but not the set of expected tokens the parser library also reports.
- LegacyCommand.ParseCommand: the older grammar is modelled for its values only (`None` on
  a failed parse), without error positions.
- Command.UserRule: a digit run too long for a 64-bit id makes the source panic
  (`unwrap`); the model reads every digit run as a number.
- The kanji numeral overflow in the 百 branch is a finding (below); the grammar uses the
  corrected rule.
- How an error is said (`Say for Error`) is not part of this model; message rendering
  takes the error text as its `sayError` parameter.
- Sets and maps of the source (`HashSet`, `HashMap`) whose order is observable are
  sequences in the model, in the order the storage returns them.
- Context.HandleMessage: the dispatch in src/context.rs routes `Help` and `Kaisan` only;
  the settings commands of the newer grammar end in `Action.NotRouted`, because the
  handler shown does not route them.
- Schedule.PlanKaisan: src/use_case/schedule_kaisan.rs sends `ScheduledAt`/`ScheduledBy`
  messages from another snapshot; the model sends `Message::Scheduled` with a
  `CalculatedDateTime` (random for "by"), as src/model/message.rs defines it.
- The model's time specifier has a `Now` variant that resolves to now. The grammar
  (src/model/command.rs:234) produces it, but the enum at src/model/time.rs:120-124 lacks
  it.
- src/use_case/help.rs and src/use_case/show_setting.rs (one send, and three concurrent
  reads then one send) are not modelled beyond the `Help` and `Setting` messages.
- src/main.rs (an early prototype) and src/test.rs (test doubles) are not part of this
  model.
- The older grammar has no lemma that reads back every command's spelling; its
  properties are the duration table, the examples and the rule contracts listed above.

## Findings

| source | as written | input that shows it | evidently intended | confidence | as-written member | corrected member |
|---|---|---|---|---|---|---|
| src/model/command.rs:111-113 (and src/command.rs:165-173) | the 百 branch computes `x * 100 + d` in `u8` arithmetic, checking only that d is below 100 | 三百 (300) and 二百五十六 (256) | a kanji number never exceeds 255: the 百 branch fails when the value would not fit, as the other numbers' bound does | not executed | KanjiNumerals.KanjiHundredsOverflowAsWritten | KanjiNumerals.KanjiHundredsCorrected |
