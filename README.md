# Daily report check bot — a verified model of the check

The bot watches one chat channel. Once a day, at 00:05 Korea Standard Time,
it looks at the evening window that has just ended, 18:00 to 23:59:59. It
finds the members of the channel's guild who are expected to report and who
posted nothing in that window. It then posts one channel message: a
confirmation when everybody reported, or a summary that mentions every
absentee. After the summary it tries to send each absentee a direct reminder.
A failed reminder is logged and the loop goes on.

This project models that check, `check_reports` in `bot.py`, with its helpers:

- `report_window.dfy` (`ReportWindow`): `_today_range`, the window, and the
  bounds the history query uses, including the optional overrides.
- `text.dfy` (`Text`) holds the Python string operations the check relies on:
  `split`, `join`, `strip`, `isdigit`, `int` and `str`.
- `allow_list.dfy` (`AllowList`) parses the `TARGET_MEMBER_IDS` text into a set
  of IDs.
- `seqs.dfy` (`Seqs`) defines the order-preserving filter that every list
  comprehension with an `if` in the check stands for.
- `roster.dfy` (`Roster`) builds the roster: the eligibility loop (no bots,
  only readers of the channel, failing closed) and the allow-list filter.
- `attendance.dfy` (`Attendance`) computes the reporters, which are the
  authors of the messages inside the window, and the absentees.
- `notifier.dfy` (`Notifier`) covers what is sent: the channel message with
  its mention list, and the reminder loop. The sends are a trace of actions.
- `report_check.dfy` (`ReportCheck`) is one whole run. The platform's answers
  are inputs, and each caught failure ends the run before anything is sent.
- `scenarios.dfy` (`Scenarios`) works through small concrete runs.

The parts of the source that are imperative stay imperative:

- `Roster.CollectEligible` is the eligibility loop.
- `Notifier.Notify` is the send loop.
- `ReportCheck.RunCheck` is the run with its early returns.

Each of these methods is proved equal to a specification function:
`Seqs.Filter`, `Notifier.NotificationPlan` and `ReportCheck.CheckReports`.
The properties are proved as lemmas about those functions.

Time is Korea Standard Time, a fixed UTC+9 offset with no daylight saving.
A local date-time is a day number with an hour, minute, second and
microsecond. An instant is a count of microseconds on that local time line.

`bot.py` describes the window in three ways: "between 18:00 and midnight"
(bot.py:5), "18:00–23:59 KST" (bot.py:87) and "18:00~24:00" in the reminder
text (bot.py:220). The code builds the window as 18:00:00 to 23:59:59
(bot.py:93-94). It reads the history with `after=start, before=end`
(bot.py:143), which keeps only messages strictly between the two instants.
The model follows the code. A message posted at 23:59:59.000000, or later in
that last second before midnight, is therefore not a report
(`ReportWindow.LastSecondOutsideWindow`). The same goes for a message posted
at exactly 18:00:00.000000.

## Model

| member | source | states |
|---|---|---|
| ReportWindow.TodayRange | bot.py:86-99 | The window runs from 18:00:00.000000 to 23:59:59.000000 of a single day. Both ends are valid times, the start comes first, and the window is 5 h 59 min 59 s long. |
| ReportWindow.TodayRangeDay | bot.py:92-98 | The window's day is the day of the latest 06:00 not after now. Before 06:00 that is the previous day; from 06:00:00 on it is the current day. |
| ReportWindow.EarlyMorningWindowIsPast | bot.py:95-98 | A check before 06:00 looks at a window that has already closed. |
| ReportWindow.ScheduledRunChecksPreviousEvening | bot.py:102-106 | The 00:05 scheduled run checks 18:00–23:59:59 of the previous day. |
| ReportWindow.TodayRangeDependsOnlyOnDay | bot.py:92-98 | Two clock times with the same window day get the same window. |
| ReportWindow.EffectiveBounds | bot.py:112-115 | Custom bounds are used only when both are given. If either is missing, or both are, the bounds are exactly today's window, and they are ordered. |
| ReportWindow.LoneOverrideIgnored | bot.py:114-115 | One custom bound given without the other is ignored. |
| ReportWindow.LastSecondOutsideWindow | bot.py:141-144 | With the default window, no instant in the last second 23:59:59 is strictly inside the history bounds. |
| Text.Strip | bot.py:49-51 | `strip()` returns at most as many characters as it was given. The result neither starts nor ends with whitespace, and it is empty exactly when the input is all whitespace. |
| Text.StripIsSlice | bot.py:49-51 | `strip()` returns one contiguous slice of its input, and what it cuts before and after that slice is whitespace. |
| Text.StripPadded | bot.py:49-51 | Stripping whitespace padding off a core that does not start or end with whitespace gives the core back. |
| Text.DigitsValue | bot.py:49 | `int()` of a run of digits is its decimal value. Its contract is stated by `Text.DecimalValue` and `Text.LeadingZeroIgnored`. |
| Text.Decimal | bot.py:49 | `str(n)` is a non-empty run of digits and has no leading zero unless n is 0. |
| Text.DecimalValue | bot.py:49 | `int(str(n)) == n`. |
| Text.LeadingZeroIgnored | bot.py:49 | Leading zeros do not change the value `int` reads. |
| Text.Split | bot.py:50 | Splitting at one separator gives at least one part. No part contains the separator, and joining the parts with it gives the input back. |
| Text.SplitConcat | bot.py:50 | Splitting `a + sep + b` gives the parts of `a` followed by the parts of `b`. |
| Text.Join | bot.py:210 | `sep.join(parts)`: the parts with the separator between neighbours. `Text.Split` and `Text.SplitJoin` prove it is the inverse of splitting. |
| Text.SplitJoin | bot.py:50 | When no part contains the separator, split undoes join. |
| AllowList.IsIdToken | bot.py:51 | A piece contributes an ID exactly when it strips to a non-empty run of digits. `AllowList.ParseToken` states what it contributes. |
| AllowList.ParseAllowList | bot.py:48-52 | The allow-list is the set of integers of the comma-separated pieces that strip to digits. Its contract is stated by `AllowList.ParseAllowListMembership`. |
| AllowList.ParseAllowListMembership | bot.py:48-52 | An ID is in the allow-list exactly when some comma-separated piece of the setting strips to digits whose value is that ID. |
| AllowList.TokenIdsMembership | bot.py:48-52 | Over any list of pieces, an ID is collected exactly when some piece strips to digits whose value is that ID. |
| AllowList.ParseToken | bot.py:49-51 | A piece without commas adds its integer if it strips to digits, and adds nothing otherwise. |
| AllowList.ParseEmpty | bot.py:48-52 | An unset or empty setting gives the empty allow-list. |
| AllowList.ParseConcat | bot.py:48-52 | The IDs of `a,b` are the IDs of `a` together with the IDs of `b`. |
| AllowList.ParsePaddedId | bot.py:49-51 | A numeral with whitespace in front of it gives exactly its own number. |
| AllowList.ParseListed | bot.py:48-52 | A comma-separated list of numerals, each with the same whitespace padding, gives exactly the set of listed IDs. |
| Seqs.Filter | bot.py:187-188 | A list comprehension with a condition gives a subsequence of its input. An element is in the result exactly when it is in the input and passes the test, with its full multiplicity. |
| Roster.CanRead | bot.py:160-166 | A member can read exactly when the permission lookup succeeded and granted read access. A failed lookup counts as no access. |
| Roster.CollectEligible | bot.py:169-174 | The loop collects, in fetch order, exactly the fetched members that are not bots and can read the channel. |
| Roster.RestrictToAllowList | bot.py:186-188 | The allow-list filter keeps a subsequence. A member stays exactly when the allow-list is empty or holds its ID, and an empty allow-list changes nothing. |
| Roster.RestrictKeepsMultiplicity | bot.py:187-188 | A non-empty allow-list keeps each listed member's occurrences and drops all occurrences of everyone else. |
| Roster.ResolveRoster | bot.py:169-188 | A member is on the roster exactly when they were fetched, are not a bot, can read the channel, and the allow-list is empty or holds their ID. |
| Roster.ResolveRosterIsOneFilter | bot.py:169-188 | The eligibility loop followed by the allow-list filter is a single order-preserving filter over the fetched members. |
| Roster.PermissionFailureExcluded | bot.py:160-174 | A member whose permission lookup failed is never on the roster. |
| Roster.AllowListCoveringRosterIsNoOp | bot.py:186-188 | An allow-list naming every eligible member leaves the roster as it is. |
| Attendance.Reporters | bot.py:140-144 | A member is a reporter exactly when some message strictly inside the bounds has that member as its author. |
| Attendance.ReportersIgnoreOutside | bot.py:141-144 | Messages outside the window make nobody a reporter. |
| Attendance.ReportersAppend | bot.py:141-144 | The reporters of two stretches of history are the union of the reporters of each. |
| Attendance.Absentees | bot.py:199-200 | The absentees form a subsequence of the roster. A member is absent exactly when they are on the roster and not a reporter, and they keep their roster multiplicity. |
| Attendance.NoAbsenteesIffAllReported | bot.py:200-207 | Nobody is absent exactly when every roster member reported. |
| Attendance.EmptyRosterNoAbsentees | bot.py:200 | An empty roster has no absentees. |
| Attendance.NoReportersAllAbsent | bot.py:200 | With no reporters, the whole roster is absent, in order. |
| Attendance.MoreReportersFewerAbsentees | bot.py:200 | More reporters give a subsequence of the absentees. |
| Notifier.Mention | bot.py:210 | A mention contains no space. |
| Notifier.MentionInjective | bot.py:210 | Different members get different mentions. |
| Notifier.Mentions | bot.py:210 | There is one mention per absentee, in order. |
| Notifier.MentionList | bot.py:210 | The absentees' mentions joined by single spaces. Its contract is stated by `Notifier.MentionListSplits` and `Notifier.MentionedExactlyAbsentees`. |
| Notifier.MentionListSplits | bot.py:210 | Splitting the space-joined mention list at spaces gives back exactly one mention per absentee, in order. |
| Notifier.MentionedExactlyAbsentees | bot.py:209-214 | A member's mention is in the summary's list exactly when that member is an absentee. |
| Notifier.NotificationPlan | bot.py:202-227 | What is sent: one channel post first, then one reminder attempt per absentee, to that absentee, in order, carrying that attempt's outcome. |
| Notifier.Notify | bot.py:202-227 | The send loop produces the notification plan. It makes one channel post, then exactly one reminder attempt per absentee, in order, with that attempt's outcome. |
| Notifier.ExactlyOneChannelPost | bot.py:202-214 | Exactly one channel message is sent. It is the confirmation when nobody is absent, and otherwise the header followed by the mention list. |
| Notifier.ConfirmationIffNobodyAbsent | bot.py:203-207 | The channel message is the confirmation exactly when nobody is absent. |
| Notifier.AllReportedOnlyConfirms | bot.py:203-207 | When nobody is absent, the confirmation is the only action, and no reminder is sent. |
| Notifier.DmFailuresIsolated | bot.py:216-227 | Every absentee gets a reminder attempt, in order, whatever the earlier attempts' outcomes. Runs that differ only in which sends fail attempt the same recipients and post the same channel message. |
| ReportCheck.CheckReports | bot.py:109-227 | A run completes exactly when the channel, its history, its guild, the bot user and the member list are all available, and is aborted otherwise. |
| ReportCheck.RunCheck | bot.py:109-227 | The step-by-step run is the specification run `CheckReports`: the early returns in source order, then the loop, the filter and the sends. |
| ReportCheck.FailureSendsNothing | bot.py:119-184 | Every caught failure ends the run before anything is sent. These failures are: the channel fetch failing, the history read failing, no guild, no bot user, or the member fetch failing. |
| ReportCheck.CompletedRunNotifiesAbsentees | bot.py:140-227 | A run that gets all its answers completes and posts exactly one channel message. It attempts reminders to exactly the fetched members who are not bots, can read, are allowed, and have no message inside the window, in fetch order. |
| ReportCheck.CompletedRunIsPlan | bot.py:168-214 | A completed run is the notification plan for the absentees of the one-pass roster. |
| ReportCheck.PlanOutline | bot.py:202-227 | A notification plan has exactly one channel post, and its reminder recipients are the absentees' IDs. |
| Scenarios.TwoAbsentees | bot.py:139-200 | Messages from A and B inside the window, with roster A, B, C, D, leave C and D absent. |
| Scenarios.TwoAbsenteesNotified | bot.py:209-227 | The summary for absentees C and D reads `<@3> <@4>`. Both get a reminder attempt even when the first one is refused. |
| Scenarios.EmptyHistory | bot.py:199-200 | With no message in the window, the whole roster A, B is absent. |
| Scenarios.AllowListKeepsListed | bot.py:186-188 | The allow-list {1, 3} over A, B, C keeps A and C. |
| Scenarios.BotAndUnreadableDropped | bot.py:169-174 | A bot, and a member whose permission lookup failed, are dropped from the roster. |
| Scenarios.JunkTokenSkipped | bot.py:48-52 | The setting `7,abc` configures member 7 alone. |

## Left out

- The chat platform is given as inputs. These inputs are the channel, its history, its guild's member list, whether the bot user is known, and the outcome of each direct message. Network access and the discord.py client are not part of this model.
- The model does not cover scheduling and process control: the daily `tasks.loop`, `on_ready`, `main`, the `--once` mode and argument parsing. The model starts at the check, with the current local time and the optional override bounds as inputs.
- Parsing of the `--window-start` / `--window-end` ISO strings is left out. The overrides enter the model as instants.
- The administrator-only `!check` command is left out. It runs the same check with no overrides, which is `ReportCheck.RunCheck` with `None` for both bounds.
- Reading the `.env` file and the environment is left out. A missing or non-numeric `REPORT_CHANNEL_ID`, which stops the program at start-up, is left out as well. The allow-list text is an input to `AllowList.ParseAllowList`.
- Logging, and the debug print of the eligible members, are left out because they do not affect what is sent.
- The `pytz` time zone is modelled as a fixed UTC+9 offset. Korea has had no daylight saving since 1988.
- `str.isdigit` is modelled on ASCII digits only. Python's `isdigit` also holds for other Unicode decimal digits, which `int` reads as numbers, and for superscript digits, on which `int` raises `ValueError`. That error would stop the program at start-up. An ID setting would not normally contain either kind.
- `Notifier.Mention` assumes discord.py's `Member.mention` format `<@id>`. That format is not defined in `bot.py`.
- Exceptions the source does not catch are left out: a failed channel send, or an error other than the platform's HTTP errors while reading history or fetching members. They end the run with an error. Only the caught failures are modelled, as `ReportCheck.Abort`.
- A history read or member fetch that fails part-way is modelled as failing as a whole. The source also returns without sending anything in that case.
- `Notifier.Notify` takes the outcome of each reminder as an input sequence, one per absentee. The reason is that the outcome is the platform's answer.
- `ReportCheck.CompletedRunNotifiesAbsentees` states which channel message is posted only as the count of one. The fact that it is the confirmation exactly when nobody is absent is proved separately in `Notifier.ConfirmationIffNobodyAbsent` and `Notifier.ExactlyOneChannelPost`.
- Concurrency between a scheduled run and a manual `!check` is left out. Each run is modelled on its own.
