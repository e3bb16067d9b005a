# jt: the timesheet `fill` run, modelled in Dafny

`jt` fills a Tempo timesheet from the command line. Its `main` finds the
Monday of the current ISO week, or of next week with `--next`. For each of the
five working days from that Monday it asks the user to pick one of their
assigned issues. It then logs one eight-hour worklog per day. Each worklog
carries the configured work attributes: a dynamic attribute's value is a JSON
Pointer into the chosen issue's fields and is replaced by the string found
there, and the static attributes follow unchanged. The client builds a
create-worklog payload whose attributes are a map keyed by attribute key. In
dry-run mode the payload is not sent. The run stops at the first failure.

The Dafny project has seven modules:

- `Results` (`results.dfy`): the `Option` and `Result` types.
- `Decimal` (`decimal.dfy`): decimal digit strings, written and read back. The date text form and JSON Pointer array indices both use them.
- `Calendar` (`calendar.dfy`): the date arithmetic the program gets from its
  date library. It covers proleptic Gregorian dates numbered from 0001-01-01,
  stepping one day at a time, and ISO 8601 week dates (ISO 8601:2004 section
  4.1.4): the week of a date, and the Monday of a numbered week. It also has
  the `%Y-%m-%d` text form and a reader for it.
- `JsonPointer` (`json_pointer.dfy`): JSON values and JSON Pointer as
  specified by RFC 6901. RFC 6901 section 3 gives the syntax and the `~0`/`~1`
  escapes; RFC 6901 section 4 gives evaluation.
- `Config` (`config.dfy`): the configuration records.
- `Client` (`client.dfy`): how an issue is displayed, how the create-worklog
  payload is built, and the dry-run gate.
- `Fill` (`fill.dfy`): the body of `main` from the target week onwards. That
  covers the target Monday, the five-day plan (a loop), attribute resolution,
  and the fail-fast upload loop.

Every input from the outside world is a parameter:

- the current date `now`;
- the list of tasks the server returned;
- the user's pick for each day, `choices`, an index into the list of tasks;
- the server's answer to the `i`-th worklog request, `responses[i]`.

In the modelled part of the program, every `unwrap`, `expect` or `?` becomes an explicit error value. The ones in code outside the model (configuration loading, the token, the issue fetch, the URL join) are not modelled; see Left out.

## Model

| member | source | states |
|---|---|---|
| Calendar.AddDaysNumber | src/main.rs:54 | The day iterator's `k`-th day is exactly `k` day numbers after the first day. |
| Calendar.IsoWeekOf | src/main.rs:46-50 | A date's ISO week-year has the date between its week-one Monday and the next year's. The week number is between 1 and that year's week count, and the week's Monday is at most six days before the date. The week-year is the calendar year of the date or a neighbouring one. |
| Calendar.IsoWeekOfUnique | src/main.rs:46-50 | A date falls in exactly one ISO week: any week the date falls in is the one `IsoWeekOf` returns. |
| Calendar.WeeksInYearRange | src/main.rs:51-52 | An ISO week-year has 52 or 53 weeks, and the next week-one Monday is that many whole weeks later. |
| Calendar.MondayOfIsoWeek | src/main.rs:51-52 | Looking up a week's Monday succeeds exactly when the week number is between 1 and the year's week count. On success the date is valid, is a Monday, and is `week - 1` weeks after week one's Monday. |
| Calendar.FormatDateRoundTrip | src/client.rs:92 | For years 0 to 9999, a date formatted as `%Y-%m-%d` is ten characters long and reads back as the same date. |
| JsonPointer.UnescapeEscape | src/main.rs:76 | Unescaping an escaped key (`~` written as `~0`, `/` as `~1`) gives the key back. |
| JsonPointer.EscapeUnescape | src/main.rs:76 | A slash-free token that unescapes is exactly the escape of its key, so every key has one spelling. |
| JsonPointer.ParseFormat | src/main.rs:76 | The JSON Pointer written for any path of keys parses back to that path. |
| JsonPointer.EvaluateFormat | src/main.rs:76 | Evaluating the JSON Pointer written for a path gives the value at the end of that path, or `NotFound` when the path leads nowhere. |
| JsonPointer.WalkAppend | src/main.rs:76 | Evaluation goes step by step: walking `a + b` is walking `a`, then walking `b` from where `a` ends. |
| Client.Display | src/client.rs:36-45 | An issue can be displayed exactly when it has a `summary` field holding a string. A missing summary is its own error. |
| Client.DisplaySplits | src/client.rs:44 | A displayed issue is its key, then ` - `, then its summary. |
| Client.AttributeMapKeys | src/client.rs:80-95 | The payload's attribute map has exactly the keys of the attribute list. |
| Client.AttributeMapLastWins | src/client.rs:80-95 | Each key maps to the last attribute in the list with that key. The entry copies that attribute's name, id and value unchanged. |
| Client.StaticOverridesDynamic | src/client.rs:95 | For a list made of dynamic attributes followed by static ones, a key that appears among the static attributes maps to the last static attribute with that key. |
| Client.BuildRequestFacts | src/client.rs:90-96 | The payload copies the worker and the issue key verbatim and always asks for 28800 seconds. `started` reads back as the day (years 0 to 9999). The attribute keys are the list's keys. |
| Client.CreateWorklog | src/client.rs:72-110 | The call builds the payload. It sends exactly when not in dry-run mode, and a dry run always succeeds. Otherwise it succeeds exactly when the server answers with a status outside 400-599. A connection failure and an error status are reported as such. |
| Fill.ReferenceDate | src/main.rs:46-50 | The reference date is `now`, or exactly seven days later with `--next`. |
| Fill.TargetMonday | src/main.rs:45-52 | As written: the result, when there is one, is a Monday. It exists exactly when the reference date's week number exists in `now`'s calendar year. When the ISO week-year equals that year, the Monday is at most six days before the reference date. |
| Fill.TargetMondayYearBehind | src/main.rs:51-52 | On 2024-12-30 the as-written Monday is 2024-01-01, 364 days earlier. |
| Fill.TargetMondayMissingWeek | src/main.rs:51-52 | On 2021-01-01 the as-written computation asks for week 53 of 2021, which does not exist. |
| Fill.IntendedMonday | src/main.rs:45-52 | Corrected: a valid Monday at most six days before the reference date. |
| Fill.IntendedMondayUnique | src/main.rs:45-52 | The intended Monday is the only Monday at most six days before the reference date. |
| Fill.TargetMondayIsIntended | src/main.rs:51-52 | When the reference date's ISO week-year equals `now`'s year, the as-written Monday is the intended one. |
| Fill.Labels | src/main.rs:58 | The list of tasks can be shown exactly when every task can be displayed. It then has one line per task, in task order, each that task's display. |
| Fill.LabelsFirstFailure | src/main.rs:58 | When the list cannot be shown, the error names the first task that cannot be displayed and carries its display error. |
| Fill.WeekPlan | src/main.rs:53-65 | The plan of a week whose five days all have a good pick has five entries, and every planned day is a calendar date. |
| Fill.PlanWeek | src/main.rs:53-65 | Planning succeeds exactly when every task can be listed, the list is not empty, and each of the five days has an in-range pick. The plan is then `WeekPlan`: five entries, day `d` being the first day plus `d` days, paired with the issue picked for it. Otherwise the error is the first that applies: undisplayable task, no tasks, or the first day without a good pick. |
| Fill.ResolveTemplateAtPath | src/main.rs:75-79 | A template whose pointer is written for a path resolves to the string at the end of that path. It fails with `NotFound` when the path leads nowhere, and with `NotAString` when the path ends at a value that is not a string. |
| Fill.ResolveDynamic | src/main.rs:71-81 | Resolution succeeds exactly when every template resolves. The results are in template order, one per template. |
| Fill.ResolveDynamicFirstFailure | src/main.rs:71-81 | When resolution fails, the error is that of the first template that does not resolve. |
| Fill.ResolveAttributesFacts | src/main.rs:71-82 | Resolution succeeds exactly when every dynamic pointer names a string. The result has the dynamic attributes first and the static ones after, unchanged. Each dynamic attribute keeps its key, name and id, and its value is the string its pointer names. |
| Fill.ResolveSingleField | src/main.rs:74-79 | A pointer `/name` over fields `{name: text}` resolves to `text`, with everything else about the template kept. |
| Fill.LogEntry | src/main.rs:71-85 | One turn of the upload loop is the entry's step: its attribute error, or the create-worklog call with its resolved attributes. |
| Fill.LogWork | src/main.rs:70-86 | The loop's calls and result are exactly the fail-fast upload of the plan's steps, in plan order. |
| Fill.UploadCalls | src/main.rs:70-86 | The upload makes at most one call per entry, and its `k`-th call is the call entry `k` makes. |
| Fill.UploadFailFast | src/main.rs:70-86 | Every call before the last succeeded. The upload succeeds exactly when every entry made a call and all calls succeeded. |
| Fill.UploadFailure | src/main.rs:70-86 | A failed upload stopped either at an entry whose attributes do not resolve, right after a successful call, or at a failed call. The error names that entry and its reason. |
| Fill.UploadWithoutFailedCalls | src/main.rs:70-86 | When no call fails, the upload succeeds exactly when every entry's attributes resolve. |
| Fill.LogWorkCalls | src/main.rs:70-86 | Logging the plan makes at most one call per entry. The call for entry `j` is the create-worklog call with the configured worker, that entry's day and issue key, its resolved attributes, and `responses[j]`. |
| Fill.LogWorkDryRun | src/client.rs:104-105 | In a dry run no call is sent, and logging succeeds exactly when every entry's attributes resolve. |
| Fill.Run | src/main.rs:45-86 | A planning failure makes no call. When the week can be planned, the calls and the result are exactly the fail-fast upload of `WeekPlan` from the intended Monday, so `UploadFailFast`, `UploadFailure` and `LogWorkCalls` describe them: entry by entry the resolved attributes, the first failure and its error. On success the plan was possible and there are five calls. Call `d` succeeded and was sent unless in dry-run mode. It logs 28800 seconds for the configured worker on the issue picked for day `d`, dated the intended Monday plus `d` days. |

## Left out

- Fill.Run: computes the first day with the corrected `IntendedMonday`, not with the program's `now.year()` pairing. The as-written computation is `Fill.TargetMonday`; see Findings.
- Calendar.FormatDateRoundTrip: the round trip is stated for years 0 to 9999 only. Outside that range `%Y` adds a sign, and the payload's `started` is still produced (`Calendar.FormatYear`), but no reader is modelled for it.
- The fetch of the assigned issues (`get_assigned_issues`, src/client.rs:112-130) is HTTP against a server this model cannot see. Its JQL query and response decoding are left out, and the list of tasks is an input.
- HTTP transport, bearer authentication, the URL join and async execution are left out. The server's answer to each request is an input (`Client.Response`).
- Configuration loading (TOML file, config directory, URL parsing), the `JIRA_TOKEN` variable and the command-line parsing are I/O. The configuration is an input; `--next` and `--dry-run` are the `next` and `dryRun` parameters.
- The configuration fields `reviewer`, `default_time_spent_seconds` and `static_tasks` are carried in `Config.Config` but never used, as in the program.
- The terminal UI is left out: spinners, styling, `println!` and debug logging. Select's highlighted default (`default(0)`) does not affect which index is returned, so only the returned pick (`choices`) is modelled.
- Wall-clock time and time zones are left out. `now` is a calendar date, and "now plus one week" is modelled as seven calendar days later. In the program, `now + Duration::weeks(1)` on a local date-time adds 168 hours of real time, so across a daylight-saving change the date can shift by a day: late on a Sunday before clocks go forward, `--next` lands in the week after next. The model always adds seven calendar days.
- JSON numbers are integers in `JsonPointer.Json`. Floats are not modelled, because resolution only ever asks whether a value is a string.
- Fixed-width integers are unbounded here: `u64` attribute ids and seconds, and the `usize` array indices of pointer evaluation. An index too large for `usize` names no element in the program but may name one here.
- JsonPointer.Parse: follows RFC 6901 strictly, so a `~` not followed by `0` or `1` is `Malformed`. The program's JSON library keeps such a sequence literally and looks up the key as written. The program panics in both cases unless a field has that literal name.
- The date library's supported year range (roughly ±262000) is not modelled; dates here are unbounded.
- Features of the wider tool that this code does not have are outside the model: a daily time target, random task mode, timesheet submission and an init flow.

## Findings

| source | as written | input that shows it | evidently intended | confidence | as-written member | corrected member |
|---|---|---|---|---|---|---|
| src/main.rs:51-52 | The first day is looked up from `now.year()` together with the week number of the reference date's ISO week, which belongs to the ISO week-year. | `now` = 2024-12-30 (ISO 2025-W01) gives 2024-01-01, 364 days early. `now` = 2021-01-01 (ISO 2020-W53) asks for 2021-W53, which does not exist, so `unwrap` panics. | The Monday of the reference date's own ISO week: use the ISO week-year with the week number. | not executed | Fill.TargetMonday (with Fill.TargetMondayYearBehind, Fill.TargetMondayMissingWeek) | Fill.IntendedMonday (with Fill.IntendedMondayUnique, used by Fill.Run) |
