# aw-watcher-ask, modelled in Dafny

aw-watcher-ask is an ActivityWatch watcher. On a cron-like schedule it shows
a Zenity dialog box asking one question. It stores each answer as an event in
a bucket on the local ActivityWatch server, and it stops once a deadline has
passed. This project models the parts of it that the repository itself
decides:

- `Utils` (`utils.py`): question ids. The `[a-z0-9.]` validity test, and the
  repair that transliterates, lower-cases and replaces other characters by
  dots.
- `Models` (`models.py`): the fifteen-member `DialogType` string
  enumeration, with its values, lookup by value, and the three kinds that are
  sent to the multi-field prompt.
- `Cli` (`cli.py`): the parser for the extra command-line options of `run`,
  and the merge of those options into the parameters passed to `main`.
- `Core` (`core.py`):
  - the client name and bucket id;
  - the answer record of a single-field prompt, the always-raising
    multi-field prompt and the dispatch between them;
  - the answer key;
  - the time-zone repair of a naive deadline;
  - the sleep computed from a `timedelta` in Python's days/seconds/microseconds
    normal form;
  - the loop in `main` that prompts once per firing and stores one event per
    prompt.

Everything the watcher talks to is abstract:

- **Transliteration** is a function parameter. Lemmas that need it assume
  two things: its output is ASCII, and it leaves ASCII text unchanged.
- **The ActivityWatch server** is the class `Server`. It records buckets and
  appended events.
- **The cron cursor** is a function giving the k-th firing instant.
- **The dialog** is a function giving the k-th reply.
- **The wall clock** is a count of microseconds, in UTC. It moves while the
  watcher sleeps, while the user answers (at least one microsecond each
  time), and while an event is stored and logged (a parameter
  `store: nat -> nat`, zero allowed).

`main` becomes the method `Core.Watch`, and its loop becomes
`Core.PromptUntil`. Both are proved against the function `Core.Loop`, which
says what a run stores. The lemmas about `Loop` say:

- which answers a run stores, and in what order;
- that the stamps increase;
- that the deadline is only tested at the loop head;
- when a run raises.

Where the documentation and the code disagree, the model follows the code:

- **Multi-value options.** The comments inside `_parse_extra_args`
  (src/aw_watcher_ask/cli.py:49-51, 67-68) say that `--name v1 v2` collects
  the following values into a list. The inner loop tests the option token itself again, which
  starts with `-`, so it breaks at once. As a result, an option without `=`
  always stores `True`, bare tokens are dropped, and no value is ever a list
  (`Cli.ParsedHasNoLists`, `Cli.FlagIgnoresFollowingValues`).
- **Sleeping after a missed firing.** The clamp `max(sleep_time.seconds, 0)`
  (src/aw_watcher_ask/core.py:165) shows that a firing already in the past
  was meant to cause no sleep. But the `.seconds` field of a negative
  `timedelta` is positive, so a firing missed by under a second means a sleep
  of 86399 seconds (`Core.SleepAfterMissedFiring`, `Core.WakesADayLate`).
- **The deadline.** The docstring of `main` (src/aw_watcher_ask/core.py:107-110)
  calls `until` the time "to stop gathering input from the user". The code
  only compares the clock with the deadline at the loop head. After a loop
  head that reads a clock before the deadline, it still sleeps towards the
  next firing and prompts there, so it can prompt at the first firing after
  the deadline, and the last stored event can be stamped after it
  (`Core.LoopStopsAtDeadline`, `Core.LoopExample`).

## Model

| member | source | states |
|---|---|---|
| `Utils.SearchForbidden` | src/aw_watcher_ask/utils.py:21 | the search finds the first character outside `[a-z0-9.]`, or reports that every character is inside it |
| `Utils.IsValidId` | src/aw_watcher_ask/utils.py:19-21 | an id is valid exactly when every character is in `[a-z0-9.]`, which makes the empty id valid |
| `Utils.Lower` | src/aw_watcher_ask/utils.py:16 | lower-casing maps each character on its own and keeps the length |
| `Utils.ReplaceForbidden` | src/aw_watcher_ask/utils.py:16 | the substitution turns each character outside `[a-z0-9]` into a dot and keeps the length |
| `Utils.FixId` | src/aw_watcher_ask/utils.py:14-16 | the repaired id is valid, as long as the transliteration, and its i-th character depends only on the i-th transliterated character |
| `Utils.FixCharClasses` | src/aw_watcher_ask/utils.py:16 | upper-case ASCII letters are lower-cased, `[a-z0-9.]` is kept, and every other character becomes a dot |
| `Utils.RejectedCharInvalidates` | src/aw_watcher_ask/utils.py:21 | an id with a space, an underscore, an upper-case letter or a non-ASCII character is invalid |
| `Utils.FixIdOfValid` | src/aw_watcher_ask/utils.py:14-16 | repairing a valid id returns it unchanged |
| `Utils.FixIdIdempotent` | src/aw_watcher_ask/utils.py:14-16 | repairing twice gives the same id as repairing once |
| `Utils.EffectiveId` | src/aw_watcher_ask/core.py:134-136 | the id `main` works with is valid, and is the given id when that one is valid |
| `Utils.EffectiveIdIsFixId` | src/aw_watcher_ask/core.py:134-136 | whichever branch `main` takes, it ends up with the repaired id |
| `Utils.LatinSampleIsTransliteration` | src/aw_watcher_ask/utils.py:16 | a concrete transliteration meets both assumptions made of the library |
| `Utils.TestValidIdentifier` | tests/test_utils.py:14-17 | the test's valid id is accepted |
| `Utils.TestInvalidIdentifiers` | tests/test_utils.py:20-31 | the test's four invalid ids are rejected |
| `Utils.FixUppercaseExample` | src/aw_watcher_ask/utils.py:16 | repairing `AN.ID` gives `an.id` |
| `Utils.FixSeparatorsExample` | src/aw_watcher_ask/utils.py:16 | repairing `a_b c` gives `a.b.c` |
| `Utils.FixNonAsciiExample` | tests/test_cli.py:31 | accented letters, as in the CLI test's id, are transliterated before the repair |
| `Models.Ordinal` | src/aw_watcher_ask/models.py:11-26 | every member has a position in declaration order |
| `Models.MembersAreDistinct` | src/aw_watcher_ask/models.py:12-26 | there are exactly fifteen members, each listed once, with pairwise distinct values |
| `Models.ValueRoundTrip` | src/aw_watcher_ask/models.py:11-26 | looking a member up by its value gives the member back |
| `Models.FromValueRoundTrip` | src/aw_watcher_ask/models.py:11-26 | a successful lookup returns a member with that value; a failed one means no member has it |
| `Models.ValueInjective` | src/aw_watcher_ask/models.py:12-26 | two members with the same value are the same member |
| `Models.Name` | src/aw_watcher_ask/models.py:12-26 | every member's identifier is non-empty and has no `-` |
| `Models.Value` | src/aw_watcher_ask/models.py:12-26 | every member's value is non-empty and has no `_` |
| `Models.FromValue` | src/aw_watcher_ask/models.py:11-26 | a successful lookup returns a member whose value is the string looked up |
| `Models.EqualsString` | src/aw_watcher_ask/models.py:11 | a member compares equal to a string exactly when looking up that string gives the member |
| `Models.FileSelectionValue` | src/aw_watcher_ask/models.py:16 | `file_selection`'s value is its name with `_` replaced by `-` |
| `Models.TextInfoValue` | src/aw_watcher_ask/models.py:22 | `text_info`'s value is its name with `_` replaced by `-` |
| `Models.ColorSelectionValue` | src/aw_watcher_ask/models.py:23 | `color_selection`'s value is its name with `_` replaced by `-` |
| `Models.ValuesFollowNames` | src/aw_watcher_ask/models.py:12-26 | every member's value is its name with `_` replaced by `-` |
| `Models.ValueDiffersFromName` | src/aw_watcher_ask/models.py:12-26 | exactly `file_selection`, `text_info` and `color_selection` have a value different from their name |
| `Models.IsMultiField` | src/aw_watcher_ask/core.py:170 | the values sent to the multi-field prompt belong to exactly `forms`, `list` and `file_selection` |
| `Models.NamesAreNotValues` | src/aw_watcher_ask/models.py:16-23 | looking up a hyphenated member by its name fails |
| `Cli.SplitOnce` | src/aw_watcher_ask/cli.py:45 | `split("=", 1)` gives the whole token when it has no `=`, and otherwise the text before the first `=` and the text after it |
| `Cli.StripDashes` | src/aw_watcher_ask/cli.py:46 | `lstrip("-")` drops exactly the leading dashes |
| `Cli.OptionName` | src/aw_watcher_ask/cli.py:45-46 | the key an option token creates has no `=` and does not start with `-` |
| `Cli.TokenValue` | src/aw_watcher_ask/cli.py:45-66 | a token stores a string exactly when it has an `=`, and `True` otherwise; never a list |
| `Cli.Parsed` | src/aw_watcher_ask/cli.py:35-71 | no key of the dictionary holds `=` or starts with `-` |
| `Cli.ParsedAppend` | src/aw_watcher_ask/cli.py:38-69 | a further option token sets its key to its value over what came before; a further bare token changes nothing |
| `Cli.ParseExtraArgs` | src/aw_watcher_ask/cli.py:22-71 | the loop builds the dictionary `Parsed` describes, with the inner value loop leaving on its first test |
| `Cli.TokenShape` | src/aw_watcher_ask/cli.py:41-46 | an option token is its leading dashes, its key (no `=`, no leading dash) and, when present, `=` and the stored value; without `=` it stores `True` |
| `Cli.ParsedKeys` | src/aw_watcher_ask/cli.py:38-46 | the keys are exactly the names of the tokens that start with `-` |
| `Cli.ParsedLastWins` | src/aw_watcher_ask/cli.py:61-69 | when an option repeats, its last occurrence decides the value |
| `Cli.ParsedHasNoLists` | src/aw_watcher_ask/cli.py:48-69 | every stored value is `True` or one string; the list branch is never taken |
| `Cli.ParsedIgnoresBareTokens` | src/aw_watcher_ask/cli.py:38-41 | a token that does not start with `-` changes nothing, wherever it stands among the arguments |
| `Cli.ParsedEmpty` | src/aw_watcher_ask/cli.py:35-38 | no arguments give an empty dictionary |
| `Cli.SplitAtFirstEquals` | src/aw_watcher_ask/cli.py:45 | the split happens at the first `=` |
| `Cli.ValueAfterFirstEquals` | src/aw_watcher_ask/cli.py:45-66 | `--name=value` stores `value`, including any later `=` |
| `Cli.FlagIgnoresFollowingValues` | src/aw_watcher_ask/cli.py:48-63 | `--name v1 v2 ...` stores the flag `True` and drops the values |
| `Cli.Run` | src/aw_watcher_ask/cli.py:132-134 | `ctx` is removed, parsed options override same-named parameters, the other parameters pass through, and the options that are not parameters of `main` form its `**kwargs` |
| `Core.ClientSetup` | src/aw_watcher_ask/core.py:33-42 | the client is named `aw-watcher-ask`, prefixed with `test-` exactly in testing mode, and its name has no `_` |
| `Core.BucketId` | src/aw_watcher_ask/core.py:27 | the bucket id is the client name, `_`, then the host name, each readable back at its place |
| `Core.BucketIdParts` | src/aw_watcher_ask/core.py:27 | the bucket id is the client name, `_`, then the host name, and both parts can be read back |
| `Core.Server.CreateBucket` | src/aw_watcher_ask/core.py:28 | creating a bucket adds it with its event type unless it already exists; events are unchanged |
| `Core.Server.InsertEvent` | src/aw_watcher_ask/core.py:193 | inserting appends exactly one event, to the given bucket |
| `Core.BucketSetup` | src/aw_watcher_ask/core.py:24-30 | the bucket id is returned and the bucket exists with the question id as its event type, unless it already existed |
| `Core.PromptRequest` | src/aw_watcher_ask/core.py:49-52 | the dialog gets the kind's value, the title, the timeout, and the extra options without `ctx` |
| `Core.AnswerRecord` | src/aw_watcher_ask/core.py:53-56 | the record holds the text under the title and, for any other title, the success flag under `success` |
| `Core.AnswerRecordKeys` | src/aw_watcher_ask/core.py:53-56 | the record has no other entries, and a title of `success` leaves one entry holding the text |
| `Core.AskOne` | src/aw_watcher_ask/core.py:45-56 | a single-field prompt always yields a record built from the dialog's reply |
| `Core.AskMany` | src/aw_watcher_ask/core.py:59-63 | a multi-field prompt always raises `NotImplementedError` |
| `Core.Ask` | src/aw_watcher_ask/core.py:170-188 | the prompt raises exactly for `forms`, `list` and `file_selection`; otherwise its record holds the reply's text under the answer key and, for any other key, the reply's flag under `success` |
| `Core.AnswerKey` | src/aw_watcher_ask/core.py:182-184 | the key is the title when it is non-empty, and otherwise the question id |
| `Core.CoerceDeadline` | src/aw_watcher_ask/core.py:143-145 | a naive deadline gets the system zone and keeps its wall time; an aware one is unchanged |
| `Core.ClockBefore` | src/aw_watcher_ask/core.py:158 | comparing the clock with a deadline raises exactly when the deadline is naive, and is true exactly when the clock is before its instant |
| `Core.CoercedDeadlineComparable` | src/aw_watcher_ask/core.py:143-158 | after the repair the clock comparison never raises; a naive deadline would have raised |
| `Core.FromMicros` | src/aw_watcher_ask/core.py:164 | a difference of instants becomes a normalised `timedelta` with the same total |
| `Core.NormalFormUnique` | src/aw_watcher_ask/core.py:164 | the normalised `timedelta` with a given total is unique |
| `Core.SleepSeconds` | src/aw_watcher_ask/core.py:165 | the sleep is always shorter than a day |
| `Core.Slept` | src/aw_watcher_ask/core.py:164-165 | sleeping never moves the clock back and moves it less than a day |
| `Core.SleepIsSecondsField` | src/aw_watcher_ask/core.py:165 | the clamp `max(..., 0)` never changes the `.seconds` field |
| `Core.SleepWithinADay` | src/aw_watcher_ask/core.py:164-165 | a firing less than a day ahead is slept for in whole seconds, rounded down |
| `Core.SleepDropsDays` | src/aw_watcher_ask/core.py:164-165 | whole days of the difference are ignored |
| `Core.SleepAfterMissedFiring` | src/aw_watcher_ask/core.py:164-165 | a firing missed by under a second gives a sleep of 86399 seconds |
| `Core.WakesJustBeforeFiring` | src/aw_watcher_ask/core.py:164-165 | for a firing less than a day ahead, the watcher wakes within the second before it |
| `Core.WakesADayLate` | src/aw_watcher_ask/core.py:164-165 | for a firing missed by under a second, the watcher wakes 86399 seconds later |
| `Core.InBucketLists` | src/aw_watcher_ask/core.py:193 | each stored event is listed once, in order, under the bucket |
| `Core.Loop` | src/aw_watcher_ask/core.py:158-193 | a run raises exactly when it starts before the deadline with a multi-field kind, and then stores nothing |
| `Core.MainPlan` | src/aw_watcher_ask/core.py:134-184 | the answer key is the title when it is non-empty, and otherwise the repaired question id, which is valid; an aware deadline keeps its instant and a naive one is read in the system zone; kind, timeout and options pass through |
| `Core.LoopStep` | src/aw_watcher_ask/core.py:158-193 | one turn before the deadline with a single-field kind stores one event, stamped after the sleep and the prompt, ahead of the turns that start once it is stored |
| `Core.LoopRaises` | src/aw_watcher_ask/core.py:170-178 | a turn with a multi-field kind raises before storing anything |
| `Core.PromptUntil` | src/aw_watcher_ask/core.py:158-193 | the loop appends exactly the events of `Loop` to the bucket, leaves the buckets alone, and ends as `Loop` does |
| `Core.Watch` | src/aw_watcher_ask/core.py:134-193 | `main` sets up the watcher's bucket with the repaired id as event type, then stores exactly the events of the run planned from the repaired id, the repaired deadline and the answer key |
| `Core.LoopAnswers` | src/aw_watcher_ask/core.py:180-193 | the i-th stored event holds the record of the i-th dialog's reply |
| `Core.LoopStampsIncrease` | src/aw_watcher_ask/core.py:158-193 | every event is stamped after the run's start, and the stamps strictly increase |
| `Core.LoopStopsAtDeadline` | src/aw_watcher_ask/core.py:158-193 | the loop head after every stored event but the last reads a clock before the deadline; a single-field run starting before the deadline stores at least one event, and the loop head after the last reads a clock at or after the deadline; a run starting at or after it stores nothing |
| `Core.LoopStampsBeforeDeadline` | src/aw_watcher_ask/core.py:158-193 | every event but the last is stamped before the deadline |
| `Core.LoopExample` | tests/test_core.py:66-95 | firings every 4 s, a 9 s deadline, 2 s answers and storing that takes no time store two events, the second stamped after the deadline |

## Left out

- The `croniter` schedule, including its random `R` fields, is not part of
  this model. It is a parameter `firing: nat -> int` giving the k-th firing
  instant.
- `zenity.show` is a parameter giving the reply to the k-th dialog. The
  model does not tie how long the user takes to the dialog's `timeout`.
- `ActivityWatchClient`, its connection and `Event` are not modelled beyond
  the bucket map and the event list of `Core.Server`. Server failures are
  not modelled.
- The clock is modelled, but `datetime.now`, `time.sleep` and
  `astimezone()` are not. The clock moves by the modelled sleep, by the
  user's answer time (at least one microsecond), and by the time taken to
  store and log an event (a parameter). The cron cursor and the log line
  between the loop head and the sleep are taken to be instantaneous. The
  system time zone is a fixed-offset parameter.
- Python `datetime` arithmetic is not modelled beyond microsecond instants,
  the deadline's wall time and the zone offset. Comparing a naive deadline
  with the aware clock raises `TypeError` in Python; the model returns None.
- The `unidecode` tables are not part of this model. Transliteration is a
  parameter. A small sample transliteration shows that the two assumptions
  made of it can be met.
- `Utils.Lower`: `str.lower` is modelled on ASCII letters only. `fix_id`
  applies it only to transliterated, ASCII text, where this is exact.
- `Cli.ParseExtraArgs`: the inner `while True` is not a Dafny loop. Its
  first test always breaks, so the model states that test and the branch the
  code then takes, and the value-collecting branch is dead code.
- `Cli.Run`: no conversion happens after the merge. `main(**params)`
  (src/aw_watcher_ask/cli.py:135) receives the parsed values as they are,
  so an extra option named like a parameter overrides it with a string:
  `--timeout=5` makes `timeout` the string "5". The model carries the parsed
  value into the dictionary unchanged (the parameter `inject` only wraps it
  in the dictionary's value type). What `main` then does with a string
  `timeout` is not modelled.
- Logging (`loguru`), the Typer application wiring, the `--version`
  callback, `get_current_datetime` and `__main__.py` are plumbing and are
  left out.
- `Core.Watch`: `main` is written as two methods, `Watch` (set-up) and
  `PromptUntil` (the loop), so that each can be proved on its own.
- In `Core.Request`, the dialog kind travels as its value string, and the
  other positional arguments of `zenity.show` are left out.
