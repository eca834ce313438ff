# atcoder-bot-rs, modelled in Dafny

atcoder-bot-rs is a Discord bot that follows a set of AtCoder users. The core modelled here
has five parts:

- It classifies a problem difficulty into one of eight rating colours (plus `Black` for
  "unknown"), each with an RGB accent and a one-character glyph. There are three copies of
  the tables: `src/api_parsing/difficulty.rs`, `src/difficulty.rs` and `src/main.rs`.
- It builds a daily digest of the submissions each user had accepted, sent as Discord
  embeds. When nobody has anything, one fallback text is sent instead. There are three
  generations of this pipeline, and they cut the embeds differently:
  - `process` in `src/main.rs` takes `windows(25)` of the details, so consecutive embeds
    repeat 24 fields, and all embeds go out in one message;
  - `notify` in `src/notify.rs` takes `chunks(25)` and sends every embed in one message;
  - `list_submission` in `src/functions/periodic/list_submission.rs` takes `chunks(25)`, so
    there is one field per accepted submission and at most 25 fields per embed, and it sends
    at most 10 embeds per message.
- It keeps its schedules in plain arithmetic:
  - `daily_job.rs` and `daily_job` in `main.rs` wait until the next local midnight;
  - `wait.rs` waits for 04:00 local time;
  - `wait.rs` also runs a contest scan on every 10-minute boundary.
- It selects upcoming contests to remind about (`check_upcomings.rs`). A contest is picked
  when its kind has notifications enabled and its reminder time, five minutes before the
  start, falls between now and the next UTC midnight. The reminder embed and the role
  mention are modelled too.
- It offers the configuration slash commands, in three generations:
  - `main.rs`: channel and users;
  - `src/commands.rs`: channel and users;
  - `src/functions/commands.rs`: adds contest kinds and a mention role.

### How the model is built

- **Values.** Records become datatypes: `SubmissionItem`, `ProblemItem`,
  `ProblemModelItem`, `ContestItem`, `ProblemDetail`, `Embed` and `Message`. Timestamps are
  integer seconds since the epoch. Local time is a fixed offset in seconds.
- **Network.** What the bot fetches becomes an input, `Fetched`. A missing response, or a
  user missing from the submissions map, stands for a failed request. Either one ends the
  run with `Upstream`.
- **Sleeps.** Every sleep is computed as a number and never awaited.
- **Floating point.** The one floating-point step is the logistic formula used below a
  difficulty of 400. It is a parameter `logistic: int -> real`. Rust's saturating `as` cast
  on its result is modelled exactly, by `Rating.CastFloat`.
- **The digest loops** are methods (`ListSubmission.ListSubmission`, `Notify.RunNotify`,
  `LegacyMain.Process`). Each method's loop grows `embeds` one user at a time, and it is
  proved equal to a specification function (`Digest`). The lemmas are proved about those
  functions.
- **The send loop** `chunks(10)` is the method `ListSubmission.Deliver`.
- **The 10-minute scan** is the method `Wait.ScanTarget`. Its `while` loop is proved to
  stop at the next boundary.
- **The commands** are methods of `Data` classes, whose fields the commands update in
  place. An `effects` log records, in order, each snapshot passed to `save` and each reply
  sent. The booleans `saveOk` and `replyOk` decide whether those two `?` steps fail, so the
  early exits are modelled too.

### Points where the code is easy to misread

The model follows the code in each case:

- **The digest window.** `list_submission` keeps the submissions before today's local
  midnight. It leaves the lower bound, yesterday's midnight, to the `from_second` query
  parameter, so the model takes the fetched list as the server's answer.
- **The 04:00 target.** The code compares `res < now`, so the target is the first 04:00 at
  or after now, not strictly after it: at exactly 04:00 the sleep is zero
  (`Wait.AtDigestTimeNoSleep`).
- **`Color::from(usize)` in `notify.rs`.** `notify.rs` calls `difficulty::Color::from(usize)`
  and formats a `Color` with `{}`. `src/difficulty.rs` defines neither; it has `fn color`
  and `From<Color> for String`. The model uses those two (`Difficulty.ColorOf`,
  `Difficulty.Glyph`).
- **`main.rs`'s `SubmissionItem`.** It differs from `src/api_parsing/types.rs` in several
  fields: `point: f32` and `length: i32` where the later one has `f64` and `i64`, no
  `Clone`, and `execution_time: i32` without `Option`. The last one matters although the
  value is never read: the API sends `null` for some entries, and then
  `serde_json::from_str` (main.rs:272) fails for that user's whole list and `process` returns
  an error. The shared datatype keeps `executionTime: Option<int>` and drops the float
  fields. In `LegacyMain`, that
  decode failure is one of the failed fetches `Fetched` represents by a missing entry, which
  ends the run with `Upstream`.
- **`Data` of `src/commands.rs`.** The `Data` it uses is not part of this model. It is taken
  to be the `main.rs` pair of channel and users, since these commands touch only those two
  fields.

## Model

| member | source | states |
|---|---|---|
| Rating.DeclarationOrder | src/api_parsing/difficulty.rs:3-14 | the derived order follows declaration order: Black is least, Red is greatest, any two distinct colours are comparable |
| Rating.MaxOf | src/functions/periodic/list_submission.rs:122-132 | `max().unwrap()` of a non-empty list returns one of its elements, and that element is at least every other |
| Rating.MaxOfBlack | src/functions/periodic/list_submission.rs:125-131 | the maximum is Black exactly when every colour is Black |
| Rating.CastFloat | src/api_parsing/difficulty.rs:74 | Rust's float-to-int `as` cast: saturates at both bounds, truncates toward zero in between, and maps negative values to at most 0 |
| ApiDifficulty.Rgb | src/api_parsing/difficulty.rs:16-30 | every accent fits in 24 bits |
| ApiDifficulty.RgbInjective | src/api_parsing/difficulty.rs:16-30 | distinct colours have distinct accents, and only Black is 0x000000 |
| ApiDifficulty.Glyph | src/api_parsing/difficulty.rs:32-47 | every rated colour has a one-character name (Black is `unreachable!`, so excluded) |
| ApiDifficulty.GlyphInjective | src/api_parsing/difficulty.rs:32-47 | distinct colours have distinct glyphs; no glyph is a digit or a parenthesis, so the field text can be parsed back |
| ApiDifficulty.FromRating | src/api_parsing/difficulty.rs:55-68 | never Black; a u32 below 2800 gets the band `val / 400 + 1`, and 2800 or more is Red |
| ApiDifficulty.FromRatingMonotone | src/api_parsing/difficulty.rs:55-68 | a higher rating never gets a lower colour |
| ApiDifficulty.FromRatingBoundary | src/api_parsing/difficulty.rs:55-68 | each multiple of 400 up to 2800 starts a new colour, exactly one band above its predecessor |
| ApiDifficulty.Normalize | src/api_parsing/difficulty.rs:70-76 | a difficulty of at least 400 that fits in u32 is kept; below 400 the truncated logistic value is under 400 |
| ApiDifficulty.NormalizeTruncates | src/api_parsing/difficulty.rs:70-73 | `as u32` wraps modulo 2^32: 2^32 + 2800 becomes 2800, and 2^32 + 100 comes out Gray |
| ApiDifficulty.LowRatingIsGray | src/api_parsing/difficulty.rs:70-76 | every difficulty below 400 (with a logistic value in range) is Gray |
| Difficulty.Rgb | src/difficulty.rs:14-28 | every accent fits in 24 bits |
| Difficulty.Glyph | src/difficulty.rs:30-45 | one character per rated colour |
| Difficulty.TablesAgreeWithApi | src/difficulty.rs:14-45 | this copy's accent and glyph tables equal those of src/api_parsing/difficulty.rs |
| Difficulty.RgbInjective | src/difficulty.rs:14-28 | distinct colours have distinct accents |
| Difficulty.ColorOf | src/difficulty.rs:55-66 | never Black; the band is `n / 400 + 1` below 2800, and Red from 2800 |
| Difficulty.ColorOfMonotone | src/difficulty.rs:55-66 | monotone in the difficulty |
| Difficulty.ColorOfBoundary | src/difficulty.rs:55-66 | colours change at each multiple of 400 up to 2800 |
| Difficulty.ColorOfAgreesWithApi | src/difficulty.rs:55-66 | `color` agrees with `From<u32> for Color` of src/api_parsing/difficulty.rs on every u32 |
| Difficulty.Normalize | src/difficulty.rs:47-53 | a difficulty of at least 400 is kept as is; below 400 the result is under 400 |
| Difficulty.LowRatingIsGray | src/difficulty.rs:47-66 | every difficulty below 400 is Gray |
| AtCoderTypes.FindProblem | src/functions/periodic/list_submission.rs:100-104 | `find` gives None exactly when no problem has the id, else the first problem with that id |
| AtCoderTypes.ProblemOrDefault | src/functions/periodic/list_submission.rs:100-104 | `unwrap_or_default`: the default problem when the id is absent, else the first listed problem with that id, as `find` returns it |
| AtCoderTypes.ModelOrDefault | src/functions/periodic/list_submission.rs:96-99 | a missing model has no difficulty; a present one is returned as stored |
| Embeds.OneMessage | src/notify.rs:179-190 | exactly one message: the fallback text when there are no embeds, else every embed in order |
| Clock.WithTime | src/functions/periodic/list_submission.rs:73-78 | `with_time` keeps the local date and sets the time of day |
| Clock.WithHour | src/main.rs:356-360 | `with_hour` changes the hour only, and keeps the date, minute and second |
| Clock.WithMinute | src/main.rs:356-360 | `with_minute` changes the minute only |
| Clock.WithSecond | src/main.rs:356-360 | `with_second` changes the second only |
| Clock.SameLocalTime | src/main.rs:356-360 | two instants with the same local date, hour, minute and second are equal |
| Clock.ToStd | src/functions/periodic/wait.rs:33 | `to_std()` succeeds exactly on non-negative durations, and keeps their length |
| Seqs.Chunks | src/functions/periodic/list_submission.rs:117 | `chunks(n)`: non-empty pieces of at most n elements, all full but the last, which concatenate back to the input |
| Seqs.Windows | src/main.rs:303 | `windows(n)`: none when the input is shorter than n, else one slice `s[i..i+n]` for each start position |
| Seqs.Filter | src/functions/periodic/list_submission.rs:87-91 | `filter` keeps exactly the elements that satisfy the predicate |
| Seqs.FilterMultiplicity | src/functions/periodic/list_submission.rs:87-91 | `filter` keeps every copy of a kept element and nothing else, in order |
| Text.TrimIsInfix | src/functions/commands.rs:35 | `trim` returns the infix left after stripping whitespace from both ends, and that infix neither starts nor ends with whitespace |
| Text.Split | src/functions/commands.rs:34 | `split(",")` gives one more piece than there are commas; no piece holds a comma, and joining with "," gives the input back |
| Text.SplitJoin | src/functions/commands.rs:34 | splitting the join of comma-free pieces gives back the pieces |
| Text.ContainsIff | src/functions/periodic/check_upcomings.rs:35-38 | `contains` holds exactly when the phrase occurs at some index |
| Text.DecimalRoundTrip | src/functions/periodic/list_submission.rs:109-112 | an integer formatted with `{}` parses back to itself, sign included |
| Text.DecimalInjective | src/functions/periodic/list_submission.rs:109-112 | different integers format differently |
| Text.LexTotal | src/main.rs:162 | the `String` order that `sort` uses relates any two different names |
| Text.LexTransitive | src/main.rs:162 | the `String` order is transitive |
| Text.LexIrreflexive | src/main.rs:162 | no name comes before itself |
| ListSubmission.Window | src/functions/periodic/list_submission.rs:73-78 | `from` and `to` are consecutive local midnights, one day apart, and `to` is today's midnight (`to <= now < to + 1 day`) |
| ListSubmission.Accepted | src/functions/periodic/list_submission.rs:87-91 | a submission is kept exactly when it is listed, dated before `to` and has result "AC" |
| ListSubmission.AcceptedInOrder | src/functions/periodic/list_submission.rs:87-91 | the filter works item by item and keeps order; an accepted submission keeps its multiplicity, so resubmissions are not deduplicated |
| ListSubmission.DetailJoin | src/functions/periodic/list_submission.rs:93-115 | a detail joins the submission's language, a URL from the submission's contest and id, the model's difficulty (None if the model is missing), and the title of the first problem with that id ("" if none) |
| ListSubmission.SubmissionUrlInjective | src/functions/periodic/list_submission.rs:109-112 | for contest ids without '/', the permalink determines the contest and the submission id |
| ListSubmission.FieldOfUnknown | src/functions/periodic/list_submission.rs:26-42 | with no difficulty, the field is named by the title, is not inline, and its value starts with "不明", not a digit |
| ListSubmission.FieldOfKnown | src/functions/periodic/list_submission.rs:26-42 | with a difficulty, the value starts with the normalized rating, which parses back, followed by its glyph in parentheses |
| ListSubmission.PageColor | src/functions/periodic/list_submission.rs:122-132 | an embed's colour is one of its problems' colours and the highest of them; it is Black exactly when no problem has a difficulty |
| ListSubmission.EmbedAccent | src/functions/periodic/list_submission.rs:117-134 | the accent is the RGB of one problem's colour, and it is 0 exactly when every difficulty is unknown |
| ListSubmission.UserEmbedsCover | src/functions/periodic/list_submission.rs:117-134 | a user gets no embed exactly when that user has nothing accepted; each embed is titled for the user and holds 1 to 25 fields; the fields, concatenated, are one per accepted submission, in order |
| ListSubmission.FieldsOfPages | src/functions/periodic/list_submission.rs:117-121 | the embeds of `chunks(25)` carry, in order, the fields of every detail |
| ListSubmission.EmbedsOfChunkMessages | src/functions/periodic/list_submission.rs:145-149 | one message per chunk, holding in order the embeds of every chunk |
| ListSubmission.Batches | src/functions/periodic/list_submission.rs:137-150 | the fallback text when there are no embeds; else messages of 1 to 10 embeds that hold every embed, in order |
| ListSubmission.Deliver | src/functions/periodic/list_submission.rs:145-150 | the send loop over `chunks(10)` produces `Batches` |
| ListSubmission.NoEmbedsIff | src/functions/periodic/list_submission.rs:69-135 | across all users, `embeds` is empty exactly when no user has an accepted submission in the window |
| ListSubmission.FallbackIffNobodyAccepted | src/functions/periodic/list_submission.rs:137-143 | once all data is fetched, the digest is the single fallback text exactly when nobody has an accepted submission before today's midnight |
| ListSubmission.ListSubmission | src/functions/periodic/list_submission.rs:45-150 | the per-user loop, then delivery: "Channel not set" when no channel is stored, `Upstream` when a fetch fails, else the batches of every user's embeds in user order |
| Notify.DecodeEncode | src/notify.rs:38-51 | each verdict decodes from its UPPERCASE tag |
| Notify.EncodeDecode | src/notify.rs:38-51 | a string decodes exactly when it is one of the ten tags, and to the verdict with that tag |
| Notify.Accepted | src/notify.rs:130-133 | keeps exactly the AC submissions (this version applies no time filter) |
| Notify.AcceptedInOrder | src/notify.rs:130-133 | the filter keeps order and multiplicity |
| Notify.KnownProblemDetail | src/notify.rs:142-155 | for a listed problem the title and the URL's contest segment come from the first problem with the id; the difficulty is the model's and the language the submission's |
| Notify.UnknownProblemDetail | src/notify.rs:142-155 | the URL is built from the problem's contest id, so for an unknown problem it reads "https://atcoder.jp/contests//submissions/<id>" and the title is "" |
| Notify.FieldReportsRating | src/notify.rs:75-93 | the field is named by the title and is not inline; its value starts with a digit exactly when the difficulty is known, and then those digits are the normalized rating; otherwise it starts with "不明" |
| Notify.PageColor | src/notify.rs:164-175 | the embed colour is the highest of its problems' colours, and Black exactly when no problem has a difficulty |
| Notify.FieldsOfPages | src/notify.rs:159-163 | the chunk embeds carry every detail's field, in order |
| Notify.UserEmbedsCover | src/notify.rs:159-176 | no embed exactly when nothing was accepted; 1 to 25 fields each; one field per accepted submission, in order |
| Notify.NoEmbeds | src/notify.rs:119-177 | `embeds` is empty exactly when no user has an accepted submission |
| Notify.NobodyAccepted | src/notify.rs:179-185 | once all data is fetched and decoded, the single message is the fallback text exactly when nobody has an accepted submission |
| Notify.RunNotify | src/notify.rs:110-190 | the per-user loop: an error when no channel is set; an error when a fetch fails or a verdict does not decode; else one message with every embed, in order |
| LegacyMain.Rgb | src/main.rs:53-67 | every accent fits in 24 bits |
| LegacyMain.RgbInjective | src/main.rs:53-67 | distinct colours have distinct accents, and only Black is 0 |
| LegacyMain.RgbDiffersFromApi | src/main.rs:53-67 | this table differs from the later one exactly for Brown, Cyan, Yellow and Orange |
| LegacyMain.Glyph | src/main.rs:69-83 | one character per rated colour |
| LegacyMain.GlyphAgreesWithApi | src/main.rs:69-83 | the glyphs equal the later tables' |
| LegacyMain.NormalizeDifficulty | src/main.rs:85-91 | 400 or more is kept; below 400 the i64 cast of the logistic value lies in 0..399 |
| LegacyMain.DifficultyColor | src/main.rs:93-104 | never Black; 0..2799 map to the band `d / 400 + 1`; negative values and 2800 or more fall to the `_` arm, Red |
| LegacyMain.DifficultyColorAgreesWithApi | src/main.rs:93-104 | on the u32 range, the inclusive ranges agree with the later `From<u32>` |
| LegacyMain.SolvedIds | src/main.rs:275-279 | one problem id per AC submission, in order |
| LegacyMain.FirstSubmission | src/main.rs:290 | `find` by problem id: None exactly when no submission has the id, else the first one with it |
| LegacyMain.DetailSource | src/main.rs:281-301 | the i-th detail has the i-th solved problem's title and difficulty, the URL "https://atcoder.jp/contests/<contest>/submissions?f.User=<user>", and the language of the first submission, of any verdict, to that problem |
| LegacyMain.LanguageOfEarlierAttempt | src/main.rs:290-294 | a WA in C++ and then an AC in Rust on the same problem report "C++" |
| LegacyMain.CorrectedDetails | src/main.rs:290-294 | the corrected detail takes its language from the accepted submission itself |
| LegacyMain.FieldReportsRating | src/main.rs:219-237 | the field is named by the title; "不明" when the difficulty is unknown, else its leading digits are the normalized rating |
| LegacyMain.PageColor | src/main.rs:306-317 | the embed colour is the highest of its problems' colours, and Black exactly when no problem has a difficulty |
| LegacyMain.UserEmbedsAreWindows | src/main.rs:303-318 | `windows(25)` yields no embed for fewer than 25 solved problems, else n - 24 overlapping embeds of exactly 25 fields each, with no title |
| LegacyMain.FieldsOfChunks | src/main.rs:303-305 | chunk embeds carry every detail's field, in order |
| LegacyMain.CorrectedUserEmbedsCover | src/main.rs:303-318 | with `chunks(25)`: no embed exactly when nothing was solved; 1 to 25 fields each; every corrected detail's field exactly once, in order |
| LegacyMain.FewSolvedNoEmbeds | src/main.rs:261-319 | when every user solved fewer than 25 problems, `embeds` is empty |
| LegacyMain.FewSolvedSendsFallback | src/main.rs:321-327 | so that digest is the fallback text, even when users did solve problems |
| LegacyMain.CorrectedAllEmbedsEmpty | src/main.rs:261-319 | the corrected embeds are empty exactly when no user solved anything |
| LegacyMain.CorrectedFallbackIff | src/main.rs:321-332 | the corrected digest is the fallback exactly when nobody solved anything |
| LegacyMain.Process | src/main.rs:169-335 | the per-user loop: `Upstream` when a fetch fails, else one message with the `windows(25)` embeds of every user, in order |
| LegacyMain.DailyJobTarget | src/main.rs:356-360 | tomorrow's date, with hour, minute and second set to 0, lands on the next local midnight |
| LegacyMain.TryIntoU64 | src/main.rs:361 | `try_into::<u64>()` succeeds exactly on the u64 range, and keeps the value |
| LegacyMain.DailyJobSleep | src/main.rs:355-361 | the conversion never fails, and the sleep lasts between 1 second and one day |
| LegacyMain.Data.Channel | src/main.rs:107-117 | stores the invoking channel, then saves, then replies; a failed save stops before the reply |
| LegacyMain.Data.Register | src/main.rs:119-135 | this version replies first: a failed reply leaves the set unchanged; otherwise it unions the trimmed pieces into the set and then saves |
| LegacyMain.Data.Unregister | src/main.rs:137-149 | removes the exact name, then saves, then replies |
| LegacyMain.Data.RegisterList | src/main.rs:151-167 | replies with every user once, sorted ascending; the state is unchanged and nothing is saved |
| DailyJob.NextMidnight | src/daily_job.rs:8-11 | the target is a local midnight on the next day, strictly after now and at most a day later |
| DailyJob.NextMidnightIsNext | src/daily_job.rs:9-11 | no local midnight lies between now and the target |
| DailyJob.AtMidnightSleepsADay | src/daily_job.rs:8-12 | started exactly at midnight, the job sleeps a full day |
| DailyJob.Sleep | src/daily_job.rs:12-18 | `to_std()` never fails here: the sleep lasts between 1 second and one day and ends at the target |
| DailyJob.TargetDependsOnDayOnly | src/daily_job.rs:9-11 | two instants on the same local day have the same target |
| Wait.DailyTarget | src/functions/periodic/wait.rs:13-23 | the first local 04:00 at or after now, less than a day ahead |
| Wait.DailySleep | src/functions/periodic/wait.rs:24-33 | the sleep is non-negative, under a day, and ends at the target |
| Wait.AtDigestTimeNoSleep | src/functions/periodic/wait.rs:18-24 | at exactly 04:00, `res < now` is false, so the digest runs without sleeping |
| Wait.NextBoundary | src/functions/periodic/wait.rs:47-57 | the least multiple of 10 minutes at or after now |
| Wait.TopOfHour | src/functions/periodic/wait.rs:48-52 | the top of the current hour lies on a 10-minute boundary and less than an hour before now |
| Wait.ScanTarget | src/functions/periodic/wait.rs:46-57 | the `while res < now` loop from the top of the hour ends on the next 10-minute boundary, at minute ≡ 0 (mod 10) and second 0, after at most 6 steps; on a boundary it returns now |
| CheckUpcomings.NextRun | src/functions/periodic/check_upcomings.rs:23-25 | next_run is the following UTC midnight: strictly after now and at most a day later |
| CheckUpcomings.Select | src/functions/periodic/check_upcomings.rs:29-46 | a contest is selected exactly when its name contains the phrase of an enabled kind and now <= start − 5 min < next_run |
| CheckUpcomings.SelectInOrder | src/functions/periodic/check_upcomings.rs:29-46 | selection keeps contest order and multiplicity |
| CheckUpcomings.NoKindsNoContests | src/functions/periodic/check_upcomings.rs:31-41 | with no kind enabled, `any` over an empty set is false, so nothing is selected |
| CheckUpcomings.SingleKind | src/functions/periodic/check_upcomings.rs:34-40 | with one kind enabled, the kind filter is exactly `contains` of that kind's phrase |
| CheckUpcomings.SameDayNextRun | src/functions/periodic/check_upcomings.rs:23-25 | next_run depends only on the UTC date |
| CheckUpcomings.ReselectedAllDay | src/functions/periodic/check_upcomings.rs:23-46 | every scan on the same UTC day before the reminder time makes the same decision about a contest |
| CheckUpcomings.DuplicateReminder | src/functions/periodic/check_upcomings.rs:23-46 | an ABC at 12:00 is selected both by the 00:00 scan and by the 00:10 scan |
| CheckUpcomings.ScanBoundary | src/functions/periodic/wait.rs:46-57 | the 10-minute boundary at or before the clock read; the slot it opens ends where the scan loop's next wait ends (`Wait.NextBoundary`) |
| CheckUpcomings.CorrectedSelect | src/functions/periodic/check_upcomings.rs:42-45 | the corrected window is the scan's own 10-minute slot instead of now up to next_run |
| CheckUpcomings.CorrectedSelectsOnce | src/functions/periodic/check_upcomings.rs:42-45 | a scan that woke on a boundary and read the clock at any instant before the next one selects a contest exactly when its reminder time lies in that slot, so exactly one scan selects it |
| CheckUpcomings.CorrectedSleep | src/functions/periodic/check_upcomings.rs:56-64 | the corrected task sleeps until the reminder time, or not at all when it has passed, where `to_std` would fail |
| CheckUpcomings.CorrectedSleepWithinSlot | src/functions/periodic/check_upcomings.rs:56-64 | in the corrected window no task sleeps as long as a scan period |
| CheckUpcomings.LateClockReadPastReminder | src/functions/periodic/check_upcomings.rs:43-64 | a reminder due on a boundary is selected by a scan that reads the clock a second later, where `to_std().unwrap()` would panic and the corrected sleep is zero |
| CheckUpcomings.SpawnSleep | src/functions/periodic/check_upcomings.rs:56-64 | at the scan's clock read `now`, the sleep until start − 5 min of a selected contest is non-negative and under a day, so `to_std()` would succeed there; a task whose own read (line 56) comes later can still panic (`LateTaskClockPanics`) |
| CheckUpcomings.TaskClockSleep | src/functions/periodic/check_upcomings.rs:56-64 | at a task's own clock read, no earlier than the scan's, `to_std()` succeeds exactly when the read is not past start − 5 min, and then it wakes at start − 5 min, less than a day after the scan |
| CheckUpcomings.DarkGreenIsNoRatingColor | src/functions/periodic/check_upcomings.rs:85 | the reminder's DARK_GREEN accent is none of the rating accents |
| CheckUpcomings.StartFieldTimestamps | src/functions/periodic/check_upcomings.rs:75-82 | both `<t:…>` tags carry the start timestamp, which parses back |
| CheckUpcomings.ReminderEmbed | src/functions/periodic/check_upcomings.rs:72-85 | the title names the contest, the url is the contest's, there are three non-inline fields (start, duration, rated range), and the colour is DARK_GREEN |
| CheckUpcomings.DurationField | src/functions/periodic/check_upcomings.rs:83 | the duration field is the minutes in decimal, followed by 分 |
| CheckUpcomings.MentionContent | src/functions/periodic/check_upcomings.rs:91 | the content is empty exactly without a role; otherwise it is `<@&id>`, and the id parses back |
| CheckUpcomings.MentionInjective | src/functions/periodic/check_upcomings.rs:91 | different role settings give different message contents |
| CheckUpcomings.Reminders | src/functions/periodic/check_upcomings.rs:50-97 | one reminder per selected contest, in order; each has the mention as content and the contest's reminder embed |
| CheckUpcomings.RunTask | src/functions/periodic/check_upcomings.rs:53-96 | a task panics at a negative sleep, a failed load, an unset channel or a failed send, in that order; otherwise it sends the reminder to the channel stored at wake, with the mention stored at wake |
| CheckUpcomings.MentionReadAtWake | src/functions/periodic/check_upcomings.rs:66-70 | a role changed between the scan and a task's wake changes what that task sends |
| CheckUpcomings.RemindersAreTasks | src/functions/periodic/check_upcomings.rs:50-97 | a task whose own clock read (line 56) is no later than its reminder time, that wakes to a stored configuration with a channel, and whose send succeeds, delivers its entry of `Reminders` to that channel |
| CheckUpcomings.LateTaskClockPanics | src/functions/periodic/check_upcomings.rs:43-64 | a contest the scan at 0 selects, due at 0, panics at `to_std().unwrap()` in a task that reads the clock at 1 |
| UserNames.Pieces | src/functions/commands.rs:33-36 | one trimmed piece more than there are commas, and none holds a comma or outer whitespace |
| UserNames.PiecesOfJoin | src/functions/commands.rs:33-36 | splitting and trimming the ","-join of comma-free names without outer whitespace gives the names back |
| UserNames.Register | src/functions/commands.rs:38 | `extend` is a set union: the result holds exactly the old users and the pieces |
| UserNames.RegisterIdempotent | src/functions/commands.rs:38 | registering the same input twice is the same as once |
| UserNames.EmptyFieldRegistersEmptyName | src/functions/commands.rs:33-38 | "a,,b" registers the empty name too |
| UserNames.Unregister | src/functions/commands.rs:54 | `remove` drops exactly that name; removing an absent name changes nothing |
| UserNames.Insert | src/main.rs:162 | inserting into an ascending list keeps it ascending, with one more element |
| UserNames.Sorted | src/main.rs:154-163 | `collect` then `sort`: ascending and duplicate-free, with exactly the set's elements |
| UserNames.AscendingUnique | src/main.rs:162 | there is only one ascending arrangement of a set, so the sorted reply is determined |
| UserNames.Enumerate | src/functions/commands.rs:66-69 | `iter()` lists every user exactly once |
| CommandModel.SaveThenReply | src/functions/commands.rs:14-22 | a save happens before any reply; a failed save sends nothing; the reply is sent exactly when both steps succeed |
| ConfigCommands.Apply | src/functions/commands.rs:13-126 | each command changes only its own field: it sets the channel, unions or removes users, inserts or removes a kind, or replaces the mention |
| ConfigCommands.ApplyIdempotent | src/functions/commands.rs:13-126 | every command is idempotent |
| ConfigCommands.EnableDisableInverse | src/functions/commands.rs:84-116 | disabling undoes enabling a kind that was off, and enabling undoes disabling a kind that was on |
| ConfigCommands.UnregisterAfterRegister | src/functions/commands.rs:38-54 | unregistering an absent name is a no-op; after registering, unregistering removes only that name |
| ConfigCommands.ChannelTarget | src/functions/commands.rs:13 | the given channel if one is given, else the invoking channel |
| ConfigCommands.Data.Run | src/functions/commands.rs:14-22 | the change is made in memory, then saved, then replied to; a failed save keeps the change in memory and sends no reply |
| ConfigCommands.Data.Channel | src/functions/commands.rs:9-25 | sets the optional channel (else the invoking one), saves, then replies |
| ConfigCommands.Data.Register | src/functions/commands.rs:29-45 | unions the pieces into the users, saves, then replies with the pieces |
| ConfigCommands.Data.Unregister | src/functions/commands.rs:49-61 | removes the exact name, saves, then replies |
| ConfigCommands.Data.EnableContestNotification | src/functions/commands.rs:86-99 | inserts the kind, saves, then replies |
| ConfigCommands.Data.DisableContestNotification | src/functions/commands.rs:103-116 | removes the kind, saves, then replies |
| ConfigCommands.Data.SetMentionRole | src/functions/commands.rs:120-136 | replaces the role (None clears it), saves, then replies |
| ConfigCommands.Data.RegisterList | src/functions/commands.rs:65-73 | replies with every user once; the state is unchanged and nothing is saved |
| Commands.Data.Channel | src/commands.rs:9-21 | stores the invoking channel, saves, then replies |
| Commands.Data.Register | src/commands.rs:25-41 | unions the trimmed pieces into the set and keeps the old users, saves, then replies |
| Commands.Data.Unregister | src/commands.rs:45-57 | removes the exact name, saves, then replies |
| Commands.Data.RegisterList | src/commands.rs:61-69 | replies with every user once; the state is unchanged |

## Findings

| source | as written | input that shows it | evidently intended | confidence | as-written member | corrected member |
|---|---|---|---|---|---|---|
| src/main.rs:303 | `solved_problems.windows(25)` makes no embed for fewer than 25 solved problems, and 25 or more give n − 24 overlapping embeds | a user with 1 to 24 AC submissions gets only the "nobody accepted" text | `chunks(25)`, as the later versions use: every solved problem in exactly one embed | high (not executed) | LegacyMain.FewSolvedSendsFallback | LegacyMain.CorrectedFallbackIff |
| src/main.rs:290 | the language comes from the first submission to the problem, whatever its verdict | WA in C++, then AC in Rust, on the same problem | the language of the accepted submission | medium (not executed) | LegacyMain.LanguageOfEarlierAttempt | LegacyMain.CorrectedDetails |
| src/functions/periodic/check_upcomings.rs:42-45 | the window runs to the next UTC midnight, yet the scan repeats every 10 minutes | an ABC starting at 12:00 UTC is selected at 00:00, at 00:10 and at every later scan until 11:55, so it gets many reminders | select a contest once: at the scan of the 10-minute slot that holds its reminder time, whenever in the slot the clock is read after the fetch, with a zero sleep when the reminder passed during the fetch | high (not executed) | CheckUpcomings.DuplicateReminder | CheckUpcomings.CorrectedSelectsOnce |

## Left out

- Network, JSON and gzip: fetched data is an input (`Fetched`). serde decoding is left out, except the `JudgeStatus` tag mapping.
- Discord and poise calls (`send_message`, `reply`, `defer`, command registration, `main`, `event_handler`): replies and messages are plain values, and mention rendering keeps only the `<@&id>` form.
- Failed digest sends: `send_message(..).await?` in list_submission.rs (lines 142 and 147), notify.rs and main.rs is not modelled. `Deliver` and each `Digest` describe a run in which every send succeeds; with `chunks(10)`, a send that fails after k batches leaves the first k messages posted and returns the error. The commands, unlike the digests, do model a failed reply (`replyOk`).
- `save` / `load` against config.json: a save is a `Saved` entry in the effects log, and its failure is the `saveOk` parameter. The `load`/`save` round trip in check_upcomings.rs is left out.
- Concurrency: `tokio::spawn`, `sleep_until`, the infinite loops and the `Mutex` wrappers. Each sleep is computed, never awaited. One spawned reminder task is `RunTask`, with its own clock read and the configuration it loads at wake; how tasks interleave with each other and with the commands that change the configuration is not modelled.
- CheckUpcomings.SpawnSleep: it is stated at the scan's clock read only. A spawned task reads `Utc::now()` again (check_upcomings.rs:56), and when that read is past the reminder time the `to_std().unwrap()` at line 64 panics; `TaskClockSleep` states when a task's own read succeeds, and `LateTaskClockPanics` exhibits the panic.
- CheckUpcomings.Reminders: it gives every task of a scan the same mention. Each task reloads the configuration when it wakes, and reads the clock again, so tasks can send different mentions, panic on a negative sleep when that read is past the reminder time, unwrap an unset channel, or panic on a failed send; `RunTask` models that for one task, and `RemindersAreTasks` says when the two agree.
- The `run` commands of src/main.rs, src/commands.rs and src/functions/commands.rs: each is `defer`, then the modelled digest, then a reply.
- The logistic formula below 400 (f64 `exp`): it is the parameter `logistic`. Only the cast applied to its value is modelled.
- Float fields of the records (`point`, IRT statistics): they are never read.
- Clock reads: the separate `Local::now()` / `Utc::now()` calls of one pass are one `now`, except that a spawned reminder task has its own (`RunTask`'s `spawnNow`). Sub-second precision is dropped.
- Time zones: local time is a fixed offset; DST gaps and a failing `with_time(...).unwrap()` are library behaviour.
- `HashSet` iteration order is a sequence parameter (`users`), and `Commands.Data.RegisterList` / `ConfigCommands.Data.RegisterList` return some duplicate-free order.
- Log output (`println!`) and the exact Japanese reply texts are left out. `Reply` records what each reply reports.
- LegacyMain.FieldReportsRating: the digit round trip is stated only for non-negative normalized ratings; a negative i64 prints with a sign.
