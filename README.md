# LinkedIn post scheduling pipeline, modelled in Dafny

This project models the core of a small LinkedIn post-automation service and
proves properties of it. The core has four parts:

- **the post table** (`Database`): `Post` rows keyed by a unique `post_id`;
- **the scheduler registry** (`PostScheduler`): a `post_id -> "HH:MM"` map, a
  `running` flag, and the daily jobs it adds to the job list of the `schedule`
  library;
- **the publisher** (`LinkedInAPI`): an authentication flag, a length guard of
  3000 characters and the hashtag formatting of a post;
- **the orchestration** (`LinkedInAutomation`): generating the id, storing the
  post, scheduling it, and the fire step "look up, publish, mark posted".

Every source object whose fields change is a Dafny `class` whose methods state
the whole new state. The pure parts are functions with lemmas about them: id
and time rendering, time parsing, tag joining and splitting, and post
formatting. The clock, the login outcome and the network's answer are method
parameters.

Files, one module each:

- `wrappers.dfy`: `Option`, and `Truthy`, the test a Python `if` applies to an optional string or list.
- `config.dfy`: the constants `MaxPostLength` (3000) and `DefaultPostTime` (`"09:00"`, the fallback used when the environment does not set it).
- `text.dfy`: Python's `sep.join` and `str.split(sep)` with their round trips; zero-padded digits.
- `clock.dfy`: `datetime` values, `strftime('%Y%m%d%H%M%S')`, `strftime("%H:%M")` and `strptime(s, "%H:%M")`.
- `post_store.dfy`: `src/database/db.py`.
- `scheduling.dfy`: `src/scheduler/scheduler.py`, plus the `schedule` library's job list as class `JobRegistry`.
- `linkedin.dfy`: `src/linkedin/api.py`.
- `automation.dfy`: `main.py`.

Points of behaviour the model keeps as the code has them:

- **Tagless jobs.** Jobs are added without tags. So the `schedule.clear(post_id)`
  call in `cancel_post` removes no job: cancelling only forgets the id. The job
  stays and still fires.
- **Shared job list.** The `schedule` job list is a module-level global. It is
  one `JobRegistry` object shared by every scheduler, so `stop` empties the job
  list for all of them.
- **Valid times.** `schedule_post` accepts a time only when both checks pass.
  First `strptime(post_time, "%H:%M")` must read it; this accepts one- or
  two-digit fields. Then `schedule`'s daily `at()` must accept it; this asks
  for `[0-2]\d:[0-5]\d(:[0-5]\d)?` with an hour of at most 23. Lemma
  `ValidPostTimeExactly` proves the two together accept exactly the two-digit
  `HH:MM` form with hour 00-23 and minute 00-59.
- **Re-scheduling.** Scheduling an id again overwrites its time and adds
  another job. Nothing rejects a duplicate.
- **Ignored answers.** `create_and_schedule_post` ignores the answers of
  `add_post` and `schedule_post`. An id that is already stored (two posts in the
  same second) is scheduled again. A time such as `"9:30"` is read by `strptime`
  but refused by the scheduler: the post is stored but never scheduled. Only a
  time that `strptime` refuses raises, and then nothing has changed.
- **No re-post guard.** The fire step does not look at `posted`. A daily job
  fires every day, so each firing publishes the post and marks it again.
- **Length guard.** The guard measures the content before tags are added. The
  text sent can therefore be longer than 3000 characters.
- **Truthiness.** Python treats an empty string or list as false. An empty
  `scheduled_time` or `post_time` counts as missing. An empty tag list is
  stored as NULL. A stored tag string of `""` (from the list `[""]`) is read
  back as no tags.

## Model

| member | source | states |
|---|---|---|
| `Text.Join` | src/database/db.py:40 | `sep.join(parts)` gives `""` for no parts and the part itself for one part, and starts with the first part; when no part holds the separator the result holds exactly one separator fewer than there are parts (also the `" ".join` of src/linkedin/api.py:45) |
| `Text.JoinAppend` | src/database/db.py:40 | joining two non-empty lists one after the other gives the first join, one separator, then the second join, so every later part follows in order after one separator |
| `Text.Split` | main.py:69 | `s.split(sep)` yields one piece more than `s` has separators, and no piece contains the separator |
| `Text.SplitJoin` | src/database/db.py:40 | splitting a joined non-empty list whose parts hold no separator gives the list back |
| `Text.JoinSplit` | main.py:69 | joining the pieces of any split with the same separator gives the original string back |
| `Text.JoinEmpty` | src/database/db.py:40 | a non-empty list joins to the empty string exactly when it is `[""]` |
| `Clock.CompactStamp` | main.py:38 | `%Y%m%d%H%M%S` renders any clock reading as exactly 14 decimal digits, which read from the left as the four-digit year, then the two-digit month, day, hour, minute and second |
| `Clock.CompactStampInjective` | main.py:38 | two readings render to the same stamp if and only if they agree from the year down to the second |
| `Clock.HourMinute` | main.py:47 | `strftime("%H:%M")` writes five characters: two digits that read back as the hour, a colon, and two digits that read back as the minute |
| `Clock.ParseHourMinute` | src/scheduler/scheduler.py:21 | what `strptime(s, "%H:%M")` reads is an hour 0-23 and a minute 0-59 |
| `Clock.OnDefaultDate` | main.py:41 | the `datetime` built from a parsed time of day has that hour and minute, second 0 and the date 1900-01-01 |
| `Clock.ParseHourMinuteOfRendering` | main.py:47 | reading back what `strftime("%H:%M")` wrote gives the reading's hour and minute |
| `PostStore.StoredTags` | src/database/db.py:40 | the tags column is NULL exactly when the tag list is missing or empty |
| `PostStore.NewPost` | src/database/db.py:36-41 | a new row carries the given id, content, scheduled time and joined tags, is not posted, has no `posted_at`, and has `created_at` set from the UTC clock |
| `PostStore.PendingIn` | src/database/db.py:73 | a row is pending if and only if it is in the table with `posted == False` |
| `PostStore.Database.constructor` | src/database/db.py:25-28 | opening the database gives the rows the file holds, each stored under its own id |
| `PostStore.Database.AddPost` | src/database/db.py:30-49 | returns true exactly when the id is new, and then adds that row alone; on a duplicate id the table is unchanged |
| `PostStore.Database.GetPost` | src/database/db.py:53-63 | returns the row with that `post_id` when there is one, and `None` otherwise |
| `PostStore.Database.GetPendingPosts` | src/database/db.py:67-77 | returns exactly the rows not yet posted |
| `PostStore.Database.MarkPostAsPosted` | src/database/db.py:81-98 | returns true exactly when the row exists, also when it is already posted; then sets `posted` and `posted_at` on it alone, and it leaves the pending rows; otherwise nothing changes |
| `PostStore.Database.DeletePost` | src/database/db.py:102-118 | returns true exactly when the row existed; afterwards the table is the old one without that id |
| `Scheduling.WithoutTag` | src/scheduler/scheduler.py:59 | `schedule.clear(tag)` keeps a job of the old list if and only if it lacks the tag, and never adds one |
| `Scheduling.WithoutTagAppend` | src/scheduler/scheduler.py:59 | clearing works job by job: the survivors of two lists joined are the survivors of the first followed by those of the second, so the order is kept |
| `Scheduling.WithoutTagOfUntagged` | src/scheduler/scheduler.py:59 | clearing by tag removes nothing from a list of untagged jobs |
| `Scheduling.DailyAtAccepts` | src/scheduler/scheduler.py:34 | a time the daily `at()` accepts begins with two-digit hour and minute fields that `strptime("%H:%M")` reads as those numbers |
| `Scheduling.ValidPostTime` | src/scheduler/scheduler.py:21-34 | a time `schedule_post` accepts (both checks) is exactly five characters, and `strptime` reads its two two-digit fields as the hour and minute |
| `Scheduling.ValidPostTimeExactly` | src/scheduler/scheduler.py:21-34 | the strptime check and the daily `at()` check together accept exactly two-digit `HH:MM` with hour 00-23 and minute 00-59 |
| `Scheduling.RenderedTimeIsValid` | main.py:47 | the current time rendered `%H:%M` is always accepted by `schedule_post` |
| `Scheduling.TimeOrDefault` | src/scheduler/scheduler.py:50 | a missing or empty time is replaced by `DEFAULT_POST_TIME`, any other time is kept |
| `Scheduling.DefaultPostTimeIsValid` | config/config.py:26 | the default time `"09:00"` is accepted by `schedule_post` |
| `Scheduling.JobRegistry.constructor` | src/scheduler/scheduler.py:1 | the `schedule` library's default scheduler starts with no jobs |
| `Scheduling.JobRegistry.AddDaily` | src/scheduler/scheduler.py:34 | a daily time that `at()` accepts appends one job with no tags; any other time changes nothing |
| `Scheduling.JobRegistry.ClearTag` | src/scheduler/scheduler.py:59 | the job list becomes the old one without the jobs carrying the tag |
| `Scheduling.JobRegistry.Clear` | src/scheduler/scheduler.py:91 | the job list becomes empty |
| `Scheduling.PostScheduler.constructor` | src/scheduler/scheduler.py:11-13 | a new scheduler has no scheduled posts and is not running |
| `Scheduling.PostScheduler.SchedulePost` | src/scheduler/scheduler.py:15-44 | returns true exactly when the time is valid; then the id maps to that time (an earlier time is overwritten), one job is appended, and no other entry changes; otherwise neither the map nor the job list changes |
| `Scheduling.PostScheduler.ScheduleDailyPost` | src/scheduler/scheduler.py:46-51 | acts as `schedule_post` with the given time, or with `"09:00"` when there is none, in which case it succeeds |
| `Scheduling.PostScheduler.CancelPost` | src/scheduler/scheduler.py:53-66 | returns true exactly when the id was scheduled; removes only that key; the job list is unchanged |
| `Scheduling.PostScheduler.GetScheduledPosts` | src/scheduler/scheduler.py:68-72 | returns a map equal to the registry, as a value that later changes to either side cannot reach |
| `Scheduling.PostScheduler.Start` | src/scheduler/scheduler.py:74-78 | sets `running` and leaves the registry alone |
| `Scheduling.PostScheduler.Stop` | src/scheduler/scheduler.py:85-91 | clears `running`, empties the shared job list and leaves the id map alone |
| `LinkedIn.FromReply` | src/linkedin/api.py:48-53 | the client's response is returned as it is, and its failure is re-raised with its reason |
| `LinkedIn.Hashtags` | src/linkedin/api.py:45 | one word per tag, in order, each being `#` followed by the tag |
| `LinkedIn.FormatPost` | src/linkedin/api.py:44-45 | the sent text always starts with the content; it equals the content when there are no tags; otherwise a blank line follows the content |
| `LinkedIn.FormatPostTagWords` | src/linkedin/api.py:45 | after the blank line, splitting on spaces gives exactly the `#tag` words in input order, provided no tag contains a space |
| `LinkedIn.OneTagPost` | src/linkedin/api.py:44-45 | with one tag the text sent is the content, a blank line, `#` and the tag as written, whatever characters the tag holds |
| `LinkedIn.NextTagPost` | src/linkedin/api.py:45 | each further tag appends a space, `#` and the tag as written, spaces included, to the text the earlier tags give |
| `LinkedIn.TagsMayExceedLimit` | src/linkedin/api.py:39-45 | content of exactly 3000 characters plus one tag is sent as 3004 characters |
| `LinkedIn.LinkedInAPI.constructor` | src/linkedin/api.py:14-16 | a new publisher has no client and is not authenticated |
| `LinkedIn.LinkedInAPI.Authenticate` | src/linkedin/api.py:18-30 | the flag and the result both equal the login outcome; on success the new client replaces the old one, on failure the old client stays |
| `LinkedIn.LinkedInAPI.CreatePost` | src/linkedin/api.py:32-53 | when not authenticated it fails before sending anything; content over 3000 characters is refused unsent, and 3000 is accepted; otherwise the formatted text is sent and the client's answer returned; the result is a success if and only if all three hold |
| `LinkedIn.LinkedInAPI.GetProfile` | src/linkedin/api.py:55-67 | fails when not authenticated; otherwise returns the client's answer |
| `LinkedIn.LinkedInAPI.GetConnections` | src/linkedin/api.py:69-81 | fails when not authenticated; otherwise returns the client's answer |
| `Wrappers.Truthy` | main.py:41 | an optional string or list is true in a Python `if` when present and not empty (also `if tags:` at src/linkedin/api.py:44 and `scheduled_time or ...` at main.py:47) |
| `Automation.PostId` | main.py:38 | the id is `post_` followed by 14 digits |
| `Automation.PostIdCollision` | main.py:38 | two posts get the same id if and only if they are created in the same second |
| `Automation.StoredScheduledTime` | main.py:41 | with no time given the clock reading is stored; otherwise only the parsed hour and minute are stored, on 1900-01-01, and a time `strptime` refuses yields nothing |
| `Automation.ScheduleArgument` | main.py:47 | the scheduler receives the caller's time verbatim, or when none is given the current `HH:MM`, which is always valid |
| `Automation.ParseTags` | main.py:69 | the stored tag string, when present and not empty, is split into a non-empty list of comma-free tags; otherwise there are no tags |
| `Automation.TagsRoundTrip` | main.py:69 | storing a tag list and reading it back gives that list if and only if it is non-empty, is not `[""]` and has no comma in any tag |
| `Automation.NoTagsRoundTrip` | src/database/db.py:40 | a missing or empty tag list is read back as no tags |
| `Automation.PublishedTextKeepsTags` | main.py:69-70 | for comma-free tags other than `[""]`, the text published after the round trip equals the text the original tags would give |
| `Automation.LinkedInAutomation.constructor` | main.py:21-24 | builds a fresh publisher, scheduler and table: no client and unauthenticated, nothing scheduled, not running |
| `Automation.LinkedInAutomation.AuthenticateLinkedIn` | main.py:26-30 | the result and the publisher's flag both equal the login outcome; on success the publisher's client is the one logged in with that email, on failure its old client stays |
| `Automation.LinkedInAutomation.CreateAndSchedulePost` | main.py:32-55 | a time `strptime` refuses fails with nothing changed. Otherwise it returns the id for `now`, and the post is stored unless the id already exists. It is then scheduled whenever the time handed on is valid, whether or not it was stored. With no time given it is always scheduled at the current `HH:MM` |
| `Automation.LinkedInAutomation.PostToLinkedIn` | main.py:57-77 | a missing post: nothing sent, nothing changed. Otherwise the content with its split tags is sent if the publisher's guards pass. The post is marked posted only when the publish also returns normally; every failure leaves the table unchanged. Whether it was already posted is not checked |

## Left out

- SQLAlchemy engine, sessions, commit and rollback: each method is one atomic update of the `posts` map.
- PostStore.Database.AddPost: only the unique-id violation is modelled among the exceptions that end in rollback and `False`. Failures of the database engine itself are not modelled, in `add_post` or the other table methods. The `nullable=False` checks are not needed, since Dafny values are never `None`.
- PostStore.Post: the integer primary key `id` (db.py:15) is not modelled; rows are identified by `post_id`.
- PostStore.Database.GetPendingPosts: returns a set rather than a list. The source promises no order, and rows are distinct by `post_id`.
- The `schedule` library's internals: its next-run computation, `run_pending`, and the polling loop of `start` (scheduler.py:81-83). These are timing, and the library's source is not part of this model. `JobRegistry` keeps only what the core uses: the job list, its tags, `at()`'s format check, `clear` and `clear(tag)`.
- The timezone computation in `schedule_post` (scheduler.py:23-31) affects no state and is not modelled.
- The threading in `LinkedInAutomation.start` (main.py:79-94), `main()`'s reading of credentials from the environment, and all logging.
- The clock: `datetime.now()` and `datetime.utcnow()` are parameters. The three `datetime.now()` calls of `create_and_schedule_post` (main.py:38, 41, 47) are modelled as one reading `now`. The real calls can straddle a second or minute boundary.
- Scheduling.DailyAtAccepts: follows the daily-job check of the `schedule` 1.x releases, as the version is not pinned in the files modelled. Earlier releases validated the string differently, and whether a one-digit hour such as `"9:30"` is refused depends on that check. Python's `$` also matches before a final newline, so `at("09:00\n")` passes there while the model refuses it. `schedule_post` never reaches `at()` with such a string, because `strptime` refuses the newline first.
- Clock.CompactStamp: `%Y` is rendered as four zero-padded digits. Some C libraries print years below 1000 without padding.
- Clock.ParseHourMinute: only ASCII digits are accepted. Python's `\d` in `strptime` also matches other Unicode decimal digits.
- The LinkedIn client (`Linkedin(...)`, `api.post`, `get_profile`, `get_connections`) is a network service. Each call's outcome is an input: `loginAccepted` or a `Reply`. The response is returned as the client gave it. `create_post` also evaluates `response.get('id')` after a successful send (api.py:49); a response without `.get` would raise there, after the post went out. Such a response is represented as a `Refused` reply.
- Config.DefaultPostTime: `DEFAULT_POST_TIME` is read from the environment with `"09:00"` as the fallback (config/config.py:26). The model fixes it at `"09:00"`. So `ScheduleDailyPost`'s promise that a call without a time succeeds holds only when that variable is unset or holds a valid time.
- `src/mcp_server/server.py` (the HTTP endpoints and their token check) and the rest of `config/config.py` (environment variables, timezone objects, directory creation) are not part of this model.
