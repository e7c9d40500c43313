# TikTok posting bot: schedule, queue and captions in Dafny

This project models the scheduling and queue engine of a bot that cuts TV
episodes into one-minute clips and publishes them to TikTok at fixed times of
day. It covers:

- the schedule record and its queue of clip paths (`ScheduleManager`);
- the choice of the next posting slot and the five-minute "is it time" test;
- one poll of the scheduler loop (`TikTokBot.upload_scheduled_videos`);
- the batch that cuts every source video and queues the clips
  (`process_all_videos`), with the clip count, start offsets and file names of
  `VideoProcessor.cut_video_to_clips`;
- the caption built from a clip's file name (`TikTokUploader.generate_description`);
- the one-shot commands `post_now` and `post_specific` of `run_bot.py`.

Time is a natural number of microseconds since midnight of day 0, in naive
local time. A posting slot `HH:MM` on day `d` is `d * DAY + HH * HOUR + MM * MINUTE`.
Every `datetime.now()` reading is a parameter. `should_upload_now` takes two
readings, its own and the one inside `get_next_upload_time`, and they are kept
apart. The publisher's answer is a boolean. File existence is a set of paths.
`random.choice` is an index into the template list. `save_schedule` copies the
in-memory record into a `persisted` field that stands for the schedule file.

Modules:

- `Wrappers`: `Option` and `Result`.
- `Text`: the Python string operations the code relies on: `int()` on digit
  strings, `{:03d}`, `str.join`, `str.strip`, `split(c)[0]`, `\d+`.
- `Clock`: time constants, `HH:MM` parsing, and `datetime.replace`.
- `Paths`: `Path.name`, `Path.stem` and `/`.
- `Scheduling`: the schedule record, the next-slot lookup, the window test,
  and the `ScheduleManager` class. `ParsedTimes` reads each `posting_times`
  entry as a slot; the lookup `NextSlot` and its lemmas work on those slots.
- `ScheduleExamples`: the default schedule worked at a few clock readings.
- `Description`: the caption builder.
- `Clips`: the clip plan and the cutting loop, with the encoder as an oracle.
- `Bot`: the `TikTokBot` class, one scheduler poll and runs of polls.
- `RunBot`: `post_now` and `post_specific`.

Three behaviours of the code are worth knowing when reading the model:

- `get_next_upload_time` returns the first slot *in list order* that is still
  ahead today, which is not necessarily the earliest one. `ScheduleExamples.UnsortedScheduleAnswersInListOrder`
  shows `["21:00", "09:00"]` at 08:00 answering 21:00. For an ascending list
  the two agree (`Scheduling.SortedScheduleGivesEarliestSlot`).
- When the head's file is missing, the scheduler poll drops the path and does
  not save. The file therefore still lists it.
- An empty `posting_times` raises `IndexError` in the code. Here it is the
  error value `EmptySchedule`. A malformed entry is `MalformedTime(i)`.

## Model

| member | source | states |
|---|---|---|
| Text.Join | tiktok_bot.py:212 | `sep.join(parts)` of no parts is empty, and every part fits in the result |
| Text.JoinSnoc | tiktok_bot.py:212 | joining one more part appends the separator and that part, so a join is its parts in order with `sep` between each adjacent pair |
| Text.StripTrims | tiktok_bot.py:174 | `strip()` adds no character and leaves no white space at either end |
| Text.StripTrimmed | tiktok_bot.py:174 | `strip()` leaves a string without surrounding white space unchanged |
| Text.BeforeFirst | tiktok_bot.py:174 | `split(c)[0]` is the prefix before the first `c`, or the whole string when there is none |
| Text.ZeroPad | tiktok_bot.py:84 | `{i+1:03d}` is a numeral whose value is the number, at least three digits wide, with zero padding only |
| Text.JoinEnds | tiktok_bot.py:212 | the join with the vertical-bar separator begins with the first block, ends with the last, and has the separator right after the first when there are several |
| Clock.At | tiktok_bot.py:309 | `now.replace(hour, minute, second=0, microsecond=0)` lies on the day of `now`, on a whole minute, and its hour and minute fields are the slot's |
| Clock.ParseTimeOfDay | tiktok_bot.py:308 | `map(int, s.split(':'))` into `hour, minute` succeeds only on a numeral, ':' and a numeral, and then reads the hour and minute as their decimal values; the result is a valid time of day |
| Clock.FormatThenParse | tiktok_bot.py:308-309 | every valid time written as `HH:MM` parses back to itself |
| Paths.Stem | tiktok_bot.py:79 | `Path.stem` is the final path component up to its last '.', or all of it; it holds no '/'; a suffix is cut exactly when that last '.' is neither the first nor the last character of the name |
| Paths.StemOfFileName | tiktok_bot.py:79 | the stem of `<base>.<ext>` is `<base>` |
| Paths.StemOfChild | tiktok_bot.py:85 | a file `<base>.<ext>` placed in the output directory keeps stem `<base>` |
| Description.SearchGroup | tiktok_bot.py:178-180 | `re.search(tag + r'(\d+)')` finds nothing exactly when the tag followed by a digit occurs nowhere; otherwise group 1 is the greedy digit run after the leftmost such occurrence |
| Description.FindTag | tiktok_bot.py:178-180 | the match position is the leftmost one |
| Description.SearchGroupAfter | tiktok_bot.py:178-179 | a one-letter tag placed after text with no match of its own is found there, and the group is the digit run right after it |
| Description.NoTagInAppend | tiktok_bot.py:178-179 | appending text without the tag's letter adds no match, unless it completes one begun by the letter just before it |
| Description.SearchGroupAbsent | tiktok_bot.py:178-185 | without the tag's first letter the search finds no match |
| Description.DigitRunStops | tiktok_bot.py:178-180 | the greedy `\d+` stops at the first non-digit |
| Description.SeriesName | tiktok_bot.py:166-174 | without a '.' in the stem the placeholder name stays |
| Description.SeriesNameIsStrippedPrefix | tiktok_bot.py:173-174 | with a '.', the name is `split(".")[0].strip()`: a slice of the text before the first '.' with only white space cut from either side, so it holds no '.' and neither begins nor ends with white space |
| Description.ParseStem | tiktok_bot.py:173-180 | season, episode and clip number are each absent exactly when their tag followed by a digit occurs nowhere in the stem |
| Description.BlocksOf | tiktok_bot.py:192-209 | between one and four blocks, the chosen template last |
| Description.BlocksLayout | tiktok_bot.py:192-209 | for any parsed name (series, optional season, episode and clip), the number of blocks is 1 plus one for each part found; the series block comes first, the `S.. E..` block right after it (or first without a series) when both season and episode are found, the clip block second to last, and the template last |
| Description.DefaultConfig | tiktok_bot.py:133-143 | the default configuration has four hashtags, four caption templates and public visibility |
| Description.HashtagLineEnds | tiktok_bot.py:215 | the hashtag line is empty without hashtags, and otherwise begins with the first and ends with the last |
| Description.HashtagTail | tiktok_bot.py:215-217 | the paragraph is present exactly when the hashtag line is non-empty, and then is a blank line followed by that line |
| Description.GenerateDescription | tiktok_bot.py:152-217 | fails exactly when the template list is empty (`random.choice` raises); otherwise it ends with the chosen template followed by the hashtag paragraph, which is there only when the joined hashtags are non-empty |
| Description.ClipTagAfterBase | tiktok_bot.py:180 | appending `_clip_<digits>` to a name with no clip tag makes `clip_(\d+)` read back exactly those digits |
| Description.ClipFileStem | tiktok_bot.py:84 | the stem of `<base>_clip_NNN.mp4` is `<base>_clip_NNN` |
| Description.EpisodeSeriesParsed | tiktok_bot.py:173-174 | for `Series. S.. E... (Title)_clip_N` the series is the text before the first '.', stripped |
| Description.EpisodeSeasonParsed | tiktok_bot.py:178 | the season read is the one written after `S`, for any series name with no `S` followed by a digit |
| Description.EpisodeNumberParsed | tiktok_bot.py:179 | the episode read is the one written after `E`, whatever the title holds, for any series name with no `E` followed by a digit |
| Description.EpisodeClipBlocks | tiktok_bot.py:192-209 | such a clip yields four blocks: series, `S.. E..`, clip number, template, whenever the series name itself holds no `S` or `E` followed by a digit |
| Description.EpisodeClipDescription | test_descriptions.py:17-19 | the full caption of an episode clip, block by block, joined by the vertical-bar separator, then the hashtags |
| Description.PlainClipDescription | test_descriptions.py:20 | a clip of a name with no series, season or episode gets only the clip block, the template and the hashtags |
| Scheduling.DefaultSchedule | tiktok_bot.py:281-286 | the default record has one posting time per daily post, no last upload and an empty queue |
| Scheduling.FirstSlotToday | tiktok_bot.py:307-312 | the scan answers a slot later than now on the same day, or fails only at a malformed entry it reached |
| Scheduling.FirstLaterSlotInListOrder | tiktok_bot.py:307-312 | on the parsed slots, the answer is the first entry, in list order, whose slot today is strictly after now |
| Scheduling.FirstMalformedEntryFails | tiktok_bot.py:308 | a malformed entry reached before any later slot makes the lookup fail with that entry's index |
| Scheduling.AllPassedFallsBackToTomorrow | tiktok_bot.py:315-317 | when every slot today has passed, the answer is the first entry's time on the next day |
| Scheduling.ParsedTimes | tiktok_bot.py:307-308 | one slot per `posting_times` entry, and every entry that parses is a valid time of day |
| Scheduling.NextSlot | tiktok_bot.py:315 | on parsed slots, an empty list is an error (`posting_times[0]` raises) |
| Scheduling.NextUploadTime | tiktok_bot.py:315 | an empty list of posting times is an error |
| Scheduling.NextDay | tiktok_bot.py:316 | `now + timedelta(days=1)` lies on the next day |
| Scheduling.NextSlotWithinDay | tiktok_bot.py:301-317 | the next upload time always lies in (now, now + 24 h] |
| Scheduling.ScanSound | tiktok_bot.py:307-312 | a slot found by the scan is a later-today slot preceded only by passed entries; running out means every entry has passed |
| Scheduling.ScanErrorIsMalformed | tiktok_bot.py:307-312 | a list of well-formed entries never makes the scan fail |
| Scheduling.SortedScheduleGivesEarliestSlot | tiktok_bot.py:301-317 | for an ascending list, the answer is the earliest upcoming slot of today or tomorrow |
| Scheduling.ShouldUpload | tiktok_bot.py:321-322 | with an empty queue it is never time |
| Scheduling.DueOnlyJustBeforeSlot | tiktok_bot.py:319-328 | it is time exactly when the queue is non-empty and the next slot is less than 300 s ahead; it never fires after a slot |
| Scheduling.DueWhenSlotWithinWindow | tiktok_bot.py:319-328 | with an ascending list and work queued, any upcoming slot under 300 s away makes it fire |
| Scheduling.ScheduleManager.constructor | tiktok_bot.py:274-287 | loads the file's record, or creates the default record (3 posts, 09:00, 15:00, 21:00, no last upload, empty queue) and saves it |
| Scheduling.ScheduleManager.SaveSchedule | tiktok_bot.py:289-292 | the file afterwards holds the in-memory record |
| Scheduling.ScheduleManager.AddVideosToQueue | tiktok_bot.py:294-298 | appends every path to the tail in the given order, leaves the rest of the record unchanged, and saves |
| Scheduling.ScheduleManager.GetNextUploadTime | tiktok_bot.py:301-317 | the loop with early return computes the next upload time |
| Scheduling.ScheduleManager.ShouldUploadNow | tiktok_bot.py:319-328 | computes the 300-second window test |
| ScheduleExamples.DefaultAtTen | tiktok_bot.py:280-285 | with the default schedule, at 10:00 the next upload is 15:00 the same day |
| ScheduleExamples.DefaultAtTwentyTwo | tiktok_bot.py:315-317 | at 22:00 the next upload is 09:00 the next day |
| ScheduleExamples.DefaultAtEightFiftyNine | tiktok_bot.py:307-312 | at 08:59 the next upload is 09:00 the same day |
| ScheduleExamples.DefaultDueAroundNine | tiktok_bot.py:328 | with work queued, a poll at 08:57 is due and one at 08:50 is not |
| ScheduleExamples.UnsortedScheduleAnswersInListOrder | tiktok_bot.py:307-312 | `["21:00", "09:00"]` at 08:00 answers 21:00 although 09:00 is an upcoming slot |
| Clips.ClipCount | tiktok_bot.py:77 | only whole clips are cut: the count times the clip length fits in the duration, one more clip does not; a negative length gives none |
| Clips.Kept | tiktok_bot.py:82-108 | after `n` encoder runs without an exception, at most `n` clips are listed |
| Clips.CutResult | tiktok_bot.py:45-112 | a failed probe, a missing duration or a zero clip length gives no clips; otherwise no more clips than whole clips fit |
| Clips.ClipNameShape | tiktok_bot.py:84 | clip i's file name is `<stem>_clip_`, a numeral of value i+1, then `.mp4` |
| Clips.WrittenOutputs | tiktok_bot.py:104-105 | the `exists()` filter keeps no more outputs than runs, and none when no run wrote its file |
| Clips.Plan | tiktok_bot.py:82-85 | one planned run per clip |
| Clips.CutVideoToClips | tiktok_bot.py:45-112 | the loop returns the clip list the plan and the encoder outcomes determine |
| Clips.PlanCutsWholeClips | tiktok_bot.py:77-83 | clip i starts at i times the clip length, each clip ends within the video, each starts where the previous ends, and what remains is shorter than a clip |
| Clips.PlanOutputsDistinct | tiktok_bot.py:84-85 | different clips of one video go to different files |
| Clips.ClipOutputIsNumbered | tiktok_bot.py:84 | clip i's file has stem `<stem>_clip_<i+1, 3 digits>`, and its caption numbers it as part i+1 |
| Clips.KeptAfterFailure | tiktok_bot.py:110-112 | once an encoder run raises, the call returns nothing |
| Clips.WrittenOutputsComeFromPlan | tiktok_bot.py:104-105 | every listed clip is a planned output whose file appeared, and there are no more than planned |
| Clips.WrittenOutputsDistinct | tiktok_bot.py:104-105 | no clip is listed twice |
| Clips.CutResultListsWrittenClips | tiktok_bot.py:82-108 | without exceptions the call lists exactly the planned outputs that appeared, in plan order, each once |
| Clips.CutResultAllWritten | tiktok_bot.py:82-108 | when every file appears, every planned clip is listed in order |
| Clips.CutResultAfterEncoderFailure | tiktok_bot.py:110-112 | an encoder exception discards the clips already listed |
| Clips.ShortVideoYieldsNothing | tiktok_bot.py:77-82 | a video shorter than one clip yields no clips |
| Bot.ScheduledStep | tiktok_bot.py:353-368 | a poll never changes the posting times or the slot count; the file is untouched or holds the new record; a poll that is not due or fails changes nothing |
| Bot.StepOnlyConsumesHead | tiktok_bot.py:355-368 | a poll removes at most the head, which is the path it reports; posting times and slot count never change; `last_upload` changes only on success |
| Bot.StepActsOnHeadWhenDue | tiktok_bot.py:355-358 | the poll acts exactly when work is queued and a slot is under 300 s ahead, and then handles the head: dropped iff its file is missing, published iff it exists and the upload succeeds |
| Bot.FailedUploadRestoresQueue | tiktok_bot.py:363-366 | a failed upload puts the same path back in front, so record and file equal the record before the poll |
| Bot.SuccessfulUploadPopsAndSaves | tiktok_bot.py:359-362 | a successful upload removes the head, stamps `last_upload` and saves |
| Bot.MissingFileDropsWithoutSaving | tiktok_bot.py:356-368 | a missing head file is popped and not saved, so the file still lists it in front of the in-memory queue |
| Bot.RunPolls | tiktok_bot.py:353-368 | successive polls report one outcome each and never change the posting times |
| Bot.PollsConsumeInQueueOrder | tiktok_bot.py:353-368 | over any run of polls, the paths published or dropped, followed by what is left, are exactly the starting queue |
| Bot.AllClips | tiktok_bot.py:344-347 | no videos give no clips, and one video gives exactly its own clips |
| Bot.AllClipsPrefix | tiktok_bot.py:344-347 | the clips collected from the first videos begin the clips collected from all of them |
| Bot.AllClipsComeFromVideos | tiktok_bot.py:343-347 | the clips of each video form one contiguous run right after those of the videos before it, and every collected clip was cut from a listed video |
| Bot.TikTokBot.constructor | tiktok_bot.py:334-337 | the bot starts from the loaded schedule |
| Bot.TikTokBot.UploadScheduledVideos | tiktok_bot.py:353-368 | the poll leaves the record, the file and the outcome the step specification gives |
| Bot.TikTokBot.CollectClips | tiktok_bot.py:343-347 | the loop collects every video's clips in order |
| Bot.TikTokBot.ProcessAllVideos | tiktok_bot.py:339-351 | appends all collected clips to the queue and saves, and does nothing when there are none |
| RunBot.PostNow | run_bot.py:38-59 | loads the schedule and returns the outcome and the file that the post-now step specification gives |
| RunBot.PostSpecific | run_bot.py:62-76 | the schedule file is what loading left, whatever the upload does; the outcome is missing, posted or failed |
| RunBot.PostNowStep | run_bot.py:38-59 | `post_now` never changes posting times or `last_upload`; the file is untouched or holds the new record; anything but a successful post changes nothing |
| RunBot.PostNowRemovesOnlyPublishedHead | run_bot.py:43-59 | only the head is examined; it is removed, and the file saved, exactly when it exists and is published; the rest keep their order |
| RunBot.PostNowOnEmptyQueue | run_bot.py:43-45 | an empty queue attempts nothing and changes nothing |
| RunBot.MissingHeadKeptByPostNowDroppedByScheduler | run_bot.py:47-50 | a missing head stays queued under `post_now`, while a due scheduler poll drops it |
| RunBot.PublishedHeadPostNowVersusScheduler | run_bot.py:52-56 | on success both remove the head and save, but only the scheduler sets `last_upload` |
| RunBot.FailedPostLeavesQueue | run_bot.py:58-59 | a failed upload neither changes nor saves the queue |

## Left out

- The ffmpeg work: probing, encoding, scaling and cropping. A probe is `ProbeFailed`, `NoDuration` or a duration in whole microseconds. Each encoder run is an oracle answer: written, not written, or raised; each source video has its own oracle, so two sources with the same stem may fare differently.
- Clips.ClipCount: the duration is a float in the source. Rounding of `float(duration) // clip_duration` is not modelled.
- `get_video_files`: the directory glob and sorting. `ProcessAllVideos` takes the list of source videos.
- `upload_video` and the API client: authentication, upload and the HTTP calls. The upload's caption does not affect the queue. The upload is a boolean answer.
- The Selenium automation, the credential setup scripts and the status report.
- `run_continuous`: the endless loop, its sleeps and its exception backoff. `Bot.RunPolls` strings polls together instead.
- Logging, JSON (de)serialisation of the schedule and of the config file, and the `isoformat` text of `last_upload`. A timestamp is stored instead.
- The construction of `TikTokUploader` and its `load_config`. `Description.DefaultConfig` holds the default configuration.
- Bot.TikTokBot.UploadScheduledVideos: reinserts the popped string itself, where the source reinserts `str(Path(head))`. The two agree for normalised paths, and every path the bot itself queues is one.
- Clock.ParseTimeOfDay: the leniency of Python `int()` is not modelled: surrounding whitespace, signs, underscores and non-ASCII digits. Entries are exactly digits, ':' and digits.
- Description.SearchGroup: `\d` is ASCII digits only. Python also matches other Unicode decimal digits.
- Paths.Stem: follows the suffix rule of current `pathlib` on normalised POSIX paths. Path normalisation itself is not modelled.
- `datetime` overflow past year 9999, time zones and daylight-saving changes.
- The command-line dispatch of `run_bot.py` and `setup_project`.
