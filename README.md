# Short-reels Telegram bot: a Dafny model of its core

The bot is a Telegram chat bot for one operator. It downloads a video from
Instagram or TikTok and composites it with a caption onto a 1080 by 1920
template. It keeps each processed video in a catalog (`videos.json`) and
shares it to Instagram Reels and YouTube Shorts, either at once or at a
scheduled minute. Scheduled posts sit in a jobs file (`scheduled.json`)
keyed by chat and post id. A periodic pass publishes the posts that are due
and removes them from the file.

This project models that core in Dafny:

- **Sessions** (`sessions.dfy`): the per-chat conversation state
  (`userStates`) as a `Bot` class whose `sessions` map its two handlers
  update in place. `OnCallback` handles button presses, `OnMessage` handles
  text messages, and each step has a method of its own.
- **Jobs** (`jobs.dfy`): the scheduled-posts file as a `JobFile` object.
  - `RunPass` is the periodic scheduler pass. It is proved against the pure
    specification `AfterPass`.
  - `NewPosts` and `Insert` describe what the schedule-date step adds.
- **Catalog** (`catalog.dfy`): the video catalog file and its two writers,
  `saveVideo` and `updateVideoPlatform`.
- **Dispatch** (`dispatch.dfy`): which uploads an immediate share performs,
  in which order, and what it reports.
- **Formatting**, **Dates**, **Strings** (`formatting.dfy`, `dates.dfy`,
  `strings.dfy`):
  - file-name slugs;
  - the text progress bar;
  - the access check;
  - caption recovery from a stored title;
  - `formatDate` and the `DD.MM.YYYY HH:MM` parser;
  - the JavaScript string helpers these rely on (`split`, `parseInt`,
    `padStart`, `trim`).
- **TextWrap**, **Templates**, **Compositing** (`textwrap.dfy`,
  `templates.dfy`, `compositing.dfy`), from the compositor module:
  - greedy word wrapping;
  - the template table and its listing;
  - how the compositor's progress events map onto the 20–80 band.

Outside influences are parameters: the clock, the upload and download
results, whether a file copy, unlink or clean-up succeeded, the content read
from the jobs and catalog files, and the canvas text measurement. Writes to
those files are taken to succeed (see "Left out").

Where the code and its description disagree, the model follows the code:

- A `both` immediate share whose YouTube upload fails after Instagram
  succeeded reports only a failure. The Instagram link is not reported
  (`Dispatch.BothPartialSuccessReportedAsFailure`).
- `delete:` only unlinks the video file. The catalog entry stays.
- A date with a non-numeric field does not fail at once. The handler still
  reads the jobs file, or creates it when it cannot be read, before it
  answers with the format error.
- `cross_upload` is caught by its own branch before the upload-choice
  branch. The upload-choice branch therefore never sees it, and no
  processed-video check happens for it.
- Leaving a flow deletes the chat's session rather than resetting it to an
  idle step.
- The message handler performs no access check. The callback handler
  checks the chat id against the allowed users.
- The periodic pass skips the upload for a platform other than `instagram`
  and `youtube`, and still deletes the post. An immediate share sends every
  platform other than `instagram` to Shorts.
- Nothing in the code calls `updateVideoPlatform`.
- On `select:`, the caption is recovered from the catalog title. That title
  is the raw caption text, so any dashes in a caption come back as spaces.

## Model

| member | source | states |
|---|---|---|
| Strings.Split | src/bot.js:1247-1249 | `split` on one character gives at least one piece, none containing the separator, and exactly one piece when the separator is absent |
| Strings.JoinSplit | src/mask.js:13 | joining the pieces of `split` with the separator gives back the original string |
| Strings.NatToString | src/bot.js:233-240 | `String(n)` is a non-empty run of decimal digits, one digit below 10 and two below 100 |
| Strings.NatToStringValue | src/bot.js:233-240 | the digits of `String(n)` read back as `n` |
| Strings.ParseInt | src/bot.js:1251-1255 | `parseInt` without a radix skips leading white space and a sign, reads base 16 after `0x`/`0X` and base 10 otherwise, and is NaN exactly when no digit of that base follows |
| Strings.NegatedParse | src/bot.js:1251-1255 | a minus sign followed by a text whose digit run (decimal, or hex after `0x`) reads `v` reads as `-v` |
| Strings.ParseIntOfMinus | src/bot.js:1251-1255 | a minus sign, then a text whose digit run (decimal, or hex after `0x`) reads `v`, reads as `-v`, whatever follows the run |
| Strings.ParseIntOfDigitRun | src/bot.js:1251-1255 | a text starting with a digit has no white space or sign to skip and reads as the value of its digit run, in base 16 after `0x` |
| Strings.ParseIntOfString | src/bot.js:1251-1255 | `parseInt` of a printed integer followed by a non-digit gives back that integer, except that a lone `0` followed by `x`/`X` starts a hex number |
| Strings.ParseIntOfHex | src/bot.js:1251-1255 | `0x` followed by hexadecimal digits reads as their base-16 value, whatever non-hex text follows |
| Strings.ParseIntExamples | src/bot.js:1251-1255 | `0x` alone is NaN, `-0x1f` reads as -31, and ` 42abc` reads as 42 |
| Strings.PadTwo | src/bot.js:234-238 | `padStart(2, "0")` gives at least two digits, exactly two below 100 |
| Strings.PadTwoValue | src/bot.js:234-238 | `parseInt` of a padded number gives back the number |
| Strings.Trim | src/bot.js:1459 | `trim()` returns the slice of the text between a white-space prefix and a white-space suffix, with no white space at either end of the slice; it is empty exactly when the text is all white space |
| Formatting.FormatFileName | src/bot.js:86-98 | the file name is a slug: lower-case letters, digits and single dashes, none at either end |
| Formatting.FormatFileNameIdempotent | src/bot.js:86-98 | formatting a formatted name changes nothing |
| Formatting.FormatFileNameOfSlug | src/bot.js:86-98 | a name that is already a slug is kept as it is |
| Formatting.Replaced | src/bot.js:88-95 | keeps the length; `[a-z0-9]` characters stay, ğ ü ş ı ö ç become g u s i o c, and every other character becomes a dash |
| Formatting.CollapseDashes | src/bot.js:96 | leaves no double dash, never lengthens the text, and keeps whether it starts or ends with a dash |
| Formatting.CollapseKeepsOthers | src/bot.js:96 | collapsing runs of dashes keeps the non-dash characters, in order |
| Formatting.CollapseDropsDoubledDash | src/bot.js:96 | removing one dash of a double dash does not change the result; with `CollapseWithoutDoubleDash` this determines the function |
| Formatting.CollapseWithoutDoubleDash | src/bot.js:96 | a text without a double dash is left as it is |
| Formatting.ProgressBar | src/bot.js:101-110 | a bar exists exactly for a progress from -2 to 102; it is 20 cells, the first `round(p/5)` filled, then the percentage |
| Formatting.ProgressBarMonotone | src/bot.js:101-110 | more progress fills at least as many cells; 0% fills none, 100% fills all |
| Formatting.DashesToSpaces | src/bot.js:567 | every dash becomes a space and every other character stays where it is |
| Formatting.RecoverCaption | src/bot.js:564-567 | the recovered caption has no dashes and is no longer than the title |
| Formatting.RecoverFromSavedName | src/bot.js:564-567 | for a `masked_<x>_<stamp>.mp4` name, recovery returns `x` with dashes as spaces |
| Formatting.RecoverFromMaskedFileName | src/bot.js:564-567 | applied to the name a composited video is saved under (built at src/bot.js:1112-1115), the recovery gives the source kind and the caption's slug joined by `_`, dashes as spaces, not the caption; `select:` applies it to the title, which is the raw caption |
| Formatting.RecoverPlainTitle | src/bot.js:564-567 | a title without the prefix and extension only has its dashes turned into spaces |
| Dates.FormatDate | src/bot.js:233-240 | `formatDate` prints `DD.MM.YYYY HH:MM`, with the separators at their fixed places |
| Dates.ParseScheduleDate | src/bot.js:1247-1258 | the text is refused before parsing exactly when it has no space; the fields are read with radix-less `parseInt` (so `0x1f` is 31); a parsed date has zero seconds and milliseconds |
| Dates.FormatThenParse | src/bot.js:1247-1258 | parsing what `formatDate` printed gives back the same minute |
| Dates.ExampleDate | src/bot.js:1005-1007 | the example shown to the user parses to 1 February 2025, 15:30 (month 1 counted from zero) |
| Jobs.AfterPassLeavesNothingDue | src/bot.js:281-399 | after a pass no post is due, and every post that was not due is still there unchanged |
| Jobs.AfterPassValid | src/bot.js:364-407 | a pass keeps every post filed under its own id |
| Jobs.AfterPassDropsEmptyOwners | src/bot.js:403-407 | after a pass no owner maps to an empty post map: an owner survives exactly when it has a post that is not yet due |
| Jobs.AfterPassChanges | src/bot.js:403-416 | the pass changes the file exactly when some owner had a due post or no posts at all |
| Jobs.AfterPassIdempotent | src/bot.js:266-420 | a second pass at the same instant changes nothing |
| Jobs.LaterPassSubsumes | src/bot.js:266-420 | a pass at `t1` followed by one at a later `t2` equals a single pass at `t2` |
| Jobs.AttemptPost | src/bot.js:283-361 | a post without a video is reported missing; an upload is attempted only for the two known platforms |
| Jobs.SweepOwner | src/bot.js:276-407 | one owner's sweep keeps exactly the pending posts, attempts exactly the due ones, and says whether anything changed |
| Jobs.JobFile.RunPass | src/bot.js:266-420 | an unreadable or post-less file stays untouched; otherwise the file becomes `AfterPass`, is written exactly when something changed, and every due post is attempted once |
| Jobs.JobFile.Load | src/bot.js:1268-1278 | an unreadable file is replaced by an empty one; a file without `posts` yields nothing |
| Jobs.JobFile.Save | src/bot.js:1385-1388 | the file holds exactly the given posts |
| Jobs.NewPosts | src/bot.js:1281-1345 | `both` creates an Instagram and a YouTube post, any other platform one post for it; the keys are `post_<stamp>_instagram` and `post_<stamp>_youtube` for `both` and `post_<stamp>` otherwise; each post carries its id, the video, the caption and the minute |
| Jobs.InsertValid | src/bot.js:1281-1345 | adding posts under a chat keeps the file well formed and every other post unchanged |
| Jobs.ScheduledPostLifetime | src/bot.js:281 | a scheduled post survives every pass before its minute and is removed by the first pass at or after it |
| Catalog.WithPlatformValid | src/bot.js:1522-1537 | recording a platform keeps the platform lists duplicate-free, adds the platform to that video and changes no other video |
| Catalog.WithPlatformIdempotent | src/bot.js:1527-1530 | recording the same platform twice is the same as once |
| Catalog.VideoCatalog.SaveVideo | src/bot.js:1492-1519 | a failed copy, or a stored file without a `videos` object, leaves the catalog alone; otherwise, with a missing or unreadable file counting as an empty catalog, one entry `vid_<stamp>` with the title, path and no platforms is added |
| Catalog.VideoCatalog.UpdateVideoPlatform | src/bot.js:1522-1537 | the platform is appended when the video exists and lacks it; otherwise nothing changes |
| Catalog.SavedVideoValid | src/bot.js:1501-1508 | a newly saved video keeps the catalog duplicate-free |
| Dispatch.ShareNow | src/bot.js:858-969 | the share succeeds exactly when every upload it performs resolves; it stops at the first failure; `both` and `instagram` start with Reels and any other platform with Shorts, and Shorts runs only for a non-`instagram` platform, after Reels resolved for `both`; `both` uploads exactly Reels at 25% and then, if Reels resolved, Shorts at 75%, and a single platform uploads once with no checkpoint; every upload gets the same video path and caption |
| Dispatch.BothRunsInOrder | src/bot.js:881-930 | `both` uploads Reels first and Shorts exactly when Reels resolved, at increasing checkpoints, and succeeds exactly when both succeed |
| Dispatch.SingleRunsOne | src/bot.js:932-969 | any other platform performs one upload, Reels for `instagram` and Shorts otherwise |
| Dispatch.BothPartialSuccessReportedAsFailure | src/bot.js:924-930 | Reels succeeding and Shorts failing is reported as a failure |
| Sessions.SelectDataDecodes | src/bot.js:187 | the `select:` button data decodes to a selection of that video |
| Sessions.ManageDataDecodes | src/bot.js:186 | the `manage:` button data decodes to managing that video |
| Sessions.DeleteDataDecodes | src/bot.js:638 | the `delete:` button data decodes to deleting that video |
| Sessions.ShareNowDataDecodes | src/bot.js:836 | the `share_now:` button data decodes to an immediate share to that platform |
| Sessions.ScheduleDataDecodes | src/bot.js:838 | the `schedule:` button data decodes to scheduling for that platform |
| Sessions.CheckDate | src/bot.js:1245-1265 | a date is accepted only when it parses to a calendar minute whose instant is after now; a refused one is past only when that instant exists and is not after now |
| Sessions.FormattedDateChecked | src/bot.js:1247-1265 | a printed date is accepted exactly when its minute is an instant after now, and takes the invalid path when its minute is no valid instant |
| Sessions.Bot.PickSource | src/bot.js:685-690 | the chat's session is replaced by one that waits for a link from that source |
| Sessions.Bot.ReturnToMenu | src/bot.js:693-695 | the chat's session is deleted |
| Sessions.Bot.EditWatermark | src/bot.js:1069-1072 | the chat's session is replaced by one that waits for the watermark text |
| Sessions.Bot.SelectVideo | src/bot.js:550-598 | a listed video becomes the processed video with its recovered caption; an unknown one changes nothing |
| Sessions.Bot.ScheduleFor | src/bot.js:998-1008 | an existing session records the platform and waits for the date |
| Sessions.Bot.ShareNowPressed | src/bot.js:858-996 | without a processed video nothing is shared; otherwise the share runs on that video, captioned with the session's text or `Short Video` when it has none, and the session is deleted |
| Sessions.Bot.ListVideos | src/bot.js:149-216 | the catalogued videos are added to the chat's `videoMap` when the catalog has any |
| Sessions.Bot.DeleteVideo | src/bot.js:653-675 | when a listed video's file was removed, the list is shown again from the unchanged catalog, so the entry stays; otherwise nothing changes |
| Sessions.Bot.OnCallback | src/bot.js:499-1073 | settings and the id lookup change nothing; a non-empty allow list refuses every other press from a chat it does not list; an admitted press makes the transition of its kind (list, select, delete, pick a source, end, share, schedule, edit the watermark, or nothing); only the pressing chat's session changes |
| Sessions.Bot.Press | src/bot.js:541-1073 | each admitted press kind makes its transition, as `Pressed` tabulates it |
| Sessions.Bot.SubmitUrl | src/bot.js:1088-1092 | the link is stored and the session waits for the caption |
| Sessions.Bot.ProcessCaption | src/bot.js:1095-1241 | with a text and a successful download, compositing and copy, the video is filed under `vid_<stamp>` with the caption as its title, a missing or unreadable catalog counting as empty; without them, or when the stored file has no `videos` object, the catalog is unchanged; the session offers the platforms only when, besides, the temporary files were removed, and is deleted otherwise, even after the video was filed |
| Sessions.Bot.HandleScheduleDate | src/bot.js:1245-1407 | an unparsable or past date leaves the file and the session alone; an invalid date (a NaN field or an instant `Date` cannot hold) keeps the session and answers with the format error after reading or creating the file; a future one adds the new posts under the chat and ends the session |
| Sessions.Bot.SetWatermark | src/bot.js:1448-1470 | `iptal` in any letter case cancels and any other text becomes the trimmed watermark, both ending the session; a message without text changes nothing; the allow list never changes |
| Sessions.Bot.OnMessage | src/bot.js:1082-1471 | a message changes only its own chat's session and is ignored without a session or a waiting step; in each waiting step it does what that step's method states (store the link, process the caption, schedule the date, set the watermark) and touches no other file |
| TextWrap.Grouping | src/mask.js:17-27 | the greedy grouping produces non-empty lines whose words, in order, are exactly the input words |
| TextWrap.GroupingIsGreedy | src/mask.js:19-25 | every word that fits is kept on its line, and each line break happens only where the next word does not fit |
| TextWrap.WrappedJoin | src/mask.js:12-29 | the wrapped lines joined with spaces give back the text |
| TextWrap.WrapText | src/mask.js:12-29 | the loop produces the greedy lines: at least one, and together the whole text |
| Templates.GetTemplates | src/mask.js:374-379 | one `{ id, name }` per template, in declaration order, with that template's name; no id is listed twice |
| Compositing.Mapped | src/mask.js:303-306 | a progress event maps to at most 80, to 20 when it has no percentage, and to at least 20 for a non-negative one |
| Compositing.ReportsRise | src/mask.js:303-310 | reported values lie above the starting value, at most 80, and strictly increase |
| Compositing.LastReportIsHighest | src/mask.js:303-310 | the last report is the highest mapped value seen |
| Compositing.HighestBounds | src/mask.js:303-310 | the highest value is at least the starting value and at least every mapped event |
| Compositing.CompositeProgress | src/mask.js:278-321 | the progress callback receives strictly increasing values in (20, 80] |
| Compositing.AllReportsNonDecreasing | src/mask.js:278-321 | with the fixed 20, 80 and 100 reports, the whole sequence the caller sees never goes down |

## Left out

- Telegram I/O: messages, edits, keyboards, `logAction` and the status and progress messages (`updateProgress`, the pass's notifications). Only the state changes and the decisions are modelled.
- Failed Telegram calls: every awaited Telegram call is taken to succeed, but four of them change the state when they are rejected, and none of these paths is modelled:
  - In `share_now:`, a rejected status message at src/bot.js:872 means no upload runs and the session is not deleted (src/bot.js:973). `Sessions.Bot.ShareNowPressed` always runs the share and deletes the session.
  - In the caption step, a rejected status message at src/bot.js:1106 reaches the catch at src/bot.js:1226-1240 and deletes the session before anything is downloaded.
  - In the caption step, a rejected `editMessageText` at src/bot.js:1203 deletes the session after the video was filed. In both caption cases, `Sessions.Bot.ProcessCaption` with every step successful installs the platform step instead.
  - In `delete:`, a rejected confirmation at src/bot.js:669 skips the re-listing. `Sessions.Bot.DeleteVideo` always lists again.
- The pass's timer (`setInterval`) and concurrency. The pass and a handler each read and write the whole jobs file, and their interleaving is not modelled.
- Local time: the `Date` setters' conversion to an instant, including their rollover of out-of-range fields, is the parameter `toTime`, which gives `None` where the setters give an Invalid Date.
- Floating point: progress and measurements are real numbers, and rounding is `floor(x + 0.5)`.
- JSON serialization and `path.join` normalisation: files are modelled by their parsed content, and paths by concatenation.
- A stored file whose `posts` or `videos` field is present but not an object.
- Object key order in `for…in`: the pass visits owners and posts in an unspecified order, so the model states what is attempted, not in which order.
- The downloaders, ffmpeg, the canvas drawing and the uploaders: their results are inputs.
- `confirm_clear_messages`, `clear_messages`, `scheduled_posts`, `scheduled:`, `cancel_all_scheduled`, `cross_upload`, `manage:`, the upload-choice buttons, `settings` and `show_my_id` only send messages. The model leaves their sessions unchanged and does not model the messages.
- `scheduled:` reads the in-memory post list loaded at startup. That list and the `cancel:`/`confirm_cancel_all` buttons, which no handler answers, are not modelled.
- The `waiting_users` step: no code path sets it.
- `saveConfig`: a watermark change is kept in the `Config` object and not written to disk.
- Jobs.AttemptPost: the upload's success is a free choice, and which uploader a platform uses is not recorded in the outcome.
- Sessions.Bot.ProcessCaption: the temporary download and composite files are not modelled; only whether their removal succeeded is an input.
- Failed writes: every write of the jobs file and the catalog is taken to succeed (`Jobs.JobFile.Save`, `Catalog.VideoCatalog.SaveVideo`). In the code, a failed write at src/bot.js:1385-1388 sends the format error and keeps the session, and one at src/bot.js:412-415 is only logged; neither path is modelled.
