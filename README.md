# Live-stream recording jobs: a verified model of `yt_auto_download.py`

`yt_auto_download.py` records one or more live streams per run. For each URL
it starts `ytarchive`, and falls back to `yt-dlp` when that raises. It then
uploads the recording to an rclone remote, retrying with exponential
backoff. After a successful upload it deletes the local copy and sweeps the
output directory down to the `KEEP_LAST_N` newest regular files. Every job
ends by writing a `status_*.json` (success) or `status_fail_*.json`
(failure) record, and a failed job then re-raises.

The model is in Dafny. Each part of the source keeps its own form:

- **Pure string and list code is functions plus lemmas.** This covers the URL
  stem, the file name, the remote path, globbing and the URL list.
- **State-changing code is methods over a class.** The output directory is a
  class `Directory.OutputDir` with two fields. `entries` maps each name to
  whether it is a regular file and its mtime. `log` is the job's trace:
  one event per line `log()` writes, plus the sleeps between upload
  attempts and the status-file write. The methods that change them are
  `Retention.CleanupKeepLast`, `Capture.RecordWithYtarchive`,
  `Capture.RecordWithYtdlp`, and in `Job`: `RemoveLocal`, `WriteStatus`,
  `Record`, `UploadRecording`, `DeleteAndSweep`, `Conclude`,
  `DeliverRecording` and `DoOne`.
- **Loops stay loops.** The retention sweep and the retry loop are `while`
  loops with invariants.
- **Every method is proved against a specification function.** Examples are
  `Victims`/`SweepLog`, `RetryLog` and `JobSpec`. The lemmas about those
  functions state what the program promises.

What the job takes from outside is the `Job.World` value, and nothing is
executed:

- how each tool process ends (exit status, or killed at the deadline) and
  which entries it writes;
- the exit status of each `rclone` attempt;
- whether `os.remove` and each sweep unlink fail;
- the clock readings;
- the order in which the directory is enumerated.

Modules, one file each:

| file | module | models |
|---|---|---|
| `wrappers.dfy` | `Wrappers` | `Option`, `Result` |
| `names.dfy` | `Names` | `safe_name`, file names, `os.path.basename`, `rstrip`, remote path |
| `glob.dfy` | `Glob` | `Path.glob` name matching through `fnmatch.translate` (`*`, `?`, `[...]`, `[!...]`) |
| `urls.dfy` | `Urls` | `str.strip`, text-file line iteration, the URL list of `main` |
| `events.dfy` | `Events` | tools, failures, status record, log events and their phases |
| `directory.dfy` | `Directory` | the directory class, enumeration orders, the stable mtime sort |
| `retention.dfy` | `Retention` | `cleanup_keep_last` |
| `upload.dfy` | `Upload` | the tenacity policy of `rclone_copy_with_retry` |
| `capture.dfy` | `Capture` | `record_with_ytarchive`, `record_with_ytdlp` |
| `job.dfy` | `Job` | `do_one` and `rclone_delete_local` as methods, with their specification functions |
| `job_order.dfy` | `JobOrder` | ordering guarantees of `do_one` |
| `job_effects.dfy` | `JobEffects` | what `do_one` leaves in the directory and the status record |

Behaviours of the code that are easy to miss:

- **The `#` test looks at the raw line.** The comment test is
  `line.startswith("#")` on the unstripped line. An indented `#` line is
  therefore kept as a URL (`Urls.IndentedCommentKept`).
- **mtime ties keep enumeration order.** The sweep sorts with Python's
  stable `sorted(..., reverse=True)`, so entries of equal mtime stay in the
  order the directory yields them (`Directory.SortByMtimeStable`).
- **No wait follows the last upload attempt.** With `stop_after_attempt(5)`
  tenacity stops after the fifth failure without sleeping. Five failed
  uploads therefore sleep 2, 4, 8 and 16 seconds (`Upload.DelaysShape`); the
  30-second cap of `wait_exponential` is never reached.
- **Negative `keep_n` keeps the slice's meaning.** A negative `KEEP_LAST_N`
  is a Python slice from the end: the sweep removes the `-keep_n` oldest
  files (`Retention.NegativeKeepRemovesOldest`).
- **A successful job can leave more than `keep_n` regular files.** The sweep
  runs before the status file is written, so the new status file is never
  counted (`JobEffects.SuccessLeavesAtMostOneMore`). The sweep also counts
  every regular file of the directory, `recording.log` and status files
  included. `log()` appends to `recording.log` inside that directory
  (yt_auto_download.py:29, 34-39), so when the sweep unlinks it the next
  line re-creates it: with `KEEP_LAST_N=0` a successful job leaves two
  regular files, `keep_n + 2`. The model does not write `recording.log`
  (see "Left out").
- **The ytarchive glob can pick the wrong file.** `ytarchive` discovers its
  output by the glob `<stem>_*.mkv`, not by the name it asked for. A run that
  exits 0 without writing anything yields an older recording of the same
  stem (`Capture.ArchiveAcceptsEarlierRecording`). That older file is
  uploaded and then deleted.
- **A bracket in the URL can make ytarchive miss its own file.** The glob
  is built from the stem, and `Path.glob` reads `[...]` in it as a class.
  The stem of `https://[::1]:8080/live` is `[__1]_8080_live`, whose class
  `[__1]` accepts only `_` and `1`, so the glob rejects the recording's own
  name: a run that exits 0 with the file written still raises, and the job
  falls back to yt-dlp (`Capture.BracketedHostMissesOwnFile`,
  `JobEffects.BracketedHostFallsBack`).
- **A `**` in the URL makes ytarchive raise.** `Path.glob` of Python 3.9 to
  3.12 refuses a pattern component that holds `**` without being `**`, and
  the stem is copied into the glob unchanged. For
  `https://example.com/a**b` the glob `example.com_a**b_*.mkv` raises a
  `ValueError` when `sorted` starts reading it, although `fnmatch` would
  accept the recording's name; the job falls back to yt-dlp
  (`Capture.DoubleStarUrlRaises`, `JobEffects.DoubleStarStemFallsBack`).
  The model follows `pathlib` of those versions.
- **Stems do not identify URLs.** Different URLs can share a stem, because
  `/`, `:` and `_` all become `_` (`Names.SafeNameCollides`). Two such URLs
  can therefore discover each other's recordings.

## Model

| member | source | states |
|---|---|---|
| Names.ReplaceAll | yt_auto_download.py:94 | defines `str.replace`: every non-overlapping occurrence, scanning from the left, is replaced |
| Names.SafeName | yt_auto_download.py:94 | defines the stem: "https://" removed, then `/` and then `:` replaced by `_` |
| Names.FileName | yt_auto_download.py:95 | defines `f"{safe_name}_{timestamp}.mkv"` and its `.mp4` twin at line 122 |
| Names.RemotePath | yt_auto_download.py:152-153 | defines `f"{RCLONE_REMOTE.rstrip('/')}/{os.path.basename(local)}"` |
| Names.ReplaceCharAt | yt_auto_download.py:94 | replacing a one-character pattern by one character keeps the length and maps each position independently |
| Names.ReplaceAbsent | yt_auto_download.py:94 | `str.replace` leaves a string without the pattern unchanged |
| Names.ReplaceShrinks | yt_auto_download.py:94 | deleting every occurrence of a pattern never lengthens a string |
| Names.SafeNameHasNoSeparator | yt_auto_download.py:94 | the stem of any URL contains no `/` and no `:` and is no longer than the URL |
| Names.SafeNamePointwise | yt_auto_download.py:121 | without "https://", the stem is the URL with exactly its `/` and `:` characters turned into `_` |
| Names.SafeNameDropsScheme | yt_auto_download.py:94 | a leading "https://" contributes nothing to the stem |
| Names.SafeNameCollides | yt_auto_download.py:94 | "a/b", "a:b" and "a_b" have the same stem |
| Names.StemAfterScheme | yt_auto_download.py:94 | the stem of "https://" followed by text without `h` is that text with `/` and `:` turned into `_` |
| Names.SafeNameBracketedHost | yt_auto_download.py:94 | the stem of `https://[::1]:8080/live` is `[__1]_8080_live` |
| Names.SafeNameDoubleStar | yt_auto_download.py:94 | the stem of `https://example.com/a**b` is `example.com_a**b` |
| Names.ParseFileName | yt_auto_download.py:95 | whatever it parses, rebuilding the name from stem, timestamp and extension gives the input back |
| Names.ParseFileNameRoundTrip | yt_auto_download.py:122 | parsing `stem_timestamp.ext` recovers stem and timestamp, so file names are injective in them |
| Names.FileNameShape | yt_auto_download.py:95 | the file name of a URL is one path component of length stem + 20 ending in `.mkv` or `.mp4` |
| Names.Basename | yt_auto_download.py:152 | the base name is the longest suffix without `/`, preceded by `/` when shorter than the path |
| Names.RStrip | yt_auto_download.py:153 | `rstrip('/')` removes exactly the trailing run of `/` |
| Names.JoinPath | yt_auto_download.py:95 | defines `str(outdir / name)`: no prefix for `.`, the directory itself when it ends in `/`, otherwise the directory and one `/` |
| Names.DirPrefix | yt_auto_download.py:95 | what `Path` puts before a child's name; it is empty or ends in `/` |
| Names.BasenameOfJoin | yt_auto_download.py:152 | the base name of `str(dir / name)` is `name`, for every directory text |
| Names.RemotePathShape | yt_auto_download.py:152-153 | for any local path, the remote path is the remote root without trailing `/`, one `/`, and the path's base name |
| Glob.Matches | yt_auto_download.py:113 | defines `fnmatch` matching of a whole name: `*` any run, `?` one character, a closed class one accepted character, anything else itself |
| Glob.ClassClose | yt_auto_download.py:113 | where a class ends: after an optional `!` and a leading `]`, at the next `]`, or nowhere (then `[` is literal) |
| Glob.InClass | yt_auto_download.py:113 | defines class membership as `fnmatch.translate` builds it: chunks at range hyphens, reversed ranges removed, `!` negates |
| Glob.MatchesClass | yt_auto_download.py:113 | defines the class step: the class accepts the first character and the rest matches the rest |
| Glob.StarMatchesAll | yt_auto_download.py:113 | `*` matches every name |
| Glob.MatchesPlain | yt_auto_download.py:113 | at a pattern character other than `*` and `[`, one name character is consumed: `?` any, others themselves |
| Glob.MatchesItself | yt_auto_download.py:113 | every string without `[` matches itself as a pattern |
| Glob.MatchesConcat | yt_auto_download.py:113 | matching is compatible with concatenation when no class opens in the first pattern |
| Glob.StarInfix | yt_auto_download.py:113 | `a*b` matches `a + x + b` for every `x` when `a` and `b` hold no `[` |
| Glob.LiteralMatchesOnlyItself | yt_auto_download.py:113 | a pattern without `*`, `?`, `[` and `]` matches exactly itself |
| Glob.MatchesEndsWith | yt_auto_download.py:113 | a name matching any pattern that ends in literal text ends in that text, classes before it included |
| Glob.EndsWithStar | yt_auto_download.py:113 | the `*` case of the above |
| Glob.EndsWithClass | yt_auto_download.py:113 | the class case of the above: a class closes before text without `]` |
| Glob.ClassCloseExtends | yt_auto_download.py:113 | a class closed inside a pattern closes at the same place in any extension |
| Glob.ClassRejects | yt_auto_download.py:113 | a pattern opening with a class rejects every name whose first character the class does not accept |
| Glob.SmallClass | yt_auto_download.py:113 | the class `[__1]` accepts `_` and `1` and not `[` |
| Glob.HasDoubleStar | yt_auto_download.py:113 | defines `'**' in pat` |
| Glob.InvalidComponent | yt_auto_download.py:113 | defines the pattern component `Path.glob` (Python 3.9 to 3.12) refuses: one holding `**` other than `**` itself |
| Urls.Strip | yt_auto_download.py:187 | defines `str.strip()` over Python's whitespace characters |
| Urls.Translate | yt_auto_download.py:187 | defines universal-newline reading: `\r\n` and `\r` become `\n` |
| Urls.Lines | yt_auto_download.py:187 | defines text-file line iteration: each line runs through its `\n` |
| Urls.Keep | yt_auto_download.py:187 | defines the filter: the stripped line is non-empty and the raw line does not start with `#` |
| Urls.FilterLines | yt_auto_download.py:187 | defines the comprehension: the stripped text of each kept line, in order |
| Urls.TrimLeftShape | yt_auto_download.py:187 | stripping the left drops a whitespace prefix and stops at the first other character |
| Urls.TrimRightShape | yt_auto_download.py:187 | stripping the right drops a whitespace suffix and stops at the last other character |
| Urls.StripIsTrim | yt_auto_download.py:187 | `strip()` yields a substring with only whitespace around it in the line, neither beginning nor ending with whitespace |
| Urls.StripEmptyIff | yt_auto_download.py:187 | a line strips to "" exactly when it is all whitespace |
| Urls.StripIdempotent | yt_auto_download.py:187 | stripping twice is stripping once |
| Urls.LineLength | yt_auto_download.py:187 | the first line runs up to and including the first `\n` |
| Urls.LinesSplit | yt_auto_download.py:187 | the lines of a file concatenate back to its text, are non-empty, and all but the last end in their only `\n` |
| Urls.FilterLinesAppend | yt_auto_download.py:187 | the URL list of a concatenation is the concatenation of the URL lists, so file order is kept |
| Urls.FilterLinesSound | yt_auto_download.py:187 | every URL read is the stripped text of a kept line and is non-empty and stripped |
| Urls.FilterLinesComplete | yt_auto_download.py:187 | every kept line contributes its stripped text |
| Urls.FilterLinesMembers | yt_auto_download.py:187 | the URLs read are exactly the stripped kept lines, at most one per line |
| Urls.ReadUrls | yt_auto_download.py:181-187 | with arguments the list is exactly `argv[1:]`; otherwise a missing file is the error exit |
| Urls.ReadUrlsFromFile | yt_auto_download.py:184-187 | without arguments the list is the filtered lines of the translated file text, with the iff above |
| Urls.IndentedCommentKept | yt_auto_download.py:187 | " #x" is kept as "#x", "#x" is dropped |
| Directory.SortByMtime | yt_auto_download.py:83 | defines `sorted(..., key=st_mtime, reverse=True)` as a stable insertion sort, newest first |
| Directory.Insert | yt_auto_download.py:83 | insertion adds exactly one name |
| Directory.InsertDescending | yt_auto_download.py:83 | insertion into a newest-first sequence keeps it newest first |
| Directory.SortByMtimeCorrect | yt_auto_download.py:83 | the sort is a permutation, newest first, keeps names distinct and keeps membership |
| Directory.WithMTime | yt_auto_download.py:83 | the names of one mtime, in order; each of them has that mtime |
| Directory.InsertKeepsTies | yt_auto_download.py:83 | inserting a name puts it after the names of its mtime already there and changes no other tie group |
| Directory.SortByMtimeStable | yt_auto_download.py:83 | the sort is stable: for every mtime, the names carrying it are in the same order before and after |
| Directory.DescendingHead | yt_auto_download.py:116 | the head of a newest-first sequence is at least as new as every element |
| Retention.Survivors | yt_auto_download.py:84 | defines the kept files, `files[:keep_n]` of the newest-first list |
| Retention.Victims | yt_auto_download.py:84 | defines the files the loop tries to unlink, `files[keep_n:]` |
| Retention.Cut | yt_auto_download.py:84 | where `files[keep_n:]` starts, for non-negative and negative `keep_n` |
| Retention.RegularFiles | yt_auto_download.py:83 | the listed names that are regular files, each at most as often as listed |
| Retention.CleanupKeepLast | yt_auto_download.py:82-89 | the sweep removes exactly the victims whose unlink succeeds and logs one removed or failed line per victim, in order |
| Retention.OrderedFiles | yt_auto_download.py:83 | the sorted list holds every regular file of the directory once, newest first |
| Retention.SplitDisjoint | yt_auto_download.py:84 | survivors and victims share no name and together are the sorted files |
| Retention.SurvivorsNotOlder | yt_auto_download.py:83-84 | each kept file is at least as new as each file the sweep tries to remove |
| Retention.SweepOutcome | yt_auto_download.py:84-89 | a victim whose unlink succeeds is gone; a failing one and every non-victim are untouched |
| Retention.SweepSparesNonFiles | yt_auto_download.py:83 | entries that are not regular files are never touched |
| Retention.SweepKeepsNewest | yt_auto_download.py:83-84 | without failures the regular files left are exactly the first `keep_n` of the newest-first order |
| Retention.SweepLeavesAtMost | yt_auto_download.py:83-84 | without failures at most `keep_n` regular files remain |
| Retention.NegativeKeepRemovesOldest | yt_auto_download.py:84 | a negative `keep_n` removes the `-keep_n` oldest files |
| Retention.SweepIdempotent | yt_auto_download.py:82-89 | a second sweep after a faultless one removes nothing |
| Upload.Wait | yt_auto_download.py:63 | defines tenacity's wait after attempt `k`: `2 * 2^(k-1)` clamped to [2, 30] |
| Upload.Delays | yt_auto_download.py:63 | defines the waits of a call with `n` attempts: one after each attempt but the last |
| Upload.RetryLog | yt_auto_download.py:63-72 | defines the trace of `n` attempts: "Uploading", then "Upload OK" or "rclone failed" and the wait |
| Upload.Pow2Monotone | yt_auto_download.py:63 | the exponential term never decreases |
| Upload.WaitBoundedMonotone | yt_auto_download.py:63 | every wait lies in [2, 30], and later waits are never shorter |
| Upload.FirstWaits | yt_auto_download.py:63 | the waits after attempts 1 to 4 are 2, 4, 8, 16, and 30 from then on |
| Upload.AttemptsFrom | yt_auto_download.py:63 | counting from attempt k, the loop stops at the first success or at the fifth attempt |
| Upload.Attempts | yt_auto_download.py:63 | a call makes between 1 and 5 attempts |
| Upload.AttemptsCharacterised | yt_auto_download.py:63-73 | the call succeeds iff some attempt up to the fifth succeeds; all earlier attempts failed; failure means 5 attempts |
| Upload.DelaysShape | yt_auto_download.py:63 | one wait per attempt but the last, non-decreasing, in [2, 30]; five failures sleep 2, 4, 8, 16 |
| Upload.AttemptLogShape | yt_auto_download.py:67-72 | one attempt logs one "Uploading" line and ends with "Upload OK" exactly when it succeeds |
| Upload.RetryLogShape | yt_auto_download.py:67-72 | `n` attempts log `n` "Uploading" lines and "Upload OK" once, last, exactly when attempt n succeeded |
| Upload.RetryLogPhase | yt_auto_download.py:67-72 | the retry log holds upload events only |
| Upload.CopyWithRetry | yt_auto_download.py:63-73 | the loop makes `Attempts` attempts, succeeds iff the last exits 0, sleeps `Delays` and logs `RetryLog` |
| Capture.Newest | yt_auto_download.py:113-116 | defines the pick: the matching names sorted newest first, and the first of them |
| Capture.ArchiveOutcome | yt_auto_download.py:101-116 | defines ytarchive's result: a timeout, a non-zero exit, a glob `Path.glob` refuses or no match raises, otherwise the newest match |
| Capture.DlpOutcome | yt_auto_download.py:126-139 | defines yt-dlp's result: a timeout, a non-zero exit or a missing own file raises, otherwise that file |
| Capture.MatchingNames | yt_auto_download.py:113 | the glob result holds exactly the listed names that match, each at most as often as listed |
| Capture.NewestIsNewest | yt_auto_download.py:113-116 | there is no newest match iff no entry matches; otherwise it is a matching entry no other match is newer than |
| Capture.NewestMatches | yt_auto_download.py:113-116 | the newest match is listed and matches |
| Capture.RecordWithYtarchive | yt_auto_download.py:91-116 | the tool's writes land in the directory, its lines are logged, and the result is `ArchiveOutcome` |
| Capture.RecordWithYtdlp | yt_auto_download.py:118-139 | the tool's writes land in the directory, its lines are logged, and the result is `DlpOutcome` |
| Capture.ArchiveOutcomeCases | yt_auto_download.py:101-116 | ytarchive raises iff it timed out, exited non-zero, its stem holds `**` or nothing matches (an exit 0 with `**` raises the glob's `ValueError`); otherwise it returns the newest match |
| Capture.ArchivePatternInvalid | yt_auto_download.py:113 | `Path.glob` refuses the ytarchive glob exactly when the stem holds `**` |
| Capture.ArchiveFindsOwnFile | yt_auto_download.py:113-116 | when the stem holds no `[` and no `**`, the file ytarchive is told to write matches the glob, so writing it and exiting 0 yields a recording |
| Capture.ArchiveAcceptsEarlierRecording | yt_auto_download.py:113-116 | an exit 0 that writes nothing yields an older recording of the same stem (stem without `[` and `**`) |
| Capture.ClassStemMissesOwnFile | yt_auto_download.py:113-116 | a stem without `**` opening with a class that rejects `[` misses its own file, and an exit 0 with only that file raises |
| Capture.ArchiveNoMatch | yt_auto_download.py:113-115 | an exit 0 that leaves no matching entry raises "didn't produce expected file" when the stem holds no `**` |
| Capture.BracketedHostMissesOwnFile | yt_auto_download.py:94-116 | for `https://[::1]:8080/live` ytarchive raises although it exited 0 with its recording written |
| Capture.DoubleStarUrlRaises | yt_auto_download.py:94-116 | for `https://example.com/a**b` the glob matches the recording's name, yet an exit 0 with that file written raises the `ValueError` of `Path.glob` |
| Capture.DoubleStarStemRaises | yt_auto_download.py:113-116 | for every class-free stem holding `**`, the recording's name matches under `fnmatch`, yet an exit 0 with it written raises |
| Capture.DlpOutcomeCases | yt_auto_download.py:126-139 | yt-dlp raises iff it timed out, exited non-zero or its exact output file is missing; otherwise returns that file |
| Capture.NewestEndsWith | yt_auto_download.py:113-116 | whatever the listing, the pick of a pattern ending in literal text ends in it |
| Capture.ArchiveRecordingIsMkv | yt_auto_download.py:113-116 | a recording ytarchive returns ends in `.mkv` |
| Capture.DlpRecordingIsMp4 | yt_auto_download.py:137-139 | a recording yt-dlp returns ends in `.mp4` |
| Job.CaptureStage | yt_auto_download.py:145-149 | defines the capture step: ytarchive, and the fallback line and yt-dlp when it raised |
| Job.CleanupStage | yt_auto_download.py:158-160 | defines the local delete followed by the sweep over the directory it leaves |
| Job.Finish | yt_auto_download.py:161-177 | defines the status step: the record and its file, "Job complete" or "Job failed" and the raise |
| Job.Deliver | yt_auto_download.py:150-177 | defines everything after a recording: retries, then delete, sweep and success status, or the failure status |
| Job.JobSpec | yt_auto_download.py:141-177 | defines the whole job as capture followed by `Deliver` or the failure status |
| Job.RemoveLocal | yt_auto_download.py:75-80 | an existing regular file is removed unless the removal fails; the outcome is logged and never raised |
| Job.WriteStatus | yt_auto_download.py:168-169 | the status file becomes a regular file and the record is written |
| Job.Conclude | yt_auto_download.py:161-177 | success writes `status_<t>.json` then "Job complete"; failure logs "Job failed", writes `status_fail_<t>.json` and raises |
| Job.Record | yt_auto_download.py:145-149 | ytarchive, then the fallback line and yt-dlp exactly when it raised |
| Job.DeleteAndSweep | yt_auto_download.py:158-160 | the local delete, then the sweep over the directory the delete leaves |
| Job.UploadRecording | yt_auto_download.py:150-155 | "Recorded file", then the retries; succeeds iff the last attempt exits 0; the directory is unchanged |
| Job.DeliverRecording | yt_auto_download.py:150-177 | the steps after capture change the directory and log as `Deliver` states |
| Job.DoOne | yt_auto_download.py:141-177 | the whole job changes the directory and log, and returns status and raise, as `JobSpec` states |
| JobOrder.ArchiveLog | yt_auto_download.py:99-109 | ytarchive logs its attempt first, one attempt line |
| JobOrder.FallbackLog | yt_auto_download.py:145-149 | after a fallback the capture log holds one attempt line of each tool |
| JobOrder.CaptureEvents | yt_auto_download.py:145-149 | the capture step starts with ytarchive and logs a yt-dlp attempt iff ytarchive raised |
| JobOrder.FinishEvents | yt_auto_download.py:161-177 | the status step writes one record, of the job's status, uploaded iff not raised |
| JobOrder.UploadEvents | yt_auto_download.py:150-155 | the upload step ends in "Upload OK" when it succeeds |
| JobOrder.CleanupEvents | yt_auto_download.py:158-160 | the cleanup step is the delete then one line per victim, with one delete and no status record |
| JobOrder.SuccessEvents | yt_auto_download.py:155-170 | after a successful upload the rest of the job is ordered, deletes once, and does not raise |
| JobOrder.GaveUpEvents | yt_auto_download.py:155 | after a failed upload there is no delete and no cleanup, and the job raises |
| JobOrder.AfterCaptureEvents | yt_auto_download.py:150-177 | everything after capture is ordered and raises iff there is no recording or the upload failed |
| JobOrder.JobEvents | yt_auto_download.py:141-177 | the job's events are the capture events followed by the rest |
| JobOrder.StepsInOrder | yt_auto_download.py:141-177 | the job's events come phase by phase (capture, record, upload, delete, cleanup, status), ytarchive first |
| JobOrder.FallbackExactlyOnce | yt_auto_download.py:145-149 | ytarchive is attempted once, yt-dlp once iff ytarchive raised and never otherwise |
| JobOrder.DeleteOnlyAfterUpload | yt_auto_download.py:155-160 | one delete iff the upload succeeded, right after "Upload OK"; cleanup only then, after the delete |
| JobOrder.OneStatusRecord | yt_auto_download.py:161-177 | exactly one status record, the job's own, uploaded iff not raised iff the upload succeeded |
| JobEffects.StatusContents | yt_auto_download.py:161-176 | the status file is a regular file with the remote path on success and the exception on failure |
| JobEffects.RecordedIsEntry | yt_auto_download.py:145-149 | a recorded name is an entry of the directory |
| JobEffects.FailureKeepsFiles | yt_auto_download.py:171-177 | a job that raises removes nothing, so the recording stays |
| JobEffects.SuccessRemovesRecording | yt_auto_download.py:158-160 | after a successful upload and delete the recording is gone |
| JobEffects.OwnFileMeansNoFallback | yt_auto_download.py:95-116 | when ytarchive exits 0 having written its own file and the stem holds no `[` and no `**`, yt-dlp is never tried |
| JobEffects.BracketedHostFallsBack | yt_auto_download.py:141-149 | with the default configuration, `https://[::1]:8080/live` falls back to yt-dlp although ytarchive wrote its recording |
| JobEffects.DoubleStarStemFallsBack | yt_auto_download.py:141-149 | for any stem holding `**`, an exit 0 of ytarchive raises at the glob (line 113) whatever it wrote, and yt-dlp is tried exactly once |
| JobEffects.FilesAfterWrite | yt_auto_download.py:168 | writing one file adds at most one regular file |
| JobEffects.SuccessLeavesAtMostOneMore | yt_auto_download.py:158-169 | a successful job without unlink failures leaves at most `keep_n + 1` regular files |

## Left out

- Spawning, killing and timing out processes are not modelled.
  `create_subprocess_shell`, `asyncio.wait_for`, `proc.kill()` and
  `subprocess.run` appear only as their outcomes in `Job.World`: an exit
  status or a kill, plus the entries written.
- `run_process` is not modelled. Nothing calls it.
- The `asyncio.gather` concurrency of `main` is not modelled. That includes
  jobs racing on the shared output directory, and the cancellation of
  sibling jobs when one raises. The model covers one job at a time.
- The commands themselves are not modelled: the rclone, ytarchive and yt-dlp
  command lines, `shlex.quote`, and the text of stderr carried in exceptions.
  A failure keeps its tool and exit status only.
- Log-line formatting and timestamps are not modelled. `log` holds abstract
  events.
- Writing `recording.log` is not modelled. `log()` appends each line to
  `OUTPUT_DIR/recording.log` (yt_auto_download.py:29, 34-39), and so refreshes
  that file's mtime, or re-creates it right after the sweep unlinks it
  (line 87). In the model the file is only an entry that may be among the
  inputs, and the log leaves `entries` unchanged.
- Retention.SweepKeepsNewest, Retention.SweepLeavesAtMost,
  Retention.SweepIdempotent: state the directory as the sweep leaves it
  before any later log line. In the program, a `recording.log` the sweep
  unlinked is back after its next "Cleanup removed" line.
- JobEffects.SuccessLeavesAtMostOneMore: does not count the re-created
  `recording.log`. With `KEEP_LAST_N=0` and the log file among the victims,
  the program leaves it and the status file, `keep_n + 2` regular files.
- The JSON encoding of the status record and `datetime` formatting are not
  modelled. Timestamps are opaque strings from `World`.
- The environment-variable reads are not modelled. They are the `Config`
  parameter, with the defaults of lines 23-25 as `Job.Defaults`.
- `upload_to_drive.py` is not part of this model.
- Glob.Matches: no lemma proves that, once `Glob.Prune` has removed the
  empty ranges, the reversed-range branch of class membership cannot be
  reached.
- Glob.MatchesItself, Glob.MatchesConcat, Glob.StarInfix,
  Glob.LiteralMatchesOnlyItself: hold only for patterns where no class can
  open (no `[`), because under `fnmatch` a class does not match its own
  text.
- Capture.ArchiveFindsOwnFile, Capture.ArchiveAcceptsEarlierRecording,
  JobEffects.OwnFileMeansNoFallback: are stated for URLs whose stem holds no
  `[` and no `**`. A URL with `[` can make the glob reject ytarchive's own
  file (`Capture.BracketedHostMissesOwnFile`), and one with `**` makes
  `Path.glob` raise (`Capture.DoubleStarUrlRaises`).
- `Path.glob` is modelled as in Python 3.9 to 3.12; how other versions
  treat a `**` inside a component is not modelled.
- Names.JoinPath: takes the directory as the text of a `Path`; the
  normalisation `Path` applies to the configured text (such as dropping a
  leading `./` or doubled `/`) is not modelled.
- I/O errors of `iterdir`, `stat`, the status `open` and `json.dump` are not
  modelled, nor an `os.remove` that raises something other than a plain
  failure.
- Undecodable bytes in the URL file are not modelled. The file text is a
  string, and Unicode decoding is not modelled.
- The exit code of `sys.exit(1)` is not modelled. It appears as
  `UrlsFileMissing`.
