# Draxon downloader core in Dafny

This project models the deterministic core of the Draxon video downloader,
a front end for the yt-dlp engine. Draxon has a command-line and Rich-console
program (`draxon.py`), a terminal UI package (`draxon/core`), and small
helper scripts (`daxon.py`, `yt_subs.py`, `core/models.py`). The engine, the
UI, the files and the clock are left out. What remains is written as Dafny
functions, methods and classes, and its promises are proved.

| file | module | what it models |
|---|---|---|
| common.dfy | Common | Python string helpers: `strip`, `rstrip`, `split`, `find`, `lower`/`upper`, decimal text and zero padding |
| pyvalue.dfy | PyValue | JSON-like values, and insertion-ordered dicts with `get`, `d[k] = v` and `update` |
| dedup.dfy | Dedup | "keep the first element of each key", which is the `seen`-set loop used throughout |
| ranking.dfy | Ranking | `sorted(..., reverse=True)` as a stable insertion sort on `(int, float)` keys |
| urls.dfy | Urls | `URL_PATTERN`, `parse_urls_from_text` (a loop with a `seen` set) and `is_valid_url` |
| url_spec.dfy | UrlSpec | `parse_url_spec` (a loop filling the overrides dict), the editor line and its re-parse, and the token loop |
| rate_limit.dfy | RateLimit | `parse_rate_limit_to_int` |
| config.dfy | Config | `load_config`, the active profile merge, path joining, and the command-line flags written into the active configuration |
| jobs.dfy | Jobs | the job-construction loop, `build_ydl_opts_from_job`, and the final per-job options |
| manager.dfy | Manager | `DownloadManager`: `_build_opts`, the `_progress_hook` bookkeeping, `_run_single`, and the sequential `download` loop with the shutdown event |
| formats.dfy | Formats | `_format_filesize` and `parse_formats` (the sort, the classification, the `seen` sets, and the fallbacks) |
| history.dfy | History | `HistoryManager` with the history file as a field |
| settings.dfy | Settings | `SettingsManager` with the settings file as a field |
| daxon.dfy | Daxon | the list-building part of `select_resolution`, and `TqdmProgressHook` over a counter class |
| yt_subs.dfy | YtSubs | `extract_video_id`, `save_as_srt` and its `fmt` timestamp |
| models.dfy | Models | `VideoFormat.get_display_label` |

Functions are specifications. Where the source works by a loop, the model
has a method with a `while`/`for` loop. That method is proved equal to the
specification function, and the promises are proved as lemmas about the
function. Python dicts are sequences of entries with unique keys in
insertion order. Assigning an existing key keeps its place. A Python
exception is a `None` (or a `raised` flag) in the model.

## Model

| member | source | states |
|---|---|---|
| Common.Strip | draxon.py:109 | `str.strip()` leaves no Python whitespace at either end, and the result is a piece of the input |
| Common.StripTrims | draxon.py:109 | `str.strip()` drops exactly the leading and trailing whitespace: the result sits in the input with only whitespace around it, and it is empty exactly when the input is all whitespace |
| Common.SplitFirst | draxon.py:138 | `split(sep, 1)`: without a separator the whole text and no rest; otherwise text = head + sep + rest, with no separator starting inside the head |
| Common.SplitJoin | draxon.py:144 | splitting a join of pieces that contain no separator gives the pieces back |
| Common.PadNat | yt_subs.py:59 | `{n:0wd}` is all digits and at least w long |
| Common.PadNatValue | yt_subs.py:59 | the zero-padded text reads back as n |
| Common.PadNatExact | yt_subs.py:59 | a number below 10^w is padded to exactly w digits |
| Common.NatToStringValue | daxon.py:38 | `str(n)` reads back as n |
| PyValue.Set | draxon/core/settings.py:34 | after `d[k] = v`, key k gives v and every other key gives what it gave before |
| PyValue.SetKeys | draxon/core/settings.py:34 | assigning keeps the key order and appends a new key at the end |
| PyValue.Update | draxon/core/settings.py:21 | after `d.update(e)`, a key of e gives e's value (its last one) and every other key gives d's |
| PyValue.SetFresh | draxon/core/settings.py:34 | assigning an absent key appends the entry |
| Dedup.FirstByKeySnoc | draxon/core/formats.py:46-50 | one turn of a `seen` loop: the element is kept exactly when its key was not seen |
| Dedup.FirstByKeyKeys | draxon/core/formats.py:46-50 | the kept elements have the same set of keys as the input |
| Dedup.FirstByKeyDistinct | draxon/core/formats.py:46-50 | no two kept elements share a key |
| Dedup.FirstByKeyFirst | draxon.py:108-112 | each kept element is the first input element with its key |
| Dedup.FirstByKeyOrder | draxon.py:108-112 | the kept elements come in the order in which their keys first appear |
| Dedup.FirstByKeyOrigin | daxon.py:38-40 | each kept element is the first of the input with its key |
| Dedup.FirstByKeyCovers | daxon.py:38-40 | every input key is the key of a kept element |
| Dedup.SelectMembers | draxon/core/formats.py:34-37 | an element is kept by the filter exactly when it is in the input and passes |
| Ranking.SortDescSpec | draxon/core/formats.py:28-32 | `sorted(..., reverse=True)` is non-increasing, is a permutation, and keeps input order among equal keys (stable) |
| Ranking.InsertDescSorted | draxon/core/formats.py:28-32 | inserting into a sorted list keeps it sorted |
| Ranking.InsertDescPerm | draxon/core/formats.py:28-32 | inserting adds exactly the one element |
| Urls.UrlRun | draxon.py:62 | the run after the scheme is as long as possible: all URL characters, stopped by one that is not |
| Urls.MatchShape | draxon.py:62 | a match of `https?://[^\s'"<>]+` (any letter case) is a scheme followed by at least one URL character |
| Urls.FoundShape | draxon.py:105 | every element of `findall` is such a match |
| Urls.CleanShape | draxon.py:109 | stripping and removing trailing `).,;?!"'` keeps the scheme and leaves no forbidden character and no trailing punctuation |
| Urls.ScanStep | draxon.py:108-112 | one loop turn appends the cleaned match exactly when it is non-empty and unseen |
| Urls.UrlsInShape | draxon.py:104-113 | the extracted URLs are distinct and each is well formed |
| Urls.ParseUrlsFromText | draxon.py:104-113 | the loop returns the first occurrence of each cleaned match, in order, with no duplicates, each starting with http:// or https:// in any case |
| Urls.ExtractedValidIffLowerScheme | draxon.py:115-116 | an extracted URL passes `is_valid_url` exactly when its scheme is written in lower case |
| UrlSpec.BareEntry | draxon.py:151-161 | a bare word is a boolean override: a word that is not one of the eight keywords (any case) is `True` under its own name; a keyword sets `audio` or `playlist`, the only keys that can be `False` |
| UrlSpec.ItemEntryShape | draxon.py:144-161 | an item is skipped exactly when blank after stripping; it gives a text value exactly when it contains `=` |
| UrlSpec.ApplyItemsStep | draxon.py:144-161 | one turn of the item loop assigns that item's entry |
| UrlSpec.ParseUrlSpec | draxon.py:137-162 | the URL is the stripped text before the first `||`; the overrides come from the text after it, and are empty when there is no `||` or only blanks follow it |
| UrlSpec.ParseOverrides | draxon.py:141-161 | without `||` the overrides are empty; otherwise they are read from the stripped text after it, and a blank text gives none |
| UrlSpec.FillOverrides | draxon.py:144-161 | the item loop assigns the non-blank items in order, `k=v` as stripped text and a bare word as its flag, giving the same dict as the ordered fold over the items |
| UrlSpec.NoSeparatorNoOverrides | draxon.py:138-141 | a token without `||` is the stripped URL with no overrides |
| UrlSpec.ApplyItemsGet | draxon.py:144-161 | the value under a key is the one written by the last item naming it |
| UrlSpec.KeywordAnyCase | draxon.py:152-159 | keywords are recognised in any letter case |
| UrlSpec.ParseSpecShape | draxon.py:137-162 | the URL is stripped and holds no `||`; every override is of the form the editor line can write |
| UrlSpec.ItemTextReadsBack | draxon.py:448 | the editor text of one override (`k=v`, `k` or `no-k`) parses back to that override |
| UrlSpec.OverridesReadBack | draxon.py:448 | the comma-joined override texts parse back to the whole overrides dict, order included |
| UrlSpec.EditorLineReadsBack | draxon.py:448-457 | a valid URL not ending in `\|` and its overrides survive the editor line and its re-parse |
| UrlSpec.EditorRoundTripAsWritten | draxon.py:448-457 | what `parse_url_spec` returns for such a URL re-parses to itself |
| UrlSpec.EditorLineLosesTrailingBar | draxon.py:448 | `parse_url_spec` keeps a URL ending in `\|` when a space precedes `\|\|`, but its editor line re-parses as the URL without the `\|` and an override `\|audio` |
| UrlSpec.EditorLineSpacedReadsBack | draxon.py:448-457 | with a space before `\|\|`, every reparsable pair survives |
| UrlSpec.EditorRoundTrip | draxon.py:448-457 | with that line, every result of `parse_url_spec` with a valid URL re-parses to itself |
| UrlSpec.ResolveOne | draxon.py:425-436 | a blank token gives nothing; a valid spec URL is kept with its overrides; otherwise the first URL found in the token, or nothing |
| UrlSpec.ResolveTokens | draxon.py:424-436 | the token loop keeps the non-blank tokens in order, taking the first extracted URL when the spec's URL is not valid and skipping the token when there is none |
| UrlSpec.ResolvedUrls | draxon.py:424-436 | every resolved URL is valid or a well-formed extracted URL |
| RateLimit.UnitSuffix | draxon.py:518-529 | a trailing K, M or G is the unit, with multipliers 1024, 1024², 1024³; no unit is 1 |
| RateLimit.RateOfWhole | draxon.py:518-530 | digits followed by a unit give the number times the multiplier |
| RateLimit.RateOfDecimal | draxon.py:518-530 | `w.f` (f written with k digits) followed by a unit gives the floor of w.f times the multiplier |
| RateLimit.ParseRateText | draxon.py:514-517 | a non-empty text is matched after strip and upper-case |
| RateLimit.RateTrimmedAnyCase | draxon.py:517 | surrounding whitespace and letter case do not change the result |
| RateLimit.RateRejectsOtherChars | draxon.py:518-520 | a character other than a digit, `.` or a final unit letter gives None |
| RateLimit.RateNeedsLeadingDigit | draxon.py:518-520 | a text that does not start with a digit gives None |
| RateLimit.RateRejected | draxon.py:517-520 | a stripped text not starting with a digit gives None |
| RateLimit.RateExamples | draxon.py:514-530 | "500K" is 512000, "1M" is 1048576, "2" is 2 |
| RateLimit.RateFalsy | draxon.py:515-516 | "", None and every falsy value give None |
| Config.PathJoinRelative | draxon.py:479 | a relative template is joined under the output directory |
| Config.PathJoinAbsolute | draxon.py:494 | an absolute template is kept as it is |
| Config.LoadOverSpec | draxon.py:64-75 | the loaded configuration always has a `profiles` dict; the file's keys beat the defaults key by key |
| Config.LoadConfigSpec | draxon.py:64-75 | the same over `DEFAULT_CONFIG` |
| Config.DefaultProfilesAt | draxon.py:54-56 | the default `profiles` is `{"default": {}}` |
| Config.LoadConfigFallback | draxon.py:72-75 | a missing or unusable file gives exactly the defaults |
| Config.ActivePrecedence | draxon.py:329-331 | a profile key beats the configuration, which beats `DEFAULT_CONFIG` |
| Config.ActiveOverProfiles | draxon.py:306 | the merge fails only when the named profile is not a dict; an unknown profile adds nothing |
| Config.ActiveOfLoaded | draxon.py:306 | the same for a loaded configuration |
| Config.SetFlag | draxon.py:596-607 | a text flag that was given and is not empty overwrites its key; nothing else changes |
| Config.TextFlagsGet | draxon.py:596-607 | each key holds its flag's text when that flag was given, and its old value otherwise |
| Config.ApplyCliSpec | draxon.py:596-612 | the same, with `--parallel` and `--audio` added |
| Jobs.LangsShape | draxon.py:481 | each language is non-empty, stripped and free of `,` |
| Jobs.LangsOfJoin | draxon.py:481 | a comma-joined list of such languages splits back into itself |
| Jobs.WithLangs | draxon.py:480-485 | only the three subtitle keys are written |
| Jobs.SetIf | draxon.py:470-477 | a conditional assignment changes only its key |
| Jobs.ProfileHeadGet | draxon.py:470-477 | format, proxy and rate text are copied when truthy; continuedl is the truthiness of resume_download when it is not None |
| Jobs.ProfileJobGet | draxon.py:469-486 | the job from the active configuration exists unless the output path raises; each key holds what the configuration gives |
| Jobs.ApplyAllSome | draxon.py:488-502 | the overrides apply exactly when each can be stored |
| Jobs.ApplyAllGet | draxon.py:488-502 | the last override stored at a key beats the job's own value |
| Jobs.ApplyAllStep | draxon.py:488-502 | one turn of the override loop |
| Jobs.OuttmplTarget | draxon.py:493-494 | an `outtmpl` override is joined under the output directory unless it is absolute |
| Jobs.JobForSome | draxon.py:467-507 | a job is built exactly when its output path and all its overrides can be stored |
| Jobs.JobForGet | draxon.py:467-507 | a per-URL override beats the profile-derived value; keys with no override keep it; unknown keys pass through |
| Jobs.AudioFlagPrecedence | draxon.py:489-505 | the audio flag is the URL's audio override if any, else True when `prefer_audio` is truthy, else absent |
| Jobs.StartJob | draxon.py:469-486 | the assignments from the active configuration, one at a time |
| Jobs.StartHead | draxon.py:470-477 | the format, proxy and rate assignments happen only for truthy values, continuedl only when resume_download is not None |
| Jobs.AddLangs | draxon.py:480-485 | the three subtitle keys are assigned exactly when the configuration names at least one non-blank language |
| Jobs.ApplyOverrides | draxon.py:488-502 | the override loop, one entry at a time |
| Jobs.BuildJob | draxon.py:468-507 | one URL's job |
| Jobs.JobsForSpec | draxon.py:467-507 | the job list has one job per URL, in order, each the job of that URL |
| Jobs.BuildJobs | draxon.py:467-507 | the loop over the URLs builds that list |
| Jobs.WithProxy | draxon.py:542-545 | the proxy key is written only when a proxy is chosen |
| Jobs.WithRate | draxon.py:546-549 | `ratelimit` is present only when the parsed rate is not None and not zero |
| Jobs.WithSubtitles | draxon.py:550-560 | the three subtitle keys are written together or not at all |
| Jobs.WithAudio | draxon.py:561-567 | the audio flag forces `bestaudio/best` and the mp3 extraction step |
| Jobs.OptsOfGet | draxon.py:532-568 | each of the ten option keys holds what the choices give |
| Jobs.OptsOfOthers | draxon.py:532-568 | no other key is written |
| Jobs.YdlOptsSome | draxon.py:534 | the options exist unless the output path raises |
| Jobs.YdlOptsFormat | draxon.py:536-539 | the format is the job's when truthy, else the base's (default "best"), unless the audio flag forces `bestaudio/best` with the mp3 step |
| Jobs.BaseSubtitles | draxon.py:555-560 | without job languages, the base's languages are split and written with "srt" |
| Jobs.CliAudio | draxon.py:616-617 | `--audio` touches no key of the job but the audio flag |
| Jobs.CliAudioExtracts | draxon.py:614-619 | such a job, or one with the flag set, gets `bestaudio/best` and the mp3 step |
| Jobs.FinalsForSpec | draxon.py:614-619 | one options dict per job, in order |
| Jobs.FinalJobs | draxon.py:614-619 | the loop over the jobs builds them |
| Jobs.FinalFormat | draxon.py:470-471 | a job with no format or audio override and no `prefer_audio` keeps the profile's truthy format, whatever the base says |
| Jobs.CliFormatIgnored | draxon.py:600-601 | `--format f` is ignored when the profile has a truthy, different format |
| Jobs.CliFormatHonoured | draxon.py:600-601 | with the flags written before the jobs are built, `--format f` is the format |
| Manager.ShutdownEvent.Signal | draxon.py:167-168 | the signal handler sets the event |
| Manager.OtherHooks | draxon.py:236 | the hooks other than the manager's own, in order |
| Manager.OtherHooksKeep | draxon.py:236 | a list without the manager's hook is kept |
| Manager.BuildOptsSome | draxon.py:232-235 | `_build_opts` raises only when `progress_hooks` is not iterable |
| Manager.BuildOptsKeys | draxon.py:233-234 | every other key is the extra's value if given, else the base's |
| Manager.BuildOptsHooks | draxon.py:235-238 | the hooks end with the manager's hook, hold it once, and keep every other hook |
| Manager.BuildOptsIdempotent | draxon.py:232-239 | building from built options changes nothing |
| Manager.HookKeyTruthy | draxon.py:199 | the task key is never falsy |
| Manager.HookBookValid | draxon.py:200-230 | task ids stay distinct and below the next id |
| Manager.HookBookFiles | draxon.py:202-219 | a downloading or finished report files its key under a fresh task when it has none, and leaves other keys alone |
| Manager.HookBookFinished | draxon.py:216-222 | a finished report stops its task |
| Manager.HookBookError | draxon.py:225-230 | an error report stops the task, except task 0, which is falsy |
| Manager.RunsInOrder | draxon.py:270-273 | jobs reach the engine in input order, each with its built options |
| Manager.ReachedProceeds | draxon.py:270-273 | every job counted as reached passed both shutdown checks |
| Manager.NoStartAfterShutdown | draxon.py:242-243 | once the event is set, no later job reaches the engine |
| Manager.AllJobsRun | draxon.py:244-249 | without a shutdown and without a raising `_build_opts`, every job runs, failures included |
| Manager.FailedUrls | draxon.py:248-249 | a failed job is logged with its URL and the loop goes on |
| Manager.DownloadManager.constructor | draxon.py:178-192 | an empty task map and no runs |
| Manager.DownloadManager.ProgressHook | draxon.py:194-230 | after a shutdown nothing changes; otherwise the task bookkeeping moves as HookBook says, or the call raises when the key cannot be hashed |
| Manager.DownloadManager.RunSingle | draxon.py:241-249 | the engine is called exactly when the event is not set; a failure is logged |
| Manager.DownloadManager.DownloadStep | draxon.py:270-273 | one turn of the sequential loop |
| Manager.DownloadManager.DownloadSequential | draxon.py:268-273 | the runs and the errors are those of the jobs reached before the shutdown |
| Formats.RoundHalfEven | draxon/core/formats.py:14 | `%.2f` rounds to the nearest hundredth, ties to even |
| Formats.FormatFilesize | draxon/core/formats.py:8-18 | None is "N/A"; below 1024 it is "{b} B"; otherwise it ends in KiB, MiB or GiB |
| Formats.ScaleRange | draxon/core/formats.py:13-18 | KiB below 1024², MiB below 1024³, GiB otherwise |
| Formats.Fixed2ReadsBack | draxon/core/formats.py:14-18 | the two-decimal text reads back as its hundredths |
| Formats.FilesizeReadsBack | draxon/core/formats.py:13-18 | the number before the unit is b / 1024^k to the nearest hundredth |
| Formats.FilesizeExample | draxon/core/formats.py:13-14 | 1536 bytes are "1.50 KiB" |
| Formats.FilesizeRoundsUp | draxon/core/formats.py:13-14 | 1048575 bytes are "1024.00 KiB" |
| Formats.KindOf | draxon/core/formats.py:42-62 | both codecs present is muxed, only video is video-only, only audio is audio, neither is dropped; a missing codec counts as present |
| Formats.TruncReal | draxon/core/formats.py:65 | `int(abr)` truncates toward zero |
| Formats.SizeOf | draxon/core/formats.py:39 | filesize, or filesize_approx when filesize is missing or zero |
| Formats.KeptStep | draxon/core/formats.py:34-70 | one turn of the loop over the sorted formats |
| Formats.VisitFormat | draxon/core/formats.py:34-70 | the loop body updates each list and its seen set as the specification says |
| Formats.VisitedStep | draxon/core/formats.py:34-70 | the loop invariant is kept by one more descriptor |
| Formats.ParseFormats | draxon/core/formats.py:20-80 | the loop returns the specified video and audio lists |
| Formats.RankedPerm | draxon/core/formats.py:28-32 | the ranked input is sorted by (height or 0, tbr or abr or 0), descending, and is a permutation |
| Formats.KeptEmpty | draxon/core/formats.py:72-78 | nothing is kept exactly when no descriptor qualifies |
| Formats.KeptFromInput | draxon/core/formats.py:35-70 | each kept descriptor is from the input and qualifies; no two share a label |
| Formats.KeptCovers | draxon/core/formats.py:45-70 | every qualifying descriptor's label is the label of a kept one |
| Formats.KeptSorted | draxon/core/formats.py:28-34 | the kept descriptors are in descending rank |
| Formats.KeptBest | draxon/core/formats.py:28-50 | each kept descriptor ranks at least as high as every qualifying descriptor with its label |
| Formats.VideoFallback | draxon/core/formats.py:77-78 | the video list is never empty, and is "Best Video" alone exactly when nothing qualified |
| Formats.AudioFallback | draxon/core/formats.py:72-75 | "Best Audio" exactly when nothing qualified and audio_ext is not "none"; empty when nothing qualified and it is |
| Formats.VideoEntries | draxon/core/formats.py:42-61 | each video choice is made from a kept, qualifying input descriptor, with its id and "{label} - {size}" |
| Formats.AudioEntries | draxon/core/formats.py:62-70 | the same for the audio choices |
| History.IndexOf | draxon/core/history.py:27 | the position of the first occurrence |
| History.RemoveFirst | draxon/core/history.py:27 | `remove` drops one element |
| History.SlicePrefix | draxon/core/history.py:29 | `h[:n]`, a negative n counting from the end |
| History.Added | draxon/core/history.py:24-29 | at most max_size entries; the url first when max_size is positive |
| History.HistoryManager.constructor | draxon/core/history.py:6-9 | the file and max_size as given |
| History.HistoryManager.WithDefaultSize | draxon/core/history.py:6-8 | max_size defaults to 10 |
| History.HistoryManager.Load | draxon/core/history.py:11-18 | the file's list, or [] when there is none |
| History.HistoryManager.Add | draxon/core/history.py:24-29 | the file now holds the loaded list with the url moved to the front, cut to max_size |
| History.AddedOrder | draxon/core/history.py:26-29 | the url first, then the other entries in their old order, the tail beyond max_size dropped |
| History.AddedNoDuplicates | draxon/core/history.py:26-28 | a list without duplicates stays without duplicates |
| History.AddedFromLoaded | draxon/core/history.py:24-29 | every saved entry is the url or came from the loaded list |
| History.AddedIdempotent | draxon/core/history.py:24-29 | with a non-negative max_size, adding the same url twice saves what adding it once saves |
| History.AddedNegativeShrinks | draxon/core/history.py:29 | with max_size -1 each add cuts the last entry, so adding twice to a one-entry history empties it |
| Settings.SettingsManager.constructor | draxon/core/settings.py:6-9 | the settings are what `_load` gives |
| Settings.SettingsManager.Get | draxon/core/settings.py:30-31 | None exactly for an absent key, else the stored value |
| Settings.SettingsManager.Set | draxon/core/settings.py:33-35 | the key is assigned and the whole dict is saved |
| Settings.LoadMerges | draxon/core/settings.py:14-22 | download_path is always the first key; the user's file overrides the defaults key by key |
| Settings.LoadFallsBack | draxon/core/settings.py:16-24 | a missing or malformed file leaves exactly the defaults, with `~/Downloads` |
| Settings.SetThenGet | draxon/core/settings.py:33-34 | after set(k, v), get(k) is v; other keys are unchanged; download_path stays first |
| Settings.SaveLoadRoundTrip | draxon/core/settings.py:18-28 | what set saves loads back unchanged, order included |
| Daxon.ParseIntRoundTrip | daxon.py:42 | `int(str(h)) == h` |
| Daxon.CandidateHeightOf | daxon.py:38-42 | the sort key reads back the height the resolution was made from |
| Daxon.Offer | daxon.py:34-40 | one loop turn extends the list to the candidates of the descriptors seen so far; it raises only when a kept descriptor lacks format_id |
| Daxon.BuildCandidates | daxon.py:31-42 | raises exactly when a kept descriptor lacks format_id; otherwise the sorted candidates |
| Daxon.FirstsOffered | daxon.py:34-40 | each appended candidate is made from the first qualifying descriptor with its resolution |
| Daxon.CandidatesFirst | daxon.py:35-42 | the same after the sort |
| Daxon.CandidatesDistinct | daxon.py:39-40 | no resolution is offered twice |
| Daxon.CandidatesCover | daxon.py:35-40 | every qualifying descriptor's resolution is offered |
| Daxon.RankedCandidates | daxon.py:42 | the sort is a permutation, in descending order |
| Daxon.CandidatesSorted | daxon.py:42 | the candidates are in descending height |
| Daxon.CandidatesHeights | daxon.py:36-42 | the sort key of a candidate is its descriptor's height |
| Daxon.NoCandidates | daxon.py:44-46 | the list is empty exactly when no descriptor qualifies, and then nothing raises |
| Daxon.Hook | daxon.py:9-18 | a sized downloading report sets total and moves an open bar's n to downloaded_bytes, while a closed bar keeps n; an unsized one changes nothing; finished sets total to n if it was None, then closes; a report without status, or a sized one without downloaded_bytes, raises |
| Daxon.Counter.Update | daxon.py:14 | `update(k)` advances n by k on an open bar and does nothing on a closed one |
| Daxon.Counter.Close | daxon.py:18 | the bar is closed |
| Daxon.ProgressHook.Call | daxon.py:9-18 | the counter moves as Hook says, a closed one not at all, and the call raises as Hook says |
| Daxon.RunRaises | daxon.py:9-18 | a run of reports raises exactly when one of them would |
| Daxon.RunTracks | daxon.py:10-18 | without a raise, an open bar's n is the downloaded_bytes of the last sized report before the first finished one, and a closed bar's n does not move; after a finished report the bar is closed with a total |
| Daxon.ClosedBarStays | daxon.py:12-18 | a finished report followed by a sized one (a playlist's next item) leaves n at 0 and sets the total to 100 |
| YtSubs.IdRun | yt_subs.py:31-45 | the greedy run of id characters: all of them, stopped by one that is not |
| YtSubs.FirstMarked | yt_subs.py:31-41 | the leftmost position where the marker and 10 or more id characters match |
| YtSubs.Capture | yt_subs.py:31-41 | None exactly when the marker never matches; otherwise the whole run after the leftmost match |
| YtSubs.FirstTrail | yt_subs.py:43-45 | the leftmost `/` followed by an id that ends the text |
| YtSubs.TrailingId | yt_subs.py:43-45 | None exactly when no `/ID` ends the text; otherwise that id |
| YtSubs.ExtractVideoId | yt_subs.py:25-46 | a bare id is returned stripped; any result is 10 or more id characters found in the stripped text; the error exactly when no pattern matches |
| YtSubs.CaptureShape | yt_subs.py:31-41 | a capture is 10 or more id characters found in the text |
| YtSubs.TrailingShape | yt_subs.py:43-45 | the same for the trailing id |
| YtSubs.TimeFields | yt_subs.py:55-58 | minutes and seconds below 60, milliseconds below 1000, recombining to the time |
| YtSubs.StampReadsBack | yt_subs.py:59 | the fields laid out as `H:MM:SS,mmm` read back |
| YtSubs.FmtReadsBack | yt_subs.py:54-59 | the timestamp reads back as the same time |
| YtSubs.FmtNoNewline | yt_subs.py:54-59 | the timestamp holds no line break |
| YtSubs.SaveAsSrt | yt_subs.py:48-60 | the loop writes the cues numbered from 1, in transcript order |
| YtSubs.NumberedAppend | yt_subs.py:50 | numbering a + b is numbering a, then b from where a stops |
| YtSubs.NumberedAt | yt_subs.py:50 | entry k gets number first + k, between the entries before and after it |
| YtSubs.SrtAt | yt_subs.py:50-60 | segment k gets cue number k + 1 |
| YtSubs.BlockLines | yt_subs.py:60 | a cue's first two lines are its number and its times |
| YtSubs.CueLines | yt_subs.py:60 | the segment's cue starts with its number line and then its times line |
| YtSubs.CueReadsBack | yt_subs.py:51-54 | the number reads back; the times read back as start and start + duration |
| Models.GetDisplayLabel | core/models.py:19-24 | the label has no whitespace at either end and is a piece of the formatted text |
| Models.SummaryStripped | core/models.py:24 | a summary whose resolution does not start with whitespace has none at either end |
| Models.MergedLabel | core/models.py:20-24 | a merged format's label does not depend on FFmpeg, and is exactly "{res} @ {fps}fps ({size_mb})" |
| Models.UnmergedLabel | core/models.py:21-24 | otherwise the label ends with the FFmpeg note ("(требуется FFmpeg)" or the red "not found"), after the summary and a space |

## Left out

- The yt-dlp engine: every `YoutubeDL` call is a success or failure outcome given as a parameter.
- The transcript and Whisper APIs and the audio download in `yt_subs.py`: foreign services.
- The Rich and Textual UI, prompts, the editor session and printing: interaction, not logic. The editor line is modelled.
- `daxon.py`'s interactive choice loop (lines 48-59) and its download functions: input and engine calls.
- tqdm's rendering: the counter is a class with n, total and closed; `update()` on a closed (disabled) bar does nothing, and that is modelled.
- The parallel branch of `DownloadManager.download`, the thread pool and the task lock: concurrency.
- Signal handlers: a shutdown arrives before one of the flag checks, which is a parameter.
- Files, stdin, the Termux clipboard and the environment. The history, settings and configuration files are fields or values.
- JSON encoding and decoding. A decoded file without floats is a value; a file that is not JSON is its own case.
- PyValue.Value: JSON floats are not modelled. A configuration, settings or history file holding one, such as `"rate_limit": 1.5` (which the program reads through `str(1.5)` as a rate of 1), has no value in the model.
- `pathlib` normalisation of `//` and `.` in joined paths: an absolute path is one starting with `/`.
- Unicode digits and letters: `\d` and `int()` read ASCII digits only.
- `str()` of lists and dicts: the configuration's `subtitles_languages`, `output_dir` and `output_template` are required to be scalars.
- `int(float("inf"))` and other float corner cases of `parse_rate_limit_to_int`.
- RateLimit.RateOfDecimal: the exact floor of w.f times the multiplier, where the source truncates a float product and can differ for long fractions.
- Formats.FormatFilesize: `%.2f` is the exact decimal rounding of b / 1024^k, which equals the float result for sizes below 2^53.
- Formats.RankOf: tbr and abr are reals, not floats; a `height: None` in the sort key (a TypeError) and an explicit None tbr or abr are not modelled.
- YtSubs.Fmt: times are whole, non-negative milliseconds; the source's float seconds and negative times are not modelled.
- Daxon.CandidateHeight: a float height (`int("720.0p"[:-1])` raising in the sort key) is not modelled; Daxon.BuildCandidates inherits this.
- The editor file itself: the `"\n".join`, `splitlines()` and `rstrip()` around the edited lines (draxon.py:122,131) are not modelled. A URL or override holding a line break that `splitlines()` recognises would come back as several lines, and the round-trip lemmas cover only the line and its re-parse.
- A fallback URL taken from a token with `||` (draxon.py:430-432) can contain `||` and then does not survive the editor line: such pairs are outside the round-trip lemmas.
- The `--playlist` flag is parsed but nothing in the core reads it.
- `build_ydl_opts_from_job` is modelled by the function Jobs.YdlOpts; it has no loop to model as a method.
- Settings.SettingsManager.constructor: a file whose JSON is not an object makes `_load` raise, so it requires that `Load` succeeds.
- History.HistoryManager.Load: a file holding JSON that is not a list is not modelled.
- `dict.update` with a list of pairs: a decoded file that is not an object is treated as raising.

## Findings

| source | as written | input that shows it | evidently intended | confidence | as-written member | corrected member |
|---|---|---|---|---|---|---|
| draxon.py:448 | the editor line is `u + "\|\|" + items`, and re-parsing splits at the first `\|\|` | URL `http://x\|` with `{audio: True}`: the line `http://x\|\|\|audio` re-parses as `http://x` with `{"\|audio": True}` | the edited pair is the pair shown | not executed | UrlSpec.EditorLineLosesTrailingBar | UrlSpec.EditorRoundTrip |
| draxon.py:596-619 | CLI flags are written into the active configuration after the jobs were built (lines 467-507), and the job's format beats the configuration's | `--format worst` with a profile format `best`: the job still downloads `best` | `--format` overrides the video format, as its help text says | not executed | Jobs.CliFormatIgnored | Jobs.CliFormatHonoured |
