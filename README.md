# Screening assessment platform: a Dafny model of its decision logic

The platform lets recruiters build screening tests (writing tasks, intelligence and
personality questions, recordings), send candidates unique test links, and review,
score and export the submissions; administrators manage the question bank and the
recruiters. Around the database and storage plumbing lies a layer of deterministic
decisions, and this project models that layer and proves what it promises:

- the security library: the fixed-window rate limiter and its key hash, the retry
  and chunking upload helpers, session expiry, the input sanitisers and the UUID
  check, the request schemas, the anti-cheat detectors, the S3 key extraction and
  the API guard chains;
- the question bank: the question form's validation, the pagination of the
  question list, and the question table's cells;
- the dashboards: the recruiter's filter pipeline and Kanban board, and the admin
  submission and recruiter lists with their totals;
- the small state machines and path rules of the interface: keyboard navigation
  and the focus trap, the onboarding and tooltip tours, the request guard, the
  sidebars' highlighted item, and the recording upload endpoint.

Each source file of that layer is one module, in a file of the same name.
`text.dfy` (module `Text`) holds the string helpers they share: JavaScript's
`trim`, `toLowerCase`, `includes`, `split`, `join` and number printing.
`lists.dfy` (module `Lists`) holds order-preserving filtering. The clock, the
database lookups, the random roll and the browser's state are parameters.
Objects whose fields the source updates in place are classes: the rate limiter's
table, the detectors' refs and counters, the question form, the add-recruiter
dialog, the tours. Every such class's methods are tied by their `ensures` to a
function on the old state, and the properties are proved about those functions.

## Model

| member | source | states |
|---|---|---|
| RateLimit.StoreKeyInjective | src/lib/security/rate-limit.ts:47 | two callers share a table key only when both the identifier and the window length agree; `maxRequests` is not part of the key |
| RateLimit.Check | src/lib/security/rate-limit.ts:54-89 | a call is refused exactly when its counter is still open (`now <= resetTime`) and at `maxRequests`; a refusal leaves the table as it was and answers remaining 0, the old `resetTime` and the "Rate limit exceeded" message; an admission stores a fresh entry (count 1, `resetTime = now + windowSeconds*1000`) when there is none or it has closed, else raises the open count by exactly one, touches no other key, and answers `maxRequests - count` |
| RateLimit.Unexpired | src/lib/security/rate-limit.ts:95-106 | keeps exactly the entries with `now <= resetTime`, unchanged |
| RateLimit.RateLimiter.constructor | src/lib/security/rate-limit.ts:12 | the table starts empty |
| RateLimit.RateLimiter.CheckRateLimit | src/lib/security/rate-limit.ts:42-90 | the new table and the answer are those of `Check` on the table after the optional cleanup |
| RateLimit.RateLimiter.CleanupExpiredEntries | src/lib/security/rate-limit.ts:95-106 | after collecting and deleting the closed keys the table is `Unexpired` of the old one: exactly the closed entries are gone, the rest unchanged |
| RateLimit.OpenWindowRun | src/lib/security/rate-limit.ts:71-89 | while a counter stands at `c` and its window stays open, the `i`-th further call is admitted exactly when `c + i < maxRequests` |
| RateLimit.WindowAdmitsExactly | src/test/security/rate-limit.test.ts:26-72 | in a window that starts fresh, exactly the first `max(1, maxRequests)` calls are admitted and every later call in the window is refused |
| RateLimit.ExpiredWindowReopens | src/lib/security/rate-limit.ts:57-69 | once `now > resetTime` the call is admitted with `remaining = maxRequests - 1` and a new `resetTime` |
| RateLimit.CountersAreIndependent | src/lib/security/rate-limit.ts:47-89 | a call for one identifier (or one window length) never creates, changes or removes the counter of another |
| RateLimit.CountStaysWithinLimit | src/lib/security/rate-limit.ts:57-89 | with `maxRequests >= 1` an open counter stays within 1..maxRequests and `remaining` within 0..maxRequests-1 |
| RateLimit.ToInt32 | src/lib/security/rate-limit.ts:137 | the result is in the signed 32-bit range, congruent to the input modulo 2^32, and equal to it when it is already in range |
| RateLimit.HashCode | src/lib/security/rate-limit.ts:133-138 | the accumulator is a signed 32-bit integer after every character |
| RateLimit.HashStepIsReduced | src/lib/security/rate-limit.ts:136-137 | `((hash << 5) - hash) + char` followed by `hash & hash` is `31*hash + char` reduced to 32 bits |
| RateLimit.HashCodeIsPolynomial | src/lib/security/rate-limit.ts:132-138 | the hash is the base-31 polynomial of the character codes taken modulo 2^32, hence a function of the string alone |
| RateLimit.NatToBase36 | src/lib/security/rate-limit.ts:139 | base-36 digits: at least one, each a digit or a lower-case letter |
| RateLimit.HashString | src/lib/security/rate-limit.ts:132-140 | the loop computes the base-36 text of the 32-bit reduced polynomial hash |
| RateLimit.GetClientIdentifier | src/lib/security/rate-limit.ts:111-127 | equals `ClientIdentifier`: a non-empty `x-forwarded-for` gives its first comma-separated entry, trimmed and free of commas; else a non-empty `x-real-ip`; else the hash of the user agent, or of "unknown" |
| RateLimit.ClientIdentifier | src/lib/security/rate-limit.ts:111-127 | the identifier read from the request headers; one taken from `x-forwarded-for` never contains a comma |
| RateLimit.WithRateLimit | src/lib/security/rate-limit.ts:195-202 | an explicit non-empty identifier is counted as given; without one the counter is that of `ClientIdentifier` of the request headers; either way the new table and the answer are those of `Check` after the optional cleanup |
| UploadUtils.BackoffDelay | src/lib/security/upload-utils.ts:72-75 | `Math.min` of `initialDelay * multiplier^attempt` and `maxDelay`: at most both, and equal to one of them; delays and multiplier are real numbers, so a multiplier of 1.5 is covered |
| UploadUtils.BackoffDelayCapped | src/lib/security/upload-utils.ts:72-75 | the wait after a failed attempt never exceeds `maxDelay`, and is `initialDelay * multiplier^attempt` whenever that is below the cap |
| UploadUtils.BackoffDelayNonDecreasing | src/lib/security/upload-utils.ts:72-75 | with a multiplier of at least 1 and a non-negative initial delay the waits never decrease from one retry to the next |
| UploadUtils.DefaultBackoff | src/lib/security/upload-utils.ts:51-57 | with the defaults the waits are 1000, 2000 and 4000 ms |
| UploadUtils.WithRetry | src/lib/security/upload-utils.ts:47-87 | at most `maxRetries + 1` calls; every call before the last failed; the answer is the first success or, after `maxRetries + 1` failures, the last error (`undefined` when no call is allowed); one `onRetry` notice numbered 1, 2, ... and one wait `BackoffDelay(attempt)` per retried failure |
| UploadUtils.UploadWithRetry | src/lib/security/upload-utils.ts:92-141 | `attempts` is the number of `uploadFn` calls; success after k-1 failures reports k attempts and the URL; exhaustion reports `maxRetries + 1` attempts and the last error's message, or "Upload failed" for a non-`Error` value |
| UploadUtils.TotalChunks | src/lib/security/upload-utils.ts:153 | `ceil(size / chunkSize)`: the least n with `size <= n * chunkSize` |
| UploadUtils.ChunkIsNonEmpty | src/lib/security/upload-utils.ts:157-159 | every chunk below the total holds at least one byte |
| UploadUtils.ChunksAreAdjacent | src/lib/security/upload-utils.ts:158-159 | each chunk but the last ends where the next one starts |
| UploadUtils.ChunksPartitionFile | src/lib/security/upload-utils.ts:153-160 | the chunks start at byte 0, are non-empty and contiguous, and the last ends at the file size; there are none exactly for an empty file |
| UploadUtils.ChunksDisjoint | src/lib/security/upload-utils.ts:158-159 | two different chunks share no byte |
| UploadUtils.UploadChunk | src/lib/security/upload-utils.ts:163-174 | one chunk's `withRetry`: it went through after failures on all calls but its last, or used up its budget with every call failing and keeps the last error |
| UploadUtils.UploadInChunks | src/lib/security/upload-utils.ts:146-195 | the ranges sent are the chunk bounds in index order; `attempts` sums the calls of all chunks; success means every chunk went through; failure means the chunks before the last one tried went through, the last one exhausted its retries, no later chunk was sent, and the error is its message or "Chunked upload failed" |
| UploadUtils.ValidateFile | src/lib/security/upload-utils.ts:224-251 | valid exactly when the size is within `maxSizeMB` MiB and the type is in the list when one is given; an oversized file is refused for its size whatever its type; the type error only follows a passed size check |
| UploadUtils.ValidateFileMonotone | src/lib/security/upload-utils.ts:231-250 | a file accepted under one limit and list is accepted under any larger limit, any longer list, and no list |
| UploadUtils.DashTimestamp | src/lib/security/upload-utils.ts:274 | every ':' and '.' of the ISO timestamp becomes '-', every other character stays |
| UploadUtils.NonEmptyParts | src/lib/security/upload-utils.ts:276 | `filter(Boolean)`: every kept part is non-empty and every non-empty candidate is kept |
| UploadUtils.NonEmptyPartsIsFilter | src/lib/security/upload-utils.ts:276 | the kept parts are exactly the non-empty candidates, in their order and with their repeats (an order-preserving selection of the candidates) |
| UploadUtils.KeptPartsAreCandidates | src/lib/security/upload-utils.ts:276 | every kept part is one of the given candidates |
| UploadUtils.CreateSafeFileName | src/lib/security/upload-utils.ts:269-278 | the name is the '_'-join of the non-empty parts among prefix, submission id, dashed timestamp and random part, in that order, then '.' and the extension; it contains the submission id when one is given |
| UploadUtils.SafeFileNameWithId | src/lib/security/upload-utils.ts:269-278 | with an id, a timestamp and a random string longer than 7, the name reads `prefix_id_timestamp_random.extension`, the timestamp with ':' and '.' turned into '-' and the random part from its 8th character |
| UploadUtils.SafeFileNameWithoutId | src/lib/security/upload-utils.ts:269-278 | without an id (or with an empty one) the name reads `prefix_timestamp_random.extension`, and `prefix_timestamp.extension` when the random part is empty |
| UploadUtils.SafeFileNameShape | src/test/security/upload-utils.test.ts:126-140 | with word-character inputs the name matches `^prefix_[\w-]+\.extension$`: it starts with the prefix and '_' followed by at least one more character, everything before the final '.' is a word character or '-', and it ends in '.' and the extension |
| Session.IsSessionExpired | src/lib/security/session.ts:67-84 | expired exactly when a reason is given; `max_duration` exactly when `now - startTime > maxDuration`, checked first so it wins when both limits are passed; `inactivity` exactly when the duration is within its limit and `now - lastActivity > inactivityTimeout`; reaching a limit exactly is not expiry |
| Session.GetRemainingTime | src/lib/security/session.ts:219-232 | both remaining times are never negative and, once the instants are in the past, never above their limits |
| Session.ExpiryMatchesRemainingTime | src/lib/security/session.ts:73-81 | the limit named as the reason has no time left, and while the session is live each remaining time is exactly the unspent part of its limit |
| Session.ExpiryIsMonotoneInTime | src/lib/security/session.ts:73-81 | an expired session stays expired at every later instant |
| Session.IsTestTimeExpired | src/lib/security/session.ts:206-214 | expired exactly when more than `minutes * 60000` ms have elapsed |
| Session.TestTimeExpiryIsMonotone | src/lib/security/session.ts:206-214 | once a test has expired it stays expired at every later instant |
| AntiCheat.ServerExpiryStopsTimer | src/lib/security/anti-cheat.ts:376-377 | whenever the server's `isTestTimeExpired` (session.ts:206-214) holds, the countdown for the same minutes reads 0 |
| AntiCheat.TimerEndsBeforeServerExpiry | src/lib/security/session.ts:206-214 | at the instant the allotted minutes end the countdown (anti-cheat.ts:376-377) reads 0 while the server does not yet call the test expired: its test is strict |
| Session.PresetsInactivityShorterThanDuration | src/lib/security/session.ts:21-51 | in each of the three presets the inactivity timeout is shorter than the maximum duration |
| Schemas.ReplaceChar | src/lib/validation/schemas.ts:172-174 | a global one-character replace leaves no copy of that character when the replacement lacks it, keeps every other character and is the identity on text without it |
| Schemas.ReplaceCharAppend | src/lib/validation/schemas.ts:172-174 | replacing distributes over concatenation |
| Schemas.EncodeAngles | src/lib/validation/schemas.ts:172-174 | the encoded text holds neither '<' nor '>' and text without them is unchanged |
| Schemas.EncodeAnglesCons | src/lib/validation/schemas.ts:172-174 | encoding works character by character: '<' to '&lt;', '>' to '&gt;', anything else kept |
| Schemas.DecodeEntity | src/lib/validation/schemas.ts:172-174 | an entity at the front decodes to its bracket |
| Schemas.DecodePlain | src/lib/validation/schemas.ts:172-174 | a character other than '&' decodes to itself |
| Schemas.DecodeEncodeAngles | src/lib/validation/schemas.ts:172-174 | on text without '&' the encoding is undone by reading the entities back, so it loses nothing |
| Schemas.SanitizeHtml | src/lib/validation/schemas.ts:156-177 | the empty input is returned as it is; every other output holds no '<' or '>' and starts and ends with a non-blank |
| Schemas.SanitizeHtmlOfPlainText | src/lib/validation/schemas.ts:156-177 | text the strip passes keep and that has no brackets is only trimmed |
| Schemas.SanitizedHtmlHasNoTag | src/lib/validation/schemas.ts:172-176 | no sanitised text contains any tag beginning with '<' |
| Schemas.RemoveAll | src/lib/validation/schemas.ts:184 | a global removal never lengthens the text and adds no character |
| Schemas.RemoveAllWithoutMatch | src/lib/validation/schemas.ts:184 | the removal is the identity on text lacking the pattern's last character |
| Schemas.RemoveAllIsNotRepeated | src/lib/validation/schemas.ts:184 | one pass turns '....//' into '../': the traversal removal alone does not remove every '../' |
| Schemas.ReplaceUnsafe | src/lib/validation/schemas.ts:187 | same length; each character outside [a-zA-Z0-9._-] becomes '_' and each other one is kept |
| Schemas.LimitLengthAsWritten | src/lib/validation/schemas.ts:190-193 | names of at most 255 characters are kept; a longer one keeps its extension and is cut to exactly 255 whenever the extension has at most 254 characters |
| Schemas.SanitizeFileNameChars | src/lib/validation/schemas.ts:182-187 | after the removal and replacement passes only safe characters remain |
| Schemas.SanitizeFileNameAsWritten | src/lib/validation/schemas.ts:182-196 | only safe characters, and at most 255 of them when the last dot-separated field has at most 254 |
| Schemas.DotlessLongNameIsNotShortened | src/lib/validation/schemas.ts:190-193 | a dot-less name longer than 255 characters comes out one character longer, not limited |
| Schemas.LimitLength | src/lib/validation/schemas.ts:190-193 | corrected limit: never more than 255 characters, and equal to the code as written whenever the extension fits |
| Schemas.SanitizeFileName | src/lib/validation/schemas.ts:182-196 | only characters from [a-zA-Z0-9._-], at most 255 of them, and the same as the code as written when the extension fits |
| Schemas.SanitizedFileNameHasNoTraversal | src/lib/validation/schemas.ts:182-196 | a sanitised name holds no '/', no '\\' and no '../' |
| Schemas.SanitizeFileNameIdempotent | src/lib/validation/schemas.ts:182-196 | with the corrected length limit, sanitising a sanitised name changes nothing |
| Schemas.SanitizeFileNameAsWrittenIdempotent | src/lib/validation/schemas.ts:182-196 | as written, sanitising again changes nothing whenever the first result is at most 255 characters |
| Schemas.IsValidUUID | src/lib/validation/schemas.ts:201-204 | an accepted string has its dashes exactly at positions 8, 13, 18 and 23 |
| Schemas.ValidUUIDGroups | src/lib/validation/schemas.ts:201-204 | an accepted UUID splits at its dashes into five hex groups of 8, 4, 4, 4 and 12 digits |
| Schemas.UUIDSplitsAtDashes | src/lib/validation/schemas.ts:202 | the five groups are exactly the slices between the dash positions |
| Schemas.FiveGroups | src/lib/validation/schemas.ts:202 | five dash-free groups joined by dashes split back into the same five |
| Schemas.ValidUUIDIgnoresCase | src/lib/validation/schemas.ts:202 | the test ignores case: a UUID is accepted exactly when its lower-case form is |
| Schemas.UUIDExamples | src/test/validation/schemas.test.ts:208-212 | the refused examples of the tests ('not-a-uuid', a truncated UUID, the empty string) are refused |
| Schemas.ValidUUIDExample | src/test/validation/schemas.test.ts:203-206 | the accepted example '550e8400-e29b-41d4-a716-446655440000' is accepted |
| Schemas.ParseWritingSubmission | src/lib/validation/schemas.ts:15-22 | accepted exactly when the id is a UUID, the task an integer 1 to 5 and the text 1 to 10000 characters; the stored text is the sanitised one, free of '<' |
| Schemas.BlankResponseAcceptedAsEmpty | src/lib/validation/schemas.ts:18-21 | since lengths are checked before sanitising, a response of three blanks is accepted and stored empty |
| Schemas.ParseAnswerSubmission | src/lib/validation/schemas.ts:27-56 | accepted exactly when the submission and every question id are UUIDs, there are 1 to 50 answers and each option is A, B, C or D |
| Schemas.AcceptedOptionsAreStoredOptions | src/lib/validation/schemas.ts:27-56 | each accepted option is the upper-case form of a stored correct option (a-d), and every stored option written in upper case is accepted |
| Schemas.ParseCandidate | src/lib/validation/schemas.ts:79-89 | accepted exactly for a 2 to 100 character name and a valid e-mail of at most 255 characters; the stored name is sanitised and the stored e-mail has no capital letter |
| Schemas.NormalisedEmailHasNoCapitals | src/lib/validation/schemas.ts:84-88 | lower-casing then trimming never lengthens the address and leaves no capital |
| Schemas.ParseNote | src/lib/validation/schemas.ts:108-119 | a missing note or one of at most 5000 characters is accepted; an accepted given note is stored sanitised, without '<' |
| Schemas.UploadMetadataValid | src/lib/validation/schemas.ts:135-146 | accepted metadata has a non-empty file name without '/' or '\\', and a positive size |
| Schemas.SanitizedNameFitsUploadSchema | src/lib/validation/schemas.ts:135-146 | any non-empty sanitised file name meets the file-name rule of the upload metadata schema |
| Schemas.ParseScoreUpdate | src/lib/validation/schemas.ts:94-120 | accepted exactly when the id is a UUID, every given score lies in 0 to 10 and every given note is at most 5000 characters; the accepted notes hold no '<' |
| Schemas.ParseStatusUpdate | src/lib/validation/schemas.ts:125-130 | accepted exactly for a UUID and one of submitted, passed or failed; in_progress is refused |
| Kanban.StatusUpdatesLandOnTheBoard | src/lib/validation/schemas.ts:125-130 | an accepted status is one of the board's listed statuses (KanbanBoard.tsx:180-183) other than in_progress, and each of the other three is accepted |
| Schemas.ViolationTypeAccepted | src/lib/validation/schemas.ts:60-72 | the violation enum refuses copy_paste_detected and accepts timer_exceeded |
| AntiCheat.ViolationNamesDistinct | src/lib/security/anti-cheat.ts:14-22 | no two violation kinds share a stored name |
| AntiCheat.ClientAndServerViolationTypes | src/lib/security/anti-cheat.ts:14-22 | the server's violation enum (schemas.ts:63-72) accepts every client violation name except copy_paste_detected, accepts timer_exceeded which no client violation carries, and the client names are distinct |
| AntiCheat.TabSwitchReports | src/lib/security/anti-cheat.ts:29-39 | one tab_switch report per event in which the document is hidden, the i-th carrying the count i+1 |
| AntiCheat.TabSwitchDetector.constructor | src/lib/security/anti-cheat.ts:29 | the counter starts at 0 with nothing reported |
| AntiCheat.TabSwitchDetector.HandleVisibilityChange | src/lib/security/anti-cheat.ts:31-39 | a hidden document raises the counter and appends a report carrying the new count; a visible one changes nothing; the reports stay those of TabSwitchReports over all events so far |
| AntiCheat.BeforeUnload | src/lib/security/anti-cheat.ts:52-66 | when enabled, every unload reports page_refresh and asks for confirmation with the fixed message; when disabled nothing is watched |
| AntiCheat.SomeLiveVideo | src/lib/security/anti-cheat.ts:89 | holds exactly when some track is a live video track |
| AntiCheat.PollReport | src/lib/security/anti-cheat.ts:88-102 | a poll reports screen_share_stopped, with the stream's tracks, exactly on the edge from active to inactive |
| AntiCheat.InactivePollsReportOnce | src/lib/security/anti-cheat.ts:91-101 | any run of inactive polls reports once if the stream was active before it, and never otherwise |
| AntiCheat.PollRunReportsStops | src/lib/security/anti-cheat.ts:88-121 | polling never reports more often than it polls, and reports only screen_share_stopped |
| AntiCheat.ScreenShareMonitor.constructor | src/lib/security/anti-cheat.ts:83 | the stream is taken to be active before the first poll |
| AntiCheat.ScreenShareMonitor.CheckStreamActive | src/lib/security/anti-cheat.ts:88-102 | appends exactly PollReport of the previous state and remembers whether the stream is active now |
| AntiCheat.ScreenShareMonitor.HandleTrackEnded | src/lib/security/anti-cheat.ts:109-114 | an ended track reports screen_share_stopped whatever the polls saw, leaving the poll state alone |
| AntiCheat.HasMultipleMonitors | src/lib/security/anti-cheat.ts:147-153 | the extended-desktop test holds exactly when the screen exceeds 1.5 times the available area in a dimension, or the window lies left of or above the origin or overhangs the available area |
| AntiCheat.SingleScreenIsNotFlagged | src/lib/security/anti-cheat.ts:147-153 | a window inside the available area of an unextended screen is not flagged |
| AntiCheat.MultiMonitorReports | src/lib/security/anti-cheat.ts:140-171 | at most one report, made exactly when the grace period has passed and the geometry is flagged |
| AntiCheat.MatchShortcut | src/lib/security/anti-cheat.ts:189-218 | a key matches a rule exactly when it is F12, Ctrl+Shift+I, Ctrl+Shift+C, Ctrl+u or Meta+Alt+i |
| AntiCheat.PreventsDefault | src/lib/security/anti-cheat.ts:183-218 | the context menu is always suppressed, a key exactly when it matches one of the five shortcuts |
| AntiCheat.OrdinaryKeysPassThrough | src/lib/security/anti-cheat.ts:189-218 | keys without Ctrl or Meta other than F12 pass, and the rules are case-sensitive: Ctrl+U and Ctrl+Shift+i pass |
| AntiCheat.ClipboardReports | src/lib/security/anti-cheat.ts:236-256 | a paste always reports copy_paste_detected with the pasted text's length, 0 without data; a copy reports only when copy detection is on |
| AntiCheat.NetworkReports | src/lib/security/anti-cheat.ts:272-294 | one network_failure for an initially offline browser and one per offline event; coming back online reports nothing |
| AntiCheat.NetworkMonitor.constructor | src/lib/security/anti-cheat.ts:269-294 | an initially offline browser is flagged and reported at once |
| AntiCheat.NetworkMonitor.HandleOnline | src/lib/security/anti-cheat.ts:272-277 | clears the flag and reports nothing |
| AntiCheat.NetworkMonitor.HandleOffline | src/lib/security/anti-cheat.ts:279-285 | sets the flag and appends one network_failure report |
| AntiCheat.EnabledHooks | src/lib/security/anti-cheat.ts:306-357 | undefined flags take their defaults (all on except copy/paste, grace period 10000), and the copy/paste hook is always given detectCopy false |
| AntiCheat.DefaultHooks | src/lib/security/anti-cheat.ts:317-327 | with every option undefined, every detector but copy/paste runs and the multi-monitor check waits ten seconds |
| AntiCheat.MasterHookNeverReportsCopy | src/lib/security/anti-cheat.ts:350-352 | under the master hook a copy is never reported |
| AntiCheat.RemainingSeconds | src/lib/security/anti-cheat.ts:376-377 | never negative, never above the duration once the clock has passed the start, and 0 exactly when the whole duration has elapsed |
| AntiCheat.RemainingNeverIncreases | src/lib/security/anti-cheat.ts:376-377 | as the clock advances the remaining time never grows |
| AntiCheat.TestTimer.constructor | src/lib/security/anti-cheat.ts:368-375 | the clock is read, the full duration remains and the interval is installed |
| AntiCheat.TestTimer.Tick | src/lib/security/anti-cheat.ts:375-391 | stores RemainingSeconds of the clock, passes it to onTick when given, and at 0 clears the interval and fires onTimeUp once |
| AntiCheat.TestTimer.GetRemainingTime | src/lib/security/anti-cheat.ts:401 | once the timer has stopped it reads 0 |
| PresignedUrls.NonEmpty | src/lib/security/presigned-urls.ts:54 | `filter(Boolean)` keeps only non-empty segments, each one of the input's |
| PresignedUrls.NonEmptyAppend | src/lib/security/presigned-urls.ts:54 | filtering distributes over concatenation |
| PresignedUrls.NonEmptyOfNonEmpty | src/lib/security/presigned-urls.ts:54 | a list of non-empty segments is kept whole |
| PresignedUrls.ExtractS3Key | src/lib/security/presigned-urls.ts:48-68 | an unparsable URL has no key; an 's3.' host is path-style and yields the non-empty path segments after the bucket joined by '/'; the virtual-hosted test applies only otherwise and yields a key exactly for hosts containing '.s3.', namely the pathname without its first character |
| PresignedUrls.Drop1 | src/lib/security/presigned-urls.ts:55 | `shift` drops the first element and leaves an empty list empty |
| PresignedUrls.PathStyleKey | src/lib/security/presigned-urls.ts:52-57 | a path-style URL of a bucket and a key of non-empty segments gives back that key |
| PresignedUrls.BucketOnlyPathStyleKey | src/lib/security/presigned-urls.ts:54-56 | a path-style URL naming only a bucket yields the empty key |
| PresignedUrls.UploadedUrlRoundTrip | src/lib/s3.ts:35-66 | for the URL built at upload time (bucket not starting 's3.', and folder and file name made only of unreserved URL characters and '/', which the URL parser keeps unchanged), extraction returns folder/fileName, the key the object was stored under |
| PresignedUrls.PresignKey | src/lib/security/presigned-urls.ts:73-84 | a key is handed on exactly when extraction gives a non-empty key; no key and the empty key are both refused |
| PresignedUrls.CanAccessRecording | src/lib/security/presigned-urls.ts:114-152 | an admin is always allowed; a recruiter exactly when the submission's test belongs to them; every other role is refused |
| PresignedUrls.AccessOnlyForAdminOrOwner | src/lib/security/presigned-urls.ts:114-152 | whoever is allowed is an admin or the owning recruiter |
| Middleware.RateLimitResponse | src/lib/api/middleware.ts:90-114 | no response exactly when the limiter admits; otherwise status 429, remaining header '0', the limit header, and a wait of the seconds to the reset rounded up, with the limiter's message or 'Rate limit exceeded' |
| Middleware.RefusalWaitIsNonNegative | src/lib/api/middleware.ts:90-95 | a refusal of the limiter is inside an open window, so the advertised wait is never negative and the error is the limiter's message |
| Middleware.ApplyRateLimit | src/lib/api/middleware.ts:83-115 | the client's identifier is counted against the shared table exactly as the limiter's Check prescribes, and the denial is RateLimitResponse of its answer |
| Middleware.LinkExpired | src/lib/api/middleware.ts:169 | a link without an expiry never expires; one with an expiry has expired exactly once the clock is past it |
| Middleware.VerifyTestToken | src/lib/api/middleware.ts:120-181 | checked in order: a token isValidUUID refuses gives 400, an unknown token 404, an inactive link 403 'deactivated', a link past its expiry 403 'expired'; otherwise the link is returned |
| Middleware.TokenAcceptanceOverTime | src/lib/api/middleware.ts:169 | a link accepted now was accepted at every earlier instant, and one without expiry is accepted at every instant |
| Middleware.VerifyAuth | src/lib/api/middleware.ts:186-230 | no user gives 401, no user row 404, a role other than the required one 403; with no required role every role is admitted, and an admitted user carries the stored role |
| Middleware.VerifySubmissionAccess | src/lib/api/middleware.ts:235-279 | an admin passes without a lookup; otherwise a missing submission gives 404, a test owned by someone else 403, and access exactly for the owner |
| Middleware.SubmissionAccessAgreesWithRecordingAccess | src/lib/api/middleware.ts:235-279 | for admins and recruiters the route guard agrees with canAccessRecording (presigned-urls.ts:114-152); for any other role only the guard admits the test's owner |
| QuestionTypes.CorrectOptionValue | src/types/database.ts:4 | every correct option is one lower-case letter from 'a' to 'd' |
| QuestionTypes.ParseCorrectOption | src/app/admin/questions/components/QuestionForm.tsx:250-254 | a value the answer select reads back names the option whose value it is |
| QuestionTypes.CorrectOptionRoundTrip | src/app/admin/questions/components/QuestionForm.tsx:250-254 | each of the four option values reads back as its own letter; the placeholder and an upper-case letter select nothing |
| QuestionTypes.ColumnListed | src/types/database.ts:6-22 | the column list names every column of the questions table |
| QuestionTypes.Fields | src/types/database.ts:24-38 | an input is sent with exactly its defined fields, each with its value, and never with an id |
| QuestionActions.PageOf | src/app/admin/questions/actions.ts:15 | an absent page and page 0 both mean page 1; any other page is kept |
| QuestionActions.LimitOf | src/app/admin/questions/actions.ts:16 | an absent limit and limit 0 both mean 50; any other limit is kept |
| QuestionActions.PageWindow | src/app/admin/questions/actions.ts:17-36 | the inclusive range of a page starts at (page-1)*limit and covers exactly limit rows |
| QuestionActions.ConsecutivePagesAreAdjacent | src/app/admin/questions/actions.ts:17-36 | each page's range starts right after the previous page's range ends |
| QuestionActions.PagesPartitionRows | src/app/admin/questions/actions.ts:17-36 | with a positive limit, distinct pages ask for disjoint rows and row k lies on page k/limit+1 |
| QuestionActions.BuildQuery | src/app/admin/questions/actions.ts:19-36 | the query selects with a count and orders newest first, adds an equality filter for exactly the category and the non-empty difficulty given, a '%search%' prompt match exactly for a non-empty search, and ends with the page range |
| QuestionActions.PageSummary | src/app/admin/questions/actions.ts:44-49 | a null count reads 0, the page is the defaulted page, and the number of pages is the count over the limit rounded up (0 for no rows) |
| QuestionActions.EveryRowHasAPage | src/app/admin/questions/actions.ts:44-49 | with a positive limit every counted row lies on one of the reported pages |
| QuestionActions.InsertedRow | src/app/admin/questions/actions.ts:57-60 | the inserted row holds exactly the input's fields with is_active true only when it was left undefined; an explicit false is kept |
| QuestionActions.InsertedRowOfDefinedFlag | src/app/admin/questions/actions.ts:57-60 | an input that sets is_active is inserted exactly as sent |
| QuestionActions.SplitUpdate | src/app/admin/questions/actions.ts:74 | the id is taken apart as the row key and every other field, and only those, is among the columns written |
| QuestionActions.UpdatePayload | src/app/admin/questions/components/QuestionForm.tsx:88 | the edit form sends the form's fields together with the question's id |
| QuestionActions.UpdatePayloadSplits | src/app/admin/questions/actions.ts:74-79 | the edit form's body splits back into its id and exactly the form's fields |
| QuestionActions.ApplyUpdate | src/app/admin/questions/actions.ts:76-79 | the written columns take their new values and every other column keeps its old one |
| QuestionActions.ClearedFieldsAreNotSent | src/app/admin/questions/actions.ts:74-79 | a score the form clears is not sent, so the stored score survives the update |
| QuestionForm.Truthy | src/app/admin/questions/components/QuestionForm.tsx:29-32 | `x \|\| undefined` keeps a stored score only when it is present and not 0 |
| QuestionForm.InitialFormData | src/app/admin/questions/components/QuestionForm.tsx:20-34 | a new form is an empty intelligence question, active; an edited one copies the stored fields, except that a stored score of 0 starts out unset |
| QuestionForm.TypedScore | src/app/admin/questions/components/QuestionForm.tsx:163 | a typed score is the number its text starts with, and 0 when it starts with none |
| QuestionForm.TypedScoreExamples | src/app/admin/questions/components/QuestionForm.tsx:163 | a number typed as its decimal text reads back as itself; empty and non-numeric text read 0 |
| QuestionForm.CheckForm | src/app/admin/questions/components/QuestionForm.tsx:42-83 | a form is accepted exactly when the prompt and all four options are non-blank and an intelligence question has its answer and difficulty, a personality question four scores in 0 to 10; the prompt is checked first, then the options; acceptance clears the other category's fields |
| QuestionForm.CheckFormIsIdempotent | src/app/admin/questions/components/QuestionForm.tsx:42-83 | the cleaned data of an accepted form is accepted again unchanged |
| QuestionForm.PromptIsCheckedFirst | src/app/admin/questions/components/QuestionForm.tsx:42-45 | a blank prompt is reported whatever the options hold |
| QuestionForm.ActionFor | src/app/admin/questions/components/QuestionForm.tsx:85-89 | create mode calls create with the form data; edit mode calls update with the question's id, and nothing when there is no question |
| QuestionForm.QuestionFormState.constructor | src/app/admin/questions/components/QuestionForm.tsx:17-34 | the form starts from InitialFormData, not loading, with nothing called, alerted or navigated |
| QuestionForm.QuestionFormState.Save | src/app/admin/questions/components/QuestionForm.tsx:85-94 | calls exactly ActionFor, then alerts the action's error or goes back to the question bank |
| QuestionForm.QuestionFormState.HandleSubmit | src/app/admin/questions/components/QuestionForm.tsx:36-98 | a form CheckForm refuses gets its message alerted and calls nothing; an accepted one is cleaned in place to CheckForm's data and saved; loading ends false either way |
| QuestionTable.Prefix | src/app/admin/questions/components/QuestionTable.tsx:49 | `substring(0, n)` is the text's first n characters, clamped to between none and all of them |
| QuestionTable.Truncate | src/app/admin/questions/components/QuestionTable.tsx:48-50 | a text no longer than the length is returned unchanged; a longer one becomes its first `length` characters followed by '...', length+3 in all |
| QuestionTable.TruncateIsIdempotent | src/app/admin/questions/components/QuestionTable.tsx:48-50 | truncating twice with the same length is truncating once |
| QuestionTable.PromptCellIsBounded | src/app/admin/questions/components/QuestionTable.tsx:76 | the prompt cell shows at most 103 characters |
| QuestionTable.DifficultyCellOf | src/app/admin/questions/components/QuestionTable.tsx:81-97 | a badge with its difficulty exactly for an intelligence question that has one, 'N/A' for one without, '-' for every personality question |
| QuestionTable.DifficultyColorsDistinct | src/app/admin/questions/components/QuestionTable.tsx:84-88 | easy, medium and hard badges have three different colours |
| QuestionTable.StatusLabel | src/app/admin/questions/components/QuestionTable.tsx:118 | the badge reads "Active" exactly for an active question and "Inactive" exactly for an inactive one |
| QuestionTable.AnswerCellOf | src/app/admin/questions/components/QuestionTable.tsx:98-113 | an intelligence question shows its answer as one capital letter A to D, or 'N/A'; a personality question shows its four scores with a missing score shown as 0 |
| QuestionTable.CellsFollowCategory | src/app/admin/questions/components/QuestionTable.tsx:82-112 | intelligence rows never show scores, personality rows never a difficulty or a letter, whatever the stored row holds |
| QuestionTable.ToggleArgument | src/app/admin/questions/components/QuestionTable.tsx:32-35 | the toggle always sends the opposite of the current status |
| QuestionTable.ToggleTwiceRestores | src/app/admin/questions/components/QuestionTable.tsx:32-35 | toggling twice restores the status |
| RecruiterDashboard.Matches | src/app/recruiter/dashboard/page.tsx:64-98 | the reference condition: with every filter off each submission matches, and a selected test keeps only its submissions |
| RecruiterDashboard.AllPassesMatch | src/app/recruiter/dashboard/page.tsx:64-98 | the five guarded passes together amount to the conjunction of the filters that are on |
| RecruiterDashboard.Pass | src/app/recruiter/dashboard/page.tsx:64-98 | a guarded pass leaves the list alone when its guard is off and otherwise narrows it to the extended conjunction |
| RecruiterDashboard.StageFilterTests | src/app/recruiter/dashboard/page.tsx:66-97 | each callback handed to `filter` implements the test of its pass, the status pass looking at the disqualified flag for 'disqualified' |
| RecruiterDashboard.FilterPass | src/app/recruiter/dashboard/page.tsx:64-98 | a pass filters with its callback exactly when its filter is set, and afterwards the list holds the submissions kept by every pass so far |
| RecruiterDashboard.ApplyFilters | src/app/recruiter/dashboard/page.tsx:61-101 | the result is the submissions satisfying every active filter (test, status or flag, case-insensitive search of name and e-mail, start and end dates), in their original order |
| RecruiterDashboard.AllStagesMatch | src/app/recruiter/dashboard/page.tsx:64-98 | what the last pass keeps is what the reference condition keeps |
| RecruiterDashboard.InitialFiltersKeepEverything | src/app/recruiter/dashboard/page.tsx:16-22 | the initial filters keep every submission |
| RecruiterDashboard.FilteredIsOrderedSelection | src/app/recruiter/dashboard/page.tsx:61-101 | the filtered list is an ordered sub-list of the submissions and holds exactly those that match every active filter |
| RecruiterDashboard.DisqualifiedStatusSelectsFlag | src/app/recruiter/dashboard/page.tsx:70-76 | the 'disqualified' status shows exactly the disqualified submissions, whatever their status field says |
| RecruiterDashboard.SearchIgnoresCase | src/app/recruiter/dashboard/page.tsx:79-85 | an upper- and a lower-case search select the same submissions |
| RecruiterDashboard.DashboardStats | src/app/recruiter/dashboard/page.tsx:116-121 | the cards are the test count, the number of all submissions, the number of submitted ones and the number of passed ones, over every submission; awaiting-review plus passed never exceeds the total |
| RecruiterDashboard.AwaitingCardBoundsFilteredList | src/app/recruiter/dashboard/page.tsx:116-121 | however the filters are set, the submitted submissions shown are no more than the 'Awaiting Review' card counts |
| Kanban.StatusColumn | src/app/recruiter/dashboard/KanbanBoard.tsx:180-183 | a status column holds exactly the submissions with that status, in input order, and counts its own cards |
| Kanban.DisqualifiedColumn | src/app/recruiter/dashboard/KanbanBoard.tsx:184-217 | the last column holds exactly the disqualified submissions, in input order, and counts its own cards |
| Kanban.ColumnAt | src/app/recruiter/dashboard/KanbanBoard.tsx:180-217 | column k is titled as on the board; the first four hold the k-th listed status, the fifth the disqualified submissions |
| Kanban.Board | src/app/recruiter/dashboard/KanbanBoard.tsx:179-217 | five columns with the board's titles, each count equal to the number of its cards |
| Kanban.ColumnContents | src/app/recruiter/dashboard/KanbanBoard.tsx:180-184 | on the board, column k holds exactly the submissions with the k-th listed status, the last one exactly the disqualified submissions |
| Kanban.ColumnsKeepOrder | src/app/recruiter/dashboard/KanbanBoard.tsx:180-184 | every column lists its cards in the order of the board's input |
| Kanban.Placement | src/app/recruiter/dashboard/KanbanBoard.tsx:180-184 | a disqualified submission with a listed status appears twice, in its status column and under Disqualified; one with an unlisted status that is not disqualified appears nowhere |
| Kanban.StatusCountsPartition | src/app/recruiter/dashboard/KanbanBoard.tsx:180-183 | the four status counts and the unlisted submissions add up to the number of submissions |
| Kanban.StatusColumnsPartition | src/app/recruiter/dashboard/KanbanBoard.tsx:188-211 | the four status columns' counts and the unlisted submissions account for every submission exactly once |
| Kanban.StatusColor | src/app/recruiter/dashboard/KanbanBoard.tsx:41-55 | a disqualified card is red whatever its status; an unknown status is grey |
| Kanban.StatusColorCases | src/app/recruiter/dashboard/KanbanBoard.tsx:41-55 | a badge is red exactly when the card is disqualified, and failed looks like an unknown status |
| Kanban.ReplaceFirst | src/app/recruiter/dashboard/KanbanBoard.tsx:147 | a string pattern in `replace` changes only the first occurrence: same length, that position replaced, every other one kept |
| Kanban.BadgeLabel | src/app/recruiter/dashboard/KanbanBoard.tsx:145-147 | a disqualified card reads 'Disqualified'; any other reads its status upper-cased with the first underscore turned into a space |
| Kanban.InProgressBadge | src/app/recruiter/dashboard/KanbanBoard.tsx:147 | 'in_progress' reads 'IN PROGRESS' |
| Kanban.OnlyFirstUnderscoreReplaced | src/app/recruiter/dashboard/KanbanBoard.tsx:147 | only the first underscore becomes a space: 'a_b_c' reads 'A B_C' |
| Kanban.OrElse | src/app/recruiter/dashboard/KanbanBoard.tsx:77-86 | `x \|\| fallback` keeps a non-empty value and otherwise gives the fallback |
| Kanban.CardTextOf | src/app/recruiter/dashboard/KanbanBoard.tsx:76-87 | none of a card's three lines is empty: a missing candidate reads 'Unknown' and 'No email', a missing title the test type followed by ' Test' |
| AdminSubmissions.FilteredSubmissions | src/app/admin/submissions/page.tsx:105-114 | an ordered sub-list holding exactly the rows whose candidate name, e-mail or test title contains the search ignoring case and whose status matches the filter ('all' matches every status) |
| AdminSubmissions.EmptySearchNeedsOneField | src/app/admin/submissions/page.tsx:106-109 | an empty search keeps exactly the rows naming at least one of the three fields; a row naming none is never shown |
| AdminSubmissions.FilterIsConjunction | src/app/admin/submissions/page.tsx:105-114 | the page's filter is the search filter followed by the status filter, and the two may be applied in either order |
| AdminSubmissions.StatusBadge | src/app/admin/submissions/page.tsx:116-133 | a disqualified row reads 'Disqualified' in the destructive style whatever its status; an unknown status is shown as it is in outline; a failed one is destructive too |
| AdminSubmissions.StatusBadgeTexts | src/app/admin/submissions/page.tsx:116-133 | the four known statuses have distinct badge texts, and disqualification hides the difference |
| AdminSubmissions.TotalScore | src/app/admin/submissions/page.tsx:135-141 | '-' without scores; otherwise the decimal text of the intelligence plus the personality score, a missing one counted as 0 |
| AdminSubmissions.DashMeansNoScores | src/app/admin/submissions/page.tsx:135-141 | the dash appears exactly for a row without scores |
| AdminSubmissions.ExportDisabled | src/app/admin/submissions/page.tsx:275 | the row being exported has its button disabled |
| AdminSubmissions.ExportButtonState | src/app/admin/submissions/page.tsx:275 | an exported row can never be exported again, and a row not yet exported is enabled unless it is the one being exported |
| AdminSubmissions.ExportRequestOf | src/app/admin/submissions/page.tsx:86-92 | the export request names the row's id and the action 'export' |
| AdminRecruiters.FilteredRecruiters | src/app/admin/recruiters/page.tsx:127-130 | an ordered sub-list holding exactly the recruiters whose name or e-mail contains the search, case ignored |
| AdminRecruiters.EmptySearchKeepsAll | src/app/admin/recruiters/page.tsx:127-130 | an empty search keeps every recruiter |
| AdminRecruiters.SumBy | src/app/admin/recruiters/page.tsx:298 | a `reduce` sum over the list is at least its first recruiter's count |
| AdminRecruiters.SumByAppend | src/app/admin/recruiters/page.tsx:298-310 | sums add up across a split of the list |
| AdminRecruiters.SumByBoundsEach | src/app/admin/recruiters/page.tsx:298-310 | each recruiter contributes at most the total |
| AdminRecruiters.SumByOfFilter | src/app/admin/recruiters/page.tsx:298-310 | a filtered list never sums to more than the whole list |
| AdminRecruiters.SummaryOf | src/app/admin/recruiters/page.tsx:293-310 | the panel shows the number of recruiters and the sums, over every recruiter, of their tests, links and submissions; no single recruiter exceeds a total |
| AdminRecruiters.SummaryIgnoresSearch | src/app/admin/recruiters/page.tsx:293-310 | the totals are over all recruiters: the tests, links and submissions of those on screen never add up to more, and adding a recruiter adds its own counts to each total |
| AdminRecruiters.AddRecruiterDialog.constructor | src/app/admin/recruiters/page.tsx:46-49 | the dialog starts closed with empty fields and nothing sent |
| AdminRecruiters.AddRecruiterDialog.HandleAddRecruiter | src/app/admin/recruiters/page.tsx:71-100 | the typed fields are sent; on success the dialog closes, the fields clear and the list is fetched again; on failure the fields stay and the server's error or 'Failed to create recruiter' is alerted; submitting ends false |
| Accessibility.NextIndex | src/hooks/use-accessibility.tsx:95-119 | arrows move one place, wrapping round with `loop` or sticking at the ends without it; Home and End go to the first and last item; other keys keep the index |
| Accessibility.FocusAt | src/hooks/use-accessibility.tsx:127 | an item is focused exactly when the index lies among the items |
| Accessibility.HandleKeyDown | src/hooks/use-accessibility.tsx:92-128 | the default is prevented exactly for the handled keys; Enter and space select the current item and focus nothing; any other key focuses the item `NextIndex` leads to, if it exists |
| Accessibility.NextIndexInRange | src/hooks/use-accessibility.tsx:95-119 | from an item every key leads to an item |
| Accessibility.ForwardBackwardCancel | src/hooks/use-accessibility.tsx:96-111 | with looping, one step forward and one back returns to the start, in either order |
| Accessibility.WithoutLoopEndsStick | src/hooks/use-accessibility.tsx:100-110 | without looping the ends stick; with looping forward from the last item reaches the first |
| Accessibility.ForwardPressesWalkTheList | src/hooks/use-accessibility.tsx:96-102 | from the first item, `k` forward presses reach item `k`, and one press per item comes back to the first |
| Accessibility.TrapKeyDown | src/hooks/use-accessibility.tsx:23-43 | Escape closes; Tab is intercepted only at the ends, moving from the last element to the first and, with Shift, from the first to the last |
| Accessibility.TrapOnlyActsAtTheEnds | src/hooks/use-accessibility.tsx:23-37 | Tab inside the container, away from its ends, is left to the browser |
| Accessibility.TrapMountFocus | src/hooks/use-accessibility.tsx:12-49 | the first focusable element is focused exactly when the trap is active, mounted and has one |
| Onboarding.Mounted | src/components/onboarding-modal.tsx:56-62 | the tour opens on its first slide exactly when the stored flag is missing or empty |
| Onboarding.Complete | src/components/onboarding-modal.tsx:72-82 | skipping or finishing stores the flag 'true' and closes the dialog on the same slide |
| Onboarding.Next | src/components/onboarding-modal.tsx:64-70 | the next slide, or completion on the last; the slide stays in range |
| Onboarding.Presses | src/components/onboarding-modal.tsx:64-70 | any number of presses keeps the slide in range |
| Onboarding.PressesWalkTheSlides | src/components/onboarding-modal.tsx:64-70 | from the first slide, `k` presses show slide `k`, still open and with the flag untouched |
| Onboarding.LastPressCompletes | src/components/onboarding-modal.tsx:56-82 | one press per slide closes the tour on the last slide with the flag stored, so it does not open again |
| Onboarding.DotAt | src/components/onboarding-modal.tsx:101-107 | a dot is current, visited or ahead as its index equals, precedes or follows the slide shown |
| Onboarding.DotClassesDistinct | src/components/onboarding-modal.tsx:101-107 | the current, visited and later dots have three different classes |
| Onboarding.Dots | src/components/onboarding-modal.tsx:98-109 | one dot per slide, and only the slide shown has the current dot |
| Onboarding.MainButtonLabel | src/components/onboarding-modal.tsx:116-123 | the main button reads "Get Started" exactly on the last slide |
| Onboarding.OnboardingModal.constructor | src/components/onboarding-modal.tsx:52-62 | mounting gives the state `Mounted` describes |
| Onboarding.OnboardingModal.HandleNext | src/components/onboarding-modal.tsx:64-70 | the state becomes `Next` of the old state |
| Onboarding.OnboardingModal.HandleSkip | src/components/onboarding-modal.tsx:72-75 | the state becomes `Complete` of the old state |
| Onboarding.OnboardingModal.HandleComplete | src/components/onboarding-modal.tsx:77-82 | the state becomes `Complete` of the old state |
| Onboarding.OnboardingModal.OnOpenChange | src/components/onboarding-modal.tsx:87 | closing from outside changes only `open`, so the flag is not stored |
| Onboarding.OnboardingModal.Title | src/components/onboarding-modal.tsx:84-91 | the title shown is one of the slide titles |
| TooltipGuide.FooterOf | src/components/tooltip-guide.tsx:71-89 | the "k of n" counter shows exactly when both numbers are given and non-zero; a bare "0" is printed instead exactly when `step` is 0, or `step` is another number and `totalSteps` is 0; nothing else otherwise; Skip shows with a close handler; the main button shows with a next handler and reads "Done" exactly when the two numbers are equal |
| TooltipGuide.MissingNumbersReadDone | src/components/tooltip-guide.tsx:72-85 | a bubble given neither number shows no counter but a "Done" button |
| TooltipGuide.ZeroStepPrintsZero | src/components/tooltip-guide.tsx:72-76 | a step numbered 0, or a tour given as 0 steps long, prints a stray "0" where the counter would be |
| TooltipGuide.Start | src/components/tooltip-guide.tsx:99-102 | starting runs the tour from its first guide |
| TooltipGuide.Next | src/components/tooltip-guide.tsx:104-110 | the following guide, or the end of the tour on the last one with the step kept; the step stays in range |
| TooltipGuide.Skip | src/components/tooltip-guide.tsx:112-114 | skipping stops the tour where it is |
| TooltipGuide.CurrentGuide | src/components/tooltip-guide.tsx:122 | a guide is shown exactly while the tour runs and has guides, and it is the current step's |
| TooltipGuide.NextCalls | src/components/tooltip-guide.tsx:99-110 | any number of `next` calls after `start` keeps the step in range |
| TooltipGuide.TourWalksTheGuides | src/components/tooltip-guide.tsx:99-122 | after `start` and `k` calls of `next` the tour shows guide `k` |
| TooltipGuide.TourEndsAfterLastGuide | src/components/tooltip-guide.tsx:104-122 | one `next` per guide ends the tour on the last guide and shows nothing |
| TooltipGuide.DoneOnTheLastGuide | src/components/tooltip-guide.tsx:85-110 | numbering bubbles from 1 out of the tour's length, "Done" shows exactly where `next` ends the tour |
| TooltipGuide.TooltipTour.constructor | src/components/tooltip-guide.tsx:96-97 | the hook starts on step 0, inactive |
| TooltipGuide.TooltipTour.StartTour | src/components/tooltip-guide.tsx:99-102 | the state becomes `Start` of the old state |
| TooltipGuide.TooltipTour.NextStep | src/components/tooltip-guide.tsx:104-110 | the state becomes `Next` of the old state |
| TooltipGuide.TooltipTour.SkipTour | src/components/tooltip-guide.tsx:112-114 | the state becomes `Skip` of the old state |
| Proxy.HomeOf | src/proxy.ts:39 | admins are sent to the admin dashboard, every other role to the recruiter dashboard |
| Proxy.PrefixesExclude | src/proxy.ts:45-66 | no path falls under both guarded prefixes |
| Proxy.Route | src/proxy.ts:30-74 | the root sends a signed-in user with a row to their dashboard; admin paths need a session and the admin role, else go to the login or the recruiter dashboard; recruiter paths need only a session; all else passes |
| Proxy.AdministratorIsGuarded | src/proxy.ts:45-63 | the prefix test guards '/administrator' like '/admin', while '/login' is open |
| Proxy.RedirectsSettle | src/proxy.ts:30-74 | every redirect lands on a page the same visitor is let through, so requests do not bounce |
| Proxy.RecruiterPagesNeedOnlyASession | src/proxy.ts:66-72 | any signed-in user reaches recruiter pages, whatever the role; visitors are sent to sign in |
| Proxy.Respond | src/proxy.ts:77-88 | a path outside `config.matcher` is served without the proxy; a matched one gets `Route` |
| Proxy.PlainPathIsMatched | src/proxy.ts:86 | a path whose first segment avoids the excluded prefixes and whose last character ends no excluded extension is matched |
| Proxy.GuardedPagesAreMatched | src/proxy.ts:77-88 | '/', '/login' and both dashboards are matched, so the matcher changes nothing for them |
| Proxy.AssetsBypassTheGuard | src/proxy.ts:77-88 | '/admin/logo.png' reaches a visitor without a session, although `Route` alone would send them to sign in, while '/admin/users' still does |
| Proxy.RespondRedirectsSettle | src/proxy.ts:30-88 | with the matcher in front, every redirect still lands on a page the same visitor is let through |
| Sidebar.IsActive | src/components/admin-sidebar.tsx:60 | an item is active on its own page, and only on paths that start with its href |
| Sidebar.ActiveFlags | src/components/admin-sidebar.tsx:60 | an item is highlighted on its own page, only on paths that start with its href, and never without a path |
| Sidebar.SiblingPrefixIsNotActive | src/components/recruiter-sidebar.tsx:47 | a path sharing only a prefix with an href is not under it; a path below it is |
| Sidebar.ActiveHrefsNest | src/components/admin-sidebar.tsx:60 | two items highlighted together have nested hrefs |
| Sidebar.AtMostOneActive | src/components/admin-sidebar.tsx:60 | a menu without nested hrefs highlights at most one item |
| Sidebar.SingleSegmentsDoNotNest | src/components/admin-sidebar.tsx:16-47 | hrefs made of one segment below a common area never nest |
| Sidebar.SegmentsDoNotNest | src/components/admin-sidebar.tsx:16-47 | a menu of distinct single segments below one area has no nested hrefs |
| Sidebar.AdminSegments | src/components/admin-sidebar.tsx:16-47 | the six admin items are distinct single segments below '/admin/' |
| Sidebar.AdminHrefs | src/components/admin-sidebar.tsx:16-47 | every admin href is '/admin/' followed by its segment |
| Sidebar.AdminHrefsBefore | src/components/admin-sidebar.tsx:16-32 | the first three admin hrefs are '/admin/' followed by their segments |
| Sidebar.AdminHrefsFrom | src/components/admin-sidebar.tsx:33-47 | the last three admin hrefs are '/admin/' followed by their segments |
| Sidebar.AdminNames | src/components/admin-sidebar.tsx:16-47 | the admin segments contain no '/' and begin with distinct letters |
| Sidebar.AdminMenuHighlightsAtMostOne | src/components/admin-sidebar.tsx:16-60 | the admin sidebar highlights at most one item on any path |
| Sidebar.RecruiterSegments | src/components/recruiter-sidebar.tsx:13-34 | the four recruiter items are distinct single segments below '/recruiter/' |
| Sidebar.RecruiterHrefs | src/components/recruiter-sidebar.tsx:13-34 | every recruiter href is '/recruiter/' followed by its segment |
| Sidebar.RecruiterNames | src/components/recruiter-sidebar.tsx:13-34 | the recruiter segments contain no '/' and begin with distinct letters |
| Sidebar.RecruiterMenuHighlightsAtMostOne | src/components/recruiter-sidebar.tsx:13-47 | the recruiter sidebar highlights at most one item on any path |
| Sidebar.NewTestPageHighlightsTests | src/components/recruiter-sidebar.tsx:13-47 | on '/recruiter/tests/new' exactly the "Tests" item is highlighted |
| UploadRoute.Folder | src/app/api/upload/route.ts:22 | audio goes to 'audio', screen captures to 'screen-recordings', every other kind to 'video' |
| UploadRoute.ContentType | src/app/api/upload/route.ts:23 | audio is stored as 'audio/webm', everything else as 'video/webm' |
| UploadRoute.QuestionSuffix | src/app/api/upload/route.ts:26 | the suffix is '-q' and the question number when one is given, empty otherwise |
| UploadRoute.FileName | src/app/api/upload/route.ts:27 | the name starts with the submission id and kind, ends in '.webm', and its length is that of its parts |
| UploadRoute.QuestionSuffixIsMarked | src/app/api/upload/route.ts:26-27 | after the id and kind, the name reads '-q' exactly when a question number was given |
| UploadRoute.TimestampReadsBack | src/app/api/upload/route.ts:27 | the last dash-separated field before '.webm' parses back to the upload time |
| UploadRoute.Post | src/app/api/upload/route.ts:14-49 | a form missing its file, kind or submission id gets 400 and nothing is stored; otherwise the recording is stored under the kind's folder, type and name, answering 200, or 500 when the upload fails |
| UploadRoute.StoredRecordingsAreWebm | src/app/api/upload/route.ts:22-36 | every stored recording is a WebM file whose folder is 'audio' exactly when its type is audio |

## Left out

- Database, storage and environment: every Supabase query, the AWS SDK calls (`uploadToS3`, `generatePresignedUrl`) and the environment reads are out of scope. Their results are parameters of the decisions that use them.
- Concurrency: `Promise.all` in `generateMultiplePresignedUrls` and in the per-recruiter statistics is not modelled, and neither is `generateMultiplePresignedUrls`.
- Floating point: `formatFileSize`, `estimateUploadTime` and the simulated progress percentages of the upload helpers.
- Randomness and time: the `Math.random()` roll that triggers the rate limiter's cleanup is a boolean parameter. `Date.now()`, the ISO timestamp and the random string of `createSafeFileName` are parameters too. Each rate-limited call reads the clock once: the source reads `Date.now()` again in `cleanupExpiredEntries` and again for the `Retry-After` header, so an entry whose reset time falls between two readings is deleted and restarted at count 1 by the source but counted against its old window by `RateLimit.RateLimiter.CheckRateLimit`, `RateLimit.WithRateLimit` and `Middleware.ApplyRateLimit`.
- `Schemas.SanitizeHtml`: the regular-expression passes that strip scripts, tags and event handlers are one abstract `strip` function. Only the final angle-bracket encoding and the trim are modelled exactly.
- Zod's own checks `.uuid()` and `.email()` are predicates given as parameters. Error formatting in `validateRequest` is not modelled.
- Session storage: `updateActivity`, `initSession`, `getSession`, `clearSession`, `setupActivityTracking` and `watchSession` read and write `sessionStorage` and timers, and are left out.
- Browser and event wiring: listener registration, intervals and timeouts, MediaStream objects, DOM focus calls and `localStorage` access. The model keeps the decisions they feed, with the browser's state as parameters or fields.
- The assessment flow, the recorder lifecycle and violation-driven disqualification are not part of this model.
- Dates: `new Date(...)` parsing in the dashboard's date range and in link expiry is a `dateOf` parameter, or an integer instant.
- `UploadRoute.Post`: a failing `request.formData()` and a throwing S3 call both end in the same 500 reply. The model has one flag for the upload's success and does not model the `details` text or the returned URL.
- `Proxy.Route`: the session refresh done by the Supabase client is not modelled. Who is signed in and the role in the `users` row are parameters.
- `UploadUtils.BackoffDelay`: the delays and the multiplier are exact reals, so double-precision rounding, `Infinity` and `NaN` are not modelled. `maxRetries` is an integer, so a fractional retry count is not modelled either.
- `Proxy.Respond`: the matcher's `.` does not match line terminators, and a path is taken to hold none. How Next.js applies its matcher beyond the regular expression (locales, `basePath`) is not modelled.
- `UploadUtils.UploadInChunks: requires chunkSize > 0`. The source divides by the chunk size, so with 0 it computes an infinite or NaN chunk count.
- Case conversion: `toLowerCase`/`toUpperCase` act on ASCII letters only. Character codes are Dafny character values, which match `charCodeAt` for characters of the Basic Multilingual Plane only. Strings are sequences of Unicode scalar values, while JavaScript strings are sequences of UTF-16 code units. A character outside the Basic Multilingual Plane therefore counts one in the model where `.length`, zod's `.min`/`.max`, `substring` and regular expressions without the `u` flag count two code units. So `Schemas.ReplaceUnsafe` and `Schemas.SanitizeFileName` turn such a character into one '_' where the source writes two. `Schemas.LimitLength`, `Schemas.ParseWritingSubmission`, `Schemas.ParseCandidate`, `Schemas.ParseNote`, `Schemas.ParseScoreUpdate` and `Schemas.UploadMetadataValid` measure their bounds in characters, not code units. `QuestionTable.Prefix` and `QuestionTable.Truncate` never split a surrogate pair. `AntiCheat.ClipboardReports` counts such a character once in the pasted length.
- `UploadUtils.ValidateFile`: the rejection message's size text comes from `toFixed` and is not reproduced. Only the accept/reject decision and the branch taken are modelled.
- `AdminSubmissions.TotalScore` takes integer scores. The `toFixed` rounding of fractional scores is not modelled.
- Server actions called from the tables: `deleteQuestion`, `toggleQuestionActive`'s database update and `handleDeleteRecruiter` are left out. Only the argument they are sent is modelled.
- `Kanban.CardTextOf`: the dates and scores shown on a card are not modelled. The test type is a string, so a missing test (which prints "undefined Test") is not modelled either.
- Screen reader announcements (`useScreenReaderAnnounce`) and `SkipToContent` only touch the DOM, and are left out.

## Findings

| source | as written | input that shows it | evidently intended | confidence | as-written member | corrected member |
|---|---|---|---|---|---|---|
| src/lib/validation/schemas.ts:190-193 | a name longer than 255 characters without a dot takes the whole name as its extension, so the result is the name plus a leading '.', longer than before | a name of 300 letters 'a' gives 301 characters | the sanitised name is at most 255 characters | not executed | Schemas.SanitizeFileNameAsWritten, Schemas.DotlessLongNameIsNotShortened | Schemas.LimitLength, Schemas.SanitizeFileName |
