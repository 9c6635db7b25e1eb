# opinion-monitor: a verified model of the session-refresh coordinator and its server-side counterparts

opinion-monitor is a video upload and analysis dashboard. This project models
the parts of it that make decisions, and proves what they promise.

- **The web client's session-refresh coordinator** (frontend/lib/api.ts).
  - The request interceptor attaches `Bearer <access_token>`.
  - The response interceptor decides, for each failed request, whether to propagate it, queue it behind the refresh in flight, or own a new refresh.
  - `processQueue` settles every waiter with one shared result.
  - JavaScript runs one event at a time. "Concurrency" is therefore an interleaving of three events: a 401 arrives, the refresh call succeeds, or the refresh call fails.
  - `RefreshProtocol` gives the pure step semantics of those events, runs over event traces, and the invariant every event keeps.
  - `ApiClient.Coordinator` is the imperative object. It holds the module-level `isRefreshing` and `failedQueue` as fields and has one method per event, each proved to take exactly the step `RefreshProtocol` defines.
- **The auth context** (frontend/lib/auth.tsx).
  - `checkAuth`, `login`, `register` and `logout` are methods of `AuthContext.AuthProvider`.
  - They change the same `localStorage` object (`Session.LocalStorage`) that the coordinator reads.
- **The server's `AuthMiddleware`** (backend/internal/api/auth.go).
  - Go's `strings.Split` is modelled exactly, with its `Join` inverse.
  - Token validation is an oracle passed in as a function.
  - `EndToEnd` proves that the header the client builds is the header the server parses, for tokens the HTTP transport carries unchanged (`EndToEnd.HeaderSafe`).
- **`IsVideoFile`** (backend/pkg/video/processor.go), with Go's `filepath.Ext` on Unix.
- **`cleanJSONResponse` and the base-URL trim** (backend/pkg/ai/openai.go). Go's `strings.TrimSpace` is modelled over the full `unicode.IsSpace` set.
- **The list handlers' pagination** (video.go, report.go, job.go).
  - The query parameters go through Go's `strconv.Atoi`, whose errors are dropped.
  - The offset is computed in 64-bit `int`, which wraps.
- **The upload filter and result** of `VideoHandler.Upload`.
  - It is an imperative loop that appends videos and pushes job ids onto the job queue.
  - Saving and the database inserts come in as a parameter.
- **The ownership decisions** of `ReportHandler.GetByVideoID` and `JobHandler.GetStatus`. The database is a map from id to record.

## How the code differs from an idealised single-flight refresh

The model follows the code. It departs from the protocol as usually described in these ways:

- **No refresh token.** The code sets `isRefreshing` (frontend/lib/api.ts:57) before it checks for a refresh token, and only the `try` branch resets it (frontend/lib/api.ts:89-91).
  - After the no-token branch, the coordinator stays "refreshing" with nothing in flight. Every later 401 queues and is never settled (`RefreshProtocol.MissingRefreshTokenWedges`, `RefreshProtocol.WedgedForever`).
  - That branch also sets `window.location.href = '/login'`. In a browser this reloads the page and resets the module state, so the wedge lasts only until navigation. This is why it is not listed as a finding.
  - The owner is rejected with the original 401, not with a "no refresh credential" error.
- **Queued requests are replayed unmarked.** A queued request is replayed without `_retry` (frontend/lib/api.ts:48-50). If it fails with 401 again, it can start a second refresh (`RefreshProtocol.QueuedReplayCanRefreshAgain`). Only the owner is marked (`RefreshProtocol.ReplayedOwnerNeverRefreshesAgain`).
- **Refresh failure.** Waiters and the owner are rejected with the refresh call's own error, not with a generic "re-authentication required" error.
- **Empty tokens count as missing.** `localStorage.getItem` returning `""` is falsy in JavaScript, so an empty stored token counts as no token (`Session.Truthy`).

## Model

| member | source | states |
|---|---|---|
| Session.Cleared | frontend/lib/api.ts:80-82 | removing the three session keys deletes exactly `access_token`, `refresh_token` and `user` and keeps every other entry with its value |
| Session.SignInWritesSessionKeys | frontend/lib/auth.tsx:50-52 | signing in adds exactly the three session keys, leaves every other entry alone, and makes the token keys truthy exactly when the tokens are non-empty |
| Session.ClearUndoesSignIn | frontend/lib/auth.tsx:67-70 | clearing after a sign-in gives the same store as clearing before it |
| Session.LocalStorage.GetItem | frontend/lib/api.ts:30 | `getItem` returns the stored value exactly when the key is present, and null otherwise |
| Session.LocalStorage.SetItem | frontend/lib/api.ts:69 | `setItem` maps the key to the value and changes nothing else |
| Session.LocalStorage.RemoveItem | frontend/lib/api.ts:80 | `removeItem` removes exactly that key |
| RefreshProtocol.Authorize | frontend/lib/api.ts:29-35 | with a (truthy) access token the request gets `Authorization: Bearer <token>`; without one the request is unchanged; id and `_retry` are always kept |
| RefreshProtocol.ResumeAll | frontend/lib/api.ts:16-26 | `processQueue` yields one outcome per waiter, in queue order |
| RefreshProtocol.InitInv | frontend/lib/api.ts:13-14 | at module load nothing is refreshing or queued, the invariant holds, and the coordinator is not wedged |
| RefreshProtocol.StepKeepsInv | frontend/lib/api.ts:38-105 | every event keeps the invariant: a call is in flight only while `isRefreshing` and for a marked owner, nothing waits while not refreshing, calls = completions (+1 while in flight), and queued requests are unmarked |
| RefreshProtocol.RunKeepsInv | frontend/lib/api.ts:38-105 | the invariant holds after any interleaving of events |
| RefreshProtocol.SingleFlight | frontend/lib/api.ts:56-63 | along any interleaving from module load, at most one refresh call is outstanding, and one is outstanding exactly when its owner is suspended on it |
| RefreshProtocol.NonRefreshableErrorPropagates | frontend/lib/api.ts:43-104 | a non-401 failure, or a 401 on a request already marked `_retry`, is rejected with the original error and leaves the flag, the queue and the store unchanged |
| RefreshProtocol.UnauthorizedQueuesWhileRefreshing | frontend/lib/api.ts:44-53 | while refreshing, a 401 appends exactly one waiter for that request and changes nothing else, issuing no call |
| RefreshProtocol.FirstUnauthorizedOwnsRefresh | frontend/lib/api.ts:56-65 | the first 401 with no refresh running marks the request, sets `isRefreshing`, and issues exactly one call carrying the stored refresh token |
| RefreshProtocol.MissingRefreshTokenWedges | frontend/lib/api.ts:92-104 | with no refresh token, no call is made; the three keys are removed, the redirect is set, the original 401 is rejected, and `isRefreshing` stays true with nothing in flight |
| RefreshProtocol.WedgedForever | frontend/lib/api.ts:44-57 | once wedged, the coordinator stays wedged along every trace: no further call, and the queue only grows |
| RefreshProtocol.BurstQueuesBehindRefresh | frontend/lib/api.ts:44-53 | while refreshing, a burst of 401s on unmarked requests queues all of them in arrival order and nothing else changes |
| RefreshProtocol.ConcurrentFailuresShareOneRefresh | frontend/lib/api.ts:43-65 | N unmarked requests failing with 401 while idle produce exactly one refresh call, owned by the first; the other N-1 wait in order |
| RefreshProtocol.RefreshSuccessReplaysAll | frontend/lib/api.ts:67-75 | after success the store holds exactly the new pair (other entries untouched); every waiter, in queue order, and the owner are replayed with `Bearer <new token>`; the queue is empty and the flag is false |
| RefreshProtocol.RefreshFailureRejectsAll | frontend/lib/api.ts:76-91 | after failure every waiter and the owner are rejected with the same refresh error; the three keys are gone; the redirect is set; the queue is empty and the flag is false |
| RefreshProtocol.RefreshErrorNeverReenters | frontend/lib/api.ts:63-65 | the refresh goes through the bare `axios.post`, not the `api` instance, so its failure never passes the interceptors: it issues no further call and closes the episode |
| RefreshProtocol.LaterRequestsCarryNewToken | frontend/lib/api.ts:69-70 | after a successful refresh with a non-empty new access token, every request goes out with that token |
| RefreshProtocol.ReplayedOwnerNeverRefreshesAgain | frontend/lib/api.ts:56 | the replayed owner is marked, so a second 401 on it is rejected and changes nothing |
| RefreshProtocol.QueuedReplayCanRefreshAgain | frontend/lib/api.ts:48-50 | a replayed waiter is unmarked, so a second 401 on it, once idle, starts a new refresh call |
| RefreshProtocol.ScenarioTwoRequestsOneRefresh | frontend/lib/api.ts:38-105 | A and B fail with 401; the refresh returns ("T2", "R2"); one call is made; A (marked) and B (unmarked) are both replayed with "Bearer T2", and the store holds the new pair |
| ApiClient.Coordinator.constructor | frontend/lib/api.ts:13-14 | the object starts in the module-load state |
| ApiClient.Coordinator.AttachToken | frontend/lib/api.ts:29-35 | the interceptor's result is the request `Authorize` specifies for the current store |
| ApiClient.Coordinator.OnResponseError | frontend/lib/api.ts:40-104 | the interceptor's error path takes exactly the step `OnError` defines (new fields, store, and outcome) and keeps the invariant |
| ApiClient.Coordinator.ProcessQueue | frontend/lib/api.ts:16-26 | the forEach loop settles each waiter in order with the one result and empties the queue |
| ApiClient.Coordinator.OnRefreshSucceeded | frontend/lib/api.ts:67-91 | the success path (two writes, `processQueue`, the owner's header, then `finally`) ends in exactly the state and outcomes `OnRefreshSuccess` defines, and keeps the invariant |
| ApiClient.Coordinator.OnRefreshFailed | frontend/lib/api.ts:76-91 | the failure path (`processQueue`, three removals, the redirect, then `finally`) ends in exactly the state and outcomes `OnRefreshFailure` defines, and keeps the invariant |
| AuthContext.AuthProvider.constructor | frontend/lib/auth.tsx:18-19 | `user` starts null and `loading` true |
| AuthContext.AuthProvider.CheckAuth | frontend/lib/auth.tsx:26-45 | `me()` is called exactly when both tokens are truthy; on success `user` is set; on failure the three keys are removed; `loading` ends false on every path |
| AuthContext.AuthProvider.SignIn | frontend/lib/auth.tsx:49-54 | the store gets the pair and the serialised user, `user` is set, and the route is /videos |
| AuthContext.AuthProvider.Login | frontend/lib/auth.tsx:47-55 | a failed call is rethrown and changes nothing; a successful one stores the pair and user, sets `user`, and routes to /videos |
| AuthContext.AuthProvider.Register | frontend/lib/auth.tsx:57-65 | the same transitions as login, after `register` |
| AuthContext.AuthProvider.Logout | frontend/lib/auth.tsx:67-73 | the three keys are removed, `user` is null, and the route is /login |
| AuthContext.SignInFeedsCoordinator | frontend/lib/auth.tsx:50-52 | the keys login writes are the ones the client reads: the next request carries the new access token, and the next 401 refreshes with the new refresh token |
| AuthContext.LogoutMatchesRefreshTeardown | frontend/lib/auth.tsx:67-70 | logout and the coordinator's refresh-failure teardown remove the same keys, leaving no token behind |
| AuthMiddleware.Split | backend/internal/api/auth.go:239 | `strings.Split` returns at least one part, and no part contains the separator |
| AuthMiddleware.JoinSplit | backend/internal/api/auth.go:239 | joining the parts of a split gives back the original header |
| AuthMiddleware.SplitNoSeparator | backend/internal/api/auth.go:239 | a string without the separator splits into itself |
| AuthMiddleware.SplitAfterWord | backend/internal/api/auth.go:239 | a separator after a separator-free word ends the first part |
| AuthMiddleware.ParseHeaderExact | backend/internal/api/auth.go:239-246 | the format guard passes exactly the headers `"Bearer " + t` with no space in t, and hands on exactly t |
| AuthMiddleware.AuthenticateVerdicts | backend/internal/api/auth.go:230-257 | empty header: 401 "Authorization header required"; bad format: 401 "Invalid authorization header format"; failed validation: 401 "Invalid token"; otherwise continue with the claims' user id and name |
| AuthMiddleware.OnlyTokenIsValidated | backend/internal/api/auth.go:246-251 | validators that agree on the header's token give the same verdict |
| AuthMiddleware.BearerRoundTrip | backend/internal/api/auth.go:239-246 | `"Bearer " + t` parses back to t exactly when t has no space, and fails otherwise |
| AuthMiddleware.SchemeIsCaseSensitive | backend/internal/api/auth.go:240 | a lower-case "bearer" header is refused as malformed |
| EndToEnd.ClientHeaderAuthenticates | frontend/lib/api.ts:29-35 | a stored token of printable ASCII and tabs, with no space and no tab at either end (so the transport carries it unchanged), reaches the server's validator as it is; with no token stored, the server refuses before validating |
| EndToEnd.SpacedTokenRefused | backend/internal/api/auth.go:239-244 | a stored token of printable ASCII and tabs with a space between other characters (so the transport carries it unchanged) is sent, but the server refuses its format |
| VideoFormat.Lower | backend/pkg/video/processor.go:95 | lower-casing maps each character and keeps the length |
| VideoFormat.ExtExact | backend/pkg/video/processor.go:95 | `filepath.Ext` returns the suffix from the last '.' of the final path element, or "" when that element has no '.' |
| VideoFormat.NoPlainDotSnoc | backend/pkg/video/processor.go:95 | appending a character other than '.' creates no extension where there was none |
| VideoFormat.PlainTailSnoc | backend/pkg/video/processor.go:95 | appending a character other than '.' and '/' keeps an extension's tail free of both |
| VideoFormat.ExtOfSuffix | backend/pkg/video/processor.go:95 | a dot-led suffix with no other dot and no '/' is the extension, whatever precedes it |
| VideoFormat.ExtOfLower | backend/pkg/video/processor.go:95 | the extension of the lower-cased name is the lower-cased extension |
| VideoFormat.CaseInsensitive | backend/pkg/video/processor.go:95 | a name and its lower-case form are judged alike |
| VideoFormat.IsVideoFileExact | backend/pkg/video/processor.go:94-105 | accepted exactly when the final element ends in a '.'-led suffix whose lower-case form is one of the eight listed extensions |
| VideoFormat.AcceptedEndsInExt | backend/pkg/video/processor.go:94-105 | an accepted name has a non-empty extension, which starts at a '.' of the final path element |
| VideoFormat.ExtAtDot | backend/pkg/video/processor.go:95 | a '.' followed only by characters other than '.' and '/' starts the extension |
| VideoFormat.ExtWithoutDot | backend/pkg/video/processor.go:95-104 | a final path element without a '.' has extension "" |
| VideoFormat.UpperCaseNameAccepted | backend/pkg/video/processor.go:95 | "CLIP.MP4" is accepted |
| VideoFormat.LastDotDecides | backend/pkg/video/processor.go:95 | "a.txt.mp4" is accepted and "a.mp4.txt" rejected |
| VideoFormat.DotlessFinalElementRejected | backend/pkg/video/processor.go:95 | "dir.mp4/file" and "mp4" are rejected |
| ModelReply.BaseUrl | backend/pkg/ai/openai.go:38-42 | an empty base adds no option; otherwise at most one trailing '/' is removed, and only when present |
| ModelReply.TrimLeftSuffix | backend/pkg/ai/openai.go:195 | trimming the left keeps a suffix with no leading space, dropping only spaces |
| ModelReply.TrimRightPrefix | backend/pkg/ai/openai.go:195 | trimming the right keeps a prefix with no trailing space, dropping only spaces |
| ModelReply.TrimRightKeepsHead | backend/pkg/ai/openai.go:195 | trimming the right does not expose a leading space |
| ModelReply.TrimSpaceTrimmed | backend/pkg/ai/openai.go:195 | `TrimSpace` leaves no white space at either end |
| ModelReply.TrimSpaceSlice | backend/pkg/ai/openai.go:195 | `TrimSpace` returns a contiguous piece of its input |
| ModelReply.TrimSpaceKeepsTrimmed | backend/pkg/ai/openai.go:199 | `TrimSpace` is the identity on a trimmed string |
| ModelReply.TrimLeftPadding | backend/pkg/ai/openai.go:195 | leading white space does not change the left trim |
| ModelReply.TrimRightPadding | backend/pkg/ai/openai.go:199 | trailing white space does not change the right trim |
| ModelReply.TrimSpaceAppend | backend/pkg/ai/openai.go:199 | white space appended at the end does not change `TrimSpace` |
| ModelReply.TrimLeftAllSpace | backend/pkg/ai/openai.go:195 | an all-space string trims to empty |
| ModelReply.TrimSpacePadding | backend/pkg/ai/openai.go:195-199 | white space added at either end does not change `TrimSpace` |
| ModelReply.SliceTrans | backend/pkg/ai/openai.go:193-200 | a contiguous piece of a contiguous piece is a contiguous piece |
| ModelReply.TrimAffixSlice | backend/pkg/ai/openai.go:196-198 | `TrimPrefix` and `TrimSuffix` return contiguous pieces of their input |
| ModelReply.CleanJsonTrimmed | backend/pkg/ai/openai.go:199 | the cleaned reply has no white space at either end |
| ModelReply.CleanJsonSlice | backend/pkg/ai/openai.go:193-200 | the cleaned reply is a contiguous substring of the reply, never longer |
| ModelReply.JsonFenceUnwrapped | backend/pkg/ai/openai.go:195-199 | a reply fenced as "```json" newline X newline "```", with white space around it, yields X trimmed |
| ModelReply.BareFenceUnwrapped | backend/pkg/ai/openai.go:195-199 | a reply in a bare "```" fence yields X trimmed |
| ModelReply.UnfencedOnlyTrimmed | backend/pkg/ai/openai.go:195-199 | a reply with no fence at either end is only trimmed |
| ModelReply.OneClosingFenceRemoved | backend/pkg/ai/openai.go:198 | only one closing fence is removed: X + "``````" yields X + "```" |
| Pagination.ScanDigits | backend/internal/api/video.go:127 | the `ParseUint` digit loop yields a value within uint64, and only for all-digit input |
| Pagination.Atoi | backend/internal/api/video.go:127-128 | the parsed value always lies within int64 |
| Pagination.Wrap64 | backend/internal/api/video.go:138 | the int64 result lies within range, is congruent to the exact value modulo 2^64, and equals it when it fits |
| Pagination.Decimal | backend/internal/api/video.go:127 | the decimal form of a number is a non-empty string of digits |
| Pagination.ScanAppend | backend/internal/api/video.go:127 | one more digit extends a scan that has not overflowed |
| Pagination.ScanDecimal | backend/internal/api/video.go:127 | scanning a number's digits gives the number back |
| Pagination.AtoiDecimal | backend/internal/api/video.go:127-128 | `Atoi` reads back the decimal form of every int64 value, negative ones included |
| Pagination.ShortScan | backend/internal/api/video.go:127 | a scan of at most 19 characters never reaches the range error |
| Pagination.ScanSyntax | backend/internal/api/video.go:127 | a scan that does not overflow fails with a syntax error exactly when some character is not a digit |
| Pagination.MalformedReadsZero | backend/internal/api/video.go:127 | a short value with a non-digit past the optional sign parses to 0 |
| Pagination.NormalizeBounds | backend/internal/api/video.go:127-136 | page is within [1, MaxInt64] and kept exactly when the parsed value is at least 1 (else 1); the page size is within [1,100] and kept exactly when the parsed value is in range (else 20) |
| Pagination.DefaultsApply | backend/internal/api/report.go:51-59 | absent, empty, or malformed parameters of at most 19 characters (a non-digit past the optional sign) give page 1 of 20 at offset 0 |
| Pagination.DefaultTextsParse | backend/internal/api/video.go:127-128 | the default texts "1" and "20" parse to 1 and 20 |
| Pagination.InRangeKept | backend/internal/api/job.go:46-54 | a page of at least 1 and a size within [1,100], written in decimal, are used as given |
| Pagination.OffsetExact | backend/internal/api/video.go:138 | the offset is (page-1)*pageSize, and at least 0, whenever that product fits in int64 |
| Pagination.ClampOffsetExact | backend/internal/api/video.go:131-138 | on the parsed values, the offset is (page-1)*pageSize, and at least 0, whenever that product fits in int64 |
| Pagination.OffsetIsWrappedProduct | backend/internal/api/report.go:61 | the offset is the int64 wrap of (page-1)*pageSize |
| Pagination.OffsetWrapsNegative | backend/internal/api/job.go:56 | as written, page 4611686018427387904 with the default size gives offset -20 |
| Pagination.LongMalformedPageWraps | backend/internal/api/video.go:127-138 | as written, the malformed page "99999999999999999999x" reads as MaxInt64 and gives offset -40 |
| Pagination.LongMalformedOverflows | backend/internal/api/video.go:127 | the scan of "99999999999999999999x" hits the range error on the twentieth digit, before the letter |
| Pagination.MaxPageClampWraps | backend/internal/api/video.go:131-138 | page MaxInt64 with page size 20 is kept as it is, and its offset wraps to -40 |
| Pagination.NinesScan | backend/internal/api/video.go:127 | k nines (k at most 19) scan to 10^k - 1 |
| Pagination.ScanPrefix | backend/internal/api/video.go:127 | a scan that reads a whole prefix carries its value on into the rest of the text |
| Pagination.HugeClampWraps | backend/internal/api/video.go:131-138 | page 2^62 with page size 20 is kept as it is, and its offset wraps to -20 |
| Pagination.NormalizeChecked | backend/internal/api/video.go:131-138 | with the page also clamped to MaxPage, the offset is exactly (page-1)*pageSize and within [0, MaxInt64] |
| Pagination.ClampChecked | backend/internal/api/video.go:131-138 | on the parsed values, the page is also capped at MaxPage; the page size is the one the handlers use, the page is theirs or MaxPage, and the offset is exactly (page-1)*pageSize within [0, MaxInt64] |
| Pagination.CheckedAgreesBelowMaxPage | backend/internal/api/video.go:131-138 | up to MaxPage the clamped normalisation equals the one the handlers run |
| Pagination.ClampCheckedAgrees | backend/internal/api/video.go:131-138 | on the parsed values, up to MaxPage the capped clamp equals the one the handlers run |
| VideoHandler.JobQueue.constructor | backend/internal/worker/queue.go:13-17 | the queue starts empty |
| VideoHandler.JobQueue.Push | backend/internal/worker/queue.go:19-21 | a push appends the video id |
| VideoHandler.Ids | backend/internal/api/video.go:107 | the pushed ids are the uploaded videos' ids, in order |
| VideoHandler.PushedAppend | backend/internal/api/video.go:106-108 | pushing one more stored video's id extends the pushed ids by that video |
| VideoHandler.StoreAll | backend/internal/api/video.go:55-110 | the loop returns exactly the videos `UploadedPrefix` defines for all the files, and the queue gets their ids appended in order |
| VideoHandler.Upload | backend/internal/api/video.go:33-122 | 400 "Failed to parse form", 400 "No files provided", 500 "Failed to create upload directory"; otherwise the queue gets the uploaded ids in order, and the reply is 400 "No valid videos uploaded" when none was stored, else 201 with `count` equal to the number of videos |
| VideoHandler.UploadedAreAdmitted | backend/internal/api/video.go:57-109 | every uploaded video is pending, owned by the caller, within the size limit, has a video extension, and comes from a stored input file with that name and size; there are never more videos than files |
| VideoHandler.AllStoredKeepsOrder | backend/internal/api/video.go:57-110 | when every save and insert succeeds, the videos are exactly the admitted files, in input order |
| VideoHandler.MatchesSnoc | backend/internal/api/video.go:108 | appending a video made from a file keeps videos and files matched position by position |
| VideoHandler.SizeAtLimitUploaded | backend/internal/api/video.go:63-66 | a video file of exactly the size limit is uploaded, and one byte more is skipped |
| ReportHandler.NotOwnedHidesReport | backend/internal/api/report.go:24-33 | a caller who does not own the video gets 404 "Video not found" whatever the reports table holds |
| ReportHandler.GetByVideoIDOutcomes | backend/internal/api/report.go:20-46 | 200 exactly when the caller owns the video and it has a report, which is then that video's; 404 "Report not found" exactly when owned without a report; every error is 404 |
| JobHandler.GetStatusOutcomes | backend/internal/api/job.go:20-41 | 404 "Job not found" exactly for a missing job; 403 "Access denied" exactly when the video's owner differs (or the video is gone and the caller's id is not 0); otherwise 200 with the job |
| JobHandler.OkMeansOwned | backend/internal/api/job.go:35-38 | for every user id of at least 1, a job is returned only when its video exists and belongs to that user, and a job whose video is gone is denied |

## Left out

- Network I/O. The refresh POST is an event with a success or failure result. The replayed request (`api(originalRequest)`) is an outcome, not a further call. Promises are waiters that the model settles.
- `window.location.href = '/login'` is the `redirected` flag. The page reload it causes, and the `typeof window` guard (always true in a browser), are not modelled.
- `authAPI.me()`, `login` and `register` are parameters holding their results. Their own passage through the interceptors is not modelled.
- `JSON.stringify(user)` is a parameter `userJson`. `router.push` is the `route` field.
- `RefreshProtocol.Event.StorageWritten` lets a trace change the store, as login or logout do. Traces do not require that to come from `AuthProvider`.
- `auth.ValidateAccessToken` is an oracle: JWT signing and verification are not modelled.
- VideoFormat.Lower: lower-cases ASCII letters only, because Go's full Unicode case mapping (for example U+212A KELVIN SIGN to 'k') is not modelled. Windows path separators are not modelled either.
- EndToEnd.ClientHeaderAuthenticates and EndToEnd.SpacedTokenRefused: the HTTP transport's handling of header values is not modelled. The browser strips spaces and tabs at either end, refuses CR, LF, NUL and characters above U+00FF, and sends U+0080 to U+00FF as single bytes; Go's `textproto` strips spaces and tabs and answers 400 to other control characters before the middleware runs. Both lemmas therefore speak only of tokens that `EndToEnd.HeaderSafe` admits (printable ASCII or tab, no space or tab at either end), which both ends carry unchanged.
- Strings are sequences of code points. Invalid UTF-8 bytes, which Go's string functions treat specially, are not modelled.
- VideoHandler.Upload:
  - saving the file, `ffprobe` duration, file paths, the clock and the database inserts arrive as `persist(i)`;
  - the removal of a saved file after a failed insert is not modelled;
  - the orphan video row left by a failed job insert is not modelled;
  - the job channel's blocking when its buffer of 100 is full is not modelled.
- Pagination and the list handlers:
  - the SQL queries (`Count`, `Order`, `Limit`, `Offset`) and the `status` filter of the video list are not modelled;
  - only the page, page-size and offset values handed to them are.
- Database errors other than "record not found" (the 500 replies) are not modelled.
- Soft-deleted records are absent from the maps.
- Path parameters (`c.Param("id")`) are modelled as already-parsed ids.
- `VideoHandler.Get` and `Delete` (file removal and soft delete) are not modelled.
- The Register, Login and RefreshToken handlers, the workers, the Whisper and OpenAI calls, and the page components are not modelled.

## Findings

| source | as written | input that shows it | evidently intended | confidence | as-written member | corrected member |
|---|---|---|---|---|---|---|
| backend/internal/api/video.go:138 | `offset := (page - 1) * pageSize` in 64-bit `int`, with page only bounded below (the same line is at backend/internal/api/report.go:61 and backend/internal/api/job.go:56) | `?page=4611686018427387904` with the default page size 20: (2^62-1)*20 = 5*2^64 - 20 wraps to offset -20 | the offset is (page-1)*pageSize and never negative, for every page accepted | not executed | Pagination.OffsetWrapsNegative | Pagination.NormalizeChecked |
| backend/internal/api/video.go:127 | `page, _ := strconv.Atoi(c.DefaultQuery("page", "1"))` drops the error, and `Atoi` returns MaxInt64 with its range error; the page is only bounded below, so this reaches the wrap of backend/internal/api/video.go:138 | `?page=99999999999999999999x`: the range check fires on the twentieth digit before the letter, so the page is MaxInt64 and the offset (2^63-2)*20 = 10*2^64 - 40 wraps to -40 | the offset is (page-1)*pageSize and never negative, whatever the page text | not executed | Pagination.LongMalformedPageWraps | Pagination.NormalizeChecked |
