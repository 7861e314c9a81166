# CallToVerify: a verified model

CallToVerify verifies a phone number by having its owner send a text or place a call to a SIM
that the service controls. The coordinator hands out a number and a code, receiver devices
report what arrives, and the coordinator matches the two. This project models that protocol
and the caches, limiters and buffers around it, and proves what they keep.

`dafny verify dfyconfig.toml` checks everything (Dafny 4.11).

## How the model is built

- `Store` holds the tables as values and the store calls as functions of them. A number pick
  with ties, a lookup with `LIMIT 1` and a fresh id are relations, so the model allows every
  answer the database could give. Times are milliseconds, the precision of stored timestamps.
- `Protocol` is the transition system. Each store call of each request is one step; starts,
  inbounds, sweeps, prunes, heartbeats and device changes interleave without restriction. A
  request's record outlives it, so a state also holds every answer given. All theorems about
  runs are about `Exec(cfg, acts)` for every action sequence.
- `SessionRules`, `Resolution`, `Soundness`, `Completeness`, `VoiceRace` (with `VoiceRaceBound`),
  `PendingCap`, `Abuse` (with `AbuseBound` and `StalledCount`) and `Backends` each carry one
  family of theorems over those runs.
- `InboundAnswers`, `StartAnswers`, `Blocking`, `AuditTrail` and `Expiry` say over the same runs
  what each answer, block, audit row, attempt, notification and expiry means, in terms of the
  rows at the request's own steps and with the constants written out.
- `Tables` and `Service` are the code: a store object whose methods change its tables, and the
  loops and local variables of `Start` and `Inbound` over it. Between store calls other
  requests take any steps. Each method's effect is proved to be a run of `Protocol` that ends in
  the answer it returns, so the theorems hold of the loops.
- `Codes`, `Timestamps`, `TokenBucket`, `InboundThrottle`, `RedisWindow`, `NonceCache`,
  `DeviceAuth` (with `DevicePass`), `PiRetryQueue` and `AndroidQueue` stand alone. Mutable
  objects are classes proved against functions, and the theorems are about those functions.

## Where the code and its documentation differ

- `ratelimit.go:11-14` says the sweep cannot change decisions. That holds exactly when the burst
  is at least one or nothing is minted (`TokenBucket.GcIsInvisibleIff`).
- The cap on pending sessions is read at the pick and not again at the insert. It holds exactly
  for starts that do not overlap; with two in flight it is exceeded, whatever the cap
  (`PendingCap.CapHoldsIffNoOverlap`). Each further overlapping start adds at most one
  (`PendingCap.CapUpToOverlap`).
- The nonce TTL of 600 s equals the span of accepted timestamps on whole-second clocks only, and
  the clock is read before the body and the device row, so a stalled copy checks its nonce
  late. A TTL of 601 s, less a clock tick, plus the longest stall is exactly what makes a signed
  pair single-use (`DeviceAuth.SingleUseIffTtlCovers`, `DeviceAuth.ShippedTtl`).
- `InboundQueue.kt:14-15` says the buffer survives process death. It is written with `apply()`,
  so a kill undoes what was not on disk yet: finished enqueues are lost and removed events come
  back (`AndroidQueue.BalancedIffDiskCurrent`).
- `retry.py` trims with `items[-max_items:]`, which keeps everything when `max_items` is zero
  (`PiRetryQueue.BoundedIffPositive`).
- `redis.go:48-49` says a window would never reset if its expiry could not be set. The key
  contains the minute, so the window does reset and only the key leaks
  (`RedisWindow.RefusedIffWindowFull` needs no expiry).
- `store.go:45` says sessions outlive a deleted device with their number set to null. SQLite
  keeps the dangling id. Later answers show the difference exactly if a request in flight held
  one of the device's numbers (`Backends.DeletionInvisibleIffUnheld`).
- `VerifySession` looks at the status only. A session found before its expiry can be verified
  after it (`Completeness.VerifiedAfterExpiry`), so soundness states expiry at the moment of the
  request's own lookup.
- The auto-block after five failures counts rows that are written last. Inbounds of one sender
  that overlap can each miss the others' rows: with k under way at a time, exactly up to 3 + 2k
  failures get through in ten minutes (`AbuseBound.FailureBoundIsExact`). There the limiter may
  admit every signal. The shipped one (60 a minute, burst 10) admits at most 610 signals of a
  sender in ten minutes (`TokenBucket.WindowBound`), so from k = 304 on it binds first unless
  signals admitted earlier stall before they are matched.
- An app may configure any code length, but only codes of 4 to 12 digits are ever read out of a
  message: its other sms and dtmf sessions cannot be verified
  (`StartAnswers.OddLengthsNeverVerify`).
- The flood count's window is anchored at an earlier clock reading. If the count is stalled, a
  prune that keeps the whole failure window can still delete rows it should see, and a block is
  missed (`StalledCount.PruneMissesBlock`).

## Model

| member | source | states |
|---|---|---|
| `Soundness.VerifiedIsJustified` | coordinator/internal/verify/service.go:233-316 | Over every interleaving: a verified session was won by a request whose own ownership check saw its device own the number, and whose own later lookup found the session pending, unexpired, on that number, of the channel and code its signal calls for and, in claim mode, claimed by its sender; the sender is what was recorded. |
| `Soundness.VerifiedNumberIsTheClaim` | coordinator/internal/verify/service.go:288-311 | The verified number is always set; in claim mode and for missed calls it is the claimed one; sms and dtmf sessions are won only with a code of 4 to 12 digits. |
| `Soundness.HitsFit` | coordinator/internal/verify/service.go:334-351 | What a query hit says about channel, code, number and claim, by the meaning of code extraction. |
| `Resolution.ExactlyOneWinner` | coordinator/internal/store/sqlite.go:336-344 | Each verified session was won by exactly one request, and its number is that request's sender: the compare-and-set on status is enough. |
| `Resolution.AtMostOneMatchedAnswer` | coordinator/internal/verify/service.go:300-316 | No two requests ever answer matched for the same session, and that session is verified. |
| `Resolution.NotifiedAtMostOnce` | coordinator/internal/verify/service.go:309-315 | In every reachable state no session has been notified twice, and every notified session is verified. |
| `Resolution.DecidedIsFinal` | coordinator/internal/store/sqlite.go:336-358 | Once a session has left pending, no later step of any request or sweep changes its status or its verified number. |
| `Resolution.VerificationsAreAccounted` | coordinator/internal/verify/service.go:249-264 | On either backend, in every reachable state: verified sessions = matched audit rows ever written + winners whose deferred row is outstanding + winners whose row was refused, as cardinalities. |
| `Resolution.RowsAccountIffWritesSucceed` | coordinator/internal/verify/service.go:249-264 | The refused part is empty, so that rows and outstanding winners account for every verification, exactly if no matched row was refused in the run; SQLite refuses none. |
| `SessionRules.LookupNeverChooses` | coordinator/internal/store/sqlite.go:301-313 | In every reachable state at most one session is a hit of any lookup, so ORDER BY created_at LIMIT 1 never chooses. |
| `SessionRules.PendingSessionsAreDistinct` | coordinator/internal/store/sqlite.go:63-66 | Two pending sessions of one number never share a code and are never both voice sessions. |
| `SessionRules.SessionsObeyComboRules` | coordinator/internal/verify/codes.go:22-33 | In every reachable state: no session is failed, verified number iff verified, claim sessions have a claim, missed-call sessions are claim sessions without a code, the others have a code. |
| `SessionRules.MissedCallNeverMismatches` | coordinator/internal/verify/service.go:288-297 | claim_mismatch is unreachable for a missed call, in any run. |
| `Completeness.InstructedSignalMatches` | coordinator/internal/verify/service.go:103-204 | After a successful start on any of the three channels, whatever runs in between: a request reporting the instructed signal that meets no block, throttle, expiry or rival can only finish matched with exactly that session. |
| `Completeness.InstructedSignalSucceeds` | coordinator/internal/verify/service.go:233-316 | From any reachable state after a successful start, with the session pending and unexpired and the sender not blocked, the instructed request does finish matched in seven steps of its own, however long it stalls before its compare-and-set. |
| `Completeness.VerifiedAfterExpiry` | coordinator/internal/store/sqlite.go:336-344 | With a stall past the expiry, that run leaves a session verified after it expired: the compare-and-set looks at the status only. |
| `VoiceRace.WinnerBounds` | coordinator/internal/verify/service.go:148-188 | N interleaved missed-call starts over M free SIMs end with at least min(N, M, 8) and at most min(N, M) winners. |
| `VoiceRaceBound.WinnerBoundsAreExact` | coordinator/internal/verify/service.go:148-188 | These bounds are the best: for all N, M and a cap of at least one, all finished races from reachable states have between lo and hi winners if and only if lo <= min(N, M, 8) and hi >= min(N, M). |
| `VoiceRaceBound.FewestWinners` | coordinator/internal/verify/service.go:148-188 | The race with min(N, M, 8) winners, for all N and M: with more than eight of each, all but eight starts lose eight inserts in a row and give up while SIMs are still free. |
| `VoiceRaceBound.MostWinners` | coordinator/internal/verify/service.go:148-188 | The race with min(N, M) winners, for all N and M. |
| `VoiceRace.LosersAreBusy` | coordinator/internal/verify/service.go:208-215 | Every finished loser of the race was told Busy with the number of serving SIMs, or NoCapacity if none serves. |
| `PendingCap.CapUpToOverlap` | coordinator/internal/store/sqlite.go:234-247 | With at most k starts ever in flight: pending(n) + starts holding pick n <= maxPending - 1 + k in every reachable state. |
| `PendingCap.CapHoldsIffNoOverlap` | coordinator/internal/store/store.go:95-98 | For every configuration: runs with at most k starts in flight keep to maxPending if and only if k <= 1. |
| `PendingCap.Overrun` | coordinator/internal/verify/service.go:148-186 | The run that breaks the cap, for every cap: fill to one short of it, then two starts pick before either inserts. |
| `Abuse.FailuresBoundedByOverlap` | coordinator/internal/verify/service.go:265-296 | With at most k of a sender's inbounds under way at a time, any ten minutes hold at most 3 + 2k of its attempts that reached matching and failed, on either backend, in every run that records these attempts and prunes nothing younger than the window. |
| `AbuseBound.FailureBoundIsExact` | coordinator/internal/verify/service.go:353-374 | That bound is exact for every k >= 1: it holds with a smaller number for no k, on either backend. |
| `AbuseBound.BoundIsReached` | coordinator/internal/verify/service.go:353-374 | The run that reaches it: three failures one by one, k that are all counted before any has its row, and k more that are all counted before any places its block. |
| `Abuse.AtMostFiveFailures` | coordinator/internal/verify/service.go:353-374 | The case k = 1: inbounds that do not overlap fail at most five times in any ten minutes. |
| `Abuse.PruningChangesNoDecision` | coordinator/internal/store/sqlite.go:360-366 | A run with prunes and the same run without them agree on every session, block, answer and notification, if retention covers the failure window and no flood count is stalled past it. |
| `StalledCount.PruneMissesBlock` | coordinator/internal/verify/service.go:353-374 | A run with one prune, which keeps the whole failure window, where a stalled flood count places no block although it does in the run without the prune: the promptness above is needed. |
| `Abuse.PruneIsInvisible` | coordinator/internal/store/sqlite.go:360-386 | Deleting rows before a cutoff changes no count whose window begins at or after it. |
| `Backends.BackendsStayInStep` | coordinator/internal/store/postgres.go:125-134 | Runs whose deletions take no number that a request in flight holds: the Postgres state is the SQLite state with dangling number references nulled, step for step. |
| `Backends.BackendsAnswerAlike` | coordinator/internal/store/sqlite.go:188-197 | In such runs every answer to a start, an inbound and a status call, every notification and every audit row written is the same on both backends. |
| `Backends.DeletionInvisibleIffUnheld` | coordinator/internal/store/postgres.go:125-134 | After any such run, deleting a device is invisible to every continuation without a further deletion if and only if no start between pick and insert and no inbound past its lookup holds one of its numbers. A held start is told apart by its answer, a held inbound by the audit log only. |
| `Backends.HolderStartDiffers` | coordinator/internal/verify/service.go:164-186 | A start whose picked number is gone fails on Postgres and inserts or retries on SQLite, in every state. |
| `Backends.HolderInboundDiffers` | coordinator/internal/verify/service.go:249-264 | An inbound whose number is gone can go on to write its audit row on SQLite, and never does on Postgres. |
| `Backends.RacingDeletionDiffers` | coordinator/internal/verify/service.go:164-186 | A run that shows it: a start whose device is deleted between pick and insert succeeds on SQLite and fails on Postgres. |
| `InboundAnswers.AnswersExactly` | coordinator/internal/verify/service.go:233-316 | In every run each of the nine answers is given if and only if the request's own checks found its reason: bad type; no number with the msisdn; another device's number; a standing block; a refusing limiter; no session for the signal; a session claimed by someone else; a session decided by the time of the compare-and-set; or none of these, and then it names that session. |
| `InboundAnswers.LookupAnswers` | coordinator/internal/verify/service.go:238-247 | unknown_number exactly if no number had the msisdn at the request's lookup, forbidden exactly if it was another device's. |
| `InboundAnswers.AdmissionAnswers` | coordinator/internal/verify/service.go:265-279 | blocked exactly if a block of the sender without end or with an end to come stood at the request's check; rate_limited exactly if the limiter refused. |
| `InboundAnswers.MatchingAnswers` | coordinator/internal/verify/service.go:334-351 | no_match exactly if at its find no pending, unexpired session of the number had the channel of the signal and its code, or for a missed call its caller; claim_mismatch exactly if that session had another claim. |
| `InboundAnswers.ResolutionAnswers` | coordinator/internal/verify/service.go:300-316 | matched exactly if the session found was still pending at the compare-and-set, already_resolved exactly if not. |
| `InboundAnswers.AnswersForOwnNumber` | coordinator/internal/verify/service.go:238-247 | All later answers are about the number that the request's own lookup found with its msisdn, and that its device owns. |
| `Blocking.BlockedForAnHour` | coordinator/internal/verify/service.go:353-374 | A request is answered blocked if and only if, at its check, some failed attempt of its sender had placed its block and less than 3 600 000 ms had passed since that attempt was counted. |
| `Blocking.BlocksExactlyAbusers` | coordinator/internal/verify/service.go:353-374 | A finished request has placed a block if and only if its counts saw four unmatched rows of its sender in the last ten minutes or nineteen rows in the last five; only no_match and claim_mismatch are counted. |
| `Blocking.RunsPlaceBlocks` | coordinator/internal/verify/service.go:353-374 | The blocks in the table are exactly those that requests placed, each for an hour from its attempt's clock reading. |
| `StartAnswers.InvalidExactly` | coordinator/internal/verify/service.go:103-124 | A start is answered invalid if and only if its request names an unknown channel or binding, a missed call without claim, a channel that is not enabled, or a claim of white space. |
| `StartAnswers.StartedAsAsked` | coordinator/internal/verify/service.go:103-204 | Whatever runs since: a started session carries its request's app, channel, binding and trimmed claim with their defaults, a code of the configured number of digits, and the app's lifetime in seconds, else the default, from the moment the start began. |
| `StartAnswers.StartAnswersExactly` | coordinator/internal/verify/service.go:148-215 | A start names a session if and only if it inserted that row, free of collisions, on the number its last pick found least loaded of those that could take it; it fails if and only if that number was gone at the insert; it gives up if and only if a pick found none or eight inserts collided. |
| `StartAnswers.BusyExactly` | coordinator/internal/verify/service.go:208-215 | It is told Busy(p) if and only if the channel is a voice channel and p > 0 numbers served it at its count. |
| `StartAnswers.OddLengthsNeverVerify` | coordinator/internal/verify/codes.go:51-81 | For an app whose codes have fewer than 4 or more than 12 digits no sms or dtmf session is ever verified, whatever is reported. |
| `StartAnswers.TrimMeans` | coordinator/internal/verify/service.go:122 | The trimmed claim is the text without the white space around it, and empty only if all is white space. |
| `AuditTrail.LogTellsTheRun` | coordinator/internal/verify/service.go:249-264 | The rows ever written are one per audit step that the store took, in order, each with the request's number, type, sender, body, time and, if matched, session. |
| `AuditTrail.AnsweredAreAudited` | coordinator/internal/verify/service.go:249-264 | Every finished request went through that step, except those answered bad type, unknown_number or forbidden. |
| `AuditTrail.AttemptsCountMismatches` | coordinator/internal/verify/service.go:288-297 | In every reachable state a session's attempts are the number of steps in which requests with another claim counted theirs on it. |
| `AuditTrail.NotifiedExactly` | coordinator/internal/verify/service.go:309-329 | A session has been announced if and only if its winner found the app's row when it looked. |
| `Expiry.NoneExpiresEarly` | coordinator/internal/store/sqlite.go:351-358 | In every reachable state each expired session has an expiry that has passed. |
| `Expiry.SweepLeavesNoneDue` | coordinator/internal/store/sqlite.go:351-358 | Right after a sweep every pending session has time left, those with time left are unchanged, and those due are expired. |
| `Expiry.PendingUntilDue` | coordinator/internal/store/sqlite.go:351-358 | A pending session with time left is still pending, unless verified, however many sweeps have run. |
| `Service.Service.Start` | coordinator/internal/verify/service.go:103-204 | Invalid is returned exactly for an invalid request, and a success names a session with the terms that the request asked for. The retry loop, with arbitrary steps of other requests before each store call, is a run of the transition system: its steps woven into theirs end in the answer returned. |
| `Service.Service.PickAndCreate` | coordinator/internal/verify/service.go:148-188 | Eight attempts at most; the request's record goes from its first pick to exactly the answer the loop returns. |
| `Service.Service.Inbound` | coordinator/internal/verify/service.go:233-316 | The same for an inbound report: the answer is given exactly for its reason, as InboundAnswers.AnswersExactly says of this very run; and a matched answer means the session is verified, by this sender, with the evidence of the soundness theorem in this very run. |
| `Service.Service.Decide` | coordinator/internal/verify/service.go:265-316 | From the block check to the outcome: every early return carries the reason and the matched id that the deferred event records. |
| `Service.Service.MatchSession` | coordinator/internal/verify/service.go:334-351 | The query by channel and code, or by caller, and the claim check, as one step of the transition system. |
| `Service.Service.MaybeBlock` | coordinator/internal/verify/service.go:353-374 | A run of the failure steps: whatever others do between its counts and its block, the record ends at the audit step with the time the attempt was counted, and an abusive sender's block stands for the hour after it. |
| `Service.MatchedMeans` | coordinator/internal/verify/service.go:309-316 | In any run, a request that finished matched leaves a session verified by its sender, with evidence. |
| `Service.ForeignStep` | coordinator/internal/verify/service.go:148-186 | Other requests neither see nor touch the running request's locals: their steps commute with putting its record back. |
| `Tables.Tables.PickNumber` | coordinator/internal/store/sqlite.go:234-247 | Returns a least loaded eligible number, or none exactly when none is eligible. |
| `Tables.Tables.FindPending` | coordinator/internal/store/sqlite.go:301-313 | Returns the newest pending, unexpired row that the query selects, or none exactly when there is none. |
| `Tables.Tables.CreateSession` | coordinator/internal/store/sqlite.go:275-293 | Conflict exactly on a pending twin by code or voice line, then Postgres's reference check, else one row more. |
| `Tables.Tables.VerifySession` | coordinator/internal/store/sqlite.go:336-344 | True exactly if the row was pending; then status and number change in that row only. |
| `Tables.Tables.CountInboundBySender` | coordinator/internal/store/sqlite.go:378-386 | The number of rows of the sender after the time, unmatched ones only if asked. |
| `Tables.Tables.RemoveDevice` | coordinator/internal/store/postgres.go:125-134 | The device and its numbers go; sessions and events stay, their references nulled on Postgres only. |
| `Tables.Tables.ExpireDue` | coordinator/internal/store/sqlite.go:351-358 | Row by row: pending sessions whose expiry has passed turn expired, all else stays, and the result is how many did. |
| `Tables.Tables.DeleteInboundEventsBefore` | coordinator/internal/store/sqlite.go:360-366 | Every copy of every row before the cutoff goes and every other stays; the result is how many went. |
| `Tables.LeastLoadedExists` | coordinator/internal/store/sqlite.go:240-246 | A query over a nonempty set of candidates always has a least loaded answer, so no run waits for a pick. |
| `Codes.ExtractCodeMeaning` | coordinator/internal/verify/codes.go:51-81 | The code of a body is the leftmost maximal digit run of length 4 to 12 of the body without separators, or empty if there is none. |
| `Codes.MeaningIsUnique` | coordinator/internal/verify/codes.go:51-57 | That description determines the result. |
| `Codes.ExtractCodeScan` | coordinator/internal/verify/codes.go:58-81 | The scanner returns that code. |
| `Codes.SeparatorsAreInvisible` | coordinator/internal/verify/codes.go:59-66 | Inserting separators anywhere never changes the code found. |
| `Codes.OtherCharactersStay` | coordinator/internal/verify/codes.go:59-66 | Any character but space, tab, newline, return, hyphen and dot is kept, so it ends a run of digits or is part of it. |
| `Codes.CodeSurvivesPadding` | coordinator/internal/verify/codes.go:51-57 | A 4 to 12 digit code, with separators strewn in and digit-free text around it, is found. |
| `Codes.SmsActionCarriesItsCode` | coordinator/internal/verify/codes.go:84-94 | Texting back the whole sms instruction yields the code it asks for, whatever digits the number adds. |
| `Codes.GenerateCode` | coordinator/internal/verify/codes.go:36-49 | A digit string of the requested length, six if that is not positive, digit by digit from the draws. |
| `Timestamps.TextOrderIsTimeOrder` | coordinator/internal/store/sqlite.go:477 | In years 0 to 9999, text order of stored timestamps is exactly order of milliseconds, and equality is equality. |
| `Timestamps.ParseUndoesFormat` | coordinator/internal/store/sqlite.go:477-482 | Reading a stored timestamp back gives the instant truncated to milliseconds. |
| `Timestamps.TextQueriesSelectByTime` | coordinator/internal/store/sqlite.go:301-313 | Text-compared expiry, block and window queries select exactly the rows the integer comparisons select. |
| `Timestamps.EveryDateIsAnInstant` | coordinator/internal/store/store.go:21-23 | Every valid date of years 0 to 9999 is such an instant and is found again from its milliseconds. |
| `Timestamps.LayoutIsFixed` | coordinator/internal/store/sqlite.go:477 | Stored timestamps are YYYY-MM-DDTHH:MM:SS.mmmZ, each field in zero-padded decimal. |
| `Timestamps.YearsAreGregorian` | coordinator/internal/store/sqlite.go:477 | The days before a year are 365 each and one for every fourth year before it, less every hundredth, plus every four-hundredth. |
| `Timestamps.MonthsAreGregorian` | coordinator/internal/store/sqlite.go:477 | The days before a month are those of the Gregorian calendar, with the leap day from March on. |
| `TokenBucket.GcIsInvisibleIff` | coordinator/internal/ratelimit/ratelimit.go:11-14 | For every key and time sequence the sweep changes no answer, if and only if burst >= 1 or the rate is not positive. |
| `TokenBucket.SmallBurstIsVisible` | coordinator/internal/ratelimit/ratelimit.go:72-82 | With burst < 1 and a positive rate, a kept bucket refuses the call that an evicted one allows. |
| `TokenBucket.WindowBound` | coordinator/internal/ratelimit/ratelimit.go:43-67 | In any interval of length T a key is allowed at most burst + rate * T times. |
| `TokenBucket.SpacedKeyIsNeverRefused` | coordinator/internal/ratelimit/ratelimit.go:43-67 | A key whose calls are at least 1/rate apart is never refused. |
| `TokenBucket.RecentBuckets` | coordinator/internal/ratelimit/ratelimit.go:69-82 | After any call every live bucket was touched less than the sweep interval plus burst/rate ago. |
| `TokenBucket.Limiter.AllowKey` | coordinator/internal/ratelimit/ratelimit.go:43-67 | The method on its mutable map answers and leaves the state that the specification gives. |
| `TokenBucket.Limiter.Collect` | coordinator/internal/ratelimit/ratelimit.go:72-82 | The delete loop keeps exactly the buckets that are not idle, at most once per interval. |
| `InboundThrottle.Admit` | coordinator/internal/verify/service.go:268-279 | Device, number and sender are charged in that order, each only if the ones before allowed. |
| `InboundThrottle.DeviceThroughput` | coordinator/internal/verify/service.go:268-279 | However senders vary and requests interleave, one device gets at most burst + rate * T inbounds to matching in any interval of length T. |
| `InboundThrottle.NumberThroughput` | coordinator/internal/verify/service.go:268-279 | The same for one receiving number. |
| `InboundThrottle.KeyFamiliesAreDisjoint` | coordinator/internal/verify/service.go:274-276 | Keys of different families never collide and each key determines its identity. |
| `RedisWindow.RefusedIffWindowFull` | coordinator/internal/ratelimit/redis.go:33-55 | A call is refused exactly if it reaches Redis when its minute already holds rate calls of its key, whether or not expiries were set. |
| `RedisWindow.WindowAllowsExactly` | coordinator/internal/ratelimit/redis.go:47-54 | A window allows min(rate, calls) of the calls that reach Redis. |
| `RedisWindow.SpanBound` | coordinator/internal/ratelimit/redis.go:33-55 | Any k minutes, wherever they begin, allow at most (k + 1) * rate while Redis answers. |
| `RedisWindow.SpanBoundIsReached` | coordinator/internal/ratelimit/redis.go:35-54 | That bound is exact: for every rate and every k >= 1 there are k minutes that allow a key (k + 1) * rate times. |
| `RedisWindow.CountersAreRecent` | coordinator/internal/ratelimit/redis.go:47-53 | A counter whose expiry was set is gone within 70 seconds of its window's end. |
| `RedisWindow.OneNoticePerChange` | coordinator/internal/ratelimit/redis.go:37-46 | Outage and recovery notices alternate and there is exactly one per change. |
| `RedisWindow.RedisLimiter.Allow` | coordinator/internal/ratelimit/redis.go:33-55 | The method's counter, expiry, flag and answer are those of the specification. |
| `DeviceAuth.SingleUseIffTtlCovers` | coordinator/internal/deviceapi/deviceapi.go:85-124 | Overlapping requests, nonce check at most d after the clock reading, clock readings multiples of a tick that divides the second: a signed (timestamp, nonce) pair passes at most once, if and only if the TTL is at least 601 s - tick + d. |
| `DeviceAuth.ShippedTtl` | coordinator/cmd/coordinator/main.go:72 | The shipped 600 s is single-use on whole-second clocks without delay, but not on nanosecond clocks, and not once a request may stall for a second. |
| `DeviceAuth.PassesFarApart` | coordinator/internal/deviceapi/deviceapi.go:90-124 | Two passes of one pair, in whatever order they overlap, have clock readings more than TTL - d and at most 601 s - tick apart. |
| `DeviceAuth.AtMostTwoPasses` | coordinator/internal/deviceapi/deviceapi.go:90-124 | As long as twice the TTL less the delay exceeds that span, a pair passes at most twice; with 600 s this holds for every delay below 299.5 s. |
| `DeviceAuth.LatePairPassesTwice` | coordinator/internal/auth/auth.go:84-103 | For any shorter TTL, the failing run: a second copy stalls for d while another request collects the nonce. |
| `DevicePass.AnswersExactly` | coordinator/internal/deviceapi/deviceapi.go:75-130 | In every run each answer is given if and only if its reason holds: a missing header, an unreadable timestamp, one more than 300 s off, an empty bucket, an oversized body, a signature that is not the MAC of the device's secret over timestamp, nonce and body, a nonce used within the TTL; and Passed if and only if none does. |
| `DevicePass.PassedMeansSigned` | coordinator/internal/deviceapi/deviceapi.go:101-124 | A visit that passed had all headers, a timestamp within 300 s, the throttle's admission and its device's own signature. |
| `DevicePass.SignedPasses` | coordinator/internal/deviceapi/deviceapi.go:101-124 | An admitted visit with its own signature passes, unless a visit with the same nonce had passed with a reading within the TTL. |
| `DevicePass.TimelyArrives` | coordinator/internal/deviceapi/deviceapi.go:81-94 | Headers and a timestamp within 300 s are all that is asked before the throttle. |
| `DevicePass.CacheIsPasses` | coordinator/internal/auth/auth.go:84-103 | Every use that the cache remembers is the clock reading of a visit that passed with that nonce. |
| `DeviceAuth.ParseIntMeans` | coordinator/internal/deviceapi/deviceapi.go:85-89 | A timestamp is read as its decimal digits, with at most one sign before them, if the value fits 64 bits, and rejected otherwise. |
| `DeviceAuth.DigitsMean` | coordinator/internal/deviceapi/deviceapi.go:85-89 | The value of a number's decimal digits is that number. |
| `DeviceAuth.FramingIsUnambiguous` | coordinator/internal/auth/auth.go:55-63 | One-line timestamps and nonces: equal signed messages have equal timestamp, nonce and body. |
| `DeviceAuth.Handler.Auth` | coordinator/internal/deviceapi/deviceapi.go:75-130 | With other requests' events before the throttle and while body and device row are read, the handler's effect is the run of its own steps among them, up to the first check that answers, and its record holds that answer. |
| `NonceCache.EvictionIsInvisible` | coordinator/internal/auth/auth.go:84-103 | Collecting once per TTL answers as the cache that never evicts, on non-decreasing times. |
| `NonceCache.EntriesAreRecent` | coordinator/internal/auth/auth.go:88-97 | After any use no entry is older than twice the TTL. |
| `NonceCache.Cache.SeenBefore` | coordinator/internal/auth/auth.go:84-103 | The method with its delete loop answers and leaves the state that the specification gives. |
| `PiRetryQueue.NothingElseIsLost` | receiver-pi/calltoverify_pi/retry.py:16-80 | Whatever crashes happen: the queue is what was added minus a decided prefix, in order; each decided item has one fate and a delivered one was really sent. |
| `PiRetryQueue.ExactlyOnceInOrder` | receiver-pi/calltoverify_pi/retry.py:57-80 | Without crashes the sends are exactly the delivered items, each once and in the order added. |
| `PiRetryQueue.BoundedIffPositive` | receiver-pi/calltoverify_pi/retry.py:42-52 | The length stays within max_items if and only if max_items >= 1. |
| `PiRetryQueue.BoundFromAnyFile` | receiver-pi/calltoverify_pi/retry.py:42-52 | For max_items >= 1 and any first file, crashes included: the length is within max_items, or no add has completed yet and it is at most the first file's. |
| `PiRetryQueue.ItemsLeaveForAReason` | receiver-pi/calltoverify_pi/retry.py:42-80 | Whatever crashes happen, an item leaves the buffer only because a flush delivered it, because the server answered it with a 4xx other than 429, or because an add to a full buffer pushed it out. |
| `PiRetryQueue.FlushKeepsTheRest` | receiver-pi/calltoverify_pi/retry.py:57-80 | A flush keeps the first item that is neither delivered nor answered with such a 4xx, and all after it, in order. |
| `PiRetryQueue.RetryQueue.FlushAll` | receiver-pi/calltoverify_pi/retry.py:57-80 | Offers items in order up to the first transient failure, keeps that one and the rest, and counts the deliveries. |
| `PiRetryQueue.RetryQueue.AddItem` | receiver-pi/calltoverify_pi/retry.py:42-52 | The buffer gains the item and loses only its oldest. |
| `PiRetryQueue.RetryQueue.Read` | receiver-pi/calltoverify_pi/retry.py:16-31 | Exactly the records of the file, skipping blank and corrupt lines. |
| `AndroidQueue.BufferConservesEvents` | receiver-android/app/src/main/java/org/calltoverify/receiver/data/InboundQueue.kt:37-72 | Value by value, enqueued + revived = queued + dropped + removed + lost, and no more is removed than was accepted or permanently refused, however enqueues, disk writes, stops and kills interleave with the drain. |
| `AndroidQueue.FullBufferDropsOldest` | receiver-android/app/src/main/java/org/calltoverify/receiver/data/InboundQueue.kt:37-45 | In every run the buffer drops nothing until it holds 500 events, and then its oldest for each new one. |
| `AndroidQueue.BalancedIffDiskCurrent` | receiver-android/app/src/main/java/org/calltoverify/receiver/data/InboundQueue.kt:106-119 | Enqueued = queued + dropped + removed after every step of a run, if and only if every kill finds on disk the events that memory holds. |
| `AndroidQueue.UnsavedEnqueueIsLost` | receiver-android/app/src/main/java/org/calltoverify/receiver/data/InboundQueue.kt:118 | A kill before the asynchronous write loses a finished enqueue. |
| `AndroidQueue.UnsavedRemovalComesBack` | receiver-android/app/src/main/java/org/calltoverify/receiver/data/InboundQueue.kt:118 | A kill before the write brings back an event that was settled and removed. |
| `AndroidQueue.RemovedOnlyAfterFinalReply` | receiver-android/app/src/main/java/org/calltoverify/receiver/InboundDispatcher.kt:88-112 | In every run a value is removed at most as often as it was sent and answered with a status below 500 other than 429. |
| `AndroidQueue.OtherRepliesKeepTheQueue` | receiver-android/app/src/main/java/org/calltoverify/receiver/InboundDispatcher.kt:88-112 | Any other reply, or none, leaves the queue alone and ends the drain; such a final one leads to the removal. |
| `AndroidQueue.SentAsBuffered` | receiver-android/app/src/main/java/org/calltoverify/receiver/InboundDispatcher.kt:77-86 | What is sent is the buffered event, with the provisioned number in place of a blank one, and without either it is not sent. |
| `AndroidQueue.DrainSendsInSnapshotOrder` | receiver-android/app/src/main/java/org/calltoverify/receiver/InboundDispatcher.kt:69-114 | One drain sends in the order of its snapshot, each entry at most once. |
| `AndroidQueue.SettledEntryIsRemoved` | receiver-android/app/src/main/java/org/calltoverify/receiver/data/InboundQueue.kt:52-72 | A settled entry that is still queued loses exactly one copy; other values keep theirs. |
| `AndroidQueue.SettledDrainEmptiesQueue` | receiver-android/app/src/main/java/org/calltoverify/receiver/InboundDispatcher.kt:69-114 | An undisturbed drain whose every entry is settled empties the queue from its head. |
| `AndroidQueue.RetryQueued` | receiver-android/app/src/main/java/org/calltoverify/receiver/InboundDispatcher.kt:69-114 | The drain loop's effect, with listeners enqueueing before each send and each removal, is exactly the run of its steps over the snapshot. |
| `AndroidQueue.InboundQueue.Enqueue` | receiver-android/app/src/main/java/org/calltoverify/receiver/data/InboundQueue.kt:37-45 | Appends and trims the oldest beyond the limit. |
| `AndroidQueue.InboundQueue.Remove` | receiver-android/app/src/main/java/org/calltoverify/receiver/data/InboundQueue.kt:57-72 | Removes the first equal event and nothing else. |

## Left out

- Abuse.FailuresBoundedByOverlap: assumes that the store takes the audit rows of the sender's failed attempts, which Postgres does not if the number is deleted in between.
- DeviceAuth.SingleUseIffTtlCovers: one nonce cache for all requests, and a MAC that is never the empty string; the limiter's reading and the device lookup are events of their own, but a clock never runs backwards.
- AbuseBound.FailureBoundIsExact: the limiter's answer is free; the exact bound under the shipped limiter, which admits 610 signals in ten minutes and so binds first from k = 304 on unless signals stall past it, is not given.
- Backends.DeletionInvisibleIffUnheld: for continuations without a further deletion; runs with several deletions are covered in one direction by Backends.BackendsStayInStep.
- Abuse.PruningChangesNoDecision: assumes that no flood count runs so late that its window, anchored at the earlier clock reading, reaches behind the retention; StalledCount.PruneMissesBlock is a run that shows it is needed.
- VoiceRace.WinnerBounds: for missed-call starts without verifications, sweeps or deletions during the race; a dtmf start can also lose to a code collision.
- Completeness.InstructedSignalMatches: for codes of 4 to 12 digits; for any other configured length it fails, as StartAnswers.OddLengthsNeverVerify shows.
- TokenBucket.WindowBound: over exact reals; floating-point rounding of tokens is not modelled.
- Timestamps.TextOrderIsTimeOrder: years 0 to 9999, the width the layout holds.
- DevicePass.AnswersExactly: clock readings from 1970 on, with room for the skew in 64 bits; the bucket's verdict is that of TokenBucket.Allow.
- InboundAnswers.AnswersExactly: the limiter's answer is an input of its step.
- Service.Service.Inbound: the limiter's answer and whether the app row is found for the notification are inputs; the limiter itself is InboundThrottle.Admit.
- RedisWindow.RefusedIffWindowFull: one clock for the coordinator and Redis, and no delay between the increment and its expiry.
- One clock for the coordinator and its database: the SQL of Postgres reads `now()` where the model uses the coordinator's clock.
- PiRetryQueue.BoundedIffPositive: starts from an empty file; PiRetryQueue.BoundFromAnyFile says what holds of any file for a positive max_items.
- A stored Android queue that does not parse is cleared with all its events (`InboundQueue.kt:99-103`); only the app's own writer writes it, and the model's disk always holds a queue.
- Store errors other than conflicts, missing rows and refused references: the operations return them unchanged.
- Clock readings that the code takes just before a store call happen in that call's step.
- Random ids, random digits, SHA-256, HMAC and AES-GCM: ids are fresh, digits arbitrary, the MAC a function.
- The drain and the buffer of the Android app as seen by one process; the order of the platform's disk writes is that of the commits.
- HTTP routing, JSON, configuration, logging, connection pools and in-flight limits.
- The encrypting store wrapper, which only passes rows through a cipher, and the Redis nonce store.
- Webhook delivery, dashboards, widgets and client SDKs.
- Statuses that no path sets (paused and disabled numbers, disabled devices) are folded into active and online flags.
- Applications as rows: a request carries its app's configuration, and truncating all tables is not an operation.
- Several Pi processes on one queue file: add and flush take no lock.
- The ticker loop of the standalone binary is present as its two steps, sweep and prune, at any time and in any order; nothing claims that they happen.
