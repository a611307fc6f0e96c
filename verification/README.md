# Verified models of the stateful core of stardust.mini

stardust.mini is a Go microservice toolkit. This project models the parts of it that carry state over
unbounded runs - the circuit breaker, the load shedder, the two rate limiters, single-flight calls, the
retry notifications, the WebSocket client manager, the snowflake ids and the gateway registration - and
proves what every run of them guarantees.

`dafny verify dfyconfig.toml` checks all of it.

## How the model is built

Each module has the same three layers.

- *Functions on values* say what one atomic section of the code does.
- *Classes* with the source's own fields update them in place; each method is proved to do exactly what the
  function says. Loops over buckets, maps, routes and clock readings stay loops.
- *Runs* are sequences of calls, or of interleaved atomic steps of any number of callers. The theorems are
  about all runs.

Time is an explicit argument of every call. Random draws, CPU readings, handler answers and the fate of
remote requests are arguments too: a request may be carried out, carried out but reported as failed, or not
carried out. A section under a mutex is one atomic step, and so is one Redis command, one admin request or one
hand-over on an unbuffered channel. Floating point is modelled by reals.

| file | what it models |
|---|---|
| `RollingRing.dfy` | the ring of time buckets shared by the breaker's window and the shedder's counters, and the log it stands for |
| `Breaker.dfy` | the breaker: totals, drop ratio, admission, reports, configuration |
| `Shedder.dfy` | the shedder: rolling counters, admission, promises, concurrent callers |
| `TokenLimit.dfy` | the token bucket: local bucket, Redis script with expiring keys, failover |
| `PeriodLimit.dfy` | the period limiter's local counters and their clean-up |
| `SharedCalls.dfy` | single-flight calls |
| `Decimal.dfy`, `PayloadCodec.dfy` | decimal numerals; encoding and decoding of retry payloads |
| `Notification.dfy` | the retry protocol: lock, expiry, subscribers |
| `ClientManager.dfy` | the client manager: event loop, kicks, shutdown |
| `Snowflake.dfy` | snowflake ids |
| `ApisixGateway.dfy` | gateway registration and route tracking |
| `Arithmetic.dfy`, `Common.dfy` | facts about multiplication and division; shared types |

## What the proofs found

- Rotating the ring restarts the bucket clock at the current time, so the window is not `size * bucketTime`
  long. A value stays for at least `(size-1) * bucketTime` and at most `(2*size-1) * bucketTime - size`
  nanoseconds, and both bounds are reached.
- The period limiter is documented as a sliding window. The code is a fixed window opened by the first request;
  it behaves as a sliding one exactly when the quota is one. With a larger quota `2*quota - 1` requests can pass
  within one nanosecond; a quota below one still admits one request. The exact maximum for every interval is given.
- The token script answers only when `0 < rate <= 2*burst` or `2*burst <= rate < 0`; otherwise its time to live
  is not a positive integer, the script fails and the local bucket decides every request. Requests for
  nonnegative numbers of tokens never notice that keys expire; at negative rates they are all denied, and only
  requests for negative numbers tell the difference.
- Callers read the clock before the token script runs. Readings that arrive out of order make the bucket refill
  again and again; the exact amount is given, and it has no bound in terms of the time that passes.
- The overflow branch of the id generator keeps number 4096, which sets the low bit of the worker. All ids of
  one worker are different exactly when the worker number is even or no call follows an overflow within the
  same millisecond. An even worker's overflow collides with its odd neighbour instead; the exact condition for two
  workers is given.
- A retry value such as `x||-5` is read back with its own count, and a count below -1 makes the subscriber index
  the policies below zero. All lookups are in range exactly when no such value is put.
- A retry payload survives encoding and decoding exactly when its value has no colon, no two bars in a row and
  no bar at its end, and its count fits 32 bits.
- With two subscribers hearing the same expiry a payload can be handled twice, after the first has unlocked.
  Attempts are numbered upward and bounded by the policies exactly when there is one subscriber.
- Every accepted client is closed by a complete shutdown exactly when no two clients share a session id: a
  second client under a listed session id replaces the first, which nobody closes any more.
- After `Stop` alone has returned the client manager may still list a client; when `Start` and every `Stop` have
  returned it lists none. The exact condition for the map to stay empty is given.
- Registering a service again with fewer routes leaves the surplus routes on the gateway untracked. With failing
  requests, a route written but not reported, or a deletion not reported, leaves routes behind as well.
- A registration and a deregistration of one service at the same time can leave a tracked route that is gone.
- A kick by user id reaches only the client the user's entry leads to; a second client of the same user hides the
  first.
- A reported success can raise the drop ratio when K is below one; the exact condition is given.

## Model

Constructors and one-statement methods whose contract only ties a field to the step of the same name have no row.

| member | source | states |
|---|---|---|
| RollingRing.Ring.constructor | breaker/googlebreaker.go:50-57 | a new ring stands for the empty log started at the creation time |
| RollingRing.Ring.Advance | breaker/googlebreaker.go:59-73 | zeroing buckets one by one, capped at the ring size, moves the represented log on by min(elapsed, size) rotations and keeps every remaining slot equal to what was recorded in its rotation |
| RollingRing.Ring.Record | breaker/googlebreaker.go:75-81 | adding to the current bucket appends one entry, tagged with the current rotation, to the represented log |
| RollingRing.AdvanceKeepsDrift | breaker/googlebreaker.go:59-73 | one rotation keeps the bucket clock within the drift its rotations explain, on both sides |
| RollingRing.AdvanceCatchesUp | breaker/googlebreaker.go:59-73 | after any operation the bucket clock is less than one bucket behind |
| RollingRing.RunKeepsDrift | breaker/googlebreaker.go:59-92 | both drift bounds hold for every recorded value after every run on a clock that never goes back |
| RollingRing.Retention | breaker/googlebreaker.go:59-92 | for every schedule: a value recorded at t is in the window at u if u-t <= (size-1)*bucketTime, and is not if u-t > (2*size-1)*bucketTime-size |
| RollingRing.WindowEmpties | breaker/googlebreaker.go:59-92 | once everything recorded is (2*size-1)*bucketTime old the window is empty |
| RollingRing.LongestStayIsReached | breaker/googlebreaker.go:61-72 | for every ring a schedule exists on which a value is still counted at the upper bound |
| RollingRing.ShortestStayIsReached | breaker/googlebreaker.go:61-72 | for every ring a schedule exists on which a value is gone one nanosecond after the lower bound |
| RollingRing.LogIsFaithful | breaker/googlebreaker.go:75-92 | after any run the log holds exactly the recorded outcomes, in order |
| Breaker.Normalized | breaker/googlebreaker.go:117-133 | the result is always usable; field by field a usable setting is kept and any other is replaced by 1.5, 40, 250 ms and 100 |
| Breaker.RingSumIsWindowTotal | breaker/googlebreaker.go:83-92 | the sum over the ring's buckets is the total over exactly the logged outcomes whose rotation is among the last size ones |
| Breaker.NeverFullyShut | breaker/googlebreaker.go:161-192 | in every reachable state 0 <= accepts <= total, the drop ratio is in [0,1), and a draw equal to it is admitted |
| Breaker.DroppedIff | breaker/googlebreaker.go:161-192 | in every run, for every draw >= 0: a request is dropped if and only if the reports of the last Buckets rotations number at least MinReqs and draw*(total+1) < total - K*accepts, total and accepts counted over those reports |
| Breaker.QuietEmptiesTheWindow | breaker/googlebreaker.go:59-92 | with every report (2*Buckets-1)*BucketTime old the totals are zero, whatever was asked meanwhile |
| Breaker.Recovery | breaker/googlebreaker.go:107-179 | for every configuration, such a quiet breaker admits every request for every draw |
| Breaker.FailureNeverLowersTheRatio | breaker/googlebreaker.go:181-184 | one more failure never lowers the drop ratio |
| Breaker.SuccessRaisesTheRatioIff | breaker/googlebreaker.go:181-184 | one more success raises the ratio exactly when K*(total+1-accepts) < 1 and total+1 > K*(accepts+1); never for K >= 1 |
| Breaker.ReportWithinOneRotation | breaker/googlebreaker.go:181-192 | a report in the current rotation adds exactly its weight to the totals and moves the ratio in the promised direction |
| Breaker.GoogleBreaker.constructor | breaker/googlebreaker.go:107-115 | a new breaker has the normalised configuration and an empty window |
| Breaker.GoogleBreaker.Sum | breaker/googlebreaker.go:83-92 | the loop over the buckets returns the window totals of the log read at that time |
| Breaker.GoogleBreaker.Allow | breaker/googlebreaker.go:135-179 | admission is decided by the window totals, the minimum of requests, the drop ratio and the draw; only the rotation of the window changes |
| Breaker.GoogleBreaker.Mark | breaker/googlebreaker.go:186-205 | a success is logged as (1,1), a failure as (0,1) |
| Breaker.GoogleBreaker.DoWithAcceptable | breaker/googlebreaker.go:142-159 | a dropped request is not recorded; an admitted one is recorded as a failure exactly when it failed unacceptably |
| Shedder.MaxOf | load/shedder.go:129-135 | the largest bucket, or zero when none is positive |
| Shedder.SteadyLoadLimit | load/shedder.go:266-271 | when every rotation in use carries the same total response time r >= 1 ms and the best rotation p passes, 1000*limit == p*r*buckets |
| Shedder.LimitOverLog | load/shedder.go:107-136 | Little's law over the log: with p the most passes in one rotation of the window and sum the response times of its c rotations that have any, 1000*limit*c == p*sum*buckets for a mean of at least 1 ms, and 1000*limit == p*buckets otherwise |
| Shedder.NoRoomIff | load/shedder.go:266-271 | the limit is zero exactly when the window holds no pass |
| Shedder.RollingCounter.constructor | load/shedder.go:75-82 | a new counter stands for the empty log |
| Shedder.RollingCounter.BucketsAreSlotSums | load/shedder.go:84-105 | each bucket holds the sum of what was recorded in the rotation its slot stands for |
| Shedder.RollingCounter.Add | load/shedder.go:100-105 | adding records one entry in the log |
| Shedder.RollingCounter.Avg | load/shedder.go:107-123 | the mean of the positive per-rotation sums, after rotating |
| Shedder.RollingCounter.Max | load/shedder.go:125-136 | the largest per-rotation sum, after rotating |
| Shedder.AdaptiveShedder.constructor | load/shedder.go:139-156 | nothing in flight, no recent drop, two separate empty counters of windowSize/bucketNum per bucket |
| Shedder.AdaptiveShedder.SystemOverloaded | load/shedder.go:183-197 | overloaded exactly by CPU or within one second of a drop; the cool-off flag is cleared exactly when it has run out |
| Shedder.AdaptiveShedder.Allow | load/shedder.go:158-181 | with nothing in flight always admits; otherwise drops exactly when overloaded and above the limit, each part at its own clock reading; states flying, the drop time, the flag and both counters afterwards |
| Shedder.AdaptiveShedder.Pass | load/shedder.go:278-283 | one fewer in flight, one pass and the response time in milliseconds recorded |
| Shedder.AdaptiveShedder.Fail | load/shedder.go:285-287 | one fewer in flight, nothing recorded |
| Shedder.FlyingIsOutstanding | load/shedder.go:158-170 | in every interleaving flying equals the number of outstanding promises |
| Shedder.IdleAlwaysAdmits | load/shedder.go:172-181 | in every reachable state with no outstanding promise every check passes, whatever CPU, cool-off and limit |
| Shedder.CheckFailsIff | load/shedder.go:172-181 | in every reachable state a check fails exactly when the system is overloaded and more promises are outstanding than the limit |
| Shedder.OverloadBound | load/shedder.go:158-181 | under overload with limits of at most m and at most c callers inside Allow, flying never exceeds m+c |
| TokenLimit.LevelIsLeastAllowance | limit/tokenlimit.go:101-117 | the refilled level is the minimum, over creation and all calls up to this one, of burst + rate*(time since) - grants since |
| TokenLimit.DeniedIff | limit/tokenlimit.go:101-117 | a call is denied if and only if from some earlier point the grants since plus n exceed burst + rate*(time since); for any calls at all |
| TokenLimit.SpanBound | limit/tokenlimit.go:101-117 | any span of calls ending in an admitted one was granted at most burst + rate*span |
| TokenLimit.ScriptRunsIff | limit/tokenlimit.go:18-19 | the floored time to live lets the script set its keys exactly when 0 < rate <= 2*capacity or 2*capacity <= rate < 0 |
| TokenLimit.TtlFills | limit/tokenlimit.go:18-19 | at a positive rate the time to live is long enough to fill an empty bucket |
| TokenLimit.SameFill | limit/tokenlimit.go:20-29 | at a positive rate, whichever expired keys are gone, the script finds the same fill as a bucket that never forgets |
| TokenLimit.ScriptStepMirrors | limit/tokenlimit.go:20-41 | at a positive rate one script run gives that bucket's answer and keeps standing for it |
| TokenLimit.ExpiryIsInvisible | limit/tokenlimit.go:13-42 | at a positive rate the script answers every sequence of requests exactly as a bucket whose keys never expire |
| TokenLimit.NegativeRateForgets | limit/tokenlimit.go:13-42 | for every negative rate at which the script runs, two requests it answers differently once its keys have expired |
| TokenLimit.ExpiryInvisibleIff | limit/tokenlimit.go:13-42 | whenever the script runs at all, expiry changes no answer of any timely run if and only if the rate is positive |
| TokenLimit.NonnegativeNeverNotice | limit/tokenlimit.go:13-42 | requests for nonnegative numbers of tokens never notice expiry, at any setting at which the script runs |
| TokenLimit.KeptKeysArePlain | limit/tokenlimit.go:20-41 | while both keys live the script is the bucket that never forgets, in whatever order the readings arrive |
| TokenLimit.SpanRefills | limit/tokenlimit.go:28-35 | for readings in any order the calls of a span are granted at most a full bucket plus, for each step their readings take upward, its refill |
| TokenLimit.RefillsAreReached | limit/tokenlimit.go:28-35 | for every sequence of readings there are requests granted exactly that much |
| TokenLimit.OrderedRefills | limit/tokenlimit.go:28-29 | for ordered readings that is at most capacity + rate*(last - first) |
| TokenLimit.StaleReadingsPump | limit/tokenlimit.go:28-36 | at every positive rate, readings out of order within one second make the script grant any number of tokens |
| TokenLimit.NegativeBurstDenies | limit/tokenlimit.go:28-29 | with a negative burst nothing is ever granted, neither by the script nor locally |
| TokenLimit.RunSplits | limit/tokenlimit.go:77-117 | in every run the local bucket has seen exactly the calls that fell back, and the keys exactly the requests whose script ran |
| TokenLimit.FallbackAnswer | limit/tokenlimit.go:77-117 | in every run a call that falls back is denied exactly when, among the calls that fell back, from some earlier one or from creation the grants since plus n exceed burst + rate*(time since) |
| TokenLimit.PlainIsLocal | limit/tokenlimit.go:20-41 | for ordered readings the bucket behind the script is the local bucket on a clock of whole seconds |
| TokenLimit.ScriptAnswer | limit/tokenlimit.go:77-98 | in every run with ordered readings a call the script answers is answered as that bucket answers it among the calls whose script ran, and denied at negative rates |
| TokenLimit.StepKeepsSound | limit/tokenlimit.go:77-117 | one reservation, with any fate of the Redis call, keeps both buckets consistent with the clock |
| TokenLimit.FailoverBound | limit/tokenlimit.go:77-117 | for all settings, with Redis failing on any subset of calls, before or after the script ran, the calls of a span d are handed at most 2*burst + rate*(2d+1) tokens, negative settings counting as zero |
| TokenLimit.RedisKeys.Eval | limit/tokenlimit.go:13-42 | one script run answers and rewrites both keys as the model says, or fails and changes nothing |
| TokenLimit.TokenLimiter.constructor | limit/tokenlimit.go:57-65 | the local bucket starts full |
| TokenLimit.TokenLimiter.LocalAllow | limit/tokenlimit.go:101-117 | refill, cap, decide and withdraw, in that order |
| TokenLimit.TokenLimiter.ReserveN | limit/tokenlimit.go:77-98 | the script decides when it answers; otherwise the local bucket does, even if the script ran |
| PeriodLimit.CleanupIsInvisible | limit/periodlimit.go:62-76 | clean-up passes anywhere in a run, also with clock readings older than takes that got the lock first, change no answer |
| PeriodLimit.KeysAreIndependent | limit/periodlimit.go:62-121 | with other keys and such clean-up passes anywhere, a key's requests are answered as if it were alone in a table that is never cleaned |
| PeriodLimit.PotentialPaysForOneStep | limit/periodlimit.go:102-121 | every admitted request uses up one unit of what the open and the future windows can still admit |
| PeriodLimit.AdmittedWithinPotential | limit/periodlimit.go:102-121 | a run admits no more than that |
| PeriodLimit.LowQuotaIsOne | limit/periodlimit.go:107-114 | a quota below one answers every run exactly as quota one |
| PeriodLimit.PeriodBound | limit/periodlimit.go:62-121 | with other keys and clean-up anywhere, a key is admitted in a closed interval of length L at most q*(floor(L/(window+1))+1) times, plus q-1 unless window+1 divides L; q is the quota, or one if that is larger |
| PeriodLimit.MostIsReached | limit/periodlimit.go:102-121 | for every period, quota and interval a run in which a key is admitted exactly that often |
| PeriodLimit.MostWithinQuotas | limit/periodlimit.go:102-121 | that maximum never exceeds quota*(ceil(L/window)+1) |
| PeriodLimit.SlidesIff | limit/periodlimit.go:34-39 | no interval of one period sees more than quota admissions if and only if the quota is one |
| PeriodLimit.PeriodLimiter.LocalTake | limit/periodlimit.go:102-121 | opens a window for a missing or stale counter, else counts, and admits up to the quota |
| PeriodLimit.PeriodLimiter.CleanupPass | limit/periodlimit.go:66-75 | whatever the order of the walk, exactly the counters with expireAt before the reading are gone and every other one is unchanged |
| SharedCalls.StepKeepsInv | syncx/sharedcalls.go:34-55 | every step keeps callers, records and the map of calls consistent |
| SharedCalls.NoOverlap | syncx/sharedcalls.go:34-48 | executions of the function for one key never overlap |
| SharedCalls.DeleteRemovesOwnRecord | syncx/sharedcalls.go:50-52 | the delete removes the deleting caller's own record and no other entry |
| SharedCalls.ResultsAreFinal | syncx/sharedcalls.go:47-48 | a stored result never changes again |
| SharedCalls.ReturnsAgree | syncx/sharedcalls.go:36-54 | all callers of a record return its owner's result; only the owner reports having executed |
| SharedCalls.ExecutedOnce | syncx/sharedcalls.go:42-48 | between any two states of a run a record gets its result from exactly one execution of the function, by its owner |
| SharedCalls.ReturnsWhatWasExecuted | syncx/sharedcalls.go:34-55 | in every run, what a caller returns is what the function yielded in the one execution for its record, made by a caller with the same key |
| SharedCalls.ReadsFollowTheWrite | syncx/sharedcalls.go:38-39 | a released waiter always finds a written result, of a record it does not own |
| SharedCalls.StepDecreases | syncx/sharedcalls.go:34-55 | a natural-number measure strictly decreases on every step |
| SharedCalls.NeverStuck | syncx/sharedcalls.go:34-55 | as long as some caller has not returned some step is enabled |
| SharedCalls.RunsFinish | syncx/sharedcalls.go:34-55 | n callers take at most 4n steps, and a run that cannot go on has brought everyone home, with one executing caller per record and an empty map |
| SharedCalls.Calls.Join | syncx/sharedcalls.go:35-45 | joins the record in the map, or inserts a fresh one |
| Decimal.ParseUndoesPrint | redis/redis_notification.go:150-155 | reading back a printed integer gives it, cut off at the 32-bit bounds |
| Decimal.MalformedIsZero | redis/redis_notification.go:150 | a numeral spoilt by another character, or an empty one, is read as 0; a plus sign changes nothing |
| PayloadCodec.Index | redis/redis_notification.go:137-143 | the first occurrence of a separator, or none |
| PayloadCodec.LastPieceAfterPrefix | redis/redis_notification.go:136-142 | behind any prefix ending in a colon the last piece is the rest, if it has no colon |
| PayloadCodec.FirstField | redis/redis_notification.go:143-149 | the first field of value and count is the value exactly when no earlier pair of bars exists |
| PayloadCodec.DecodeOfEncode | redis/redis_notification.go:136-156 | for a clean value decoding gives the value and the count cut off at 32 bits |
| PayloadCodec.RoundTripIff | redis/redis_notification.go:136-156 | decoding undoes encoding behind any prefix if and only if the value is clean and the count fits 32 bits |
| PayloadCodec.DecodedIsClean | redis/redis_notification.go:136-152 | whatever the channel, a decoded payload survives another round trip |
| PayloadCodec.DecodesIff | redis/redis_notification.go:136-146 | a channel is decoded exactly when it has a colon and a pair of bars after the last one |
| PayloadCodec.DecodedFields | redis/redis_notification.go:136-152 | the value is what stands between the last colon and the next pair of bars, the count the numeral up to the pair after that |
| PayloadCodec.EncodeInjective | redis/redis_notification.go:154-156 | different payloads with clean values never share a key, whatever their counts |
| PayloadCodec.EncodedDecodes | redis/redis_notification.go:136-156 | whatever is encoded, clean or not, is decoded as something |
| PayloadCodec.OwnCount | redis/redis_notification.go:136-156 | a value that itself ends in a pair of bars and a number is decoded with that number as its count |
| Notification.TokensAreDistinct | redis/redis_notification.go:81 | node and goroutine can be read off a lock token |
| Notification.StepKeepsLockInv | redis/redis_notification.go:79-135 | every step, with any failing command, keeps a working subscriber the holder of its lock |
| Notification.AtMostOneHandler | redis/redis_notification.go:79-135 | at most one subscriber is between its lock and its unlock of a value |
| Notification.ChainStaysWithHolder | redis/redis_notification.go:79-135 | as long as no unlock of a value takes effect, every attempt for it is handled by the subscriber that holds the lock |
| Notification.FirstOfClean | redis/redis_notification.go:136-156 | a clean value is read back as itself with count 0 |
| Notification.PolicyIndexInRange | redis/redis_notification.go:74-77 | when there is a policy for the clients' own puts and no value they put is read back with a count below -1, every lookup of every run is in range, for any number of subscribers |
| Notification.LookupOutOfRange | redis/redis_notification.go:108-125 | every value read back with a count below -1 has a run in which the policies are indexed below zero |
| Notification.OutOfRangeExample | redis/redis_notification.go:108-152 | the value x&#124;&#124;-5 is one: its key is read back as x with count -5 |
| Notification.InRangeIff | redis/redis_notification.go:74-135 | for any set of values clients put and at least one subscriber, all lookups by clients and subscribers in all runs are in range if and only if nothing is put, or there is a policy and none of the values is read back with a count below -1 |
| Notification.TurnIsARun | redis/redis_notification.go:108-132 | one whole turn of the loop, with any fates of its commands, is what its steps add up to |
| Notification.LockKeptIff | redis/redis_notification.go:108-129 | with every command carried out: the expiry is ignored exactly when another token holds the lock, and the lock is kept exactly when another attempt is armed, which happens exactly when the handler asks for it and the count is below the number of policies |
| Notification.RetryChain | redis/redis_notification.go:102-135 | with one subscriber, one put read back with count k leads to calls numbered k+1, k+2, ..., at most max(1, len(policies)-k) of them, and one only if k is below -1, whatever else clients put; for a clean value k is 0 |
| Notification.MostCallsReached | redis/redis_notification.go:102-135 | for every value a client puts, a run with exactly that many calls |
| Notification.TwoSubscribersRepeat | redis/redis_notification.go:108-129 | for any value, any policies and any two or more subscribers there is a run that handles one payload, put once, twice with the same count |
| Notification.InSequenceIff | redis/redis_notification.go:102-135 | for any value a client puts, every run in which it is put once numbers its attempts upward within that bound, if and only if there is exactly one subscriber |
| Notification.Store.SetNX | redis/redis_notification.go:82 | takes the lock exactly when it is free and the command is carried out; reports it only if the answer arrives |
| Notification.NewNotification | redis/redis_notification.go:58-72 | nothing is created for an empty node, an empty key or no store; without policies there are six |
| Notification.RetryNotification.PutNotification | redis/redis_notification.go:74-77 | panics exactly when the count has no policy; otherwise arms the payload's encoded key unless the command is not carried out |
| Notification.RetryNotification.Lock | redis/redis_notification.go:79-88 | succeeds exactly when setting the lock is reported, or the lock is read back as this subscriber's; states the locks for every fate of the two commands |
| Notification.RetryNotification.OnExpired | redis/redis_notification.go:108-129 | for any channel, handler answer and fates: the handler is called exactly for decodable payloads whose lock is obtained, and the lock is released exactly when no further attempt is due |
| ClientManager.StepKeepsInv | http_server/ws_client_manager.go:56-182 | every step keeps map keys equal to session ids, user entries leading to the user's own sessions, every accepted client accounted for, and the map empty once the loop has drained it |
| ClientManager.NobodyIsLost | http_server/ws_client_manager.go:94-111 | a client whose entry disappears is closed in the same step or in the hands of its remover |
| ClientManager.StepKeepsAccount | http_server/ws_client_manager.go:56-182 | every step keeps each accepted client about to be listed, listed, closed or being closed |
| ClientManager.MapsAreConsistent | http_server/ws_client_manager.go:62-76 | in every reachable state keys are session ids and a user's entry with a live session names that user's client |
| ClientManager.KickHitsOnlyThatUser | http_server/ws_client_manager.go:155-165 | a kick by user id closes that user's client or nobody and removes no one else |
| ClientManager.KickUserEffect | http_server/ws_client_manager.go:155-165 | if the user's entry leads to a listed client, that client is closed and delisted and the entry is gone, and nothing else changes; otherwise nothing changes |
| ClientManager.KickSessionEffect | http_server/ws_client_manager.go:167-175 | a listed session's client is closed and delisted and its user's entry is gone, and nothing else changes; otherwise nothing changes |
| ClientManager.UnregisterEffect | http_server/ws_client_manager.go:69-76 | the client of a listed session is closed and the session delisted; users' entries stay |
| ClientManager.RegisterEffect | http_server/ws_client_manager.go:62-67 | the client is listed, its user's entry leads to it, and nothing else changes |
| ClientManager.DrainEffect | http_server/ws_client_manager.go:94-102 | exactly the listed clients are handed on to be closed; exactly the entries of users without a listed client stay |
| ClientManager.KickReachesIff | http_server/ws_client_manager.go:155-165 | in every reachable state a kick of its user delists a client exactly when the user's entry leads to it |
| ClientManager.KickAfterRegister | http_server/ws_client_manager.go:62-165 | right after its registration a kick of its user closes and delists a client |
| ClientManager.RemovedMeansClosed | http_server/ws_client_manager.go:69-111 | a listed client that is no longer listed is closed or being closed |
| ClientManager.ReturnedIsFinal | http_server/ws_client_manager.go:85-120 | after Start has returned nothing is accepted and the map stays empty |
| ClientManager.ShutdownIsComplete | http_server/ws_client_manager.go:85-120 | once Start and every Stop have returned no client is listed, all accepted ones are closed, for good |
| ClientManager.StopAloneMayLeaveClients | http_server/ws_client_manager.go:177-182 | a run in which Stop has returned and a client is listed and open |
| ClientManager.StaysEmptyIff | http_server/ws_client_manager.go:56-111 | in every reachable state no client is listed now or in any continuation if and only if the loop is draining or has returned, or has seen the stop channel with the map empty |
| ClientManager.SharedSessionIsLost | http_server/ws_client_manager.go:62-67 | for any two clients under one session id, a run with Start and Stop returned that leaves the first accepted and never closed |
| ClientManager.ClosesAllIff | http_server/ws_client_manager.go:56-182 | whenever Start and every Stop have returned all accepted clients are closed, in every run over a set of clients, if and only if no two of them share a session id |
| ClientManager.Manager.RemoveClient | http_server/ws_client_manager.go:71-76 | closes and delists a listed client; the user entry stays |
| ClientManager.Manager.KickClientByUserId | http_server/ws_client_manager.go:155-165 | closes and delists the client the user entry leads to, if live |
| ClientManager.Manager.KickClientBySessionId | http_server/ws_client_manager.go:167-175 | closes and delists the session's client and drops its user's entry |
| ClientManager.Manager.TakeAll | http_server/ws_client_manager.go:95-102 | in any order of the walk, takes out exactly the listed clients and their users' entries |
| ClientManager.Manager.CloseAll | http_server/ws_client_manager.go:104-109 | closes exactly the clients taken out |
| Snowflake.PlainId | uuid/uuid.go:60 | the bitwise packing of a regular call is the positional number of time, worker and number |
| Snowflake.IdSpelledOut | uuid/uuid.go:9-60 | a regular id is (ms - 1652751577000)*2^22 + worker*2^12 + number |
| Snowflake.OverflowId | uuid/uuid.go:50-60 | an overflowing call's id is that of (new millisecond, worker with its low bit set, number 0) |
| Snowflake.OverflowIdIsRegular | uuid/uuid.go:50-60 | it equals a regular id of that worker |
| Snowflake.UnmarshalUndoesGet | uuid/uuid.go:64-74 | worker and number are recovered from every regular id, and a time with 1000*time <= ms < 1000*time+1000 for ms >= 0, rounded towards zero below |
| Snowflake.IdFits | uuid/uuid.go:16-18 | inside the 41-bit range every id is a nonnegative int64 |
| Snowflake.WorkersNeverCollide | uuid/uuid.go:60 | regular ids of different workers differ |
| Snowflake.NumbersAreBounded | uuid/uuid.go:48-58 | on a clock that never goes back the number never exceeds 4096 and is 4096 exactly in overflowing calls |
| Snowflake.StampsInOrder | uuid/uuid.go:42-62 | one worker's stamps are issued in order of millisecond and number |
| Snowflake.RegularIdsIncrease | uuid/uuid.go:42-62 | ids of calls that do not overflow strictly increase |
| Snowflake.SameIdIff | uuid/uuid.go:42-62 | two calls of a worker share an id exactly when the first overflowed into the millisecond the second starts and the worker is odd |
| Snowflake.StampOfReadings | uuid/uuid.go:46-58 | read off the clock: a call overflows exactly when the 4096th call before it had the same reading, and its number is 0 exactly when the previous reading differs |
| Snowflake.UniqueIff | uuid/uuid.go:42-62 | all ids of a run differ if and only if the worker is even or no call's reading is the very millisecond the overflowing call before it waited for |
| Snowflake.OddWorkersCanRepeat | uuid/uuid.go:50-54 | for every odd worker a run that repeats an id |
| Snowflake.SameIdAcross | uuid/uuid.go:60 | different workers share an id exactly within a pair 2k, 2k+1, in the same millisecond, on calls that overflow or are the odd worker's number 0 |
| Snowflake.DisjointIff | uuid/uuid.go:42-62 | two workers' runs share no id if and only if they are not such a pair, or no overflow of the even one waits for a millisecond the odd one begins or waits for, all told by clock readings |
| Snowflake.NeighboursCanCollide | uuid/uuid.go:50-60 | for every even worker, runs in which it and its odd neighbour issue the same id |
| Snowflake.UuidWorker.Get | uuid/uuid.go:42-62 | the spin loop stops at the first reading past the timestamp; state and id afterwards |
| Snowflake.NewUuidWorker | uuid/uuid.go:30-40 | succeeds exactly for worker numbers 0 to 1023 |
| ApisixGateway.NormalizedURI | register/apisix.go:140-145 | a trailing star ends up behind a slash with everything before it kept; any other URI is unchanged |
| ApisixGateway.RouteIDInjective | register/apisix.go:108 | a route id tells its service and its index |
| ApisixGateway.StepLeavesOthersAlone | register/apisix.go:93-229 | no step of a call touches another service's routes, upstream, tracking or call in progress |
| ApisixGateway.StepKeepsInv | register/apisix.go:93-229 | every step, with any failing request, keeps tracked ids live and owned |
| ApisixGateway.TrackedRoutesAreLive | register/apisix.go:101-131 | in every reachable state, with one call at a time for each service, a tracked id is a live route of its service and of no other |
| ApisixGateway.OverlapBreaksTracking | register/apisix.go:101-131 | a registration and a deregistration of one service that overlap can leave a tracked route that is gone |
| ApisixGateway.ServicesAreIsolated | register/apisix.go:93-229 | calls for other services, interleaved and failing in any way, leave a service untouched |
| ApisixGateway.RegisterIsARun | register/apisix.go:93-138 | a whole registration is what its steps add up to |
| ApisixGateway.DeregisterIsARun | register/apisix.go:211-229 | a whole deregistration is what its steps add up to |
| ApisixGateway.RegisterIsIdempotent | register/apisix.go:93-138 | registering the same description again without failures changes nothing |
| ApisixGateway.RegisteredAsDescribed | register/apisix.go:93-176 | after a registration with any failures past its upstream, the upstream and every route whose request took effect are on the gateway field by field as described, route i under id-route-i |
| ApisixGateway.RegisterReplyIff | register/apisix.go:93-138 | success exactly when every request was reported as done; otherwise the upstream, or exactly the routes that were not |
| ApisixGateway.DeregisterReplyIff | register/apisix.go:211-229 | success exactly when the upstream exists and every request was reported as done; otherwise the first route that failed, or the upstream |
| ApisixGateway.RegisterThenDeregister | register/apisix.go:93-229 | registering and deregistering a fresh service without failures restores gateway and tracking |
| ApisixGateway.RestoredIff | register/apisix.go:101-131 | after two registrations of a fresh service a deregistration restores the gateway if and only if the second list of routes is not shorter |
| ApisixGateway.RestoredUnderFatesIff | register/apisix.go:93-229 | for any fates of all requests, registering and deregistering a fresh service restores gateway and tracking if and only if the upstream was never created; or every written route was reported, every tracked route's deletion was reported, and the upstream's deletion took effect |
| ApisixGateway.NewApisixGateway | register/apisix.go:52-73 | fails exactly for an empty admin URL; otherwise nothing is tracked and unknown modes count as single |
| ApisixGateway.Gateway.WriteRoutes | register/apisix.go:101-131 | the loop writes the routes in order, tracks those reported as written and collects the others |
| ApisixGateway.Gateway.RegisterServiceDirect | register/apisix.go:93-138 | upstream first; a failure there stops the call, failed routes do not |
| ApisixGateway.Gateway.DeregisterServiceDirect | register/apisix.go:211-229 | untracks first, deletes routes in order, stops at the first error, then deletes the upstream |
| ApisixGateway.Gateway.RegisterService | register/apisix.go:80-91 | off mode changes nothing and succeeds; single mode is one whole registration |
| ApisixGateway.Gateway.DeregisterService | register/apisix.go:178-209 | off mode and disabled deregistration change nothing and succeed; otherwise one whole deregistration |

## Left out

- ApisixGateway.Gateway.RegisterService: leader mode, whose protocol lives in the Kubernetes client library.
- ApisixGateway.Gateway.DeregisterService: leader mode, for the same reason.
- Shedder.RollingCounter.constructor: a positive interval; with zero the code panics at the first use, with a
  negative one it never rotates.
- Shedder.AdaptiveShedder.constructor: a positive bucket duration, for the same reason.
- Notification.RetryChain: fewer than 2^31 policies.
- Floating-point rounding: ratios, tokens and averages are reals; the script's quantities are integers, as they are
  in every call the limiter makes.
- Overflow of 64-bit counters in the breaker's buckets and in `flying`, and saturation of time differences.
- Clocks that go back: single operations are modelled for any reading; the theorems over runs assume a clock
  that does not go back.
- TokenLimit.ExpiryIsInvisible: readings that reach the script in order; for any order see SpanRefills.
- TokenLimit.FailoverBound: readings in order as well; StaleReadingsPump shows that no such bound holds otherwise.
- ApisixGateway.StepKeepsInv: at most one call at a time for each service; OverlapBreaksTracking shows why.
- ApisixGateway.StepLeavesOthersAlone: service ids that are one segment of a URL path; an id with a character that
  URLs interpret, put unescaped into the request URL, can reach another service's resources.
- ApisixGateway.ServicesAreIsolated: the same ids.
- ApisixGateway.NewApisixGateway: the panic on configuration bytes that cannot be decoded.
- ClientManager.MapsAreConsistent: assumes, like the other results on runs of the client manager except
  ClosesAllIff and StaysEmptyIff, that session ids are unique.
- The Redis side of the period limiter: an increment with an expiry. Only the local counter is modelled.
- PeriodLimit.PeriodBound: for a positive period; with any other the ticker of the clean-up loop panics.
- Panics and nested calls inside user callbacks; a single-flight function that calls back for its own key would
  wait for itself.
- Default settings of the shedder: its threshold, window and number of buckets are arguments of the constructor.
- CPU sampling in the shedder: CPU is an arbitrary input of each decision.
- Broadcasts and keep-alive messages of the client manager: they change neither map.
- WebSocket input and output: closing a client is a flag.
- Order of shutdown: the walk over the client map is in any order, and the closes are one at a time in any order.
- The shared call records are values in an append-only sequence named by position, not heap objects.
- Connection pools, data access, codecs, configuration, tracing, metrics, logging, JWT and encryption: wrappers over
  libraries.
- Leader election and etcd registration: the protocols are in client-go and etcd.
