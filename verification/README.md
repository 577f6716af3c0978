# VaultPay, verified

A Dafny model of the payment engine's logic, with the properties it is built for proved over every
input, run or interleaving.

- **Ledger** (`Ledger.dfy`). A labelled transition system: the committed tables, every transaction
  with its buffered writes, the row locks held to commit or rollback, the task queue. A step is one
  SQL statement, an enqueue, a commit or a rollback. A rollback can strike anywhere, which covers
  crashes, timeouts and serialization failures. Charges, refunds and outbox batches are the programs.
- **Isolation, Conservation, Delivery, Progress**. Whole-run theorems about that system:
  serialisability in commit order, conservation of money, exact counting of deliveries, deadlock
  freedom and termination. They do not mention Redis, so they hold when leases expire mid-charge.
- **PaymentService** (`PaymentService.dfy`). The Go methods as imperative clients of the same
  system, one statement per call, with other sessions' statements in between and a failure possible
  at each. Their contracts say how every exit leaves the database.
- **Binary64, Currency, Exchange, Subscription**. binary64 rounding (IEEE 754-2019, section 4.3.1)
  computed over the reals and proved to be the rounding of the standard. On it the conversion,
  printing and proration code is compared with exact integer arithmetic.
- **IpLimiter, SlidingWindow, Breaker, Pagination**. The token buckets with their cleaner, the Redis
  limiter script, the circuit breaker under concurrent callers, and the cursor paging.
- **Lease, Idempotency, ChargeRuns, ChargeHandler**. The Redis lease, the response cache, joint
  histories of cache and ledger, and the charge route that extends them.

Objects that the program updates in place are classes whose methods are proved against a function of
the old state. The run-level theorems are about the same functions.

## Where the code does not do what it says

- `UsdToInrExactly`, `InrToUsdExactly`: the conversions are described as having absolute integer
  precision. Past 2^53 / 167 cents in size, an amount whose size is 1 modulo 4 moves a paisa away
  from zero; from 167 * 2^45 paise on, one whose size is 83 modulo 167 moves a cent. Larger results
  are rounded to the spacing of floats (`UsdToInrLarge`, `InrToUsdLarge`, `NearestConverts`).
- `RupeeChain`, `SmallestGain`: a round trip from rupees makes a paisa for the amounts from
  167 * 2^45 + 83 on that are 83 modulo 334.
- `PrintLimit`, `PrintsExactly`: from 100 * 2^46 + 1 on, amounts can print as their neighbours.
- `OneTooFew`, `OneTooMany`: proration can be one unit off either way.
- `LimitsExactly`, `ShippedNeverRefuses`: the sliding window stores one entry a second, so calls in
  one second have no bound once the limit is 2, and the shipped 1000 in 60 seconds never refuse.
- `DoubleDebit`, `EachWayDoubles`: the idempotency cache alone does not stop two charges for one key
  when the requests overlap, when the server stops after COMMIT and before the reply is stored, when
  the acknowledgement of COMMIT is lost and an error is sent, when Redis loses the store, or when it
  does not answer the lookup. The store uses the request's
  context, so a client that hangs up can lose it. The README of the program names the header
  X-Idempotency-Key; the code reads Idempotency-Key.
- `ImplicitHeaderUnkept`, `StatusExactly`: a handler that writes a body without a header answers 200, but the recorder
  keeps status 0 and the reply is not cached. The charge handler always sends its header.
- `CompleteUnlessCut`: the paging loop does not look at the error that ended the iteration, so a page
  cut short by a lost connection looks like the last page.
- `SettledIsFinal`: a FAILED outbox row is never selected again, although a comment says to keep
  trying. Eventual delivery is therefore not claimed.
- `StandsExactly`, `SharedTokenBreaks`: the lease token is a printed timestamp. If two acquires print
  the same one, a late release removes another handler's lease.
- HALF_OPEN lets every caller through, not one trial request. `AdmissionRule` states what it does.
- `LagMatters`, `RateLag`: the cleaner is unobservable, and the rate bound safe, only while at most
  179.8 s + 1 ns pass between the clock reading stored as `lastSeen` and the limiter's own.
- The refund guard names 'paid' and 'COMPLETED', which are not in the status enum
  (migrations/000001_init_schema.up.sql:23). Refunds start from 'succeeded' only.
- `UserExcluded`, `TwoTextsMeet`: the lease is keyed by the text of the user id, so two spellings of
  one UUID do not exclude each other. The row lock does.

## Assumptions

Row locks, SKIP LOCKED with recheck, atomic commit, SET NX with a time to live, and atomic scripts
work as documented; a poll may also pass over rows that were locked, or not yet committed, when its
scan reached them. `gen_random_uuid()` never repeats. In the methods a COMMIT that
reports an error has not committed (the charge-once theorem allows that it has), and an enqueue that
reports an error has not enqueued. Floating-point operations are rounded one by one: a compiler does
not fuse a product and a difference. Text is compared byte by byte. The
charge-once theorem reads one clock for cache and ledger. The sliding
window assumes that Redis's clock and the callers' differ by a constant to the second.

## Model

| member | source | states |
|---|---|---|
| Isolation.Serialisable | internal/repository/payment_repo.go:63-172 | For every interleaving of statements of any number of charges, refunds and outbox batches, with rollbacks anywhere, the committed tables are those of the committed transactions run whole, one after another, in commit order. |
| Isolation.LogIsComplete | internal/service/payment_service.go:30-69 | That serial order leaves out and adds nothing: its programs are, as a multiset, exactly those of the committed transactions. |
| Isolation.CommitIsWhole | internal/service/payment_service.go:65-67 | A commit changes the tables exactly as the transaction's whole operation would at that moment, so no read has gone stale. |
| Isolation.StepKept | internal/repository/payment_repo.go:54-60 | Every statement of every transaction keeps the invariant: what a transaction read is still true, its writes describe its operation, its locks are exclusive. |
| Conservation.Conserved | internal/repository/payment_repo.go:77-98 | In every reachable state each user's balance plus the sum of the user's succeeded payments is what it was at the start, in raw minor units. |
| Conservation.InRange | internal/repository/payment_repo.go:72-75 | Every balance stays between 0 and the initial balance plus the payments outstanding at the start: no overdraft in any interleaving. |
| Conservation.CreditFits | internal/repository/payment_repo.go:150-154 | The credit of a refund whose guard has passed never overflows BIGINT. |
| Conservation.RefundedOnce | internal/repository/payment_repo.go:146-162 | A payment is refunded at most once in any run. |
| Conservation.SettledStays | internal/repository/payment_repo.go:146-148 | A payment that is not 'succeeded' is never refunded and never changes. |
| Conservation.EventsMatchPayments | internal/service/payment_service.go:42-62 | In every reachable state new payments and new outbox rows correspond one to one by payment id, and each event carries its payment's user, amount and currency. |
| Delivery.EnqueueCount | internal/service/outbox_worker.go:99-126 | In every run an event's successful enqueues are those of rolled-back batches, plus 1 if the row is PROCESSED, plus those of live batches. |
| Delivery.OneCarrier | internal/service/outbox_worker.go:60-66 | At most one live batch carries an event, and then its row is still PENDING. |
| Delivery.ClaimsOldest | internal/service/outbox_worker.go:60-66 | A poll takes exactly the oldest PENDING rows that nobody has locked, oldest first, ten of them or all there are. |
| Delivery.ProcessedWasEnqueued | internal/service/outbox_worker.go:104-116 | A row becomes PROCESSED only after a successful enqueue. |
| Delivery.DuplicatesNeedRollback | internal/service/outbox_worker.go:58 | An event enqueued twice was enqueued by a batch that rolled back. |
| Delivery.SettledIsFinal | internal/service/outbox_worker.go:110-114 | A row that is PROCESSED or FAILED is never enqueued again and never changes. |
| Progress.NoDeadlock | internal/repository/payment_repo.go:137-162 | In no reachable state is there a cycle of transactions waiting for each other's row locks; a chain has at most three members. |
| Progress.Terminates | internal/service/outbox_worker.go:99-121 | No interleaving without new transactions is longer than a measure of the unfinished ones. |
| Progress.Completes | internal/repository/payment_repo.go:66-88 | From every reachable state all unfinished transactions can be run to their end by their own next steps, within the measure. |
| PaymentService.Database.Exec | internal/repository/payment_repo.go:66-67 | One statement amid other sessions: it either takes effect in an invariant state or fails and leaves the state as those sessions left it. |
| PaymentService.Database.CommitTx | internal/service/payment_service.go:64-67 | A successful commit makes all writes of the transaction visible and frees its locks; a failed one changes nothing of it. |
| PaymentService.Database.RollbackTx | internal/service/payment_service.go:36-40 | A rollback leaves tables and queue as they are and frees the locks. |
| PaymentService.CreateTransactionRecordTx | internal/repository/payment_repo.go:63-99 | Undisturbed, with a fresh id and the row free, it succeeds exactly if the user exists with sufficient balance; the committed tables never change. |
| PaymentService.SaveEventTx | internal/repository/outbox_repository.go:33-46 | The outbox row is staged in the caller's open transaction, for the payment inserted there. |
| PaymentService.ProcessCharge | internal/service/payment_service.go:24-70 | Every exit has committed payment and event or neither and holds no row lock. The call opens one transaction; every other statement is of other sessions. Without failures only the user's data, a lock or a taken id keeps it from succeeding, whatever the others do. Alone, it is the whole charge or nothing, and succeeds exactly if the funds are there. |
| PaymentService.ProcessRefund | internal/repository/payment_repo.go:126-172 | Every exit has ended its one transaction without locks; success leaves the payment refunded. Without failures only a missing, locked or unrefundable payment, or its user, keeps it from succeeding, whatever the others do. Alone, it is the whole refund exactly when the guard allows it. |
| PaymentService.ProcessPendingEvents | internal/service/outbox_worker.go:51-127 | One transaction a round; a committed one leaves each row of its batch PROCESSED or FAILED as its enqueue went; without failures it commits unless there is nothing to send. Alone, the queue gains exactly the accepted events, oldest first. |
| Binary64.RoundRounds | internal/service/currency.go:37 | The computed rounding is the representable number nearest to x, the even one on a tie, for every real x (IEEE 754-2019, section 4.3.1). |
| Binary64.RoundsUnique | internal/service/currency.go:37 | That specification has one solution: two roundings of a number are equal. |
| Binary64.RoundMonotone | internal/service/currency.go:37-42 | Rounding keeps the order of any two numbers. |
| Binary64.RelativeError | internal/service/subscription.go:94-98 | Rounding moves a number by at most 2^-53 of its size. |
| Currency.UsdToInrExact | internal/service/currency.go:35-38 | Cents to paise equals the exact quotient 167a/2 without its fraction for every a up to floor(2^53/167) in size. |
| Currency.UsdToInrExactly | internal/service/currency.go:35-38 | For positive and negative amounts with results up to 2^53 the conversion is exact if and only if the size is at most floor(2^53/167) or not 1 modulo 4; otherwise it is one paisa too far from zero. |
| Currency.UsdToInrLarge | internal/service/currency.go:35-38 | For every amount with a result from 2^53 on, b being the float64 nearest to it and floats 2^k apart at 167b/2: exact if and only if the exact result is an int64 and the multiple of 2^k nearest to 167b/2, the even one on a tie. For a representable amount it need only be a multiple of 2^k. |
| Currency.InrToUsdExact | internal/service/currency.go:40-43 | Paise to cents equals the exact quotient 2b/167 without its fraction for every b up to 167 * 2^45 + 82 in size; the next amount gives one too many. |
| Currency.InrToUsdExactly | internal/service/currency.go:40-43 | For every b up to 2^53 in size, of either sign, the conversion is exact if and only if the size is below 167 * 2^45 or not 83 modulo 167; otherwise it is one cent too far from zero. |
| Currency.InrToUsdLarge | internal/service/currency.go:40-43 | For every int64, b being the float64 nearest to it and floats 2^e apart at 2b/167: exact if and only if the exact result is the whole part of 2b/167, plus one when the fraction is within 2^(e-1) of the next integer (e up to 0), or the nearest multiple of 2^e. |
| Currency.ReachedItself | internal/service/currency.go:40-43 | For a representable amount that says: the fraction stays clear of the next integer, or the whole part is a multiple of 2^e. |
| Currency.NearestConverts | internal/service/currency.go:37-42 | Such a b exists for every amount, and the amount converts both ways exactly as b does. |
| Currency.OtherPairs | internal/service/currency.go:30-47 | A currency to itself changes nothing, and any other pair is unsupported. |
| Exchange.DollarChain | internal/service/currency.go:29-48 | For 0 <= 167a < 2^54, any number of alternating conversions from a cents has the stated closed form: it never gains, loses an odd cent at most, and is stable after one round trip. |
| Exchange.RupeeChain | internal/service/currency.go:29-48 | For 0 <= b < 2^53, alternating conversions from b paise lose at most 166 paise, are stable after two round trips, and gain if and only if b is at least 167 * 2^45 and 83 modulo 334: then exactly one paisa, in the first round trip. |
| Exchange.LargestLoss | internal/service/currency.go:29-48 | The loss of 166 paise occurs. |
| Exchange.SmallestGain | internal/service/currency.go:29-48 | The smallest amount that gains is 167 * 2^45 + 83 paise; up to 167 * 2^45 + 82 no chain of round trips does. |
| Exchange.PrintsDecimal | internal/service/currency.go:51-54 | For amounts below 100 * 2^46 in size the text is exactly sign, whole part, point and two digits. |
| Exchange.NoLeadingZero | internal/service/currency.go:51-54 | The whole part in print has no leading zero. |
| Exchange.PrintRoundTrip | internal/service/currency.go:51-54 | In that range parsing the text gives the amount back, so distinct amounts print differently. |
| Exchange.PrintLimit | internal/service/currency.go:51-54 | The range is sharp: 100 * 2^46 + 1 prints as the amount after it. |
| Exchange.PrintsExactly | internal/service/currency.go:51-54 | From 100 * 2^46 up to 2^53 in size, printing is exact if and only if the last two digits are among those that survive rounding to 64ths and back. |
| Subscription.MonthlyPeriod | internal/service/subscription.go:53-54 | A monthly period is as long as the month it starts in, also across year ends and short months. |
| Subscription.AnnualPeriod | internal/service/subscription.go:55-57 | An annual period is 365 or 366 days long, by the leap day it contains. |
| Subscription.LeapYears | internal/service/subscription.go:53-57 | Leap years fall as in the Gregorian calendar: 146097 days in 400 years. |
| Subscription.MonthLengths | internal/service/subscription.go:53-57 | Months have their lengths, and years meet. |
| Subscription.SubscriptionService.CreateSubscription | internal/service/subscription.go:45-71 | An unknown period is refused and stores nothing; otherwise the record is stored with a period as long as its starting month, or 365 or 366 days by the leap day it contains. |
| Subscription.SubscriptionService.CalculateProration | internal/service/subscription.go:76-108 | An unknown id is an error; after the period the new price; within it 0 for a downgrade, and for an upgrade up to 2^45 a nonnegative charge within 1 unit of the exact price of the remaining time rounded down. |
| Subscription.DowngradeFree | internal/service/subscription.go:103-105 | Within a period a new amount not above the old one costs 0. |
| Subscription.ProrateMonotone | internal/service/subscription.go:94-107 | The charge is nondecreasing in the new amount and nonincreasing in the old one. |
| Subscription.ChargeError | internal/service/subscription.go:94-101 | Before the cast the float result is within 1/32 of a minor unit of the exact price, for amounts up to 2^45 and any durations. |
| Subscription.ProrateAccurate | internal/service/subscription.go:94-107 | The result is within 1 minor unit of the exact price rounded down. |
| Subscription.ProrateExact | internal/service/subscription.go:94-107 | It is that price rounded down whenever the exact price is at least 1/32 above a whole number and more than 1/32 below the next. |
| Subscription.OneTooFew | internal/service/subscription.go:94-107 | The tolerance is met below: four fifths into a year an upgrade that owes 1 is charged 0. |
| Subscription.OneTooMany | internal/service/subscription.go:94-107 | And above: 1 ns past the middle of a year an upgrade that owes less than 1 is charged 1. |
| IpLimiter.RateLimiter.Limit | internal/handler/middleware.go:39-63 | A bad address is refused and changes nothing; otherwise table and answer are those of one request served. |
| IpLimiter.RateLimiter.Clean | internal/handler/middleware.go:23-36 | After a round over all clients exactly those remain that were not idle for over three minutes at their own clock reading, with their entries unchanged. |
| IpLimiter.OrderIrrelevant | internal/handler/middleware.go:28-32 | The iteration order of a round does not matter. |
| IpLimiter.RoundInRun | internal/handler/middleware.go:23-36 | A round is a series of visits in a run: it changes the table as Clean does and no decision. |
| IpLimiter.EvictionUnobservable | internal/handler/middleware.go:23-60 | Wherever the cleaner acts, every request of every client gets the answer it would get from a table that never forgets. |
| IpLimiter.LagMatters | internal/handler/middleware.go:47-54 | Eviction is transparent in all runs if and only if the two clock readings of a request are at most 179.8 s + 1 ns apart. |
| IpLimiter.RateBound | internal/handler/middleware.go:48-60 | With evictions anywhere, one client gets at most 10 + 5 (t - s) requests through in any interval [s, t]. |
| IpLimiter.RateLag | internal/handler/middleware.go:47-60 | That bound holds in all runs if and only if the same lag is kept. |
| IpLimiter.TenAtOnce | internal/handler/middleware.go:49-54 | A new client gets ten requests through at once and no eleventh. |
| IpLimiter.ThreeMinutes | internal/handler/middleware.go:29-31 | A visit removes a client exactly if it was last seen more than 180 s before. |
| Breaker.CircuitBreaker.CanExecute | internal/database/cluster.go:121-143 | Read-locked and write-locked section with other callers between them; the answer is that of the write-locked section unless the breaker was closed. |
| Breaker.CircuitBreaker.RetryQuery | internal/database/cluster.go:86-118 | Refused: one run, nothing recorded. Admitted: at most 3 runs, all but the last failing, success or failure recorded accordingly and nothing after a cancelled context; the waiting time is the sum of the doubled backoffs. |
| Breaker.Backoffs | internal/database/cluster.go:93-115 | The waiting times are 0, 100, 300 and 700 ms after none to three failed attempts. |
| Breaker.HistoryDecides | internal/database/cluster.go:121-164 | In every interleaving the count is the failures since the last success; closed exactly below the threshold; half-open exactly if a caller entered after the cooldown; when open the stamp is the latest failure. |
| Breaker.AdmissionRule | internal/database/cluster.go:132-142 | A caller entering is let through if and only if fewer than `threshold` failures followed the last success or the latest failure is more than the cooldown ago. |
| Breaker.StaysOpen | internal/database/cluster.go:145-155 | Once tripped, no interleaving without a recorded success lets anyone in before the cooldown is over. |
| Breaker.TwoSectionsRefineOne | internal/database/cluster.go:121-143 | The double-checked lock gives the state and the replies of a run in which each CanExecute is one atomic step. |
| Breaker.CallsAnswered | internal/database/cluster.go:86-118 | Every call is answered once, and no caller records more outcomes than it was let through. |
| Pagination.TextOrder | internal/repository/payment_repo.go:191-201 | Canonical UUID text (RFC 9562, section 4) orders as the bytes do, so filter and ORDER BY agree. |
| Pagination.TextShape | internal/repository/payment_repo.go:191 | The text of an id has 36 characters, hyphens at 8, 13, 18 and 23, and lower-case hexadecimal digits elsewhere. |
| Pagination.TextInjective | internal/repository/payment_repo.go:223 | Different ids have different texts, so a cursor names one row. |
| Pagination.GetPaginatedTransactions | internal/repository/payment_repo.go:189-232 | The error cases exactly, the rows in order, and the cursor of the last row exactly if the page has `limit` rows. |
| Pagination.ScannedFields | internal/repository/payment_repo.go:217-222 | Each transaction carries its row's id as text, amount, currency, status and time. |
| Pagination.EnumeratesAll | internal/repository/payment_repo.go:197-229 | Feeding the cursors back returns every row of an unchanging table once, in descending id order, in n / limit + 1 calls. |
| Pagination.NothingTwice | internal/repository/payment_repo.go:197-229 | Whatever is inserted between calls, the rows come in strictly descending order, so none comes twice. |
| Pagination.NothingMissed | internal/repository/payment_repo.go:197-229 | With inserts between calls every row there at the first call still comes. |
| Pagination.CompleteUnlessCut | internal/repository/payment_repo.go:217-231 | A finished listing is complete if and only if no page ended before its rows did. |
| SlidingWindow.SortedSet.Eval | internal/middleware/rate_limiter.go:13-26 | The script's trim, count, insert and expiry as one atomic function of the stored key. |
| SlidingWindow.SortedSet.Limit | internal/middleware/rate_limiter.go:36-65 | 500 without Redis and nothing stored, 429 exactly on the script's refusal, else forwarded. |
| SlidingWindow.Expiry | internal/middleware/rate_limiter.go:24 | An admitted call leaves the key to expire `window` seconds later; a refused one leaves the deadline. |
| SlidingWindow.SetRefinesLog | internal/middleware/rate_limiter.go:13-26 | Trimming and expiry are unobservable: every call is decided as by the full log of admitted calls, and the set holds exactly the distinct admitted seconds of the window. |
| SlidingWindow.AdmittedIsLogged | internal/middleware/rate_limiter.go:13-26 | The seconds of the calls that the script lets through are those of the full log. |
| SlidingWindow.SecondsBounded | internal/middleware/rate_limiter.go:19-22 | In no run of the script does a window hold more than `limit` distinct admitted seconds. |
| SlidingWindow.RequestsBounded | internal/middleware/rate_limiter.go:19-26 | Calls with distinct timestamps that the script lets through never number more than `limit` in any window. |
| SlidingWindow.SameSecondFree | internal/middleware/rate_limiter.go:23 | Without that hypothesis the script lets any number of calls in one second through, in a timed run, once the limit is 2 or more. |
| SlidingWindow.LimitsExactly | internal/middleware/rate_limiter.go:13-26 | The quota bounds the calls of every run in every window if and only if its limit is 0 or 1. |
| SlidingWindow.RefusesSometimes | internal/middleware/rate_limiter.go:20-22 | Some run is refused if and only if the limit does not exceed the window's seconds. |
| SlidingWindow.ShippedNeverRefuses | internal/middleware/rate_limiter.go:45-50 | The shipped window and limit never refuse a call. |
| Lease.DistributedLock.AcquireLock | internal/database/redis_lock.go:24-39 | Success exactly if no live lease is stored; the new state also when the reply is lost. |
| Lease.DistributedLock.ReleaseLock | internal/database/redis_lock.go:42-52 | The key goes exactly if it is live and holds this token. |
| Lease.ReleasesOnlyItsOwn | internal/database/redis_lock.go:42-52 | Over all interleavings in which a new token differs from those of handlers still inside on the key, what a release deletes is the lease of its own acquire, and no other key. |
| Lease.TogetherOnlyExpired | internal/handler/payment_handler.go:77-95 | Two handlers are inside for one key text together only if the earlier one's 5 s lease ran out before the later one's began. |
| Lease.UserExcluded | internal/handler/payment_handler.go:77-95 | The lease keeps one user's charges apart in all runs if and only if the user has only one key text. |
| Lease.TwoTextsMeet | internal/handler/payment_handler.go:77-95 | Two spellings of one id let two handlers in at once: a lawful run. |
| Lease.ExcludesItsTextOnly | internal/database/redis_lock.go:24-39 | While a handler's lease lasts, an acquire of a free key succeeds if and only if its text differs from the handler's. |
| Lease.LeaseStands | internal/handler/payment_handler.go:78 | While a handler's lease lasts, nobody else acquires its key. |
| Lease.FiveSeconds | internal/handler/payment_handler.go:78 | A lease of the charge handler refuses others for 5000 ms and no longer. |
| Lease.StandsExactly | internal/database/redis_lock.go:42-52 | Whatever the tokens, over any run within its time to live in which its handler does not release, a lease stands throughout if and only if no other handler inside on the key releases with the same token. |
| Lease.SharedTokenBreaks | internal/database/redis_lock.go:26 | With one token for two acquires a third handler gets in while the second lease should stand. |
| Idempotency.RecorderFaithful | internal/middleware/idempotency.go:55-69 | The recorder keeps the body the client gets, and the status too if the header is sent first. |
| Idempotency.ImplicitHeaderUnkept | internal/middleware/idempotency.go:61-69 | Without an explicit header the client sees 200 and the recorder keeps 0. |
| Idempotency.StatusExactly | internal/middleware/idempotency.go:49-69 | For every handler the recorder's status is the client's if and only if the last header repeats the status of the first action; it is stored if and only if that last header is 200 or 201. |
| Idempotency.ResponseRecorder.WriteHeader | internal/middleware/idempotency.go:61-64 | The recorder keeps the latest status while the writer keeps the first. |
| Idempotency.ResponseRecorder.Write | internal/middleware/idempotency.go:66-69 | Both bodies grow by the same text; the writer's status becomes 200 if none was sent. |
| Idempotency.CacheIsLastStored | internal/middleware/idempotency.go:33-51 | In every interleaving, overlapping or not, a lookup finds the latest stored success of its key, for exactly 24 h. |
| Idempotency.OneDay | internal/middleware/idempotency.go:49-51 | A reply with 200 or 201, and no other, is found for 86400000 ms with its body; other keys are untouched. |
| Idempotency.MissesExactly | internal/middleware/idempotency.go:33-47 | In every interleaving the handler runs if and only if Redis does not answer or no success of the key was stored within the 24 h before the lookup. |
| Idempotency.SecondSuccess | internal/middleware/idempotency.go:33-51 | If two requests of a key succeed, the second lookup coming within 24 h of the first success, that lookup preceded the first store, or the store was lost, or the lookup got no answer. |
| Idempotency.RepliesRepeat | internal/middleware/idempotency.go:35-42 | Every answered lookup within 24 h of the latest stored success is answered with that success's body, character by character. |
| ChargeRuns.DoubleDebit | internal/middleware/idempotency.go:33-51 | Over every joint history of cache and ledger: when two charges of one key commit within 24 h, the earlier request's success was not stored when the later one looked up (still running, cut off, an error reply although the charge committed, or lost), or Redis did not answer. |
| ChargeRuns.ChargedOnce | internal/handler/payment_handler.go:105-114 | In any day a key whose replies are stored before the next lookup, with Redis answering, costs a user nothing or what one single committed charge takes. |
| ChargeRuns.DebitTakes | internal/service/payment_service.go:43-69 | A committed charge takes exactly its amount, from its user and from nobody else. |
| ChargeRuns.DebitLogged | internal/service/payment_service.go:64-69 | It is one entry of the serial commit log, with that user and amount. |
| ChargeRuns.GeneratedLawful | internal/middleware/idempotency.go:33-51 | However many requests overlap, in whatever order they look up, execute statements, open transactions and end, their histories keep the rules of the theorems above. |
| ChargeRuns.LookLawful | internal/middleware/idempotency.go:33-47 | A lookup keeps the rules of a history, whatever it finds. |
| ChargeRuns.FinishLawful | internal/handler/payment_handler.go:105-114 | So does the end of a request, if a success is the reply to a committed charge of its own. |
| ChargeRuns.ClaimLawful | internal/handler/payment_handler.go:105 | So does attributing a transaction to the request that opened it, ended or not. |
| ChargeRuns.EachWayDoubles | internal/middleware/idempotency.go:33-51 | Each of the five ways (overlap, crash after the commit, error reply after the commit, lost store, unanswered lookup) happens: a lawful history whose ledger debits one user twice at once for one key. |
| ChargeHandler.CreateChargeHandler | internal/handler/payment_handler.go:44-115 | The status in every case as a literal; 200 exactly if the one transaction it opened, for the requested user, amount and currency, has committed. Undisturbed it is the whole charge or nothing; without failures it is refused only for cause. Nothing is touched before the lease is held; the release runs on every way out. |
| ChargeHandler.AcceptableExactly | internal/handler/payment_handler.go:57-71 | A request passes the checks exactly with a user, a positive amount, and USD or INR. |
| ChargeHandler.AfterCallFrees | internal/handler/payment_handler.go:93-95 | An undisturbed call leaves its key free, or leased until 5000 ms after the acquire if the release is lost; other keys stay as they are. |
| ChargeHandler.Handle | internal/middleware/idempotency.go:19-53 | A hit answers with the stored body and touches nothing. A miss does what the charge handler does for the unchanged request, sends its reply, and stores it exactly if the charge committed. Without a key or for other methods the cache plays no part. The history of all requests goes on by the rules as long as the others keep them. |
| ChargeHandler.Undisturbed | internal/middleware/idempotency.go:19-53 | A request that no other disturbs meets the rules it asks of others. |
| ChargeHandler.ForeignLawful | internal/middleware/idempotency.go:19-53 | So does one disturbed by any acts of overlapping requests. |
| ChargeHandler.EndsByActs | internal/middleware/idempotency.go:46-51 | And its own end is made of acts that every other request allows. |

## Left out

- `UpdatePaymentStatus` (internal/repository/payment_repo.go:175-186) sets any status unchecked. It has no caller and is not a step of the model.
- `CreateTransactionRecord` (internal/repository/payment_repo.go:106-123), the charge without an outbox row, has no caller.
- Creating users, webhook delivery after the enqueue, disputes, audit records, keys and the subscription repository: single statements or lookups.
- JWT, hashing, JSON decoding and encoding, headers other than the status, tracing, logging and configuration. The encoded payment is a parameter.
- CreateRefundHandler adds to `ProcessRefund` only an empty-id check and status codes.
- `ProcessRefund`'s three-second timeout appears as a rollback at any point, not as a duration.
- Timestamps of rows other than an event's creation time; the retry count of outbox rows.
- Foreign code: asynq's own retries, the scheduling of the poller.
- Time zones and daylight saving: dates are UTC.
- Float exponents are unbounded in the model; the amounts of the program do not reach overflow or subnormal numbers. int64 of an out-of-range float is implementation-specific in Go and is a separate outcome here.
- `%.2f` is taken as correctly rounded.
- PrintsExactly: amounts up to 2^53 in size, up to which the amount itself is representable.
- ProrateAccurate: amounts are nonnegative, at most 2^45, and the change is an upgrade; downgrades are covered by DowngradeFree for all amounts.
- EvictionUnobservable: needs the two clock readings of one request to be at most 179.8 s + 1 ns apart; LagMatters shows that this is necessary. RateBound and RateLag likewise.
- ChargedOnce: needs replies stored before the next lookup of the key and a Redis that answers; EachWayDoubles shows what happens otherwise.
- Handle: events of other requests while its handler runs are given, with their positions among the ledger's statements, and are assumed to keep the rules it keeps itself.
- The lease plays no part in the charge-once theorem: two requests that looked up before either stored can hold it one after the other.
- The sliding window is modelled for one key; keys do not interact.
- Status codes 1xx, which do not end a response's header.
- Whether the Redis layers alone stop double charging under concurrency: the code does not decide it.
