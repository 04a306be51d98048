# A verified model of the turl link shortener

This project models the parts of turl in which something can go wrong quietly, and proves what
they are for:

* the distributed number allocator: clients that claim blocks of numbers from one versioned
  database row by optimistic locking and hand them out through a channel;
* the short-link service: a table with soft deletion and reaping, a shared cache, one local cache
  per proxy that ignores lifetimes, and the three calls Create, Retrieve and Delete with the
  janitor beside them;
* the base-58 codec of short codes, down to its lookup tables and 64-bit arithmetic;
* rate limiting: the token bucket kept in expiring Redis keys, exponential backoff and the
  combinator that takes the largest delay.

The theorem that ties them together is `LinkTheorems.CreatedCodesResolve`: in every run of any
number of nodes, with any interleaving, any evictions, deletions, reaping passes, crashes and
backend errors, a code that Create answered resolves to its own URL only, and only while the link
is live; while its row is not deleted, and if eight bytes can hold its expiry, exactly while it is
live.

## How it is built

The two concurrent parts are state machines (`Allocator`, `LinkService`). A run is any sequence of
events; an event that is not enabled changes nothing, so a theorem about all sequences is a theorem
about all interleavings. `LinkService` contains the allocator's machine, so the freshness of an ID is
derived and not assumed. The code itself is modelled beside the machines as classes over mutable
fields (`Tddl.TddlSequence`, `Service.Site`, `Cache.Proxy`, `Storage.Table`, `Base58.Tables`, the
limiters). The methods of `TddlSequence` give the exact state they bring about on any schedule of the
others' steps, and `Schedules.RoundsAreRun` shows that it is the end of a run. A `Site` carries a ghost
log, and its invariant says that its table and caches are what the machine has after that log; its
methods give, beside that, their exact answer and the exact contents they leave, told from the fields. So the theorems
about runs are theorems about the code.

| file | what it holds |
|---|---|
| `GoIntegers.dfy`, `Wrappers.dfy` | 64-bit integers and how they wrap; options and results |
| `Base58.dfy` | the codec, its order and its round trips, the tables |
| `Allocator.dfy`, `AllocatorTheorems.dfy` | the allocator as a protocol, its theorems |
| `Schedules.dfy`, `Tddl.dfy` | what the client's code brings about on a schedule, and what that means; the code |
| `Storage.dfy`, `Cache.dfy`, `CacheValue.dfy` | the table, the cache layers, the cached bytes |
| `LinkService.dfy`, `LinkInvariant.dfy`, `LinkTheorems.dfy` | the service as a protocol, its invariant, its theorems |
| `Retrieval.dfy`, `LinkLifetimes.dfy` | what a Retrieve answers, and how long a link resolves |
| `RepeatedCreation.dfy`, `DeletedLinks.dfy` | the limits of idempotence and of deletion |
| `Service.dfy` | the service's code |
| `Witnesses.dfy` | runs in which the service does not do what is promised |
| `TokenBucket.dfy`, `RateLimiters.dfy` | the token bucket, backoff and the largest-of combinator |

## Where the code does not do what is promised

For each of these there is a concrete input or run, and the exact condition under which the promise
is kept.

* **One URL, one code.** The repository's README promises that a URL always gets the same code. A
  URL whose row was reaped gets another one (`ReapedUrlGetsAnotherCode`). A repeated Create settles
  on the earlier code if and only if the row of that code is in the table and not deleted when
  Create looks (`RepeatedCreate`). A URL whose row is soft-deleted cannot be created at all
  (`SoftDeletedUrlIsBlocked`), and if its link never expires this stays so (`SoftDeletionStays`).
* **A deleted link is no longer resolvable.** It still may be: Delete clears the shared layer and its
  own side's local layer, under the spelling it was called with (`DeletedLinkResolves` is a run). A
  Retrieve of a deleted link resolves if and only if its proxy has something under the key, in its
  local layer or the shared one, and the expiry written there is not past (`DeletedStillResolves`).
* **Cached expiry.** The eight bytes in front of a cached URL cannot hold an expiry past 2^63 ns
  (the year 2262), so a link that is to live longer is answered as expired from the cache while the
  table has it live (`LongLifeLooksExpired`), and comes back to life when it is evicted
  (`LongLifeComesBack`). The cached answer is the table's if and only if the
  expiry is representable (`VerdictIsExact`, `CachedAnswerIsExact`). The error is one-sided: a
  cached link is never answered after its true expiry (`LiveVerdictIsTrue`).
* **Cache lifetimes below 10 ns.** The jitter is drawn from below a tenth of the lifetime, and the
  draw panics when that is not positive. Create gets there with the duplicate of a link that has
  expired and is not reaped yet (`ExpiredDuplicatePanics`), Retrieve with a link that is about to
  expire (`LateRetrievePanics`). A Create with a number panics if and only if `TooLate` holds of the
  table before the call (`Service.Site.Create`): the record it would publish, the one that has the
  URL or else its own, has less than 10 ns to go. A Retrieve panics if and only if it misses in the
  caches and the row it finds is live with less than 10 ns to go (`Service.Site.Retrieve`).
* **Close of the allocator.** The worker's refill loop does not look at the stop channel, so a
  refill that the stop signal meets never ends. A Close that arrives during one never returns
  (`CloseCanHang`), nor does one that arrives in the select, if a waiting receiver is served instead
  and uses the block up (`LateCloseCanHang`). The worker of a closed client can still return if and
  only if it is in its select or its update under way will succeed (`CloseReturns`); it may hang if
  and only if it is anywhere but returned or crashed (`CloseMayHang`); and while nobody receives from
  it, it is sure to return if and only if it has, or is in its select (`CloseIsSure`).
* **Backoff.** The overflow test compares with `>` against a constant that, as a float, is 2^63. A
  delay that doubles to exactly 2^63 passes it and is then converted out of range
  (`BackoffCanFail`). `BackoffClosedForm` has the closed form if and only if `Fits` holds: this does
  not happen, nor a negative delay below -2^63, nor zero times an infinite power; or the machine's
  conversion happens to make up for it.
* **Token script.** A bucket that fills in less than half a millisecond makes the script ask for an
  expiry of 0, which Redis refuses (`ScriptCanFail`; `ScriptFailsWhen`: if and only if
  2000 * capacity < rate). With one clock for callers and server the keys' expiry cannot be noticed.
  With two it can (`SkewIsObservable`): it changes a decision if and only if the keys are gone, the
  bucket they held cannot pay and a full one can (`ExpiryShowsWhen`); and a pair of clocks hides it
  from every bucket and demand if and only if the server's has not passed the lifetime since the
  last call, or the callers' has moved on by the time an empty bucket fills (`SkewTolerance`).

Where documents and code disagree, the code is followed: `docs/base58-design.md:15` gives 58^7 as
2216436115296, and it is 2207984167552 (`PowersOf58`).

## Assumptions

* The `sequence` column is a signed 64-bit integer, and the database refuses an update past it. The
  addition of the step in `renew` does not wrap around 2^64. A successful update also writes the new
  value back into the record it was called on, which is what `pkg/tddl/tddl_test.go:64-65` pins. An
  update or an insertion may be committed and still be reported as failed.
* Time is in integer nanoseconds, starts at 1970 and stays below 2^63 ns. URLs are compared byte by
  byte. Whether a URL is well-formed is a parameter of Create.
* A row of the table is keyed by its short ID, which is one of its two unique indexes; soft-deleted
  rows stay in both, and lookups do not see them.
* Backend errors, panics, cancelled requests and crashes are the event `Abandon` of the machine and
  the flags `up`, `readFails`, `reply` and `link` of the methods. Random jitter is a parameter.
* The two keys of the token bucket expire by the server's clock; the readings that callers pass are
  theirs, and may go back. Tokens are counted in thousandths, where the refill is exact.

## Model

| member | source | states |
|---|---|---|
| `AllocatorTheorems.NoNumberTwice` | pkg/tddl/tddl.go:155-232 | in no run, with any clients, steps, failures, stops and crashes, is a number delivered twice, within a client or across clients |
| `AllocatorTheorems.Conservation` | pkg/tddl/tddl.go:107-232 | in every reachable state a number in [start, row's column) is exactly one of delivered, pending and abandoned, and any other number is none |
| `AllocatorTheorems.PendingInOne` | pkg/tddl/tddl.go:185-186 | a number not yet handed out is in the current block of at most one client |
| `AllocatorTheorems.BlocksDisjoint` | pkg/tddl/tddl.go:168-186 | blocks ever claimed are pairwise disjoint |
| `AllocatorTheorems.BlocksCover` | pkg/tddl/tddl.go:107-186 | the first n blocks cover exactly the numbers from the start number to what the row held after n updates |
| `Allocator.SuccessMeansCurrent` | pkg/tddl/tddl.go:168-175 | an update that succeeds found the row exactly as it had been read, and raises the version |
| `AllocatorTheorems.FailureMeansProgress` | pkg/tddl/tddl.go:168-182 | an update loses on the version if and only if some client's update succeeded since the read |
| `AllocatorTheorems.UpdateEndsRefill` | pkg/tddl/tddl.go:172-186 | one successful update gives a non-empty block that starts at or above all the client had before, and ends the refill |
| `AllocatorTheorems.StreamFollowsBlocks` | pkg/tddl/tddl.go:215-232 | what a client delivers strictly increases and runs through its blocks in claiming order without a gap |
| `AllocatorTheorems.LoneClientHasNoGaps` | pkg/tddl/tddl.go:215-232 | a lone client delivers the start number and its successors without a gap if and only if it has delivered nothing past a block whose committed update was reported as failed |
| `AllocatorTheorems.OffersAreOwnAndFresh` | pkg/tddl/tddl.go:161-238 | whenever the stop comes, a worker offers only a number of a block its client claimed, and nobody was given it yet |
| `AllocatorTheorems.DeliveredFits` | pkg/tddl/tddl.go:44 | a delivered number fits the signed column |
| `Allocator.RunsKeepInv` | pkg/tddl/tddl.go:79-238 | every event keeps the invariant: the blocks tile the range, the version counts them, and each client's record of what it delivered and holds is its claim |
| `AllocatorTheorems.CloseReturns` | pkg/tddl/tddl.go:161-166 | the worker of a closed client can still return if and only if it is in its select or its update under way will succeed |
| `AllocatorTheorems.CloseCanHang` | pkg/tddl/tddl.go:224-238 | a run after which Close never returns: the stop arrives while the block is used up |
| `AllocatorTheorems.LateCloseCanHang` | pkg/tddl/tddl.go:220-238 | another: the stop arrives in the select, where the worker can return, but a receiver is served first |
| `AllocatorTheorems.CloseMayHang` | pkg/tddl/tddl.go:215-238 | the worker of a closed client may hang if and only if it has neither returned nor crashed |
| `AllocatorTheorems.CloseIsSure` | pkg/tddl/tddl.go:215-238 | without receivers and crashes the worker is sure to return, whatever the others do, if and only if it has returned or is in its select |
| `AllocatorTheorems.StuckForever` | pkg/tddl/tddl.go:224-227 | once a refill meets the stop, no further events get the worker out of its inner loop |
| `Tddl.TddlSequence.New` | pkg/tddl/tddl.go:79-105 | a step below 1 is refused before anything happens; otherwise the call fails exactly when the row's key was not to be had, and if nobody disturbs it the client ends up offering what the row held, or the start number, with a whole step ahead, and the ledger has gained exactly that block |
| `Tddl.TddlSequence.GetRowID` | pkg/tddl/tddl.go:107-128 | finds the row or creates it, with any steps of others in between; fails if the lookup does or the row cannot be created, and otherwise the row exists |
| `Tddl.TddlSequence.CreateRecord` | pkg/tddl/tddl.go:130-139 | succeeds if and only if there is no row, the start number fits and the reply arrives, and then the row is that number at version 1 |
| `Tddl.TddlSequence.Renew` | pkg/tddl/tddl.go:155-194 | the turns it has used and the turns that are left bring about what all of them bring about; it succeeds with a full block at or above the old one, and only if a turn wins; it ends without success and not stopped only if every turn's read or update failed, and then leaves the fields alone |
| `Tddl.TddlSequence.Worker` | pkg/tddl/tddl.go:215-232 | on any schedule of receivers, failures and steps of others it brings about exactly the specified state; what it sends ascends, was given to nobody before, and it returns only when stopped |
| `Tddl.TddlSequence.Refilled` | pkg/tddl/tddl.go:224-227 | the inner loop goes on turn after turn, stopped or not; it ends without a number to offer only if every turn was lost, and nothing is delivered meanwhile |
| `Schedules.RoundsAreRun` | pkg/tddl/tddl.go:215-232 | whatever the schedule, the state the worker brings about is the end of a run of the protocol |
| `Schedules.OpeningIsRun` | pkg/tddl/tddl.go:79-105 | whatever newSequence meets, the state it brings about is the end of a run of the protocol |
| `Schedules.OpeningClaims` | pkg/tddl/tddl.go:94-100 | an opening that nobody disturbs claims the block at what the row held, or at the start number of a new row, and offers its first number |
| `Schedules.LookupExactly` | pkg/tddl/tddl.go:107-139 | the lookup is over well if and only if it works and the row is there, or can be created; a new row is the start number at version 1 |
| `Schedules.TurnExactly` | pkg/tddl/tddl.go:161-186 | a turn that finds the client not stopped, reads, meets no update before its own, and is answered claims the block at what it read; any other leaves the client where it was |
| `Schedules.TurnsExactly` | pkg/tddl/tddl.go:161-183 | a renewal succeeds on its turns if and only if one of them wins after those before it |
| `Schedules.OneMoreTurn` | pkg/tddl/tddl.go:161-183 | turns follow each other until the client offers |
| `Schedules.RoundExactly` | pkg/tddl/tddl.go:220-230 | a round with a receiver sends exactly the offered number and offers again if and only if the block is not used up or a turn of the refill wins; one without returns if and only if it is stopped |
| `Schedules.OneMoreRound` | pkg/tddl/tddl.go:220-231 | rounds follow each other while the client offers |
| `Tddl.NewlyDelivered` | pkg/tddl/tddl.go:197-213 | what a client was given in a run is new to everybody |
| `Base58.DecodeOfEncode` | pkg/mapping/base58.go:65-98 | decoding undoes encoding below 58^8 and reports an overflow for every number from there on |
| `Base58.DecodesExactly` | pkg/mapping/base58.go:78-98 | a code decodes if and only if it has at most eight bytes, all of them letters; it is an overflow if and only if it is longer, and an invalid character otherwise |
| `Base58.EncodeOfDecode` | pkg/mapping/base58.go:65-98 | every code of at most eight letters decodes, and encoding it again gives the code without its leading zero digits |
| `Base58.DecodeAlike` | pkg/mapping/base58.go:78-98 | two codes of at most eight letters decode alike if and only if they differ in leading zero digits only |
| `Base58.StrippedAreOnes` | pkg/mapping/base58.go:23 | what is stripped from a code are all its leading '1's and nothing else |
| `Base58.EncodeLength` | pkg/mapping/base58.go:65-75 | a code has k characters if and only if 58^(k-1) <= n < 58^k; 0 has none |
| `Base58.EncodeOrder` | pkg/mapping/base58.go:65-75 | numeric order is shortlex order of the codes by alphabet position, in both directions |
| `Base58.RedirectWindow` | app/turl/handler.go:96-97 | the numbers whose codes the redirect handler accepts are exactly those in [58^5, 58^8), and all of them decode |
| `Base58.PowIsWrappedPower` | pkg/mapping/base58.go:106-116 | recursive squaring in 64-bit arithmetic is the power up to wrap-around, for every base and exponent |
| `Base58.PowTableExact` | pkg/mapping/base58.go:59-61 | no entry of the power table overflows |
| `Base58.PowersOf58` | pkg/mapping/base58.go:66 | the values of 58^5, 58^7 and 58^8 |
| `Base58.PartialSum` | pkg/mapping/base58.go:86-95 | a turn of the table-driven loop is a Horner step, and neither its term nor its sum reaches 58^8 |
| `Base58.Alphabet` | pkg/mapping/base58.go:23 | the 58 letters in order |
| `Base58.IndexOfChar` | pkg/mapping/base58.go:55-57 | the index table inverts the alphabet |
| `Base58.IndexOf` | pkg/mapping/base58.go:51-57 | -1 exactly for the bytes that are not in the alphabet |
| `Base58.Tables.constructor` | pkg/mapping/base58.go:50-62 | fills the two tables with the positions and the true powers |
| `Base58.Tables.Base58Decode` | pkg/mapping/base58.go:78-98 | the table-driven sum is the Horner value, with both error cases, and no 64-bit overflow on the way |
| `Base58.Base58Encode` | pkg/mapping/base58.go:65-75 | dividing, appending and reversing gives the code that divides from the front |
| `Base58.Reverse` | pkg/mapping/base58.go:100-104 | reverses in place |
| `LinkTheorems.CreatedCodesResolve` | app/turl/service.go:177-362 | end to end: a code that Create answered resolves, in any later world and through any caches, to its own URL only and only while live; if not deleted and its expiry is representable, exactly while live; a code of more than eight characters is answered as invalid |
| `LinkLifetimes.LinksLiveTheirTime` | app/turl/service.go:189-195 | a link created at some time with a lifetime resolves at no time from their sum on, and, if not deleted and representable, at every time before; one without a lifetime never ends |
| `Retrieval.AnswerFromCache` | app/turl/service.go:342-362 | a Retrieve that finds something cached answers its URL if the expiry written there is not over, and "expired" otherwise |
| `Retrieval.AnswerFromRow` | app/turl/service.go:319-336 | a Retrieve that finds nothing cached answers the URL of a row that is there, not deleted and not over, and tells the other two cases apart |
| `LinkTheorems.CacheRefinement` | app/turl/service.go:299-362 | an answer of Retrieve is what a look in the table says at that moment; for a soft-deleted row it may also be that row's own, still unexpired URL |
| `LinkTheorems.ResolvesOwnLiveLinkOnly` | app/turl/service.go:299-362 | no Retrieve of any run answers another link's URL, or a URL at or after its expiry |
| `LinkTheorems.CachesHoldFirstLinks` | app/turl/service.go:213-222 | in every layer, at every time, a decodable key holds the link its ID was first inserted with, and no later event changes what that was |
| `LinkTheorems.ExpiryIsFinal` | app/turl/service.go:325-362 | once a code is answered as expired, from the table or with a representable expiry, no later Retrieve of its ID by any spelling resolves |
| `LinkTheorems.LiveVerdictIsTrue` | app/turl/service.go:405-455 | a cached link is never judged live at or after its true expiry, however far that is |
| `LinkTheorems.VerdictIsExact` | app/turl/service.go:405-455 | the judgement on a cached link is the table's if and only if eight bytes can hold the expiry |
| `LinkTheorems.CachedAnswerIsExact` | app/turl/service.go:342-362 | in every reachable world the answer to a hit on a link in the table is the table's if and only if the expiry is representable |
| `LinkTheorems.LongLifeLooksExpired` | app/turl/service.go:405-435 | a link created in 2024 for 250 years is judged expired as soon as it is cached |
| `Witnesses.LongLifeComesBack` | app/turl/service.go:299-362 | a run in which that link is answered as expired, and resolves once the caches have evicted it |
| `DeletedLinks.DeletedStillResolves` | app/turl/service.go:257-362 | the answer of a Retrieve of a deleted link: its own URL if and only if the proxy has something under the key and the expiry written there is not past |
| `Witnesses.DeletedLinkResolves` | app/turl/service.go:257-269 | a run in which a Delete is over and the other side still resolves the link |
| `LinkTheorems.DuplicateMeansUrlTaken` | pkg/storage/storage.go:37-38 | in every run an insertion is refused if and only if the URL is in the table, live or soft-deleted; short IDs never clash |
| `LinkTheorems.CreateIsIdempotent` | app/turl/service.go:185-231 | over any interleaving, as long as no row of a URL is deleted or reaped, all Creates of it answer the same code |
| `RepeatedCreation.RepeatedCreate` | app/turl/service.go:197-211 | with any events between its insertion and its lookup, a repeated Create settles on the earlier code if and only if that code's row is in the table and not deleted when it looks |
| `Witnesses.ReapedUrlGetsAnotherCode` | app/turl/service.go:185-211 | for every URL, a run in which it gets two codes |
| `Witnesses.ExpiredDuplicatePanics` | app/turl/service.go:197-222 | for every URL, a run in which its Create finds the expired record and panics, and the table before it satisfies `TooLate` |
| `Witnesses.PanicIsCertain` | pkg/cache/redis_remote_cache.go:36-40 | a call with less than 10 ns to put a link settles no answer and publishes nothing |
| `Witnesses.LateRetrievePanics` | app/turl/service.go:319-334 | a Retrieve 5 ns before the expiry panics |
| `LinkTheorems.SoftDeletedUrlIsBlocked` | app/turl/service.go:197-206 | Create of a URL whose row is soft-deleted is refused by the index, and the lookup finds nothing |
| `LinkTheorems.SoftDeletionStays` | pkg/storage/storage.go:124-132 | the soft-deleted row of a link without expiry stays for ever |
| `LinkInvariant.ApplyKeepsInv` | app/turl/service.go:177-362 | every step of every call, reaping, eviction and crash keeps the invariant: keys hold the value of the link their ID is bound to, bound IDs were delivered by the allocator, and only expiry takes a row away |
| `LinkInvariant.BindingsStayForever` | app/turl/service.go:197-211 | no event changes or removes what an ID was first inserted with, and the clock does not go back |
| `LinkInvariant.InsertingIsFresh` | app/turl/service.go:185-197 | the number of a Create in progress is in no row and was never inserted |
| `Service.AnswersAreRight` | app/turl/service.go:299-362 | every answer a Retrieve can settle in a reachable world is the ID's own live link or nothing, and refines the table |
| `Service.Site.Retrieve` | app/turl/service.go:299-337 | every way through: an invalid code, a value of the local layer, a backend error if and only if the key is not there and the shared layer is down, a value of the shared layer, and the table with its three answers and the panic; an answer is the machine's answer to that Retrieve and right, and a row that was read is then in both layers |
| `Service.EntryLives` | pkg/cache/redis_remote_cache.go:36-40 | an entry ends in the tenth of its lifetime that follows it, at the drawn jitter |
| `Service.Site.FromCache` | app/turl/service.go:342-362 | a live hit and an expired hit are right answers, a malformed value counts as a miss, and the local layer gains what the shared one had |
| `Service.Site.Create` | app/turl/service.go:177-231 | the table gets the row, with the expiry now + ttl or none, if and only if it does not have the URL; the call is not found if and only if the URL's row was soft-deleted, and panics if and only if the record to publish had less than 10 ns to go; else the code and expiry answered are those of the URL's row, and exactly that record is put under the code in both layers, or nothing if the shared layer is down |
| `Service.Site.Delete` | app/turl/service.go:257-269 | is a run of the protocol; marks the row, clears the key in the shared and this side's local layer, and says of each of the four ways it can end exactly when |
| `Service.Site.RunJanitor` | app/turl/service.go:234-255 | over any ticks only expired rows disappear, a batch a tick at most; and a batch for every tick that reaches the table, or else all that had expired by the first tick |
| `Service.Site.Reaped` | app/turl/service.go:242-247 | a tick removes the smaller of the batch size and the number of expired rows, and after a batch that is not full none is left |
| `CacheValue.RoundTrip` | app/turl/service.go:405-435 | decoding undoes encoding if and only if the expiry is absent, or not 0 and within the signed 64-bit range |
| `CacheValue.DecodeOfEncode` | app/turl/service.go:405-435 | what the eight bytes make of any expiry |
| `CacheValue.LayoutOfValue` | app/turl/service.go:405-416 | eight bytes, 0 when there is no expiry, and then the URL |
| `CacheValue.MostSignificantFirst` | app/turl/service.go:412 | the most significant byte comes first |
| `CacheValue.TtlIsLesser` | app/turl/service.go:440-450 | a lifetime is the lesser of the configured one and of what the link has left |
| `CacheValue.NumberOfBigEndian` | app/turl/service.go:412 | the big-endian bytes of a number that fits give it back |
| `CacheValue.EncodeCacheValue` | app/turl/service.go:405-416 | the filled buffer is the eight big-endian bytes of the wrapped expiry and the URL |
| `Cache.DeletedKeyMisses` | pkg/cache/proxy.go:81-91 | whatever Gets run between the halves of a deletion and after it, the key misses in that proxy until it is set again |
| `Cache.SetIsFound` | pkg/cache/redis_remote_cache.go:36-50 | what is set is found through every proxy without the key, and copied if it is not empty, until exactly the end of its lifetime and jitter |
| `Cache.OtherOrderLeaks` | pkg/cache/proxy.go:56-91 | with the halves in the other order, one Get in between keeps the deleted value in the local layer |
| `Cache.Proxy.Set` | pkg/cache/proxy.go:44-54 | writes the shared layer with the jittered lifetime, then the local one; what comes after a failing layer is not written |
| `Cache.Proxy.Get` | pkg/cache/proxy.go:56-79 | local value, else shared value with a local copy of it if it is not empty, else a miss or the backend's error; a local layer that cannot be read is an error, one that cannot be written is not |
| `Cache.Proxy.Del` | pkg/cache/proxy.go:81-91 | removes the key from the shared layer, then from the local one; what comes after a failing layer is not touched |
| `Cache.Redis.Set` | pkg/cache/redis_remote_cache.go:36-40 | the entry lives for its lifetime and a jitter, and the lifetime has to be at least 10 ns |
| `Storage.Table.Insert` | pkg/storage/storage.go:66-79 | refused if and only if the ID or the URL is in an index, soft-deleted rows included; keeps URLs unique |
| `Storage.Table.GetByShortID` | pkg/storage/storage.go:82-92 | the row, if it is there and not soft-deleted |
| `Storage.Table.GetByLongURL` | pkg/storage/storage.go:95-105 | the only row with the URL that is not soft-deleted, if there is one |
| `Storage.Table.Delete` | pkg/storage/storage.go:108-120 | marks the row, or reports that there is none to see |
| `Storage.Table.DeleteExpired` | pkg/storage/storage.go:124-132 | removes expired rows only, as many as the limit allows, soft-deleted ones included |
| `Storage.ReapingIsSafe` | app/turl/service.go:452-455 | a reaped row is expired at the time of the pass and for ever after, and no live row is reaped |
| `Storage.ReapsExactly` | pkg/storage/storage.go:122-132 | a pass takes rows past their expiry only, at most as many as the limit, and if fewer then all of them, soft-deleted or not |
| `Storage.ExpiredFromExpiryOn` | app/turl/service.go:452-455 | a link is expired from the very time of its expiry on, and one without expiry never |
| `Storage.PassesCount` | pkg/storage/storage.go:124-132 | passes at one time leave exactly the count of expired rows less a full batch each |
| `Storage.PassesDrain` | app/turl/service.go:242-247 | passes at one time empty the set of expired rows if and only if limit times passes reaches its size |
| `TokenBucket.AdmissionBound` | pkg/workqueue/token_script.go:23-48 | over any clock readings, even backward ones, what is granted is at most the capacity and the refill of the forward moves, and the stored count stays between nothing and full |
| `TokenBucket.AdmissionFrom` | pkg/workqueue/token_script.go:30-48 | the same from any stored count, with what is left counted in |
| `TokenBucket.AdmissionIsExact` | pkg/workqueue/token_script.go:30-48 | for runs that never fill the bucket beyond its capacity the account is exact: granted and left is stored and refilled |
| `TokenBucket.AllowsExactly` | pkg/workqueue/token_script.go:37-45 | a call is admitted if and only if the stored tokens and the refill since pay for it and the capacity holds so much |
| `TokenBucket.FirstCallExactly` | pkg/workqueue/token_script.go:24-34 | without keys a call is admitted if and only if the capacity holds so much |
| `TokenBucket.DenialIsHarmless` | pkg/workqueue/token_script.go:37-48 | a denied call changes no later decision if the readings do not go back around it |
| `TokenBucket.ScriptExactly` | pkg/workqueue/token_script.go:10-50 | one run over what is in the keys: the decision, and both keys with their new values and lifetime |
| `TokenBucket.WaitingSuffices` | pkg/workqueue/token_script.go:38-45 | a caller that has waited for the refill of its tokens is admitted |
| `TokenBucket.ExpiryIsUnobservable` | pkg/workqueue/token_script.go:19-48 | with one clock, the script decides every call as if its keys never expired |
| `TokenBucket.SkewIsHarmless` | pkg/workqueue/token_script.go:19-48 | with two clocks, the same for any calls between which the server's moves at most the lifetime, or the callers' moves on by the time an empty bucket fills |
| `TokenBucket.ExpiryShowsWhen` | pkg/workqueue/token_script.go:38-48 | expiry changes a decision if and only if the keys are gone, the bucket they held cannot pay and a full one can |
| `TokenBucket.SkewTolerance` | pkg/workqueue/token_script.go:19-48 | two clocks hide the expiry from every bucket and demand if and only if the keys are still there or an empty bucket would have filled by the callers' clock |
| `TokenBucket.TtlFills` | pkg/workqueue/token_script.go:19-22 | in the rounded-down lifetime of the keys an empty bucket fills |
| `TokenBucket.TtlIsFloor` | pkg/workqueue/token_script.go:19-22 | the lifetime is twice the time to fill, in whole milliseconds |
| `TokenBucket.IdleBucketIsFull` | pkg/workqueue/token_script.go:19-39 | a bucket left alone for the rounded-down lifetime of its keys is full |
| `TokenBucket.SkewIsObservable` | pkg/workqueue/token_script.go:38-48 | a caller's clock that stands still while the server's runs: the second call is granted with expiry and denied without |
| `TokenBucket.ScriptFailsWhen` | pkg/workqueue/token_script.go:19-48 | the script fails if and only if 2000 * capacity < rate |
| `TokenBucket.ScriptCanFail` | pkg/workqueue/token_script.go:19-48 | a rate of 10000 and a capacity of 4 make the script fail |
| `TokenBucket.RedisLimiter.AllowN` | pkg/workqueue/token_script.go:5-51 | one atomic step on the two keys: the decision and both new values with their lifetime, or nothing when it fails |
| `TokenBucket.RedisLimiter.ReserveN` | pkg/workqueue/rate_limiters.go:325-357 | the in-process verdict when Redis is down or the script fails, a denial on a timeout with the keys as the script left them, else the script's decision |
| `RateLimiters.BackoffClosedForm` | pkg/workqueue/rate_limiters.go:107-126 | for every base and cap, the delay is min(base * 2^j, max) if and only if it fits: no conversion out of range, or one that the machine makes up for |
| `RateLimiters.BackoffCanFail` | pkg/workqueue/rate_limiters.go:115-125 | a base of 1 ns doubled 63 times gives the least integer on a machine that converts so |
| `RateLimiters.CounterClosedForm` | pkg/workqueue/rate_limiters.go:107-142 | after any history an item's counter is the number of Whens on it since its last Forget, and it is tracked if and only if that is not 0 |
| `RateLimiters.ItemsAreIndependent` | pkg/workqueue/rate_limiters.go:107-142 | calls on other items do not matter to an item |
| `RateLimiters.DelaysNeverFall` | pkg/workqueue/rate_limiters.go:107-188 | delays of an item never fall between two Forgets of it, for a base that is not negative, or a slow delay that is not below the fast one |
| `RateLimiters.FastSlowNeverFalls` | pkg/workqueue/rate_limiters.go:177-188 | fast and slow delays never fall if and only if the slow one is not below the fast one, or no attempt is fast |
| `RateLimiters.FastAttempts` | pkg/workqueue/rate_limiters.go:177-188 | of the attempts since the last Forget exactly the first `maxFast` are fast |
| `RateLimiters.Limiter.When` | pkg/workqueue/rate_limiters.go:107-188 | gives the delay for the Whens since the last Forget and counts one more |
| `RateLimiters.Limiter.Take` | pkg/workqueue/rate_limiters.go:97-104 | lets an item run if and only if it has no When since its last Forget |
| `RateLimiters.Limiter.Retries` | pkg/workqueue/rate_limiters.go:129-134 | the number of Whens since the last Forget |
| `RateLimiters.Limiter.Forget` | pkg/workqueue/rate_limiters.go:137-142 | the item's count is 0 again and the others' are as they were |
| `RateLimiters.MaxOf.When` | pkg/workqueue/rate_limiters.go:232-243 | the largest of the delays the children give in turn, and every child's count of the item goes up by one for each time the child is listed |
| `RateLimiters.UsedOnce` | pkg/workqueue/rate_limiters.go:232-243 | in a list without repetitions every child is called exactly once |
| `RateLimiters.MaxOf.Take` | pkg/workqueue/rate_limiters.go:221-229 | lets an item run if and only if every child does |
| `RateLimiters.MaxOf.Retries` | pkg/workqueue/rate_limiters.go:246-257 | the largest of the children's counts |
| `RateLimiters.MaxOf.Forget` | pkg/workqueue/rate_limiters.go:260-264 | every child drops the item and nothing else |
| `RateLimiters.LargestIsMaximum` | pkg/workqueue/rate_limiters.go:232-243 | what the loop over the children computes is an upper bound that one of them, or 0, reaches |

## Left out

- Tddl.TddlSequence.Renew: the code retries for ever while updates fail; the schedule handed in is finite, and running out of it is neither success nor stop. The backoff sleep between retries is left out.
- LinkTheorems.CacheRefinement: asks for an expiry that eight bytes can hold; `CachedAnswerIsExact` shows that without it the answer from a cache is another one.
- LinkTheorems.CreatedCodesResolve: the exact half asks for an expiry that eight bytes can hold, as `CacheRefinement` does.
- LinkTheorems.ExpiryIsFinal: an answer from a cache asks for an expiry that eight bytes can hold; `LongLifeComesBack` shows that without it the link can come back.
- LinkTheorems.CreateIsIdempotent: speaks of runs in which no row of the URL is taken away; `RepeatedCreate` has the exact condition for one Create.
- Service.Site.Retrieve: one clock reading for the whole call, and nothing of others within it; the machine in `LinkService` cuts the call at its accesses and lets everything interleave. The same holds for Create, Delete and a janitor's tick.
- Service.Site.Create: a failing table is left out of the method; in the machine it is the event `Abandon`.
- Cache.Proxy.Get: is atomic; the window between its read of the shared layer and its local fill, in which a deletion can slip, is not modelled.
- Service.Site.FromCache: the local layer of a site does not fail, nor in its other methods; in the machine a failing local write is `PutFails`, `Abandon` or an eviction.
- Cache.Redis.Set: Redis takes whole seconds here and so rounds the lifetime; the model keeps nanoseconds. Correctness of answers does not rest on it.
- Storage.Table.DeleteExpired: which of the expired rows a full batch takes is left open by the database; the machine allows any choice, and fewer rows, the method takes some.
- RateLimiters.BackoffClosedForm: floats are exact integers; bases above 2^53 ns, some hundred days, would be rounded.
- RateLimiters.DelaysNeverFall: a negative base is left out, whose delays do fall.
- RateLimiters.MaxOf.When: the children are not themselves combinators, and not limiters of other kinds.
- TokenBucket.RedisLimiter.ReserveN: the verdict of the in-process limiter is a parameter, and the switch between Redis and it (`waitForRedis`) is left out. So is the limiter's When, which gives 0 or the maximal delay by that verdict.
- Sub-millisecond rounding of stored times, collations, and the 500-character limit on URLs and names (an overlong URL is an insertion that fails).
- A `TddlSequence` and a `Site` are not joined into one program: a site is handed its numbers, and `Service.Site.Others` lets the machine's allocator move.
- The clocks of several nodes: the service's machine has one.
- A second call of Close, which panics, and the health checks.
- GetByLong of the query service: a lookup in the table and an encoding.
- `BucketRateLimiter`, which wraps a library.
- HTTP routing, binding, validation, configuration, logging, tracing, metrics and the command line.
