# dumbproxy: verified models

Dafny models of the parts of the dumbproxy forward proxy where state, time and concurrency meet,
and proofs of what those parts promise over whole runs. `dafny verify dfyconfig.toml` checks
everything.

| Part | Files | What is modelled |
|---|---|---|
| Token-bucket limiter | `Rate*.dfy` | A class whose methods update the limiter's fields, functions on buckets that specify them, and theorems over runs of calls, cancels and parameter changes |
| Bandwidth-limited copying | `Copier.dfy`, `SharedCopier.dfy`, `SharedExample.dfy` | The chunk copier's loop on a limiter of its own, and any number of copiers on one limiter |
| Limiter cache | `LimiterCache.dfy`, `LimiterEviction.dfy` | The cache of limiters as a state machine, compared with one that never drops anything |
| HTTP/2 connection pool | `Pool*.dfy` | The two-way index and its in-place filter; callers and the dials they share as a protocol, its safety and its progress |
| Certificate blacklist | `CertSerial.dfy`, `WhiteSpace.dfy` | The in-place formatter, the hand-indexed parser, and the set of serial numbers |
| CONNECT through a proxy | `ConnectGuard.dfy`, `ProxyResponse.dfy`, `PrologueWriters.dfy` | The goroutine that guards the handshake, the byte-wise read of the response head, and the two connections that put a prologue before the first write |
| Name lookups | `FastResolver.dfy`, `NameCache.dfy` | The first-success fan-out, and the cache with coalesced lookups |
| Proxy manager | `ProxyManager.dfy`, `ProxyRuns.dfy` | Database rows and running instances under upsert, delete, start, stop and reset, and what holds over whole runs |

Text is a string of one-byte characters (`Text.dfy`); `Wrappers.dfy` has the option type.

## How the models are built

Times are whole nanoseconds (`int`), tokens and rates are exact (`real`), and converting tokens to
a duration drops the fraction of a nanosecond, as the program does. The unlimited rate `Inf` is a
case of its own.

Code that updates state step by step is a method with loops and fields, and its contract equates
the new state with a function of the old one; the theorems are about those functions. Code whose
point is its interleaving (pool, guard, fan-out, caches) is a state machine with one step for each
region under a lock, each channel operation and each end of an I/O call. Everything outside (clocks,
the network, the database, upstream services, the scheduler) is chosen freely by the steps, so a
theorem over all runs is one over all interleavings and all failures. A `trace` lists the states of
a run and `steps` what happened between them.

## Where the code falls short of its documentation

`CancelAt` is documented to reverse a reservation "as much as possible". The models follow the code,
and these are theorems about it:

- Out of order, a cancel can give back more than was reserved:
  `RateCancel.OutOfOrderCancelRestoresTooMuch`. `RateCancel.CancelGain` says exactly when a cancel
  does, and `RateHistory.NewestFirstRestoresItsOwn` that it never happens newest first.
- Newest first, cancels made at the very time of the reservations can give back too little, because
  `lastEvent` is set back only from the reservation's own time and not to before the present:
  `RateUnwind.RoundingLosesTokens` and `RateUnwind.DebtFreeReservationLosesTokens`.
  `RateUnwind.CancelLeavesNoTraceExactly` says exactly when a cancel leaves no trace, and
  `RateUnwind.RunsUndoExactly` that a run leaves none exactly when all its cancels are like that.
- The dropped fraction of a nanosecond lets more through than burst and rate allow:
  `RateBounds.SlackIsNeeded`. `RateBounds.GrantsAreBounded` shows that it is never more than one
  nanosecond's worth, `RateExact.ExactWait` says exactly when one wait drops nothing, and
  `RateExact.SlackIsNeededExactly` that the nanosecond is never needed exactly at rates where every
  token is worth a whole number of nanoseconds.
- Copiers that share a limiter can write more than one alone could:
  `SharedExample.SharingLetsMoreThrough`. A short turn settles at the time it began, which sets the
  limiter's clock back. `SharedCopier.SettlementMakesNoneExactly` says exactly when that makes tokens,
  `SharedCopier.SharingMakesNoneExactly` the same for whole runs, and
  `SharedCopier.SharedWrittenIsBounded` bounds any number of copiers by charging the tokens made.

An automatic reset does not hold the manager's lock between its database write and the change of the
instance. `ProxyRuns.SplitResetDisagrees` is a run in which an upsert comes in between and the row
and the instance end up apart. `ProxyRuns.RedirectAgreesExactly` says exactly when the
redirect of one reset leaves them in agreement, `ProxyRuns.SplitResetsAgreeExactly` that they agree
all through a run exactly when every redirect is like that, and `ProxyRuns.AtomicRunsAgree` that
without split resets they always agree.

`CertSerial.FormatSerial` has no text for the number zero, where the program panics. The blacklist
ignores the sign of a serial number.

## Model

| member | source | states |
|---|---|---|
| Rate.Limiter.constructor | pkg/dumbproxy/rate/rate.go:100-106 | a new limiter is full and has no events |
| Rate.Limiter.TokensAt | pkg/dumbproxy/rate/rate.go:86-91 | reads without changing; never above the burst, and with a finite rate never fewer at a later time than at the last update |
| Rate.Limiter.ReserveWithin | pkg/dumbproxy/rate/rate.go:337-381 | the whole new state and the reservation for every rate, amount and longest wait; a refusal changes nothing |
| Rate.Limiter.AllowN | pkg/dumbproxy/rate/rate.go:116-118 | takes the tokens exactly when a reservation with no wait would be granted |
| Rate.Limiter.ReserveN | pkg/dumbproxy/rate/rate.go:227-230 | reserves with the longest wait there is |
| Rate.Limiter.CancelAt | pkg/dumbproxy/rate/rate.go:169-204 | the whole new state for live, late, empty, refused and unlimited reservations |
| Rate.Limiter.SetLimitAt | pkg/dumbproxy/rate/rate.go:306-315 | brings the bucket up to date at the old rate before the new one counts |
| Rate.Limiter.SetBurstAt | pkg/dumbproxy/rate/rate.go:323-332 | brings the bucket up to date under the old burst before the new one counts |
| Rate.DelayFrom | pkg/dumbproxy/rate/rate.go:150-159 | waiting out the delay of a granted reservation reaches its time to act, and a delay above zero reaches it exactly; a refused one has the longest delay |
| RateArithmetic.DurationBrackets | pkg/dumbproxy/rate/rate.go:405-428 | the duration for some tokens refills no more than them, and one nanosecond longer refills more, unless it is cut off at the longest duration |
| RateArithmetic.WaitBrackets | pkg/dumbproxy/rate/rate.go:349-359 | a wait covers the debt to within one nanosecond and is zero without debt |
| RateArithmetic.AdvanceComposes | pkg/dumbproxy/rate/rate.go:387-401 | refilling in two steps is refilling in one, although each is cut off at the burst |
| RateCalls.GrantedExactly | pkg/dumbproxy/rate/rate.go:350-378 | a request is granted exactly when it fits the burst and what is missing refills within the longest wait |
| RateCalls.GrantedWithoutRefill | pkg/dumbproxy/rate/rate.go:350-378 | at a rate of zero or less it is granted exactly when the tokens are there or any wait will do |
| RateCalls.RequestTakes | pkg/dumbproxy/rate/rate.go:350-381 | a granted request takes its tokens and may act as soon as they are there, to the nanosecond; a refused one changes nothing |
| RateCalls.UnlimitedGrantsAtOnce | pkg/dumbproxy/rate/rate.go:341-348 | at the infinite rate every request is granted, may act at once and takes nothing, and the bucket is full as soon as time passes |
| RateCalls.Refills | pkg/dumbproxy/rate/rate.go:387-401 | the level grows at the rate up to the burst, and stays when the clock goes back |
| RateCalls.CancelGivesBack | pkg/dumbproxy/rate/rate.go:169-204 | a cancel that is not late gives back what was reserved less what its rate makes of the time reserved after it, as far as there is room, and sets the clock to its own time; every other leaves the bucket as it is |
| RateCalls.NewLimitIsNotRetroactive | pkg/dumbproxy/rate/rate.go:306-315 | a new limit refills from the level the old one had reached, and only from then on |
| RateCalls.NewBurstIsNotRetroactive | pkg/dumbproxy/rate/rate.go:323-332 | a new burst cuts off from then on, and does not give back what the old one cut off |
| RateBounds.GrantsAreBounded | pkg/dumbproxy/rate/rate.go:337-428 | for any two granted calls of a run with a forward clock, refused calls among them or not: the times to act are in order, and the tokens granted from one to the other are at most the burst plus the refill between those times and one nanosecond |
| RateBounds.SlackIsNeeded | pkg/dumbproxy/rate/rate.go:405-418 | without that nanosecond the bound is false |
| RateExact.ExactWait | pkg/dumbproxy/rate/rate.go:405-418 | a wait pays the debt off to the last token exactly when the debt is worth a whole number of nanoseconds |
| RateExact.ExactGrantsAreBounded | pkg/dumbproxy/rate/rate.go:337-428 | the bound holds without the nanosecond whenever the last grant's wait is exact |
| RateExact.SlackIsNeededExactly | pkg/dumbproxy/rate/rate.go:337-428 | from any bucket the bound holds without the nanosecond for all runs exactly when every token is worth a whole number of nanoseconds |
| RateBounds.AllowedIsBounded | pkg/dumbproxy/rate/rate.go:116-118 | without waiting and under any clock, also one that jumps back, a run grants at most the burst plus the refill of the clock's forward moves between granted calls and one nanosecond; at a rate of zero or less at most the burst |
| RateBounds.NothingBeforeFirstGrant | pkg/dumbproxy/rate/rate.go:362-378 | refused calls leave the bucket as it was |
| RateCancel.CancelUndoesReserve | pkg/dumbproxy/rate/rate.go:169-204 | a reservation cancelled with nothing in between leaves no trace at any later time exactly when it took nothing, the cancel is not late, or the bucket is full again anyway |
| RateCancel.CancelUndoesUnlimited | pkg/dumbproxy/rate/rate.go:341-348 | at the unlimited rate every request is granted, and request and cancel change nothing |
| RateCancel.CancelGain | pkg/dumbproxy/rate/rate.go:169-204 | a cancel never takes tokens, and gives back more than was reserved exactly when the reservation was granted for some tokens at a positive rate, the cancel is not late, `lastEvent` has fallen behind the reservation and there is room, whatever rate and burst were set since |
| RateCancel.OutOfOrderCancelRestoresTooMuch | pkg/dumbproxy/rate/rate.go:181-194 | a run in which cancelling one token restores four |
| RateHistory.NewestFirstIsSafe | pkg/dumbproxy/rate/rate.go:169-204 | in every run that cancels newest first, `lastEvent` is at or after every live reservation's time, and the bucket never holds more than in the run with the cancelled reservations and the refused calls erased |
| RateHistory.RefusedCallsCouldBeGranted | pkg/dumbproxy/rate/rate.go:361-378 | with the refused calls kept that is false: without the cancelled reservation they might be granted |
| RateHistory.NewestFirstRestoresItsOwn | pkg/dumbproxy/rate/rate.go:181-194 | in every such run a cancel gives back at least nothing and at most what was reserved |
| RateHistory.ErasedIsAhead | pkg/dumbproxy/rate/rate.go:337-381 | the calls that were granted with the cancelled reservations in between are granted without them too |
| RateUnwind.CancelSetsEventBack | pkg/dumbproxy/rate/rate.go:195-203 | cancelling while the reservation before is still waiting sets `lastEvent` to that one's time or one nanosecond later, and to the very time if the amount is worth a whole number of nanoseconds |
| RateUnwind.CancelMovesOwnEvent | pkg/dumbproxy/rate/rate.go:195-203 | whatever the limit is by then, a cancel moves `lastEvent` exactly if it is the reservation's own time, by what its tokens were worth at the rate they were reserved at, and not to before the present |
| RateUnwind.CancelIsWhole | pkg/dumbproxy/rate/rate.go:169-204 | a cancel of the newest reservation gives all of it back exactly when it took nothing, or the cancel is not late, finds `lastEvent` at the reservation's own time, and there is room |
| RateUnwind.CancelLeavesNoTraceExactly | pkg/dumbproxy/rate/rate.go:169-204 | a cancel of the newest reservation brings the bucket to the level without it exactly when it took nothing, the bucket is full again, or the cancel is not late and gives back all of it or enough to fill the bucket |
| RateUnwind.RunsUndoExactly | pkg/dumbproxy/rate/rate.go:169-204 | all through a run the bucket is what it would be without the cancelled reservations exactly when every cancel is like that |
| RateUnwind.NoTraceLater | pkg/dumbproxy/rate/rate.go:169-204 | and then also at all later times |
| RateUnwind.RoundingLosesTokens | pkg/dumbproxy/rate/rate.go:195-203 | three reservations cancelled newest first, at once, lose a token to one nanosecond of rounding |
| RateUnwind.DebtFreeReservationLosesTokens | pkg/dumbproxy/rate/rate.go:195-203 | two reservations cancelled newest first, at once, lose tokens when the first did not have to wait |
| RateChanges.ChangesMakeNoTokens | pkg/dumbproxy/rate/rate.go:306-332 | whatever rates, infinite ones too, and bursts are set during a run, tokens granted at finite rates and tokens left come from the start and the refill, each stretch of time at the limit then in force |
| RateChanges.AllowedThroughChanges | pkg/dumbproxy/rate/rate.go:306-332 | calls that do not wait stay within that, to within one nanosecond, through all changes |
| RateRewinds.RewindsMakeAllExcess | pkg/dumbproxy/rate/rate.go:169-204 | for reservations and cancels in any order and at any times, tokens charged and left are at most those at the start plus the refill of the time gone by and of the time rewound |
| RateRewinds.ChargedIsBounded | pkg/dumbproxy/rate/rate.go:337-381 | up to a reservation that can act, the tokens charged fit the start plus the refill until it acts, the time rewound and one nanosecond |
| Copier.Copy | pkg/dumbproxy/forward/bwlimit.go:128-168 | the limiter's state, the bytes written and the way it ends, for every pattern of full, short, failed and interrupted turns |
| Copier.EndsAsTurnsDo | pkg/dumbproxy/forward/bwlimit.go:134-166 | the copy goes on exactly as long as no turn is interrupted in its delay, fails or comes short; the last turn made decides how it ends, and all that the turns wrote is counted |
| Copier.TurnEnds | pkg/dumbproxy/forward/bwlimit.go:144-165 | what each kind of turn makes of a copy that has got to it |
| Copier.ChargedIsWritten | pkg/dumbproxy/forward/bwlimit.go:134-166 | when the copy returns, the limiter is as if each turn had taken just the bytes it wrote; only a copy interrupted in a delay stays charged one chunk more |
| Copier.RechargeTakesOnly | pkg/dumbproxy/forward/bwlimit.go:152-157 | giving back a chunk and taking the bytes of a short read instead is taking those bytes |
| Copier.WrittenIsBounded | pkg/dumbproxy/forward/bwlimit.go:128-168 | by any time a stream alone on its limiter has written at most the burst plus the refill since its start and one nanosecond |
| Copier.AllIsCounted | pkg/dumbproxy/forward/bwlimit.go:150-151 | the bytes so bounded are all the bytes the copy reports |
| Copier.NeverRefused | pkg/dumbproxy/forward/bwlimit.go:137-140 | the error for a refused reservation is never reached |
| Copier.SmallBurstCopiesNothing | pkg/dumbproxy/forward/bwlimit.go:137-140 | unless the burst is too small for a chunk: then the first turn ends the copy with that error and nothing written |
| SharedCopier.SettlementMakesNoneExactly | pkg/dumbproxy/forward/bwlimit.go:152-157 | settling a short turn leaves the limiter with no more than putting the rest of the chunk back would, exactly when it changes nothing, the bucket would be full anyway, or what the cancel gives back and the refill of the time set back fit the chunk |
| SharedCopier.RewoundTimeMakesThem | pkg/dumbproxy/forward/bwlimit.go:152-157 | and never with more than that and the refill of the time it sets back |
| SharedCopier.SharedWrittenIsBounded | pkg/dumbproxy/forward/bwlimit.go:134-166 | however many copiers share a limiter and however their turns interleave, the bytes they have written, with a whole chunk for each turn still writing, are at most the tokens at the start plus the refill since, the tokens settlements made, and one nanosecond |
| SharedCopier.RewoundTimeIsCharged | pkg/dumbproxy/forward/bwlimit.go:134-166 | the same with the refill of the time set back in place of the tokens made |
| SharedCopier.SharingMakesNoneExactly | pkg/dumbproxy/forward/bwlimit.go:152-157 | no settlement of a run makes tokens exactly when each is as above |
| SharedCopier.HarmlessSharingIsBounded | pkg/dumbproxy/forward/bwlimit.go:134-166 | then the bound of one stream holds of all copiers together |
| SharedCopier.TurnAlone | pkg/dumbproxy/forward/bwlimit.go:134-166 | a turn with nothing in between leaves the limiter as the copier's own turn does and writes as much |
| SharedCopier.StepAccounts | pkg/dumbproxy/forward/bwlimit.go:134-166 | every byte of an ended turn is counted, and only a short turn makes tokens or rewinds time |
| SharedExample.SharingLetsMoreThrough | pkg/dumbproxy/forward/bwlimit.go:152-157 | a run of copiers on one limiter that write more than one alone could |
| LimiterCache.RunKeepsForm | pkg/dumbproxy/forward/bwlimit.go:187-218 | in every run the cache, the items and their holders fit together: an item in use is cached under its group, and its holders are that group's sessions |
| LimiterCache.GroupSharesLimiters | pkg/dumbproxy/forward/bwlimit.go:187-216 | whatever is dropped when, and whatever parameters each call computes, two live sessions of one group use the same limiters |
| LimiterCache.FreshBucketIsFull | pkg/dumbproxy/forward/bwlimit.go:203-206 | a new limiter has the configured rate, the configured burst or room for one chunk if that is more, and is full |
| LimiterCache.FreshItemLimits | pkg/dumbproxy/forward/bwlimit.go:203-212 | each direction is limited by its own parameters if they are separate, and else both together by those for uploads |
| LimiterCache.ChunksAreGranted | pkg/dumbproxy/forward/bwlimit.go:137-140 | after every run a live session's request for a chunk or less is granted in full, whatever burst is configured |
| LimiterCache.OwnLimiterIsReached | pkg/dumbproxy/forward/bwlimit.go:134-157 | a session takes from, gives back to and looks at the limiter of its group and direction |
| LimiterCache.OtherLimitersStay | pkg/dumbproxy/forward/bwlimit.go:187-216 | and touches no other: those of other groups stay, and that of the other direction unless the two are one |
| LimiterCache.SessionRemembers | pkg/dumbproxy/forward/bwlimit.go:137-153 | what is given back in a direction is what was taken there last, whatever the other direction did |
| LimiterCache.AcquireAndRelease | pkg/dumbproxy/forward/bwlimit.go:113-126 | a session gets what its group has or a new item; releasing keeps the limiters; an item is dropped exactly if the cache tests it while nobody holds it and both directions are full |
| LimiterEviction.EvictionIsInvisible | pkg/dumbproxy/forward/bwlimit.go:113-126 | with fixed parameters for each group, a cache that drops unheld full limiters at any time answers every reservation and every look exactly like one that never drops any |
| LimiterEviction.FreshStandsForDropped | pkg/dumbproxy/forward/bwlimit.go:203-214 | a fresh pair of limiters answers like the full pair that was dropped |
| PoolIndex.FilterOutClientConn | pkg/dumbproxy/dialer/h2_client_conn_pool.go:303-316 | filtering a list in its own storage gives the filtered list in order, touches no other slot but the last, and clears that one if something was removed |
| PoolIndex.WithoutKeepsOrder | pkg/dumbproxy/dialer/h2_client_conn_pool.go:303-316 | the filtered list is the list with just that connection cut out |
| PoolIndex.ClientConnPool.AddConnLocked | pkg/dumbproxy/dialer/h2_client_conn_pool.go:269-283 | appends the connection to both directions of the index unless it is there, and keeps the index valid |
| PoolIndex.ClientConnPool.MarkDead | pkg/dumbproxy/dialer/h2_client_conn_pool.go:285-301 | removes the connection from every list of the index, though it visits only those it is filed under, and keeps the index valid |
| PoolIndex.AddConnKeeps | pkg/dumbproxy/dialer/h2_client_conn_pool.go:269-283 | afterwards the connection is filed under the address; other addresses and connections stay |
| PoolIndex.DropConnKeeps | pkg/dumbproxy/dialer/h2_client_conn_pool.go:285-301 | afterwards exactly the others are filed where they were, in order, and no empty list is left |
| PoolDialing.TakesFirst | pkg/dumbproxy/dialer/h2_client_conn_pool.go:136-141 | connections are asked in the order of the list, and the scan stops at the first that reserves the request |
| PoolSafety.LookTakesFirst | pkg/dumbproxy/dialer/h2_client_conn_pool.go:134-149 | a caller takes the first pooled connection of its address that accepts; only if none does it waits for a dial, or fails if it wants none |
| PoolSafety.RunIsGood | pkg/dumbproxy/dialer/h2_client_conn_pool.go:125-207 | every reachable state keeps the index valid, one registered dial for each address in flight, every dialed connection published, and every dial charged to a caller |
| PoolSafety.DoneMeansPublished | pkg/dumbproxy/dialer/h2_client_conn_pool.go:136-207 | no address has two dials in flight; past `done` a dial is finished and not registered, and on success its connection is in the pool under its address unless it was marked dead |
| PoolSafety.OneDialPerCaller | pkg/dumbproxy/dialer/h2_client_conn_pool.go:125-207 | a pool with any number of callers starts at most one dial for each caller, plus one for each dialed connection that refused someone or died before it served anyone |
| PoolSafety.OnlyRefusedAreWasted | pkg/dumbproxy/dialer/h2_client_conn_pool.go:125-161 | the connections so counted are exactly those that refused a caller who asked them, or were marked dead, before they served anyone |
| PoolSafety.LookMovesOne | pkg/dumbproxy/dialer/h2_client_conn_pool.go:134-149 | a look under the lock changes the looking caller only, and starts a dial only if none is registered for its address |
| PoolSafety.WakeMovesOne | pkg/dumbproxy/dialer/h2_client_conn_pool.go:149-160 | a caller past `done` takes the dial's connection exactly if that accepts; it looks again if the connection refused or the dial ended with another request's context, and else fails with the dial's error |
| PoolSafety.OtherStepsDo | pkg/dumbproxy/dialer/h2_client_conn_pool.go:196-207 | the end of a dial publishes its connection and takes the dial off the register before `done` is closed; a connection marked dead leaves every list; nothing else moves |
| PoolOrigin.AnswersAreOwn | pkg/dumbproxy/dialer/h2_client_conn_pool.go:125-161 | in every run a caller's connection was made for its own address, and a caller's error is that of a finished dial to that address, or that there was no connection and it wanted no dial |
| PoolOrigin.DialsFollowMisses | pkg/dumbproxy/dialer/h2_client_conn_pool.go:134-148 | in every run a dial was started only by a caller that may dial, when none for its address was under way and every pooled connection of the address had refused |
| PoolProgress.WorkShrinks | pkg/dumbproxy/dialer/h2_client_conn_pool.go:133-160 | every step of a caller or a dial uses up work, and nothing else makes more |
| PoolProgress.WorkIsBounded | pkg/dumbproxy/dialer/h2_client_conn_pool.go:125-207 | with `n` callers and no dialed connection wasted, the retry loops end: no run has more than `n * (2n + 5)` steps of callers and dials |
| PoolProgress.NobodyIsStuck | pkg/dumbproxy/dialer/h2_client_conn_pool.go:125-207 | as long as a caller has not returned, some caller or dial can move |
| PoolProgress.EveryCallerReturns | pkg/dumbproxy/dialer/h2_client_conn_pool.go:125-161 | a run with no such step left has returned every caller |
| CertSerial.FormatSerial | pkg/dumbproxy/auth/cert.go:179-191 | building the text over the buffer that holds the digits loses none: the result is the bytes in hexadecimal, joined by colons, after the sign if it is negative; nothing for zero |
| CertSerial.HexEncode | pkg/dumbproxy/auth/cert.go:182-183 | the digits of each byte are where the formatter reads them |
| CertSerial.ParseSerialBytes | pkg/dumbproxy/auth/cert.go:242-259 | the hand-indexed loop is the parse from left to right, with its three errors |
| CertSerial.ParsesExactlyJoined | pkg/dumbproxy/auth/cert.go:242-259 | bytes are read from exactly the texts that are their hexadecimal pairs joined by colons, in either case, with or without one more colon at the end |
| CertSerial.FormatThenParse | pkg/dumbproxy/auth/cert.go:179-259 | parsing the formatted text gives the bytes back |
| CertSerial.CutLeadingZeroes | pkg/dumbproxy/auth/cert.go:198-203 | the loop cuts the leading zeroes and nothing else |
| CertSerial.CutIsCanonical | pkg/dumbproxy/auth/cert.go:198-203 | without leading zeroes the bytes are the canonical bytes of their number in base 256 |
| CertSerial.SameKeyIsSameNumber | pkg/dumbproxy/auth/cert.go:198-212 | two byte strings have the same key exactly when they denote the same number |
| CertSerial.Has | pkg/dumbproxy/auth/cert.go:205-212 | found exactly when the canonical bytes of the magnitude are in the set; nothing is found in a missing set |
| CertSerial.NewSerialNumberSetFromReader | pkg/dumbproxy/auth/cert.go:214-240 | the set has exactly the numbers of the lines that parse; comments, blanks and bad lines add nothing, bad ones are reported in order, and a failing reader gives no set |
| CertSerial.Blacklisted | pkg/dumbproxy/auth/cert.go:205-240 | a serial number is found exactly when some line denotes its magnitude |
| CertSerial.CommentedLineLists | pkg/dumbproxy/auth/cert.go:217-231 | a line with a number in its text form, white space around it and a comment lists that number and no other |
| CertSerial.CommentedBlankIsBlank | pkg/dumbproxy/auth/cert.go:218-222 | a line of white space and a comment is blank |
| CertSerial.BeforeHashCuts | pkg/dumbproxy/auth/cert.go:218 | what counts of a line is all before its first `#` |
| CertSerial.LineIsReadOneWay | pkg/dumbproxy/auth/cert.go:217-231 | every line is blank, bad, or lists one number |
| CertSerial.BadLinesAreInOrder | pkg/dumbproxy/auth/cert.go:218-229 | every bad line is reported, without its comment and the white space around it, in the order of the file |
| CertSerial.MagnitudeIgnoresSign | pkg/dumbproxy/auth/cert.go:206 | the sign of a serial number does not matter |
| WhiteSpace.TrimLeftCutsSpace | pkg/dumbproxy/auth/cert.go:219 | what is trimmed on the left is white space, and all of it |
| WhiteSpace.TrimRightCutsSpace | pkg/dumbproxy/auth/cert.go:219 | what is trimmed on the right is white space, and all of it |
| WhiteSpace.SpacesAreUnicode | pkg/dumbproxy/auth/cert.go:219 | white space is the UTF-8 encoding of the code points with that Unicode property, and nothing else |
| CertSerial.FormattedLineListsItself | pkg/dumbproxy/auth/cert.go:102-109 | the text reported for an accepted certificate, used as a line, lists that number and no other |
| ConnectGuard.ReturnedConnIsOpen | pkg/dumbproxy/dialer/upstream.go:99-146 | under every interleaving a connection that is returned was not closed by the guard and never will be, and an error return leaves it closed |
| ConnectGuard.ReturnedConnIsReady | pkg/dumbproxy/dialer/upstream.go:119-145 | a connection is returned only after the request was written, the response read and its status found good; the dial fails only if one of these fails or the context ended and the guard closed the connection |
| ConnectGuard.ContextEndFrees | pkg/dumbproxy/dialer/upstream.go:101-109 | until the guard is stopped, the end of the context closes the connection wherever the handshake is |
| ConnectGuard.RunKeepsInv | pkg/dumbproxy/dialer/upstream.go:99-146 | what the dialer, the guard and the two channels know of each other at every step |
| ConnectGuard.BothAlwaysEnd | pkg/dumbproxy/dialer/upstream.go:101-145 | no run has more than nine steps of the dialer and the guard, and they can take no other exactly when the dial has returned and the guard is done |
| ProxyResponse.ReadResponse | pkg/dumbproxy/dialer/upstream.go:152-167 | the head is complete exactly when reads before the first failure deliver one; it stops at the first, and empty reads are passed over |
| ProxyResponse.HeadIsShortestPrefix | pkg/dumbproxy/dialer/upstream.go:152-167 | what was read is the shortest prefix of the stream that ends in an empty line, and the tunnel starts right after it |
| PrologueWriters.FutureH1ProxiedConn.constructor | pkg/dumbproxy/dialer/optimistic.go:94-98 | a new connection owes the CONNECT request for its address and credentials |
| PrologueWriters.FutureH1ProxiedConn.Write | pkg/dumbproxy/dialer/optimistic.go:112-135 | what goes out, what the caller is told, and what is owed afterwards, for full, short and failed writes |
| PrologueWriters.PendingWriteConn.constructor | pkg/dumbproxy/handler/proxy.go:66-71 | a new connection owes the pending data |
| PrologueWriters.PendingWriteConn.Write | pkg/dumbproxy/handler/proxy.go:80-96 | the same for pending data |
| PrologueWriters.RequestIsOneHead | pkg/dumbproxy/dialer/optimistic.go:117-122 | for an address and credentials without carriage returns, a proxy that reads up to the first empty line reads exactly the CONNECT request and leaves the payload, whatever that is |
| PrologueWriters.WireIsPrologueThenPayload | pkg/dumbproxy/dialer/optimistic.go:112-135 | for every sequence of writes up to the first failure, the wire has a prefix of prologue and payload, all of it without a failure, and callers are told just the bytes beyond the prologue |
| PrologueWriters.ErrorsReachCaller | pkg/dumbproxy/handler/proxy.go:80-96 | every error of the connection underneath reaches the caller, a write without one has sent all its bytes, and only a failed first write is remembered |
| PrologueWriters.FirstFailureIsFinal | pkg/dumbproxy/dialer/optimistic.go:112-135 | after a failed first write every later one reports its error and sends nothing |
| FastResolver.FirstSuccessWins | pkg/dumbproxy/resolver/fast.go:40-74 | under every interleaving an answer is some upstream's, and an error without a cancel means that every upstream failed and is made of exactly their errors |
| FastResolver.ReceiverKeepsWhatItGets | pkg/dumbproxy/resolver/fast.go:63-74 | in every run, cancelled or not, an answer that is received is returned and nothing is received after it, and the errors returned are those received, in their order; the receiver goes without either only after a cancel |
| FastResolver.NobodyStaysBlocked | pkg/dumbproxy/resolver/fast.go:45-72 | until the receiver has returned and every worker has ended some step of theirs is possible, also after the return |
| FastResolver.EveryoneEnds | pkg/dumbproxy/resolver/fast.go:45-72 | no run has more than two steps for each upstream and one for the receiver, and they can take no other exactly when it has returned and every worker has ended |
| NameCache.FlightNameIsInjective | pkg/dumbproxy/dialer/rescache.go:92 | lookups have the same coalescing name exactly when they have the same family and host |
| NameCache.NetworkTellsFamily | pkg/dumbproxy/dialer/rescache.go:72-88 | a network stands for a family exactly if it is one of the three protocols with that version, and the key has the host in lower case |
| Text.LowerIsLetterwise | pkg/dumbproxy/dialer/rescache.go:84 | each of the 26 letters becomes itself in lower case, every other character stays |
| NameCache.ArriveAdds | pkg/dumbproxy/dialer/rescache.go:72-88 | a supported request becomes one call, an unsupported one is refused and changes nothing |
| NameCache.UnmapAll | pkg/dumbproxy/dialer/rescache.go:96-98 | every address is replaced by its unmapped form in place |
| NameCache.UnmapKeepsHost | pkg/dumbproxy/dialer/rescache.go:96-98 | unmapping changes the form of an address and not the host it stands for |
| NameCache.AnswersAreCurrent | pkg/dumbproxy/dialer/rescache.go:72-115 | under every interleaving a call uses a lookup for its own family and lower-cased host; an item from the cache was younger than its positive or negative time to live when the call looked, any other comes from a coalesced call that ended during this one |
| NameCache.LatestAnswerIsReused | pkg/dumbproxy/dialer/rescache.go:90-110 | whoever looks for a key after an answer was stored, and before it expires or another is stored, has that answer at once |
| NameCache.ExpiredItemsGo | pkg/dumbproxy/dialer/rescache.go:90 | a look leaves an item under its key only if it has not expired, and takes no other away |
| NameCache.WakeTakesAnswer | pkg/dumbproxy/dialer/rescache.go:92-113 | whoever waited for a lookup has its answer |
| NameCache.EnterJoins | pkg/dumbproxy/dialer/rescache.go:92 | a call that missed joins the lookup under way for its key, or starts one if there is none |
| NameCache.NobodyIsStuck | pkg/dumbproxy/dialer/rescache.go:90-113 | until a call has its answer some step brings it on |
| NameCache.EveryCallEnds | pkg/dumbproxy/dialer/rescache.go:90-113 | no run brings calls and lookups on by more than six steps for each request, and when no such step is left every call has its answer |
| NameCache.AnswersAreResolved | pkg/dumbproxy/dialer/rescache.go:92-110 | a lookup's answer is what the resolver gave when it answered, each address unmapped |
| NameCache.OneLookupPerKey | pkg/dumbproxy/dialer/rescache.go:92-110 | at most one lookup is under way for each family and host |
| NameCache.DialInOrder | pkg/dumbproxy/dialer/rescache.go:120-131 | the first address that connects is used, those before it failed, and all errors are reported if none connects |
| ProxyManager.ParsesExactly | internal/proxymanager/instance.go:194-215 | a string parses exactly when it has the number of parts its service asks for, and each part of the address is found where it was written |
| ProxyManager.SplitIsColonFree | internal/proxymanager/instance.go:196 | splitting at colons loses nothing |
| ProxyManager.SplitOfJoined | internal/proxymanager/instance.go:196 | parts without colons are found again |
| ProxyManager.Manager.constructor | internal/proxymanager/manager.go:24-32 | a new manager runs nothing, over whatever rows the database holds |
| ProxyManager.Manager.UpsertProxy | internal/proxymanager/manager.go:34-57 | the rows, instances and outcome, for every failure and with resets in between |
| ProxyManager.Manager.InsertNewProxy | internal/proxymanager/manager.go:60-125 | the same for a new key, with its rollback, which may fail too |
| ProxyManager.Manager.UpdateExistingProxy | internal/proxymanager/manager.go:128-173 | the same for a known key |
| ProxyManager.Manager.DeleteProxy | internal/proxymanager/manager.go:175-194 | the instance goes first, the row only if the database allows |
| ProxyManager.Manager.StartAll | internal/proxymanager/manager.go:233-261 | every loaded row whose instance can be made and started has it, the others are passed over |
| ProxyManager.Manager.StopAll | internal/proxymanager/manager.go:263-277 | no instances are left and no row is touched |
| ProxyManager.Manager.UpdateInstance | internal/proxymanager/manager.go:279-289 | a running instance takes the new upstream if the string is usable, and otherwise stays |
| ProxyManager.Manager.ResetProxy | internal/proxymanager/autoreset.go:86-116 | a reset writes the row and then redirects the instance if there is one and the string is usable; a failure before the write changes nothing |
| ProxyRuns.RunsAreSafe | internal/proxymanager/manager.go:34-290 | over any table with unique keys, whatever fails and wherever resets write, every running instance has a row of its service and no two rows share a key |
| ProxyRuns.UpsertWritesOneKey | internal/proxymanager/manager.go:60-173 | an upsert changes the row and instance of its key only, apart from what resets write in between; if it succeeds the row was written with what the service answered and when that counts as reset, and a new key has an instance; a failed insert that can roll back leaves no trace |
| ProxyRuns.UpsertSucceedsExactly | internal/proxymanager/manager.go:34-173 | an upsert succeeds exactly if none of the steps it needs fails, and then the instance serves what the service gave |
| ProxyRuns.InsertLeaves | internal/proxymanager/manager.go:60-125 | the row, the instance and the other rows after an insert, for every failure: without an answer or the write only resets have written; else a new id is used up, and its row stays unless no instance could be made and the row was taken back |
| ProxyRuns.UpdateLeaves | internal/proxymanager/manager.go:128-173 | the same for a known key: once the row is written it says what was fetched, and the instance is redirected if the string is of use to it, even if the call then fails |
| ProxyRuns.CreatedExactly | internal/proxymanager/instance.go:35-84 | an instance is made exactly if the string has the parts its service asks for, a dialer can be made for the address, and authentication and listening work |
| ProxyRuns.DeleteRemoves | internal/proxymanager/manager.go:175-194 | a delete stops the instance in any case, and removes the row exactly if it succeeds; nothing else changes |
| ProxyRuns.ResetTakesEffect | internal/proxymanager/autoreset.go:98-113 | a reset writes its string and time to its row and redirects the instance if the string is usable; nothing else changes |
| ProxyRuns.LastCallTakesEffect | internal/proxymanager/manager.go:175-277 | after every run a delete has stopped its instance and, unless the database failed, removed its row; a shutdown has stopped all instances, and a start has started every row whose instance can be made |
| ProxyRuns.AtomicRunsAgree | internal/proxymanager/manager.go:34-290 | with resets taken as a whole, every instance serves what its row's string stands for, whenever that is usable |
| ProxyRuns.RedirectAgreesExactly | internal/proxymanager/autoreset.go:98-113 | redirecting for a reset that wrote earlier leaves agreement exactly when there is no instance, the reset's string or the row's is unusable, or both stand for the same upstream |
| ProxyRuns.SplitResetsAgreeExactly | internal/proxymanager/autoreset.go:47-116 | with resets one after another, wherever their writes fall among and within the other calls and their redirects between them, rows and instances agree whenever none is under way, all through a run, exactly when every redirect is like that |
| ProxyRuns.SplitResetDisagrees | internal/proxymanager/autoreset.go:98-113 | a run over an empty database in which a reset split by an upsert makes row and instance disagree |

## Left out

- Machine arithmetic in the limiter: tokens and rates are exact and times unbounded, so rounding of floating-point numbers and overflow of 64-bit times are not modelled.
- RateBounds.GrantsAreBounded: covers grants whose wait is not cut off at the longest duration, because beyond it a time to act is no real time.
- RateBounds.GrantsAreBounded: covers clocks that do not go back; calls that do not wait are bounded under any clock by `RateBounds.AllowedIsBounded`.
- RateHistory.NewestFirstIsSafe: covers newest-first cancels only, because out of order it is false, as `RateCancel.OutOfOrderCancelRestoresTooMuch` shows.
- RateExact.SlackIsNeededExactly: covers rates at which waiting for one token is not cut off at the longest duration.
- Copier.WrittenIsBounded: covers one stream on its own limiter; streams that share one are bounded by `SharedCopier.SharedWrittenIsBounded`, and by the tighter bound when no settlement makes tokens (`SharedCopier.HarmlessSharingIsBounded`).
- RateRewinds.RewindsMakeAllExcess: supposes that the rate is not changed between a reservation and its cancel, because the time rewound is charged at one rate.
- `WaitN`, which adds a timer to the reservation and a cancel when the context ends.
- `PairConnections`, which runs two copiers and closes both ends when the context ends; it would add only easy members.
- LimiterEviction.EvictionIsInvisible: supposes that a group's parameters do not change, because a limiter that is made again takes those of the call that makes it.
- LimiterCache.RunKeepsForm: items and sessions are values in a state machine and not objects, because the point is the interleaving; the read and write locks of an item are the set of its holders.
- PoolIndex.ClientConnPool.MarkDead: filters its lists as values; that the filter works in the storage of the list is shown by `PoolIndex.FilterOutClientConn`.
- `addConnIfNeeded` and the coalescing of its calls; only its effect on the index is a step of the pool.
- Requests that ask for a connection of their own, TLS, ALPN and the HTTP/2 transport: whether a connection accepts a request is chosen by each step.
- PoolProgress.WorkIsBounded: assumes that no dialed connection refuses a caller or dies before it serves anyone; otherwise dials have no bound, as `PoolSafety.OneDialPerCaller` says.
- The splitting of a blacklist file into lines.
- Reloading the blacklist, and the other checks of a certificate.
- Parsing the head of a proxy's response and its status; whether it is good is chosen by a step.
- The read side of the optimistic connection beyond reading the head.
- PrologueWriters.RequestIsOneHead: supposes that neither the address nor the credentials have a carriage return, because the program writes both as they are; base64 of the credentials is not part of this model.
- FastResolver.FirstSuccessWins: with no upstream at all the program returns neither addresses nor an error; the model has an empty list of errors there.
- Literal addresses and dialers that want names, which bypass the cache of lookups; letters beyond ASCII in lower-casing.
- NameCache.EveryCallEnds: shows no better bound on how often a name is looked up than once for each request, because a call may miss the cache, be overtaken by a finished lookup, and start another.
- SQL, the servers and listeners of instances, and when the next automatic reset is due.
- ProxyRuns.AtomicRunsAgree: covers resets taken as a whole, because with split ones it is false, as `ProxyRuns.SplitResetDisagrees` shows; `ProxyRuns.SplitResetsAgreeExactly` covers those.
- ProxyRuns.SplitResetsAgreeExactly: supposes that resets do not overlap, as one goroutine makes them all, and that a redirect does not fall within another call; one that does, after its look-up of the instance, is not modelled.
- The internals of the cache, single-flight and lock libraries; their operations are atomic steps.
- Half-closing pipe wrappers, the SOCKS listener, authentication providers, TLS options, configuration and logging.
