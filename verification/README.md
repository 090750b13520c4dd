# The concurrent and the arithmetic core, in Dafny

This project models the parts of the marketplace that are state machines, protocols or arithmetic
rather than plumbing, and proves what they are there for.

- **The WebSocket hub** (`hub_*.dfy`). `HubRegistry` is what the mutex protects, `HubServer.Hub` the
  code of its critical sections, `HubProtocol` their interleavings with fan-out calls, deferred closes
  and cancels. `HubInvariants` and `HubDelivery` hold the results: subscriptions are owned once, nobody
  is stranded, delivery has no gaps.
- **The Redis Streams consumer** (`redis_*.dfy`). `RedisStream` is the stream, its group and its
  pending list, `RedisProtocol` the consume loop as steps among failures, `RedisConsumer` the loop as
  code, `RedisGuarantees` at-least-once delivery, group loss and backlog replay, `RedisHistory` where
  reading starts and resumes.
- **The seeded wallet ledger** (`ledger_*.dfy`). Planning, stable sorting, sizing and inserting
  withdrawals, writing. `LedgerPlan`, `LedgerWithdrawals` and `LedgerWriter` hold the results.
- **The in-memory event bus** (`membus_*.dfy`). `MembusProtocol` is every interleaving of publishers,
  consumers, Subscribe and Close; `MembusMemory.Memory` is the code; `MembusGuarantees` has the results.
- **The crawler's rate scheduler** (`crawl_*.dfy`). The shared pace and the proxy pool as classes, and
  what they guarantee for any interleaving of workers. Time is a real number.
- **Algorithms**: the COPY encoding against the reading rules of PostgreSQL (`copy_text.dfy`), the
  `$ref` closure (`audit_closure.dfy`, `audit_pointers.dfy`), slugs (`slugs.dfy`), the even targets of
  the bulk seed (`targets.dfy`) and the counters of the seed plan (`counters.dfy`).

Methods follow the source's loops and updates and are proved against functions or, for the two event
buses, against a protocol: their ghost state moves by protocol steps only, so that what is proved for
all runs of the protocol holds of them.

Where the code does not do what it or its comments promise, the code is kept and the exact condition
is proved:

- A Redis group that is lost before the first handled batch of a run is recreated at `$` and skips what
  was waiting (`RecreateSkipsIff`, with a run in `RecreateCanSkip`). Entries without a payload are never
  acknowledged and stay pending (`LeavesPendingIff`, `NoPayloadStaysPending`).
- `minAvailableFrom` does not look at the balance carried into its instant when a later row exists, so a
  withdrawal sized by it can overdraw, and the seeder's own call can abort (`SeedCanOverdraw`); it does
  not exactly when that balance covers it (`WithdrawalSafeIff`, `WithdrawAllSafeIff`).
- A block quickens a pace above four seconds (`BlockWidensIff`).
- A benching shorter than `per_proxy` brings an address back early (`PaceKeptIff`); the crawler's own
  120 seconds for a dead proxy are such a benching when `--per-proxy` is larger.
- `closure` records the last word of a pointer into the inside of a schema as a schema name
  (`NestedPointerMisnames`, `PartitionMisnames`). A document without such pointers gets exact names
  (`FlatDocumentsAreExact`), and what it takes in one that has them is `NamesAreSchemasIff`.
- The round robin is uneven across the wrap of its counter at 2^64, except for group sizes that divide
  it (`SharesAreEvenIff`).
- `row` without values writes a line that reads as one empty field (`RowRoundTripIff`).

## Model

| member | source | states |
|---|---|---|
| HubServer.Hub.JoinEnter | internal/gateway/ws/hub.go:95-110 | The first critical section of Join ends one of three ways, by whether the account has an entry and whether the entry has room; the registry afterwards is the attached, claimed or unchanged one |
| HubServer.Hub.JoinInstall | internal/gateway/ws/hub.go:135-147 | After a subscribe, the cancel is stored exactly when the entry is still the one this join claimed; otherwise nothing changes and the caller must cancel |
| HubServer.Hub.JoinAbandon | internal/gateway/ws/hub.go:115-132 | After a failed subscribe, if the entry is still this join's, it is deleted and every socket in it, each once, is handed over to be closed |
| HubServer.Hub.Remove | internal/gateway/ws/hub.go:216-230 | Unregisters the socket, deletes the entry with its last socket, and gives back that entry's cancel and no other |
| HubServer.Hub.Send | internal/gateway/ws/hub.go:190-196 | The payload goes to exactly the sockets of the account with fewer than SendBuffer unread; those with SendBuffer are listed, each once |
| HubServer.Hub.Dispatch | internal/gateway/ws/hub.go:179-212 | A socket of the account with fewer than SendBuffer unread stays registered and gets the payload behind what it has; one with SendBuffer is unregistered and gets nothing; every other is left alone; at most one cancel is given back |
| HubServer.Hub.Leave | internal/gateway/ws/hub.go:152-161 | Unregisters and closes; the cancel is given back exactly when the socket was the account's last |
| HubServer.Hub.Count | internal/gateway/ws/hub.go:164-172 | Summing the sizes of the sets counts every registered socket once |
| HubRegistry.DeliverMoves | internal/gateway/ws/hub.go:179-212 | A dispatch unregisters exactly the slow sockets and changes nobody else's registration, account or done |
| HubRegistry.DeliverReaches | internal/gateway/ws/hub.go:174-197 | What a dispatch does to any one socket, from the fields before and after: it stays and gets the payload exactly when its buffer has room |
| HubRegistry.RemoveFeeds | internal/gateway/ws/hub.go:216-230 | The cancel that remove gives back belongs to the deleted entry, and no other entry's subscription changes |
| HubRegistry.WithoutOneMore | internal/gateway/ws/hub.go:197-201 | Removing the sockets of a set one at a time is removing the set |
| HubInvariants.SizesKept | internal/gateway/ws/hub.go:95-110 | Every step keeps each registered set between 1 and MaxPerAccount members |
| HubInvariants.NobodyStrandedKept | internal/gateway/ws/hub.go:88-161 | Every step keeps: a registered socket's done is open, and one that is neither registered nor done has a call in progress that will close it |
| HubInvariants.JoinsKept | internal/gateway/ws/hub.go:108-147 | Every step keeps: an entry without a cancel has exactly one join on its way to install one |
| HubInvariants.InvKept | internal/gateway/ws/hub.go:88-230 | Every step keeps all of this, and each live subscription owned exactly once: by an entry, by a join, or by a call about to cancel it |
| HubInvariants.RightAccountKept | internal/gateway/ws/hub.go:112-147 | Every step keeps: an entry is fed by a subscription of its own account |
| HubInvariants.ReturnedKept | internal/gateway/ws/hub.go:104-147 | Every step keeps: a client that Join handed back, or is about to, is one the hub knows |
| HubInvariants.EveryReachableState | internal/gateway/ws/hub.go:88-230 | All of these hold in every state of every interleaving of joins, leaves, dispatches, closes and cancels |
| HubInvariants.CancelsAreLive | internal/gateway/ws/hub.go:146-146 | A cancel is only ever called on a live subscription that was not cancelled before |
| HubInvariants.NothingLeaks | internal/gateway/ws/hub.go:142-146 | With no call in progress, live subscriptions and registry entries match one to one |
| HubInvariants.NobodyIsStranded | internal/gateway/ws/hub.go:118-131 | With no call in progress, a client that Join returned is done, or registered and fed by a live subscription of its account |
| HubDelivery.GapFree | internal/gateway/ws/hub.go:174-212 | The payloads ever queued for a client are exactly the dispatches of its account between its join and its removal, in order, none missing |
| HubDelivery.NothingAfterRemoval | internal/gateway/ws/hub.go:46-55 | Once unregistered, a client stays so and nothing is put on its queue again |
| HubDelivery.BacklogBounded | internal/gateway/ws/hub.go:190-196 | A client's backlog never exceeds SendBuffer |
| HubDelivery.DroppedOnlyWhenFull | internal/gateway/ws/hub.go:174-212 | Over any run, a registered socket stops being so exactly by its own Leave, the abandoned Join of its entry, or a dispatch that found SendBuffer payloads unread |
| HubDelivery.RefusedIffFull | internal/gateway/ws/hub.go:95-100 | In any reachable state a Join is refused exactly when its account has MaxPerAccount sockets registered |
| RedisConsumer.Redis.XReadGroup | internal/infra/eventbus/redis.go:184-200 | What the group read answers, by group, cursor and pending list, and what it marks as delivered |
| RedisConsumer.Subscription.Deliver | internal/infra/eventbus/redis.go:141-160 | The handler gets the payloads in order; the ids acked are those of the entries with a payload; done with exactly when there were none or the handler succeeded |
| RedisConsumer.PayloadsInOrder | internal/infra/eventbus/redis.go:141-152 | The payloads handed over are those of the entries that have one, once each and in order |
| RedisConsumer.Subscription.Recover | internal/infra/eventbus/redis.go:107-114 | Recreating the lost group at lastID is two protocol steps |
| RedisConsumer.Subscription.Iterate | internal/infra/eventbus/redis.go:97-135 | One turn of the loop, for every reply, handler and ack outcome, takes exactly the protocol steps of Iteration |
| RedisConsumer.Subscription.Consume | internal/infra/eventbus/redis.go:86-136 | The whole loop takes exactly the protocol steps that its script of replies, failures and losses amounts to, so every guarantee below holds of the state it leaves |
| RedisStream.FreshIsBatch | internal/infra/eventbus/redis.go:189-199 | A read of new entries takes the oldest undelivered ones, in id order, with none left out in between |
| RedisStream.BacklogIsBatch | internal/infra/eventbus/redis.go:92-94 | A read of the backlog takes the pending entries just above the cursor, in id order, with none left out in between |
| RedisGuarantees.AtLeastOnceKept | internal/infra/eventbus/redis.go:86-160 | Every step keeps: an entry added since the group's creation is not yet delivered, or still pending, or had its handler return success |
| RedisGuarantees.RunKept | internal/infra/eventbus/redis.go:94-135 | Every step keeps: up to lastID every entry of the run went to a handler, or its read reply was lost, or it has no payload |
| RedisGuarantees.ReplayKept | internal/infra/eventbus/redis.go:92-131 | Every step keeps: the ids read since the group was last created in a run increase, so none comes twice, and are first exactly those pending at the start |
| RedisGuarantees.EveryReachableState | internal/infra/eventbus/redis.go:86-208 | All of these hold after any sequence of publishes, crashes, restarts, lost replies, handler failures, ack failures and group losses |
| RedisGuarantees.LastIdNeverDecreases | internal/infra/eventbus/redis.go:132-134 | Within one run the resume position never moves back |
| RedisGuarantees.RecreateSkipsOnlySettled | internal/infra/eventbus/redis.go:103-114 | After a handled batch, a recreated group skips only entries that this run handed over or that were lost on the way; everything later will be delivered |
| RedisGuarantees.RecreateSkipsIff | internal/infra/eventbus/redis.go:89-96 | A recreated group skips an entry that never came to a handler exactly when no batch was handled yet, so that it restarts at $, and there is such an entry |
| RedisGuarantees.RecreateCanSkip | internal/infra/eventbus/redis.go:103-114 | A run of five steps in which such an entry is skipped |
| RedisPending.LeavesPendingIff | internal/infra/eventbus/redis.go:202-208 | While the group survives, an id leaves the pending list exactly when an applied acknowledgement of a batch holds it, with a payload |
| RedisPending.NoPayloadStaysPending | internal/infra/eventbus/redis.go:141-152 | An entry without a payload, once pending, stays so over every run, with crashes and restarts, while the group survives |
| RedisGuarantees.BacklogShrinks | internal/infra/eventbus/redis.go:125-131 | Every non-empty read of the backlog leaves fewer pending ids above the cursor; an empty one means that all of them were read |
| RedisHistory.StartIsLive | internal/infra/eventbus/redis.go:87-91 | A start that finds no group makes one behind every entry of the stream with nothing pending; one that is there is left as it is |
| RedisHistory.RecreateResumes | internal/infra/eventbus/redis.go:103-114 | A lost group is made again right behind the last batch the run was done with, or behind the whole stream if there was none |
| RedisHistory.ResumesBehindTheBatch | internal/infra/eventbus/redis.go:132-134 | A batch that is done with moves the resume position to its last entry; one whose handler failed leaves it |
| RedisHistory.HistoryNeverHandled | internal/infra/eventbus/redis.go:87-91 | Over any run, once it has made the group, no handler is given an entry that was in the stream then, whatever fails, crashes or is lost later |
| RedisHistory.ReadsAreFull | internal/infra/eventbus/redis.go:184-200 | A read leaves something for later only if its batch is full |
| RedisHistory.ReadsGoOn | internal/infra/eventbus/redis.go:92-131 | A backlog read hands over what is pending above its cursor and moves the cursor up to it; once nothing is, reading goes on with new entries, and hands over whichever there are |
| LedgerSort.SortIsStable | cmd/seed/finance.go:225-227 | The sort orders by time and keeps the movements of one instant in their order |
| LedgerSort.StableSortUnique | cmd/seed/finance.go:225-227 | There is only one stable sort of a list, so the model's sort is Go's |
| LedgerSort.SortConcat | cmd/seed/finance.go:227-227 | Sorting two lists together is merging them sorted, the first one's movements first in an instant |
| LedgerBalances.MergeNonNegative | cmd/seed/finance.go:225-227 | Merging two ledgers that never go negative gives one that never does |
| LedgerOrders.CheckoutBalances | cmd/seed/finance.go:155-185 | Top-up, debit, hold and fee of one checkout never leave a negative prefix, and what they add up to |
| LedgerOrders.LegsBalances | cmd/seed/finance.go:155-222 | The movements of one order, in any state, are in time order and prefix-non-negative; what the seller still has held is the goods total exactly while the order is in escrow |
| LedgerOrders.LegsSorted | cmd/seed/sales.go:198-237 | The times that timelineFor gives put every settlement after its checkout |
| LedgerOrders.TimelineSays | cmd/seed/sales.go:186-237 | Which of the times each state has, that they follow each other, and that only a completed order is paid out, 72 hours after its receipt |
| LedgerOrders.LegsAreTimely | cmd/seed/finance.go:155-222 | Each kind of movement happens with the event it is for, and held money is always the seller's |
| LedgerPlan.PlanOrder | cmd/seed/finance.go:155-222 | The loop body plans exactly the order's movements |
| LedgerPlan.PlanMoves | cmd/seed/finance.go:138-223 | The two planning loops give the opening top-ups and then every order's movements |
| LedgerPlan.PlannedNeverNegative | cmd/seed/finance.go:149-227 | For any orders with non-negative amounts, the sorted ledger never takes an available or held balance below zero |
| LedgerPlan.MoneyIsConserved | cmd/seed/finance.go:149-223 | Each account's held balance is the goods total of its sales still in escrow; all balances together are what was paid in less the fees kept |
| LedgerWithdrawals.ComputeMinAvailableFrom | cmd/seed/finance.go:361-380 | The loop computes the largest amount that no balance at or after the instant falls short of: the lowest one, the final one if there is none, and at least zero |
| LedgerWithdrawals.LowestIsLeast | cmd/seed/finance.go:358-380 | That lowest balance is a lower bound of the account's own later rows and is reached by one of them |
| LedgerWithdrawals.RoundDownBounds | cmd/seed/finance.go:383-388 | Rounding gives a multiple of the step, takes off less than one step and never adds |
| LedgerWithdrawals.SizedIsLargest | cmd/seed/finance.go:249-251 | A withdrawal is the largest multiple of 500,000 within its share of what is spendable |
| LedgerWithdrawals.InsertedAt | cmd/seed/finance.go:260-266 | Appending and stable-sorting puts the withdrawal right after everything up to its instant |
| LedgerWithdrawals.InsertionSafeIff | cmd/seed/finance.go:248-267 | An insertion leaves the ledger non-negative exactly when it was and the amount is covered at its place and at every later one |
| LedgerWithdrawals.WithdrawalSafeIff | cmd/seed/finance.go:248-267 | Within minAvailableFrom, an amount is safe exactly when the balance carried into its instant covers it too |
| LedgerWithdrawals.WithdrawSafeIff | cmd/seed/finance.go:248-267 | The same for the amount that the code computes, share and rounding included |
| LedgerWithdrawals.WithdrawAllSafeIff | cmd/seed/finance.go:248-267 | Any number of successive withdrawals keeps the ledger non-negative exactly when each is covered by the balance carried into its instant |
| LedgerOverdraft.FirstCashoutUncovered | cmd/seed/finance.go:229-267 | One sale of the shop for twenty million, paid out between the two cash-outs: the first is sized at six and a half million while three are there |
| LedgerOverdraft.SeedCanOverdraw | cmd/seed/finance.go:129-356 | The seeder's own call aborts on that plan, whatever the buyer, the fee and the time, though its ledger before withdrawals never goes negative |
| LedgerWithdrawals.WithdrawAllTotals | cmd/seed/finance.go:248-267 | Withdrawals take exactly their amounts out of the one account's available balance; every other available balance and every held one stays |
| LedgerWriter.WriteRows | cmd/seed/finance.go:269-328 | The writing loop succeeds exactly when no prefix is negative, and otherwise stops at the first movement that is; rows and wallets are the running balances |
| LedgerWriter.FinalSafeIff | cmd/seed/finance.go:227-300 | The final ledger is non-negative exactly when every withdrawal is covered by the balance carried into its instant |
| LedgerWriter.WriteLedger | cmd/seed/finance.go:129-356 | Succeeds exactly under that condition, and then writes the rows and wallets of the final ledger |
| LedgerWriter.SeedLedger | cmd/seed/finance.go:129-356 | The call the seeder makes, with its five opening balances and two cash-outs of the shop, succeeds exactly when both are covered by the balance carried into their instants |
| LedgerWriter.RowsChain | cmd/seed/finance.go:295-327 | An account's rows are numbered 1..n, and each balance is the previous one plus the row's delta |
| LedgerWriter.WalletIsLastRow | cmd/seed/finance.go:333-349 | A wallet's balance columns equal its account's last row |
| LedgerWriter.OpenedAtFirst | cmd/seed/finance.go:279-294 | A wallet is opened for exactly the accounts with a movement, at the time of the first one |
| LedgerWriter.WalletsHoldTheTotal | cmd/seed/finance.go:333-349 | The wallets together hold what all movements add up to |
| LedgerWriter.WrittenMoney | cmd/seed/finance.go:278-349 | In a written ledger the wallets hold top-ups minus unreturned fees minus withdrawals, and held is what is in escrow |
| LedgerAmounts.ComputeAmounts | cmd/seed/finance.go:33-58 | Every order is charged its units at the catalogue price, or the total of the first offer with its key, and the courier's fee for within or across provinces; or a party or offer that really is missing is reported for the first order that has one |
| LedgerAmounts.QuantitiesAdd | cmd/seed/finance.go:44-44 | Without an offer one unit costs the catalogue price, and the goods of m + n units cost those of m and those of n together |
| LedgerAmounts.OfferSettlesThePrice | cmd/seed/finance.go:45-51 | With an offer neither the price nor the quantity counts |
| LedgerAmounts.FeeByProvince | cmd/seed/plan.go:353-358 | The fee depends only on whether buyer and seller share a province, and is lower if they do |
| LedgerAmounts.AmountsNonNegative | cmd/seed/finance.go:44-55 | Non-negative prices, quantities and offers give non-negative amounts |
| MembusInvariants.QueuesKept | internal/infra/eventbus/memory.go:98-137 | Every step keeps: what was sent to a subscription is what it handled, then the batch in hand, then its channel; a batch has 1 to BatchSize payloads |
| MembusInvariants.InflightKept | internal/infra/eventbus/memory.go:89-112 | Every step keeps the in-flight counter equal to the payloads reserved, queued or in a batch |
| MembusDelivery.TopicsKept | internal/infra/eventbus/memory.go:55-95 | Every step keeps: a group is never empty, its subscriptions are its own, and a Publish works through the groups its topic had when it began |
| MembusDelivery.DeliveredKept | internal/infra/eventbus/memory.go:82-95 | Every step keeps: a group a Publish is done with was reached through one subscription, one it is not done with through none |
| MembusEvenness.CountsKept | internal/infra/eventbus/memory.go:89-93 | Every step keeps: how often a subscription was picked is what it was sent plus what is on its way to it |
| MembusRoundRobin.CursorsKept | internal/infra/eventbus/memory.go:89-91 | Every step keeps the picks equal to those of a counter modulo 2^64 and then modulo the group's size |
| MembusRoundRobin.TurnsAreEven | internal/infra/eventbus/memory.go:89-91 | Any m moves of the cursor give each of k subscriptions m/k turns, rounded down or up, if it does not wrap at 2^64 on the way or k divides 2^64 |
| MembusRoundRobin.SharesAreEvenIff | internal/infra/eventbus/memory.go:89-91 | Every window gives equal shares exactly when k divides 2^64; otherwise one across the wrap does not |
| MembusGuarantees.EveryReachableState | internal/infra/eventbus/memory.go:42-173 | All of these hold in every state of every interleaving of Subscribe, Publish, consumers and Close |
| MembusGuarantees.AcceptedReachesEachGroupOnce | internal/infra/eventbus/memory.go:80-95 | An accepted Publish put its payload into exactly one place of one subscription of every group of its topic, and nowhere else |
| MembusGuarantees.CallsSeeFixedGroups | internal/infra/eventbus/memory.go:83-89 | The groups a Publish works through are those of its topic for as long as it runs |
| MembusGuarantees.RefusedReachesNobody | internal/infra/eventbus/memory.go:86-88 | A refused Publish reaches no subscription |
| MembusGuarantees.NoSendOnClosedChannel | internal/infra/eventbus/memory.go:81-92 | A Publish in progress never sends on a closed channel, and sends to a subscription of the group it chose |
| MembusGuarantees.BatchesFollowTheQueue | internal/infra/eventbus/memory.go:102-137 | A finished batch has 1 to BatchSize payloads and extends what was handled along the queue |
| MembusGuarantees.WaitSeesEverythingHandled | internal/infra/eventbus/memory.go:139-142 | When the counter is zero everything sent has been handled |
| MembusGuarantees.InflightIsNeverNegative | internal/infra/eventbus/memory.go:112-112 | The counter never goes below zero, which would panic |
| MembusGuarantees.PublishersNeverDeadlock | internal/infra/eventbus/memory.go:89-93 | A Publish can go on whenever the channel it sends to has room, and otherwise waits for a consumer that can |
| MembusGuarantees.CloseIsBounded | internal/infra/eventbus/memory.go:154-173 | After Close the consumers take a bounded number of steps, in any order |
| MembusGuarantees.CloseNeverStalls | internal/infra/eventbus/memory.go:154-173 | Until every consumer has exited, one of them can move; so Close returns |
| MembusGuarantees.CloseLosesNothing | internal/infra/eventbus/memory.go:154-173 | When Close returns, every payload sent was handled, in order, and the counter is zero |
| MembusGuarantees.RoundRobinIsEven | internal/infra/eventbus/memory.go:89-93 | While nobody subscribes to a group, its p picks between any two moments give each of its k subscriptions p/k payloads, sent or on their way, rounded down or up |
| MembusGuarantees.PayloadsAreEven | internal/infra/eventbus/memory.go:89-93 | With no Publish under way at either moment these are the payloads sent |
| MembusMemory.Memory.Subscribe | internal/infra/eventbus/memory.go:55-78 | A subscription joins its group, made if need be, as the last in turn, with a batch size of at least one; the cursor stays where it is and no other group changes |
| MembusMemory.Memory.Publish | internal/infra/eventbus/memory.go:82-95 | Refused exactly when closed; otherwise in every group of the topic the subscription whose turn it is is sent the payload, at once if its channel has room and after its consumer made some if not, the cursor moves on by one, and no other subscription is touched |
| MembusMemory.Memory.FillBatch | internal/infra/eventbus/memory.go:118-137 | The batch grows along the queue, which loses exactly that, and stops only when it is full, nothing is left or the timer fired |
| MembusMemory.Memory.MakeRoom | internal/infra/eventbus/memory.go:92-92 | A consumer is waited for only while its channel is full, which ends with room, takes only the oldest payloads off the channel, changes nothing that was sent, and touches nobody else |
| MembusMemory.Memory.Drain | internal/infra/eventbus/memory.go:98-114 | On a closed channel the consumer finishes what it has in hand, handles the whole queue in order and exits |
| MembusMemory.Memory.Close | internal/infra/eventbus/memory.go:156-173 | Closing twice changes nothing; closing once, whatever the consumers have in hand, ends with every payload ever sent handled in order |
| CrawlThrottle.Throttle.Wait | dev/bulkseed/lib/crawl.py:65-72 | Reserves the next place, an interval after the last or after the cooldown, and sleeps exactly until then, or not at all once it is past |
| CrawlThrottle.Throttle.Blocked | dev/bulkseed/lib/crawl.py:74-85 | Counts a strike, widens the interval up to the cap and sets the cooldown, which it returns |
| CrawlThrottle.Throttle.Ok | dev/bulkseed/lib/crawl.py:87-90 | Forgets the strikes and keeps the interval |
| CrawlThrottle.IntervalAfter | dev/bulkseed/lib/crawl.py:83-83 | However the calls of all workers fall, k blocks leave the interval at 1.6^k times the first, but at most 4 |
| CrawlThrottle.BlockWidensIff | dev/bulkseed/lib/crawl.py:74-85 | A block widens the pace exactly when it was under 4 seconds; above, it quickens it, against the comment in the code |
| CrawlThrottle.RequestsAreSpaced | dev/bulkseed/lib/crawl.py:65-69 | Requests of all workers together are given places at least the interval then in force apart |
| CrawlThrottle.PlacesInAWindow | dev/bulkseed/lib/crawl.py:65-69 | Any window of w seconds holds at most w over the smaller of 4 and the first interval, rounded down, plus one of the places given |
| CrawlThrottle.RequestsInAWindow | dev/bulkseed/lib/crawl.py:65-72 | If requests leave at most some seconds after their places, any window holds at most as many of them as one longer by that has places |
| CrawlThrottle.CooldownAfterBlocks | dev/bulkseed/lib/crawl.py:74-90 | The cooldown to serve is 15 seconds for each block since the last success before the last block, at most 90, and a success after it does not lift it |
| CrawlThrottle.CooldownAfterWait | dev/bulkseed/lib/crawl.py:69-69 | Nothing of it is left once a request was given its place |
| CrawlThrottle.CooldownServedOnce | dev/bulkseed/lib/crawl.py:65-72 | The next request's place comes after the cooldown, and the one after it has none of it |
| CrawlWindows.WindowBound | dev/bulkseed/lib/crawl.py:52-57 | Times that are d apart put at most w/d + 1 into any window of w seconds |
| CrawlProxies.ScanFinds | dev/bulkseed/lib/crawl.py:130-135 | A pass hands out the first address due in the order of the cursor, sets it aside for per_proxy, and moves the cursor past it |
| CrawlProxies.FoundIffDue | dev/bulkseed/lib/crawl.py:130-135 | A full pass finds an address exactly when one is due, and only one that is |
| CrawlProxies.Proxies.Take | dev/bulkseed/lib/crawl.py:123-137 | None for an empty pool; otherwise an address that is due, found by a scan from the same place of the cycle and set aside for per_proxy: at once if one is due, and if not, without other workers, at most a fifth of a second after any address comes due, plus how late the sleep ends |
| CrawlProxies.Proxies.Bench | dev/bulkseed/lib/crawl.py:139-155 | Sets the address aside for the seconds given, or the default, and counts the places of the pool that are due |
| CrawlProxies.AddressesRest | dev/bulkseed/lib/crawl.py:110-155 | While benchings last at least per_proxy, an address is handed out at times at least per_proxy apart |
| CrawlProxies.RequestsPerAddress | dev/bulkseed/lib/crawl.py:110-155 | Then any window of w seconds holds at most w/per_proxy + 1 requests through one address |
| CrawlProxies.PaceKeptIff | dev/bulkseed/lib/crawl.py:139-153 | Benchings of length d keep that pace, for every pool and every run, exactly when d >= per_proxy: a shorter one overwrites the time take set |
| CrawlProxies.BenchedSitsOut | dev/bulkseed/lib/crawl.py:139-153 | A benched address is not handed out before its time is up unless it is benched anew |
| CopyText.ChainIsEscape | dev/bulkseed/lib/generate.py:82-83 | The four chained replacements are one escape of every character |
| CopyText.FieldRoundTrip | dev/bulkseed/lib/generate.py:74-83 | A field reads back as it was, without carriage returns; only NULL is written as \N, and no field as the end-of-data marker |
| CopyText.SplitJoin | dev/bulkseed/lib/generate.py:86-87 | Splitting a joined line at its unescaped tabs gives back the fields' texts |
| CopyText.LineRoundTrip | dev/bulkseed/lib/generate.py:86-87 | A line of one field or more stays one line, is never the end-of-data marker, and gives its fields back |
| CopyText.FileRoundTrip | dev/bulkseed/lib/generate.py:86-87 | Reading a whole file of rows by the rules of COPY gives back every field of every row |
| CopyText.RowRoundTripIff | dev/bulkseed/lib/generate.py:86-87 | One row reads back as itself exactly when it has a field |
| AuditClosure.WalkRefs | dev/spec-audit/audit_required.py:92-96 | Whatever a pointer resolves to holds only references of the document, which bounds the worklist |
| AuditPointers.RefsIff | dev/spec-audit/audit_required.py:77-89 | The references of a node are what its $ref members say, however deep and whatever stands beside them |
| AuditPointers.ResolvesIff | dev/spec-audit/audit_required.py:92-96 | A pointer #/a/b/c resolves to what the document has under a, b and c one inside the other, and to nothing else |
| AuditClosure.Closure | dev/spec-audit/audit_required.py:99-110 | Ends on every document, with loops too; fails exactly when a dangling pointer is reachable; otherwise gives the names of all reachable schema pointers and no others |
| AuditClosure.Visit | dev/spec-audit/audit_required.py:102-109 | One turn of the loop sees a pointer more or has one pending less, and keeps the worklist complete |
| AuditClosure.PathStays | dev/spec-audit/audit_required.py:99-110 | Whatever a chain of references leads to is in every closed set that holds its start |
| AuditClosure.FlatDocumentsAreExact | dev/spec-audit/audit_required.py:99-110 | In a document that refers to schemas by flat pointers only, none into a schema, the names are exactly the schemas referred to |
| AuditClosure.NamesAreSchemasIff | dev/spec-audit/audit_required.py:107-109 | In any document they are exactly when every pointer reached inside a schema ends in the name of a schema that is referred to too |
| AuditClosure.NestedPointerMisnames | dev/spec-audit/audit_required.py:107-109 | For every pointer into a schema there is a document that refers to it alone, where its last word is given as a name and no such schema is referred to |
| AuditClosure.PartitionMisnames | dev/spec-audit/audit_required.py:113-125 | There partition answers with that word alone, as for property b of schema A |
| AuditClosure.PathSeeds | dev/spec-audit/audit_required.py:113-124 | The seeds of each side are what some operation's body, parameters or responses, or its path's parameters, refer to |
| AuditPointers.SeedsFailIff | dev/spec-audit/audit_required.py:113-124 | Collecting the seeds fails exactly on a document of the wrong shape: it, its paths, a path or an operation is no object; one without paths has no seeds |
| AuditClosure.Partition | dev/spec-audit/audit_required.py:113-125 | The two sides are the two reachabilities, and what only responses reach is never reached by a request |
| Slugs.Slugify | internal/module/catalog/domain/listing.go:567-592 | The loop joins the title's words, what stands between other characters, by dashes, and cuts at 100 |
| Slugs.SlugifiedIsSlug | internal/module/catalog/domain/listing.go:567-592 | The result is a slug, nothing exactly when the title has no word character, and all of the joined words if they have at most 100 characters, or else 99 or 100 characters of their beginning |
| Slugs.FullGrows | internal/module/catalog/domain/listing.go:574-585 | Before the cut, a word character adds itself, behind a dash exactly when it is not the first and something else came since the last one; nothing else adds anything |
| Slugs.LettersStay | internal/module/catalog/domain/listing.go:574-585 | Without its dashes that is the title's word characters, in their order |
| Slugs.ClipIsLongest | cmd/seed/text.go:18-27 | Clipping a slug to n >= 1 gives a slug, the longest beginning of it that ends a word within n, or n characters of its first word |
| Slugs.SuffixesDiffer | cmd/seed/plan.go:366-368 | Different numbers give different suffixed slugs |
| Slugs.Taken.UniqueSlug | cmd/seed/plan.go:360-371 | Ends for any taken names, with a valid slug not yet taken: a base, or the base with the first free number from 2 on. The base is the title's slug if that has at most 80 characters, otherwise its longest beginning that ends a word within 80, or 80 characters of its first word; tin-dang only for a title without a word character |
| Slugs.PlanSlugs | cmd/seed/plan.go:217-224 | All slugs of a plan are valid and differ from each other |
| Targets.TargetsAreEven | dev/bulkseed/lib/generate.py:682-689 | The shares of the leaves add up to the total and differ by at most one, the larger ones first |
| Targets.Generate | dev/bulkseed/lib/generate.py:826-881 | The loops give each leaf in its turn the rows it needs, none for a negative need, with ids counting on from the first free one |
| Targets.Load | dev/bulkseed/lib/generate.py:690-693 | In the ordinary mode a run leaves each leaf at its target or where it was, whichever is more; with existing rows ignored it adds the target |
| Targets.StepsAddUp | dev/bulkseed/lib/generate.py:682-693 | Loading T1 and then T2 >= T1 ends where loading T2 at once does |
| Targets.EndsAtTotalIff | dev/bulkseed/lib/generate.py:669-693 | The catalogue ends at the total exactly when no leaf was over its target, and never below |
| Targets.IgnoringAdds | dev/bulkseed/lib/generate.py:690-691 | With existing rows ignored, a run adds the whole total |
| Counters.Plan.RollUpCounters | cmd/seed/plan.go:274-309 | Every listing and variant ends with its units sold, its reviews counted and averaged and its stock raised, from the orders that count |
| Counters.VariantsAddUp | cmd/seed/plan.go:284-285 | What the variants of a listing sold adds up to what the listing sold |
| Counters.RolledIsSound | cmd/seed/plan.go:297-309 | A cached rating lies among the ratings it averages; every stock exceeds what was sold, and is raised no further than that |
| Counters.AsIfAbsent | cmd/seed/plan.go:281-318 | A declined or refunded order, wherever it stands among the others, leaves every listing as if it were not there, and so does one of another listing |
| Counters.OneMoreSale | cmd/seed/plan.go:284-300 | Any other order adds its units to its listing and its variant, and its rating to the average; the first rating replaces the cached one |

## Left out

- The hub's log lines, the socket pump and the fan-out itself: a fan-out call is a step that succeeds or
  fails, and dispatch may be called at any time, also after a cancel, which covers every behaviour of NATS.
- Go pointers and closures: identifiers stand for them, and two are equal exactly when their identifiers
  are. Receiving from a client's channel happens outside the mutex and is its own step.
- HubServer.Hub.Leave: the steps between which another goroutine may take the mutex are separate only in
  HubProtocol; the method is the case where nobody does.
- RedisConsumer.Subscription.Consume: the context's cancellation ends the script; sleeps and log lines are
  not modelled, and a failed group creation is retried until it succeeds.
- Redis itself beyond XADD, XGROUP CREATE, XREADGROUP and XACK: one consumer a group, increasing ids, no
  trimming by MAXLEN.
- Columns of the ledger rows that carry no money (group and reference ids, idempotency keys, notes), the
  SQL, and the 64-bit width of amounts, which are unbounded integers here.
- MembusMemory.Memory.Publish: while a send waits, only the consumer it waits for runs; every other
  interleaving is in MembusProtocol.
- MembusMemory.Memory.FillBatch: payloads that arrive while the batch is being filled are interleavings of
  MembusProtocol; the timer is a number of looks after which it fires.
- MembusProtocol assumes that nobody subscribes during or after Close, as the code's callers do.
- CrawlProxies.Proxies.Take: the loop with other workers in between is given by the calls of Play; whether
  one worker can be overtaken for ever is not treated.
- Floating-point rounding in the crawler's times and in the cached rating: both are reals.
- Unicode folding in slugify: a title comes as accents, word characters and others.
- YAML keys that are not strings, and duplicate keys: the document is a tree with string keys.
- Number formatting in the COPY rows: a number is given by the text Python prints for it.
- The mode of the bulk seed with one listing per product name, its vocabulary and its random choices.
- HTTP handlers, configuration, provider wiring, SQL, image drawing, the account and catalogue services,
  and the NATS and cache adapters: plumbing, or rules that live elsewhere.
