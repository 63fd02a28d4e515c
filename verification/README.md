# Lumen relay: verified model

This project models the stateful core of the Lumen VLESS relay and its Telegram shop
and proves what that core promises over all inputs, interleavings and crashes. It
verifies with Dafny 4.11: `dafny verify dfyconfig.toml`.

Components that the program changes in place are classes whose methods are proved
against specification functions on values; the theorems are lemmas about those
functions and about runs of them.

| component | specification and theorems | imperative form |
|---|---|---|
| Shop: orders, wallet, codes, gifts | StoreModel, StoreInvariant, StoreSteps, StoreTheorems, StoreWitnesses | TelegramStore |
| Batched quota accounting | QuotaModel, QuotaRuns | QuotaGate |
| Token bucket | BucketModel | TokenBucket |
| VLESS header and its collector | VlessModel, CollectModel | VlessCollector |
| Upload and download pumps | PumpModel | Pump |
| WebSocket frames | FrameModel | FrameWriter |
| Receive queue with watermarks | QueueModel | ReceiveQueue |
| Address order and connection race | EyeballsModel | Eyeballs, Race |
| State files and recovery | DiskModel | StateFiles |
| Links and groups | GroupModel, GroupRaces | GroupPanel |
| Proxy table, exit selection and connector | RouteModel, TargetModel, HandshakeModel, DialModel, HealthModel | Repository, Outbound, Handshake |
| Bounded HTTP body reader | HttpModel | HttpReader |
| Proxy ranking | RankModel | Ranking |

How the world enters: clocks are non-decreasing real parameters; the answers of the
network, of a crash, of provisioning and of the parts of `is_link_allowed` outside the
quota test are parameters of the step that asks for them. Each section of the shop
that runs under its state lock is one atomic step, and steps of different tasks
interleave freely; a delivery is several steps, with other tasks in between.

## Where the code differs from what it promises

Each of these is kept as the code has it, with the exact condition proved.

- Batched accounting is documented to make final byte totals exact (speed_limit.py:89).
  A frame interrupted between staging and sending, or a refused batch or flush, breaks
  that: `QuotaRuns.ClosedIsExactIff`, `QuotaRuns.ClosedTotals`, with an input in
  `QuotaRuns.InterruptedFrameIsBilled`; `QuotaRuns.AllowedRunsAreExact` gives the
  condition under which it holds.
- Text messages are counted in bytes when queued and in characters when taken, so the
  receive queue can end up empty with reading paused for good:
  `QueueModel.StallsExactlyByDrift`, `QueueModel.StallIsForever`, with an input in
  `QueueModel.TextCanStall`.
- An environment snapshot that is set but invalid switches off the refusal to start
  on damaged copies: `DiskModel.RefusesExactlyWithoutSnapshot`, with an input in
  `DiskModel.InvalidSnapshotStartsEmpty`.
- Assigning one config to a group leaves it on the list of its former group; the
  two-way relation survives exactly for configs not grouped elsewhere:
  `GroupModel.AssignKeepsIff`, with an input in `GroupModel.AssignLeavesOldEntry`.
- Two overlapping moves of one config can leave it on the lists of both targets
  (`GroupRaces.OverlapAgreesIff`, `GroupRaces.CrossedOverlapAgreesIff`, with an input in
  `GroupRaces.OverlappingMovesDisagree`); without overlap on one config every
  interleaving agrees again (`GroupRaces.InterleavedEditsAgree`).
- The wizards check that a code is unused earlier than they insert it. Replacing a promo
  code that some order holds breaks its books (`StoreSteps.KeepsAddPromo`, input in
  `StoreWitnesses.ReplacedCodeForgetsItsOrder`); replacing a redeemed gift lets it be
  redeemed again (`StoreSteps.KeepsAddGift`, input in
  `StoreWitnesses.ReplacedGiftIsRedeemedAgain`).
- A response without length or chunking is read by a single bounded read, which returns
  no more than has arrived: `HttpModel.UntilCloseIsSureUpToOneByte`, and for every input
  in two segments `HttpModel.SecondSegmentIsLost`.
- TELEGRAM-BOT-AUDIT.md:56 speaks of a minimum price of 1000 after a discount. The code
  has none: a discount can make an order free (`StoreTheorems.DiscountMeaning`).

Two assumptions of the routing results: validation of a URL never answers with an empty
string (proxy_repository.py:126-140), and lookups see a table that the loader built.

## Model

| member | source | states |
|---|---|---|
| `TelegramStore.Shop.constructor` | telegram_bot.py:61-78 | A new shop is empty and satisfies the shop invariant. |
| `TelegramStore.Shop.EnsureUser` | telegram_bot.py:204-226 | A first contact gets an account with no balance; a known customer keeps everything; the invariant holds afterwards. |
| `TelegramStore.Shop.CreateOrder` | telegram_bot.py:535-557 | A draft at its listed price, or the configured amount clamped at zero; an order that has neither price nor amount is refused. |
| `TelegramStore.Shop.CancelOrder` | telegram_bot.py:560-568 | Only the owner cancels, only a draft; anything else changes nothing. |
| `TelegramStore.Shop.ApplyDiscount` | telegram_bot.py:594-611 | A usable code reprices the owner's draft; each reason for refusal leaves the state alone. |
| `TelegramStore.Shop.AddPromo` | telegram_bot.py:1079-1083 | A code is inserted with empty books; the invariant survives exactly when no order holds a reservation under that name. |
| `TelegramStore.Shop.AddGift` | telegram_bot.py:474-478 | A gift is inserted with nobody on its list; the invariant survives exactly when nothing was credited under that name. |
| `TelegramStore.Shop.ReserveLocked` | telegram_bot.py:614-626 | Either the code is taken for this order in counter and both lists at once, or an error and no change. |
| `TelegramStore.Shop.ReleaseLocked` | telegram_bot.py:629-641 | The order is taken off counter and both lists exactly as the abstract release says, and its flag is cleared. |
| `TelegramStore.Shop.CancelWaiting` | telegram_bot.py:644-660 | Cancelling an order that waits for its receipt gives its code back; other orders and owners are refused. |
| `TelegramStore.Shop.ExpireStale` | telegram_bot.py:663-682 | The sweep equals the one-order-at-a-time expiry in dictionary order; a count of zero means nothing changed. |
| `TelegramStore.Shop.StartCardPayment` | telegram_bot.py:685-705 | Sweep, then reserve and wait for a receipt, or refuse with the invariant intact. |
| `TelegramStore.Shop.FindWaiting` | telegram_bot.py:708-718 | The search over all orders returns the newest waiting order of the customer. |
| `TelegramStore.Shop.SubmitReceipt` | telegram_bot.py:708-725 | A receipt moves the chosen, else the newest, waiting order to review. |
| `TelegramStore.Shop.BeginFinish` | telegram_bot.py:809-845 | First section of a delivery: the checks in their order, then reserve, debit and mark, all or nothing. |
| `TelegramStore.Shop.CreditTopUp` | telegram_bot.py:848-852 | The middle section credits a top-up once. |
| `TelegramStore.Shop.FailFinish` | telegram_bot.py:859-875 | The error section refunds, releases and returns the order to where it came from. |
| `TelegramStore.Shop.ApproveFinish` | telegram_bot.py:877-885 | The last section approves the order and stamps the trial. |
| `TelegramStore.Shop.RejectOrder` | telegram_bot.py:888-898 | Rejecting a reviewed order releases its code; other states are refused. |
| `TelegramStore.Shop.RedeemGift` | telegram_bot.py:901-924 | A gift is credited once a customer, within its limit, or refused for the stated reason. |
| `TelegramStore.ReserveThenRelease` | telegram_bot.py:614-641 | Releasing right after reserving restores the whole store, byte for byte of the books. |
| `StoreSteps.StepKeepsInv` | telegram_bot.py:535-924 | Every critical section, from every state satisfying the invariant, keeps it: books of codes, gifts, trials, ledger, one delivery at a time. |
| `StoreSteps.KeepsAddPromo` | telegram_bot.py:1079-1083 | Inserting a code keeps the books exactly when no order holds a reservation under that name; the wizard's earlier check is what excludes that. |
| `StoreSteps.KeepsAddGift` | telegram_bot.py:474-478 | Inserting a gift keeps the ledger and once-per-customer exactly when no credit was given under that name. |
| `StoreWitnesses.ReplacedCodeForgetsItsOrder` | telegram_bot.py:1046-1083 | A run from the empty shop after which a second insertion leaves an order reserved under a code that counts no use and lists nobody. |
| `StoreWitnesses.ReplacedGiftIsRedeemedAgain` | telegram_bot.py:445-478 | A run in which a customer redeems the same gift twice and the ledger no longer balances. |
| `StoreSteps.ReleaseForm` | telegram_bot.py:629-641 | A release touches the order's flag and the books of its code and nothing else. |
| `StoreInvariant.ReserveBooks` | telegram_bot.py:614-626 | After a reservation both lists still run in parallel, without repetition and within the limit. |
| `StoreInvariant.ReleasePosition` | telegram_bot.py:629-641 | A release removes one and the same position from both lists, and the counter clamp at zero never acts. |
| `StoreTheorems.RunKeepsInv` | telegram_bot.py:535-924 | The invariant holds after any interleaving of any critical sections. |
| `StoreTheorems.WalletLedger` | telegram_bot.py:809-924 | In every reachable state each balance equals gifts redeemed plus top-ups credited minus wallet-paid orders in delivery or delivered, and is never negative. |
| `StoreTheorems.PromoCounts` | telegram_bot.py:571-682 | For every code the counter, both lists and the set of orders reserved under it have one size, at most the limit; nobody is listed twice; the lists name exactly those orders and their owners. |
| `StoreTheorems.ReservedExactlyWhileLive` | telegram_bot.py:614-641 | An order holds a reservation exactly when it has a code and is awaiting receipt, pending, in delivery or approved. |
| `StoreTheorems.ReservesOnlyUsableCodes` | telegram_bot.py:571-705 | A reservation begins only by card payment or delivery, on a code that is then active, unexpired, not used up and new to the customer. |
| `StoreTheorems.GiftsOncePerUser` | telegram_bot.py:901-924 | Over all runs nobody redeems a gift twice and no gift exceeds its limit. |
| `StoreTheorems.PriceSplits` | telegram_bot.py:580-611 | Payable plus discount is the listed price in every reachable state, all three non-negative. |
| `StoreTheorems.DiscountMeaning` | telegram_bot.py:580-591 | The percentage discount is the floor of the exact share, a fixed one is capped by the price, and nobody pays less than nothing. |
| `StoreTheorems.StepFollowsGraph` | telegram_bot.py:535-924 | One step moves an order along at most one edge of the lifecycle graph, never renegotiates it after draft, and only the delivery's own sections touch the order being delivered. |
| `StoreTheorems.FinalStaysFinal` | telegram_bot.py:644-682 | Approved, rejected, cancelled and expired are final over whole runs, price included. |
| `StoreTheorems.SweepExpiresStale` | telegram_bot.py:663-682 | The sweep expires exactly the stale orders, whatever order it visits them in. |
| `StoreTheorems.LatestIsNewest` | telegram_bot.py:708-718 | The order picked for a receipt is the newest waiting one, and none is picked only when none waits. |
| `StoreTheorems.OneTrialPerUser` | telegram_bot.py:809-885 | However many trial drafts are finished concurrently, at most one of a customer's is approved. |
| `StoreTheorems.DeliveryIsUndisturbed` | telegram_bot.py:809-885 | No run of other tasks changes the order being delivered or ends its delivery. |
| `StoreTheorems.FailureUndoesBegin` | telegram_bot.py:809-875 | A failed delivery gives back exactly what its first section took, whatever ran in between, takes the order and its customer off the books of its code and leaves all other books alone, and restores the order. |
| `StoreTheorems.WalletPurchaseCompletes` | telegram_bot.py:809-885 | A covered purchase or renewal from the wallet, with a usable code or none, is approved and costs exactly its price. |
| `StoreTheorems.CardTopUpCompletes` | telegram_bot.py:685-885 | Card payment, receipt and confirmation of a top-up credit exactly its amount. |
| `QuotaGate.UsageRecord.CheckAndUse` | relay_vless.py:671-681 | Charges only an allowed link below its limit, both totals together. |
| `QuotaGate.Meter.constructor` | speed_limit.py:120-138 | A gate starts with the metered or the unlimited batching profile of its link. |
| `QuotaGate.Meter.Adapt` | speed_limit.py:140-176 | The next batch follows the smoothed rate and stays within its bounds. |
| `QuotaGate.Meter.Stage` | speed_limit.py:140-176 | Staging equals the specification of one batching decision and keeps the gate consistent. |
| `QuotaGate.Meter.Commit` | speed_limit.py:177-183 | A batch is charged to the record or closes the gate for good. |
| `QuotaGate.Meter.Flush` | speed_limit.py:192-196 | What was waiting is charged at the end, or the refusal is reported. |
| `QuotaModel.StageConserves` | speed_limit.py:140-176 | Staging neither loses nor invents a byte, keeps less than one batch waiting, and hands over less than a batch plus the frame. |
| `QuotaRuns.AdvanceConserves` | speed_limit.py:140-196 | In every phase of a session, what it newly records is exactly what its link is charged. |
| `QuotaRuns.RunKeepsInv` | relay_vless.py:690-771 | Over all interleavings of any number of sessions the link's total is the sum of what each recorded plus the headers. |
| `QuotaRuns.QuotaOvershoot` | speed_limit.py:140-196 | From below the limit, recorded usage stays below the limit plus the larger of 1 MiB plus one frame and one header, whatever the interleaving; from the limit or above, nothing is recorded. |
| `QuotaRuns.UnrecordedUnderOneMiB` | relay_vless.py:729-747 | On a metered link no direction is ever a whole MiB ahead of its record. |
| `QuotaRuns.AllowedRunsAreExact` | speed_limit.py:85-89 | If the link stays allowed at every charge of a run and no direction is interrupted between staging and sending, closing every direction makes recorded bytes equal forwarded bytes plus headers. |
| `QuotaRuns.FlawlessIffUndisturbed` | relay_vless.py:690-771 | Every direction ends in order, with nothing unflushed, if and only if the run meets that condition at every step. |
| `QuotaRuns.ClosedTotals` | speed_limit.py:177-196 | In every run that closes all directions the record equals forwarded bytes plus headers minus the sum of the gaps their endings name. |
| `QuotaRuns.ClosedIsExactIff` | speed_limit.py:177-196 | A closed direction recorded exactly what it forwarded if and only if it ended in order and fully flushed, or with errors that cancel. |
| `QuotaRuns.InterruptedFrameIsBilled` | speed_limit.py:85-89 | A run on an always-allowed unlimited link whose interrupted frame is recorded and never forwarded. |
| `BucketModel.AttemptKeepsOk` | speed_limit.py:28-42 | Tokens stay within the capacity through every refill and every grant. |
| `BucketModel.GrantsArePaid` | speed_limit.py:28-49 | Over any interleaving of consumers, grants are paid for by tokens in hand plus what time has refilled. |
| `BucketModel.WindowBound` | speed_limit.py:19-49 | Any window grants at most the capacity plus rate times its length, whatever came before it. |
| `TokenBucket.TokenBucket.constructor` | speed_limit.py:22-26 | A bucket starts full, at no less than the minimum rate and burst. |
| `TokenBucket.TokenBucket.Refill` | speed_limit.py:28-33 | The stored tokens become those of the specification at the given time. |
| `TokenBucket.TokenBucket.ConsumeSlice` | speed_limit.py:35-42 | Alone on the bucket the waiting loop ends, and takes no more than time has paid for. |
| `TokenBucket.TokenBucket.Consume` | speed_limit.py:44-49 | A request of any size is cut into slices no larger than the bucket that add up to it, and completes. |
| `TokenBucket.SleepRefills` | speed_limit.py:41-42 | The computed sleep covers the want or brings it at least one byte closer. |
| `VlessCollector.ParseHeader` | relay_vless.py:608-655 | The position-moving parser computes the specification's verdict, address and payload. |
| `VlessModel.ParseInvertsEncode` | relay_vless.py:608-655 | Parsing an encoded request returns its address and port and leaves exactly the bytes after it. |
| `VlessModel.ParsedIsEncoded` | relay_vless.py:608-655 | Whatever is accepted is the encoding of some well-formed request followed by the payload. |
| `VlessModel.AcceptedExactlyWellFormed` | relay_vless.py:608-655 | A buffer is accepted if and only if it starts with the encoding of a well-formed request. |
| `VlessModel.ParseExtends` | relay_vless.py:608-655 | A successful parse is final: further bytes only extend the payload. |
| `VlessModel.MalformedIsFinal` | relay_vless.py:608-655 | A malformed request stays malformed whatever follows. |
| `VlessModel.ProperPrefixIsIncomplete` | relay_vless.py:608-655 | Cut anywhere before its end, a well-formed request is only incomplete. |
| `VlessModel.Encode` | relay_vless.py:608-655 | An encoded request has between the shortest parseable length and 533 bytes. |
| `VlessModel.IdentityOfEncoded` | relay_vless.py:658-668 | The identity read ahead of parsing is that of the request, for version 0 only. |
| `VlessCollector.CollectHeader` | relay_vless.py:928-992 | The collecting loop equals the recursive specification for every sequence of receives, timeouts and disconnects. |
| `CollectModel.AcceptedIsReceived` | relay_vless.py:928-992 | What is accepted is the parse of some received prefix, charged for exactly that prefix. |
| `CollectModel.MalformedNeverAccepted` | relay_vless.py:928-992 | A request that a received prefix shows to be malformed is never accepted. |
| `CollectModel.SplitIsAccepted` | relay_vless.py:928-992 | Any split of a well-formed request is accepted with no byte of what follows lost. |
| `CollectModel.VerdictIgnoresSplit` | relay_vless.py:928-992 | Without prefetching, the verdict depends on the bytes and not on how they were cut; the only refusal is the size limit. |
| `CollectModel.PrefetchWaitsForPayload` | relay_vless.py:928-992 | With prefetching a well-formed request under any split is accepted at the first moment its payload is complete or the window is over, and waited for until then; no byte of what follows is lost. |
| `CollectModel.PrefetchEnds` | relay_vless.py:971-985 | A prefetch still waiting ends in acceptance at a silence (without identity) or when the window is over, and in a refusal at a disconnect. |
| `Pump.AccountFrame` | relay_vless.py:729-737 | One frame is admitted, refused, or cut off at its commit as the specification says. |
| `Pump.FlushGate` | relay_vless.py:763-767 | What waits in the gate is charged, or lost if the link is no longer allowed. |
| `Pump.HandleMessage` | relay_vless.py:720-753 | One message adds exactly its payload to the stream, or ends the direction with the fault that struck. |
| `Pump.Burst` | relay_vless.py:716-760 | A burst of awaited and immediate receives advances the frame-by-frame semantics by at most 32 messages. |
| `Pump.RelayClientToTcp` | relay_vless.py:690-771 | The whole upload pump, with errors at any await and the final flush, writes, records and ends exactly as the frame-by-frame loop; the connection counts what was written. |
| `PumpModel.AdmitConserves` | relay_vless.py:729-737 | An admitted frame is recorded or waiting; a refused or cut-off batch is charged to nobody and the difference is named. |
| `PumpModel.WritesAPrefix` | relay_vless.py:690-771 | The bytes written are the payloads of the messages before the one that ended the direction, in order. |
| `PumpModel.WrittenIsAccounted` | relay_vless.py:690-771 | Recorded bytes and bytes waiting in the gate equal the bytes written up to the one frame the ending names; a closed gate writes nothing. |
| `PumpModel.UploadTotals` | relay_vless.py:690-771 | After the final flush the record equals the bytes written if and only if what the flush lost is what the ending had in excess. |
| `Pump.StreamBuffer.ReadChunk` | relay_vless.py:785-831 | One read, with its wait and its coalescing turn, returns and leaves what the specification says. |
| `PumpModel.ReadKeepsOrder` | relay_vless.py:785-831 | The chunk and what is buffered once everything of the turn has arrived are what was buffered plus what arrived, in order; an empty chunk leaves nothing buffered. |
| `Pump.PumpDown` | relay_vless.py:853-887 | The loop equals the chunk-by-chunk semantics of the given arrivals in data, accounting, counter and ending. |
| `Pump.RelayTcpToClient` | relay_vless.py:834-892 | Two zero bytes, then that stream, then the final flush; nothing is read if the greeting fails. |
| `PumpModel.DownloadForwardsTheStream` | relay_vless.py:834-892 | What was sent, read but not sent, and still buffered are exactly what the target sent in the turns taken, in order; a direction that ends with the stream has sent all of it. |
| `PumpModel.DownloadIsAccounted` | relay_vless.py:834-892 | Recorded and waiting bytes equal the bytes sent up to the one chunk the ending names, and the connection counts the bytes sent, or one chunk more when sending it broke. |
| `PumpModel.DownloadTotals` | relay_vless.py:834-892 | After the final flush the record equals the bytes sent if and only if what the flush lost is what the ending had in excess. |
| `FrameWriter.BinaryHeader` | turbo_ws_protocol.py:115-121 | The header of a final binary frame in the shortest length form. |
| `FrameWriter.Sender.SendBytes` | turbo_ws_protocol.py:198-223 | The output always decodes to the list of payloads sent; a closed connection sends nothing. |
| `FrameModel.WireRoundTrip` | turbo_ws_protocol.py:115-121 | Any list of payloads below 2^63 bytes survives the wire under section 5.2 of RFC 6455. |
| `FrameModel.DecodedIsWire` | turbo_ws_protocol.py:115-121 | The strict decoder accepts nothing but what the writer emits, so every length form is the shortest. |
| `FrameModel.HeaderReadsBack` | turbo_ws_protocol.py:115-121 | A header reads back as its length, whatever follows. |
| `QueueModel.ConfigureIsSane` | turbo_ws_protocol.py:28-47 | However the environment sets them, each low mark lies below its high mark. |
| `ReceiveQueue.TurboQueue.SendReceiveEvent` | turbo_ws_protocol.py:132-166 | One message joins the queue, and reading pauses at either high mark. |
| `ReceiveQueue.TurboQueue.PutNotice` | turbo_ws_protocol.py:183-188 | A connect or disconnect joins the queue without bytes and without a look at the marks. |
| `ReceiveQueue.TurboQueue.ReceiveNowait` | turbo_ws_protocol.py:168-196 | The oldest message leaves, and reading resumes below both low marks. |
| `QueueModel.BinaryHysteresis` | turbo_ws_protocol.py:132-196 | With binary frames the counter is the queued total, reading pauses only above a low mark, never with nothing queued, and is on only below both high marks; connects and disconnects may be among them. |
| `QueueModel.TextCounter` | turbo_ws_protocol.py:132-196 | With texts the counter exceeds the queue by what past texts were counted too much. |
| `QueueModel.StallsExactlyByDrift` | turbo_ws_protocol.py:168-181 | Taking the last message leaves reading paused exactly when that excess is above the low byte mark. |
| `QueueModel.PauseIsForever` | turbo_ws_protocol.py:132-196 | Once the excess is above the low byte mark a pause never ends, whatever arrives or is taken. |
| `QueueModel.StallIsForever` | turbo_ws_protocol.py:132-196 | A connection paused with an empty queue is in that state. |
| `QueueModel.TextCanStall` | turbo_ws_protocol.py:132-181 | A concrete text message that leaves an empty queue paused under the default marks. |
| `QueueModel.DrainingResumes` | turbo_ws_protocol.py:168-181 | Draining a binary queue always resumes reading and returns the counter to zero. |
| `Eyeballs.InterleaveFamilies` | relay_vless.py:384-411 | The queue-popping loop computes the specified interleaving. |
| `EyeballsModel.InterleaveIsPermutation` | relay_vless.py:384-411 | No address is added, dropped or repeated. |
| `EyeballsModel.InterleaveKeepsFamilyOrder` | relay_vless.py:384-411 | Each family keeps its order, apart from the remembered winner, which comes first of all. |
| `EyeballsModel.InterleaveAlternates` | relay_vless.py:384-411 | Families alternate until one runs out. |
| `Eyeballs.ConnectionSchedule` | relay_vless.py:467-492 | The loop computes the specified start delays of the first six addresses. |
| `EyeballsModel.DelaysInOrder` | relay_vless.py:467-492 | The first address of a family starts at once unless it is cooling down; later ones are staggered, never ahead of it. |
| `EyeballsModel.BothFamiliesStart` | relay_vless.py:384-492 | When both families resolve, the first two starts are one of each, undelayed unless cooling down. |
| `Race.TakeRound` | relay_vless.py:572-584 | One wait keeps its fastest success and closes the others. |
| `Race.CancelPending` | relay_vless.py:585-592 | Connections that complete while being cancelled are closed. |
| `Race.RaceConnections` | relay_vless.py:543-598 | For every order of completions, and whenever the caller is cancelled while it waits, the race ends with exactly the winner open, or raises with nothing open; every other connection was closed once. |
| `StateFiles.Volume.AtomicWrite` | main.py:221-240 | Cut off after any number of file effects, the disk is what the effect list says, and it reports completion exactly when all happened. |
| `StateFiles.Volume.LoadState` | main.py:265-374 | Startup takes the copy the specification names and repairs the main file without rotating. |
| `DiskModel.SaveOnMain` | main.py:221-231 | A save changes the main file only by its last effect, which installs a whole state. |
| `DiskModel.StartsFromLastSaved` | main.py:221-288 | After any run of saves and restarts with crashes anywhere, startup loads the last completed state: never an older, never an empty one. |
| `DiskModel.StepKeepsSorted` | main.py:221-240 | Whole copies stay ordered by age, newest first, through every save and repair. |
| `DiskModel.DamagedMainLoadsNewest` | main.py:265-281 | With the main file damaged while stopped, startup takes the newest copy still whole. |
| `DiskModel.RepairIsSafe` | main.py:371-374 | With the main file damaged, and the first backup too or not, any number of interrupted repairs leave both backups untouched and the loaded state the same; the first complete one restores the main file. |
| `DiskModel.TwoRotationsHeal` | main.py:221-231 | Two completed rotating saves leave three whole copies, whatever the backups held. |
| `DiskModel.RefusesExactlyWithoutSnapshot` | main.py:279-288 | With only damaged copies startup is refused exactly when no environment snapshot is set, and starts empty exactly when an invalid one is. |
| `DiskModel.InvalidSnapshotStartsEmpty` | main.py:279-292 | The concrete case: an invalid snapshot starts empty and the next save replaces the damaged main file. |
| `GroupPanel.Panel.MakeLink` | main.py:1794-1869 | A new config joins its group's list in the same operation; a taken id changes nothing. |
| `GroupPanel.Panel.RemoveLink` | main.py:1877-1888 | A removed config leaves its group's list. |
| `GroupPanel.Panel.CreateGroup` | main.py:2099-2117 | A new group is empty; both sides keep agreeing exactly when no config names it already. |
| `GroupPanel.Panel.SetLinkSub` | main.py:2119-2154 | Lists first, then the config: the result is the specified move. |
| `GroupPanel.Panel.UpdateLink` | main.py:2335-2474 | The same move through the other entry point, config first and then the lists; an unknown group is refused. |
| `GroupPanel.Panel.DeleteGroup` | main.py:1117-1129 | Deleting a group, through either entry point, orphans exactly its configs. |
| `GroupPanel.Panel.CleanIds` | main.py:1042-1048 | The wanted list holds known ids, each once, in the order named. |
| `GroupPanel.Panel.SyncLinks` | main.py:1086-1102 | Configs that left are released, those that came are claimed, and exactly the ones taken from another group are remembered. |
| `GroupPanel.Panel.DetachMoved` | main.py:1103-1112 | Exactly the remembered configs leave the lists of their former groups. |
| `GroupPanel.Panel.UpdateSub` | main.py:1026-1114 | A bulk edit yields the specified members and pulls configs out of other groups on both sides. |
| `GroupPanel.Panel.AssignLink` | main.py:1133-1161 | Adding or removing one config equals the specification and keeps agreement exactly when the config is not in another group. |
| `GroupModel.SetMembersKeeps` | main.py:1050-1113 | After a bulk edit the group holds exactly the wanted configs, configs outside it keep their group, and both sides agree. |
| `GroupModel.AssignKeepsIff` | main.py:1132-1161 | The single assignment keeps the two-way relation if and only if the config is not in some other group. |
| `GroupModel.AssignLeavesOldEntry` | main.py:1132-1161 | The concrete case: a config of one group, assigned to another, stays on the first list. |
| `GroupModel.CreateKeepsIff` | main.py:2099-2113 | A new group keeps the relation if and only if its id is unused by configs. |
| `GroupModel.RunKeepsAgreement` | main.py:1026-1161 | Over any run of edits from every entry point, each list entry is unique and points back, and each config of an existing group is on its list. |
| `GroupRaces.SectionKeepsInv` | main.py:1789-2168 | Every section of a move, update, creation, removal, new or deleted group keeps the lists consistent with the edits under way. |
| `GroupRaces.InterleavedEditsAgree` | main.py:1789-2168 | However the sections of such edits interleave, both sides agree whenever no edit is under way, provided no two edits of one config overlapped. |
| `GroupRaces.UninterruptedIsWhole` | main.py:2119-2154 | Run without interruption the sections are the whole edits. |
| `GroupRaces.OverlapAgreesIff` | main.py:2119-2154 | Two overlapping moves of one config, the one that touched the lists last also setting the config last, agree exactly if the other had no target, the same target, or the place where the config was. |
| `GroupRaces.CrossedOverlapAgreesIff` | main.py:2119-2154 | In the other order they agree exactly if both targets are the same, or the second had none and the first was not the place where the config was. |
| `GroupRaces.OverlappingMovesDisagree` | main.py:2119-2154 | The proviso is needed: two overlapping moves of one config leave it on both lists. |
| `RouteModel.DirectExactlyWhenNoProxyWanted` | main.py:2049-2090 | Resolution answers "direct" if and only if the link has no enabled multi-location group and neither repository nor custom mode; no lookup failure does. |
| `RouteModel.LocationIsHonoured` | main.py:2054-2077 | A multi-location session gets the record of one active requested location out of exactly two, in that location's country, or is refused. |
| `RouteModel.PreferredExitIsHealthy` | main.py:1373-1385 | A country-preferred session leaves through a published proxy of its country whose last probe was healthy, even if the records changed in between. |
| `Outbound.PreferredByCountry` | main.py:1373-1385 | The filter keeps exactly the published proxies that exist, match their country and are healthy. |
| `Outbound.Connector.DialOnce` | outbound.py:178-281 | The handshake is spoken over the dialled socket; whatever goes wrong closes it, and an open one is handed on right behind the proxy's answer. |
| `Outbound.Connector.ProxyConnect` | outbound.py:284-305 | The transports are tried in their order until one works or the task is cancelled; the socket handed on stems from the first that opened. |
| `Outbound.Connector.OpenOutbound` | outbound.py:340-372 | The dials and the outcome of the specification; the failure table changes only for the one selected endpoint. |
| `Outbound.Connector.NoteFailure` | outbound.py:135-143 | A failure is counted up to eight with its cooldown; an overfull table loses the 512 entries closest to recovery. |
| `Outbound.Connector.Trim` | outbound.py:140-143 | Dropping entries keeps every one that recovers later than a dropped one. |
| `Outbound.Connector.RouteSession` | relay_vless.py:1075-1092 | A refused resolution ends the session with no dial and no change; otherwise the specified dials happen. |
| `DialModel.TriesStayOnTheProxy` | outbound.py:284-305 | Every dial goes to the proxy's own host and port over one of its transports. |
| `DialModel.TriesEnd` | outbound.py:284-305 | Connecting fails exactly when every transport broke, and succeeds exactly when a working one follows only broken ones. |
| `DialModel.TriesConserveSockets` | outbound.py:250-305 | Exactly the returned connection is left open. |
| `DialModel.OpenIsDirectExactly` | outbound.py:347-359 | The connector dials the destination itself if and only if every endpoint it was given is empty. |
| `DialModel.FailClosed` | relay_vless.py:1075-1092 | A session goes direct if and only if no proxy is configured or the selected endpoint is an empty string; a refusal dials nothing; every proxy dial is to the selected endpoint; sockets are conserved. |
| `DialModel.EmptyEndpointLeaks` | outbound.py:351-357 | A record with an empty endpoint, which the loader never makes, would be dialled directly: the premise of the next row is needed. |
| `DialModel.NeverLeaks` | outbound.py:3-14 | With endpoints that are not empty, a session goes direct if and only if no proxy is configured. |
| `DialModel.ProxiedSessionAsksForItsTarget` | outbound.py:146-281 | A session with a selected endpoint says nothing to its proxy, over any dials, but the handshake for its own host and port; once connected it has said all of it, the first packet last. |
| `DialModel.TriesAskForTarget` | outbound.py:284-305 | The same for one proxy over any transports and answers. |
| `DialModel.DirectSessionSendsItsPacket` | relay_vless.py:1089-1097 | A direct session sends its first packet once connected, and nothing before it. |
| `Repository.ParseText` | proxy_repository.py:143-177 | The loop over the lines of the list keeps exactly the records of the specification. |
| `Repository.ParsedTable` | proxy_repository.py:143-177 | At most 1000 records with different ids, each the validated endpoint of a line and named by it; every valid line is represented unless the table is full. |
| `Repository.LoadedTableNeverLeaks` | proxy_repository.py:126-177 | With the table the loader builds, a session goes direct if and only if no proxy is configured, and a repository link exits through the record it names. |
| `HandshakeModel.WillingAnswerOpens` | outbound.py:178-215 | A willing SOCKS5 answer is consumed exactly, meets one greeting, the login if asked for, one request and the first packet, and opens the tunnel unless that packet cannot be passed on in time. |
| `HandshakeModel.TunnelNeedsWillingAnswer` | outbound.py:178-215 | Nothing but a willing answer opens it: refused methods, failed logins, refused requests, unknown address types and short answers do not. |
| `HandshakeModel.SocksAsksForTarget` | outbound.py:178-209 | Whatever the proxy answers, it hears an opening, then at most one request for the target, then at most the first packet; with a tunnel it has heard all three. |
| `HandshakeModel.TargetKeepsItsForm` | outbound.py:146-157 | A host name goes to the proxy as a name and an address as an address, with the port; only names over 255 bytes are refused. |
| `TargetModel.AuthorityReadsBack` | outbound.py:228-230 | The authority of a CONNECT request reads back as the host without brackets and the port, also for addresses with colons. |
| `TargetModel.AuthoritiesDiffer` | outbound.py:228-230 | Different destinations are put differently. |
| `HandshakeModel.ConnectOpensIffSuccess` | outbound.py:263-275 | A complete head of admissible size is favourable if and only if its status is in the two hundreds, and exactly the head is consumed; the tunnel then opens unless the first packet cannot be passed on in time. |
| `HandshakeModel.UnfinishedHeadIsStarved` | outbound.py:266-268 | A head without its blank line never opens a tunnel. |
| `Handshake.ProxySocket.ReadReply` | outbound.py:160-171 | The reply reader consumes exactly one reply of any address type. |
| `Handshake.ProxySocket.SpeakSocks` | outbound.py:178-209 | The steps over the socket write, read and decide as the dialogue specification says. |
| `Handshake.ProxySocket.SpeakConnect` | outbound.py:257-275 | The same for HTTP CONNECT. |
| `HealthModel.ConsecutiveFailures` | outbound.py:131-139 | The n-th failure in a row sets 10 seconds doubled n - 1 times, at most 300, and touches no other endpoint. |
| `HttpReader.BodyStream.ReadLine` | outbound.py:405-407 | A line ends with its line feed or with the stream. |
| `HttpReader.BodyStream.SkipTrailers` | outbound.py:414-423 | Trailers end at a blank line or the end of the stream, within 32 KiB. |
| `HttpReader.BodyStream.ReadPieces` | outbound.py:401-427 | The chunk loop decodes as specified and stops exactly where the encoding ends. |
| `HttpReader.BodyStream.ReadBody` | outbound.py:388-434 | Every framing decodes as specified, with the reader positioned after the body. |
| `HttpModel.SizeReadsBack` | outbound.py:405-411 | A size line of either hexadecimal case, with leading zeros, blanks and extensions, reads back as its number. |
| `HttpModel.ChunkReadsBack` | outbound.py:401-427 | One encoded chunk contributes its data and nothing else. |
| `HttpModel.ChunkedRoundTrip` | outbound.py:401-427 | Every encoding under section 7.1 of RFC 9112 within the limits decodes to its contents, consuming exactly through the final blank line. |
| `HttpModel.BodyIsBounded` | outbound.py:388-434 | No response, however framed or malformed, yields more than 64 KiB or reads past the stream. |
| `HttpModel.LengthIsHonoured` | outbound.py:391-399 | A decimal length with any blanks around it takes precedence over chunking and yields exactly that many bytes, or fails because they are too many or too few. |
| `HttpModel.UntilCloseIsSureUpToOneByte` | outbound.py:429-434 | Without a length the body is whole under every segmentation if and only if at most one byte remains. |
| `HttpModel.SecondSegmentIsLost` | outbound.py:429-434 | Any body that arrives in two segments is cut after the first. |
| `RankModel.AverageWithin` | proxy_performance.py:15-35 | An average latency is in range whatever the probe reported. |
| `RankModel.ScoreMonotone` | proxy_performance.py:49-73 | At a fixed number of samples, more successes and lower averages never lower the score. |
| `RankModel.ScoreWithin` | proxy_performance.py:49-73 | The range of the score; a proxy without failures stays at 190000 or above however slow. |
| `RankModel.KeyOrder` | proxy_performance.py:80-94 | The compared tuples are totally ordered, ties broken by id. |
| `RankModel.ChosenIsBest` | proxy_performance.py:76-94 | A proxy is chosen exactly when one is healthy, and it is the unique best healthy one. |
| `RankModel.ChoiceIsCanonical` | proxy_performance.py:80-94 | The choice depends only on the set of healthy candidates and their own results: not on order, repetition or unhealthy ones. |
| `RankModel.ChoiceSurvivesRemoval` | proxy_performance.py:80-94 | Removing other candidates leaves the choice alone. |
| `RankModel.SuccessKeepsTheChoice` | proxy_performance.py:49-94 | Further successes of the chosen proxy never cost it the choice. |
| `Ranking.PreferredProxyId` | proxy_performance.py:76-94 | The candidate loop and the minimum compute the specified choice. |
| `Ranking.Preferences.Publish` | main.py:1399-1420 | Only a complete scan publishes or withdraws its country's choice; a changed record set asks for another scan; other countries are untouched. |

## Left out

- Telegram API calls, keyboards, message texts, admin wizards and polling: I/O and user interface.
- Timestamps beyond those that decide something, reviewers, last errors, audit lists and receipt contents: carried along without effect on any branch.
- Provisioning internals: success or failure without trace, as a parameter; a failed strict save after a link was inserted would break that assumption.
- Process crash or task cancellation while an order is in delivery: the store is not repaired on load.
- Edits of a link's quota, usage or speed during a session, and the bucket replacement a changed rate causes: limits are fixed per run.
- Rounding of floating point: rates, tokens, latencies and scores are reals; only `round` itself is modelled.
- Tokens taken by several tasks at once wait in turns; that one particular task is never starved by others is not promised by the code and not claimed.
- TLS, sockets, DNS, IDNA, base64, compression, S3 signing and URL splitting: abstract functions or answers of the world.
- Reads of the pump on interpreters without the buffer it detaches, and its exceptions by kind: a fault strikes at a read, a commit, a throttle or a write.
- The text encoding of requests, the token of a login and the encoding of names are library functions; TLS to a proxy succeeds or fails.
- Per-message compression in the WebSocket writer.
- The HTTP status line and header block: the body decoder starts after them, with the two fields that decide the framing.
- Other whitespace than that of Latin-1 around a requested location id.
- Adaptive write thresholds, route caches and socket tuning: they choose sizes and delays, not bytes or routes; which addresses are cooling down is a parameter.
- Interleavings with a bulk edit or a single assignment: those two are one step each, and the sets they loop over are visited in list order.
- Snapshots restored from the environment carry a version of their own; ordering of backups by age is proved for restarts that load from disk.
- Migration and normalisation of loaded state, snapshot encoding, and the storage probe.
- Which of several equally old failure entries is dropped first is left open.
- Proxy scans, their queue of pending countries beyond one publication, and the probe requests themselves.
- `psiphon/`, `pages.py`, `updater.py`, `countries.py`, `config_address.py`, `raw_tcp.py`, `transports.py` and the HTTP routes: not wired in, tables, string validation or user interface.
- VlessCollector.CollectHeader: the branch for a timeout during prefetching hands on no identity even when one was asked for, as the code does; `CollectModel.AcceptedIsReceived` promises an identity only without prefetching.
- StoreTheorems.FailureUndoesBegin: excludes top-ups, whose credit has no undo in the code; nothing between credit and approval can fail.
- TokenBucket.TokenBucket.ConsumeSlice: completion is proved for a consumer that is alone on the bucket; with others only the window bound holds.
- Race.RaceConnections: assumes no cancellation arrives while the losers are being cleaned up.
