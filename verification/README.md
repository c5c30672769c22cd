# The hub, modelled and proved

This project models the hub of a game-server control plane: the part that polls with plugins,
decides who may do what, brokers questions to plugins, dispatches actions, and pages through
stored data. The model follows the Go code, branch by branch, with each store transaction as one
atomic step. Text is a sequence of Unicode characters; where the Go code counts bytes, the two
counts differ only for text outside ASCII, which every grammar here refuses.

`dafny verify dfyconfig.toml` checks the whole project.

## What is proved, in brief

- **Delivery, both ways** (`Uplink`, `UplinkSteps`, `Downlink`, `DownlinkSteps`, `Redelivery`,
  `QueueOrder`, `Ranks`, `KeyOrder`, `Overtaking`, `OutOfOrder`, `Envelopes`, `PollApply`, `EventFeed`, `Plugin`). Step
  systems of plugin, network, overlapping polls and hub, where every request and response may be lost, repeated or delayed and
  sessions change at any time. Over every run nothing framed or queued is lost; first effects come
  in framing order and deliveries in the seq order of their session, with no gap and no repeat; what
  is sent again is what was sent; a usable event batch is stored by the time it is accepted, and no
  two copies of an event ever stand in the feed. Deliveries come in queue order under the exact
  conditions below.
- **Holding polls** (`WaitLists`, `Wakeups`, `WakeupSteps`, `Hold`). The registries as classes, every interleaving
  of queueing and waiting as a step system whose table the registry is proved to carry out, and the
  hold loop against both.
- **The enumeration broker** (`Enumerations`), a class whose invariant ties its three maps to the
  history of every question ever asked.
- **Authorization** (`Scopes`, `Grants`, `Names`, `Feeds`, `Tokens`, `Webhooks`, `WebhookRaces`). Coverage
  decides inclusion of languages exactly, feeds are narrowed exactly, minting never escalates, and
  races of webhook edits never widen an export.
- **Dispatch** (`Dispatch`, `DispatchSteps`), against manifests published at any moment.
- **Walks and specificity** (`Walks`, `KVWalk`, `BanWalk`, `BanSteps`, `BanCursor`, `Base64url`, `Octetted`,
  `Retention`, `ByteOrder`). Walks are the cursor strings of one answer fed into the next request,
  each with a limit of its own, over stores that change in between.

`Text` and `Wrappers` hold what the models share. Beside each step system stands an account of what
its steps do, told over the tables and not through the functions the steps are made of.

## What turned out not to hold

Each of these is a lemma giving the exact condition, and where it helps a concrete case.

- *A batch the hub sends ascends by seq.* The queue is read in (created_at, id) order
  (`hub/store/envelopes.go:190-195`) and ids minted in one millisecond sort arbitrarily
  (`hub/internal/id/id.go:26-28`), so a row queued later can be read before rows already numbered
  and is sent ahead of them with a higher seq. In every reachable state the batch ascends if and
  only if the rows read that the session has numbered come first and in seq order
  (`QueueOrder.BatchAscendsIff`), and over every run the one step that ends that order is an
  envelope queued in front of a numbered one (`QueueOrder.OnlyOvertakingDisorders`), which a caller
  can see at the insert. `Overtaking.BatchOutOfOrder` is a reachable case; `QueueOrder.OvertakenStalls`
  is what the first such response delivers to a plugin that takes what it can (an earlier response
  still in flight can deliver more), and the conformance plugin refuses such a response outright
  (`conformance/hub/plugin.go:182-185`, `Plugin.FakePlugin.PollAndAck`). While nothing overtakes,
  batches go on from the outbound ack (`QueueOrder.BatchesAscend`).
- *A session's envelopes are processed in (created_at, id) order, the one the queue is read in.* A
  read keeps that order exactly when every row it numbers sorts behind all its session has numbered
  (`KeyOrder.NumbersInOrderIff`, of any read in any reachable state
  `KeyOrder.ReadKeepsKeyOrderIff`), and over every run all sessions number in it exactly when every
  read does (`KeyOrder.NumberedInKeyOrderIff`). It fails even where every batch ascends:
  `OutOfOrder.ProcessedAgainstKeys`. Queueing each envelope behind what the latest session has
  numbered is enough (`KeyOrder.SortsBehindReads`).
- *They are processed in the order they were queued.* The same theorem of that order: what a plugin
  has processed is in it exactly when each read that numbered any of it numbered that in order
  (`Ranks.ProcessedInOrderIff`). One read that finds two envelopes hands them out by id, whichever
  was queued first: `OutOfOrder.ProcessedAgainstArrival`. Queueing each behind everything still
  queued is enough (`Ranks.ProcessedInOrder`).
- *A later response never lowers a reported ack* (`hub/poll.go:373-376`). It holds relative to the
  response's last database read only: `Uplink.ReportedAck`, with the run `Uplink.AckReportedLower`.
- *An event batch is stored at most once.* Two copies of an event never stand in the feed together
  (`EventFeed.OneCopyStands`), but a batch is stored again exactly when its dedup marker was swept
  since (`EventFeed.StoredAgainIff`, `EventFeed.StoredTwice`), which is after the last of its events
  was deleted (`EventFeed.SweptStandsNowhere`).
- *Classification is idempotent.* It is, exactly when the batch does not hold the seq after the ack
  it was answered with, as an ascending batch never does:
  `Envelopes.RetransmissionAcceptsNothing`, `Envelopes.UnsortedBatchMovesTwice`.
- *A subscription covers what it exports.* True of every notification the hub sends. Acceptance
  asks that and one thing more: that the caller may read each undotted type named, which nothing
  sent ever has (`Webhooks.SubscriptionExactly`). A reserved type outside the four lifecycle ones,
  such as `audit.other`, is accepted from a caller with no grants (`Webhooks.ReservedTypesEscape`).
- *Printing a parsed scope gives its text.* For every text but `admin:` (`Scopes.PrintAfterParse`).
- *An empty filter list means nothing is selected.* It means everything, so narrowing is exact if
  and only if the route gate admitted the caller (`Feeds.NarrowedFilters`).
- *Two rounds settle a dispatch* (`hub/action.go:147-152`). The loop validates up to three times
  (`Dispatch.RetryLoop`); the code is what is modelled.
- *A cursor the hub did not issue is refused* (`hub/kv.go:422-425`). Go's decoder also takes line
  ends and ignores the spare bits of the last quantum: `KVWalk.AcceptedIsIssued`,
  `KVWalk.LineEndAccepted`.
- *Retention does not depend on rule order.* Exactly when the most specific rules agree on the TTL,
  which one rule per pattern guarantees (`Retention.OrderIrrelevantIff`,
  `Retention.DistinctPatternsAgree`).

## Model

| member | source | states |
|---|---|---|
| Uplink.NothingLost | conformance/hub/plugin.go:148-156 | over every run of lost, repeated and delayed polls and any session changes, every envelope the plugin framed is still buffered or was accepted |
| Uplink.FirstEffectsInFramingOrder | hub/poll.go:144-241 | envelopes first take effect in framing order, none skipped |
| Uplink.CommitsInSeqOrder | hub/envelope.go:149-165 | what a session accepted, in commit order over overlapping polls, is exactly seq 1 up to its committed ack |
| Uplink.EventsStoredOnce | hub/store/events.go:63-97 | while nothing is pruned, an event batch is in the feed at most once, across retransmissions and sessions |
| Uplink.InsertEventBatches | hub/store/events.go:63-97 | the loop that claims and stores batches is Ingest, which the feed's guarantees are about |
| Uplink.AcceptedBatchIsStored | hub/store/envelopes.go:447-584 | a usable batch an application accepts is in the feed once it commits |
| EventFeed.OneCopyStands | hub/store/events.go:354-391 | however a batch is retransmitted and whatever is pruned or swept in between, at whatever times, the feed never holds two rows of one event |
| EventFeed.IngestAdds | hub/store/events.go:60-176 | in every reachable state an ingest of an unmarked batch adds a row for each of its events, under the ids that follow and to be kept for its own retention, leaves every other row, adds no more, and marks the batch for the longest of them |
| EventFeed.IngestIgnores | hub/store/events.go:76-91 | an ingest of a marked batch, or of no events, changes nothing |
| EventFeed.PruneDeletes | hub/store/events.go:345-391 | a prune deletes exactly the rows it names, all past their retention, and a sweep exactly the markers it names, each expired with no expired event of its server standing |
| EventFeed.KeptUntilExpired | hub/store/events.go:345-359 | over every run a stored row stays as it was until a prune deletes it, and none does before its retention ends |
| EventFeed.StandingBatchIsNotStored | hub/store/events.go:60-97 | while one event of a batch stands, expired or not, another ingest of it stores nothing |
| EventFeed.StoredAgainIff | hub/store/events.go:60-97 | a batch of which a row was added gets a new row by a later ingest if and only if its marker was swept since |
| EventFeed.SweptStandsNowhere | hub/store/events.go:367-391 | a marker is swept only when every event of its batch has been deleted |
| EventFeed.StoredTwice | hub/store/events.go:354-391 | a run in which a batch is stored, its row is pruned, its marker swept, and a new row of the same event stored |
| EventFeed.LongestRetention | hub/store/events.go:72-75 | the loop finds the longest retention of a batch, and no less than zero |
| EventFeed.RunKeeps | hub/store/events.go:63-97 | in every reachable state each event row is guarded by a marker that expires no earlier |
| Uplink.CommittedNeverFalls | hub/store/envelopes.go:447-584 | no step lowers a session's committed ack or takes back anything stored |
| Uplink.ReportedAck | hub/poll.go:404-419 | a response's ack is at most the committed one, and below one already reported exactly when that one was reported after this poll's last read |
| Uplink.AckReportedLower | hub/poll.go:373-376 | a reachable run in which a later response reports a lower ack |
| Uplink.RunKeeps | hub/store/envelopes.go:431-584 | every reachable state of the plugin-to-hub system satisfies its invariant |
| UplinkSteps.OtherSessionRefused | hub/store/envelopes.go:42-56 | a poll of a session that is not the live one, ended or superseded, is refused: it is over, and nothing the hub holds changes |
| UplinkSteps.OnlyLiveCommits | hub/store/envelopes.go:447-584 | over every run an ack moves, an envelope takes effect and a batch is stored only by applying a poll of the live session |
| UplinkSteps.ApplyCommits | hub/store/envelopes.go:447-584 | applying a poll of the live session commits and answers the ack of its classification, gives effect to what that accepts in order, stores the usable batches not yet claimed once each in the order they came, and changes nothing else |
| UplinkSteps.PollAnswers | hub/poll.go:404-419 | a read or refresh of the live session raises the poll's ack to the committed one and never lowers it, and the response carries it |
| UplinkSteps.TrimKeeps | conformance/hub/plugin.go:148-156 | what an ack leaves in any buffer is exactly the envelopes above it |
| UplinkSteps.PluginSteps | conformance/hub/plugin.go:118-156 | the plugin frames at the next seq, sends what it buffers, and drops by a response of its own session exactly what its ack covers |
| UplinkSteps.SessionSteps | hub/store/envelopes.go:42-56 | a started session is live with nothing committed, an ended one leaves none live, and adopting a session renumbers the buffer from 1 |
| Uplink.TrimDrops | hub/poll.go:58-60 | an ack trims a consecutively numbered buffer from the front, exactly up to itself |
| Downlink.NothingLost | hub/store/envelopes.go:101-146 | whatever was queued is queued still, was processed, or was a dispatch retired before any session numbered it |
| Downlink.LeavesOnlyProcessed | hub/store/envelopes.go:287-333 | a row leaves the queue only by an ack of the session and seq at which the plugin processed it, or by expiry while never numbered |
| Downlink.ProcessedInSeqOrder | conformance/hub/plugin.go:198-211 | within a session the plugin processes the ids the hub numbered, from seq 1, with no gap and no repeat |
| Redelivery.RetransmittedUnchanged | hub/envelope.go:66-82 | two deliveries of one id carry the same type, timestamp and body in whatever sessions, and within a session the same seq, over every run that also rewrites queued notices in place |
| Redelivery.QueuedAsSent | hub/store/bans.go:449-478 | what is still queued after it was sent says what was sent, and no refresh can touch it |
| Redelivery.RunKeepsContent | hub/store/bans.go:449-478 | in every reachable state the queue, the polls and the responses all say what was last stored for each id |
| Downlink.NumberBatch | hub/store/envelopes.go:210-252 | the numbering loop: numbered rows keep their seq, the others take the next ones in order |
| Downlink.AckedWereProcessed | hub/poll.go:102-115 | every row an ack removes was processed in that session |
| Downlink.RunKeeps | hub/store/envelopes.go:170-333 | every reachable state of the hub-to-plugin system satisfies its invariant |
| DownlinkSteps.AckFrees | hub/store/envelopes.go:287-333 | acks are cumulative: one of the live session, above its last and within what it numbered, becomes its ack, and a row stays queued if and only if it is not of that session with a seq up to it |
| DownlinkSteps.OtherAcks | hub/store/envelopes.go:287-311 | an ack of 0 and a stale one change nothing; one out of range, or of a session that is not live, ends the poll and changes nothing |
| DownlinkSteps.ReadNumbers | hub/store/envelopes.go:170-275 | a read of the live session sends the first 200 rows, those it has numbered as they were and the others under the seqs after its last in queue order, and the queue and the session's last seq move to match |
| DownlinkSteps.ReadEnters | hub/store/envelopes.go:210-252 | each id newly given a seq is in the session's ledger at that seq |
| DownlinkSteps.OtherSessionReadsNothing | hub/store/envelopes.go:170-189 | a read of any other session ends the poll and numbers nothing |
| DownlinkSteps.Enqueues | hub/store/envelopes.go:101-146 | an envelope joins the queue unnumbered at its place in (created_at, id) order, unless the queue is at its limit of 5000 |
| DownlinkSteps.RefreshRewrites | hub/store/bans.go:449-478 | a ban revision rewrites the bodies of exactly the ban notices no session has numbered |
| DownlinkSteps.ExpireRetires | hub/store/actions.go:260-303 | expiry takes out one row, and only one never numbered |
| DownlinkSteps.ReceiveTakes | conformance/hub/plugin.go:198-211 | of a response of its session a plugin takes the longest run that continues its ack, of another nothing |
| DownlinkSteps.NetworkSteps | hub/poll.go:102-115 | the plugin acks what it has processed; requests and responses carry what they were made of |
| DownlinkSteps.SessionSteps | hub/store/envelopes.go:282-333 | a started session has numbered and acked nothing and leaves the queue as it was |
| DownlinkSteps.OnlyLiveMoves | hub/store/envelopes.go:170-333 | over every run a session's ack and last seq move only while it is live, by an ack carrying that value and by a read |
| QueueOrder.NewSessionNumbersFromOne | hub/store/envelopes.go:226-242 | a session that has numbered nothing sends the front of the queue as 1, 2, 3, ... in queue order, whatever its order was before |
| QueueOrder.SendsAscendIff | hub/store/envelopes.go:190-195 | of any queue, the batch ascends by seq if and only if the rows numbered in the session come first in what is read, in seq order |
| QueueOrder.BatchAscendsIff | hub/store/envelopes.go:190-195 | the same of the batch of any read in any reachable state |
| QueueOrder.AscendsUnlessOvertaken | hub/store/envelopes.go:190-195 | an insert into a queue in order leaves it so if and only if the row sorts behind every numbered one; the next batch ascends if and only if it sorts behind those the batch still holds |
| QueueOrder.OnlyOvertakingDisorders | hub/store/envelopes.go:101-195 | over every run a queue in order is put out of order by an envelope queued in front of a numbered one, and by no other step |
| QueueOrder.OvertakenStalls | conformance/hub/plugin.go:203-209 | of the response it is first sent in, a plugin whose acks have arrived takes the rows in front of an overtaking row and nothing from it on |
| Overtaking.BatchOutOfOrder | hub/internal/id/id.go:26-40 | a reachable poll is sent seq 2 ahead of seq 1 |
| QueueOrder.BatchesAscend | hub/store/envelopes.go:170-275 | in runs where nothing is queued in front of a numbered row every batch is the front of the queue, numbered on from the outbound ack |
| Ranks.NumbersInOrderIff | hub/store/envelopes.go:210-252 | for any order of the envelopes, a read keeps the first n seqs of a session in it if and only if every row it gives one of them comes after all numbered before |
| Ranks.NumberedInOrderIff | hub/store/envelopes.go:170-275 | over every run, the first n envelopes a session numbers are in that order if and only if each of its reads numbered in order, as far as those go; the order is the one of reading or the one of queueing |
| Ranks.ProcessedInOrderIff | conformance/hub/plugin.go:198-211 | what a session's plugin has processed is in that order if and only if each read that numbered any of it numbered that in order |
| Ranks.ProcessedInOrder | hub/store/envelopes.go:101-195 | queued behind everything still queued, envelopes are processed in the order they were queued; queued behind what the latest session has numbered, in the order the queue is read in |
| OutOfOrder.ProcessedAgainstArrival | hub/internal/id/id.go:26-40 | a reachable state whose plugin processed "b" before "a" though "a" was queued first |
| OutOfOrder.ProcessedAgainstKeys | hub/store/envelopes.go:190-195 | a reachable state whose plugin processed "a" before "b" though "b" sorts in front |
| KeyOrder.NumbersInOrderIff | hub/store/envelopes.go:210-252 | a read keeps (created_at, id) order if and only if every row it numbers sorts behind all the session has numbered |
| KeyOrder.ReadKeepsKeyOrderIff | hub/store/envelopes.go:170-275 | the same of any read in any reachable state |
| KeyOrder.NumberedInKeyOrderIff | hub/store/envelopes.go:170-275 | over every run, all sessions number in (created_at, id) order if and only if every read numbers behind what its session had numbered |
| KeyOrder.SortsBehindReads | hub/store/envelopes.go:101-195 | inserts behind what the latest session has numbered make every read do so |
| KeyOrder.ProcessedInQueueOrder | hub/poll.go:404-432 | in runs whose reads number behind, a session's plugin processes envelopes in (created_at, id) order |
| KeyOrder.SortedBehindNotOvertaken | hub/store/envelopes.go:190-195 | in runs that queue behind what the session has numbered nothing is overtaken |
| QueueOrder.SendsConsecutiveIff | hub/store/envelopes.go:210-252 | a batch counts on from an ack if and only if the rows read do |
| QueueOrder.UpToDateDeliversIff | conformance/hub/plugin.go:198-211 | in every reachable state a plugin whose acks have arrived takes delivery of the whole next batch if and only if the rows read go on from its ack |
| QueueOrder.UpToDatePollDelivers | conformance/hub/plugin.go:198-211 | while nothing overtakes, it always does |
| Envelopes.ClassifyInbound | hub/envelope.go:149-165 | the loop computes the specification Classify |
| Envelopes.AcceptsLongestChain | hub/envelope.go:149-165 | what is accepted is the longest contiguous chain from the ack that arrival order allows, and every envelope is accepted, a duplicate or gapped |
| Envelopes.ClassifiesEach | hub/envelope.go:149-165 | each envelope is judged by the ack the ones before it left: the next is accepted, one at or below it counted a duplicate, one further above it counted gapped |
| Envelopes.BatchesCompose | hub/envelope.go:142-165 | classifying two batches in turn moves the ack as classifying them joined does |
| Envelopes.AckMonotone | hub/envelope.go:142-165 | a later starting ack never ends lower |
| Envelopes.RetransmissionAcceptsNothing | hub/envelope.go:142-165 | a batch sent again accepts nothing exactly when it lacks the seq after its answer; an ascending one always does |
| Envelopes.UnsortedBatchMovesTwice | hub/envelope.go:149-165 | `[2, 1]` moves the ack to 1 and then, again, to 2 |
| PollApply.Closure.Run | hub/poll.go:144-241 | one run of the closure, whatever an earlier run left: each list holds in order exactly what the accepted envelopes prepared for it, each counter counts the refusals of its own kind, the notices are the first twenty refusals, and an event batch is stored if and only if it is replayed or fits beside the new events stored before it |
| PollApply.Closure.Place | hub/poll.go:171-239 | the loop body: one envelope's disposition, its list or counter, and the budget it spends |
| PollApply.Closure.Queue | hub/poll.go:160-169 | a refusal past twenty notices is counted instead of queued |
| PollApply.ClassificationConserves | hub/poll.go:144-241 | nothing is lost or counted twice: the lists and counters account for every accepted envelope, refusals are notices plus suppressed, and notices are the first twenty refusals in order |
| PollApply.RunFiles | hub/poll.go:144-241 | the same of the fold the closure is proved to carry out, told from what the poll prepared and accepted and not from its cases |
| PollApply.BudgetHolds | hub/poll.go:195-220 | at most 1000 events are newly charged, none refused for budget before more than 800 were, replays are never charged |
| PollApply.DuplicatesApplyNothing | hub/envelope.go:152-153 | a poll of nothing new applies nothing |
| Plugin.FakePlugin.NextOutbound | conformance/hub/plugin.go:118-133 | frames at the next seq |
| Plugin.FakePlugin.Renumber | conformance/hub/plugin.go:152-156 | moves only the seq, to the next one |
| Plugin.FakePlugin.ReconnectRenumbering | conformance/hub/plugin.go:106-115 | a reconnect renumbers the buffer from 1 in order, as Uplink's Adopt step does |
| Plugin.FakePlugin.PollAndAck | conformance/hub/plugin.go:160-211 | refuses a batch out of order whole, and otherwise processes exactly what Downlink's Receive step does |
| WaitLists.Waiters.Wait | hub/waiters.go:25-48 | registers one lowered signal under an id never used before |
| WaitLists.Waiters.Release | hub/waiters.go:39-47 | removes that registration and no other, and keeps no empty key |
| WaitLists.Waiters.Notify | hub/waiters.go:51-61 | raises exactly the signals of the key |
| WaitLists.IndexInsert | hub/waiters.go:29-37 | filing a registration keeps the nested maps and the registrations in agreement |
| WaitLists.IndexRemove | hub/waiters.go:39-47 | so does removing one |
| WaitLists.Holds.Enter | hub/waiters.go:81-90 | grants a claim exactly when the key has fewer open claims than the limit |
| WaitLists.Holds.Release | hub/waiters.go:90-98 | gives a claim back once, and again does nothing |
| WaitLists.CountsInsert | hub/waiters.go:85-88 | the counts are the numbers of open claims, before and after a grant |
| WaitLists.CountsRemove | hub/waiters.go:91-97 | and after a release, with no key kept at zero |
| Wakeups.NoLostWakeup | hub/poll.go:404-453 | in every interleaving a parked poll with announced work for its server has its signal raised |
| Wakeups.RaisedSignalDelivers | hub/poll.go:441-453 | and can then wake, release, register and read, and finds work |
| Wakeups.RegistrationsReleased | hub/poll.go:404-473 | a registration belongs to a poll still in its loop; when all have returned, by an answer, a failed read or a departure, there is none |
| WakeupSteps.ReadFinds | hub/poll.go:404-432 | a read finds work exactly when something is queued for its server |
| WakeupSteps.QueueSteps | hub/waiters.go:51-61 | what is committed stays queued until removed, and a notification raises the signals of its server's registrations and no others |
| WakeupSteps.LoopSteps | hub/poll.go:404-473 | a registration has a new id and a lowered signal, a select ends by taking a raised signal or by the timer, and whoever leaves gives its registration back |
| Wakeups.RegisterIn | hub/waiters.go:25-48 | a registration changes the registry as the system's Register step changes its table |
| Wakeups.ReleaseIn | hub/waiters.go:39-47 | a release as its Release step |
| Wakeups.NotifyIn | hub/waiters.go:51-61 | and a notification as its Notify step |
| Hold.BacklogFloor | hub/poll.go:353-364 | the lowest seq of a poll saying more, 0 for any other |
| Hold.FloorIsLowest | hub/poll.go:347-364 | the floor is carried and nothing carried is below it |
| Hold.Hold | hub/poll.go:404-473 | the hold loop answers as specified and gives its registration back on every way out |
| Hold.HoldPoll | hub/poll.go:377-403 | and its hold slot too |
| Hold.AnsweredWhen | hub/poll.go:404-473 | every answer of a held poll: of the first round that finds work, fails, is cancelled, finds the session gone or may not hold on, with the highest ack it was told of; while none does it is held |
| Hold.KnownIsHighest | hub/poll.go:373-376 | the ack answered is the highest the poll was told of, and one it was told of |
| Hold.DrainsUnlessGapped | hub/poll.go:347-352 | a poll saying more is released at once exactly when its batch reaches down to the ack; an empty or gapped one is held |
| Hold.DrainShrinks | hub/poll.go:368-371 | a plugin released by the drain holds strictly less after trimming by the answer |
| Enumerations.Broker.Cached | hub/contexts.go:265-272 | an answer is handed out exactly when one is held under the bound, and it is a fault-free reply to a question of that very key, revision included, delivered within the bound |
| Enumerations.Broker.Join | hub/contexts.go:277-297 | joins the open question of the key unless it is past its deadline, else opens one |
| Enumerations.Broker.Sweep | hub/contexts.go:302-311 | closes exactly the questions past their deadline, with the timeout |
| Enumerations.Broker.Abandon | hub/contexts.go:315-324 | an open question is closed with the error, a closed one left alone |
| Enumerations.Broker.Expire | hub/contexts.go:329-338 | the question is closed afterwards, whoever closed it |
| Enumerations.Broker.Deliver | hub/contexts.go:344-369 | matches exactly an open question of that server and id, answers or fails it, and caches only an answer |
| Enumerations.Broker.Forget | hub/contexts.go:372-377 | removes the question from both maps and keeps them in bijection |
| Enumerations.Broker.Prune | hub/contexts.go:383-389 | drops exactly the answers past the bound |
| Enumerations.Broker.Await | hub/contexts.go:498-509 | a reader that stays finds the question closed, with an answer that echoes it or its error |
| Enumerations.OneOpenPerKey | hub/contexts.go:285-296 | at most one question per key is open |
| Enumerations.LinksForget | hub/contexts.go:372-377 | unregistering one question keeps the two maps naming the same questions |
| Enumerations.LinksJoin | hub/contexts.go:288-296 | so does registering one |
| Enumerations.ValidateContextEntries | hub/contexts.go:120-203 | faults or an enumeration, never both or neither; an enumeration exactly for a conforming body; the request id whenever it is one the hub could assign |
| Scopes.PrintAfterParse | hub/scope.go:99-165 | printing a parsed scope gives the trimmed text, except for `admin:` |
| Scopes.ParseAfterPrint | hub/scope.go:99-165 | a printed scope parses back to itself |
| Scopes.CoversExactly | hub/scope.go:334-350 | a caller covers a pattern if and only if it is allowed every value the pattern matches |
| Scopes.CoversExactlyNames | hub/scope.go:334-350 | of a pattern the hub accepts, the dotted names it accepts decide that alone |
| Scopes.CoversSound | hub/scope.go:215-236 | covering a pattern allows each value it matches, implied grants included |
| Scopes.CoversComplete | hub/scope.go:334-350 | one value escapes every grant of a caller that does not cover the pattern |
| Scopes.CoversOneValue | hub/scope.go:315-350 | for a concrete value, covering and allowing agree |
| Grants.MatchMeans | hub/internal/pattern/pattern.go:1-25 | a pattern matches every value, one value, or those under a stem and a dot |
| Grants.AllowsIff | hub/scope.go:315-330 | a caller may act on a value if and only if a scope of it is admin, or grants the verb or one that implies it under a pattern for the value |
| Grants.AllowsAnyIff | hub/scope.go:292-312 | the route gate opens if and only if there is a value the caller may act on |
| Grants.ParsesIff | hub/scope.go:99-150 | a text parses to a scope if and only if the scope has a known resource and verb, and a valid pattern where its kind takes one, and the trimmed text writes it |
| Names.ValidKVName | hub/kv.go:36-57 | the one-pass scanner accepts exactly the split-by-dot grammar within the length |
| Names.CheckRedactPath | hub/webhooks.go:264-282 | the splitting scan accepts exactly the valid redaction paths |
| Names.CheckEventType | hub/events.go:157-183 | and exactly the valid event types |
| Names.CheckScopePattern | hub/scope.go:168-200 | and exactly the valid scope patterns |
| Names.OneGrammar | hub/webhooks.go:264-282 | a redaction path is valid exactly when it is a dotted name of at most 128 characters |
| Names.ScopePatternMeans | hub/scope.go:168-200 | a scope pattern is the catch-all, a dotted name, or one followed by a dot and a star, within 128 characters |
| Names.LegalValuesAreExactPatterns | hub/scope.go:168-200 | every legal event type and key namespace is a legal exact scope pattern |
| Feeds.PatternFilters | hub/players.go:235-246 | the filters admit exactly what the patterns match |
| Feeds.GrantPatterns | hub/scope.go:357-372 | the patterns held, or unbounded, exactly as the grants say |
| Feeds.NarrowedFilters | hub/scope.go:357-372 | narrowing selects exactly the granted values if and only if the route gate passed |
| Feeds.ActionReadFilters | hub/players.go:251-266 | the codes selected are exactly those readable through read or dispatch grants, given the gate |
| Feeds.ParseEventTypeFilters | hub/events.go:520-570 | an explicit filter selects exactly the union of its terms, and malformed terms are refused |
| Feeds.EventFilters | hub/events.go:490-514 | a feed with a filter selects its terms and only permitted types; without one, exactly the permitted types |
| Feeds.LegalTermMeans | hub/events.go:520-570 | a filter term is the catch-all, an event type, or a star after a dotted name that leaves room for a segment |
| Tokens.ParseRequestedScopes | hub/tokens.go:238-272 | the scopes minted are the printed forms of the requested texts, each once and nothing else, and every stored grant is one the minter covers; if one text is not held or does not parse the request is refused |
| Tokens.MintedWithinMinter | hub/tokens.go:238-272 | whatever a minted token permits its minter permits, implied reads included |
| Tokens.ChainWithinRoot | hub/tokens.go:238-272 | along any chain of mints, what the last token permits the first does |
| Webhooks.SubscriptionCoverage | hub/webhooks.go:670-708 | the loop of need flags accepts exactly what each pattern's rule accepts |
| Webhooks.SubscriptionCoversExports | hub/webhooks.go:670-735 | an accepted filter admits only notifications the caller may export |
| Webhooks.SubscriptionExactly | hub/webhooks.go:670-735 | over any valid patterns, acceptance is exactly that the caller may export whatever is admitted, read servers if it names some, and read each undotted type named |
| Webhooks.ReservedTypesEscape | hub/webhooks.go:670-735 | for a type, acceptance implies coverage for all callers if and only if it is a lifecycle type or not reserved |
| Webhooks.CoveredMeans | hub/webhooks.go:710-735 | exporting a finished action takes reading every action, a link servers, the audit namespace admin, telemetry that very type |
| WebhookRaces.RacesNeverWiden | hub/webhooks.go:344-520 | over any race of registrations, edits, fan-outs, deliveries and replays, every row's filter was covered by its last writer and each delivery's type by whoever last sent it where it goes |
| WebhookRaces.CommitCovers | hub/webhooks.go:344-418 | an edit that commits was covered against the row it found, and a moved URL takes along only types the editor covers |
| WebhookRaces.WebhookMatches | hub/internal/webhook/match.go:58-89 | the two searches: the server is named or none is, a filter admits the type or there is none, and the audit namespace needs a filter of its own and the grant |
| WebhookRaces.DeliverySteps | hub/internal/webhook/dispatch.go:103-135 | a notification is queued for a webhook if and only if it concerns it; settling, replaying and pruning move the one delivery they name |
| WebhookRaces.CommitMerges | hub/store/webhooks.go:188-310 | a commit merges what the edit gives into the row it finds if its caller may write that row, and is dropped otherwise; no other row or edit changes |
| WebhookRaces.RowSteps | hub/store/webhooks.go:84-120 | a covered registration adds the row as asked for and a deletion takes out one row |
| Dispatch.ValidateDispatch | hub/action.go:256-318 | the search passes exactly when the stored manifest's first declaration of the code accepts the params |
| Dispatch.RetryLoop | hub/action.go:153-221 | answers by its last round: accepted exactly for a new action or a replay whose code the caller may dispatch, forbidden for any other replay, refused for what validation found, queue full from the store; each earlier round lost to a publish, and it gives up exactly when three do |
| Dispatch.InsertedWasApproved | hub/store/actions.go:107-128 | in every interleaving an action is inserted only under a stored manifest that approves it |
| Dispatch.KeyNamesOne | hub/store/actions.go:137-147 | a server's idempotency key names at most one action |
| Dispatch.AcceptedIsDispatchable | hub/action.go:239-251 | every accepted answer names an action of that server and key whose code the caller may dispatch |
| Dispatch.ReplayIgnoresManifest | hub/action.go:112-129 | a bound key is answered with its action whatever the manifest now says |
| Dispatch.AtMostThreeRounds | hub/action.go:153-190 | no request is ever past its third validation |
| DispatchSteps.LookupAnswers | hub/action.go:106-129 | a code the caller may not dispatch is forbidden, a bound key is answered with its action, and any other request goes on to validation |
| DispatchSteps.JudgeIs | hub/action.go:256-318 | the verdict on a stored manifest is the one its first declaration of the code gives: accepted, params invalid, schema broken, or undeclared |
| DispatchSteps.ValidateAnswers | hub/action.go:256-318 | a validation refuses for that reason, or lets the request be stored under the revision validated |
| DispatchSteps.StoreAnswers | hub/store/actions.go:86-185 | a store under another manifest loses the round, a key bound meanwhile is replayed, a full queue refuses, and otherwise exactly the action asked for is inserted |
| Retention.RetentionFor | hub/events.go:84-107 | the TTL of the first most specific rule with a positive one, else thirty days |
| Retention.NoTies | hub/events.go:113-126 | distinct patterns never tie on a type both match |
| Retention.ScoreMeans | hub/events.go:113-126 | a pattern scores 0 for the catch-all, one past the length for the type itself, the matched prefix for a namespace it is under, and -1 exactly when none of these |
| Retention.SpecificityOrder | hub/events.go:108-126 | exact above longer prefix above shorter above the catch-all |
| Retention.OrderIrrelevantIff | hub/events.go:84-107 | every order of the rules gives one TTL exactly when the most specific rules agree |
| Retention.DistinctPatternsAgree | hub/events.go:84-126 | with one rule per pattern they always do |
| Base64url.DecodeOfEncode | hub/kv.go:418-420 | what is encoded decodes to itself |
| Base64url.EncodeOfDecode | hub/kv.go:436-439 | a text that decodes is an encoding exactly when it is canonical |
| Base64url.SymbolIs | hub/kv.go:418-420 | the symbols are the URL alphabet of RFC 4648, section 5 |
| Base64url.QuantaAre | hub/kv.go:418-420 | one, two and three octets are cut into sixes from the most significant bits, unpadded |
| KVWalk.PrefixSelects | hub/store/kv.go:374-390 | the byte range selects exactly the keys with the prefix |
| KVWalk.ParseKVCursor | hub/kv.go:426-446 | no cursor is the first page, a cursor that does not decode to a key is refused |
| KVWalk.IssuedParsesBack | hub/kv.go:414-446 | every cursor issued parses back to its key |
| KVWalk.AcceptedIsIssued | hub/kv.go:422-446 | an accepted cursor is one the hub issues if and only if it is canonical |
| KVWalk.LineEndAccepted | hub/kv.go:436-446 | any issued cursor is also accepted with a line end after it |
| KVWalk.ListKVKeys | hub/kv.go:343-371 | a cursor that does not parse is refused; otherwise the page is the first rows read after the key it names, with a cursor exactly when a row is left, naming its last key |
| KVWalk.CursorsWalk | hub/kv.go:343-371 | feeding each answer's cursor string into the next request, with any limits, is a walk that resumes where each page ended |
| KVWalk.KeysWalked | hub/kv.go:343-371 | such a walk over changing stores is strictly ascending, lists every key with the prefix live throughout and nothing that was never live |
| Walks.PageDivides | hub/kv.go:343-362 | a page and its cursor divide what follows, with nothing skipped between them |
| Walks.WalkAscends | hub/kv.go:343-371 | a walk is strictly ascending whatever changes between its pages |
| Walks.WalkMeets | hub/kv.go:343-371 | it meets whatever is there at every page |
| Walks.WalkIsExact | hub/bans.go:416-465 | over a list that does not change it is exactly that list in order |
| BanWalk.ListIsFixed | hub/store/bans.go:660-719 | the list at a revision is the same after any later changes |
| BanWalk.NeverGone | hub/store/bans.go:671-693 | the revision a walk began at is always served |
| BanWalk.OneBanPerPlace | hub/store/bans.go:198-262 | an identity is on the list at a revision at most once |
| BanCursor.IssuedParsesBack | hub/bans.go:388-411 | every ban cursor issued, a JSON array under base64url, parses back to its revision and place |
| BanCursor.PlainCursor | hub/bans.go:388-392 | of plain names the cursor is the JSON array of the revision and the two names |
| BanWalk.PluginBanPage | hub/bans.go:416-465 | refuses a cursor that does not parse and a revision it no longer has; otherwise serves the revision the cursor names, or the current one, with a cursor of that revision and the last place exactly when a row is left |
| BanWalk.CursorsWalk | hub/bans.go:416-465 | feeding each answer's cursor into the next request keeps every answer at the revision the first was served, and walks its list |
| BanWalk.WalkReadsOneRevision | hub/bans.go:416-465 | following the cursors, with any limits and whatever is placed, lifted or swept meanwhile, meets every identity of the revision the walk began at exactly once, in byte order, and no other |
| BanWalk.WalkShowsTheList | hub/bans.go:446-465 | and shows of them exactly the entries of that list, id, reason, name and expiry |
| BanWalk.IssuedIsServed | hub/store/bans.go:671-693 | the cursor of a revision a walk began at is never refused, however long it waits |
| BanWalk.RunKeeps | hub/store/bans.go:157-385 | every history of placing, lifting and sweeping keeps revisions minted, increasing and disjoint per identity |
| BanSteps.CreateLists | hub/store/bans.go:198-262 | over every history a ban of an acceptable identity with none standing joins the list exactly as placed, at a new revision, and what had lapsed leaves with it; any other leaves no trace |
| BanSteps.LiftDelists | hub/store/bans.go:274-330 | a lift takes that ban and what had lapsed off the list and marks the row it took off; with nothing to take it leaves no trace |
| BanSteps.SweepDelists | hub/store/bans.go:334-385 | a sweep takes exactly what has lapsed off the list, and mints no revision when nothing has |
| BanSteps.ServedIff | hub/store/bans.go:671-693 | a revision is served if and only if the list once stood at it |
| ByteOrder.RangeIsPrefix | hub/store/kv.go:440-449 | raising the last byte of a prefix gives the upper end of exactly its range |

## Left out

- SQL, transactions, locks, migrations and row-level timing: each store call is one atomic step with what its transaction does.
- HTTP, headers, deadlines, drains, logging, JSON encoding and decoding: bodies arrive decoded, and the members of a wrong JSON type decode to an absent one.
- Ban cursors as the hub does not write them: other JSON spellings of the same array that Go would also read, texts that are not UTF-8, which decoding a request never yields, and revisions past 64 bits.
- The event and created-at cursors of feeds: their walks have the same one-past-the-limit read as the two that are modelled.
- Envelope framing checks (`hub/envelope.go:103-126`), manifest and snapshot field limits, position and entry-data validators: independent bounds, taken as already checked or as given faults.
- JSON Schema compilation: a declared schema is the set of params it accepts, or broken.
- Action lifecycle beyond insertion, action expiry's effect on records, KV compare-and-swap and increment.
- Uplink.EventsStoredOnce: speaks of runs in which no expired event is pruned; with pruning a batch can be stored again once nothing of it is left, and EventFeed says exactly when.
- The advisory read of already ingested batches, which is a parameter of the classification closure.
- Server binding of tokens, token expiry and revocation, secrets, signing, webhook sending and retries, redaction and rendering, and the creation time a notification is compared with.
- Clocks: a time is a parameter of the operation that reads it; random ids are parameters required fresh.
- Server deletion during a dispatch, and the purge of old actions between an insert and the read that answers it.
- PollApply.ClassificationConserves: speaks of the notices handed to the store; the store may drop some at a full queue.
- Wakeups.RaisedSignalDelivers: says a way to delivery is open, not that the scheduler takes it; the backstop tick is the Tick step.
- Hold.AnsweredWhen: the database, the clock and the select are told round by round; rounds that never end leave the poll held.
- Uplink.NothingLost: the plugin frames an id once; a plugin that reuses an envelope id is outside the protocol.
- QueueOrder.BatchesAscend: runs in which nothing is queued in front of a numbered row; without that it is false, as Overtaking.BatchOutOfOrder shows, and QueueOrder.BatchAscendsIff says exactly when a batch ascends.
- Redelivery.RetransmittedUnchanged: an empty stored body, sent as an empty object, is the body that was stored.
- Scopes.CoversExactlyNames: of dotted names of any length; the caps on event types, codes and namespaces are not part of it.
