# The polling and notification pipeline, verified

Apollo's backend polls Reddit for many accounts and watchers and pushes what is new to
phones. A scheduler claims due rows and takes Redis locks; workers take jobs from queues,
read listings, move cursors, count hits and send. This Dafny project models those workers
and the tables they share, and proves what they keep over whole runs: no message or post
is pushed twice, pushes come in order, one job at a time works on an account, due rows
are served within a bound, links open what they name.

Check everything with `dafny verify dfyconfig.toml`.

## How it is organised

| file | about |
|---|---|
| `Inbox.dfy` | what Reddit lists of an inbox, and what one poll plans to do with a page |
| `CursorProtocol.dfy`, `CursorExactness.dfy`, `CursorRaces.dfy`, `CursorCoverage.dfy` | the `LastMessageID` cursor moved by polls, stuck checks, registrations and Live Activity jobs |
| `Notifications.dfy`, `NotificationJobs.dfy`, `NotificationRuns.dfy`, `StuckNotifications.dfy`, `Sender.dfy` | the two inbox workers, what a whole notifications job does and how it is steps of the cursor protocol, and the rules of one push |
| `LockProtocol.dfy`, `LockHistory.dfy`, `LockExclusion.dfy`, `PollsUnderLock.dfy` | the batch lock, the queue and the cleaner, and the polls of an account as jobs under the lock |
| `Claims.dfy`, `Chunks.dfy` | the claim query and the slicing of the account list |
| `NotifiedKeys.dfy`, `Offers.dfy` | the expiring "already notified" keys, and which offers a job on them must send, for both watcher workers that use them |
| `Collection.dfy`, `Listings.dfy`, `Keywords.dfy`, `Subreddits.dfy`, `SubredditSends.dfy` | the subreddit worker: its loops, what it collects, and whom it tells |
| `Median.dfy`, `Trending.dfy`, `TrendingSends.dfy` | the trending worker: its loops, and whom it tells |
| `Users.dfy`, `UserRuns.dfy` | the user worker and its `last_notified_at` mark |
| `LiveActivities.dfy`, `LiveActivityRuns.dfy` | Live Activities: the comment shown, and the life of a row |
| `DeepLinks.dfy`, `MessageLinks.dfy` | the links Bark notifications open, and where their post id comes from |
| `Registry.dfy`, `RegistryRuns.dfy`, `Accounts.dfy` | accounts, devices, associations, watchers; bulk registration and revocation |

Two styles meet. A worker that works by loops and row writes is a class or a method with
loops, whose contract ties the new state, or the recorded effects, to a function of the
old one. What such a function computes is then said without it: who must be told and who
must not, in what order, which rows go and which stay. What the system promises is proved
about those functions and, for promises
about many jobs, about runs: sequences of states joined by the steps the program can
take, crashes and lost writes included. Where a promise holds only under a condition on
the run, the condition is a named predicate over steps. For those that the program itself can
break there is a lemma that builds a run which breaks the promise.

Times are integers, one unit a second; the proofs use only order and differences, so they
hold for any finer clock. Messages are numbered by arrival, which stands for their full
names. Lowering is any per-character function.

## Where the code and its promises part

* `internal/worker/subreddits.go:169` declares `before` and nothing ever assigns it, so the
  five requests announced as "up to 500 new posts" are one request made five times. The
  model follows the code; `Collection.RepeatedRequestsAddNothing` says what that costs.
* The inbox cursor is safe only under four conditions, the cases of `CursorProtocol.Met`.
  Under them order and at-most-once hold over every run (`CursorProtocol.DeliveredInOrder`);
  the code ensures none of them, and dropping any one lets a message be pushed again. What
  counts in the end is the account it leaves: one that nobody is working on gets its messages
  in order in every future that meets the four conditions exactly when it is uncounted with an
  empty cursor, or every undeleted message its cursor still admits is newer than all that was
  pushed (`CursorExactness.SettledExactly`). The conditions:
  * `OnePoll`: a poll begins only when no other of the account is in progress. It follows from
    the batch lock (`PollsUnderLock.LockSeparatesPolls`) while no job outlives its lock and no
    worker dies between deleting it and acknowledging; otherwise polls overlap
    (`PollsUnderLock.OutlivedLockOverlapsPolls`, `CursorRaces.OverlappingPollsResend`).
  * `SavesSucceed`: a poll that has something to push loses no row write.
    `internal/worker/notifications.go:251` ignores the error of the cursor write and sends anyway
    (`CursorRaces.LostWriteResends`).
  * `NothingUndone`: nobody writes what a poll's save has gone past. Three writers can: a
    registration or a stuck check that looked at the inbox before the poll did
    (`CursorRaces.RacingRegistrationResends`, `CursorRaces.RacingStuckCheckResends`), and a
    Live Activity job, under a lock of its own, that refreshes its tokens and writes back the
    whole row it read (`internal/worker/live_activities.go:205-230`,
    `CursorRaces.TokenRefreshResends`). One that then fails and writes nothing does no harm.
  * `ListedUnderEmptyCursor`: no message leaves the listing while a cursor is empty
    (`CursorRaces.UnlistingUnderEmptyCursorResends`).
* A stuck check that began before an account's warm-up poll writes the count back to zero, so
  a later poll is a warm-up again (`CursorRaces.StuckCheckUncounts`). No order is broken by it.
* Registration sets `CheckCount` to 1 (`internal/api/accounts.go:260`), but the upsert does not
  write that column (`internal/repository/postgres_account.go:104-120`). The first poll of a new
  account is therefore a warm-up and swallows what arrived since the registration
  (`CursorCoverage.WarmUpSwallows`).
* The poll writes whole account rows, with the old `next_stuck_notification_check_at`. It can
  undo a claim made in between, and repeated often enough it starves other rows
  (`Claims.StaleWriteUndoesClaim`, `Claims.StaleWritesStarve`). The bound on the wait grows by
  one place for each such write that puts a row ahead (`Claims.ClaimedWithinBound`).
* A subreddit job reads the clock for the age limit before up to six fetches and for the keys
  after them (`internal/worker/subreddits.go:167`, `internal/worker/subreddits.go:370-398`). A post
  first sent no longer after its creation than a job may take can be sent again a day later,
  and only such a post (`NotifiedKeys.SecondNotification`, `Subreddits.SlowJobNotifiesTwice`).
  A trending job likewise, two days later (`internal/worker/trending.go:225-256`,
  `Trending.SlowJobNotifiesTwice`).
* A Live Activity job chooses between update and end by the clock it reads first and pushes
  several requests later, so an update can be attempted after expiry
  (`LiveActivityRuns.LateUpdate`): exactly when its job read the clock in time
  (`LiveActivityRuns.LateUpdateExactly`), and no later after expiry than jobs take
  (`LiveActivityRuns.UpdatesEndInTime`).
* The consumers' early exit on a remaining lock time of zero
  (`internal/worker/notifications.go:157-161`) is never taken for a missing key, whose
  remaining time reads negative; the model lets it be taken at any time.
* A watcher row deleted because its authorisation was revoked while fetching hot posts is
  still in the job's list and is notified once more; the same goes for user watchers
  deleted because the user takes no followers.
* Two overlapping jobs of one user tell a watcher twice, as these jobs take no lock
  (`UserRuns.OverlappingJobsTellTwice`); jobs of different users do not disturb each other.
* The global mute of an association silences its watchers but not its inbox, and is forgotten
  when a revoked account registers again (`Registry.MuteSparesTheInbox`,
  `Registry.ReassociationForgetsFlags`).
* A Live Activity renewed while a job holds its expired row is ended and its renewed row
  deleted (`LiveActivityRuns.RenewalIsEnded`).
* A revocation between the two halves of a registration leaves a deleted account
  associated, and its watchers active (`RegistryRuns.RevokedHalfwayStaysWatched`); so does a
  registration within a revocation (`RegistryRuns.RegisteredMidwayStaysWatched`).
* Bulk registration compares names in lower case but accounts are unique by exact name. Two
  unrequested accounts that differ in case alone leave one behind, and this is the only way
  the device can end up with other names than requested (`Accounts.ReconciledNames`).

## Model

| member | source | states |
|---|---|---|
| Inbox.PageIsWindow | internal/worker/notifications.go:218-222 | a listing page of limit k is newest first, closed upwards, and shorter than k only when it leaves nothing out |
| Inbox.ArrivalsShrinkPage | internal/worker/notifications.go:218-222 | an old message on a later page was on the earlier one: arrivals only push old messages out |
| Inbox.LiveScan | internal/worker/notifications.go:248-282 | the messages the send loop keeps are exactly the undeleted ones, in ascending age order, and the cursor loop stops at the newest of them |
| Inbox.PlanFacts | internal/worker/notifications.go:248-323 | a poll pushes exactly the undeleted messages of its page, oldest first, none in the warm-up poll, and every row it writes points at the newest of them |
| Inbox.AllPushesInOrder | internal/worker/notifications.go:276-323 | the pushes go message by message, each to all devices in their order |
| Inbox.PushesKeepOrder | internal/worker/notifications.go:277-323 | pushing newer messages oldest first to distinct devices extends an ordered log to an ordered log |
| CursorProtocol.SafeCursorStable | internal/worker/notifications.go:218-222 | arrivals and deletions never make a safe cursor unsafe, nor does unlisting while the cursor is not empty; an empty cursor stays safe while the listing only grows |
| CursorProtocol.ResetIsFresh | internal/worker/stuck_notifications.go:253-279 | whatever was sent, the cursor a stuck check computes, empty or not, admits no existing undeleted message |
| CursorProtocol.SeedIsFresh | internal/api/accounts.go:253-261 | the cursor a registration seeds admits nothing that exists |
| CursorProtocol.PlannedRowsAreSafe | internal/worker/notifications.go:248-263 | every row a poll writes already accounts for all the pushes of its plan, so a crash after it repeats none |
| CursorProtocol.FetchKeepsInv | internal/worker/notifications.go:218-323 | fetching a page keeps the invariant: what is still to be pushed is newer than all that was |
| CursorProtocol.SaveKeepsInv | internal/worker/notifications.go:250-262 | each row write of a poll keeps the invariant, whatever other writes are in the making |
| CursorProtocol.LostKeepsInv | internal/worker/notifications.go:250-262 | so does a row write that is lost, of a poll with nothing to push |
| CursorProtocol.InstallKeepsInv | internal/repository/postgres_account.go:185-202 | writing a looked-up cursor, or a whole row as it was read, that no save has gone past keeps the invariant |
| CursorProtocol.StopKeepsInv | internal/worker/notifications.go:237-323 | a poll may stop or crash between any two of its effects |
| CursorProtocol.OrderlyStepKeepsInv | internal/worker/notifications.go:218-323 | every step of polls, stuck checks, registrations, Live Activity jobs or the inbox itself that meets the four conditions keeps the invariant |
| CursorProtocol.InvHolds | internal/worker/notifications.go:218-323 | the invariant holds in every state of every orderly run, from registration on |
| CursorProtocol.DeliveredInOrder | internal/worker/notifications.go:248-323 | over every orderly run each device is pushed messages in strictly increasing age, none twice; when no write sets a count back once there is something to push, an uncounted row has pushed nothing |
| CursorProtocol.NothingBeforeWarmUp | internal/worker/notifications.go:256-263 | in every run, orderly or not, nothing is pushed before the row has counted a warm-up poll |
| CursorExactness.SafeStaysOrdered | internal/worker/notifications.go:248-323 | from an account that nobody is working on and whose cursor admits only what is newer than all pushes, every orderly future pushes in order |
| CursorExactness.UnsafeBreaks | internal/worker/notifications.go:218-323 | from any other such account some orderly future pushes a device a message out of order |
| CursorExactness.SettledExactly | internal/worker/notifications.go:218-323 | so an account that nobody is working on is served in order in every orderly future if and only if it is uncounted with an empty cursor or its cursor admits only what is newer than all pushes |
| CursorExactness.RowsMustBeSafe | internal/repository/postgres_account.go:185-202 | whatever is under way, the stored row and every write in the making that no save has gone past must be safe in that sense, or some orderly future is out of order |
| CursorExactness.PushedExist | internal/worker/notifications.go:276-323 | in every run, orderly or not, only existing messages are pushed |
| CursorExactness.ReachedExactly | internal/worker/notifications.go:218-323 | the exact condition holds for whatever account any run has left behind that pushed in order so far |
| CursorRaces.RacingRegistrationResends | internal/api/accounts.go:253-265 | a registration that straddles a poll's write makes a message be pushed twice, all other conditions met |
| CursorRaces.RacingStuckCheckResends | internal/worker/stuck_notifications.go:128-286 | so does a stuck check that looked at the inbox before the poll |
| CursorRaces.TokenRefreshResends | internal/worker/live_activities.go:205-230 | so does a Live Activity job that writes back the account row it read before a poll's save |
| CursorRaces.LostWriteResends | internal/worker/notifications.go:248-254 | a failed cursor write, whose error is ignored, makes a message be pushed twice, all other conditions met |
| CursorRaces.OverlappingPollsResend | internal/worker/notifications.go:171-323 | two polls of one account that overlap push the same message, all other conditions met |
| CursorRaces.UnlistingUnderEmptyCursorResends | internal/worker/stuck_notifications.go:253-279 | with an empty cursor, messages leaving the listing bring old messages back, all other conditions met |
| CursorRaces.StuckCheckUncounts | internal/worker/stuck_notifications.go:128-286 | in a run that meets all four conditions a stuck check from before the warm-up sets the count back after pushes were made |
| CursorCoverage.PollCovers | internal/worker/notifications.go:248-323 | a poll with a page that starts right above the cursor delivers every undeleted message it fetched and skips none |
| CursorCoverage.CursorAdvances | internal/worker/notifications.go:248-254 | the cursor moves exactly when the page holds an undeleted message, and then strictly forward to the newest of them |
| CursorCoverage.WarmUpIsSilent | internal/worker/notifications.go:256-263 | the first poll that sees a message sends nothing and counts |
| CursorCoverage.WarmUpSwallows | internal/api/accounts.go:258-263 | what the first poll after a registration fetches is never pushed, as the count is not written |
| CursorCoverage.EveryFetchedMessageIsDelivered | internal/worker/notifications.go:248-323 | over whole runs every message fetched undeleted is sent to every device exactly once, in order, and nothing the cursor passed was left out |
| Sender.Send | internal/push/push.go:97-129 | a push asks for unregistration exactly when an APNs device of a configured backend was not reached or refused |
| Notifications.SendPagePushes | internal/worker/notifications.go:276-323 | the backward send loop makes the planned pushes: undeleted messages oldest first, each to all devices |
| Notifications.PageFollowsPlan | internal/worker/notifications.go:248-323 | a job's trace is the protocol's plan: all row writes, then all pushes |
| Notifications.CrashCutsThePlan | internal/worker/notifications.go:248-323 | any prefix of the trace leaves the row at one of the planned writes, with pushes only after all of them and a prefix of the plan's |
| NotificationRuns.CutIsPollSteps | internal/worker/notifications.go:240-323 | whatever prefix of a page's effects takes place, poll steps of the cursor protocol leave the same row and push the same messages |
| NotificationJobs.JobPushes | internal/worker/notifications.go:126-323 | a job that is not too old, finds its account, has usable tokens and gets a page and its devices pushes exactly the plan of the poll; no other job pushes anything |
| NotificationJobs.JobWrites | internal/worker/notifications.go:185-263 | the rows a job writes are the refreshed one, if it refreshed, and then the plan's; the last of them is what it leaves |
| NotificationJobs.JobRevokes | internal/worker/notifications.go:185-238 | the account is revoked exactly when the refresh, or a fetch that was made, reported a revocation, and then nothing is pushed and no device removed; a failed refresh or fetch revokes nothing |
| NotificationJobs.JobUnregisters | internal/worker/notifications.go:265-322 | a device is removed by a job exactly when the job had a page to push from after the warm-up and an APNs push to the device did not go through |
| NotificationJobs.JobIsOrderly | internal/worker/notifications.go:248-322 | rows are written before anything is pushed, and a device is removed right after the push to it that failed |
| NotificationRuns.JobCutIsPollSteps | internal/worker/notifications.go:171-331 | whatever prefix of a whole job's effects takes place, poll steps of the cursor protocol leave the same row and push the same messages |
| Notifications.UnlockThenAck | internal/worker/notifications.go:144-169 | the lock is deleted once, immediately before the one acknowledgement at the end; only the too-old exit keeps it |
| Notifications.SendPageEffects | internal/worker/notifications.go:291-322 | the devices removed are exactly the APNs devices for which a send of the page failed, never a Bark device |
| Notifications.BarkOnlyUnregistersNobody | internal/push/push.go:104-113 | without APNs configured no job removes any device |
| Notifications.NotificationsConsumer.SendMessage | internal/worker/notifications.go:291-322 | one message goes to every device in list order, each failure followed by that device's removal |
| Notifications.NotificationsConsumer.SendAll | internal/worker/notifications.go:276-323 | the send loop from the end of the page leaves the specified effects |
| Notifications.NotificationsConsumer.AdvanceCursor | internal/worker/notifications.go:248-254 | the cursor loop writes the row once, at the first undeleted message, or not at all |
| Notifications.NotificationsConsumer.HandlePage | internal/worker/notifications.go:240-323 | what a job does with a page, with the warm-up and the device query failing included |
| Notifications.NotificationsConsumer.RefreshTokens | internal/worker/notifications.go:185-214 | refreshed tokens write the row, a revocation removes the account, an error ends the job |
| Notifications.NotificationsConsumer.Poll | internal/worker/notifications.go:185-323 | the effects of one poll, in order, on every path |
| Notifications.NotificationsConsumer.Consume | internal/worker/notifications.go:126-331 | the effects of a whole job, ending in lock deletion and acknowledgement, and the row, devices and lock they leave |
| StuckNotifications.Contains | internal/worker/stuck_notifications.go:205-210 | the loop finds the cursor's message exactly when it is listed |
| StuckNotifications.NewestLive | internal/worker/stuck_notifications.go:253-271 | the loop yields the newest undeleted message, or the empty cursor |
| StuckNotifications.FindInListing | internal/worker/stuck_notifications.go:181-228 | a scan of the 25 newest finds a message exactly when it is among them, with its deleted mark |
| StuckNotifications.ResetExactly | internal/worker/stuck_notifications.go:152-286 | the cursor is reset exactly when its message is gone from where the job looks and the inbox could be read, and then to its newest undeleted message; a failed fetch leaves it alone |
| StuckNotifications.VerdictIsProtocolStep | internal/worker/stuck_notifications.go:152-286 | with views that agree with the inbox the job resets exactly the cursors the protocol calls stuck, and to the protocol's cursor |
| StuckNotifications.StuckNotificationsConsumer.Consume | internal/worker/stuck_notifications.go:128-286 | the row after a job, for every outcome of its fetches and of the final write |
| LockProtocol.GrantIsExact | internal/cmd/scheduler.go:141-152 | the script grants each unlocked candidate once, however often listed, locks all candidates for 300 seconds and touches no other lock |
| LockProtocol.GrantInOrder | internal/cmd/scheduler.go:141-152 | the grants come in the order of the candidates, each at its first position |
| LockProtocol.RedisLocks.EvalScript | internal/cmd/scheduler.go:141-152 | the loop of the script returns the granted ids and leaves the lock table of the specification |
| LockProtocol.ScriptIsLockSteps | internal/cmd/scheduler.go:526-548 | one evaluation is a series of lock steps of the protocol at one clock reading |
| LockHistory.BatchLockHistory | internal/cmd/scheduler.go:137-155 | in every run, between two grants of an id its lock was deleted by a consumer or 300 seconds passed |
| LockHistory.PublishInvHolds | internal/cmd/scheduler.go:526-548 | every publication follows its own grant and happens once, with failed publishes and requeues in the run |
| LockHistory.EndedForGood | internal/cmd/scheduler.go:540-547 | a grant whose publication failed, or whose job has ended, has no job ever again |
| LockHistory.PublicationsSpaced | internal/cmd/scheduler.go:526-548 | two publications of an id come from two grants that are 300 seconds apart or separated by a lock deletion |
| LockHistory.TightPublicationsSpaced | internal/cmd/scheduler.go:526-548 | published at the clock reading of their locks and before those are deleted, two publications of an id are 300 seconds apart or separated by a deletion of its lock |
| LockHistory.LatePublication | internal/cmd/scheduler.go:526-548 | a publication that comes late is followed at once by the next, with no deletion between |
| LockHistory.UnlockBeforePublication | internal/worker/notifications.go:165-169 | so are two publications when an overlong job deletes its successor's lock before that is published |
| LockExclusion.MutualExclusion | internal/worker/notifications.go:144-169 | while no job outlives its lock and consumers die only before deleting it, an id has at most one outstanding job, and that job's own lock is held |
| LockExclusion.TickExactly | internal/cmd/scheduler.go:141-152 | time may pass exactly while no outstanding job outlives its lock; any longer, and one lock step can give an id two jobs |
| LockExclusion.LateCrashIsDoubled | internal/worker/notifications.go:165-169 | a job requeued after its lock was deleted and not taken again gets a second one beside it at the next lock step |
| LockExclusion.OutlivingJobBreaksExclusion | internal/worker/notifications.go:163-169 | a job that outlives its lock runs beside its successor and deletes the successor's lock |
| LockExclusion.LateCrashBreaksExclusion | internal/worker/notifications.go:144-169 | a consumer that dies between lock deletion and acknowledgement leaves two queued jobs for one id |
| PollsUnderLock.OnePollAtATime | internal/worker/notifications.go:163-171 | a job of the account can begin a poll only when no poll of it is in progress |
| PollsUnderLock.LockSeparatesPolls | internal/worker/notifications.go:163-171 | an orderly run of jobs under the batch lock takes the cursor through an orderly run of the cursor protocol, the one-poll condition included |
| PollsUnderLock.JobsDeliverInOrder | internal/worker/notifications.go:163-323 | so at most one poll of an account is in progress and devices are pushed messages in order, none twice |
| PollsUnderLock.OutlivedLockOverlapsPolls | internal/worker/notifications.go:163-171 | when the lock of a poll in progress has run out, orderly steps begin a second poll beside it |
| Claims.PassedOver | internal/cmd/scheduler.go:310-321 | a call that passes over a due row takes a full batch from the rows ahead of it |
| Claims.DueAfter | internal/cmd/scheduler.go:310-332 | a claimed row is due again once more than the interval has passed, a new or re-registered one as soon as time passes, and no other row's turn changes |
| Claims.NeverOvertaken | internal/cmd/scheduler.go:310-321 | insertions, removals and re-registrations put no row ahead of one already due |
| Claims.RestoreJumps | internal/repository/postgres_account.go:185-202 | a whole-row write puts at most one row ahead of a due row, and none unless it moves that row there |
| Claims.ClaimedWithinBound | internal/cmd/scheduler.go:310-332 | a due row with k rows ahead is claimed within (k + j) / LIMIT + 1 calls, j being how often a whole-row write puts a row ahead of it; without such writes j is zero |
| Claims.ClaimsSpaced | internal/cmd/scheduler.go:423-446 | two claims of one row are more than the interval apart, unless it was re-registered or overwritten with an earlier time |
| Claims.StaleWriteUndoesClaim | internal/repository/postgres_account.go:185-202 | a whole-row write of an earlier snapshot lets a row be claimed again at once |
| Claims.StaleWritesStarve | internal/repository/postgres_account.go:185-202 | written back after every claim, with values they had before, stuck accounts keep another due account waiting for any number of batches of 500 |
| Chunks.Split | internal/cmd/scheduler.go:498-510 | the 60 slices concatenate to the list, none exceeds the ceiling of n / 60, and index i lands in slice i / size at offset i % size |
| Keywords.Fields | internal/domain/watcher.go:57-75 | the fields are exactly the maximal separator-free runs of the keyword |
| Keywords.KeywordMatches | internal/domain/watcher.go:57-75 | a keyword matches exactly when every maximal run occurs in the lowered haystack |
| Keywords.CommaIsAnd | internal/domain/watcher.go:57-75 | joining two keywords with a comma matches exactly when both match |
| Keywords.PlusIsAnd | internal/domain/watcher.go:57-75 | so does joining them with a plus |
| Keywords.WordMatches | internal/domain/watcher.go:57-75 | a nonempty keyword without comma or plus matches exactly when it stands in the lowered haystack; with the two laws before this settles every keyword |
| Keywords.LoweredHaystack | internal/worker/subreddits.go:322-336 | lowering the title before the call changes nothing |
| NotifiedKeys.NeverNotifiedTwice | internal/worker/subreddits.go:369-399 | over any run of jobs on expiring keys no device is notified of a post twice, forever, as a key outlives its post's eligibility |
| NotifiedKeys.SecondNotification | internal/worker/subreddits.go:167 | a run of jobs of the given latency that sends an attempt's key again exists exactly when the post was no older than the latency at the first send |
| Collection.DedupKeepsIds | internal/worker/subreddits.go:244-254 | collecting keeps every fetched id and adds none |
| Collection.DedupPositions | internal/worker/subreddits.go:244-254 | the collected posts are the first occurrences, in fetching order |
| Collection.CollectedAreYoungAndDistinct | internal/worker/subreddits.go:167-313 | collected ids are pairwise distinct and every post is at or after the threshold |
| Collection.RepeatedRequestsAddNothing | internal/worker/subreddits.go:167-264 | five equal answers collect what one does |
| Listings.PagesUsed | internal/worker/subreddits.go:179-264 | the pages before the last one used are full and hold nothing stale; the last one is used because it is not, or as the fifth; the first error after full pages aborts the job |
| Listings.FetchedInOrder | internal/worker/subreddits.go:244-313 | what a job reads is, in order, every used page and then the hot listing, each up to its first stale post |
| Listings.CollectedInOrder | internal/worker/subreddits.go:244-313 | the collected posts are the first of their id among those read, in the order read, and no id read is left out |
| Collection.Collector.Gather | internal/worker/subreddits.go:244-254 | one listing adds its posts up to the first stale one, each id once |
| Collection.Collector.CollectNew | internal/worker/subreddits.go:179-264 | the page loop uses pages up to the first empty, short or partly stale one, or stops at the first error |
| Collection.Collector.Collect | internal/worker/subreddits.go:167-315 | the posts of a job are the deduplicated fresh prefixes of the pages used and of the hot listing |
| Subreddits.PassKeeps | internal/worker/subreddits.go:322-453 | hits, attempts and new keys stay in step through all posts and watchers |
| Subreddits.HitConservation | internal/worker/subreddits.go:322-453 | each watcher's hits grow by its attempts and there is one new key for each; after a failed increment the excess is exactly the pending hits of one post |
| SubredditSends.PassIsExact | internal/worker/subreddits.go:322-453 | a job sends the first wanted offer for every key that did not stand, in the order of posts and then of watchers; one that fails does so at the first offer after its last successful increment, the posts before it sent |
| SubredditSends.NobodyLeftOut | internal/worker/subreddits.go:329-453 | in a job that does not fail every watcher that wants a collected post has its device told, now or before |
| SubredditSends.OnlyWhoWants | internal/worker/subreddits.go:329-453 | every attempt is of a watcher that wants the post, on a device not told of it before the job |
| SubredditSends.PassAppends | internal/worker/subreddits.go:322-453 | what was sent before a job stays and makes no difference to it |
| SubredditSends.ListedPostIsTold | internal/worker/subreddits.go:167-453 | said of the listings: a watcher that wants a post the job reads, the first of its id, is not left out |
| SubredditSends.SendIsListed | internal/worker/subreddits.go:167-453 | and every send is about a post the job reads, to a watcher that wants it |
| SubredditSends.FiltersAreAnd | internal/worker/subreddits.go:331-359 | without filters a watcher wants every post not older than itself; each filter narrows that on its own, and several filters leave what each of them accepts |
| SubredditSends.PageErrorDeletes | internal/worker/subreddits.go:198-224 | a page that cannot be fetched costs the watcher it was fetched for when its authorisation is revoked, all watchers when the subreddit is gone, and nobody otherwise |
| SubredditSends.HotErrorDeletes | internal/worker/subreddits.go:283-296 | an error of the hot listing costs a watcher only when its authorisation is revoked |
| Subreddits.SubredditJobEffect | internal/worker/subreddits.go:369-399 | a job on young posts is a step of the key protocol with a 24 hour window |
| Subreddits.JobIsStep | internal/worker/subreddits.go:167-453 | so is a whole job, from the listings it fetched, an aborted one included |
| Subreddits.JobsNotifyOnce | internal/worker/subreddits.go:167-453 | over any run of whole subreddit jobs, of whatever subreddits, no device is notified of a post twice |
| Subreddits.SlowJobNotifiesTwice | internal/worker/subreddits.go:167-399 | two whole jobs, the second slow, notify a device twice of any such post |
| Subreddits.SubredditsConsumer.Matched | internal/worker/subreddits.go:336-368 | the chain of filters accepts exactly the posts a watcher wants |
| Subreddits.SubredditsConsumer.LookAt | internal/worker/subreddits.go:329-401 | the loop over watchers leaves the keys, hits and pending attempts of the specification, an increment error included |
| Subreddits.SubredditsConsumer.NotifyPosts | internal/worker/subreddits.go:322-453 | the loop over posts sends each post's attempts after its watchers were looked at, and stops at an error |
| Subreddits.SubredditsConsumer.Consume | internal/worker/subreddits.go:150-453 | a whole job: which watcher rows errors delete, when nothing is sent, and otherwise the pass over the collected posts |
| Median.SortedIsStable | internal/worker/trending.go:192-194 | the sort is descending by score, keeps the posts, and keeps the order of posts of one score |
| Median.SortByScore | internal/worker/trending.go:192-194 | the in-place sort leaves the stable sort of the array |
| Median.ThresholdIsMedian | internal/worker/trending.go:196-197 | the threshold is the score of a post, with at least n/2 + 1 posts at or above it and n - n/2 at or below it |
| Trending.EligibleExactly | internal/worker/trending.go:227-234 | every post considered reaches the threshold and is under two days old, and a post that scores enough is missed only at or behind an old one that does too |
| Trending.HitConservation | internal/worker/trending.go:238-303 | hits grow by attempts, with one new key for each and one more after a failed increment |
| TrendingSends.PassIsExact | internal/worker/trending.go:227-303 | a job sends the first offer, of a post to a watcher that was there before it, for every key that did not stand, in the order of posts and then of watchers, up to a failed increment |
| TrendingSends.PassAppends | internal/worker/trending.go:227-304 | what was sent before a job stays and makes no difference to it |
| TrendingSends.TrendingPostIsTold | internal/worker/trending.go:183-303 | in a job that does not fail every watcher that was there before a hot post which reaches the median, with no post over two days old among those that do up to it, has its device told, now or before |
| TrendingSends.SendIsTrending | internal/worker/trending.go:183-303 | and every send is about such a post, to such a watcher, on a device not told before the job |
| Trending.TrendingJobEffect | internal/worker/trending.go:225-256 | a job is a step of the key protocol with a 48 hour window |
| Trending.JobIsStep | internal/worker/trending.go:183-304 | so is a whole job, from the listings it fetched |
| Trending.JobsNotifyOnce | internal/worker/trending.go:183-304 | over any run of whole trending jobs no device is notified of a post twice |
| Trending.SlowJobNotifiesTwice | internal/worker/trending.go:225-256 | two whole jobs, the second slow, notify a device twice of any such post, two days apart |
| Trending.TrendingConsumer.LookAt | internal/worker/trending.go:238-303 | the loop over watchers sets the key before the hit is counted and sends after it |
| Trending.TrendingConsumer.NotifyHot | internal/worker/trending.go:227-304 | the loop over hot posts skips low scores and stops at the first old post that scores enough |
| Trending.TrendingConsumer.Consume | internal/worker/trending.go:154-310 | a whole job; fewer than 20 top posts or a failed listing leave everything unchanged |
| Users.AlertsExactly | internal/worker/users.go:215-243 | an uninterrupted job tells exactly the due pairs of a listed post and a watcher |
| Users.AlertsDistinct | internal/worker/users.go:215-243 | and each pair once |
| Users.AlertsInOrder | internal/worker/users.go:215-243 | the alerts are those of all due pairs, in the order of posts and then of watchers |
| Users.ToldIsPrefix | internal/worker/users.go:247-256 | a failed increment cuts the alerts at the number that succeeded, and nowhere else |
| Users.TouchedRows | internal/repository/postgres_watcher.go:294-298 | a row gains one hit for each of its alerts and the time of the last of them; rows without alerts are unchanged |
| Users.UsersConsumer.Recipients | internal/worker/users.go:222-239 | the recipients of a post are the watchers it is due to, in order |
| Users.UsersConsumer.Notify | internal/worker/users.go:247-286 | each recipient's hit is counted, then it is sent; a failed increment ends the job |
| Users.UsersConsumer.NotifyPosts | internal/worker/users.go:215-287 | the sends are the due alerts, cut at the first failed increment, and the rows match them |
| Users.UsersConsumer.Consume | internal/worker/users.go:154-293 | a whole job, with the removal of users who take no followers and every way it can stop |
| UserRuns.DueAreNew | internal/worker/users.go:226-232 | what a job finds due was told to nobody before, as earlier alerts left the watcher's mark past the post |
| UserRuns.InvHolds | internal/worker/users.go:215-251 | over runs of interleaved jobs, creations, edits and removals every row and snapshot stands past the posts its watcher was told of, and what is still to be told is new |
| UserRuns.MarksHold | internal/repository/postgres_watcher.go:233-256 | in every run a watcher's mark stands between its creation and the present |
| UserRuns.NeverToldTwice | internal/worker/users.go:215-251 | no watcher is told of a post twice in any run with one job of a user at a time, whatever the jobs of other users do and wherever jobs stop |
| UserRuns.JobIsSteps | internal/worker/users.go:180-287 | the rows and sends a job leaves are those of steps of the run model, with the user's rows removed first when the user takes no followers |
| UserRuns.RemovedUserHasNone | internal/worker/users.go:180-202 | a user whose watchers were removed has none left |
| UserRuns.OtherUsersKeepTheirs | internal/repository/postgres_watcher.go:306-310 | the removal of one user's watchers leaves those of every other user as they were |
| UserRuns.EditedWatcherMoves | internal/repository/postgres_watcher.go:260-292 | an edited watcher is read for its new user, with its times unchanged |
| UserRuns.ToldUnlessPassed | internal/worker/users.go:226-236 | a listed post is told exactly when it is public, fits the subreddit and is not before the row's times |
| UserRuns.OverlappingJobsTellTwice | internal/worker/users.go:145-251 | two overlapping jobs of one user tell a watcher twice |
| LiveActivities.CandidatesExactly | internal/worker/live_activities.go:252-270 | the candidates are exactly the comments newer than the smallest of the windows of 30, 60 and 120 seconds that holds any |
| LiveActivities.SelectCandidates | internal/worker/live_activities.go:252-270 | the widening loops compute them |
| LiveActivities.PickBest | internal/worker/live_activities.go:277-294 | the comment shown has maximal score among the candidates, and there is none without candidates |
| LiveActivities.PushesExactly | internal/worker/live_activities.go:204-322 | a job that reads the thread pushes exactly when the activity has no time left or a comment is less than two minutes old; no other job pushes |
| LiveActivities.RowGoesExactly | internal/worker/live_activities.go:178-353 | the row goes without APNs or an account, with a revoked authorisation, when its push failed, and with the final push, and stays in every other case |
| LiveActivities.LiveActivityTable.Create | internal/repository/postgres_live_activity.go:64-84 | registering again renews only the two times; a new row expires in 75 minutes |
| LiveActivities.LiveActivityTable.RemoveStale | internal/repository/postgres_live_activity.go:86-91 | exactly the rows that expired before the given time go |
| LiveActivities.LiveActivitiesConsumer.Consume | internal/worker/live_activities.go:178-356 | on every path, whether the row is deleted, whether and with what a push is attempted, and that renewed tokens write the account row back as it was read |
| LiveActivityRuns.EndsOnceHolds | internal/worker/live_activities.go:296-353 | after a final push the row is gone or its own job is about to delete it |
| LiveActivityRuns.TimesHold | internal/worker/live_activities.go:296-299 | in every run an update comes from a job that read its clock no later than the latest registration's expiry |
| LiveActivityRuns.ReapedHolds | internal/cmd/scheduler.go:217-229 | in every run no row is older than the last pruning allows |
| LiveActivityRuns.LifeOfAnActivity | internal/worker/live_activities.go:247-353 | at most one final push for a registration and nothing after it; update or end as the job's first clock reading stands to the expiry; no row beyond expiry plus ten minutes plus a prune period |
| LiveActivityRuns.LateUpdateExactly | internal/worker/live_activities.go:296-299 | a push is an update, even after expiry, exactly when its job read the clock no later than the expiry |
| LiveActivityRuns.UpdatesEndInTime | internal/worker/live_activities.go:147-322 | with jobs that take at most D no update is attempted later than D after expiry |
| LiveActivityRuns.LateUpdate | internal/worker/live_activities.go:147-322 | a slow job attempts an update after expiry in a run with no crash and no registration |
| LiveActivityRuns.CrashEndsTwice | internal/worker/live_activities.go:322-353 | a death between the final push and the delete lets the next job end the activity again |
| LiveActivityRuns.RenewalIsEnded | internal/worker/live_activities.go:350-353 | a renewal while a job holds the expired row is ended and deleted |
| LiveActivityRuns.ConsumeIsSteps | internal/worker/live_activities.go:178-356 | what the consumer does to a row is what steps of the run model do |
| DeepLinks.EscapeRoundTrip | internal/push/bark.go:140-145 | escaped path segments are read back as they were |
| DeepLinks.EscapedBytes | internal/push/bark.go:140-145 | letters, digits and ten other characters stay, every other byte becomes a percent sign and two upper-case digits |
| DeepLinks.EscapeAppends | internal/push/bark.go:140-145 | a string is escaped byte by byte |
| DeepLinks.EscapeIsSegment | internal/push/bark.go:140-145 | an escaped string is a path segment in the sense of section 3.3 of RFC 3986 and holds no slash |
| DeepLinks.LinkText | internal/push/bark.go:128-146 | the text of every link: the inbox for private messages and payloads without post or subreddit, otherwise the thread, or the comment in it |
| DeepLinks.LinkRoundTrip | internal/push/bark.go:128-146 | every link is read back as the subreddit, post and comment, or the inbox, that the payload asks for |
| DeepLinks.LinksAreInjective | internal/push/bark.go:128-146 | two payloads share a link exactly when they ask for the same thing |
| MessageLinks.MatchIsPermalink | internal/reddit/client.go:70-83 | a match of the expression is a permalink, split at its slashes |
| MessageLinks.LeftmostID | internal/reddit/client.go:75-82 | the result is the id of the leftmost match, or empty |
| MessageLinks.CommentLinkID | internal/reddit/client.go:70-83 | applied to a comment link it yields the escaped post id |
| MessageLinks.PostLinkID | internal/reddit/client.go:70-83 | applied to a link without a comment it yields nothing |
| MessageLinks.SplitIDExactly | internal/reddit/client.go:62-68 | an id splits into two parts exactly when it holds one underscore |
| MessageLinks.MessageOpens | internal/worker/notifications.go:377-428 | a username mention, post reply or comment reply opens its own comment in the post its context names; other messages open the inbox |
| MessageLinks.NoPermalinkOpensInbox | internal/worker/notifications.go:377-428 | without a permalink in the context the link opens the inbox |
| Registry.SaveDeviceKeeps | internal/repository/postgres_device.go:115-135 | saving a device keeps tokens unique and every association |
| Registry.SaveDeviceStores | internal/repository/postgres_device.go:115-135 | a device is stored in the row that has its token, its new transport with it, or in a new one; no other device changes |
| Registry.DeleteDeviceKeeps | docs/schema.sql:31-61 | deleting a device removes exactly its associations and watchers |
| Registry.DetachedIsSilent | internal/repository/postgres_watcher.go:158-167 | while deleted accounts have no associations no watcher of one is returned and no device for its inbox, though the queries do not look |
| Registry.FlagsGovern | internal/repository/postgres_watcher.go:158-167 | an association's watchers are served exactly when its watcher flag is set and it is not muted, and it receives its inbox exactly when its inbox flag is set; flags set for one association change no other |
| Registry.DisassociatedIsSilent | internal/repository/postgres_watcher.go:158-167 | an account taken off a device gets nothing there; everything else is as before |
| Registry.CreatedIsServed | internal/repository/postgres_watcher.go:228-258 | a new watcher needs its device and account, and is then served at once where its association lets it be |
| Registry.DeletedAreNotServed | internal/repository/postgres_watcher.go:300-310 | deleted watchers are served no more, the others as before |
| Registry.MuteSparesTheInbox | internal/repository/postgres_device.go:85-94 | a muted association still receives its inbox exactly when its inbox flag is set, and none of its watchers is returned |
| Registry.ReassociationForgetsFlags | internal/repository/postgres_account.go:248-278 | a revoked account registered again has its watchers back with default flags, a mute forgotten |
| RegistryRuns.ReferencesHold | docs/schema.sql:31-72 | in every run associations and watchers refer to existing accounts and devices |
| RegistryRuns.FlagsLast | internal/repository/postgres_account.go:248-278 | in every run the flags last set for an association hold until they are set again or the association ends |
| RegistryRuns.InvHolds | internal/worker/notifications.go:333-347 | in orderly runs a revocation still covers every device its account is on |
| RegistryRuns.RegistryTheorem | internal/repository/postgres_watcher.go:158-167 | references hold always; in orderly runs deleted accounts are on no device and their watchers are not returned |
| RegistryRuns.RevokedHalfwayStaysWatched | internal/api/accounts.go:263-269 | a revocation between saving and associating an account leaves it deleted, associated and watched |
| RegistryRuns.RegisteredMidwayStaysWatched | internal/worker/notifications.go:333-347 | so does a registration that begins within a revocation |
| Accounts.RegisteredTables | internal/api/accounts.go:263-269 | registering accounts adds and undeletes exactly them, keeps flags already set and changes nothing else |
| Accounts.ReconciledAccounts | internal/api/accounts.go:293-332 | which accounts a device has after a bulk registration |
| Accounts.ReconciledNames | internal/api/accounts.go:293-332 | the device has exactly the requested names if and only if no two unrequested accounts differ in case alone |
| Accounts.Store.ByName | internal/api/accounts.go:293-296 | the map holds one account for each name the device has |
| Accounts.Store.RegisterAll | internal/api/accounts.go:304-328 | the requests are registered in turn up to the first failure, and their names struck out |
| Accounts.Store.RemoveAll | internal/api/accounts.go:330-332 | exactly the accounts left in the map are taken off the device |
| Accounts.Store.UpsertAccounts | internal/api/accounts.go:274-335 | success gives the requested names under the condition above, all requested accounts undeleted and no other new ones; failure leaves the prefix associated, the failing account saved if it came that far, and removes nothing; other devices and kept flags are unchanged |
| Accounts.Store.DeleteAccount | internal/worker/notifications.go:333-347 | success detaches the account everywhere and deletes it; it fails exactly when a write fails, which leaves the account undeleted with so many devices fewer; other accounts are untouched |

## Left out

- HTTP handlers, routing, middleware, logging, metrics and environment parsing: shallow.
- Reddit's HTTP, OAuth and JSON, with retries and the rate-limit stubs: listings and errors are inputs.
- The network side of APNs and Bark: an outcome limited by the rules of a push is an input.
- SQL, pgx, rmq and Redis internals: maps, sequences and a clock; `SKIP LOCKED` is claiming by one scheduler.
- A lost `Get` or `SetEX` of a notified key, and two jobs on one key at once: Redis is taken as reliable and such a job as one step.
- Clock readings inside one subreddit or trending job: one reading for all its keys, with the earlier threshold reading bounded by a latency.
- The remaining-time guard of the consumers: it may be taken at any time instead of being computed.
- `pruneAccounts`, `PruneStale` and `PruneOrphaned`: the scheduler's call is commented out.
- Fields of the notification payload and of the Bark request other than those a link is made of: one branch each.
- Truncation of titles and bodies at byte positions, Unicode case folding: strings are sequences of bytes or characters, lowering is per character.
- The rounding of the slice size through floating point: exact for lists shorter than 2^53.
- The block merging of the library's stable sort: represented by insertion, which has the same result.
- The order of equal scores after the library's unstable sort: any comment of maximal score may be shown.
- Failing `Disassociate` calls at the end of a bulk registration, whose errors are ignored: they succeed.
- The revocation inside the notifications job: recorded there as one effect, and modelled step by step in the registry.
- Serial numbers of accounts: an account is known by its username, which is unique and never changes.
- Rows that share a Reddit id: the schema does not make `reddit_account_id` unique, and two rows whose names differ in case alone would share one job and one lock and have two cursors. The cursor results, `CursorProtocol.DeliveredInOrder` and those of `PollsUnderLock` among them, are about one row, polled by the jobs of its id.
- Receipts, announcements, test notifications, validation, migrations and scripts: foreign or one branch.
