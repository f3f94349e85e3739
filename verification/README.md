# Verified model of the Go.exchange backend protocols

This project models, in Dafny, the parts of the Go.exchange backend whose guarantees span
several functions, several transactions or several processes, and proves those guarantees for
every input, every run and every interleaving.

| file | what it models |
|---|---|
| `Basics.dfy` | optional values, results and a few shared notions |
| `Ordering.dfy` | relations with a unique composite key, `ORDER BY ... DESC LIMIT n`, and keyset cuts |
| `Timeline.dfy` | the two SQL forms of the following timeline, one page, and the whole cursor walk |
| `Topic.dfy` | half-day buckets, the traversal that jumps over empty ones, and the topic walk |
| `PostGraph.dfy` | replies, quotes, conversations and counters under every transaction |
| `MirrorSync.dfy` | the post transactions as they are carried out, and the desired-state sync |
| `RefreshSession.dfy` | the Redis scripts of refresh-session families and every run of them |
| `AuthVersion.dfy` | the account's authentication version on top of the families |
| `CacheFence.dfy` | the fenced Post detail cache under any interleaving |
| `Shards.dfy` | the balanced shard assignment and the six-hour slots |
| `SnapshotMerge.dfy` | snapshot and batch validation, and the merge of one shard |
| `IncrementalRefresh.dfy` | the resumable refresh across crashes and restarts |
| `ClickLease.dfy` | the click reservation and the event batch handler |
| `RecoveryFlights.dfy` | per-post recovery flights shared by overlapping batches |

`dafny verify dfyconfig.toml` checks everything.

## How the model is set up

- Code that changes things step by step is a class or a method with loops, proved against a
  function or a predicate on values; the laws are then lemmas about those values. SQL queries
  are functions on sets of rows. A loop over a Go map is a loop that picks any remaining key, so
  what is proved holds for every iteration order.
- Each Lua script and each mutex-guarded section is one atomic step, and each database
  transaction is one atomic step.
- Times are whole seconds (nanoseconds for topic buckets, where the borrow matters). Key expiry is
  an absolute time compared with the Redis clock, or, in the cache, an event that may happen at
  any moment. Redis time and the caller's time are separate where the scripts use both.
- Strings that are only compared (registry keys, source ids, handles) are integers numbered by
  rank in string order. Hashes and fingerprints are injective, a sealed secret opens only with
  what it was sealed with, generated secrets, tokens and session ids are fresh.
- Assumed of the database, because an index or a foreign key enforces it: a user reposts a post at
  most once (`RepostsUnique`), mirror rows have a unique source and a unique local post, and the
  mapping row goes with its post. Source ids are not empty, which snapshot validation guarantees. A post is never both a reply and a quote
  (`Go.exchange/controllers/post_controller.go:140`).

## Findings

- A used marker lasts to the family's absolute expiry as the rotation that wrote it saw it, so
  its life on the Redis clock depends on how far the caller's clock lagged at that moment. In
  every run a rotated-out secret of a live family is answered with its stored successor, or ends
  the family, exactly until then, and is refused like an unknown one afterwards
  (`RefreshSession.RotatedOutOutcome`). `RefreshSession.MarkerSurvivesIff` says when a rotation
  with the configured idle lifetime lets a marker end before the session, and
  `RefreshSession.MarkerLostWhenClockFallsBehind` is a run in which one does.
- A request that joins a flight in the air can be answered with a value replaced and invalidated
  before the request was made. `CacheFence.JoinerIsFreshIff` gives the exact condition on the
  flight at the moment of joining, and `CacheFence.JoinerMayBeStale` a reachable state in which a
  flight that lost its fence twice is joined.
- `Timeline.NullTimestampFailsFirstPage`: an eligible activity with a NULL timestamp makes the
  first page fail; `Timeline.TimelineWalk` says exactly when a walk succeeds.
- `Topic.LoadTraversalCandidates`: the traversal fails exactly when the rows within the largest
  valid bucket do not fill the limit and some row lies beyond it; "did not advance" is unreachable.
  A walk comes to its end if and only if no candidate lies before year 1
  (`Topic.WalkCompletesIff`), and `Topic.BeforeYearOneFails` is an input whose every first request
  fails.
- `Shards.FourSlotsCoverIff`: four consecutive slots that begin before 1970 miss an account, because
  the slot arithmetic truncates toward zero.
- `SnapshotMerge.MergeSucceedsIff`: a merge of valid inputs fails when an account was renamed and one
  of its older posts is kept under the former handle (`SnapshotMerge.RenameExample`). A checkpoint
  whose accounts are all fetched then stays for ever, and every run for every shard stops at it
  without doing anything (`IncrementalRefresh.StuckIff`, `IncrementalRefresh.StuckExample`,
  `IncrementalRefresh.Refresher.Run`).
- `ClickLease.LatePublishRepeats`: a batch that publishes after its 60-second reservation has run out
  can repeat a click that another batch has committed. The scripts know an owner only by its event id,
  and the client sends a queued click again under its old id, so two batches may carry the same one. A
  batch past its own 60 seconds can then release or commit the reservation of a later batch that is in
  time: `ClickLease.LateReleaseAdmitsTwo` ends with two batches in time that may both publish, and
  `ClickLease.LateCommitRepeats` with a batch in time on a committed opportunity. In every run the key
  belongs to the one batch in time if and only if no such late commit or release happens
  (`ClickLease.OrderlyIffPeaceful`); in a run without one, publishing in time is exclusive
  (`ClickLease.PublishIsExclusive`).
- `CalculateDesiredStateDiff` has a Reactivate list, but the sync never reactivates: it refuses a
  snapshot that names a tombstone (`MirrorSync.Database.SyncPosts`).

## Model

| member | source | states |
|---|---|---|
| Timeline.FirstPageCorrect | Go.exchange/controllers/following_timeline_query.go:8-68 | for every database, viewer and limit the first-page query, which keeps only limit rows per actor and kind, returns exactly the first rows of the deduplicated flat timeline |
| Timeline.JoinedLatestCorrect | Go.exchange/controllers/following_timeline_query.go:73-130 | newest repost per post, FULL JOIN with originals and the tie rule give the same winner per post as DISTINCT ON over the union |
| Timeline.PickWins | Go.exchange/controllers/following_timeline_query.go:73-130 | the side a joined row picks beats every eligible activity of its post |
| Timeline.CursorQueryCorrect | Go.exchange/controllers/following_timeline_query.go:73-130 | a cursor page is the top of the flat timeline strictly after the cursor |
| Timeline.BuildTimelinePageResponse | Go.exchange/controllers/activity_timeline.go:106-167 | items and next cursor of a page, with the rows that hydration drops and the rows that make it fail; every item shows the very post and actor its row names |
| Timeline.PageRowsCorrect | Go.exchange/controllers/following_timeline_query.go:8-130 | either query form returns the next limit+1 rows of the one flat timeline |
| Timeline.NextCursorAdvances | Go.exchange/controllers/activity_timeline.go:106-167 | the next cursor leaves exactly the flat timeline after this page, which is strictly smaller |
| Timeline.WalkIsFlatTimeline | Go.exchange/controllers/activity_timeline.go:106-167 | following cursors to the end cuts the flat timeline into consecutive pages and terminates |
| Timeline.TimelineOrder | Go.exchange/controllers/following_timeline_query.go:8-68 | the order in terms of the rows: those without a time first, then the latest, at one time reposts before originals and then the greater source id; no post twice |
| Timeline.ChunkSucceeds | Go.exchange/controllers/activity_timeline.go:106-167 | pages succeed if and only if every scanned row is well formed and consistent with its details |
| Timeline.ChunkDelivers | Go.exchange/controllers/activity_timeline.go:106-167 | the items delivered are exactly the scanned rows whose details were present, once each and in order |
| Timeline.TimelineWalk | Go.exchange/controllers/activity_timeline.go:106-167 | a whole walk succeeds if and only if every row is accepted, and then shows every post once in order, even across emptied pages, with the post and actor each request found |
| Timeline.NullTimestampFailsFirstPage | Go.exchange/controllers/activity_timeline.go:106-167 | an eligible activity with a NULL timestamp makes the first page fail, whatever details it finds |
| Topic.BucketRangeIs | Go.exchange/controllers/topic_cursor.go:162-173 | exactly the bucket numbers up to the bound have a range, and it is their half-open twelve hours; all others are refused |
| Topic.BucketIndexCorrect | Go.exchange/controllers/topic_cursor.go:175-194 | the index with its nanosecond borrow succeeds exactly for times not after the anchor, is the only bucket whose range holds the time, and stays within the bound for times from year 1 on |
| Topic.BucketRowsAfter | Go.exchange/controllers/topic_controller.go:282-319 | a bucket query with or without continuation returns the flat list's rows of that bucket after the cursor |
| Topic.NextBucketCorrect | Go.exchange/controllers/topic_controller.go:321-360 | the next-bucket lookup finds the nearest later occupied bucket, or says that there is none |
| Topic.LoadTraversalCandidates | Go.exchange/controllers/topic_controller.go:235-268 | the jumping loop returns exactly the next rows of the flat list ordered by bucket, shuffle key and id; its only error is characterised and it terminates |
| Topic.LoadTopicPostsPage | Go.exchange/controllers/topic_controller.go:158-233 | one page: visible rows and the cursor it moves to, which the next request accepts, or the error of a page that is too deep |
| Topic.BuildPage | Go.exchange/controllers/topic_controller.go:175-233 | hydration, the rows it drops and the choice of the cursor row |
| Topic.NextCursorIsGood | Go.exchange/controllers/topic_cursor.go:144-160 | a page never hands out a cursor whose bucket the next request refuses |
| Topic.WalkCompletesIff | Go.exchange/controllers/topic_controller.go:158-268 | a walk comes to its end if and only if no candidate after the cursor lies before year 1 |
| Topic.StoppedWalkMissesFew | Go.exchange/controllers/topic_controller.go:158-268 | a walk that is stopped has shown all but at most one page of the rows in range that stay visible |
| Topic.BeforeYearOneFails | Go.exchange/controllers/topic_controller.go:235-268 | an input whose first request fails for every limit |
| Topic.WalkOrdered | Go.exchange/controllers/topic_controller.go:158-233 | a walk shows rows in flat order, none twice and none from before year 1, whatever becomes visible or hidden between requests and wherever it is stopped |
| Topic.WalkComplete | Go.exchange/controllers/topic_controller.go:158-233 | in a walk that comes to its end every row that stays visible is shown |
| Topic.TopicWalkFixed | Go.exchange/controllers/topic_controller.go:158-233 | with fixed visibility a walk that comes to its end is exactly the visible part of the flat list |
| PostGraph.RootIsConversation | Go.exchange/controllers/post_controller.go:275-295 | following reply_to from any reply ends, and ends at its conversation_id |
| PostGraph.CreateKeeps | Go.exchange/controllers/post_controller.go:263-411 | creating a post, reply or quote keeps references, conversations and counters, and never reports an inconsistency |
| PostGraph.DeleteKeeps | Go.exchange/controllers/post_delete.go:61-135 | author deletion keeps them, and its consistency errors are unreachable |
| PostGraph.CreateOutcome | Go.exchange/controllers/post_controller.go:263-411 | a post is created exactly when it is not both reply and quote, its target is public and nothing later fails; then one public row is added and one counter raised, otherwise nothing changes |
| PostGraph.DeleteOutcome | Go.exchange/controllers/post_delete.go:61-135 | a post is deleted exactly when it is live and its author asks; then it is flagged and what it referred to counts one less |
| PostGraph.DeleteUndoesCreate | Go.exchange/controllers/post_delete.go:78-114 | deleting a post right after creating it puts every other row back as it was |
| PostGraph.ImportKeeps | Go.exchange/devdata/sync.go:643-685 | a mirror import keeps them |
| PostGraph.RetireKeeps | Go.exchange/devdata/sync.go:708-789 | retiring or collecting a mirrored post, soft or hard, keeps them |
| PostGraph.RunKeeps | Go.exchange/devdata/sync.go:708-789 | so does every sequence of transactions |
| PostGraph.ReachableGraph | Go.exchange/controllers/post_delete.go:78-114 | in every reachable database references exist, reply chains end at conversation_id, both counters equal the number of live referrers, a tombstone belongs to a deleted post, and no consistency error can be reported |
| MirrorSync.Database.IncrementPostReplyCount | Go.exchange/controllers/post_reply_store.go:13-27 | the counter row it changes and how many rows were affected |
| MirrorSync.Database.DecrementPostReplyCount | Go.exchange/controllers/post_reply_store.go:13-27 | the guarded decrement affects one row exactly when the count is positive |
| MirrorSync.Database.IncrementPostQuoteCount | Go.exchange/controllers/post_quote_store.go:11-28 | the counter row it changes and how many rows were affected |
| MirrorSync.Database.DecrementPostQuoteCount | Go.exchange/controllers/post_quote_store.go:11-28 | the guarded decrement affects one row exactly when the count is positive |
| MirrorSync.Database.PersistPostGraph | Go.exchange/controllers/post_controller.go:263-411 | the create transaction, step by step, is the one the graph lemmas are about |
| MirrorSync.Database.DeletePostInTransaction | Go.exchange/controllers/post_delete.go:61-135 | the delete transaction, step by step, is the one the graph lemmas are about |
| MirrorSync.Database.SyncExistingPost | Go.exchange/devdata/sync.go:561-576 | an existing post is refused exactly when it is a tombstone or deleted; a mirrored post with references is unreachable (content updates are left out) |
| MirrorSync.Database.InsertPost | Go.exchange/devdata/sync.go:643-685 | a new root post and its active mapping |
| MirrorSync.Database.LockAndCheckPostDependencies | Go.exchange/devdata/sync.go:747-759 | dependencies are found exactly when some row refers to the post |
| MirrorSync.Database.RetirePost | Go.exchange/devdata/sync.go:708-728 | when something refers to the post it is deleted but keeps its row, references and counters and its mapping becomes a tombstone; otherwise row and mapping go; every other row stays |
| MirrorSync.Database.GcTombstone | Go.exchange/devdata/sync.go:730-745 | a tombstone is removed exactly when nothing refers to it |
| MirrorSync.Database.SyncAccount | Go.exchange/devdata/sync.go:447-550 | one account reaches its desired active posts, refuses none of them afterwards and leaves no tombstone to collect; each post it no longer desires is ended as retirement says, every other post keeps its row, new posts are live roots of its user; its counters are the lengths of its diff's lists, soft and hard retirements told apart |
| MirrorSync.Database.SyncPosts | Go.exchange/devdata/sync.go:447-550 | the sync succeeds if and only if no desired post is bound elsewhere, a tombstone or deleted; otherwise nothing changes; afterwards active sources equal the desired ones, exactly the posts no longer desired are deleted or gone, every other post keeps its row and what is new was imported; the counters are the lengths of the diffs' lists, soft and hard retirements told apart; replayed, it keeps everything and changes nothing |
| MirrorSync.CalculateDesiredStateDiff | Go.exchange/devdata/diff.go:15-57 | the four sorted lists as the specification names them, in whatever order the sets are visited |
| MirrorSync.AccountDone | Go.exchange/devdata/sync.go:447-550 | after applying and retiring, an account's active sources are exactly the desired ones |
| MirrorSync.DiffCounts | Go.exchange/devdata/diff.go:15-57 | what the sync counts are the lengths of the diff's keep, insert and retire lists, and its reactivate list is empty |
| MirrorSync.DiffOfLists | Go.exchange/devdata/diff.go:15-57 | the diff computed from lists of an account's source ids is the one the sync's counters are measured against |
| MirrorSync.AccountSettles | Go.exchange/devdata/sync.go:447-550 | after one account no desired post of it is refused and no tombstone is left to collect |
| MirrorSync.Replayed | Go.exchange/devdata/sync.go:447-550 | a sync from where the desired state has been reached succeeds, keeps every desired post and changes nothing |
| RefreshSession.RedisRefreshStore.Create | Go.exchange/auth/refresh_store.go:55-68 | the create script on the session key |
| RefreshSession.RedisRefreshStore.Rotate | Go.exchange/auth/refresh_store.go:70-126 | every branch of the rotate script on session, used and recovery keys |
| RefreshSession.RedisRefreshStore.Revoke | Go.exchange/auth/logout.go:15-25 | the revoke script on the session key |
| RefreshSession.Manager.Issue | Go.exchange/auth/service.go:44-85 | what issuing a pair stores and answers |
| RefreshSession.Manager.Rotate | Go.exchange/auth/service.go:87-142 | what a rotation stores and answers, sealing and opening included |
| RefreshSession.Manager.Revoke | Go.exchange/auth/service.go:146-152 | what a revocation stores |
| RefreshSession.CurrentOutcome | Go.exchange/auth/refresh_store.go:98-126 | the current secret gets the next link of its chain, or the family ends at absolute expiry |
| RefreshSession.IssueOutcome | Go.exchange/auth/service.go:44-85 | issuing succeeds exactly for a positive user, version and lifetime, and begins a live family with the shorter of the two lifetimes |
| RefreshSession.RevokeOutcome | Go.exchange/auth/logout.go:15-25 | logout ends a live family exactly when it presents the current secret or an earlier one whose marker lasts, and otherwise changes nothing |
| RefreshSession.StepKeeps | Go.exchange/auth/refresh_store.go:70-126 | session, used and recovery keys always agree with the one chain of secrets issued for the family |
| RefreshSession.RunKeeps | Go.exchange/auth/refresh_store.go:70-126 | so they do in every run of issue, rotate and revoke |
| RefreshSession.ChainsGrow | Go.exchange/auth/service.go:87-142 | user, version and absolute expiry of a family never change and its chain only gets longer |
| RefreshSession.NeverCurrentAgain | Go.exchange/auth/refresh_store.go:70-126 | a rotated-out secret never becomes current again |
| RefreshSession.GrantIsLast | Go.exchange/auth/service.go:87-142 | whatever is granted is the last secret of the chain afterwards, with the family's user, version and remaining lifetime |
| RefreshSession.ReplayOutcome | Go.exchange/auth/refresh_store.go:78-97 | a rotated-out secret gets the stored immediate successor with nothing changed, exactly for the request that made it and for two minutes or the granted lifetime, or ends the family |
| RefreshSession.RecoveryWindow | Go.exchange/auth/refresh_store.go:78-126 | whatever happens to other families, a repeated rotation with the same token and request id gets the same successor, nothing changed, exactly until 120 seconds or the granted lifetime have passed and before absolute expiry; from then on, while the marker lasts, it ends the family |
| RefreshSession.RotatedOutOutcome | Go.exchange/auth/refresh_store.go:70-126 | in every run, for every earlier secret of a live family: successor, exactly as long as its answer can be given again, or end of the family until its marker's expiry, plain refusal with nothing changed from then on |
| RefreshSession.MarkerLifetime | Go.exchange/auth/refresh_store.go:118 | a marker is there exactly until the absolute expiry as the rotation that wrote it saw it, whatever happens to the family |
| RefreshSession.MarkerOutlivesSession | Go.exchange/auth/refresh_store.go:98-126 | it outlasts the session if the rotation that made the current secret lagged no more than the one that wrote it |
| RefreshSession.StrangerIsRefused | Go.exchange/auth/refresh_store.go:71-97 | a secret that never belonged to the family changes nothing |
| RefreshSession.DeadForever | Go.exchange/auth/logout.go:15-25 | a revoked, reuse-deleted or expired family grants nothing ever again |
| RefreshSession.NoGrantAfterAbsoluteExpiry | Go.exchange/auth/refresh_store.go:86-102 | no rotation or replay succeeds at or after absolute expiry |
| RefreshSession.MarkerSurvivesIff | Go.exchange/auth/refresh_store.go:103-121 | after a granted rotation with its own idle lifetime an earlier marker lasts as long as the session, if and only if the new lifetime ends by that marker's expiry |
| RefreshSession.MarkerLostWhenClockFallsBehind | Go.exchange/auth/refresh_store.go:103-121 | a run in which it does not |
| AuthVersion.Accounts.ChangePassword | Go.exchange/controllers/auth_password.go:94-124 | the password changes exactly when the locked row exists, has a version to spare, is the observed one or has the submitted password, and the new password differs; otherwise nothing changes |
| AuthVersion.Accounts.Refresh | Go.exchange/controllers/auth_controller.go:257-306 | a pair is returned only at the account's version, and otherwise the rotated family is revoked |
| AuthVersion.ChangeRaisesVersion | Go.exchange/controllers/auth_password.go:94-124 | a change adds exactly one to the version, never past the largest int64, and exactly when it reports success |
| AuthVersion.ChangeOutcome | Go.exchange/controllers/auth_password.go:94-124 | the exact condition of success and of each refusal |
| AuthVersion.ChangeNeedsPassword | Go.exchange/controllers/auth_password.go:54-124 | in every run a requested change goes through if and only if the password it submitted is the one stored when it commits and a version is left |
| AuthVersion.OneChangeWins | Go.exchange/controllers/auth_password.go:94-124 | of two changes that submitted the same password the later one fails after the earlier one went through, unless the password was changed back in between |
| AuthVersion.StepKeeps | Go.exchange/controllers/auth_controller.go:218-306 | no family and no request in flight is ahead of its account's version |
| AuthVersion.RunKeeps | Go.exchange/controllers/auth_controller.go:218-306 | versions never fall and families keep theirs, in every interleaving |
| AuthVersion.VersionCounts | Go.exchange/controllers/auth_password.go:94-124 | in every run an account's version counts its password changes, from one on |
| AuthVersion.CurrentVersionAccepted | Go.exchange/auth/access_token.go:76-102 | in every run verification accepts exactly the account's own version |
| AuthVersion.ComparisonOutcome | Go.exchange/controllers/auth_controller.go:286-306 | a rotated pair is returned exactly when its family's version is the account's; otherwise the family is to be revoked |
| AuthVersion.LoginOutcome | Go.exchange/controllers/auth_controller.go:218-256 | a login gets a pair of its user at the version its password was checked at; if that is still the account's version the password is still the stored one |
| AuthVersion.OldVersionIsDead | Go.exchange/auth/access_token.go:76-102 | once the version has passed v no later verification accepts v and no later refresh returns a pair of a family created at v |
| AuthVersion.OldFamiliesNeverRefresh | Go.exchange/controllers/auth_controller.go:286-305 | a family behind its account is never refreshed again |
| AuthVersion.StaleFamilyEnds | Go.exchange/controllers/auth_controller.go:297-303 | the revocation after a failed comparison ends the family, whatever ran in between, if and only if the pair's secret is still the last or its marker lasts |
| CacheFence.Redis.Initialize | Go.exchange/controllers/post_cache.go:29-39 | the token in force, installed when there was none |
| CacheFence.Redis.Invalidate | Go.exchange/controllers/post_cache.go:41-45 | new token and no cache entry |
| CacheFence.Redis.SetIfFenceMatches | Go.exchange/controllers/post_cache.go:47-54 | the entry is written exactly when the expected token is in force |
| CacheFence.LoadWithFence | Go.exchange/controllers/post_cache.go:275-334 | the two-attempt loop makes the moves of the flight automaton, call by call, and ends after at most nine calls |
| CacheFence.StoreOk | Go.exchange/controllers/post_cache.go:47-54 | a write passes the fence only with a value read after the last completed invalidation |
| CacheFence.StepKeeps | Go.exchange/controllers/post_cache.go:249-334 | what every step of loaders, writers, invalidators and expiry keeps |
| CacheFence.CacheAgrees | Go.exchange/controllers/post_cache.go:289-334 | in every run a cached value was read after the last completed invalidation, and with every write invalidated the entry is absent or equals the database |
| CacheFence.LostFenceNeverStores | Go.exchange/controllers/post_cache.go:289-334 | a value loaded before an invalidation never reaches the cache, even if the fence key expires and is made anew |
| CacheFence.LeaderIsFresh | Go.exchange/controllers/post_cache.go:205-334 | a request that leads its flight gets a value the database held after the last invalidation before the request |
| CacheFence.HitIsFresh | Go.exchange/controllers/post_cache.go:264-273 | a cache hit is a value held since the last completed invalidation |
| CacheFence.JoinerIsFreshIff | Go.exchange/controllers/post_cache.go:205-334 | joining a flight assures a value held since the request was made, in every continuation, if and only if the flight has not already settled on an older one |
| CacheFence.QuietLeaderReadsDatabase | Go.exchange/controllers/post_cache.go:205-334 | without pending or new writes it gets the database's value |
| CacheFence.UndisturbedFlightFills | Go.exchange/controllers/post_cache.go:275-334 | an undisturbed flight fills the cache with the database's value and ends with it |
| CacheFence.JoinerMayBeStale | Go.exchange/controllers/post_cache.go:205-247 | a reachable state in which a request joins a flight that lost its fence twice and a continuation answers it with the older value |
| Shards.BuildAssignments | Go.exchange/devdata/incremental_shard.go:26-48 | the assignment of a valid registry, and the error for any other |
| Shards.OrderIndependent | Go.exchange/devdata/incremental_shard.go:26-48 | reordering the registry does not change the assignment |
| Shards.AssignmentIsBalancedPartition | Go.exchange/devdata/incremental_shard.go:26-48 | every enabled account is in exactly one shard and shard sizes differ by at most one |
| Shards.SelectShardAccounts | Go.exchange/devdata/incremental_shard.go:88-104 | exactly the shard's accounts in key order, and the error for other shard numbers |
| Shards.ShardForTimeRange | Go.exchange/devdata/incremental_shard.go:61-67 | which times give a usable shard number, the zero time standing for the present |
| Shards.FourSlotsCoverIff | Go.exchange/devdata/incremental_shard.go:61-104 | four consecutive slots from 1970 on select every account exactly once; four that begin earlier miss one, when no shard is empty |
| SnapshotMerge.ValidateSnapshot | Go.exchange/devdata/snapshot.go:202-322 | the validator accepts exactly the snapshots with distinct, configured accounts, owned posts with distinct ids and counts within max_posts |
| SnapshotMerge.ValidateBatch | Go.exchange/devdata/incremental_snapshot.go:104-179 | the validator accepts exactly the batches that hold their shard's accounts and are valid snapshots of them |
| SnapshotMerge.MergeIncrementalSnapshot | Go.exchange/devdata/incremental_snapshot.go:184-203 | the merge, map iterations in any order included, yields the specified result or fails exactly when specified |
| SnapshotMerge.MergeSelected | Go.exchange/devdata/incremental_snapshot.go:205-267 | the same for the merge proper on validated inputs |
| SnapshotMerge.MergeKeepsNewest | Go.exchange/devdata/incremental_snapshot.go:184-267 | each selected account keeps exactly the newest max_posts of baseline overridden by batch, every other account is unchanged; the result carries the time given, or the batch's when none is |
| SnapshotMerge.MergedOrder | Go.exchange/devdata/incremental_snapshot.go:205-267 | accounts by key, posts by account and newest first |
| SnapshotMerge.LostAreOlder | Go.exchange/devdata/incremental_snapshot.go:184-267 | every post that an account of the shard loses in a merge is older than every post it keeps, or has the smaller id of one time |
| SnapshotMerge.MergeIdempotent | Go.exchange/devdata/incremental_snapshot.go:184-267 | merging the same batch again at the same time succeeds and changes nothing |
| SnapshotMerge.MergesCommute | Go.exchange/devdata/incremental_snapshot.go:184-267 | merges of two different shards commute up to the time stamp whenever both orders succeed |
| SnapshotMerge.MergeSucceedsIff | Go.exchange/devdata/incremental_snapshot.go:205-267 | a merge of valid inputs succeeds if and only if no account changed its source user, no source id is kept by two accounts and no older post is kept under a former handle |
| SnapshotMerge.RenameExample | Go.exchange/devdata/incremental_snapshot.go:205-267 | valid inputs whose merge fails at every time |
| IncrementalRefresh.BatchFromCheckpoint | Go.exchange/devdata/incremental_checkpoint.go:194-228 | the batch a checkpoint holds, or nothing when an account is missing or the batch invalid |
| IncrementalRefresh.BatchHolds | Go.exchange/devdata/incremental_checkpoint.go:194-228 | the batch holds exactly the accounts, posts and exhausted keys that were fetched for the accounts of the shard |
| IncrementalRefresh.ValidateCheckpoint | Go.exchange/devdata/incremental_checkpoint.go:119-192 | the validator accepts exactly the consistent checkpoints of its configuration |
| IncrementalRefresh.MergeAgainAtItsTime | Go.exchange/devdata/incremental_refresh.go:171-184 | repeating a saved merge at the time it carries gives the saved snapshot |
| IncrementalRefresh.CheckpointSafety | Go.exchange/devdata/incremental_refresh.go:133-217 | while a checkpoint is on disk the file is its baseline or its exact merged next snapshot, the latter only after its batch was applied, and every batch applied since is that same batch |
| IncrementalRefresh.FileHistory | Go.exchange/devdata/incremental_refresh.go:133-217 | every finished round applied its batch and moved the file to exactly the merge of it |
| IncrementalRefresh.Refresher.FetchPending | Go.exchange/devdata/incremental_refresh.go:219-259 | wherever it stops, fetching has only added accounts, each exactly as the source answered it in this call, or moved the cooldown to a clock reading plus what a rate limit asked for; during a cooldown nothing is done; it fetches the whole shard unless a save fails, the cooldown has not passed or the source does not serve an account, and the cooldown of a rate limit it stopped at is saved |
| IncrementalRefresh.Refresher.Admit | Go.exchange/devdata/incremental_refresh.go:76-96 | a checkpoint this program wrote is never refused unless the configuration or the requested shard differs |
| IncrementalRefresh.Refresher.Complete | Go.exchange/devdata/incremental_refresh.go:133-217 | stopped anywhere it leaves a consistent disk; at its end the batch is recorded, the file is the merged snapshot, the checkpoint is gone and the database was applied exactly once or, from a synced checkpoint, not at all; the snapshot-changed and mismatch errors are unreachable without another writer |
| IncrementalRefresh.Refresher.Run | Go.exchange/devdata/incremental_refresh.go:48-131 | a successful automatic run has completed the shard due in its own slot, even after recovering an older checkpoint; whatever it saves or completes was on disk before or is what the source answered in it; a ready or synced checkpoint is carried to its end, without any fetching, unless a durable operation fails again; one still fetching is carried to its end unless a durable operation fails, its cooldown has not passed, the source does not serve an account, or its batch cannot be merged; a fetched checkpoint that cannot be merged stops every run and stays |
| IncrementalRefresh.RunBrings | Go.exchange/devdata/incremental_refresh.go:219-259 | a completed batch holds, for every account of its shard, all that was fetched for it, by an earlier run or by this one as the source answered, and nothing else |
| IncrementalRefresh.RenameGetsStuck | Go.exchange/devdata/incremental_refresh.go:146-157 | how a fetched checkpoint comes to be unmergeable: a renamed account with an older post kept |
| IncrementalRefresh.StuckIff | Go.exchange/devdata/incremental_refresh.go:146-157 | a fetched checkpoint goes no further, at any time, exactly when its accounts make no valid batch, or the merge with its baseline finds a changed source user, an older post under a former handle or a source id kept by two accounts |
| IncrementalRefresh.StuckExample | Go.exchange/devdata/incremental_refresh.go:146-157 | a consistent checkpoint on a valid baseline that is fetched and goes no further |
| IncrementalRefresh.Refresher.Live | Go.exchange/devdata/incremental_refresh.go:40-131 | the disk is consistent after any sequence of runs, each stopped anywhere |
| ClickLease.ClickCooldown.Acquire | Go.exchange/controllers/recommendation_click_cooldown.go:39-55 | the acquire script on one opportunity's key |
| ClickLease.ClickCooldown.Commit | Go.exchange/controllers/recommendation_click_cooldown.go:57-63 | the commit script: only the pending owner's key changes |
| ClickLease.ClickCooldown.Release | Go.exchange/controllers/recommendation_click_cooldown.go:65-70 | the release script: only the pending owner's key goes |
| ClickLease.OnlyOwnerEndsReservation | Go.exchange/controllers/recommendation_click_cooldown.go:39-70 | until it expires a reservation is ended only by its owner, over any interleaving |
| ClickLease.CommittedStays | Go.exchange/controllers/recommendation_click_cooldown.go:39-70 | a committed opportunity stays committed until it expires |
| ClickLease.LostOwnerIsPowerless | Go.exchange/controllers/recommendation_click_cooldown.go:57-70 | an owner whose lease expired and was taken over can neither commit nor release it |
| ClickLease.ActKeepsIff | Go.exchange/controllers/recommendation_click_cooldown.go:39-70 | a move keeps the key with the one batch in time if and only if it is not a commit or release by a batch past its own reservation whose event id is that of a batch in time |
| ClickLease.OrderlyIffPeaceful | Go.exchange/controllers/recommendation_event_controller.go:193-281 | so for whole runs: the key belongs to the one batch in time throughout if and only if no such commit or release happens |
| ClickLease.PublishIsExclusive | Go.exchange/controllers/recommendation_event_controller.go:193-281 | in every run of any number of batches over one store in which no such commit or release happens, batches with the same event id included, a batch that publishes a click in time owns the reservation, so no other batch is in time and the opportunity is not committed |
| ClickLease.NoClickWhileCommitted | Go.exchange/controllers/recommendation_click_cooldown.go:39-70 | from a committed opportunity on which no batch is in time, until it expires no batch gets its reservation and none publishes a click for it in time, whatever happens |
| ClickLease.LatePublishRepeats | Go.exchange/controllers/recommendation_event_controller.go:260-281 | a run without such a commit or release in which a batch that outlived its reservation repeats a committed click |
| ClickLease.LateReleaseAdmitsTwo | Go.exchange/controllers/recommendation_click_cooldown.go:65-70 | a run with such a release, after which two batches in time may both publish |
| ClickLease.LateCommitRepeats | Go.exchange/controllers/recommendation_click_cooldown.go:57-63 | a run with such a commit, after which a batch in time may publish a committed click |
| ClickLease.HandledIsProper | Go.exchange/controllers/recommendation_event_controller.go:193-281 | a handled batch asks for an opportunity once, and publishes, commits and releases it only under the event with which it holds it |
| ClickLease.TurnsAreMoves | Go.exchange/controllers/recommendation_event_controller.go:193-281 | however any number of handled batches take turns, and whichever of their calls are lost, what they do to an opportunity is a run of allowed moves |
| ClickLease.HandlersPublishAlone | Go.exchange/controllers/recommendation_event_controller.go:193-281 | so a handled batch about to publish a click was told that it holds it, and if it is in time in a run without a late commit or release of another's reservation, it owns the key and no other batch is in time |
| ClickLease.Reserve | Go.exchange/controllers/recommendation_event_controller.go:193-244 | every click to publish is reserved, no opportunity twice, every other click is a duplicate, and what is published are the events that are not duplicates, once each and in order |
| ClickLease.CompleteResponse | Go.exchange/controllers/recommendation_event_controller.go:315-329 | final statuses, and counts that add up to the batch length |
| ClickLease.RecordEvents | Go.exchange/controllers/recommendation_event_controller.go:160-329 | every failure exit releases exactly the reservations taken; after a publish exactly those are committed; each opportunity publishes at most one click; what is published are the valid events that are not duplicates, once each and in order, as many as are answered accepted; accepted, duplicates and rejected add up |
| RecoveryFlights.Flights.Claim | Go.exchange/controllers/post_like_recovery.go:35-56 | joining flights in the air and beginning the missing ones, post by post |
| RecoveryFlights.Flights.Conclude | Go.exchange/controllers/post_like_recovery.go:63-78 | publishing results and closing channels, post by post |
| RecoveryFlights.RecoverKeeps | Go.exchange/controllers/post_like_recovery.go:35-56 | a claim keeps one owner per post and one open channel per post in flight |
| RecoveryFlights.ClaimOutcome | Go.exchange/controllers/post_like_recovery.go:35-56 | a caller waits for exactly its posts: a post in flight is joined and stays with its worker, every other one gets a new channel and this caller as its worker |
| RecoveryFlights.FinishKeeps | Go.exchange/controllers/post_like_recovery.go:63-78 | so does a worker that finishes; it closes no channel twice |
| RecoveryFlights.FinishOutcome | Go.exchange/controllers/post_like_recovery.go:63-78 | a worker that finishes takes exactly its own posts out of flight and closes exactly their channels |
| RecoveryFlights.RunKeeps | Go.exchange/controllers/post_like_recovery.go:35-92 | so does every run of overlapping batches |
| RecoveryFlights.WaiterGetsFlightResult | Go.exchange/controllers/post_like_recovery.go:80-92 | whenever a waiter looks after the flight it joined has ended it finds its post's own result, or the batch's error when the post was not completed |
| RecoveryFlights.OpenChannelHasWorker | Go.exchange/controllers/post_like_recovery.go:35-78 | a channel still open has exactly one worker at work on its post |

## Left out

- HTTP handlers, JSON binding, rate limits, error texts, logging, metrics and configuration.
- Real cryptography, base64, JSON and the file system: injective, inverse or atomic operations as said above. The check-then-rename window of the snapshot file is documented in the code and not modelled; neither is a second writer of that file.
- The form of raw refresh tokens and request ids (a malformed one is refused before anything is done), size limits of files, and the paths of files.
- Context cancellation: it ends a request or a run where the model already lets it end, so it has no step of its own.
- Post bodies, media, mentions, profile embeddings and behaviour rows inside the post transactions; only the failure of such a step, which rolls the transaction back, is kept.
- User soft deletion in the authentication model, and user deletion during a timeline walk (a walk is over a fixed database).
- Rules of snapshots and registries that look at one text alone (version, handle pattern, URL form, language, media, metrics, time stamps of single posts) are one flag per account or post.
- The report counters of a fetch and the updated_at field of a checkpoint, which nothing reads back.
- How an account is fetched (window escalation, coverage overlap): a fetch gives any data, a rate limit or a failure.
- What a batch does to the database rows in the incremental refresh: the model keeps the list of committed batches.
- The removal of repeated ids from a recovery batch (a repeated id joins the flight its first occurrence began), the recovery of one post's like state inside a flight, and the serving of likes.
- Simple keyset pages (bookmarks, likes, mutes, notifications, search): they would only add easier cases of the timeline.
- Recommendation ranking, Kafka consumers, migrations, server start and shutdown, and the frontend.
- ClickLease.RecordEvents: the trace lists the calls made; whether a call that failed was executed in Redis is decided by the turns of `ClickLease.TurnsAreMoves`. A reservation whose acquire reply was lost is unknown to the handler and is left to expire, as in the code. A missing reservation store is an acquire that fails.
- MirrorSync.Database.SyncPosts: requires the account and post lists that snapshot validation guarantees (distinct accounts, distinct and non-empty ids).
- MirrorSync.Database.SyncExistingPost: the update of a kept post's text, media and metadata is not modelled, because no other property depends on it.
- AuthVersion.Accounts.Refresh: is the handler with nothing in between; the interleaved handler is the state machine of `AuthVersion.Step`.
