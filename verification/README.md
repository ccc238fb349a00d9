# Seiran, modelled and verified

A Dafny model of the parts of the Seiran server and client whose correctness depends on what happens
between steps: concurrent transactions without locks, background workers that hand over to each other, a
saga over two stores, a limiter that records before it counts, hand-written scanners and parsers, and
client state that has to agree with the server's.

| modules | what they model |
|---|---|
| `ActorTable`, `ActorMerge`, `ActorConfluence`, `ActorRetries`, `ActorDiscovery`, `ActorMarriages` | discovery of Fediverse and AT Protocol identities and their marriage into one row |
| `Utf8`, `Scanner`, `ScannerFacts`, `Spans`, `Mentions`, `MentionTheorems`, `MentionFacets`, `Hashtags` | rewriting of post text with UTF-8 byte spans |
| `Jetstream`, `JetstreamCursor`, `JetstreamClient`, `Leader`, `LeaderLiveness`, `LeaderLoop` | the event feed with its stored cursor; one process at a time per background task |
| `FollowSaga`, `FollowCalls` | the `follows` row and the follow record in the AT Protocol repository |
| `RateLimit`, `RateLimitExact`, `RateLimiter` | the limiter of login and TOTP attempts |
| `DmSync`, `DmGaps` | import of Bluesky direct messages |
| `Bits32`, `Varint`, `Car` | CARv1 files, written by the server and parsed by the end-to-end tests |
| `Pagination`, `PaginationTheorems`, `PaginationProgress`, `PaginationHook` | infinite scrolling |
| `Reactions`, `ReactionRuns`, `NoteCard` | reaction chips |
| `DraftKeys`, `Drafts`, `DraftHistory`, `DraftEviction` | composer drafts in local storage |
| `Snowflake` | 64-bit ids |

Concurrent behaviour is a state machine: `Next(world, step)` is one atomic access (a step that cannot be
taken changes nothing), `Exec` runs any list of steps, and the main results hold for all lists. Next to
it stand the program's own functions as methods with their loops and early returns, on classes with the
program's mutable state; their contracts tie them to the state machine or to a specification function.
Dafny 4.11 checks everything with `dafny verify dfyconfig.toml`.

Where the code behaves differently from its documentation or from what one would wish, the model follows
the code, and the difference is stated as a theorem:

- Retries (`ActorConfluence.NoCallGivesUp`, `ActorRetries.ThreeAttemptsHappen`): the two SELECTs of an
  attempt see different states under READ COMMITTED, so three attempts can be needed, and are enough.
- Reported marriages (`ActorMarriages.TwoReportsHappen`): a marriage can be reported by more than one call;
  `ActorMarriages.ReportIsMarriageExactly` says which reports are those of the marriage itself.
- Cursor loading (`Jetstream.FailedLoadIsHarmlessExactly`): an error while loading the cursor counts as no
  cursor; events of the outage are then lost for good, and only if there are any.
- Unfollowing (`FollowSaga.RaceLeavesARecordBehind`): an unfollow is not atomic; one that reads the row
  between claim and record deletes it with its fresh key. `FollowSaga.AgreementExactlyWithoutForgetting`
  gives the exact condition.
- Broken-off first syncs (`DmGaps.BrokenOffFirstSyncLoses`): a first sync that stops with more than a page
  left never catches up, although the comment in the code says the rest is imported later;
  `DmGaps.GaplessExactly` says when an import has a gap.
- Pages without a key (`PaginationTheorems.KeyAndGuardAreNeededExactly`): late replies mix feeds.
- Reactions (`ReactionRuns.NonFollowerMissesOwnChange`, `ReactionRuns.LostAnswerHidesMine`): broadcasts go
  only to the author and their followers, so other viewers miss their own changes from other tabs; an answer
  overwrites broadcasts that arrived before it; a lost answer always hides one's own reaction.

## Model

| member | source | states |
|---|---|---|
| `ActorMerge.MarriedOnlyByMutualClaim` | crates/seiran-common/src/seiran_actor_merge.rs:10-18 | In every run of interleaved discoveries, with claims that change freely, a married row (u, d) implies a discovery of u that claimed d and a discovery of d that claimed u. |
| `ActorMerge.RowsOnlyGrow` | crates/seiran-common/src/seiran_actor_merge.rs:95-165 | However a run goes on, no row disappears, loses an identity or changes a claim once made while unmarried; a married row never changes again. |
| `ActorMerge.AllSound` | crates/seiran-common/migrations/20260906000000_actor_post_mutual_claim_unique.sql:10-12 | The UNIQUE constraints hold in every reachable table, rows carry exactly the columns of their type, and every row stems from discoveries of its identities and claims. |
| `ActorConfluence.FinalTable` | crates/seiran-common/src/seiran_actor_merge.rs:1-18 | With fixed claims, once all calls have returned the rows are exactly one married row per discovered, mutually claiming pair and one separate row for every other discovered identity, each once. |
| `ActorConfluence.OrderDoesNotMatter` | crates/seiran-common/src/seiran_actor_merge.rs:1-18 | Two schedules that discover the same identities, in any order, number and interleaving, end with the same rows. |
| `ActorConfluence.NoCallGivesUp` | crates/seiran-common/src/unique_retry.rs:17-49 | With fixed claims no discovery runs out of attempts; every one is done by its third attempt. |
| `ActorConfluence.EveryStepMakesProgress` | crates/seiran-common/src/unique_retry.rs:28-49 | With fixed claims an unfinished call gets strictly closer to its end with each of its own steps, at most nine, and nobody else can push it back. |
| `ActorRetries.WriteFailsWhenBlocked` | crates/seiran-common/src/seiran_actor_merge.rs:137-199 | In every reachable state a planned write violates a constraint if and only if the table then holds the identity in another row (insertion, marriage), or its counterpart waiting for it in a row of its own (insertion, and update of an unmarried row without a claim). |
| `ActorRetries.BlockedRediscoveryGivesUp` | crates/seiran-common/src/unique_retry.rs:28-49 | If u was stored before it claimed d, and d waits for u in a row of its own, a rediscovery of u with its new claim, left alone, fails with every attempt it has left, gives up, and leaves the table as it is. |
| `ActorRetries.ApartForGood` | crates/seiran-common/src/seiran_actor_merge.rs:8-10 | Identities once stored in different rows never share a row in any continuation, whatever is claimed later. |
| `ActorRetries.ThreeAttemptsHappen` | crates/seiran-common/src/unique_retry.rs:17-49 | The bound of three attempts is tight: a schedule in which a call is done with its third attempt, after two violations. |
| `ActorDiscovery.ActorsTable.Select` | crates/seiran-common/src/seiran_actor_merge.rs:90-94 | The row of an identity, if there is one. |
| `ActorDiscovery.ActorsTable.Store` | crates/seiran-common/migrations/20260906000000_actor_post_mutual_claim_unique.sql:10-12 | A write goes through exactly if it violates no constraint, and leaves the table alone otherwise. |
| `ActorDiscovery.ActorsTable.DiscoverFediActorOnce` | crates/seiran-common/src/seiran_actor_merge.rs:80-203 | The imperative attempt on the AP side does what one undisturbed attempt of the state machine does, to the table and to the caller; it reports a marriage if and only if it turned a stored, unmarried row into a married one. |
| `ActorDiscovery.ActorsTable.DiscoverBskyActorOnce` | crates/seiran-common/src/seiran_actor_merge.rs:257-368 | The same on the AT Protocol side, the mirror image, and as to the reported marriage. |
| `ActorDiscovery.ActorsTable.DiscoverWithRetry` | crates/seiran-common/src/unique_retry.rs:28-49 | With any writes of others between the attempts: the answer and the table are those of the first attempt without a violation, or of the fifth; all attempts before it were violations. Interference within an attempt is the subject of the state machine. |
| `ActorDiscovery.AttemptIsItsSteps` | crates/seiran-common/src/seiran_actor_merge.rs:74-77 | The undisturbed attempt is the interleaved one with nobody in between, in table, result and attempt counter. |
| `ActorDiscovery.DiscoveredIsStored` | crates/seiran-common/src/seiran_actor_merge.rs:68-203 | A discovery that returns leaves a row with the identity; a violation leaves the table unchanged; the constraints hold afterwards. |
| `ActorDiscovery.RediscoveryKeepsIdentities` | crates/seiran-common/src/seiran_actor_merge.rs:96-134 | A second discovery of the same identity finds that row, marries nobody, adds no row and changes no type or identity. |
| `ActorMarriages.DiscoveryDoes` | crates/seiran-common/src/seiran_actor_merge.rs:89-203 | A successful attempt: of a known identity it records the claim unless the row is married or has one; of an unknown one it marries the counterpart waiting for it, or else stores a new row; no other row changes, and a marriage is reported exactly if one was made. |
| `ActorMarriages.MarriedIsReportedExactly` | crates/seiran-common/src/seiran_actor_merge.rs:44-60 | In every run of interleaved discoveries a row is married if and only if some call has answered that it married it, and every such call comes from the other side than the row and carries the two identities it joins. |
| `ActorMarriages.MakerReports` | crates/seiran-common/src/seiran_actor_merge.rs:137-165 | The step that makes a marriage ends the call that takes it with an answer that says so. |
| `ActorMarriages.ReportIsMarriageExactly` | crates/seiran-common/src/seiran_actor_merge.rs:137-165 | A call that answers `married` has made the marriage if and only if the row was not married yet when it wrote, that is, if no call had reported it before. |
| `ActorMarriages.BothReport` | crates/seiran-common/src/seiran_actor_merge.rs:127-165 | Any two calls for the same identity that have both planned the same marriage both report it, and the second changes nothing in the table. |
| `ActorMarriages.TwoReportsHappen` | crates/seiran-common/src/seiran_actor_merge.rs:127-165 | A schedule in which that happens. |
| `Scanner.RunIsMaximal` | crates/seiran-common/src/mention.rs:258-278 | The scanned run consists of characters of its class only and cannot be extended. |
| `Scanner.ScanUrl` | crates/seiran-common/src/mention.rs:229-254 | The loop finds the end of a URL exactly where the definition by maximal runs puts it, or none. |
| `Scanner.ScanHashtag` | crates/seiran-common/src/mention.rs:258-278 | The loop finds a hashtag and its end exactly when the definition does, with the same body. |
| `Scanner.ScanMention` | crates/seiran-common/src/mention.rs:70-108 | The loop behind an `@` ends where the segment ends and classifies it as lone sign, handle, address or address without domain. |
| `Scanner.ScanMentionTokens` | crates/seiran-common/src/mention.rs:495-564 | The token scanner returns the tokens collected along the walk. |
| `Scanner.LexIsLossless` | crates/seiran-common/src/mention.rs:34-224 | The segments the walk cuts, put together again, are the text: nothing is skipped or read twice. |
| `Scanner.CollectIsTokens` | crates/seiran-common/src/mention.rs:495-564 | The token scanner walks along the same segments as the converters and reports exactly their mentions. |
| `ScannerFacts.SegmentExactly` | crates/seiran-common/src/mention.rs:34-224 | At every character the walk finds a URL, a tag or a mention if and only if one stands there, told character by character: a scheme and at least one character that may follow; a `#` not behind an ASCII word or a slash, with a letter in its body; an `@` not behind an ASCII word with the whole non-empty run of name characters behind it, and the domain behind a second `@`. |
| `ScannerFacts.WalkFinds` | crates/seiran-common/src/mention.rs:34-224 | So do all segments of the walk over any text, each beginning where the one before it ends. |
| `Spans.RenderedWellPlaced` | crates/seiran-common/src/mention.rs:34-224 | Recording spans while appending pieces gives spans that are sorted, disjoint, non-empty, in bounds, on character boundaries and around the text they were recorded for. |
| `Spans.CutBytes` | crates/seiran-common/src/mention.rs:677-883 | Cutting the output bytes at a span gives the UTF-8 bytes of the text the span stands for. |
| `Mentions.ConvertMentionsForBsky` | crates/seiran-common/src/mention.rs:34-224 | The converter loop produces the output and facets of the segments of the text, in order; it terminates. |
| `Mentions.ConvertMentionsForAp` | crates/seiran-common/src/mention.rs:677-883 | The same for the Fediverse converter and its inline spans. |
| `MentionTheorems.BskyFacetsWellPlaced` | crates/seiran-common/src/mention.rs:34-224 | For every text and every lookup result: facets are sorted, disjoint, non-empty and on character boundaries; tag facets cover `#tag`, mention facets `@` and a name of the account they carry, link facets their own URI, or an unresolvable address whose home or profile page they carry. |
| `MentionTheorems.BskyPieceFits` | crates/seiran-common/src/mention.rs:114-221 | The same for the text and facet of one segment. |
| `MentionTheorems.ApSpansCutTheirNames` | crates/seiran-common/src/mention.rs:677-883 | For every text: each inline span cuts exactly its name out of the output bytes. |
| `MentionTheorems.BskyRewritesExactly` | crates/seiran-common/src/mention.rs:114-221 | A segment is written differently from how it was read if and only if it is a mention that names the local domain, a local actor or a resolvable account with another spelling. |
| `MentionTheorems.ApRewritesExactly` | crates/seiran-common/src/mention.rs:745-881 | The same for the Fediverse converter, whose addresses are always kept. |
| `MentionTheorems.OnlyTokensAreRewritten` | crates/seiran-common/src/mention.rs:34-224 | The segments put together are the text, the token scanner reports exactly their mentions, and both converters write something else only at reported tokens they do not keep. |
| `MentionTheorems.UnchangedWithoutRewrites` | crates/seiran-common/src/mention.rs:34-224 | If no reported token names the local domain, a local actor or a resolvable account, the output bytes are the bytes of the text. |
| `MentionFacets.SpansAreMarks` | crates/seiran-common/src/mention.rs:34-224 | The recorded spans are the marks of the pieces, in their order, each on its piece: none missing, none extra. |
| `MentionFacets.BskyFacetsExactly` | crates/seiran-common/src/mention.rs:114-221 | For every text, segment by segment: a URL and a tag carry their facet, a token is written as the account it names and carries a mention facet if and only if that account has a DID (that one), a link facet if and only if it is a Fediverse account that cannot be resolved (to its home or profile page), and nothing else carries any; the facets stand in the order of the segments, and there are no others. |
| `MentionFacets.ApSpansExactly` | crates/seiran-common/src/mention.rs:745-881 | The same for the Fediverse converter: kind, `href` and name of the inline span of each segment, by who lives here and what the bridge knows. |
| `Hashtags.ExtractHashtags` | crates/seiran-common/src/hashtag.rs:23-58 | The one pass that jumps over tag bodies equals the slow definition that looks at every `#`. |
| `Hashtags.StoredTags` | crates/seiran-common/src/hashtag.rs:23-58 | The result has no repeats and holds exactly the lower-cased tags that occur somewhere in the text. |
| `Hashtags.TagsInOrder` | crates/seiran-common/src/hashtag.rs:23-58 | The tags come in the order of their first occurrence. |
| `Jetstream.OlderThanCursorIsHanded` | crates/seiran-atp-repo/src/firehose.rs:167-216 | In every run with crashes, reconnects, failed saves and overlapping leaders: an event that came in since the last cursorless connection and is strictly older than the stored cursor has been handed to `process_message`. |
| `Jetstream.ReplayIsInclusive` | crates/seiran-atp-repo/src/firehose.rs:136-146 | Replay from a cursor starts at the first event not older than it, so an event at the cursor itself is sent again. |
| `Jetstream.ReconnectResumes` | crates/seiran-atp-repo/src/firehose.rs:148-165 | A connection that loads the cursor is sent again every event since the last cursorless connection not handed over yet. |
| `Jetstream.LiveStaysWhileLoadsSucceed` | crates/seiran-atp-repo/src/firehose.rs:91-98 | Once a cursor is stored the guarantee never narrows again as long as loading the cursor succeeds. |
| `Jetstream.LostForever` | crates/seiran-atp-repo/src/firehose.rs:91-98 | An event that no connection can still be sent and that the stored cursor has passed is never handed over, whatever happens afterwards. |
| `Jetstream.FailedLoadIsHarmlessExactly` | crates/seiran-atp-repo/src/firehose.rs:91-98 | In any state, if loading the cursor fails and the feed goes on to a newer readable event: no continuation with successful loads lets the stored cursor pass an event not handed over, if and only if everything since the last cursorless connection had been handed over when the load failed. |
| `Jetstream.LoadedCursorKeepsPromise` | crates/seiran-atp-repo/src/firehose.rs:148-165 | With the cursor loaded, no such continuation passes over an event, outstanding or not. |
| `Jetstream.FailedLoadLosesAnEvent` | crates/seiran-atp-repo/src/firehose.rs:91-98 | An instance: the code takes a failed load for no cursor, connects live, and the event of an outage is lost for good. |
| `JetstreamCursor.ConnectionBegins` | crates/seiran-atp-repo/src/firehose.rs:136-165 | A connection that loads the cursor begins at the first event not older than it; one without begins at the end of the feed. |
| `JetstreamCursor.AlwaysRemembers` | crates/seiran-atp-repo/src/firehose.rs:167-193 | In every run each connection remembers the time of the last readable event it has processed, and none if and only if there was none. |
| `JetstreamCursor.StopSavesLast` | crates/seiran-atp-repo/src/firehose.rs:194-203 | In every run a connection that stops cleanly leaves the time of the last readable event it has processed as the cursor, whatever was saved before; if it has processed none, it leaves the cursor alone. |
| `JetstreamClient.Deployment.OnText` | crates/seiran-atp-repo/src/firehose.rs:177-193 | One message is the receive and process steps of the state machine: the cursor is saved when five seconds have passed and the event is readable, the event is handed over, its time is remembered if it is readable, and otherwise the one before. |
| `JetstreamClient.Deployment.WakeUp` | crates/seiran-atp-repo/src/firehose.rs:171-213 | What each way of being woken does, with new events and other subscribers at work before it. |
| `JetstreamClient.Deployment.ConnectAndProcess` | crates/seiran-atp-repo/src/firehose.rs:148-216 | The receive loop, for any sequence of wake-ups and any steps of others before each, is a run of the state machine; it ends with the first ending wake-up, has handed over an unbroken run of events from its start, and a clean stop leaves the time of the last readable one of them as the cursor. |
| `Leader.OverlapIsShort` | crates/seiran-common/src/leader.rs:47-138 | Two processes run the same task only if one has lost its lock connection, and never longer than check interval plus stop timeout after that. |
| `Leader.RunnerHoldsTheLock` | crates/seiran-common/src/leader.rs:52-138 | A process that runs the task and still has its connection holds the lock, and every other runner has lost its own. |
| `Leader.TakeoverIsPrompt` | crates/seiran-common/src/leader.rs:42-75 | A free lock is taken within the retry interval, counted from the latest of: the lock became free, the process began to wait, its last attempt ended in an error. |
| `LeaderLiveness.AttemptTakesFreeLock` | crates/seiran-common/src/leader.rs:63-88 | In every reachable state an attempt without error makes the process run the task and hold the lock if and only if the lock was free; otherwise it waits for the retry interval. |
| `LeaderLiveness.CheckStopsExactly` | crates/seiran-common/src/leader.rs:108-119 | A ping that is due makes the process stop its task if and only if its session is lost; a process whose session is alive leads on. |
| `LeaderLiveness.FreeLockIsTaken` | crates/seiran-common/src/leader.rs:52-75 | From every reachable state with a free lock and a waiting process there is a continuation without crashes, lost sessions or errors, of at most the retry interval, after which somebody leads and holds the lock. |
| `LeaderLoop.Cluster.WakeUp` | crates/seiran-common/src/leader.rs:108-119 | What each way of being woken does to the process and to the lock; a due ping stops the task if and only if the session is lost. |
| `LeaderLoop.Cluster.Lead` | crates/seiran-common/src/leader.rs:91-138 | The tenure loop is the run scripted by the wake-ups it has used and, if it has to stop its task, by the end of the task; it goes on only through successful pings, and once it has stepped down its session does not hold the lock. |
| `LeaderLoop.Cluster.StopTask` | crates/seiran-common/src/leader.rs:121-137 | The process steps down if and only if the task stops in time or the time to abort it has come; it then does not hold the lock, and until then keeps its role. |
| `FollowSaga.AgreementExactlyWithoutForgetting` | crates/seiran-common/src/follow_exec.rs:138-197 | For every interleaving of follows and unfollows with failures of every access: once nothing is in flight, the AT Protocol records are exactly the key in the row, or none, if and only if no step forgot a record and no unfollow stopped between deleting the record the row names and deleting the row. |
| `FollowSaga.DanglingExactly` | crates/seiran-api/src/handlers/follows.rs:205-280 | Once nothing is in flight, the row names a record that does not exist if and only if the unfollow that deleted it failed to delete the row, and the row still names it. |
| `FollowSaga.OrphansComeFromForgetting` | crates/seiran-common/src/follow_exec.rs:153-187 | In every reachable state, in flight or not: no record is left without anybody responsible for it if and only if no step forgot one. |
| `FollowSaga.OrphanStays` | crates/seiran-common/src/follow_exec.rs:138-197 | A record nobody is responsible for is never cleaned up. |
| `FollowSaga.ForgettingOrphans` | crates/seiran-common/src/follow_exec.rs:153-187 | Each step that forgets a record leaves that record behind. |
| `FollowSaga.OnlyForgettingOrphans` | crates/seiran-common/src/follow_exec.rs:153-187 | A record becomes nobody's only by a forgetting step. |
| `FollowSaga.SerialRunsAgree` | crates/seiran-common/src/follow_exec.rs:138-197 | With any number of concurrent follows, failed commits included, and unfollows that overlap nothing, both stores agree in the end. |
| `FollowSaga.RaceLeavesARecordBehind` | crates/seiran-api/src/handlers/follows.rs:205-280 | A concrete race, an unfollow that reads between claim and record, ends with no row and a record still in the repository. |
| `FollowCalls.Stores.EstablishAtpFollow` | crates/seiran-common/src/follow_exec.rs:138-197 | With any steps of other calls before each access and any access failing, the call is a run of the state machine along one of its paths (a beginning of claim, commit, record, take back; or claim, commit, roll back) and answers with the phase it ends in; left alone, it leaves the row and record it should and keeps agreement. |
| `FollowCalls.Stores.FinishFollow` | crates/seiran-common/src/follow_exec.rs:172-189 | The end of a follow: the key goes into the row, or the record is taken back if the row is gone. |
| `FollowCalls.Stores.UnfollowTarget` | crates/seiran-api/src/handlers/follows.rs:205-280 | The same for the unfollow, along its two paths: it succeeds only if row and record are dealt with, and is abandoned if only the record is; left alone, a failed record deletion changes nothing and agreement is kept. |
| `FollowCalls.Stores.InsertAccepted` | crates/seiran-common/src/repository/follow.rs:398-415 | The claim succeeds for exactly one caller and never changes an existing row. |
| `FollowCalls.Stores.SetAtpRkey` | crates/seiran-common/src/repository/follow.rs:481-497 | The key is recorded exactly if the row still exists. |
| `RateLimit.FewSecretsGetThrough` | crates/seiran-api/src/rate_limit.rs:326-371 | In every interleaving, of any set of requests let through for one identifier, those inside the window of the last recorded one tried at most its `max_variants` different secrets. |
| `RateLimit.FewIdentifiersGetThrough` | crates/seiran-api/src/rate_limit.rs:326-371 | Likewise for one secret tried on many identifiers. |
| `RateLimit.ManyRejectionsBlock` | crates/seiran-api/src/rate_limit.rs:357-398 | However rejections overlap: if those of one address inside the window of the last of them to count reach the threshold, the address has been blocked. |
| `RateLimit.AlwaysSound` | crates/seiran-common/src/repository/auth_rate_limit.rs:97-161 | In every run each request's count is that of the log as it was when it counted, its own row included, and a row is flagged exactly if it was marked. |
| `RateLimitExact.LetThroughExactly` | crates/seiran-api/src/rate_limit.rs:326-371 | In every interleaving a request that has made both counts is let through if and only if the different secrets tried on its identifier, in the log as it was when it counted them, and the different identifiers its secret was tried on, likewise, are each at most `max_variants`; otherwise it is turned away. |
| `RateLimitExact.BlockedExactly` | crates/seiran-api/src/rate_limit.rs:374-398 | In every interleaving an address is blocked if and only if some finished rejection of it counted at least `block_threshold` marked attempts of that address inside its window. |
| `RateLimitExact.CountingRejections` | crates/seiran-api/src/rate_limit.rs:382-396 | A rejection goes on to block its address if and only if the rejected attempts of that address in the log since the beginning of its window reach the threshold. |
| `RateLimiter.Limiter.CheckAndRecord` | crates/seiran-api/src/rate_limit.rs:313-371 | With any steps of other requests and any failures between its database calls, the call is a run of the state machine, a beginning of its script of record, counts and rejection; it answers that the request may go on if and only if it passed, too many requests if and only if it was rejected, and an internal error if a call failed. |
| `RateLimiter.Limiter.Reject` | crates/seiran-api/src/rate_limit.rs:357-398 | The same for the rejection: mark, count the rejections of the address, block it. |
| `DmSync.FetchConvoMessages` | crates/seiran-atp-repo/src/bsky_dm_poll.rs:260-338 | The paging loop returns, newest first, exactly the messages behind the synced one that the caps allow. |
| `DmSync.GetMessages` | crates/seiran-atp-repo/src/bsky_dm_poll.rs:281-303 | One page of the peer server, as the paging relies on it. |
| `DmSync.TakeNew` | crates/seiran-atp-repo/src/bsky_dm_poll.rs:305-316 | Of a page, exactly the messages newer than the synced one are taken. |
| `DmGaps.FetchedExactly` | crates/seiran-atp-repo/src/bsky_dm_poll.rs:260-338 | A poll fetches a message if and only if it is among the last 2000 on a first sync, or later among the last 100 with the one synced last before it. |
| `DmGaps.CompletePollReachesTheEnd` | crates/seiran-atp-repo/src/bsky_dm_poll.rs:121-219 | A poll that runs to its end, with a thread to attach to, leaves the cursor at the newest message. |
| `DmSync.ConvoStore.SyncConvo` | crates/seiran-atp-repo/src/bsky_dm_poll.rs:121-219 | A sync, broken off by an error after any number of messages, has handled exactly that many of the fetched messages in sending order. |
| `DmSync.ConvoStore.ImportPeerMessage` | crates/seiran-common/src/repository/dm.rs:707-753 | Post and cursor change together, and a message id is imported once. |
| `DmSync.ImportedWithoutGap` | crates/seiran-atp-repo/src/bsky_dm_poll.rs:121-219 | In every run whose polls are within reach (first sync within its caps, later ones at most a page behind), with polls broken off anywhere, the imported messages are the peer's messages of a prefix of the conversation, in order, once each. |
| `DmSync.PollSyncs` | crates/seiran-atp-repo/src/bsky_dm_poll.rs:121-219 | One poll within reach, cut off anywhere, keeps that, and completes the import if it is not cut off. |
| `DmSync.CompletePollIsCompleteExactly` | crates/seiran-atp-repo/src/bsky_dm_poll.rs:260-338 | One poll that runs to its end imports everything if and only if the peer sent nothing between the cursor and the oldest message fetched. |
| `DmGaps.GaplessExactly` | crates/seiran-atp-repo/src/bsky_dm_poll.rs:121-219 | In every run of arrivals, sends and polls broken off anywhere: what is imported is the peer's messages of a prefix of the conversation, in order, once each, if and only if no poll has moved the cursor over peer messages it had not fetched. |
| `DmGaps.JumpLosesForGood` | crates/seiran-atp-repo/src/bsky_dm_poll.rs:260-338 | After such a poll some message of the peer is missing in every continuation. |
| `DmGaps.SkippedForGood` | crates/seiran-atp-repo/src/bsky_dm_poll.rs:300-338 | A peer message the cursor has passed without importing it is never imported, whatever follows. |
| `DmGaps.BrokenOffFirstSyncLoses` | crates/seiran-atp-repo/src/bsky_dm_poll.rs:187-219 | For any 102 to 2000 peer messages: if the first sync breaks off behind the first one and the next poll runs to its end, the second is missing for good. |
| `Bits32.OrIsPlus` | e2e/fixtures/subscribe-repos-client.ts:44-55 | A bitwise or of numbers without common bits is their sum. |
| `Varint.EncodeUvarint` | crates/seiran-common/src/atp/repo.rs:445-455 | The loop appends the varint. |
| `Varint.UvarintIs` | crates/seiran-common/src/atp/repo.rs:445-455 | A varint stands for its number in seven-bit digits, all bytes but the last have the high bit set, and none is wasted. |
| `Varint.ReadUvarint` | e2e/fixtures/subscribe-repos-client.ts:44-55 | The reader loop, with JavaScript's 32-bit shifts and reads past the end, returns on every input and always advances. |
| `Varint.ReaderInverts` | e2e/fixtures/subscribe-repos-client.ts:44-55 | For every number below 2^32, at any position, the reader gives back the number written there and the position behind it. |
| `Car.EncodeCar` | crates/seiran-common/src/atp/repo.rs:421-443 | The writer loop produces header length, header and length-prefixed entries. |
| `Car.CidByteLength` | e2e/fixtures/subscribe-repos-client.ts:61-70 | Where the parser sees the end of a CID. |
| `Car.CidEndFound` | e2e/fixtures/subscribe-repos-client.ts:61-70 | The end of a written CID is found from its own length field. |
| `Car.ToHexIsInjective` | e2e/fixtures/subscribe-repos-client.ts:37-41 | Different byte strings print as different hex strings. |
| `Car.HexReadsBack` | e2e/fixtures/subscribe-repos-client.ts:37-41 | Two digits per byte, which read back, base 16, as the bytes. |
| `Car.KeysAreInjective` | e2e/fixtures/subscribe-repos-client.ts:73-89 | Different CIDs get different map keys. |
| `Car.ParseCarBlocks` | e2e/fixtures/subscribe-repos-client.ts:73-89 | The parser loop terminates on every input and builds the map of the frames it finds. |
| `Car.ParseInvertsEncode` | e2e/fixtures/subscribe-repos-client.ts:73-89 | Parsing what was written, for all lengths below 2^32, gives each entry its block; of repeated CIDs the last one stays. |
| `Car.ParseIsExact` | e2e/fixtures/subscribe-repos-client.ts:73-89 | With distinct CIDs the parser returns exactly the map written: every entry's block under its key and no other key. |
| `PaginationTheorems.ListStaysARun` | frontend/src/hooks/useCursorPagination.ts:35-89 | Under any interleaving of key changes, loads, late replies, errors and stale renderings the list is the upper part of its feed without gap or repeat, `hasMore` goes out only at the end, and at most one load per generation is in flight; replacements must not drop a cursor in use. |
| `PaginationTheorems.ReplacingIsHarmlessExactly` | frontend/src/pages/HomePage.tsx:222-262 | A truthful replacement of the list can do no harm in any continuation if and only if it drops no cursor that a load continues from or may continue from. |
| `PaginationTheorems.KeyAndGuardAreNeededExactly` | frontend/src/pages/HomePage.tsx:180-191 | Pages of a kind keep their lists runs of their feeds in every run if and only if they pass their key to the hook and load only while the rendered list is the one of the key. |
| `PaginationTheorems.LateReplySpoils` | frontend/src/pages/HashtagPage.tsx:31-62 | A page that passes no key: a concrete run in which a late reply lands on the list of another tag. |
| `PaginationTheorems.EarlyLoadSpoils` | frontend/src/pages/HomePage.tsx:186-191 | A page without the guard: a concrete run in which the old list goes on with items of the new key. |
| `Pagination.MergeExtends` | frontend/src/hooks/useCursorPagination.ts:74-78 | Appending the unseen items of a page that starts within the list or right behind it leaves neither gap nor repeat. |
| `Pagination.PageExtends` | frontend/src/hooks/useCursorPagination.ts:66-80 | A page from a cursor on the list extends the list, and a short page completes it. |
| `PaginationProgress.LoadIsSentExactly` | frontend/src/hooks/useCursorPagination.ts:63-71 | A load is sent if and only if the page may load, none of this generation is in flight and a cursor is on screen, and it asks for what follows that cursor. |
| `PaginationProgress.OnePageMore` | frontend/src/hooks/useCursorPagination.ts:63-89 | A load answered, settled and rendered makes the list one page longer, and `hasMore` holds on if and only if the page was full. |
| `PaginationProgress.ScrollingReachesTheEnd` | frontend/src/hooks/useCursorPagination.ts:63-89 | From every calm state scrolling on, without errors or replacements, makes the list the whole feed, and the hook then knows it. |
| `PaginationHook.Hook.Rerender` | frontend/src/hooks/useCursorPagination.ts:35-47 | A rendering: the cursor list is the rendered one, and a changed key starts a new generation. |
| `PaginationHook.Hook.LoadNext` | frontend/src/hooks/useCursorPagination.ts:63-71 | A load is sent exactly if none of this generation is in flight and there is a cursor. |
| `PaginationHook.Hook.Received` | frontend/src/hooks/useCursorPagination.ts:72-80 | A reply of an older generation changes nothing; one of the current generation appends its unseen items. |
| `PaginationHook.Hook.Finished` | frontend/src/hooks/useCursorPagination.ts:84-88 | The clean-up never clears the mark of a newer load. |
| `Reactions.OptimisticIsViewExactly` | frontend/src/hooks/useNoteCardActions.ts:27-49 | From a view of a map actor to emoji, the optimistic update gives the view of the map with my entry set or removed, if and only if my reaction so far is not the empty string. |
| `ReactionRuns.OptimisticShows` | crates/seiran-common/src/streaming.rs:206-214 | On what the server sends, whose aggregates drop empty contents, it always does. |
| `Reactions.UpdateIsView` | frontend/src/hooks/useNoteCardActions.ts:57-72 | A broadcast gives my view of the new map, from whichever actor it comes, even if earlier broadcasts were lost. |
| `Reactions.ViewIsConsistent` | frontend/src/hooks/useNoteCardActions.ts:22-26 | At most one chip is mine, and all counts are positive. |
| `ReactionRuns.PressShows` | frontend/src/hooks/useNoteCardActions.ts:153-161 | A press on chips that are my view shows at once my view of the map with my reaction removed if it was that one, and otherwise set to it; a moved-out account can only remove. |
| `ReactionRuns.ChipsRecover` | frontend/src/hooks/useNoteCardActions.ts:109-173 | In every run of changes by anybody, broadcasts heard late, out of order or never, presses, answers, refusals and lost answers: when nothing is pending the chips mark exactly my reaction if and only if what the client learnt last (from a broadcast about me, one without the emoji, an answer, or the list a failure restores) is my entry on the server; hearing the totals of the current map makes them a view of it if and only if what is learnt with it is. |
| `ReactionRuns.LastLessonDecides` | frontend/src/hooks/useNoteCardActions.ts:109-114 | From the last thing that taught the client my reaction on, with any changes, mine from other tabs among them, the chips mark my reaction if and only if my entry is what was learnt then. |
| `ReactionRuns.WithoutBroadcastsExactly` | crates/seiran-common/src/streaming.rs:238-282 | For a client that hears nothing, such as one that does not follow the author: right chips stay right if and only if the last change of my reaction by another tab leaves me with the same one. |
| `ReactionRuns.NonFollowerMissesOwnChange` | crates/seiran-common/src/streaming.rs:238-282 | The comment in the code promises that reactions from other tabs show; for such a client one change from another tab already hides my reaction. |
| `ReactionRuns.MarkedThroughoutExactly` | frontend/src/hooks/useNoteCardActions.ts:109-173 | Whole runs: the chips mark my reaction at every moment with nothing pending if and only if at every such moment no other tab changes it and every broadcast heard teaches, and every end of a press shows, what my entry is then. |
| `ReactionRuns.ConfirmMarksExactly` | frontend/src/hooks/useNoteCardActions.ts:161-166 | After an answer the chips mark exactly my reaction if and only if my entry has not changed since the server took the answer. |
| `ReactionRuns.FailureMarksExactly` | frontend/src/hooks/useNoteCardActions.ts:166-170 | After a refusal or a lost answer the chips mark exactly my reaction if and only if my entry is what the client had learnt before the press. |
| `ReactionRuns.EndOfPressIsViewExactly` | frontend/src/hooks/useNoteCardActions.ts:153-173 | Whatever ends a press, whatever has changed since and whether it was heard of: the chips put on screen are my view of the server's map, less the actors I have hidden, if and only if they show the totals the server gives out at that moment and what they teach is my entry. |
| `ReactionRuns.AnswerIsViewExactly` | frontend/src/hooks/useNoteCardActions.ts:161-166 | An answer is my view of the map on arrival if and only if, among the actors I have not hidden, as many have come to each emoji as have left it since the server took it, and my own reaction is the same. |
| `ReactionRuns.OneChangeMissed` | crates/seiran-api/src/handlers/notes/reactions.rs:326-348 | One visible change of anybody between the server's answer and its arrival makes the answer no view of the map. |
| `ReactionRuns.QuietRefusalIsView` | frontend/src/hooks/useNoteCardActions.ts:153-173 | With nothing in between, a refusal puts everything back as it was. |
| `ReactionRuns.LostAnswerHidesMine` | frontend/src/hooks/useNoteCardActions.ts:153-173 | For all chips, maps and emoji: if the server processes a press and its answer is lost, the chips do not mark my reaction. |
| `ReactionRuns.HiddenStaysHidden` | frontend/src/hooks/useNoteCardActions.ts:109-114 | And a reaction hidden that way stays hidden through any changes by others and broadcasts about them. |
| `ReactionRuns.OtherTabHidesMine` | frontend/src/hooks/useNoteCardActions.ts:109-114 | If another tab changes my reaction between the server's answer and its arrival, the answer hides it. |
| `NoteCard.Card.StartToggle` | frontend/src/hooks/useNoteCardActions.ts:153-161 | The handler up to its request: ignored while another press is pending or for a new reaction of a moved-out account, otherwise the press of the state machine. |
| `NoteCard.Card.EndToggle` | frontend/src/hooks/useNoteCardActions.ts:161-173 | The handler after its request: the answer, a refusal, or an error after the server has processed the press; the lock is free. |
| `NoteCard.Card.OnUpdate` | frontend/src/hooks/useNoteCardActions.ts:109-114 | A broadcast is heard as in the state machine; one of the current map that tells my entry, or with chips that know it, makes them my view of that map. |
| `DraftKeys.KeysAreApart` | frontend/src/lib/composerDraft.ts:46-59 | No two storage keys collide, whatever the user ids and post ids are, colons in post ids included. |
| `DraftKeys.KeysLookLike` | frontend/src/lib/composerDraft.ts:46-59 | The keys are those the code spells out. |
| `DraftHistory.DraftsAreTheIndex` | frontend/src/lib/composerDraft.ts:46-118 | After any saves and clears, for each user and mode: the stored drafts are those of the posts in the index, each the last saved there; the index has no repeats, at most ten posts, least recently saved first; a saved draft is missing only if ten other posts were saved since. |
| `DraftEviction.DraftIsKeptExactly` | frontend/src/lib/composerDraft.ts:71-82 | A draft saved and not cleared loads if and only if at no moment since there were ten newer drafts of the same user and mode. |
| `DraftHistory.JustSavedLoadsBack` | frontend/src/lib/composerDraft.ts:90-118 | A draft just saved loads back unchanged; an empty one, or a clear, leaves none. |
| `DraftHistory.AnythingIsKept` | frontend/src/lib/composerDraft.ts:99-113 | A saved draft loads back if and only if there is something in it: a character that is not white space, an attachment, a poll, a content warning or a link card. |
| `DraftHistory.ComposeDraftStays` | frontend/src/lib/composerDraft.ts:90-118 | The draft of a new post is the last one saved, whatever happens to replies and quotes. |
| `DraftHistory.SaveOnPost` | frontend/src/lib/composerDraft.ts:100-113 | A save stores its draft, moves its post to the end of the index, takes away at most the oldest draft of the same owner, and touches nothing else. |
| `DraftHistory.ClearOnPost` | frontend/src/lib/composerDraft.ts:115-118 | A clear takes away the draft and its place in the index, and touches nothing else. |
| `Drafts.DraftStorage.TouchIndex` | frontend/src/lib/composerDraft.ts:71-82 | The loop leaves the storage that dropping the oldest posts one by one specifies. |
| `Drafts.DraftStorage.SaveComposerDraft` | frontend/src/lib/composerDraft.ts:100-113 | The storage after a save; an empty draft is a clear. |
| `Drafts.DraftStorage.ClearComposerDraft` | frontend/src/lib/composerDraft.ts:115-118 | The storage after a clear. |
| `Drafts.DraftStorage.LoadComposerDraft` | frontend/src/lib/composerDraft.ts:90-97 | What is stored for the target, or nothing. |
| `Snowflake.TimeComesBackExactly` | crates/seiran-common/src/id.rs:36-39 | The milliseconds packed come back if and only if they lie in [-2^47, 2^47). |
| `Snowflake.FloorSeparatesExactly` | crates/seiran-common/src/id.rs:29-34 | `id >= floor(t)` holds exactly when the time of the id is at or after the millisecond of t, unless both lie before 1970 with t not later. |
| `Snowflake.LaterIsGreater` | crates/seiran-common/src/id.rs:6-27 | Ids sort by time. |
| `Snowflake.NeverInTheFuture` | crates/seiran-common/src/id.rs:9-16 | For times that fit: an id is dated to the millisecond asked for, and to that of now if the time asked for is in the future. |
| `Snowflake.NeighboursDiffer` | crates/seiran-common/src/id.rs:21-24 | The ids of any 65,536 consecutive counter values are pairwise distinct whatever their times, also where the 32-bit counter wraps. |
| `Snowflake.Sequence.GenerateSnowflakeId` | crates/seiran-common/src/id.rs:9-27 | The id returned and the counter left behind. |

## Left out

- Local rows of the actors table, profile columns and two-row reunification in the merge: they take no part in the identity invariants.
- Deadlocks and database errors other than unique violations in the merge: they end a call at once.
- ActorConfluence.FinalTable, ActorConfluence.NoCallGivesUp: need claims that never change; with changing claims two rows can stay apart for good (`ActorRetries.ApartForGood`).
- Lookups in post text (databases, WebFinger, handle resolution): functions of their arguments; lower-casing and the Unicode classes are parameters, with `#` not alphanumeric where that is needed.
- The `wantedDids` filter of the Jetstream connection and its reconnects on a changed filter, and the back-off between connections: they change which events are sent, not the cursor protocol.
- Jetstream.OlderThanCursorIsHanded: handed over means that `process_message` was called; its effects on the database rest on other code.
- Leader clocks: pings, aborts and the process itself are not delayed, so the bounds are those of the constants; an acquisition whose reply is lost after the lock was granted.
- FollowSaga: AP delivery, blocks and local follows around the saga; one pair at a time, as calls for different pairs share no row.
- RateLimit: the lookup of an address among the blocked ones before a request, unblocking and expiry of blocks; the hash is assumed free of collisions in the two counting theorems.
- DmSync: reactions on messages, notifications, conversation discovery and group conversations.
- Car: the CBOR of header and commit frames; a header is any byte string. In the source a shift works on signed 32-bit numbers and is made unsigned at the end; the model works on the unsigned pattern throughout.
- Pagination: feeds do not change while they are shown, so items put on top of a list and merges of its head are not modelled; the effect that loads a first page is cancelled at once when the key changes.
- Reactions: image URLs of chips and the order of chips beyond what the functions keep; database errors in an aggregate, which the server takes for no reactions; reaction content is taken as the client sends it.
- Drafts: JSON text, storage quotas and other tabs writing at the same time; drafts and index lists are kept parsed.
- Snowflake: the clock, which is a parameter.
- Route tables, UI components, cryptography, SMTP, object storage and administration: plumbing or library code.
- Count-then-act limits on posts and follows: they are not atomic, so there is no bound to prove.
