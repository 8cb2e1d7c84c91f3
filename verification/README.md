# A verified model of the event plane and its neighbours

The repository is a small family of services that tell one another what happened. A producer keeps an
append-only **outbox** and streams it as server-sent events; a consumer keeps one durable row and works
through the stream at least once and in order. Around that protocol stand the routing globs that select
events, the OAuth token endpoint of the dashboard, the pollers that turn Dropbox and Gmail into events, and
the cron ticker. This project models that code in Dafny and proves what it promises.

Time is an integer, a transaction is one atomic step, and a process may die between any two steps. Hashes,
encodings, calendars and the remote services are parameters. Code that updates a state in place is a class
whose methods are proved against functions on values; the theorems are about those functions.

| file | what it models |
|---|---|
| `Numeric.dfy`, `Cursor.dfy` | Go's decimal integers, and the feed cursor `<generation>.<seq>` |
| `Sse.dfy` | the consumer's parser of event streams, against the frames a feed writes |
| `Routing.dfy`, `Matching.dfy` | the glob compiler, and the memoised matcher against the language of the tokens |
| `SubjectSearch.dfy`, `OpenSubjects.dfy` | the automaton search that decides whether a prefix can still match |
| `Outbox.dfy` | append, retention, fetch, the connect-time check, generations |
| `Consumer.dfy` | the offset row, one frame, one connection, the reconnect loop |
| `EventPlane.dfy`, `Delivery.dfy` | both together as one protocol, and its guarantees over every run |
| `Wire.dfy` | from bytes to the protocol: one round of the engine over a cut feed is a run of it |
| `OAuth.dfy`, `TokenChains.dfy` | the token endpoint, and lineage and finality over every run |
| `PathPrefix.dfy`, `DropboxSync.dfy`, `DropboxReplay.dfy` | the subtree selection of the index, applying a page of Dropbox entries, and crash and replay |
| `Gmail.dfy` | draining the mailbox history, and committing it once |
| `Cron.dfy`, `Tick.dfy` | cron expressions as bit masks, and the tick worker |
| `RateLimit.dfy` | the sliding-window limiter of the dashboard |
| `ContentHash.dfy`, `Upload.dfy` | the streaming block hash, and the upload session in chunks |

Some promises do not hold on all inputs. For each of them the project proves exactly when it does, and gives
a shortest case where it does not:

- The parser can dispatch half a frame: received bytes stand whatever follows, unless they end in a lone
  carriage return behind data lines (`Sse.TruncationExactly`, `Sse.CarriageReturnDispatchesHalfAFrame`).
- `CouldMatchSubject` answers no where `Match` would say yes: it is right for every prefix iff some token takes
  nothing, or nothing behind a `**/` takes line breaks only and every class that a subject may have to spell
  takes a character of the search alphabet (`OpenSubjects.ExactlyWhen`, `OpenSubjects.UnwitnessedClassIsMissed`,
  `OpenSubjects.LineBreakInPrefixIsMissed`).
- Two sources can share a routing key: iff one of them reads as a key of the other (`Routing.KeysMeetExactly`).
- A row between the start and the cursor may never reach the handler: of the rows that are retained, exactly
  those that the feed can encode and the consumer can parse do (`Delivery.RetainedIsHandled`).
- A page of Dropbox entries is not always applied once by a replay: it is, whatever crashes, iff it gives no
  path two revisions and deletes no ancestor of a file it brings (`DropboxReplay.ReplayExactlyWhen`,
  `DropboxReplay.DeletedAncestorIsReplayed`).
- The bound on failing entries is never reached unless it is one: `drain` counts failures in a map of its own
  and ends at the first one, so, against its comment (`dropbox/internal/dropbox/sync.go:225-228`), an entry
  holds up its page for as long as it fails (`DropboxSync.BoundIsNeverReached`,
  `DropboxSync.PassedExactlyWhen`).
- A cron term's mask is the progression written down iff its step does not wrap around into the field
  (`Cron.TermIsExact`, `Cron.HugeStepSetsAnotherMinute`), and an expression matches what it means iff its fields
  mean whatever their terms stray to, or one of two day fields means every day (`Cron.CompilationKeepsMeaning`).
- The rate limiter bounds every window when the requests for a key are decided in the order of the times they
  read, whatever the other keys do; in any other order it does iff the limit is one
  (`RateLimit.AtMostLimitInWindow`, `RateLimit.AnyOrderExactly`).
- A tick is told once per minute iff no slot of the run comes again after a different one, and in order iff the
  slots never go back (`Tick.NoneTwiceExactly`, `Tick.IncreasingExactly`, `Tick.ClockBackRepeats`).

## Model

| member | source | states |
|---|---|---|
| `Numeric.ParseFormat` | eventplane/outbox/cursor.go:46-56 | reading a decimal number gives back what was written, exactly for 64-bit integers |
| `Cursor.RoundTrip` | eventplane/outbox/cursor.go:37-56 | a cursor is read back as its position iff the generation is not empty and the number is a non-negative 64-bit integer; otherwise it is unintelligible |
| `Cursor.CursorNamesOnePosition` | eventplane/outbox/cursor.go:37-39 | no two positions share a cursor |
| `Cursor.ParsedIsMintable` | eventplane/outbox/cursor.go:46-56 | whatever a peer presents, a cursor that parses denotes the position of a cursor that can be minted |
| `Sse.ScanFrames` | eventplane/consumer/sse.go:37-89 | the line loop hands over the frames of the stream in order, up to the one whose handling stops it |
| `Sse.TruncationSafe` | eventplane/consumer/sse.go:37-89 | over any stream without carriage returns, however long its lines, a byte prefix yields a prefix of the frames: half a frame is never dispatched |
| `Sse.TruncationExactly` | eventplane/consumer/sse.go:37-89 | the frames of what was received stand whatever bytes follow iff it does not end in a lone carriage return behind data lines that are not yet dispatched |
| `Sse.CarriageReturnDispatchesHalfAFrame` | eventplane/consumer/sse.go:37-89 | a stream with a carriage return whose prefix yields a frame that the whole does not |
| `Sse.ScanOfRender` | eventplane/consumer/sse.go:37-105 | parsing rendered items gives back their frames, comments interleaved |
| `Sse.CutFeedDeliversWholeItems` | eventplane/outbox/feed.go:162-193 | a rendered feed cut anywhere yields the frames of exactly the items that arrived whole |
| `Routing.KeyInjective` | eventplane/routing/routing.go:7-38 | two valid events have the same routing key only if source, kind and subject agree, or the longer source reads as a key of the shorter one |
| `Routing.KeysMeetExactly` | eventplane/routing/routing.go:7-38 | two sources can have a key in common iff they are the same or one reads as a key of the other, which takes a colon |
| `Routing.InsideAny` | eventplane/routing/routing.go:57-106 | the loop over class ranges decides membership in one of them |
| `Routing.CompileClass` | eventplane/routing/routing.go:238-265 | the index loop over a class yields the class token or the error of its declarative reading |
| `Routing.Compile` | eventplane/routing/routing.go:208-236 | the index loop over a pattern yields its token list or its error |
| `Routing.CompileIsInvertible` | eventplane/routing/routing.go:208-265 | compiled patterns are exactly the normal token lists, and writing one out and compiling it gives it back |
| `Matching.MatchDecidesLanguage` | eventplane/routing/routing.go:58-106 | the recursion of the matcher holds exactly for the words that split into pieces of the tokens, where the slash behind a double star may be dropped |
| `Matching.MatchAt` | eventplane/routing/routing.go:62-105 | the memoised call returns what the plain recursion does and keeps every memo entry right |
| `Matching.Match` | eventplane/routing/routing.go:58-106 | the answer for a pattern and a key is membership in the language of the compiled tokens, or the compile error |
| `SubjectSearch.EpsilonClosure` | eventplane/routing/routing.go:162-180 | the queue loop computes the states reached by skipping star tokens |
| `SubjectSearch.Advance` | eventplane/routing/routing.go:182-206 | the map loop computes the states that one character leads to |
| `SubjectSearch.BuildAlphabet` | eventplane/routing/routing.go:128-136 | the alphabet built is the fixed characters, the literals and the class endpoints |
| `SubjectSearch.Search` | eventplane/routing/routing.go:137-159 | the breadth-first search succeeds iff some word over the alphabet leads to acceptance |
| `SubjectSearch.RunIsAt` | eventplane/routing/routing.go:162-206 | the automaton is in a state after a word iff the tokens before the state cover the word |
| `SubjectSearch.AcceptsPlain` | eventplane/routing/routing.go:162-206 | the automaton accepts a word iff it is in the language without dropped slashes |
| `OpenSubjects.CouldMatchSubject` | eventplane/routing/routing.go:110-160 | the answer is true iff some subject over the search alphabet completes the prefix in the language without dropped slashes; the compile error otherwise |
| `OpenSubjects.Sound` | eventplane/routing/routing.go:110-160 | a yes means that some legal subject, empty or rooted and free of line breaks, makes the whole key match |
| `OpenSubjects.Exact` | eventplane/routing/routing.go:110-160 | when every class that takes a legal character takes one of the alphabet and the prefix has no line break, the answer is yes iff such a subject exists, although the automaton drops no slash |
| `OpenSubjects.CompletingIsExact` | eventplane/routing/routing.go:110-160 | the same for one prefix under what that prefix needs: only classes behind a token that can take the slash, and line breaks only where a slash may have been dropped |
| `OpenSubjects.ExactlyWhen` | eventplane/routing/routing.go:110-160 | for any pattern: the answer is exact for every prefix iff some token takes nothing, or no token behind a `**/` takes line breaks only and each class that a subject may have to spell takes a character of the alphabet |
| `OpenSubjects.UnwitnessedClassIsMissed` | eventplane/routing/routing.go:128-136 | a class that takes no character of the alphabet: a subject matches and the answer is no |
| `OpenSubjects.LineBreakInPrefixIsMissed` | eventplane/routing/routing.go:110-126 | a prefix with a line break: a subject matches and the answer is no |
| `OpenSubjects.SlashDropsAfterAnyRun` | eventplane/routing/routing.go:86-91 | the slash behind a double star may be dropped after any run of characters |
| `Outbox.Bounds` | eventplane/outbox/outbox.go:256-273 | the head is the mark, and the least number retained follows from the length |
| `Outbox.RetainedExactly` | eventplane/outbox/schema.go:8-24 | the numbers retained are the last ones up to the mark, without a gap |
| `Outbox.RetentionRows` | eventplane/outbox/outbox.go:131-138 | the row horizon is at least one, whatever was configured |
| `Outbox.AppendKeepsRun` | eventplane/outbox/outbox.go:167-191 | an append extends the run by the next number |
| `Outbox.TrimKeepsRun` | eventplane/outbox/retention.go:49-87 | a trim removes a prefix, never the newest row, and leaves the mark |
| `Outbox.TrimmedExactly` | eventplane/outbox/retention.go:49-87 | which rows a trim removes, whatever the clock did, in both directions |
| `Outbox.TrimmedBeyondBothHorizons` | eventplane/outbox/retention.go:49-87 | with a clock that never ran back, exactly the rows beyond both horizons |
| `Outbox.FetchedIsRun` | eventplane/outbox/outbox.go:227-253 | a batch is the run of retained rows that begins at the first one behind the position |
| `Outbox.CheckIsExact` | eventplane/outbox/outbox.go:280-307 | what the check says of a cursor of the live generation, each reason if and only if |
| `Outbox.StaleWhateverTheNumber` | eventplane/outbox/outbox.go:280-307 | a cursor of another generation is stale whatever its number |
| `Outbox.RebootKeepsGeneration` | eventplane/outbox/outbox.go:309-332 | a boot over the sidecar an earlier boot left keeps the generation |
| `Outbox.KeyIsNoControl` | eventplane/outbox/feed.go:162-183 | no routing key is the name of a control frame |
| `Outbox.AboveSplits` | eventplane/outbox/outbox.go:227-253 | what is behind a position is one batch and what is behind its last row |
| `Outbox.Producer.constructor` | eventplane/outbox/outbox.go:106-152 | a producer over a database holds its log and the horizons configured or the defaults |
| `Outbox.Producer.Append` | eventplane/outbox/outbox.go:167-191 | the result and the whole new log, for every rejected and every accepted event |
| `Outbox.Producer.Trim` | eventplane/outbox/retention.go:49-87 | the whole new log, which stays one run |
| `Outbox.Producer.Fetch` | eventplane/outbox/outbox.go:227-253 | the rows behind a position in order, up to the limit, and the position they lead to |
| `Outbox.Producer.HeadSeq` | eventplane/outbox/outbox.go:256-263 | the head is the highest number ever handed out |
| `Outbox.Producer.CheckCursor` | eventplane/outbox/outbox.go:280-307 | the verdict of the connect-time check and its reason |
| `Outbox.Producer.Write` | eventplane/outbox/feed.go:110-157 | one frame for each row of a batch, in order, and a comment in place of a row that cannot be encoded |
| `Outbox.Producer.Drain` | eventplane/outbox/feed.go:110-157 | the draining loop writes the frames of all that is retained behind the start, whatever the batch size |
| `Consumer.OffsetStore.MarkSubscribed` | eventplane/consumer/store.go:55-66 | the new row, and that a failed write changes nothing |
| `Consumer.OffsetStore.Commit` | eventplane/consumer/store.go:74-85 | the new row, and that a failed write changes nothing |
| `Consumer.OffsetStore.ClearForResync` | eventplane/consumer/store.go:91-102 | the new row, and that a failed write changes nothing |
| `Consumer.Engine.HandleFrame` | eventplane/consumer/consumer.go:382-447 | row, result and stop reason of one frame, each branch |
| `Consumer.Engine.ConnectAndStream` | eventplane/consumer/consumer.go:332-378 | row and result of a connection, from its bytes |
| `Consumer.Engine.Turn` | eventplane/consumer/consumer.go:229-326 | row and loop variables after one round, and when it exits or crashes |
| `Consumer.Engine.Run` | eventplane/consumer/consumer.go:229-326 | row and loop variables after any number of rounds |
| `Consumer.RowAfterStream` | eventplane/consumer/consumer.go:382-447 | the row after a connection is the old one or that of a frame received |
| `Consumer.StallKeepsCursor` | eventplane/consumer/consumer.go:402-445 | a handler's error leaves the row as if the connection had ended before that frame |
| `Consumer.TurnKeeps` | eventplane/consumer/consumer.go:229-326 | a round keeps the pause in bounds and the mark in place; once there was a 200 the next request is not for the tail, except after a resync, which clears the row |
| `Consumer.RunKeeps` | eventplane/consumer/consumer.go:229-326 | over any number of rounds the pause stays in bounds and the mark in place |
| `Consumer.NoTailAfter200` | eventplane/consumer/consumer.go:229-326 | over every run of the loop, from a round with a 200 on and until the next resync no request is for the tail |
| `EventPlane.FirstBoot` | eventplane/outbox/outbox.go:315-332 | a boot without a sidecar starts a generation under the fresh token and keeps the naming invariant |
| `EventPlane.LaterBoot` | eventplane/outbox/outbox.go:315-332 | any other boot goes on with the generation there was and names nothing anew |
| `EventPlane.ProducerKeeps` | eventplane/outbox/outbox.go:106-191 | append, trim, stop, boot, backup and restore keep the naming invariant, and no name is ever taken back |
| `Delivery.HeadIsNext` | eventplane/outbox/feed.go:110-157 | the next frame on the wire is the next place owed |
| `Delivery.BatchCovers` | eventplane/outbox/feed.go:110-157 | a batch from a live log leaves behind only what was stepped over because it is gone |
| `Delivery.StepKeeps` | eventplane/consumer/consumer.go:229-447 | every action of the protocol keeps the delivery invariant |
| `Delivery.AtLeastOnce` | eventplane/consumer/consumer.go:229-447 | over every run, all that was named between the start of the stream and the durable cursor was accepted or skipped, cannot be encoded or parsed, or was trimmed before it was fetched |
| `Delivery.RetainedIsHandled` | eventplane/outbox/feed.go:110-157 | over every run, each row still retained between start and cursor was handled iff it can be encoded and parsed |
| `Delivery.InOrder` | eventplane/consumer/consumer.go:402-445 | over every run, when a frame is about to be handled, whatever was named between the start and it is accounted for |
| `Delivery.FailureStands` | eventplane/consumer/consumer.go:402-420 | a handler's error leaves row and account alone, and the next request is for the same cursor |
| `Delivery.NoSilentTail` | eventplane/consumer/consumer.go:240-268 | once a tail request was resolved, whatever was named above that position and up to the cursor is accounted for |
| `Delivery.TailAskedOnce` | eventplane/consumer/store.go:49-101 | the tail is asked for only before the first 200, and the position resolved for it stands until a resync clears the row |
| `Delivery.CursorNamesOneEvent` | eventplane/outbox/outbox.go:309-332 | two rows served under the same cursor at any two moments of a run are the same row, through appends, trims, restarts and restores |
| `Delivery.ResyncReasonsExact` | eventplane/outbox/outbox.go:280-307 | over every run, what the check says of any cursor ever minted: stale, past the horizon iff the next row was trimmed, or honoured; never diverged |
| `Delivery.TrimsBeyondBothHorizons` | eventplane/outbox/retention.go:49-87 | over every run whose clock never went back from one append to the next, a trim removes exactly the rows beyond both horizons |
| `Delivery.ReceiveIsHandled` | eventplane/consumer/consumer.go:382-447 | an event of the protocol is handled as the engine handles the frame that the feed writes for its row |
| `Wire.BatchIsWritten` | eventplane/outbox/feed.go:110-183 | the frames that the protocol puts on its wire for a batch are those of what the producer writes for it |
| `Wire.ConnectionIsARun` | eventplane/consumer/consumer.go:332-447 | a connection over a feed cut after any byte, with events, control frames, comments and a resync, leaves the row that the protocol has after receiving the frames that arrived whole, and crashes and stalls with it |
| `Wire.RoundIsARun` | eventplane/consumer/consumer.go:229-326 | a round of the reconnect loop is a run of the protocol, whatever the producer does meanwhile: same request, same row, same loop variables, crash together |
| `Delivery.ResolveIsStartPosition` | eventplane/outbox/feed.go:43-104 | a connection of the protocol begins where the feed handler settles its request |
| `OAuth.TokenServer.RevokeChainTx` | dashboard/internal/oauth/tokens.go:231-240 | the chain and all its tokens carry a revocation time, the first they were given |
| `OAuth.TokenServer.InsertToken` | dashboard/internal/oauth/tokens.go:68-92 | the token row, refused when the hash is taken or the chain missing |
| `OAuth.TokenServer.InsertPair` | dashboard/internal/oauth/tokens.go:197-214 | both token rows, or failure |
| `OAuth.TokenServer.IssueCode` | dashboard/internal/oauth/authcodes.go:40-73 | the code row, unused and unbound |
| `OAuth.TokenServer.RedeemCode` | dashboard/internal/server/oauth.go:235-327 | answer and whole new state of a redemption, each refusal in order, and nothing when the transaction does not commit |
| `OAuth.TokenServer.RotateRefresh` | dashboard/internal/server/oauth.go:332-409 | answer and whole new state of a rotation, each refusal in order |
| `OAuth.TokenServer.RevokeToken` | dashboard/internal/server/oauth.go:479-525 | the chain behind a presented token is revoked, or nothing changes |
| `OAuth.TokenServer.RevokeChain` | dashboard/internal/oauth/tokens.go:216-240 | the second transaction of a revocation: the chain that a lookup found is revoked, whatever happened since |
| `OAuth.TokenServer.RevokeGrant` | dashboard/internal/server/grants.go:159-195 | an owner revokes one of their own live grants and no other |
| `TokenChains.EveryRun` | dashboard/internal/oauth/tokens.go:39-66 | in every reachable state each chain has one unused refresh token and as many access as refresh tokens, tokens are revoked with their chain, and each redeemed code has one chain, which carries what the code was bound to |
| `TokenChains.RotationCounts` | dashboard/internal/oauth/tokens.go:187-214 | after a rotation the new refresh token is the only unused one of its chain |
| `TokenChains.RevokedIffAllTokens` | dashboard/internal/oauth/tokens.go:231-240 | a chain is revoked iff all its tokens are |
| `TokenChains.RevocationIsContained` | dashboard/internal/oauth/tokens.go:216-240 | a revocation touches one chain and is idempotent |
| `TokenChains.RunAdvances` | dashboard/internal/oauth/tokens.go:187-240 | no step takes back a row, what a chain carries, a use or a revocation, and a revoked chain never gains a token |
| `TokenChains.ReuseIsFinal` | dashboard/internal/server/oauth.go:259-271 | after a redeemed code or a spent refresh token is presented again and committed, in every continuation the chain gains no token, issues nothing, and none of its tokens validates |
| `TokenChains.IssuesAtMostOnce` | dashboard/internal/server/oauth.go:332-409 | a code yields at most one chain and a refresh token at most one successor pair, over every continuation |
| `TokenChains.OverIsDead` | dashboard/internal/oauth/tokens.go:120-141 | a revoked chain issues nothing and no plaintext validates as one of its tokens |
| `TokenChains.RedemptionIsBound` | dashboard/internal/server/oauth.go:272-326 | a redemption that succeeds met every binding of its code, and its tokens are live and on the new chain |
| `DropboxSync.Engine.UpsertDirParents` | dropbox/internal/dropbox/service.go:333-344 | all parents are indexed, or the transaction fails on a file among them |
| `DropboxSync.Engine.ApplyUpsert` | dropbox/internal/dropbox/service.go:358-387 | row, parents and event commit together, or nothing changes |
| `DropboxSync.Engine.ApplyMkdir` | dropbox/internal/dropbox/service.go:391-401 | directories on disk first, then the index; no event; a fault leaves the directories made so far |
| `DropboxSync.Engine.ApplyDelete` | dropbox/internal/dropbox/service.go:453-498 | the rows under a path go with one event each, then the disk; nothing is told when nothing was there; a fault leaves all as it was, or the index done and some nodes on the disk |
| `DropboxSync.Engine.ApplyFile` | dropbox/internal/dropbox/sync.go:292-338 | nothing for a revision that is indexed; otherwise disk, then row and event, with the fields the download does not give; a fault leaves what was on disk by then |
| `DropboxSync.Engine.ApplyEntry` | dropbox/internal/dropbox/sync.go:265-280 | each kind of entry, under any fault, with its result; unknown ones are passed over |
| `DropboxSync.Engine.ApplyPage` | dropbox/internal/dropbox/sync.go:229-257 | the entries in order; a failure is counted and ends the page, or at the bound is marked and passed over; the cursor only behind all of them |
| `DropboxSync.Engine.constructor` | dropbox/internal/dropbox/sync.go:64-80 | the state it is given, and a bound on failures of five unless a positive one is configured |
| `DropboxSync.Engine.Drain` | dropbox/internal/dropbox/sync.go:200-222 | the pages in order, with one count of failures for all of them, until one is the last or fails |
| `DropboxSync.BoundIsNeverReached` | dropbox/internal/dropbox/sync.go:201-257 | with a bound of two or more every drain is the drain that passes nothing over |
| `DropboxSync.PassedExactlyWhen` | dropbox/internal/dropbox/sync.go:225-257 | a drain passes a first page on which an entry fails iff the bound is one; otherwise it fails and the cursor stays, whatever pages would follow |
| `DropboxSync.PageIsApplied` | dropbox/internal/dropbox/sync.go:225-257 | a page on which nothing fails is applied the same whatever the bound, which is what a replay is compared with |
| `DropboxSync.OneEventPerRow` | dropbox/internal/dropbox/service.go:453-498 | a deletion tells one event for each row, in the order of the index, with what the row held |
| `PathPrefix.LikeOfEscaped` | dropbox/internal/dropbox/store.go:532-537 | an escaped text, followed by any pattern, matches itself and then that pattern, and nothing else |
| `PathPrefix.SelectedExactly` | dropbox/internal/dropbox/store.go:270-300 | the rows selected under a folded path are that path and those that begin with it and a slash |
| `PathPrefix.SubtreeIsPrefix` | dropbox/internal/dropbox/store.go:440-493 | the selection under a path is exactly what lies under it as a list of names |
| `PathPrefix.UnescapedSelectsTooMuch` | dropbox/internal/dropbox/store.go:532-537 | without the escape, an underscore in a folder's name selects another folder's file |
| `DropboxReplay.Restart` | dropbox/internal/dropbox/sync.go:310-338 | an entry interrupted anywhere ends, started over, as if it had not been, even when part of what it had done was undone |
| `DropboxReplay.ReplayUpTo` | dropbox/internal/dropbox/sync.go:229-280 | on a page without such quarrels the replay of the entries before a crash gets through, tells nothing anew and undoes nothing that counts |
| `DropboxReplay.ReplayIsExactlyOnce` | dropbox/internal/dropbox/sync.go:204-257 | on a page that gives no path two revisions and deletes no ancestor of a file it brings, any number of crashes at any step and a replay leave index, directories, disk, event log and cursor as one pass would |
| `DropboxReplay.ReplayExactlyWhen` | dropbox/internal/dropbox/sync.go:204-257 | for a page that gets through, that holds for every sequence of crashes iff the page is such |
| `DropboxReplay.FaultIsCrash` | dropbox/internal/dropbox/sync.go:229-257 | a page that met a fault is left as by a crash there, so that trying it again is such a replay |
| `DropboxReplay.DeletedAncestorIsReplayed` | dropbox/internal/dropbox/sync.go:229-257 | a page that deletes a folder and writes into it: the replay tells a deletion and a second creation |
| `Gmail.Engine.GetMessage` | gmail/internal/gmail/sync.go:304-314 | a message from the cache, or fetched and kept |
| `Gmail.Engine.DrainRecord` | gmail/internal/gmail/sync.go:244-287 | the loops over one record process its added and then its trashed messages |
| `Gmail.Engine.Drain` | gmail/internal/gmail/sync.go:226-300 | events and history id of all pages, or the way the drain failed |
| `Gmail.Engine.Poll` | gmail/internal/gmail/sync.go:180-217 | events and cursor commit together; a stale cursor is seeded anew; any failure changes nothing |
| `Gmail.PagesDoNotMatter` | gmail/internal/gmail/sync.go:226-300 | a drain depends on the records alone and not on their pages |
| `Gmail.DrainIsSimple` | gmail/internal/gmail/sync.go:226-300 | over a steady mailbox the drain with its cache and sets is the simple form, and fails iff some message cannot be read |
| `Gmail.AtMostOneOfEach` | gmail/internal/gmail/sync.go:219-225 | whatever the mailbox does between calls, at most one sent, one received and one deleted event for a message |
| `Gmail.OutboxIsCommittedSpans` | gmail/internal/gmail/sync.go:369-387 | over every run with crashes and stale cursors, the committed spans tile the history up to the cursor and the outbox is the simple form of the drained ones |
| `Cron.CollectBits` | cron/internal/cron/matcher.go:200-205 | the loop with 64-bit wrap-around terminates and yields its mask |
| `Cron.ParseTerm` | cron/internal/cron/matcher.go:157-206 | accepted terms and their masks |
| `Cron.ParseField` | cron/internal/cron/matcher.go:136-153 | accepted fields, their masks, and whether they are a bare star |
| `Cron.Parse` | cron/internal/cron/matcher.go:58-95 | the schedule, or the number of fields, or the first field that fails |
| `Cron.BitOfBit` | cron/internal/cron/matcher.go:216-223 | the bit of a value stands for that value and no other |
| `Cron.TermIsExact` | cron/internal/cron/matcher.go:200-205 | a term's mask is its arithmetic progression, 7 folded to Sunday, iff the step does not wrap into the field |
| `Cron.TermMaskIs` | cron/internal/cron/matcher.go:200-205 | the mask of any accepted term, step wrapping or not: its progression, and the values that the wrapping loop strays to |
| `Cron.FieldIsExact` | cron/internal/cron/matcher.go:136-153 | a field's mask is the union of its terms iff these mean whatever they stray to, which is nothing unless a step wraps |
| `Cron.CompilationKeepsMeaning` | cron/internal/cron/matcher.go:58-125 | an accepted expression matches exactly the calendar moments it means iff each field means whatever of the calendar it strays to, or, under the either-day rule, one day field means every day |
| `Cron.TameMeans` | cron/internal/cron/matcher.go:58-125 | an accepted expression whose steps do not wrap matches exactly the moments it means, with the either-day rule iff neither day field is a bare star |
| `Cron.TermIsWhatIsWritten` | cron/internal/cron/matcher.go:157-198 | a term of the grammar is read as what it writes down, and accepted iff that is an ascending range inside the field with a positive step |
| `Cron.FieldIsWhatIsWritten` | cron/internal/cron/matcher.go:136-153 | a comma list of terms is read as those terms, and accepted iff each of them is |
| `Cron.ExpressionIsWhatIsWritten` | cron/internal/cron/matcher.go:58-125 | five written fields with any white space in front, between and behind are accepted iff each term is well-ranged; the expression then means the moments they write down, and without a wrapping step matches exactly those |
| `Cron.HugeStepSetsAnotherMinute` | cron/internal/cron/matcher.go:200-205 | an accepted term whose mask holds a minute that is not in its progression |
| `Cron.StarMeansAll` | cron/internal/cron/matcher.go:157-198 | a bare star means every value of its field |
| `Tick.Slot` | cron/internal/tick/tick.go:56-58 | a slot is the minute at or before an instant |
| `Tick.Worker.Create` | cron/internal/crontab/store.go:64-73 | a new row has no slot; a taken name changes nothing |
| `Tick.Worker.Update` | cron/internal/crontab/store.go:103-121 | the expression changes and the slot does not |
| `Tick.Worker.Delete` | cron/internal/crontab/store.go:124-137 | the row goes, and whether there was one |
| `Tick.Worker.FireOne` | cron/internal/tick/tick.go:137-166 | slot and event commit together, and only for a row not at the slot |
| `Tick.Worker.Fire` | cron/internal/tick/tick.go:93-129 | tables, count and success of a scan, up to the first failure |
| `Tick.FireIsRun` | cron/internal/tick/tick.go:93-129 | a fire is a run of guarded transactions at its slot |
| `Tick.AtMostOnePerSlot` | cron/internal/tick/tick.go:81-166 | over every run whose slots never go back, with edits and crashes, the events of a row have strictly increasing slots and its last slot is the latest of them |
| `Tick.NoneTwiceExactly` | cron/internal/tick/tick.go:137-166 | of all runs with given slots none tells one minute of a row twice iff no slot comes again after a different one |
| `Tick.IncreasingExactly` | cron/internal/tick/tick.go:81-166 | all runs with given slots tell them in strictly increasing order for each row iff the slots never go back |
| `Tick.ClockBackRepeats` | cron/internal/tick/tick.go:137-166 | the shortest run that tells a slot twice: a clock that goes back a minute and forth again |
| `Tick.FireIsComplete` | cron/internal/tick/tick.go:93-129 | a fire without an error has emitted for every row that parses, matches and was not at the slot |
| `RateLimit.Limiter.Decide` | dashboard/internal/ratelimit/ratelimit.go:51-77 | answer and ledger after a request, the pruning loop included |
| `RateLimit.PrunedIsWithin` | dashboard/internal/ratelimit/ratelimit.go:58-68 | the pruned list is the full history of allowed requests, filtered to the window |
| `RateLimit.AtMostLimitInWindow` | dashboard/internal/ratelimit/ratelimit.go:51-77 | at every instant at most limit requests of a key were allowed in the window that ends there, if those of that key are decided in the order of the times they read |
| `RateLimit.DecidedByHistory` | dashboard/internal/ratelimit/ratelimit.go:51-77 | under the same order, a request is allowed iff fewer than limit were allowed in the window behind it, and the count reported is theirs |
| `RateLimit.AnyOrderExactly` | dashboard/internal/ratelimit/ratelimit.go:51-77 | whatever the order of the times, every window holds at most limit allowed requests of a key iff the limit is one |
| `RateLimit.OutOfOrderIsAllowed` | dashboard/internal/ratelimit/ratelimit.go:55-77 | for any limit of two or more, a run in which a request that read its clock early is decided late, and is one too many |
| `Upload.Send` | dropbox/internal/dropbox/client.go:331-386 | an upload that succeeds commits the first size bytes of the source (a shorter source goes through the one-request form as it is), every chunk at the offset the session has reached; one that fails commits nothing; and it succeeds when the calls do and the source is long enough |
| `ContentHash.ContentHash` | dropbox/internal/dropbox/client.go:649-660 | the offset loop yields the digest of the digests of the blocks |
| `ContentHash.StreamingContentHash.Write` | dropbox/internal/dropbox/mirror.go:239-260 | what the two digests have taken in after a write |
| `ContentHash.StreamingContentHash.Sum` | dropbox/internal/dropbox/mirror.go:262-272 | the sum, and that asking again gives the same |
| `ContentHash.AbsorbedConcat` | dropbox/internal/dropbox/mirror.go:239-260 | two writes are one write of both, wherever the cut is |
| `ContentHash.StreamIsWhole` | dropbox/internal/dropbox/mirror.go:221-272 | the sum of a stream is the content hash of the whole, empty input and full blocks included |
| `ContentHash.HashInPieces` | dropbox/internal/dropbox/mirror.go:158-200 | a copy through the hasher in any pieces ends with the content hash of the whole |

## Left out

- Delivery.AtLeastOnce: speaks of safety only; wake-up latency, the doorbell between an empty fetch and the next, keepalives and retry liveness are not modelled.
- Delivery.CursorNamesOneEvent: assumes that a token minted at a boot was never used before, and that a restore brings back a database that was backed up and removes the sidecar.
- Outbox.Producer.Write: whether and how a row is encoded as JSON is a parameter.
- Outbox.Producer.Append: retention and creation times are integers; the text comparison of RFC 3339 times within one second is not modelled, nor the startup probe for a second writer.
- Outbox.RebootKeepsGeneration: the bytes of a token are base32 letters; how they are drawn is not modelled.
- OpenSubjects.Exact: characters are Unicode scalar values; invalid UTF-8 is not modelled.
- Consumer.Engine.Run: runs a finite list of rounds, each with what its surroundings answer; the jitter of a pause and its length in time are not modelled.
- OAuth.TokenServer.RedeemCode: a statement fails only for a taken key or together with its transaction, so a cascade is applied in full or not at all; audit rows, public ids and notifications are not modelled, and the requests come one after the other.
- OAuth.TokenServer.RevokeToken: looks up and revokes in one step; a revocation that comes later than its lookup is an action of its own in the runs; the HTTP answers of revocation and introspection are not modelled.
- DropboxSync.Engine.ApplyFile: paths are lists of folded names whose display form is the folded one, so case-only renames and path confinement are not modelled.
- DropboxSync.Engine.ApplyPage: the error column of a row that was passed over is not modelled, beyond the empty row that a missing path gets.
- DropboxReplay.ReplayIsExactlyOnce: asks that a download gives the revision asked for; temporary files left by a crash are not part of the disk.
- PathPrefix.SubtreeIsPrefix: folding is taken to leave no capital ASCII letter, which is what LIKE would match in either case; other case mappings are not modelled.
- Upload.Send: a call that is reported to fail is taken to have had no effect; the bearer token, the session id and the JSON around the bytes are not modelled.
- Gmail.DrainIsSimple: the times in the events are left out, and so are the message headers beyond the ones that events carry.
- Gmail.OutboxIsCommittedSpans: assumes that the id of a drain covers exactly the records drained; a mailbox whose id runs ahead would lose the difference.
- Cron.CompilationKeepsMeaning: the calendar that turns an instant into minute, hour, day, month and weekday is a parameter.
- Tick.Worker.Fire: edits during one fire appear in the runs, statement by statement, and not inside this method.
- RateLimit.Limiter.Decide: times are integers, and the decisions come one after the other, as under the lock.
- ContentHash.HashInPieces: the digest function takes in bytes and yields bytes; SHA-256 itself is not modelled.
- Local writes of the Dropbox service and its upload queue, the sync engine's longpoll loop, HTTP handlers, MCP tools, the CRM, registry, telemetry and migrations are not part of this model: the first do not promise progress, and the others would add easy members.
