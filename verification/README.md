# NovaIIM: a verified model of the server's concurrent and stateful core

NovaIIM is a C++ instant-messaging server with a client SDK. This project models the parts whose
correctness is an argument over many steps, and proves those arguments in Dafny:

- **Work queue and pool.** `MpmcQueue` is the lock-free queue as a step machine: every atomic load,
  compare-and-swap, data access and sequence store is one step, for any number of threads and any
  schedule. `SequentialQueue` is the same queue as a class, one call at a time, against a bounded
  first-in first-out sequence. `ThreadPool` is the semaphore-driven pool with its drain on shutdown.
  `PowersOfTwo` and `Counting` hold the arithmetic below them, `Collections` and `Wrappers` what
  several modules share.
- **Sending a message.** `DedupCache` is the dedup cache with its list and index, refined to LRU
  defined from history alone. `SendProtocol` is the send handler cut at its two critical sections,
  the sequence counter and the insert. `CatchUp` is the paged fetch.
- **Groups and friends.** `Tables` are the rows, `Store` is the database whose calls may fail at any
  position, with transactions; `GroupService` and `FriendService` are the handlers, `GroupRules` says
  what they answer and change, `GroupInvariant` what runs of them keep, `GroupOutcomes` when they
  accept and what is so afterwards, and `GroupRuns` runs the handlers on the database as steps of
  those runs.
- **Permission cache.** `RbacCache` holds the tables, the cache and the admin handlers, whose
  statements may fail anywhere; `RbacEffects` says what each handler does to who may sign in and what
  accounts are granted; `RbacRoles` decides when a new role changes what cached accounts may
  do; `RbacRuns` interleaves requests, handlers and other writers; `RbacCoherence` says when the cache
  is right along such a run, and `RbacService` that it always is when the server is used as meant.
  `PermissionHeader` is the comma-joined list on its way to the handlers.
- **Server and client bookkeeping.** `RateLimiter`, `ConnRegistry`, `RequestManager`.
- **Codecs and ids.** `Base64`, `Frame`, `Snowflake`.

Code that works step by step in the source is a class or a method with loops here, proved against a
function of its old state; the lemmas about those functions carry the promises.

Where the code does not keep what one might expect, the model follows the code and says exactly when:

- A retry can store a second message when a mark is held for 30 seconds, or the acknowledgement was
  evicted or the cache is disabled. Each of these, wherever it first happens, is enough, and without
  them it cannot happen (`SendProtocol.HarmlessIff`); with any number of handlers and any cache size
  they do happen (`SendProtocol.DuplicatesPossible`). A takeover needs two send handlers at once, so it
  concerns a backend whose `Session()` does not serialise handlers; a loss needs only one.
- A task accepted by a `Submit` that was under way when the pool stopped, or by a pool without
  workers, may never run; in every other case each accepted task has run when the call of `Stop` that
  sets the flag returns (`ThreadPool.AllRunIff`). A further call returns at once, whatever is still
  queued or running (`ThreadPool.SecondStopIff`). While `Stop` releases its wake-ups the semaphore may hold more permits than
  there are tasks, by at most that many (`ThreadPool.PermitFindsTask`).
- Four lookups of the group handlers are read as good news when they fail. What one may count on
  regardless is `GroupInvariant.RunCore`; the rest of the invariant holds after every handler of a run
  if and only if every step is sound (`GroupInvariant.InvAlongIff`): a join past failing lookups by
  someone who is neither member nor waiting, an approval past a failing count with a seat left, an
  update whose conversation lookup fails and that says nothing new.
- Catching up ends early, and as if it were complete, when the query of a page fails
  (`CatchUp.CutIsCompleteIff`, `CatchUp.CutQuietIff`). With sends that run inside each other a page
  loop misses a row exactly when a page read past its number before it was stored
  (`CatchUp.MissedIff`).
- Two users with a friendship row, even a deleted one, can never become friends again
  (`GroupInvariant.NeverFriendsAgain`).
- Creating a role drops no cache entry. It leaves every right cache right if and only if
  `RbacRoles.CreateRoleSafe` holds (`RbacRoles.CreateRoleIff`), which a role named like the seeded one
  need not (`RbacRoles.SeededTablesBreak`). An id assigned before a role has it is a danger exactly for
  accounts whose real roles do not grant everything already (`RbacRoles.ExposedIff`).
- With requests one at a time between the handlers, new role names, role ids that were given out and
  nobody else at the tables, the permission cache is right after every event and the middleware decides
  as one without a cache, whichever statements of the handlers fail
  (`RbacService.CacheAlwaysRight`, `RbacService.EveryDecisionUncached`). In general the cache is right
  along a run if and only if every event is harmless (`RbacCoherence.CoherentRunIff`); a request that
  read before an account was disabled and stores afterwards is not (`RbacCoherence.LateStoreBreaks`),
  nor is a failing permission query of an account with permissions (`RbacCoherence.FailedQueryIff`).
  What holds under any interleaving is the bound on staleness (`RbacRuns.BoundedStaleness`).
- `NextId` is documented as always positive; the very first id of node 0 at the epoch is 0
  (`Snowflake.PackedOrder`).
- `RoundUpPow2` does not return for arguments above 2^63, which a negative configured capacity
  becomes (`PowersOfTwo.RoundUpStopsIff`).

`dafny verify dfyconfig.toml` checks everything.

## Model

| member | source | states |
|---|---|---|
| PowersOfTwo.MaskIsMod | server/core/mpmc_queue.h:34 | masking with capacity - 1 is the remainder by a power-of-two capacity |
| PowersOfTwo.SingleBitTest | server/core/mpmc_queue.h:15 | the test n & (n - 1) == 0 recognises exactly the powers of two |
| PowersOfTwo.RoundUpPow2 | server/core/application.cpp:47-53 | the result is the least power of two that is at least max(n, 2) |
| PowersOfTwo.RoundUpStopsIff | server/core/application.cpp:47-53 | the doubling loop reaches n exactly when n is at most 2^63, because the 64-bit variable wraps to zero |
| MpmcQueue.InitInv | server/core/mpmc_queue.h:14-21 | the freshly constructed queue satisfies the invariant, for every power-of-two capacity from 2 on |
| MpmcQueue.StepInv | server/core/mpmc_queue.h:29-74 | every single atomic step of any thread keeps the invariant over cell phases and ticket holders |
| MpmcQueue.RunInv | server/core/mpmc_queue.h:29-74 | so does every schedule of any number of threads |
| MpmcQueue.CountersBounded | server/core/mpmc_queue.h:30-72 | in every reachable state tail <= head <= tail + capacity |
| MpmcQueue.DataIsExclusive | server/core/mpmc_queue.h:47-48 | two threads that may touch cell data are never on the same cell |
| MpmcQueue.ExactlyOnePhase | server/core/mpmc_queue.h:34-73 | every ticket is in exactly one phase: not won, being stored, published, being moved out, released |
| MpmcQueue.RefinesFifo | server/core/mpmc_queue.h:29-74 | each step leaves an abstract bounded FIFO alone, appends when a push wins a free place, or takes the front when a pop wins |
| MpmcQueue.PopReturnsItsTicket | server/core/mpmc_queue.h:47-49 | a pop that answers true returns the item of the push with the same ticket |
| MpmcQueue.HistoryOnlyGrows | server/core/mpmc_queue.h:29-74 | along any schedule pushed items are only appended, and an item moved out stays moved out, unchanged |
| MpmcQueue.OneStepGrows | server/core/mpmc_queue.h:47 | a step moves out at most one item, of the ticket its thread holds and that was not taken before |
| MpmcQueue.TicketsHandedOnce | server/core/mpmc_queue.h:44-49 | in a reachable state no two threads hold one pop ticket, from winning it until after returning it |
| MpmcQueue.EachTicketReturnedOnce | server/core/mpmc_queue.h:44-50 | over a whole schedule each ticket is returned by at most one successful pop |
| MpmcQueue.NothingLostAtRest | server/core/mpmc_queue.h:29-74 | with no call in progress the popped items are exactly the first ones pushed and all others sit published in their cells |
| MpmcQueue.PopFalseIff | server/core/mpmc_queue.h:34-42 | Pop answers false, at the step that reads the cell's sequence, exactly when its position is the tail and that ticket is unpublished: the queue is empty or the pusher is mid-store |
| MpmcQueue.PushFalseIff | server/core/mpmc_queue.h:58-66 | Push answers false exactly when its position is the head and the ticket one lap back is not released: the queue is full or its popper is mid-move |
| MpmcQueue.AnswersAccount | server/core/mpmc_queue.h:29-74 | over any schedule, for each item and in all, pushes that answered true and those still storing are as many as were pushed, which is head; for each ticket and in all, pops that answered true and those still moving are the tickets below tail |
| MpmcQueue.FalseCallSilent | server/core/mpmc_queue.h:29-74 | a call that answers false has won no ticket: none of its own steps changed a cell, a counter or an item, whatever others did meanwhile |
| MpmcQueue.ServesLastCall | server/core/mpmc_queue.h:29-74 | what a thread does and answers belongs to its last call, and what it stores is that call's item |
| MpmcQueue.PushAlone | server/core/mpmc_queue.h:53-74 | from every reachable state a push that nobody interrupts appends its item and answers true if the head's cell has been released, and otherwise answers false and changes nothing |
| MpmcQueue.PopAlone | server/core/mpmc_queue.h:30-50 | a pop that nobody interrupts takes the oldest item and answers true if it is published, and otherwise answers false and changes nothing |
| SequentialQueue.Queue.constructor | server/core/mpmc_queue.h:14-21 | an empty queue of the given power-of-two capacity |
| SequentialQueue.Queue.Push | server/core/mpmc_queue.h:53-74 | called alone: succeeds exactly when a place is free, and appends |
| SequentialQueue.Queue.Pop | server/core/mpmc_queue.h:30-50 | called alone: succeeds exactly when the queue is not empty, and takes the oldest item |
| ThreadPool.StepInv | server/core/thread_pool.h:32-80 | every step of submitters, workers and Stop keeps the pool's invariant |
| ThreadPool.PermitsMatchTasks | server/core/thread_pool.h:35-38 | before Stop every permit stands for a queued task, so permits <= queued tasks <= capacity |
| ThreadPool.PermitFindsTask | server/core/thread_pool.h:57-63 | until a worker leaves its loop permits exceed tasks by at most what Stop released, and a worker about to pop finds a task |
| ThreadPool.SemaphoreCannotOverflow | server/core/thread_pool.h:85 | permits never exceed the semaphore's limit when capacity, workers and submitters together do not |
| ThreadPool.NeverTwice | server/core/thread_pool.h:57-80 | no task runs twice and no two workers run one task |
| ThreadPool.AllRunWhenStopReturns | server/core/thread_pool.h:42-54 | when Stop returns every accepted task has run exactly once, if there is a worker and no Submit was past its test when the flag was set |
| ThreadPool.NothingRunsAfterStop | server/core/thread_pool.h:42-54 | after Stop returned nothing ever runs, also not a task accepted later |
| ThreadPool.AllRunIff | server/core/thread_pool.h:32-54 | from every reachable state of a pool whose queue has room, however Stop and the threads are scheduled every accepted task has run when the call of Stop that sets the flag returns, if and only if at that call no Submit is between test and push and there is a worker or no task |
| ThreadPool.SecondStopIff | server/core/thread_pool.h:42-44 | a further call of Stop returns at once; by then every accepted task has run exactly if the queue is empty and no worker runs one |
| ThreadPool.ProvisosNeeded | server/core/thread_pool.h:32-54 | otherwise a schedule, for any number of workers and submitters, lets Stop return and leaves a task that no continuation ever runs |
| ThreadPool.SubmitAcceptsIff | server/core/thread_pool.h:32-40 | a submitter past its test is refused exactly when the queue is full; otherwise its task is queued behind all others |
| ThreadPool.RunsBeforeStop | server/core/thread_pool.h:57-80 | before Stop, with a worker, from every state some schedule without Stop completes the run of any given accepted task |
| ThreadPool.SubmittedRuns | server/core/thread_pool.h:32-80 | from every reachable state before Stop with a worker and room, a schedule that starts with the Submit and has no Stop completes a run of its task |
| ThreadPool.SubmitAfterStop | server/core/thread_pool.h:33-34 | a Submit called after the flag is set is refused and changes nothing |
| DedupCache.Cache.IndexSize | server/service/msg_service.cpp:52 | index and list have the same size, within the limit |
| DedupCache.Cache.SpliceToEnd | server/service/msg_service.cpp:39 | splicing a node moves its entry, and no other, to the newest end |
| DedupCache.Cache.Find | server/service/msg_service.cpp:34-41 | answers what the cache holds for the key and makes a hit the newest entry |
| DedupCache.Cache.Refresh | server/service/msg_service.cpp:46-50 | the overwrite branch replaces the ack through the index and makes the entry the newest |
| DedupCache.Cache.EvictUntilRoom | server/service/msg_service.cpp:52-56 | the eviction loop leaves exactly the newest max - 1 nodes |
| DedupCache.Cache.Append | server/service/msg_service.cpp:57-58 | a new node goes to the newest end and into the index |
| DedupCache.Cache.Insert | server/service/msg_service.cpp:43-59 | the new contents, including the disabled cache of size zero |
| DedupCache.CacheIsLru | server/service/msg_service.cpp:34-59 | after any operations the cache holds exactly the max most recently touched distinct keys, in order of their last touch |
| DedupCache.SurvivesIff | server/service/msg_service.cpp:51-56 | a key is still held exactly when fewer than max other keys were touched since its last touch |
| DedupCache.HitIsLastInsert | server/service/msg_service.cpp:34-50 | a hit returns the ack of the key's last insert; keys stay distinct and within the limit |
| SendProtocol.Dedup.TryMarkInflight | server/service/msg_service.cpp:65-76 | marks a free key or one whose mark is 30 seconds old, and no other |
| SendProtocol.Dedup.Enter | server/service/msg_service.cpp:140-154 | the first critical section: a hit answers from the cache, else the key is marked or refused as busy |
| SendProtocol.Dedup.Leave | server/service/msg_service.cpp:210-214 | the second critical section: the mark goes, the ack enters the cache |
| SendProtocol.Dedup.RemoveInflightIfNeeded | server/service/msg_service.cpp:79-84 | removes the mark of a non-empty key |
| SendProtocol.BeginIsEnter | server/service/msg_service.cpp:140-154 | a protocol step that begins a send and the first critical section do the same |
| SendProtocol.Perform | server/service/msg_service.cpp:140-214 | the critical section of any step, run on the cache and mark objects, leaves them as the protocol's next state says |
| SendProtocol.NumbersNeverReused | server/dao/impl/conversation_dao_impl.cpp:27-63 | in every interleaving with any failures no number is stored or held twice, and a number that is neither stored nor held is one whose insert failed |
| SendProtocol.ForgetsIff | server/service/msg_service.cpp:43-59 | a step loses the ack of a key exactly when the finishing handler's key meets a guard on the state before: cache disabled, or a new key comes into the full cache with this one among the oldest |
| SendProtocol.ExactlyOnce | server/service/msg_service.cpp:138-214 | if no mark is taken over and the ack is not lost, at most one message per client_msg_id is stored and every success reply carries its number |
| SendProtocol.RepliesAgree | server/service/msg_service.cpp:138-217 | under the same provisos all success replies for a key agree, retries included |
| SendProtocol.RetryNeverStuck | server/service/msg_service.cpp:157-214 | every exit of the handler removes its mark: without a handler at work on a key its next send is never refused as busy |
| SendProtocol.MembersOnly | server/service/msg_service.cpp:157-162 | over any run, if no send of a key was answered yes by the membership check, no message with that key is stored and no Success is answered for it |
| SendProtocol.SendAnswers | server/service/msg_service.cpp:157-217 | in any interleaving a handler past the first section takes a number exactly if it is a member, the numbering works and the conversation exists, stores exactly if the insert works too, and answers Success exactly if it stored, else Failure |
| SendProtocol.TimelyExactlyOnce | server/service/msg_service.cpp:138-214 | exactly once, if the cache has room for all keys begun in the run and no send of the key begins while its mark is 30 seconds old |
| SendProtocol.DisturbanceDuplicates | server/service/msg_service.cpp:52-76 | from every reachable state in which a takeover or a loss happens some continuation stores two messages of the key |
| SendProtocol.HarmlessIff | server/service/msg_service.cpp:52-76 | at every point of an undisturbed run the next step is neither a takeover nor a loss if and only if no undisturbed continuation stores two messages of the key |
| SendProtocol.DuplicatesPossible | server/service/msg_service.cpp:52-76 | for every cache size an undisturbed run leads to a loss, and with two handlers to a takeover, and from there to two stored messages with one key |
| CatchUp.Conversation.IncrMaxSeq | server/dao/impl/conversation_dao_impl.cpp:27-63 | the next number if all four calls succeed, else -1 with the counter rolled back |
| CatchUp.Conversation.Send | server/service/msg_service.cpp:165-205 | a whole send stores at most one row with a new highest number; a failed insert leaves a gap; every number is stored or lost |
| CatchUp.Conversation.GetAfterSeq | server/dao/impl/message_dao_impl.cpp:15-21 | the newer rows in order, cut at the limit; none when the query fails |
| CatchUp.Conversation.HandleSyncMsg | server/service/sync_service.cpp:43-73 | the page for the clamped limit, and has_more exactly when the page is full; a failing query looks like the end |
| CatchUp.LimitPositiveIff | server/service/sync_service.cpp:43-49 | every request gets a positive limit exactly when both settings are positive |
| CatchUp.LimitIs | server/service/sync_service.cpp:43-49 | a request within the maximum gets what it asks for, a larger one the maximum, and one that asks for nothing the default, within the maximum |
| CatchUp.NoEndWithoutLimit | server/service/sync_service.cpp:73 | with a limit below one has_more is always true |
| CatchUp.CatchUpIsComplete | server/service/sync_service.cpp:43-80 | the paging loop ends and yields every stored row above the start exactly once in order, also with whole sends between pages |
| CatchUp.CatchUpAlongSends | server/service/sync_service.cpp:43-80 | the same for any rounds of sends, failing wherever they may |
| CatchUp.CutPages | server/service/sync_service.cpp:52-73 | when the query of a page fails the client has exactly the rows of the pages before it |
| CatchUp.CutIsCompleteIff | server/service/sync_service.cpp:52-73 | so it misses nothing exactly when those pages held everything |
| CatchUp.CutQuietIff | server/service/sync_service.cpp:52-73 | without sends in between, exactly when the rows above the start fit into those pages |
| CatchUp.MissedIff | server/service/sync_service.cpp:43-80 | with any tables from page to page, a row that is stored at the end is missed exactly when a page had read past its number before it was stored |
| CatchUp.QuietCatchUp | server/service/sync_service.cpp:43-80 | without sends in between it yields exactly the rows above the start |
| Store.Database.BeginTransaction | server/dao/sqlite3/sqlite_dao_factory.cpp:95-97 | remembers the rows to go back to, unless the call fails |
| Store.Database.Commit | server/dao/sqlite3/sqlite_dao_factory.cpp:98-100 | keeps the rows and ends the transaction, unless the call fails |
| Store.Database.Rollback | server/dao/sqlite3/sqlite_dao_factory.cpp:101-103 | brings back the rows of the beginning |
| Store.Database.AddMember | server/dao/impl/conversation_dao_impl.cpp:19-24 | fails on a second row for the same conversation and user |
| Store.Database.CountMembers | server/dao/impl/conversation_dao_impl.cpp:192-199 | the number of members, or 0 when the query fails |
| Store.Database.InsertFriendship | server/dao/impl/friend_dao_impl.cpp:86-94 | fails on a second row for the same pair |
| Store.Database.UpdateFriendshipStatus | server/dao/impl/friend_dao_impl.cpp:105-111 | succeeds also when no row matches |
| GroupService.Distinct | server/service/group_service.cpp:106-111 | the member list sorted, without repetitions and without the creator |
| GroupService.CreateGroup | server/service/group_service.cpp:66-225 | for every position of a failing call: Ok with all rows written and all tests passed, or another answer with the tables untouched; the exact answer when no call fails |
| GroupService.DismissGroup | server/service/group_service.cpp:240-300 | the same for dismissing |
| GroupService.JoinGroup | server/service/group_service.cpp:355-413 | the same for asking to join; Ok means exactly the tests whose lookups worked were passed |
| GroupService.HandleJoinReq | server/service/group_service.cpp:420-537 | the same for approving and rejecting; the seat test counts only if the member count worked |
| GroupService.LeaveGroup | server/service/group_service.cpp:544-580 | the same for leaving |
| GroupService.KickMember | server/service/group_service.cpp:603-653 | the same for removing a member |
| GroupService.UpdateGroup | server/service/group_service.cpp:739-852 | the same for updating, where the conversation row follows only if its lookup succeeds |
| GroupService.SetMemberRole | server/service/group_service.cpp:997-1048 | the same for changing a role |
| FriendService.HandleRequest | server/service/friend_service.cpp:163-302 | accepting writes all rows or none, and succeeds only between users without any friendship row |
| FriendService.DeleteFriend | server/service/friend_service.cpp:315-396 | both rows are marked and both members removed, or nothing changes |
| GroupInvariant.CreateKeeps | server/service/group_service.cpp:106-217 | creating a group keeps the invariant |
| GroupInvariant.DismissKeeps | server/service/group_service.cpp:258-300 | dismissing keeps it |
| GroupInvariant.JoinKeeps | server/service/group_service.cpp:373-410 | asking to join keeps it |
| GroupInvariant.ReviewKeeps | server/service/group_service.cpp:438-533 | approving and rejecting keep it |
| GroupInvariant.RemoveKeeps | server/service/group_service.cpp:562-576 | removing any member but an owner keeps it |
| GroupInvariant.KickKeeps | server/service/group_service.cpp:621-653 | the rank test never lets an owner be removed |
| GroupInvariant.UpdateKeeps | server/service/group_service.cpp:757-852 | an update that finds both rows, or says nothing new, keeps them equal |
| GroupInvariant.SetRoleKeeps | server/service/group_service.cpp:1016-1048 | changing a role never touches an owner |
| GroupInvariant.HandleRequestKeeps | server/service/friend_service.cpp:192-302 | accepting or rejecting a friend keeps it |
| GroupInvariant.DeleteFriendKeeps | server/service/friend_service.cpp:348-396 | deleting a friend keeps it |
| GroupInvariant.RunCore | server/service/group_service.cpp:66-1062 | whichever calls fail, every run keeps one owner per live group in both rows and the member list, roles and members in live groups only, and requests and friendships on existing conversations |
| GroupInvariant.SoundIff | server/service/group_service.cpp:355-852 | a handler keeps the whole invariant if and only if its step is sound: what a failing lookup let pass would have passed anyway |
| GroupInvariant.InvAlongIff | server/service/group_service.cpp:66-1062 | the invariant holds after every handler of a run if and only if every step is sound in the state it meets |
| GroupInvariant.ReachableOk | server/service/group_service.cpp:66-1062 | from empty tables, with any failing calls: the core in every reachable state; and along the run 1 to 500 members, name and avatar as in the conversation, at most one pending request per user and none of a member, if and only if every step is sound |
| GroupRuns.Handle | server/service/group_service.cpp:66-1062 | each handler, run on a database with arbitrary failing calls, makes exactly the step that its answer and its lookups say |
| GroupRuns.Serve | server/service/group_service.cpp:66-1062 | any list of requests on such a database is a run of these steps; without failing calls every answer is the one of the rules and the invariant is kept |
| GroupInvariant.JoinedBecause | server/service/group_service.cpp:438-513 | whoever joins an existing conversation had a pending request and was let in by an owner or admin |
| GroupInvariant.LeftBecause | server/service/group_service.cpp:562-653 | membership ends only by leaving, by a member of higher rank, with the whole group by its owner, or with a friendship |
| GroupInvariant.RoleChangedBecause | server/service/group_service.cpp:1016-1048 | roles change only by the owner, and never the owner's own |
| GroupInvariant.OwnerForever | server/service/group_service.cpp:148-217 | a group keeps its creator as owner until dismissed, and never comes back after that |
| GroupInvariant.NeverFriendsAgain | server/service/friend_service.cpp:264-285 | once two users have a friendship row every later accept between them fails and changes nothing |
| GroupInvariant.UnsyncedUpdate | server/service/group_service.cpp:833-845 | a failing conversation lookup breaks the agreement of the rows exactly when name or avatar really changed |
| GroupInvariant.UncheckedJoin | server/service/group_service.cpp:380-393 | a request past failing lookups keeps the invariant exactly when its author is neither member nor waiting |
| GroupInvariant.UncheckedApproval | server/service/group_service.cpp:481-487 | an approval past a failing count keeps the invariant exactly when the group was not full |
| GroupOutcomes.CreateAccepts | server/service/group_service.cpp:71-143 | creating is accepted exactly for a name of 1 to 100 printable characters, an avatar of at most 512, 3 to 500 distinct members, all others active |
| GroupOutcomes.DismissAccepts | server/service/group_service.cpp:245-270 | dismissing exactly by the owner of a live group |
| GroupOutcomes.JoinAccepts | server/service/group_service.cpp:360-401 | with working lookups asking exactly by one who is neither member nor waiting, with a remark of at most 200 |
| GroupOutcomes.ReviewAccepts | server/service/group_service.cpp:425-487 | with working lookups deciding exactly by a manager on a pending request, approving only an active user who is no member while the group has less than 500 |
| GroupOutcomes.LeaveAccepts | server/service/group_service.cpp:549-574 | leaving exactly for members other than the owner |
| GroupOutcomes.KickAccepts | server/service/group_service.cpp:608-647 | kicking exactly by the owner anybody else, by an admin plain members |
| GroupOutcomes.UpdateAccepts | server/service/group_service.cpp:744-814 | updating exactly by a manager, within the limits, with something to say |
| GroupOutcomes.SetRoleAccepts | server/service/group_service.cpp:1002-1041 | roles 0 and 1 exactly by the owner, for another member |
| GroupOutcomes.HandleRequestAccepts | server/service/friend_service.cpp:168-217 | a friend request is decided exactly by its receiver while pending, and accepted only from an active other user without a friendship row |
| GroupOutcomes.DeleteFriendAccepts | server/service/friend_service.cpp:319-353 | exactly a friend in normal state is deleted |
| GroupOutcomes.CreateOutcome | server/service/group_service.cpp:145-217 | the group has its creator as owner and exactly the others as members, and every other row stays |
| GroupOutcomes.DismissOutcome | server/service/group_service.cpp:272-300 | the group and all its members are gone and nothing else is |
| GroupOutcomes.JoinOutcome | server/service/group_service.cpp:403-413 | the request waits, a second one is refused, and any manager can decide it |
| GroupOutcomes.ReviewOutcome | server/service/group_service.cpp:489-537 | who is approved is a plain member and can leave, who is rejected is not let in; the request is decided for good |
| GroupOutcomes.LeaveOutcome | server/service/group_service.cpp:576 | who leaves is no member, everybody else keeps place and role, and leaving again is refused |
| GroupOutcomes.KickOutcome | server/service/group_service.cpp:649 | so for who is kicked |
| GroupOutcomes.UpdateOutcome | server/service/group_service.cpp:784-852 | each part given is the group's afterwards, each part left out stays, and the conversation row says the same if it was found |
| GroupOutcomes.SetRoleOutcome | server/service/group_service.cpp:1043-1048 | with role 1 the target manages the group, with role 0 it does not, and nobody else's role changes |
| GroupOutcomes.AcceptedOutcome | server/service/friend_service.cpp:219-302 | both are friends in a private conversation of their own, which either can end |
| GroupOutcomes.DeleteFriendOutcome | server/service/friend_service.cpp:355-396 | neither is friend of the other, both are out of their conversation, and nothing else changes |
| GroupOutcomes.RolesTellHistory | server/service/group_service.cpp:66-1048 | after any run, whichever calls fail, everybody's membership and role are what the last handler that acted on them said |
| RateLimiter.Limiter.Allow | server/core/rate_limiter.h:19-31 | the answer, and the erasing of an expired entry |
| RateLimiter.Limiter.RecordFailure | server/core/rate_limiter.h:34-47 | the new counter after a possible purge |
| RateLimiter.Limiter.MaybePurge | server/core/rate_limiter.h:63-76 | purges exactly the expired entries, when the interval or the size is reached |
| RateLimiter.Limiter.Reset | server/core/rate_limiter.h:50-53 | forgets the key |
| RateLimiter.AnswersAsReference | server/core/rate_limiter.h:19-76 | whatever was erased, each answer is the one of a limiter that remembers every failure |
| RateLimiter.WindowCounts | server/core/rate_limiter.h:41-46 | the counter is the number of failures inside its window |
| RateLimiter.RateBound | server/service/user_service.cpp:214-262 | with every failure guarded by Allow at most max failures fall in a window and at most 2 * max - 1 in any interval of window length |
| RateLimiter.IntervalBoundIsTight | server/core/rate_limiter.h:26-30 | the second bound is reached for every limit and every window of at least two units |
| RateLimiter.ExpiredGo | server/core/rate_limiter.h:34-76 | an entry that has expired by some moment is gone after 1024 further failures, and after one failure once the table has reached its limit |
| RateLimiter.UnexpiredStay | server/core/rate_limiter.h:34-76 | an operation on one key never takes the unexpired entry of another |
| RbacCache.AdminServer.GetUserPermissions | server/dao/impl/rbac_dao_impl.cpp:11-25 | lists exactly the codes of the join, each once, and nothing when the query fails |
| RbacCache.AdminServer.MakeRoom | server/admin/admin_server.cpp:337-343 | expired entries go first, then everything |
| RbacCache.AdminServer.AuthMiddleware | server/admin/admin_server.cpp:312-363 | the decision and the new cache, on hit and on miss, with either query failing and anything done by others between the lookup, the queries and the store |
| RbacCache.AdminServer.HandleDeleteAdmin | server/admin/admin_server.cpp:1181-1207 | soft delete and eviction of the entry, never of oneself or the super admin |
| RbacCache.AdminServer.HandleEnableAdmin | server/admin/admin_server.cpp:1258-1279 | status and eviction |
| RbacCache.AdminServer.HandleDisableAdmin | server/admin/admin_server.cpp:1281-1312 | status and eviction, never of oneself or the super admin |
| RbacCache.AdminServer.HandleSetAdminRoles | server/admin/admin_server.cpp:1314-1369 | listed roles go and requested ones come as far as their statements work, and the cached entry goes |
| RbacCache.AdminServer.SetRolePermissions | server/dao/impl/rbac_dao_impl.cpp:94-109 | the old rows go and those of known codes come, as far as the statements work |
| RbacCache.AdminServer.HandleCreateRole | server/admin/admin_server.cpp:1401-1449 | the permissions go to the first role of that name, and the cache stays, whichever statements fail |
| RbacCache.AdminServer.HandleUpdateRole | server/admin/admin_server.cpp:1451-1486 | new permissions and an empty cache, whichever statements fail |
| RbacCache.AdminServer.HandleDeleteRole | server/admin/admin_server.cpp:1488-1507 | the role and its rows go as far as the three statements work, and the cache is empty |
| RbacEffects.SignsInIff | server/admin/admin_server.cpp:346-352 | the middleware without a cache lets through exactly the accounts in normal state |
| RbacEffects.EnableOutcome | server/admin/admin_server.cpp:1258-1279 | an enabled account passes the middleware, unless it was deleted, and nobody else changes |
| RbacEffects.DisableOutcome | server/admin/admin_server.cpp:1281-1312 | a disabled account does not, until it is enabled; oneself and the super admin stay |
| RbacEffects.DeleteOutcome | server/admin/admin_server.cpp:1181-1207 | a deleted account does not and cannot be enabled again; oneself and the super admin stay |
| RbacEffects.SetAdminRolesOutcome | server/admin/admin_server.cpp:1314-1369 | the account holds what a working statement gave, and of what it held what none took away; nobody else's roles change |
| RbacEffects.SetAdminRolesExact | server/admin/admin_server.cpp:1314-1369 | with working statements exactly the requested roles, and held ids that no role has |
| RbacEffects.CreateRoleOutcome | server/admin/admin_server.cpp:1401-1449 | the role is there once, with the next id and the requested permissions as far as statements work; a refused creation changes nothing |
| RbacEffects.UpdateRoleOutcome | server/admin/admin_server.cpp:1451-1486 | an account has a permission afterwards exactly by another of its roles, or by holding this one, which has what was requested and what a failing delete left; with working statements just what was requested; who does not hold it keeps its own |
| RbacEffects.UpdateRoleRows | server/dao/impl/rbac_dao_impl.cpp:94-109 | so for the rows of the role, and no other row changes |
| RbacEffects.DeleteRoleOutcome | server/admin/admin_server.cpp:1488-1507 | a deleted role grants nothing, unless both its rows and its assignments are left by failing statements, and everything else is granted as before |
| RbacRuns.AloneIsAuth | server/admin/admin_server.cpp:312-363 | the steps of one request with nothing in between do what AuthMiddleware does |
| RbacRuns.CacheBounded | server/admin/admin_server.cpp:337-344 | under any interleaving the cache never exceeds 1024 entries |
| RbacRuns.BoundedStaleness | server/admin/admin_server.cpp:312-345 | under any interleaving of requests, handlers and other writers a decision uses a status and a permission list that queries gave, each at its own moment, later than 30 seconds before |
| RbacRuns.LiveEntriesStay | server/admin/admin_server.cpp:337-343 | making room takes an unexpired entry only when 1024 of them are there |
| RbacRuns.StoredServes | server/admin/admin_server.cpp:312-345 | what a request has stored answers the account's next request within 30 seconds of its start, without a query |
| RbacCoherence.CoherentIff | server/admin/admin_server.cpp:312-345 | an event keeps every cached entry equal to the tables if and only if it is harmless, as can be seen before it: a store whose account has kept status and codes since the two queries, a role creation safe for every cached account, an outside write that spares them |
| RbacCoherence.CoherentRunIff | server/admin/admin_server.cpp:1181-1507 | so over whole runs, after every event |
| RbacCoherence.OrderlyCoherent | server/admin/admin_server.cpp:312-345 | a checkable discipline suffices, also for concurrent requests: permission queries work, and nothing concerns an account between its query and its store, nor a cached account by role creation or from outside |
| RbacCoherence.FailedQueryIff | server/admin/admin_server.cpp:331-345 | caching the empty list of a failing permission query is harmless exactly for an account without permissions |
| RbacCoherence.LateStoreBreaks | server/admin/admin_server.cpp:331-345 | a request that read before an account was disabled puts back what the handler dropped |
| RbacCoherence.DecidesAsUncached | server/admin/admin_server.cpp:312-363 | after harmless events a hit decides as a middleware without a cache, down to each permission test on the header |
| RbacService.SerialRunOrderly | server/admin/admin_server.cpp:1181-1507 | from tables with given-out ids only, handlers that run between requests, use new role names and assign given-out ids keep to that discipline and to such tables, whichever statements fail |
| RbacService.CacheAlwaysRight | server/admin/admin_server.cpp:312-345 | so along any sequence of whole requests and such handlers every cached entry equals the tables after every event |
| RbacService.EveryDecisionUncached | server/admin/admin_server.cpp:312-363 | and every decision, from the cache or not, is that of a middleware without a cache at that moment, down to each permission test on the header |
| RbacRoles.SafeForIff | server/admin/admin_server.cpp:1401-1449 | creating a role leaves one account's permissions alone exactly when a guard on the tables before holds |
| RbacRoles.SafeIff | server/admin/admin_server.cpp:1401-1449 | creating a role leaves the permissions of every known account alone exactly when, as can be checked before, each holder of the target role has by its other roles and the request what it has now |
| RbacRoles.CreateRoleIff | server/admin/admin_server.cpp:1401-1449 | creating a role keeps every right cache right if and only if that holds |
| RbacRoles.UnusedNameSafe | server/admin/admin_server.cpp:1425-1442 | a role of a new name whose id nobody holds yet is safe |
| RbacRoles.ExposedIff | server/admin/admin_server.cpp:1351-1442 | some roles of new names, created later, make a right cache wrong if and only if a known account holds an id no role has had and its real roles do not grant everything |
| RbacRoles.SeededTablesBreak | server/admin/admin_server.cpp:1351-1442 | in the seeded tables a role named like the seeded one is unsafe, and assigning role 2 early exposes |
| PermissionHeader.Join | server/admin/admin_server.cpp:354-361 | the comma-joined header |
| PermissionHeader.HasPermission | server/admin/http_helper.h:156-171 | true exactly when the code is one of the header's pieces |
| PermissionHeader.SplitJoin | server/admin/http_helper.h:161-169 | splitting a joined list of comma-free codes gives it back, except for an empty last code |
| PermissionHeader.JoinSplit | server/admin/http_helper.h:161-169 | joining the pieces gives the header back exactly when it does not end in a comma |
| PermissionHeader.HasPermissionIff | server/admin/http_helper.h:156-171 | for non-empty comma-free codes the test on the header is membership in the list |
| PermissionHeader.CommaCodeLost | server/admin/http_helper.h:161-169 | a code with a comma is never found |
| ConnRegistry.ConnManager.Add | server/net/conn_manager.cpp:6-48 | the kept list, exactly the dropped connections closed, kept and closed together the old list and the new connection, and the counter right |
| ConnRegistry.AddKeepsIff | server/net/conn_manager.cpp:6-48 | of the connections a user had, exactly those of other devices are kept that fewer than nine such connections came after |
| ConnRegistry.ConnManager.Remove | server/net/conn_manager.cpp:50-65 | the list without the connection, and the counter right |
| ConnRegistry.ConnManager.GetConn | server/net/conn_manager.cpp:76-88 | a connection of that device exactly if there is one |
| ConnRegistry.OnlineCount | server/net/conn_manager.h:40 | the counter is never negative, and zero exactly when nobody is registered |
| ConnRegistry.RegisteredOnce | server/service/user_service.cpp:174-185 | a connection is registered at most once, under its own user id |
| ConnRegistry.HandleLogin | server/service/user_service.cpp:174-309 | keeps the registry's invariant; the older session of the connection goes, a taken device is refused, the same device type is kicked, the rest stays within ten; who leaves the list is closed, who stays keeps its state |
| ConnRegistry.CleanedIs | server/service/user_service.cpp:269-272 | a device id or type is cut to its limit and loses its control characters and nothing else |
| ConnRegistry.HandleLogout | server/service/user_service.cpp:324-338 | the connection leaves every list, and the invariant stays |
| ConnRegistry.OnDisconnect | server/net/gateway.cpp:78-84 | so it does when the socket closes |
| RequestManager.Manager.NextSeq | client/nova_sdk/core/client_context.h:49 | the counter's value, wrapping at 2^32 |
| RequestManager.Manager.AddPending | client/nova_sdk/core/request_manager.cpp:9-31 | registers the request; an older one with the same number is evicted |
| RequestManager.Manager.HandleResponse | client/nova_sdk/core/request_manager.cpp:33-46 | answers exactly the pending request with that number |
| RequestManager.Manager.CheckTimeouts | client/nova_sdk/core/request_manager.cpp:48-66 | one callback for every expired request and no other |
| RequestManager.Manager.Cancel | client/nova_sdk/core/request_manager.cpp:68-71 | forgets one request silently |
| RequestManager.Manager.CancelAll | client/nova_sdk/core/request_manager.cpp:73-76 | forgets all silently |
| RequestManager.Conservation | client/nova_sdk/core/request_manager.cpp:9-76 | registered = answered + timed out + evicted + cancelled + pending, over any run |
| RequestManager.OneFate | client/nova_sdk/core/request_manager.cpp:9-76 | a settled request never gets a second outcome |
| RequestManager.EndsAsReference | client/nova_sdk/core/request_manager.cpp:9-76 | every request ends by the first call that concerns it, response, due check, cancel or a request with its number, and by nothing else |
| RequestManager.SendRegisters | client/nova_sdk/core/request_manager.cpp:9-31 | a request sent is registered under the number taken, due after the timeout |
| RequestManager.TimeoutsInTime | client/nova_sdk/core/request_manager.cpp:54 | a timeout never comes before the deadline |
| RequestManager.NoReuseBeforeWrap | client/nova_sdk/core/client_context.h:93 | with fewer than 2^32 numbers taken none is reused, nothing is evicted, and a push with number 0 is never taken for a response |
| RequestManager.PushMatchesAfterWrap | client/nova_sdk/core/client_context.h:49 | the 2^32-th number is 0, and then a push does match |
| Base64.OverflowIff | thirdparty/l8w8jwt/src/base64.c:127-135 | the overflow test refuses exactly the lengths from 2^62 on |
| Base64.SizeEnough | thirdparty/l8w8jwt/src/base64.c:127-137 | the buffer holds text, line ends and every NUL written |
| Base64.EncodedLength | thirdparty/l8w8jwt/src/base64.c:201 | the exact length of the text in both modes |
| Base64.Encode | thirdparty/l8w8jwt/src/base64.c:115-204 | writes only inside its buffer, and the text is the encoding, followed by NUL |
| Base64.Decode | thirdparty/l8w8jwt/src/base64.c:206-310 | writes only inside its buffer, refuses exactly what the specification refuses, and returns its bytes |
| Base64.BuildTable | thirdparty/l8w8jwt/src/base64.c:230-237 | the table is the inverse of the alphabet, with the padding sign as zero |
| Base64.RoundTrip | thirdparty/l8w8jwt/src/base64.c:115-310 | decoding an encoding gives the bytes back in both modes, with or without the final NUL |
| Base64.AlphabetIs | thirdparty/l8w8jwt/src/base64.c:112-113 | the letters are those of RFC 4648, sections 4 and 5 |
| Base64.GroupIsNumber | thirdparty/l8w8jwt/src/base64.c:150-185 | a group of letters, read as base-64 digits, is the number its bytes are, with zero bits below the last one or two bytes |
| Base64.AcceptedIff | thirdparty/l8w8jwt/src/base64.c:239-300 | accepted is exactly a text whose symbols fill groups (in URL mode up to a missing one or two) and whose first group with padding has at most two signs |
| Frame.RoundTrip | protocol/nova/packet.h:74-111 | decoding a frame gives the packet back, whatever bytes follow |
| Frame.ReEncode | protocol/nova/packet.h:93-111 | encoding an accepted packet gives its first 18 + body length bytes |
| Frame.AcceptedIff | protocol/nova/packet.h:93-111 | accepted are exactly the byte strings that begin with a frame |
| Frame.PrefixFree | protocol/nova/packet.h:74-90 | no frame is a prefix of another |
| Frame.StreamSplits | server/net/gateway.cpp:9-36 | cutting by the length field separates a stream exactly into its frames |
| Frame.StreamUnique | server/net/gateway.cpp:9-36 | different packet sequences make different streams |
| Frame.Encode | protocol/nova/packet.h:74-90 | the frame, or nothing for a body over the limit |
| Frame.Decode | protocol/nova/packet.h:93-111 | the packet, with every refusal |
| Frame.WriteLE64 | protocol/nova/packet.h:38-43 | writes the eight low bytes in place and nothing else |
| Frame.ReadLE64 | protocol/nova/packet.h:54-60 | reads them back |
| PowersOfTwo.OrFillsZeros | server/core/snowflake.h:67-69 | or-ing a number into the zero bits below a shifted one adds it |
| Snowflake.PackedIsSum | server/core/snowflake.h:67-69 | the or-ed shifted fields are their sum |
| Snowflake.FieldsRoundTrip | server/core/snowflake.h:67-69 | time, node and sequence can be read back from an id |
| Snowflake.PackedOrder | server/core/snowflake.h:14-20 | ids are ordered as their fields, fit a non-negative int64, and are zero only for the first id of node 0 |
| Snowflake.Generator.WaitNextMillis | server/core/snowflake.h:86-92 | ends at the first reading past the given time, if there is one |
| Snowflake.Generator.NextId | server/core/snowflake.h:44-70 | every id is greater than all before it, even when the clock jumps back; its time is the first usable clock reading and its number counts the ids of that millisecond |
| Snowflake.EndsIff | server/core/snowflake.h:50-63 | a call ends exactly when some reading from now on passes the last time, or the next equals it with a sequence number left |
| Snowflake.NodesDisjoint | server/core/snowflake.h:35-41 | generators of different nodes never issue the same id |

## Left out

- Weak memory: the queue's steps are sequentially consistent, its counters unbounded; wrap-around of tickets at 2^64 is not modelled.
- MpmcQueue.RunInv: safety only; no fairness or progress is claimed, and a compare-and-swap may fail spuriously at any time.
- ThreadPool.AllRunWhenStopReturns: pushes and pops of the pool are single steps here, so wake-ups spent behind an unpublished ticket do not appear.
- Message validation before the dedup section, recall, and the truncation of previews.
- The shutdown order of the application.
- GroupService.Distinct: sort, unique and remove are one insertion loop here.
- DedupCache.Cache.Find: the list is a sequence of nodes and an iterator a node, so splicing searches the node's place, which a linked list need not.
- Store.Database.Rollback: always succeeds; its result is ignored by the handlers.
- CatchUp.CatchUpIsComplete: sends between pages are whole handlers; what sends inside each other can do is CatchUp.MissedIff.
- GroupInvariant.ReachableOk: friend requests and accounts are given at the start instead of being added or changed along the run, and blocking and unblocking are left out; none of them touches groups or memberships.
- RbacCoherence.CoherentRunIff: a handler's write and its dropping of entries are one step there; BoundedStaleness covers them apart.
- Snowflake.Generator.NextId: a call that never ends, because no later reading passes the last time, is stated by Snowflake.EndsIff and not run.
- Base64.Encode: the C counter of columns is an int that URL mode lets grow past 2^31 on inputs of more than 1.5 GB; it has no effect on the text.
- ConnRegistry.ConnManager.Add: the lists of all shards are one map; a user's shard never changes. Kicking by an administrator is left out.
- Frame: the JSON form of packets.
- MySQL: its transactions always refuse, so the group and friend handlers and catch-up are modelled under the SQLite session lock, under which handlers run one at a time; SendProtocol lets send handlers overlap, as a `Session()` that does not serialise them does.
- Sockets, HTTP routing, SQL texts, serialisation of bodies, push notifications, audit rows, logging and metrics.
- Cryptography, JSON parsing and other vendored code apart from base64.
- Automatic reconnect and the user interfaces.
