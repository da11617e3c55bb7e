# Verified model of a GaussDB driver and its connection pool

This project models, in Dafny, the parts of the `gaussdb` driver and of `gaussdb_pool` whose
correctness depends on state that several threads, or client and server, must agree on, and the
parts that print values in a text or binary form and read them back. Each component is a module:

- **Pool** (`PoolModel`, `PoolRuns`, `PoolQueue`, `Pool`, `NullPool`, `Scheduler`, `Backoff`): a
  state machine over every interleaving of clients, workers and scheduler, where each block run under
  the pool's lock is a step; the classes of the pool, whose methods are proved equal to those steps;
  the order in which clients are served and connections used; the null pool; the task scheduler; the
  retry delays.
- **Protocol state kept in step with a server** (`Transactions`, `TransactionNests`, `Preparing`,
  `PrepareCounts`, `Pipeline`, `PipelineErrors`): nested transaction blocks against a server with a
  stack of savepoints, the cache of prepared statements against the set of statements the server
  holds, pipeline mode against a server that answers commands in order.
- **Query rewriting** (`Queries`, `QueryText`, `QueryObjects`): placeholders become `$n` for the
  server or a template for the client, and both mean the same.
- **Codecs** (`NestedLists`, `ArrayText`, `ArrayObjects`, `ArrayBinary`, `ArrayBinaryObjects`,
  `Composite`, `Quoting`, `Wire`, `CopyFormat`, `CopyStream`, `CopyOrder`, `CopyQueue`): arrays in text and
  binary, composite values, the rows and streams of COPY with their buffering, order, chunking and
  queueing.
- **Registries** (`Adapters`, `AdapterObjects`): maps of dumpers, loaders and types that share
  dictionaries by reference and copy them before writing.

Code that works step by step is modelled with classes, methods and loops; a function over values
says what it computes, and lemmas say what that means. Runs are lists of events: a theorem about
all runs quantifies over all such lists. The synchronous classes are modelled; the asynchronous
ones are the same code.

## Where the code and its promises differ

The model follows the code. These lemmas say where it does less than one might expect:

- `PoolRuns.ResizeOvershoots`: resize adds connections without looking at max_size. The bound holds all
  along a run exactly when every resize finds room (`PoolRuns.BoundedThroughoutIff`).
- `PoolRuns.GiveUpStrands`: a reconnection given up can leave clients waiting with nothing under way.
  `PoolRuns.GiveUpStrandsIff` says when, `PoolRuns.ServedThroughoutIff` for whole runs.
- `PoolRuns.CheckHidesUse`: check() hides the use of connections from ShrinkPool, in a state that
  `PoolRuns.CheckHidesUseReached` reaches. A drop tells that a connection was idle all the time exactly
  when no check() came between (`PoolRuns.DropMeansIdleIff`).
- `Transactions.SwallowedErrorLosesWork`: if a statement error is caught inside the outermost block, the
  block ends without an exception and keeps nothing. `Transactions.NormalExitKeepsIff` says exactly when
  a block left without an exception keeps its body.
- `Transactions.RepeatedNameRollsBackLess`: if errors are caught inside blocks and savepoint names are
  repeated, a block can roll back less than its body. `Transactions.RollsBackTo` says where it goes;
  with distinct names it undoes everything (`Transactions.DistinctNamesRollBackAll`).
- `Transactions.SecondWrongExitUnreported`, `Transactions.FailedEnterStaysCounted`: only the first exit
  in the wrong order is certain to be reported, and a failed entry counts as an open block.
  `Transactions.ExitReportedIff` says exactly which exits are reported.
- `Preparing.RaiseAfterDropBreaksAgreement`: a query that raises after the server has voided cached
  plans leaves cache and server in disagreement.
- `Queries.BindingsAgree`: a lone percent sign, or an empty mapping for positional placeholders, is
  accepted by the server-side conversion only.
- `ArrayText.RoundTrip`: with `;` for delimiter the tokenizer still swallows a comma after a bracket.
- `Composite.RoundTrip`: the tuple of one NULL prints as the empty tuple.
- `CopyFormat.TextRoundTrip`: a row of no fields reads as one empty field.
- `CopyStream.BlockOvertakesRow`: a block written after rows can be sent before them. The calls leave in
  the order they were made exactly when no block is written while a row waits
  (`CopyOrder.LeaveInOrderIff`); what is sent in any case is in `CopyOrder.OutputIsLeaving`.
- `CopyQueue.FinishCanHang`: finish can wait for ever on a full queue whose worker has failed.
- `Adapters.LookupHidesLaterName`: a look-up can hide a dumper that is registered by name after it.

## Model

| member | source | states |
|---|---|---|
| `PoolModel.CheckSize` | gaussdb_pool/gaussdb_pool/base.py:121-132 | sizes are accepted exactly when 0 <= min_size <= max_size and max_size is positive; an absent max_size means min_size |
| `PoolModel.InitInv` | gaussdb_pool/gaussdb_pool/pool.py:399-406 | a pool just opened satisfies every invariant, the size bound included |
| `PoolModel.StepInv` | gaussdb_pool/gaussdb_pool/pool.py:233-301 | every step of clients, workers and scheduler keeps conservation, one place per connection, idle-or-waiting and the growth discipline |
| `PoolModel.StepOnePlace` | gaussdb_pool/gaussdb_pool/pool.py:836-869 | no step loses a connection or puts it in two places; a connection handed to a waiting position whose timeout races with it is picked up by that client alone |
| `PoolModel.StepCounts` | gaussdb_pool/gaussdb_pool/pool.py:622-672 | `_nconns` goes on counting idle, held, handed-over and moving connections and live AddConnection tasks; `_growing` holds exactly while one growing task lives |
| `PoolModel.StepBounded` | gaussdb_pool/gaussdb_pool/pool.py:293-301 | every step but resize keeps `_nconns` within max_size |
| `PoolModel.StepNotStranded` | gaussdb_pool/gaussdb_pool/pool.py:661-672 | every step but resize and giving up keeps: clients wait only if the pool is full or growing |
| `PoolRuns.PoolConservation` | gaussdb_pool/gaussdb_pool/pool.py:233-323 | in every reachable state, resize and give-ups included, the counter accounts for every connection and each connection is in one place |
| `PoolRuns.PoolSizeBound` | gaussdb_pool/gaussdb_pool/pool.py:293-301 | in every run without resize `_nconns`, and the connections in existence, never exceed max_size |
| `PoolRuns.NoStrandedClient` | gaussdb_pool/gaussdb_pool/pool.py:735-743 | in every run without resize and give-up, while a client waits nothing is idle, the pool is full or growing, and some connection or task is on its way |
| `PoolRuns.BoundedThroughoutIff` | gaussdb_pool/gaussdb_pool/pool.py:477-492 | from any state within the bound, `_nconns` stays within max_size in every state of a run exactly when each resize finds room for the connections there are and those it adds |
| `PoolRuns.ServedThroughoutIff` | gaussdb_pool/gaussdb_pool/pool.py:640-672 | clients wait only for a full or growing pool in every state of a run exactly when no give-up and no resize in it leaves some behind |
| `PoolRuns.GiveUpStrands` | gaussdb_pool/gaussdb_pool/pool.py:640-651 | a client is stranded in two steps from the opening of a pool |
| `PoolRuns.GiveUpStrandsIff` | gaussdb_pool/gaussdb_pool/pool.py:640-651 | giving up a reconnection leaves waiting clients stranded exactly when some wait and no other growing task is at work |
| `PoolRuns.ResizeOvershoots` | gaussdb_pool/gaussdb_pool/pool.py:477-492 | three resizes of a reachable pool bring `_nconns` over max_size |
| `PoolRuns.QuietRun` | gaussdb_pool/gaussdb_pool/pool.py:272-276 | between two runs of ShrinkPool `_nconns_min` follows the least idle length of the states in between |
| `PoolRuns.ShrinkHistory` | gaussdb_pool/gaussdb_pool/pool.py:790-802 | after a ShrinkPool run `_nconns_min` is the least idle length since; a connection is dropped only if one stayed idle all the time, and never below min_size |
| `PoolRuns.DropMeansIdleIff` | gaussdb_pool/gaussdb_pool/pool.py:790-802 | when ShrinkPool drops a connection, the pool was never empty since the last ShrinkPool run exactly if check() was not called between them |
| `PoolRuns.CheckHidesUse` | gaussdb_pool/gaussdb_pool/pool.py:494-507 | check() empties the pool without lowering `_nconns_min`, so ShrinkPool can then drop a connection of a pool that was not idle |
| `PoolRuns.CheckHidesUseReached` | gaussdb_pool/gaussdb_pool/pool.py:477-507 | a run from the opening of a pool reaches such a state |
| `PoolQueue.QueueInOrder` | gaussdb_pool/gaussdb_pool/pool.py:233-246 | in every state of a run the clients wait in the order in which they last asked |
| `PoolQueue.LongestWaitingIsServed` | gaussdb_pool/gaussdb_pool/pool.py:726-743 | a connection that comes free goes to the client that has waited longest among those still there, and becomes idle only if there is none |
| `PoolQueue.StepHands` | gaussdb_pool/gaussdb_pool/pool.py:857-869 | a connection is put in the hands of the first client in the queue, if that one has neither a connection nor given up, and of no other |
| `PoolQueue.RequestOutcome` | gaussdb_pool/gaussdb_pool/pool.py:233-282 | what a request comes to: the first idle connection, the last place in the queue, or a refusal that changes nothing |
| `PoolQueue.QueueLimit` | gaussdb_pool/gaussdb_pool/pool.py:276-282 | with a limit, no more clients wait than max_waiting in any state of a run |
| `PoolQueue.LongestIdleFirst` | gaussdb_pool/gaussdb_pool/pool.py:266-276 | the idle connections stand in the order in which they became idle, so the one idle longest is used next |
| `PoolQueue.EmptyPoolGrows` | gaussdb_pool/gaussdb_pool/pool.py:293-301 | a waiting client and a check() make the pool grow by one, if it is neither full nor growing |
| `PoolQueue.StepFilling` | gaussdb_pool/gaussdb_pool/pool.py:661-672 | growth does not end below min_size and shrinking does not go below it |
| `PoolQueue.GrowthEndsIff` | gaussdb_pool/gaussdb_pool/pool.py:661-672 | a growing task ends exactly when neither min_size nor a waiting client is left to grow for |
| `PoolQueue.SizeErrors` | gaussdb_pool/gaussdb_pool/base.py:121-132 | which sizes are refused with which error |
| `Pool.WaitingClient.Set` | gaussdb_pool/gaussdb_pool/pool.py:857-869 | set() gives the connection exactly if the position has none and has not failed |
| `Pool.ConnectionPool.GetReadyConnection` | gaussdb_pool/gaussdb_pool/pool.py:266-282 | the critical section of getconn, equal to the step of the model |
| `Pool.ConnectionPool.MaybeGrowPool` | gaussdb_pool/gaussdb_pool/pool.py:293-301 | grows by one task, if the pool is neither full nor growing |
| `Pool.ConnectionPool.RequestConnection` | gaussdb_pool/gaussdb_pool/pool.py:233-246 | a request takes an idle connection, is refused, or is queued behind those waiting while the pool may grow; `PoolQueue` says what that means over runs |
| `Pool.ConnectionPool.FinishWait` | gaussdb_pool/gaussdb_pool/pool.py:250-264 | a client that leaves wait() holds the connection of its position, or none |
| `Pool.ConnectionPool.OfferToFirst` | gaussdb_pool/gaussdb_pool/pool.py:735-740 | one turn of the loop over the waiting clients |
| `Pool.ConnectionPool.AddToPool` | gaussdb_pool/gaussdb_pool/pool.py:702-743 | the loop hands the connection to the first position that takes it and drops those that do not; if none takes it the connection becomes idle |
| `Pool.ConnectionPool.ReturnConnection` | gaussdb_pool/gaussdb_pool/pool.py:674-700 | a broken connection is replaced by an AddConnection task, any other goes through _add_to_pool |
| `Pool.ConnectionPool.GiveUpConnecting` | gaussdb_pool/gaussdb_pool/pool.py:640-650 | the counter goes down, and a growing task lets the pool grow again |
| `Pool.ConnectionPool.KeepGrowing` | gaussdb_pool/gaussdb_pool/pool.py:661-672 | a growing task goes on while the pool is below min_size, or not full with clients waiting |
| `Pool.ConnectionPool.ShrinkPool` | gaussdb_pool/gaussdb_pool/pool.py:790-802 | drops the first idle connection under the three conditions, and starts a new history |
| `Pool.ConnectionPool.TakeAllForCheck` | gaussdb_pool/gaussdb_pool/pool.py:500-507 | check() takes all idle connections under the lock |
| `Pool.ConnectionPool.CheckConnections` | gaussdb_pool/gaussdb_pool/pool.py:509-527 | check() puts back or replaces every connection of its list, the last one first |
| `Pool.ConnectionPool.ResizePool` | gaussdb_pool/gaussdb_pool/pool.py:477-492 | new sizes, counter and AddConnection tasks, their number reckoned from the min_size read before the lock; bad sizes change nothing |
| `Pool.AddToPoolIsRun` | gaussdb_pool/gaussdb_pool/pool.py:726-743 | the whole block of _add_to_pool is a run of the small steps, so the invariants of runs hold of it |
| `Pool.AddToPoolServesFirst` | gaussdb_pool/gaussdb_pool/pool.py:735-743 | the first position still waiting gets the connection; only if there is none does it become idle |
| `Pool.AddToPoolKeeps` | gaussdb_pool/gaussdb_pool/pool.py:702-743 | handing over a connection keeps all invariants, moves that connection only, and leaves `_nconns` alone |
| `Pool.CheckedKeeps` | gaussdb_pool/gaussdb_pool/pool.py:494-527 | check() loses no connection: its list is emptied and `_nconns` is what it was |
| `NullPool.NullStepInv` | gaussdb_pool/gaussdb_pool/null_pool.py:100-178 | every step of the null pool keeps conservation and one place, with an empty pool that never grows by itself |
| `NullPool.NullPoolRuns` | gaussdb_pool/gaussdb_pool/null_pool.py:100-178 | in every run: `_nconns` counts all connections and tasks, each in one place; without resize it stays within max_size when that is positive, and no client is stranded unless a reconnection was given up |
| `NullPool.NullBoundedThroughoutIff` | gaussdb_pool/gaussdb_pool/null_pool.py:135-147 | the bound holds in every state of a run exactly when each resize sets no limit or one that is not exceeded already |
| `PoolQueue.NullQueueInOrder` | gaussdb_pool/gaussdb_pool/null_pool.py:100-118 | clients of the null pool wait in the order in which they asked too |
| `PoolQueue.NullRequestOutcome` | gaussdb_pool/gaussdb_pool/null_pool.py:100-118 | what a request to the null pool comes to: a new connection, a place in the queue, or a refusal that changes nothing |
| `NullPool.NullGetReadyConnection` | gaussdb_pool/gaussdb_pool/null_pool.py:100-118 | a connection is made under the lock if the size allows, else the client waits or is refused |
| `NullPool.NullMaybeClose` | gaussdb_pool/gaussdb_pool/null_pool.py:120-133 | a returned connection is closed at once exactly if nobody waits |
| `NullPool.NullAddToPool` | gaussdb_pool/gaussdb_pool/null_pool.py:153-178 | like the pool, but a connection nobody takes is closed and no more counted |
| `NullPool.NullAddToPoolServesFirst` | gaussdb_pool/gaussdb_pool/null_pool.py:153-178 | the first client still waiting gets the connection, or else the counter goes down |
| `Scheduler.SchedulerIsCorrect` | gaussdb_pool/gaussdb_pool/sched.py:48-94 | in every run: no task starts before its time or twice, every task entered is queued, in hand or started, and the runner never sleeps past a due one unnoticed |
| `Scheduler.StepInv` | gaussdb_pool/gaussdb_pool/sched.py:48-94 | each step of entering threads and runner keeps the heap head least, the accounting and the wake-up condition |
| `Scheduler.LookTakesEarliest` | gaussdb_pool/gaussdb_pool/sched.py:63-94 | the task taken is one of the earliest, and is due; with nothing queued the runner sleeps ten minutes |
| `Scheduler.NothingAfterStop` | gaussdb_pool/gaussdb_pool/sched.py:63-94 | in every run a task that says stop is the last one to start |
| `Scheduler.StartIsLogged` | gaussdb_pool/gaussdb_pool/sched.py:63-94 | each start is logged with what the clock showed |
| `Scheduler.HeapPush` | gaussdb_pool/gaussdb_pool/sched.py:48-61 | the contract of heappush, met: the list holds one more entry, and an earliest one comes first |
| `Scheduler.HeapPop` | gaussdb_pool/gaussdb_pool/sched.py:63-94 | the contract of heappop, met: the first entry is gone, and an earliest one comes first |
| `Scheduler.Scheduler.EnterAbs` | gaussdb_pool/gaussdb_pool/sched.py:48-61 | the task is queued, and reported as first if the runner has to be woken |
| `Scheduler.Scheduler.LookAtHead` | gaussdb_pool/gaussdb_pool/sched.py:63-94 | the due head is taken, or the runner is told to block until it is due |
| `Backoff.BackoffTerminates` | gaussdb_pool/gaussdb_pool/base.py:205-234 | n failures without giving up fit only if 2^(n-1) < 1 + timeout/0.9 |
| `Backoff.ChainTakesTime` | gaussdb_pool/gaussdb_pool/base.py:219-230 | retries take at least twice the first delay times 2^(n-1) - 1, and all start before the deadline |
| `Backoff.DeadlineNeverReset` | gaussdb_pool/gaussdb_pool/base.py:219-230 | the deadline set by the first failure is kept, and every retry is due no later than it, save for the time that connecting took |
| `Backoff.DeadlineKept` | gaussdb_pool/gaussdb_pool/base.py:219-230 | the same from any state with a deadline on; and a retry is due later than the failure it follows |
| `Backoff.FirstDelayRange` | gaussdb_pool/gaussdb_pool/base.py:205-234 | the first delay is one second, give or take ten per cent |
| `Backoff.DelayDoubles` | gaussdb_pool/gaussdb_pool/base.py:219-230 | after n failures the delay is the first one doubled n times, or what is left to the deadline if that is less |
| `Backoff.AttemptWithBackoff.UpdateDelay` | gaussdb_pool/gaussdb_pool/base.py:219-230 | the delay after a failure: a jittered first one, then doubled, cut at the deadline |
| `Transactions.RunMeans` | gaussdb/gaussdb/transaction.py:90-226 | running any nest of blocks and caught errors, on any connection and with any savepoint names, gives the data, transaction state, counter, savepoints and exception of the recursive meaning |
| `Transactions.RunItemMeans` | gaussdb/gaussdb/transaction.py:90-153 | the same for one statement, block, or part that catches its errors |
| `Transactions.PlainRuns` | gaussdb/gaussdb/transaction.py:90-226 | if errors are caught only around whole blocks: a block that commits keeps what its body did, one that rolls back contributes nothing, a targeted Rollback stops at its block, and no savepoint or count is left over |
| `TransactionNests.NestStops` | gaussdb/gaussdb/transaction.py:99-193 | an exception raised inside a nest of blocks rolls back those it is not meant for and stops at the innermost one it is meant for; the blocks around that one keep their work, and nothing else is kept |
| `TransactionNests.ErrorsComeOut` | gaussdb/gaussdb/transaction.py:149-153 | errors of the user and of the server come out of every nest, and nothing of its work is kept |
| `TransactionNests.RollbackStopsAtTarget` | gaussdb/gaussdb/transaction.py:149-153 | a Rollback aimed at one of the blocks passes those inside it and stops there |
| `TransactionNests.ExitLetsOut` | gaussdb/gaussdb/transaction.py:99-153 | an exit in order lets out every exception but a Rollback without target or with this block as target; that one too if rolling back fails |
| `TransactionNests.BlockLetsOut` | gaussdb/gaussdb/transaction.py:99-153 | the same of a block in any program, whatever its body did before it raised |
| `TransactionNests.EnteredOnce` | gaussdb/gaussdb/transaction.py:90-97 | a transaction object is refused the second time it is entered, and nothing is sent |
| `TransactionNests.LeftForGood` | gaussdb/gaussdb/transaction.py:166-193 | leaving marks the object as left and lowers the counter, in order or not |
| `Transactions.DefaultNameReads` | gaussdb/gaussdb/transaction.py:205-212 | the default name of a block is its prefix and the number of open blocks, itself counted |
| `Transactions.NormalExitKeepsIff` | gaussdb/gaussdb/transaction.py:99-176 | a block left without an exception keeps its body exactly if the transaction is not aborted; else the outermost block keeps nothing and says nothing, and an inner one raises; after a failed entry inside, the exit is reported instead |
| `Transactions.SwallowedErrorLosesWork` | gaussdb/gaussdb/transaction.py:99-176 | a statement error caught inside the outermost block loses all of its work without an exception |
| `Transactions.RollsBackTo` | gaussdb/gaussdb/transaction.py:178-193 | an inner block rolls back to its beginning, unless a savepoint of its name was left behind inside of it: then to the last of those |
| `Transactions.RepeatedNameRollsBackLess` | gaussdb/gaussdb/transaction.py:178-193 | a program in which that happens |
| `Transactions.DistinctNamesRollBackAll` | gaussdb/gaussdb/transaction.py:178-212 | if no block inside has its name, and the name does not look like a default one, a block that rolls back contributes nothing, whatever errors its body caught |
| `Transactions.EnterOuter` | gaussdb/gaussdb/transaction.py:155-212 | the outermost block begins a transaction, with a savepoint if it has a name |
| `Transactions.EnterInner` | gaussdb/gaussdb/transaction.py:155-212 | an inner block makes a savepoint; on an aborted transaction that fails, but the block is counted |
| `Transactions.ExitOuter` | gaussdb/gaussdb/transaction.py:99-193 | leaving the outermost block, with any outcome of its body on any transaction state |
| `Transactions.ExitInner` | gaussdb/gaussdb/transaction.py:99-193 | leaving an inner block, with any outcome of its body and any savepoints left behind in it |
| `Transactions.ReleaseInner` | gaussdb/gaussdb/transaction.py:166-176 | RELEASE ends the last savepoint of the name inside the block and those above it, even when an outer block has the same name |
| `Transactions.RollbackInner` | gaussdb/gaussdb/transaction.py:178-193 | ROLLBACK TO and RELEASE restore the state at that savepoint and end it, on an aborted transaction too |
| `Transactions.ExitReportedIff` | gaussdb/gaussdb/transaction.py:214-226 | after any run, with exits in any order and entries that fail: an exit is reported as out of order exactly when the other open blocks and the failed entries are not as many as when the block was entered |
| `Transactions.FirstWrongExitReported` | gaussdb/gaussdb/transaction.py:214-226 | after any run of innermost-first exits, failed entries included: an exit is reported exactly when it is not the innermost block's or an entry has failed since that block was entered |
| `Transactions.SecondWrongExitUnreported` | gaussdb/gaussdb/transaction.py:214-226 | a wrong exit that follows another one can pass unreported |
| `Transactions.FailedEnterStaysCounted` | gaussdb/gaussdb/transaction.py:90-97 | a block whose entry fails stays counted, so leaving the enclosing block is reported |
| `Transactions.Connection.ExecCommands` | gaussdb/gaussdb/_connection_base.py:442-486 | commands are sent one by one up to the first that fails |
| `Transactions.Connection.Statement` | gaussdb/gaussdb/_connection_base.py:538-548 | a statement opens a transaction first, unless in autocommit |
| `Transactions.Transaction.PushSavepoint` | gaussdb/gaussdb/transaction.py:195-212 | outer or inner, default name, depth remembered, counter raised; or the assertion fails that no block is counted on an idle connection |
| `Transactions.Transaction.PopSavepoint` | gaussdb/gaussdb/transaction.py:214-226 | the counter goes down, and says if the depth is the remembered one |
| `Transactions.Transaction.EnterGen` | gaussdb/gaussdb/transaction.py:90-97 | __enter__ as a function of connection and block |
| `Transactions.Transaction.ExitGen` | gaussdb/gaussdb/transaction.py:99-153 | __exit__ as a function of connection, block and exception; what it lets out is in `TransactionNests.ExitLetsOut` |
| `Transactions.RunBlocks` | gaussdb/gaussdb/transaction.py:90-226 | a program of with blocks and caught errors, run with the objects, ends in the state of the functional run, whose meaning the lemmas above give |
| `Preparing.CacheAgreesWithServer` | gaussdb/gaussdb/_cursor_base.py:265-307 | in every session whose raising queries void no plans: YES only for a name the server still has, a new name was never issued, and both size bounds hold |
| `Preparing.StepSettled` | gaussdb/gaussdb/_cursor_base.py:185-201 | every execute and rollback leaves cache, server and logs in agreement with nothing queued |
| `PrepareCounts.PreparedAtThreshold` | gaussdb/gaussdb/_preparing.py:58-82 | a query run again and again is sent as it is up to the threshold, then prepared once, and found prepared ever after |
| `PrepareCounts.CountIsUses` | gaussdb/gaussdb/_preparing.py:125-156 | in any session the count stored for a key is the number of its uses since it entered the dictionary |
| `PrepareCounts.AnswerIs` | gaussdb/gaussdb/_preparing.py:58-82 | NO exactly if preparing is forbidden or off, or the query is neither prepared nor demanded and its count is below the threshold; a prepared query goes by its name, a new one gets the next |
| `PrepareCounts.FailureForgotten` | gaussdb/gaussdb/_preparing.py:158-176 | a new query that did not end in one success is forgotten |
| `PrepareCounts.VoidedForgets` | gaussdb/gaussdb/_preparing.py:84-96 | a new query after which cached plans are void leaves nothing in the cache, and nothing prepared on the server unless it raises |
| `PrepareCounts.RollbackForgets` | gaussdb/gaussdb/_preparing.py:178-203 | a rollback empties cache and server |
| `Preparing.AddedOrdered` | gaussdb/gaussdb/_preparing.py:125-156 | both ordered dictionaries stay in the order of last use, with no key in both |
| `Preparing.ValidatedOrdered` | gaussdb/gaussdb/_preparing.py:158-176 | validation keeps that order |
| `Preparing.EvictsLeastRecent` | gaussdb/gaussdb/_preparing.py:112-123 | an eviction removes the least recently used key of its dictionary and queues its DEALLOCATE |
| `Preparing.ExecutedSmall` | gaussdb/gaussdb/_preparing.py:98-176 | validated or not, an execute keeps |_counts| <= prepared_max and |_counts| + |_names| <= 2 * prepared_max |
| `Preparing.FlushAgreesIff` | gaussdb/gaussdb/_preparing.py:193-203 | sending the queue keeps the agreement exactly when it holds no DEALLOCATE ALL or nothing is cached |
| `Preparing.RaiseAfterDropBreaksAgreement` | gaussdb/gaussdb/_cursor_base.py:196-201 | a query that raises after the server voided the plans skips the maintenance, and the agreement is lost two queries later |
| `Preparing.PrepareManager.GetPrepared` | gaussdb/gaussdb/_preparing.py:58-82 | which of NO, YES and SHOULD, and the name |
| `Preparing.PrepareManager.ShouldDiscard` | gaussdb/gaussdb/_preparing.py:84-96 | a result that voids plans clears the cache |
| `Preparing.PrepareManager.Rotate` | gaussdb/gaussdb/_preparing.py:112-123 | evicts at most one key of each dictionary |
| `Preparing.PrepareManager.MaybeAddToCache` | gaussdb/gaussdb/_preparing.py:125-156 | counts, promotes or adds a key, and says if it is new; what the counts come to is in `PrepareCounts.CountIsUses` |
| `Preparing.PrepareManager.Validate` | gaussdb/gaussdb/_preparing.py:158-176 | discards all, forgets the key, or rotates |
| `Preparing.PrepareManager.Clear` | gaussdb/gaussdb/_preparing.py:178-191 | empties both dictionaries and queues one DEALLOCATE ALL if anything was prepared |
| `Preparing.PrepareManager.Maintain` | gaussdb/gaussdb/_preparing.py:193-203 | the queue is sent to the server in order and emptied |
| `Preparing.ServerSession.Deallocate` | gaussdb/gaussdb/_connection_base.py:488-525 | one name, or all of them |
| `Preparing.PrepareManager.Execute` | gaussdb/gaussdb/_cursor_base.py:265-307 | one execute with the objects is the step of the model |
| `Pipeline.CursorsGetTheirOwn` | gaussdb/gaussdb/_pipeline.py:112-181 | each cursor that executes ends with the answer to its own last successful query, whatever failed or was aborted before; the error raised is the first one |
| `PipelineErrors.FirstFailureRaised` | gaussdb/gaussdb/_pipeline.py:112-181 | from the start of a pipeline: it raises the error of the first query that failed, and nothing if none did; the queries aborted after it do not hide it |
| `PipelineErrors.FirstErrorRaised` | gaussdb/gaussdb/_pipeline.py:160-181 | the error raised for any batch is that of its first bad answer: the server's own for FATAL_ERROR, PipelineAborted for PIPELINE_ABORTED; a sync is bad for a cursor only |
| `PipelineErrors.CacheIsTold` | gaussdb/gaussdb/_pipeline.py:174-179 | the statement cache is told the result of every query it prepared, errors included, in order |
| `Pipeline.HandledAllAppend` | gaussdb/gaussdb/_pipeline.py:112-158 | handling results in several batches is handling them in one |
| `Pipeline.AbortedIff` | gaussdb/gaussdb/_pipeline.py:160-173 | an answer is PIPELINE_ABORTED exactly when a query failed since the last sync |
| `Pipeline.PGconn.FetchMany` | gaussdb/gaussdb/generators.py:212-254 | takes the next answer, all of it and nothing of the one after |
| `Pipeline.PGconn.Drain` | gaussdb/gaussdb/generators.py:285-325 | takes all answers that have arrived, cut where each ends |
| `Pipeline.BasePipeline.Enqueue` | gaussdb/gaussdb/_cursor_base.py:536-567 | a command and the entry for its result are queued together |
| `Pipeline.BasePipeline.ProcessNext` | gaussdb/gaussdb/_pipeline.py:118-124 | a result is processed with the entry queued for it |
| `Pipeline.BasePipeline.ProcessResults` | gaussdb/gaussdb/_pipeline.py:160-181 | what the result of an execute does to cursor and statement cache, and what it raises; which error that is, is in `PipelineErrors.FirstErrorRaised` |
| `Pipeline.BasePipeline.PipelineCommunicate` | gaussdb/gaussdb/generators.py:285-336 | for every interleaving of reads and writes: all commands are sent, and what is fetched are the next answers in order |
| `Pipeline.BasePipeline.CommunicateGen` | gaussdb/gaussdb/_pipeline.py:112-126 | what was fetched is processed with its own entries, errors notwithstanding |
| `Pipeline.BasePipeline.FetchGen` | gaussdb/gaussdb/_pipeline.py:128-158 | every answer outstanding is processed with its own entry |
| `Pipeline.BasePipeline.SyncGen` | gaussdb/gaussdb/_pipeline.py:97-110 | after a sync that raised nothing, and always at the end of a block, every entry ever queued has had its own answer |
| `Queries.BindingsAgree` | gaussdb/gaussdb/_queries.py:134-223 | if server-side conversion succeeds, the client side gives the `$n` query with the literals in place, or fails: exactly when the query has a lone percent sign or an empty mapping stands for positional parameters |
| `QueryText.PartsSpellQuery` | gaussdb/gaussdb/_queries.py:347-425 | the parts are a reading of the query: with each placeholder written out again by its name and the letter of its format they give it back, char by char |
| `QueryText.RefusedIff` | gaussdb/gaussdb/_queries.py:376-412 | a query is refused exactly if a percent sign begins something else than `%%` or a placeholder, or if both kinds are mixed; the error is that of the first such sign |
| `QueryText.NameMatches` | gaussdb/gaussdb/_queries.py:332-343 | a percent sign, a name in parentheses and any char but a newline are one match |
| `QueryText.MatchIs` | gaussdb/gaussdb/_queries.py:332-343 | else a percent sign and the char after it are, unless that is a newline; and nothing else is |
| `QueryText.ServerTextReads` | gaussdb/gaussdb/_queries.py:193-223 | what stands between the parts in the query sent is, for each placeholder, a dollar sign and the numeral of its number |
| `QueryText.FormatsAsked` | gaussdb/gaussdb/_queries.py:193-223 | each parameter is sent in the format that its placeholders ask for |
| `QueryText.ConflictIff` | gaussdb/gaussdb/_queries.py:199-218 | the conversion fails exactly if a name is used with two formats |
| `QueryText.EachGetsItsOwn` | gaussdb/gaussdb/_queries.py:134-168 | each placeholder is bound to its own parameter: the one in its place, or the one of its name |
| `QueryText.ParametersIff` | gaussdb/gaussdb/_queries.py:134-168 | which parameters are refused with which error |
| `Queries.ServerNumbers` | gaussdb/gaussdb/_queries.py:176-223 | placeholder numbers are dense from 1 on, names are listed once, and each number is that of its name |
| `Queries.SplitOfBoth` | gaussdb/gaussdb/_queries.py:347-418 | with or without collapsing `%%` a query is cut at the same placeholders, or refused with the same error |
| `Queries.LonePercentEndsLine` | gaussdb/gaussdb/_queries.py:332-343 | a percent sign that is part of no placeholder stands at the end of the query or before a newline |
| `Queries.FormatsTemplate` | gaussdb/gaussdb/_queries.py:271-286 | formatting the template gives the parts with the literals between them, or fails if a part has a lone percent sign or a parameter is missing |
| `Queries.SameParameters` | gaussdb/gaussdb/_queries.py:134-168 | both sides bind the same parameter to each placeholder |
| `Queries.SplitWellFormed` | gaussdb/gaussdb/_queries.py:347-418 | all placeholders are of one kind, positional ones numbered from 0 |
| `Queries.SplitQuery` | gaussdb/gaussdb/_queries.py:347-418 | the loop that edits the list of parts in place gives the parts of the specification |
| `QueryObjects.Query2Pg` | gaussdb/gaussdb/_queries.py:176-223 | the loops that collect chunks, formats and names give the query of the specification, or its error; what its text says is in `QueryText.ServerTextReads` |
| `QueryObjects.Query2PgClient` | gaussdb/gaussdb/_queries.py:292-326 | the same for the template, where names are listed at each use |
| `QueryObjects.NameParts` | gaussdb/gaussdb/_queries.py:199-218 | the dictionary of names met gives each name one number, and refuses two formats for one name |
| `QueryObjects.NamedChunks` | gaussdb/gaussdb/_queries.py:199-218 | the chunks, formats and names collected are those of the specification, or its error |
| `QueryObjects.GaussDBQuery.Convert` | gaussdb/gaussdb/_queries.py:61-96 | after convert the text, formats and parameters are those of the server-side specification; without parameters the query is left alone |
| `QueryObjects.GaussDBQuery.Dump` | gaussdb/gaussdb/_queries.py:98-113 | dump with other parameters gives what converting anew would |
| `QueryObjects.GaussDBClientQuery.Convert` | gaussdb/gaussdb/_queries.py:241-269 | after convert the query is the one of the client-side specification; without parameters it is left alone |
| `QueryObjects.GaussDBClientQuery.Dump` | gaussdb/gaussdb/_queries.py:271-286 | dump with other parameters gives what converting anew would |
| `ArrayText.RoundTrip` | gaussdb/gaussdb/types/array.py:381-446 | with `,` every nested list of any shape is read back as it was; with `;` exactly the lists in which no list starts with an unquoted element whose first byte is a comma |
| `ArrayText.ReadsBack` | gaussdb/gaussdb/types/array.py:155-215 | what a printed list is read as, for both delimiters: the list, save for the comma that such a first element loses |
| `ArrayText.NothingLostIff` | gaussdb/gaussdb/types/array.py:433-446 | nothing is lost exactly when no list starts with such an element, at any depth |
| `ArrayText.TokensOf` | gaussdb/gaussdb/types/array.py:433-446 | a printed item, followed by what can follow it, is cut into its own tokens |
| `ArrayText.StepsItem` | gaussdb/gaussdb/types/array.py:402-430 | reading the tokens of an item adds the item to the innermost list and nothing else |
| `ArrayText.UnescapedEscaped` | gaussdb/gaussdb/types/array.py:155-157 | unescaping undoes escaping |
| `ArrayText.DimensionsIgnored` | gaussdb/gaussdb/types/array.py:389-396 | a dimension prefix does not change what is read |
| `Quoting.ElementQuotedIff` | gaussdb/gaussdb/types/array.py:200-216 | an element is printed as it is exactly if it is not empty, has no quote, backslash, brace, delimiter or blank, and does not say null in any case |
| `Quoting.AnyEscapingReads` | gaussdb/gaussdb/types/array.py:415-446 | however much of it is escaped, a quoted element is one token and reads as the element |
| `Quoting.WordReads` | gaussdb/gaussdb/types/array.py:415-446 | a word without quotes goes up to the next quote, backslash, brace or delimiter and reads as it is; only NULL in capitals is none |
| `Quoting.NewlineUnescapable` | gaussdb/gaussdb/types/array.py:433-446 | a string with a backslash before a newline is no token |
| `Quoting.EscapedLength` | gaussdb/gaussdb/types/array.py:155-187 | quotes and backslashes are escaped, and nothing else |
| `Quoting.LoadRefusesIff` | gaussdb/gaussdb/types/array.py:389-430 | a text is refused exactly if one of its tokens is in no list or its dimensions have no equal sign; the error is that of the first such token |
| `ArrayObjects.Dump` | gaussdb/gaussdb/types/array.py:155-191 | the token list that the nested function appends to and overwrites joins to the text of the list |
| `ArrayObjects.ListDumper.DumpList` | gaussdb/gaussdb/types/array.py:163-187 | each call appends the text of its list to the shared tokens |
| `ArrayObjects.LoadText` | gaussdb/gaussdb/types/array.py:381-430 | the loader with its stack of references returns a list object that stands for the list of the specification, or its error |
| `ArrayObjects.CloseMirrors` | gaussdb/gaussdb/types/array.py:402-413 | taking a list off the stack completes it inside its parent, which has held it since it was opened |
| `ArrayObjects.CollapsedShows` | gaussdb/gaussdb/types/array.py:381-430 | if the text ends early, the lists still open are part of the outermost one |
| `ArrayBinary.RoundTrip` | gaussdb/gaussdb/types/array.py:449-473 | every list that can be dumped is read back as it was, whatever its depth and its NULLs |
| `ArrayBinary.DumpsIff` | gaussdb/gaussdb/types/array.py:249-295 | exactly the rectangular lists with no empty level can be dumped, if the lengths fit their fields |
| `ArrayBinary.DumpLayout` | gaussdb/gaussdb/types/array.py:249-295 | the header holds the number of dimensions, whether there are NULLs and the type, and each dimension its length and the lower bound 1 |
| `ArrayBinary.ItemErrors` | gaussdb/gaussdb/types/array.py:260-290 | which error an element or a list below is refused with |
| `ArrayBinary.FirstItemDecides` | gaussdb/gaussdb/types/array.py:269-290 | the first item that fails decides |
| `ArrayBinary.TooLongRefused` | gaussdb/gaussdb/types/array.py:291-295 | dimensions that four bytes cannot hold are refused |
| `ArrayBinary.MalformedRefused` | gaussdb/gaussdb/types/array.py:449-473 | data cut short or with a bad length is refused |
| `ArrayBinary.FlattenIs` | gaussdb/gaussdb/types/array.py:260-290 | going through the nested lists depth first gives the elements level by level, and refuses exactly the lists that are not rectangular |
| `ArrayBinary.RegroupedBelow` | gaussdb/gaussdb/types/array.py:469-471 | grouping by the stored dimensions, the last first, undoes flattening |
| `ArrayBinary.ReadElementsOf` | gaussdb/gaussdb/types/array.py:460-467 | the elements are read back one by one from their lengths |
| `ArrayBinaryObjects.DumpArray` | gaussdb/gaussdb/types/array.py:249-295 | header and dimensions take the places kept for them, before the data that the nested function appends |
| `ArrayBinaryObjects.ListBinaryDumper.DumpList` | gaussdb/gaussdb/types/array.py:269-290 | each call appends the elements of its list in order and notes NULLs, or fails as the specification does |
| `ArrayBinaryObjects.ReadAll` | gaussdb/gaussdb/types/array.py:460-467 | the list that starts full of NULLs ends up with the elements |
| `ArrayBinaryObjects.GroupAll` | gaussdb/gaussdb/types/array.py:469-471 | the loop over the dimensions groups as the specification does |
| `ArrayBinaryObjects.LoadBinary` | gaussdb/gaussdb/types/array.py:449-473 | the loader returns the list of the specification, or its error |
| `Composite.RoundTrip` | gaussdb/gaussdb/types/composite.py:164-204 | every tuple is read back as it was, except the one with a single NULL, which is read as the empty one |
| `Composite.ParseJoined` | gaussdb/gaussdb/types/composite.py:164-192 | the fields of a printed record come back, leading, consecutive and trailing NULLs and empty strings included |
| `Composite.MatchField` | gaussdb/gaussdb/types/composite.py:180-192 | a printed field with its comma is one match, and stands for the field |
| `Quoting.FieldQuotedIff` | gaussdb/gaussdb/types/composite.py:84-114 | a field is printed as it is exactly if it is not empty and has no quote, comma, backslash, parenthesis or blank |
| `Quoting.FieldEnds` | gaussdb/gaussdb/types/composite.py:180-192 | a quoted field ends as late as it can, and ends at all if a quote follows |
| `Composite.DumpSequence` | gaussdb/gaussdb/types/composite.py:84-114 | the list of parts with its last separator overwritten joins to the record |
| `Composite.ParseRecord` | gaussdb/gaussdb/types/composite.py:164-178 | the loop over the matches, with the NULL after a final comma, gives the fields of the specification |
| `CopyFormat.TextRoundTrip` | gaussdb/gaussdb/_copy_base.py:373-379 | a row is read back as it was exactly if it has a field; the empty row reads as one empty field |
| `Quoting.CopyEscapes` | gaussdb/gaussdb/_copy_base.py:411-433 | exactly seven bytes are written as a backslash and a letter, each with its own |
| `Quoting.CopyMarks` | gaussdb/gaussdb/_copy_base.py:334-351 | a tab between fields, a newline after a row, a backslash and N for NULL |
| `CopyFormat.StreamReadsBack` | gaussdb/gaussdb/_copy_base.py:334-379 | the text stream cut at newlines reads as the rows written |
| `CopyFormat.BinaryRoundTrip` | gaussdb/gaussdb/_copy_base.py:382-398 | a row of any fields is read back as it was |
| `CopyFormat.BinaryStreamReadsBack` | gaussdb/gaussdb/_copy_base.py:354-370 | rows and a trailer read as the rows, with nothing between them |
| `Quoting.SignatureIs` | gaussdb/gaussdb/_copy_base.py:403-408 | the signature, its flags and extension, and the trailer |
| `Wire.BigEndian` | gaussdb/gaussdb/types/array.py:249-295 | four bytes of a number, the most significant first |
| `CopyFormat.FormatRowText` | gaussdb/gaussdb/_copy_base.py:334-351 | the loop adds the text of the row to the buffer, the last tab overwritten |
| `CopyFormat.FormatRowBinary` | gaussdb/gaussdb/_copy_base.py:354-370 | the loop adds count and fields; on a struct error the part before it stays in the buffer |
| `CopyFormat.ParseRowBinaryLoop` | gaussdb/gaussdb/_copy_base.py:382-398 | the loop over positions gives the fields of the specification |
| `CopyStream.OutputIsExpected` | gaussdb/gaussdb/_copy_base.py:237-322 | whatever the buffering, the bytes put out are those of the calls in order, with one signature and one trailer where they are due, if no block overtakes a buffered row |
| `CopyStream.CopyOfRows` | gaussdb/gaussdb/_copy_base.py:289-322 | copying rows puts out their encodings in order, between signature and trailer if binary |
| `CopyStream.RowsArrive` | gaussdb/gaussdb/_copy.py:133-151 | a reader of the stream gets exactly the rows written, in text (none of them empty) and in binary |
| `CopyStream.BufferStaysSmall` | gaussdb/gaussdb/_copy_base.py:289-302 | the buffer never keeps more than 32 kilobytes |
| `CopyStream.SmallRowsWait` | gaussdb/gaussdb/_copy_base.py:289-302 | rows that make up no more than that all wait for the end of the copy |
| `CopyStream.BlockOvertakesRow` | gaussdb/gaussdb/_copy.py:122-137 | a block written after a row is sent before it |
| `CopyOrder.OutputIsLeaving` | gaussdb/gaussdb/_copy_base.py:237-322 | for any calls at all, the bytes put out are those of the calls in the order they leave, then the trailer if it is due |
| `CopyOrder.EachLeavesOnce` | gaussdb/gaussdb/_copy_base.py:237-322 | every call with bytes leaves once, none is lost and none sent twice, even when a block overtakes |
| `CopyOrder.LeaveInOrderIff` | gaussdb/gaussdb/_copy.py:122-151 | the calls leave in the order they were made exactly when no block with data is written while a row waits in the buffer |
| `CopyStream.SplitGood` | gaussdb/gaussdb/_copy.py:198-211 | data is cut into nonempty chunks of at most MAX_BUFFER_SIZE that join to it |
| `CopyStream.SplitFull` | gaussdb/gaussdb/_copy.py:198-211 | every chunk but the last is as long as it may be |
| `CopyStream.LibpqWriter.Write` | gaussdb/gaussdb/_copy.py:198-211 | the writer sends those chunks |
| `CopyStream.Copy.WriteRow` | gaussdb/gaussdb/_copy.py:133-137 | a row goes to the buffer, and the buffer out when it is large enough |
| `CopyStream.Copy.Write` | gaussdb/gaussdb/_copy.py:122-131 | a block goes out at once |
| `CopyStream.Copy.Finish` | gaussdb/gaussdb/_copy.py:139-151 | the rest of the buffer and the trailer go out, and the writer is finished |
| `CopyStream.CopyBlock` | gaussdb/gaussdb/_copy.py:122-151 | a whole copy with the objects sends the expected bytes in chunks that libpq can take |
| `CopyQueue.QueueDelivers` | gaussdb/gaussdb/_copy.py:251-299 | for every interleaving with the worker: what was sent is a beginning of what was written, all of it if finish returns, and an error of the worker is always raised |
| `CopyQueue.QueuedCopyArrives` | gaussdb/gaussdb/_copy.py:251-299 | if finish returns, the bytes at the server are the expected ones also through the queue |
| `CopyQueue.StepInv` | gaussdb/gaussdb/_copy.py:251-299 | every queue operation of either thread keeps the chunks in order, with the end marker last |
| `CopyQueue.QueueStaysSmall` | gaussdb/gaussdb/_copy.py:227-250 | the queue never holds more than its 1024 places |
| `CopyQueue.ProgressIff` | gaussdb/gaussdb/_copy.py:251-299 | until the copy is finished something can happen, except exactly when a thread waits for room that a failed worker will never make |
| `CopyQueue.FinishCanHang` | gaussdb/gaussdb/_copy.py:288-299 | that case can be reached: finish puts its end marker without looking for the worker's error |
| `Adapters.ReplacingKeepsLookupsIff` | gaussdb/gaussdb/_adapters_map.py:189-220 | replacing a name by its class in the shared dictionary changes no look-up exactly if no other class without an entry has the same name |
| `Adapters.LookupKeepsLookups` | gaussdb/gaussdb/_adapters_map.py:189-220 | so a look-up changes none, if qualified names are unique |
| `Adapters.LookupHidesLaterName` | gaussdb/gaussdb/_adapters_map.py:189-220 | after a look-up in a table a dumper then registered by name is not found, though without the look-up it would be |
| `Adapters.LookupIs` | gaussdb/gaussdb/_adapters_map.py:189-226 | a look-up finds the first class of the chain that the table knows: its own entry if it has one, else that of its name |
| `Adapters.RegisteredByOid` | gaussdb/gaussdb/_adapters_map.py:153-161 | a dumper is found by its oid in its own format; no other oid or format and no loader is touched |
| `Adapters.LoaderRegistered` | gaussdb/gaussdb/_adapters_map.py:163-187 | a loader is found by its oid in its own format, and no dumper and no other loader changes |
| `Adapters.OthersKeepTheirs` | gaussdb/gaussdb/_adapters_map.py:143-151 | registering on a class changes what it finds in the format of the dumper and in AUTO, and nothing else |
| `Adapters.AddedIsFound` | gaussdb/gaussdb/_typeinfo.py:287-365 | an added type is found by oid, array oid and name, and its array by the name with brackets |
| `Adapters.AddedKeepsOthers` | gaussdb/gaussdb/_typeinfo.py:287-299 | adding a type changes no other key, and a regtype in use keeps its type |
| `AdapterObjects.AdaptersMap.From` | gaussdb/gaussdb/_adapters_map.py:71-91 | a map made from a template shares its dictionaries and says what it says; the template stops owning them |
| `AdapterObjects.AdaptersMap.Put` | gaussdb/gaussdb/_adapters_map.py:143-161 | one key of one dictionary is set, in a copy if the dictionary is shared; no other map changes |
| `AdapterObjects.AdaptersMap.RegisterDumper` | gaussdb/gaussdb/_adapters_map.py:112-161 | registering a dumper changes this map as specified, and no look-up on any other map |
| `AdapterObjects.AdaptersMap.RegisterLoader` | gaussdb/gaussdb/_adapters_map.py:163-187 | registering a loader changes this map as specified, and no look-up on any other map |
| `AdapterObjects.AdaptersMap.RegisterLoaderByName` | gaussdb/gaussdb/_adapters_map.py:163-187 | the same by type name, if this map's registry knows it |
| `AdapterObjects.AdaptersMap.GetDumper` | gaussdb/gaussdb/_adapters_map.py:189-226 | the dumper of the first class of the chain that has one; the shared dictionary is edited in place, and no map finds anything else, if names are unique |
| `AdapterObjects.GetDumperByOid` | gaussdb/gaussdb/_adapters_map.py:228-256 | the dumper that the dictionary of the format holds for the oid, or none |
| `AdapterObjects.GetLoader` | gaussdb/gaussdb/_adapters_map.py:258-267 | the loader for oid and format, or none |
| `AdapterObjects.TypesRegistry.From` | gaussdb/gaussdb/_typeinfo.py:271-281 | a registry made from a template shares its dictionary, and neither owns it |
| `AdapterObjects.TypesRegistry.Add` | gaussdb/gaussdb/_typeinfo.py:287-299 | adding a type changes this registry as specified, and no other |
| `AdapterObjects.TypesRegistry.Clear` | gaussdb/gaussdb/_typeinfo.py:283-285 | clearing a registry leaves the others as they are |

## Left out

- The asynchronous classes: they are the originals of the generated synchronous ones, and would repeat every proof.
- libpq, sockets, threads and real clocks: readiness, arrival of answers, connection failures and the passing of time are inputs of the model, and any values of them are allowed.
- The server beyond what each module needs: a savepoint stack with an abstract database, a set of prepared statements, answers in order, a reader of COPY streams.
- Pool closing, `__del__`, weak references, warnings, logging and statistics; the pool is open in every state.
- `NullConnectionPool.wait`: its connection is not counted in `_nconns` by design.
- `getconn` retrying when the check of a connection fails: it is a return followed by another request.
- `PoolModel.StepInv`: lets a resize add any number of connections, since the old min_size is read before the lock is taken.
- `Pool.ConnectionPool.CheckConnections`: tests a list whose results are given; the run in between two of its connections can be interleaved only in the state machine.
- `Scheduler.HeapPush` and `Scheduler.HeapPop`: heapq is modelled by its contract, not by its sifting.
- `Backoff.BackoffTerminates`: uses real numbers, so rounding of floating point delays is not modelled.
- `Pipeline.CursorsGetTheirOwn` and `Pipeline.BasePipeline.ProcessResults`: a result replaces those of its cursor, as after execute; that executemany adds them up, or sums their row counts, is not modelled.
- `Transactions.RunMeans`: has no two-phase commit, no connection lost inside a block and no pipeline mode; prepared statements are the concern of `Preparing`.
- `Preparing.CacheAgreesWithServer`: is about executes outside pipeline mode, by one cursor after another; statements that the user deallocates are not modelled, and a change of prepared_max or prepare_threshold in a session neither.
- Statement names are numbers, and a key is a number that stands for a query with its types.
- Result lists in a pipeline hold one result per command, as libpq gives them there; COPY inside a pipeline is refused by the driver.
- `Queries.BindingsAgree`: takes the literals of parameters as given byte strings; encodings, the cache of converted queries and the adaptation of values are not modelled.
- Elements of arrays, composites and rows are byte strings, and their own dumpers and loaders are the identity; an element dumper of a binary array is taken to refuse a list.
- Choosing an array's element type, and refusing lists that contain themselves: lists are values, so a list that is part of itself cannot be written.
- `ArrayText.RoundTrip`: covers the delimiters `,` and `;`, the only two that types declare.
- `ArrayBinary.RoundTrip`: follows the loader on what the dumper prints; on malformed data a negative length other than -1 is an error here, while Python would slice from the end.
- Binary composites, ranges and multiranges: they add no harder property than the binary array.
- Reading a COPY TO, its cancellation, and the files of FileWriter: message framing is the server's.
- `CopyQueue.QueueDelivers`: takes the sending of one chunk as one step that succeeds or fails; interrupts of the main thread inside a call are not modelled.
- `AdapterObjects.AdaptersMap.RegisterDumper`: numbers the dictionaries of a map in one list, where the source has three containers; replacing a class by its optimised version is left out.
- Date, number, network and other simple adapters, row factories, type modifiers and error tables: library calls, tables or easy arithmetic.
