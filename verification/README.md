# Verified models of the Cpp_In_One components

This project models the stateful components of the Cpp_In_One repository in Dafny and
proves what they are for: two maze searches, a decimal big-integer class, the output
path of a TCP connection over its byte buffer, epoll registration, the event loop's
wakeup protocol, a pool allocator, a connection pool, a thread pool, and the Protocol
Buffers messages and request frame of a small RPC system.

`dafny verify dfyconfig.toml` checks everything.

How the models are built. Each component that updates itself in place is a class (or,
for the mazes, works on an array of nodes) with the source's fields, methods and loops.
Where runs matter, a function says what each operation makes of the state as a value;
the methods are proved to compute that function, and the theorems about all runs are
lemmas about it. Concurrent components are cut at their locked sections and atomic
operations: one section is one step, and the theorems quantify over every interleaving
of steps. Answers of the kernel, of `malloc`, of the clock and of the other threads are
parameters restricted only by what those may legally answer.

| file | models |
|---|---|
| `Grids.dfy`, `BfsSearch.dfy`, `BfsTraces.dfy`, `BfsShapes.dfy`, `BfsNonSquare.dfy`, `BfsMaze.dfy`, `DfsMaze.dfy` | `src/algorithm/bfs.cpp`, `src/algorithm/dfs.cpp` |
| `BigInt.dfy` | `src/algorithm/bigint.cpp` |
| `ByteBuffer.dfy`, `TcpConnection.dfy` | `Buffer.h`, `Buffer.cc`, `TcpConnection.cc` of `src/projects/mymuduo` |
| `Poller.dfy`, `EventLoop.dfy` | `EPollPoller.cc`, `Channel.h`, `EventLoop.cc` of `src/projects/mymuduo` |
| `NgxPool.dfy`, `NgxLimits.dfy` | `src/pool/ngx_mem_pool.cpp`, `src/pool/ngx_mem_pool.h` |
| `ConnectionPool.dfy` | `src/pool/ConnectionPool.h` |
| `ThreadPool.dfy` | `src/thread_pool/thrd_pool.c` |
| `Wire.dfy`, `Messages.dfy`, `RpcFrame.dfy` | the generated messages, `mprpcchannel.cc` and `rpcprovider.cc` of `src/projects/mprpc` |

## Where the code falls short

- The breadth-first search indexes its parent vector by `x * rows + y`, so cells may share
  a slot or have none. `TracesRightIff`: every maze of a shape is traced rightly exactly
  when the shape is a single row, a square, or two rows of three columns (there two cells
  do share a slot, but never harmfully). `InsideIff`: a search writes outside the vector
  exactly when a cell can be reached in a row there is no column for, and `FoundOutside`:
  with more rows than columns every search that finds the goal has. For single mazes
  `UnspoiledTraceRight` and `SpoiledTrace` give conditions on distances and shared slots
  under which the trace is right, and under which it is wrong.
- A 1x1 maze is reported as having no path; `SearchMazePath` says exactly when the queue
  is left non-empty.
- `bigint.cpp` puts the minus mark at the end and strips a zero difference to nothing
  unless the strings are equal. `RightIffOrdered` says on exactly which digit strings the
  answer is the right one, `LeadingZerosMislead` gives a pair on which it is not.
- The pool's `end - m` is an unsigned subtraction. `PoolStaysInsideIff`: blocks are never
  overrun, in any run, exactly when the pool size is a multiple of the alignment;
  `OverrunReachable` is a pool of 66 bytes that is overrun by its second allocation.
- `ngx_palloc_block` uses an uninitialised pointer at line 142, where the model takes the
  evident `newpool = m`. `ngx_palloc_large` cannot give a chunk back at line 105, and the
  model keeps that: `ChunkLeaksIff` says exactly when a chunk is lost, `LostForGood` that
  nothing ever frees it, `LeakReachable` gives a run of one allocation that loses one.
- The scanner of the connection pool reads the front of the queue unguarded.
  `UnguardedReadIff` says when it meets an empty one, `UnguardedReadReachable` that it can.
- `disableAll` on a channel that is not registered registers it, with an empty mask
  (`DisableAllLeavesIff`).
- A service or method name within a few bytes of two gigabytes is framed but its header
  cannot be parsed (`SplitUndoesBuild`).

## Model

| member | source | states |
|---|---|---|
| Grids.SetNodeState | src/algorithm/bfs.cpp:53-77 | after marking, the direction flags of every node are exactly the edges between adjacent open cells, and no value changed |
| Grids.TakeEdge | src/algorithm/dfs.cpp:90-93 | clearing the two flags removes that one edge, in both directions, and no other |
| Grids.ExploredWalk | src/algorithm/bfs.cpp:94-99 | flags stay symmetric, edges are used up only between pushed cells, and a push uses up exactly one edge |
| Grids.NeighbourDistance | src/algorithm/bfs.cpp:94-129 | adjacent cells are exactly one level apart: the grid is bipartite |
| Grids.ExhaustedReachesAll | src/algorithm/dfs.cpp:81-116 | when the queue or stack runs empty every reachable cell has been pushed, with no visited set |
| BfsSearch.SlotsInBoundsIff | src/algorithm/bfs.cpp:98 | the parent index stays inside the vector for every cell exactly when there are no more rows than columns |
| BfsSearch.SlotsSoundIff | src/algorithm/bfs.cpp:98 | all cells have slots of their own inside the vector exactly when the maze is square or has one row |
| BfsSearch.NearCellsSeen | src/algorithm/bfs.cpp:85-132 | every cell no further out than the front of the queue has been pushed |
| BfsSearch.EdgesLeadOutwards | src/algorithm/bfs.cpp:94-129 | an edge left at the front of the queue leads to a cell one step further from the start |
| BfsSearch.VisitKeepsLevelled | src/algorithm/bfs.cpp:94-99 | a push keeps the queue ordered by true distance and every stored parent exactly one step nearer, overwritten ones included |
| BfsSearch.VisitHolds | src/algorithm/bfs.cpp:98-99 | a slot keeps the parent of the furthest cell it was written for, whatever nearer cells share it |
| BfsSearch.VisitFar | src/algorithm/bfs.cpp:98-99 | the cell a slot holds is at most one level nearer than any pushed cell that uses the slot, however often it is overwritten |
| BfsSearch.TraceIsShortest | src/algorithm/bfs.cpp:135-149 | following stored parents back from any pushed cell gives a shortest open path from the start |
| BfsSearch.HeldIsRight | src/algorithm/bfs.cpp:135-149 | where the cells of one shortest walk share slots with nearer cells only, following the slots back from the goal gives a shortest walk, whatever other cells share slots |
| BfsSearch.LinkedUnique | src/algorithm/bfs.cpp:140-149 | following the slots back from a cell there is at most one way to the start |
| BfsSearch.TraceEndsIff | src/algorithm/bfs.cpp:140-149 | the back-trace ends, reading inside the vector only, exactly when the slots link the cell to the start |
| BfsSearch.InsideIff | src/algorithm/bfs.cpp:79-133 | a search never writes outside the parent vector exactly when no reachable cell lies in a row there is no column for |
| BfsSearch.FoundOutside | src/algorithm/bfs.cpp:79-133 | with more rows than columns every search that finds the goal has written outside the vector |
| BfsSearch.EndFindsGoal | src/algorithm/bfs.cpp:85-132 | a search that has ended holds a non-empty queue exactly when the goal is reachable and not the start |
| BfsSearch.TurnsDone | src/algorithm/bfs.cpp:85-132 | every search ends, of any maze |
| BfsMaze.Maze.TryWay | src/algorithm/bfs.cpp:94-102 | one direction block computes its step: flags, parent slot, push and goal test |
| BfsMaze.Maze.SearchMazePath | src/algorithm/bfs.cpp:79-133 | on every maze whose search stays inside the vector: terminates; the queue is non-empty exactly when the goal is reachable and not the start; the pushes are one more than the edges used up; the end state is that of so many turns of the loop |
| BfsSearch.TurnsEnd | src/algorithm/bfs.cpp:85-132 | a search that has ended is in the same state however its turns are counted |
| BfsTraces.UnspoiledTraceRight | src/algorithm/bfs.cpp:79-149 | a maze is traced rightly if every cell on a shortest walk shares its slot only with cells nearer than itself or further than the goal |
| BfsTraces.SpoiledTrace | src/algorithm/bfs.cpp:79-149 | a maze is traced wrongly if a cell on every shortest walk shares its slot with one further than itself and nearer than the goal |
| BfsShapes.TracesRightIff | src/algorithm/bfs.cpp:79-149 | every maze of a shape, whatever the vector held before, is searched inside the vector and traced by a shortest walk exactly when the shape has one row, is square, or is two by three |
| BfsShapes.TwoByThree | src/algorithm/bfs.cpp:85-149 | every maze of two rows and three columns is traced rightly although two cells share a slot |
| BfsShapes.ManyRows | src/algorithm/bfs.cpp:98-149 | for three rows or more and more columns, a maze that is traced wrongly |
| BfsShapes.TwoRows | src/algorithm/bfs.cpp:98-149 | for two rows and five columns or more, a maze that is traced wrongly |
| BfsNonSquare.TraceLeavesTheWalk | src/algorithm/bfs.cpp:98-146 | on a maze of two rows and four columns the search reaches the goal but the stored parents lead through two cells that are not adjacent |
| BfsNonSquare.TraceOf24 | src/algorithm/bfs.cpp:98-149 | and one for two rows and four columns |
| BfsMaze.Maze.StarCells | src/algorithm/bfs.cpp:140-149 | the trace ends at the start and stars exactly the cells of the path |
| BfsMaze.Maze.ShowMazePath | src/algorithm/bfs.cpp:135-161 | stars exactly the cells passed when the slots are followed back from the goal |
| BfsMaze.Maze.Solve | src/algorithm/bfs.cpp:200-207 | the program as a whole, on sound shapes and every other maze on which it is defined and ends, stars the path traced back, or none exactly when the goal is unreachable or is the start; on sound shapes and wherever the trace is right that is a shortest walk |
| BfsMaze.Maze.SolveInput | src/algorithm/bfs.cpp:185-207 | the same from any zeros and ones read in |
| DfsMaze.SimpleExtend | src/algorithm/dfs.cpp:90-94 | continuing over an unused edge keeps the walk free of repeated edges |
| DfsMaze.PushKeepsSearching | src/algorithm/dfs.cpp:90-113 | a push keeps the stack a walk over distinct used-up edges and uses up an edge |
| DfsMaze.PopKeepsSearching | src/algorithm/dfs.cpp:115 | popping a cell without edges keeps the invariant |
| DfsMaze.Maze.SearchMazePath | src/algorithm/dfs.cpp:75-117 | terminates with a walk from the start to the goal that uses no edge twice, or with an empty stack exactly when the goal is unreachable |
| BigInts.OrderIsNumeric | src/algorithm/bigint.cpp:99-111 | on canonical strings, length-then-character order is numeric order |
| BigInts.CanonicalUnique | src/algorithm/bigint.cpp:145-154 | a number has one canonical digit string |
| BigInts.Add | src/algorithm/bigint.cpp:21-85 | the sum denotes the exact sum for all digit strings and is canonical for canonical ones |
| BigInts.Borrowing | src/algorithm/bigint.cpp:113-143 | the digits written, with the last borrow, make up the exact difference |
| BigInts.LastBorrow | src/algorithm/bigint.cpp:116-143 | a borrow is left at the end exactly when the difference is negative |
| BigInts.StrippedDigits | src/algorithm/bigint.cpp:145-154 | stripping zeros leaves the canonical digits, and nothing of zero |
| BigInts.Subtract | src/algorithm/bigint.cpp:87-162 | on canonical strings: the canonical digits of the distance, marked at the end exactly when negative; on all digit strings the stated closed form |
| BigInts.RightIffOrdered | src/algorithm/bigint.cpp:96-111 | the answer is right exactly on pairs ordered as strings the way they are as numbers |
| BigInts.LeadingZerosMislead | src/algorithm/bigint.cpp:99-103 | "7" minus "007" gives a bare minus mark |
| BigInts.CanonicalDifference | src/algorithm/bigint.cpp:87-162 | canonical strings are such pairs |
| BigInts.DifferenceMeans | src/algorithm/bigint.cpp:87-162 | read as numbers: the distance, with a mark behind it exactly when the first is the smaller |
| BigInts.SubtractUndoesAdd | src/algorithm/bigint.cpp:21-162 | (a + b) - b is a, as a string |
| ByteBuffer.Buffer.Retrieve | src/projects/mymuduo/Buffer.h:38-45 | drops from the front, everything if asked for too much |
| ByteBuffer.Buffer.RetrieveAsString | src/projects/mymuduo/Buffer.h:56-60 | the bytes returned and those left are the bytes that were there; asked for more than is readable, it returns stale bytes behind them and empties the buffer |
| ByteBuffer.Buffer.MakeSpace | src/projects/mymuduo/Buffer.h:97-113 | keeps the contents and provides the room asked for |
| ByteBuffer.Buffer.MoveDown | src/projects/mymuduo/Buffer.h:105-112 | the overlapping move keeps the contents |
| ByteBuffer.Buffer.Append | src/projects/mymuduo/Buffer.h:69-73 | adds exactly the given bytes at the back |
| ByteBuffer.Buffer.ReadFd | src/projects/mymuduo/Buffer.cc:7-33 | appends exactly the bytes read, across both segments; an error changes nothing |
| TcpConnections.StreamOrder | src/projects/mymuduo/TcpConnection.cc:79-135 | in every run wire bytes then buffered bytes are the accepted messages in order; while up, the channel is writing exactly when the buffer is non-empty |
| TcpConnections.AcceptedExactly | src/projects/mymuduo/TcpConnection.cc:60-109 | a message is accepted exactly when connected and not met by EPIPE or ECONNRESET on a direct write; otherwise nothing changes |
| TcpConnections.ShutdownAfterEverything | src/projects/mymuduo/TcpConnection.cc:136-149 | the write side is shut down at most once, with every accepted byte on the wire |
| TcpConnections.SilentAfterShutdown | src/projects/mymuduo/TcpConnection.cc:60-207 | afterwards no byte is written, no message accepted, no second shutdown made |
| TcpConnections.ShutdownNotForgotten | src/projects/mymuduo/TcpConnection.cc:185-202 | while disconnecting, the shutdown has been made exactly when the buffer is empty |
| TcpConnections.WireGainsWhatKernelTook | src/projects/mymuduo/TcpConnection.cc:90-98 | each step puts on the wire exactly the bytes the kernel took, a direct write only when nothing was waiting |
| TcpConnections.ShutdownHappens | src/projects/mymuduo/TcpConnection.cc:136-202 | a shutdown asked for is made at once or when the backlog is taken, with all accepted messages on the wire |
| TcpConnections.CallbacksExactly | src/projects/mymuduo/TcpConnection.cc:96-127 | the high-water callback is queued exactly when the backlog crosses the mark; write-complete exactly when a send is written at once and whole or a write event empties the buffer, and then all accepted bytes are on the wire |
| TcpConnections.StateChanges | src/projects/mymuduo/TcpConnection.cc:136-218 | only establishing, shutdown, close and destruction change the state, and how |
| TcpConnections.BytesKept | src/projects/mymuduo/TcpConnection.cc:151-218 | establishing, closing and destroying touch no byte and no message |
| TcpConnections.StaysOpen | src/projects/mymuduo/TcpConnection.cc:60-135 | until asked to leave, an open connection stays open, is not shut down, and accepts every message sent, in order, unless the peer is gone |
| TcpConnections.EverythingSent | src/projects/mymuduo/TcpConnection.cc:60-207 | from the start, what was sent over an open connection is on the wire or in the buffer, in order |
| TcpConnections.ClosedForGood | src/projects/mymuduo/TcpConnection.cc:209-218 | after a close nothing is accepted, written, shut down or called back |
| TcpConnections.TcpConnection.SendInLoop | src/projects/mymuduo/TcpConnection.cc:79-135 | the method computes the send step on the real buffer |
| TcpConnections.TcpConnection.HandleWrite | src/projects/mymuduo/TcpConnection.cc:185-207 | the method computes the drain step, with the deferred shutdown |
| TcpConnections.TcpConnection.RequestShutdown | src/projects/mymuduo/TcpConnection.cc:136-149 | the method computes the shutdown step |
| Pollers.IndexTellsTruth | src/projects/mymuduo/EPollPoller.cc:57-125 | after any calls the index is "added" exactly when the kernel holds the descriptor with the current mask, "new" exactly when the map lacks it, and no epoll_ctl call failed |
| Pollers.KernelFollows | src/projects/mymuduo/EPollPoller.cc:57-95 | after each call the kernel holds the new mask, or nothing when the channel was removed or lost its last interest |
| Pollers.DisableAllLeavesIff | src/projects/mymuduo/EPollPoller.cc:57-79 | switching all off removes the descriptor exactly when it was present, and otherwise adds it |
| Pollers.InterestsIndependent | src/projects/mymuduo/Channel.h:42-46 | each call sets or clears exactly its own bits: reading the two lowest, writing the third |
| Pollers.ReadingWatched | src/projects/mymuduo/EPollPoller.cc:57-125 | once reading is enabled the kernel watches for it until it is disabled or the channel removed |
| Pollers.WritingWatched | src/projects/mymuduo/EPollPoller.cc:57-125 | the same of writing |
| Pollers.EPollPoller.Perform | src/projects/mymuduo/EPollPoller.cc:57-125 | a channel's call changes that channel as specified and leaves every other channel alone |
| EventLoops.NoLostWakeup | src/projects/mymuduo/EventLoop.cc:68-133 | while the loop is parked with functors pending, or asked to quit, the eventfd is positive or a thread is between its push and its wakeup, even if poll leaves the wakeup channel out |
| EventLoops.Enqueued | src/projects/mymuduo/EventLoop.cc:113-124 | a run queues exactly the functors pushed in it, from whichever thread, in the order of the pushes |
| EventLoops.FifoOnce | src/projects/mymuduo/EventLoop.cc:113-161 | functors run in the order of the pushes, each at most once: run, batch and pending are the pushes cut in three |
| EventLoops.QuietMeansDone | src/projects/mymuduo/EventLoop.cc:68-161 | parked with no wakeup and no call under way, everything pushed has run and nobody asked to quit |
| EventLoops.QuitOnlyWhenAsked | src/projects/mymuduo/EventLoop.cc:60-101 | the loop stops only if somebody asked, and the flag is set exactly then |
| EventLoops.WakeupsCounted | src/projects/mymuduo/EventLoop.cc:43-58 | until it is drained the eventfd counts the wakeups |
| EventLoops.QuitStopsTheLoop | src/projects/mymuduo/EventLoop.cc:68-101 | after a request to quit the loop never polls again once it is out of poll, and takes no more steps than its round has left, plus one per functor pushed meanwhile |
| EventLoops.QuitReachesStop | src/projects/mymuduo/EventLoop.cc:68-101 | from anywhere after a request to quit that many steps of the loop thread reach the end of the loop |
| EventLoops.RoundRunsEverything | src/projects/mymuduo/EventLoop.cc:74-87 | one undisturbed round runs everything queued, and empties the eventfd if it was reported |
| EventLoops.NextRoundRunsAll | src/projects/mymuduo/EventLoop.cc:68-161 | from the start of the loop: once poll returns, one round later everything pushed by then has run |
| EventLoops.EventLoop.QueueInLoop | src/projects/mymuduo/EventLoop.cc:113-124 | the loop thread's push, needing a wakeup only while the batch runs |
| EventLoops.EventLoop.SwapPending | src/projects/mymuduo/EventLoop.cc:151-154 | the whole pending list becomes the batch in one step |
| NgxPool.AlignStaysInsideIff | src/pool/ngx_mem_pool.h:64-68 | aligning never passes a block's end exactly when the end is aligned; otherwise the unsigned room is huge |
| NgxLimits.PoolStaysInsideIff | src/pool/ngx_mem_pool.cpp:55-77 | every run of a pool keeps the free part of every block inside it exactly when the pool size is a multiple of the alignment |
| NgxLimits.OverrunReachable | src/pool/ngx_mem_pool.cpp:55-77 | a pool of 66 bytes is overrun by its second allocation |
| NgxPool.NoWrap | src/pool/ngx_mem_pool.cpp:61-71 | under the invariant the unsigned subtraction never wraps |
| NgxPool.BumpCurrent | src/pool/ngx_mem_pool.cpp:152-156 | the skip pointer ends past exactly the blocks whose counter passed five |
| NgxPool.BumpKeepsCounters | src/pool/ngx_mem_pool.cpp:152-158 | counters never increase along the chain, the last is zero, and a block lies before the skip pointer exactly when its counter is six |
| NgxPool.BumpKeepsExact | src/pool/ngx_mem_pool.cpp:152-158 | a new block moves every counter and the skip pointer to their closed form |
| NgxPool.NewBlockKeeps | src/pool/ngx_mem_pool.cpp:130-161 | a fresh block fits the request, and the invariant holds |
| NgxPool.SmallKeeps | src/pool/ngx_mem_pool.cpp:55-77 | a small allocation carves one new region or fails and changes nothing |
| NgxPool.ChunkKeeps | src/pool/ngx_mem_pool.cpp:80-114 | a large allocation gets a header that points to it, or the chunk is lost when the header cannot be had |
| NgxLimits.ChunkLeaksIff | src/pool/ngx_mem_pool.cpp:80-114 | a chunk is lost exactly when malloc gave it, none of the first five headers is free, no block has room for a new one, and malloc has no new block |
| NgxLimits.LeakReachable | src/pool/ngx_mem_pool.cpp:80-114 | a run of one allocation that loses its chunk |
| NgxLimits.LostForGood | src/pool/ngx_mem_pool.cpp:117-187 | a lost chunk stays lost in every run, resets included |
| NgxPool.ResetKeeps | src/pool/ngx_mem_pool.cpp:164-187 | a reset frees every chunk that has a header, forgets the headers, and puts every block's free byte back behind its header with its counter at zero |
| NgxPool.CarvedNeverOverlap | src/pool/ngx_mem_pool.cpp:28-161 | in every run each small allocation and large header lies after its block's header and before its end, is aligned when asked, and is disjoint from every other |
| NgxPool.SuffixBounded | src/pool/ngx_mem_pool.cpp:55-187 | in every run, resets included, each counter has a closed form, the skip pointer is never null and at most max(7, blocks at the last reset + 5) blocks lie from it on |
| NgxPool.SevenBlocks | src/pool/ngx_mem_pool.cpp:55-161 | without a reset a small allocation examines at most seven blocks |
| NgxPool.CreateHolds | src/pool/ngx_mem_pool.cpp:4-27 | a new pool is one empty block behind a header of 64 bytes, its limit the room left but at most 4095 |
| NgxPool.SmallRequest | src/pool/ngx_mem_pool.cpp:30-77 | a request up to the limit is answered by the first block with room, and only without one by a new block |
| NgxPool.LargeRequest | src/pool/ngx_mem_pool.cpp:30-114 | a larger one is answered with the chunk malloc gave, through a free header among the first five if there is one |
| NgxPool.HeaderInFront | src/pool/ngx_mem_pool.cpp:80-114 | otherwise a header of 16 bytes is carved and put in front of the list |
| NgxPool.ChunksConserved | src/pool/ngx_mem_pool.cpp:80-127 | a live chunk is pointed to by exactly one header, leaked ones apart |
| NgxPool.MemPool.PallocSmall | src/pool/ngx_mem_pool.cpp:55-77 | the loop computes the small allocation |
| NgxPool.MemPool.PallocBlock | src/pool/ngx_mem_pool.cpp:130-161 | the loop computes counters, skip pointer and new block |
| NgxPool.MemPool.PallocLarge | src/pool/ngx_mem_pool.cpp:80-114 | the loop computes the large allocation, looking at five headers |
| NgxPool.MemPool.Pfree | src/pool/ngx_mem_pool.cpp:117-127 | frees through the first header that points to the chunk |
| NgxPool.MemPool.ResetPool | src/pool/ngx_mem_pool.cpp:164-187 | the loops compute the reset |
| ConnectionPools.ConnectionsConserved | src/pool/ConnectionPool.h:109-213 | in every run the counter is queued plus borrowed, within its bounds; each connection is queued once, borrowed, or deleted, and only one of these; the queue is in the order of last use |
| ConnectionPools.StartHolds | src/pool/ConnectionPool.h:109-136 | the pool starts with its floor of connections, each stamped when made |
| ConnectionPools.ProducerServes | src/pool/ConnectionPool.h:138-192 | below its limit, the pool makes a new connection for a caller who finds the queue empty |
| ConnectionPools.BorrowedStays | src/pool/ConnectionPool.h:159-213 | a borrowed connection is never deleted and leaves its holder only by being returned |
| ConnectionPools.ScanExact | src/pool/ConnectionPool.h:194-213 | the early break is exact because the queue stays in order of last use |
| ConnectionPools.ScanClosesPrefix | src/pool/ConnectionPool.h:194-213 | a scan closes exactly a prefix of the queue, each connection in it over the limit at its own check, and nothing below the floor |
| ConnectionPools.StampedAtTheBack | src/pool/ConnectionPool.h:138-192 | a returned or new connection stands last with the current time; one is made only below the limit |
| ConnectionPools.BorrowTakesOldest | src/pool/ConnectionPool.h:159-192 | a caller gets the connection idle for longest |
| ConnectionPools.UnguardedReadIff | src/pool/ConnectionPool.h:201-202 | the scanner meets an empty queue exactly when more are borrowed than the floor and all queued ones are over the limit |
| ConnectionPools.UnguardedReadReachable | src/pool/ConnectionPool.h:201-202 | a run that gets there |
| ConnectionPools.ConnectionPool.ScannerConnectionTask | src/pool/ConnectionPool.h:194-213 | the loop computes the scan |
| ConnectionPools.ConnectionPool.GetConnection | src/pool/ConnectionPool.h:159-192 | hands out the front of the queue, or nothing when it is empty |
| ThreadPools.TasksInOrder | src/thread_pool/thrd_pool.c:70-80 | tasks taken, then those in the ring, are the accepted ones in order; tail is (head + count) mod size; `started` counts the workers not gone |
| ThreadPools.PostQueues | src/thread_pool/thrd_pool.c:198-234 | a post is taken exactly when the pool is open and the ring has a free place, goes to the back and wakes a sleeper if there is one; any other changes nothing |
| ThreadPools.EnterTakesOldest | src/thread_pool/thrd_pool.c:60-80 | an open pool's worker takes the oldest task, or sleeps when there is none |
| ThreadPools.PostsAreServed | src/thread_pool/thrd_pool.c:60-80 | from the start, the tasks of the posts that were taken are those taken by workers, then those waiting, in order |
| ThreadPools.DestroyCloses | src/thread_pool/thrd_pool.c:171-195 | destroying closes the pool and wakes every sleeper, and does nothing else |
| ThreadPools.SomebodyAwake | src/thread_pool/thrd_pool.c:62-69 | while open, nobody sleeps or as many workers are awake as tasks queued |
| ThreadPools.ClosedDrains | src/thread_pool/thrd_pool.c:71-90 | once closed, no task is taken or accepted and each worker leaves when it next looks |
| ThreadPools.EverybodyLeaves | src/thread_pool/thrd_pool.c:171-195 | as many steps as workers are left bring `started` to zero |
| ThreadPools.ThreadPool.WorkerStep | src/thread_pool/thrd_pool.c:60-87 | the worker's locked section computes its step |
| ThreadPools.ThreadPool.PostTask | src/thread_pool/thrd_pool.c:198-234 | the post computes its step; 0 means the task is queued, -3 and -4 that nothing changed |
| Wire.VarintRoundTrip | src/projects/mprpc/example/friend.pb.cc:213 | reading a varint undoes writing it, whatever follows |
| Wire.Int32RoundTrip | src/projects/mprpc/example/friend.pb.cc:209-216 | a 32-bit signed field, negative or not, reads back |
| Wire.Int32SizeExact | src/projects/mprpc/example/friend.pb.cc:287-291 | the size announced for it is the size written, ten bytes when negative |
| Wire.MinusTwo | src/projects/mprpc/example/friend.pb.cc:260-263 | a negative number is ten bytes, low bits first |
| Wire.BytesRoundTrip | src/projects/mprpc/example/friend.pb.cc:218-224 | a byte string reads back exactly when it is at most 2147483631 bytes long |
| Wire.CutBytesBad | src/projects/mprpc/example/friend.pb.cc:218-224 | a byte string cut short anywhere is not read |
| Wire.StandardRereads | src/projects/mprpc/example/friend.pb.cc:232-241 | unknown varints, byte strings and fixed-width fields are kept so that writing them out lets them be read again |
| Messages.ResultParses | src/projects/mprpc/example/friend.pb.cc:203-269 | parsing a serialized ResultCode, unknown fields included, merges it into what was there exactly when its string is short enough to be parsed, and fails otherwise |
| Messages.ListParses | src/projects/mprpc/example/friend.pb.cc:620-693 | the same with a submessage and a repeated field |
| Messages.ListConcatenationMerges | src/projects/mprpc/example/friend.pb.cc:620-753 | parsing two serializations in a row gives the merged message, and parsing undoes serializing, exactly when all parts are short enough to be parsed |
| Messages.ListReserializes | src/projects/mprpc/example/friend.pb.cc:620-693 | whatever bytes the parser accepts, the message they give serializes to bytes that parse to it again, exactly when its merged submessage is still short enough |
| Messages.ListSizeExact | src/projects/mprpc/example/friend.pb.cc:695-725 | the byte size is the serialized length |
| Messages.ResultSizeExact | src/projects/mprpc/example/friend.pb.cc:271-300 | the byte size is the serialized length |
| Messages.Examples | src/projects/mprpc/example/friend.pb.cc:251-262 | one message of each kind, byte by byte |
| Messages.Rejections | src/projects/mprpc/example/friend.pb.cc:207-236 | no message is parsed past an unreadable, zero or group-end tag or an unknown field that is turned down |
| Messages.HeaderParses | src/projects/mprpc/src/rpcheader.pb.cc:149-229 | a serialized header is merged exactly when both names are short enough to be parsed |
| Messages.HeaderConcatenationMerges | src/projects/mprpc/src/rpcheader.pb.cc:149-302 | two headers in a row parse to their merge exactly when all names are short enough to be parsed |
| Messages.HeaderReserializes | src/projects/mprpc/src/rpcheader.pb.cc:149-229 | whatever bytes the parser accepts, the header they give, unknown fields and all, serializes to bytes that parse to it again |
| Messages.HeaderSizeExact | src/projects/mprpc/src/rpcheader.pb.cc:231-267 | the byte size is the serialized length |
| Messages.FriendsListMessage.InternalParse | src/projects/mprpc/example/friend.pb.cc:620-665 | the tag loop, with its inner loop over friends and its keeping of unknown fields, computes the parse |
| Messages.FriendsListMessage.MergeFrom | src/projects/mprpc/example/friend.pb.cc:742-753 | computes the merge, making the submessage when needed |
| Messages.ResultCodeMessage.InternalParse | src/projects/mprpc/example/friend.pb.cc:203-243 | the tag loop computes the parse, keeping unknown fields and parsing past them |
| Messages.RpcHeaderMessage.InternalParse | src/projects/mprpc/src/rpcheader.pb.cc:149-197 | the tag loop computes the parse, keeping unknown fields and parsing past them |
| RpcFrame.CallMethod | src/projects/mprpc/src/mprpcchannel.cc:36-68 | builds the frame, or fails when a part is too long to serialize |
| RpcFrame.FramedIff | src/projects/mprpc/src/mprpcchannel.cc:36-60 | a call is framed exactly when its arguments and its header fit a signed 32-bit length |
| RpcFrame.FrameLayout | src/projects/mprpc/src/mprpcchannel.cc:47-68 | the frame is the header's length in four bytes, lowest first, the header, the arguments |
| RpcFrame.SplitUndoesBuild | src/projects/mprpc/src/rpcprovider.cc:99-121 | splitting a frame recovers exactly what was framed, even with more bytes behind, precisely when both names can be parsed |
| RpcFrame.SplitSkipsUnknown | src/projects/mprpc/src/rpcprovider.cc:99-121 | a header with unknown fields in it still splits to the call that was framed |
| RpcFrame.SplitsAnything | src/projects/mprpc/src/rpcprovider.cc:99-121 | what any received bytes split into |
| RpcFrame.TableKeepsFirst | src/projects/mprpc/src/rpcprovider.cc:24-30 | a service's table holds exactly the listed names, each with its first descriptor |
| RpcFrame.RpcProvider.NotifyService | src/projects/mprpc/src/rpcprovider.cc:12-34 | publishes a service and replaces none |
| RpcFrame.RpcProvider.OnMessage | src/projects/mprpc/src/rpcprovider.cc:95-167 | splits and looks up, with every way of failing |
| RpcFrame.CallReachesMethod | src/projects/mprpc/src/rpcprovider.cc:132-146 | a framed call of a published method reaches that method with its own arguments |
| RpcFrame.UnknownCallsTurnedDown | src/projects/mprpc/src/rpcprovider.cc:132-143 | a framed call of an unpublished service, or of a method it does not list, is answered so |
| RpcFrame.LongNamesDropped | src/projects/mprpc/src/rpcprovider.cc:104-118 | a framed call with a name too long to parse is dropped |

## Left out

- BfsMaze.Maze.SearchMazePath: requires that no cell can be reached in a row there is no column for, because otherwise the code writes outside its parent vector (`InsideIff`) and what happens then is undefined.
- BfsMaze.Maze.ShowMazePath: requires slots that link the goal to the start, because on any other the loop does not end, or reads outside the vector (`TraceEndsIff`).
- BfsMaze.Maze.Solve: requires of a maze of another shape that its search stay inside the vector and its back-trace end, because otherwise the program is undefined or runs forever; `UnspoiledTraceRight` and `SpoiledTrace` decide single mazes except where cells at equal distances, or cells on some shortest walks only, share slots.
- BfsMaze.Maze.SolveInput: requires the same of the maze read in.
- Queue and stack entries of the mazes hold a cell's coordinates; the source copies the whole node but reads only those.
- The console dialogue of the mazes and the marking of the depth-first path.
- BigInts.Subtract: requires strings of digits, so an operand that is itself a marked negative result is not modelled; the code computes with the mark's character code.
- BigInts.Add: requires strings of digits, for the same reason.
- TcpConnections.TcpConnection.SendInLoop: assumes both optional callbacks are set; the model records that they are queued, not that they run.
- Sends from other threads, socket errors read in `handleError`, and the input side of a connection beyond the buffer.
- ByteBuffer.Buffer.RetrieveAsString: requires that the bytes asked for lie inside the vector, because the source would read past its end.
- Descriptors shared by two channels, and closing a descriptor without removing its channel.
- A failing eventfd write, and a functor queued from the loop thread before the loop starts.
- Zero-filling in `ngx_pcalloc`, cleanup handlers and destroying the pool; memory contents are not modelled, only addresses.
- Failing condition-variable and mutex calls, releasing the thread pool's memory, and creating its threads.
- A failing database connect; the producer's connection always opens.
- The library's reader of unknown fields is a parameter (`FieldReader`), of which the theorems that need it ask only that what it keeps can be read again (`Rereads`); `StandardReader` is one such reader, without groups.
- Arenas, reflection and cached sizes of messages.
- Running the service, sending the response, looking the provider up, and frames that arrive in pieces.
- GetFriendsListRequest, `user.pb.cc` and `test.pb.cc`, which repeat the modelled patterns; `TopK.cpp`, `BigdataInTopK.cpp`, `bTree.c`, the design-pattern and smart-pointer demos.
