# A verified model of the RPC framework's concurrency, parsing and connection code

This project models the parts of the framework, and of the two libraries it builds on, whose
correctness is hardest to see from the code, and proves what they promise.

| files | what they model |
|---|---|
| Tickets, FreeList, ProducerHash, BlockRing, BlockIndex | the lock-free queue: optimistic dequeue tickets, the reference-counted free list, the hash from threads to producers, the growing ring of block-index entries |
| Semaphore, BlockingQueue | the two-level semaphore, and the blocking queue made of queue and semaphore |
| XmlText, XmlTree, XmlScanner, XmlLayout, XmlPrinter, XmlNode, XmlAncestry | TinyXML: escaping, the recursive-descent parser, its independence of layout, the printer in every style, the doubly linked child lists, when they form a tree |
| EventLoop, ThreadPool, AsyncLogging | handing work between threads: pending functors and eventfd, the bounded task queue, the double-buffered log |
| TcpConnection, TimerQueue, Connector | output ordering and half-close, the two indexes over one set of timers, connecting with retries |
| NetBuffer, RpcCoder, LogStream | the connection's byte buffer, length-prefixed framing, formatting integers |
| Basics, Counting, Modular | shared definitions; sums over threads; remainders and powers of two |

Concurrent code is a state machine: one step per atomic access (or per critical section, where
a mutex is held), any number of threads, any interleaving.  `Execution(run)` says that `run`
is such a run, `Trace(run, acts)` that `acts` are the actions taken along it; the main results hold
of every state of every run.  Fields marked as history
record what happened and are never read by a step.  Code confined to one thread is a class, or
methods with loops, proved against specification functions; its `Run` methods take an arbitrary
list of events, so what they ensure holds of every reachable state.  What the operating system
does (write results, timeouts, connect errors, the clock) is an input.

Some promises turn out not to hold of the code as written, and are stated exactly.

- `TimerQueue::cancelInLoop` erases an active timer from one set only: its own assertion holds if
  and only if the timer was not active (`TimerQueue.Queue.CancelTimer`), so a run fails exactly
  where an active timer is cancelled (`TimerQueue.BreaksOffIff`).
- A functor that the loop thread queues before it calls `loop()` can be slept on until the poll
  times out (`EventLoop.EarlyFunctorSleeps`); without such a functor no poll sleeps on a pending
  one (`EventLoop.NoEarlyFunctorNoSleep`).
- `Connector::restart` called while connecting fails an assertion or abandons the old attempt's
  socket; all sockets are accounted for if and only if that never happens
  (`Connector.AccountedIff`, `Connector.RestartLosesSocket`).
- `TcpConnection::connectDestroyed` fails an assertion if and only if the connection is closing or
  was destroyed before (`TcpConnection.BreaksOffIff`).
- `TiXmlNode::LinkEndChild` breaks a list if and only if the node is in it already, which its
  assertions let pass (`XmlNode.LinkEndChild`), and closes a circle if and only if the node is the
  parent itself or one of its ancestors (`XmlAncestry.StaysTree`).
- The framework's receivers unpack once for each read: every payload is delivered if and only if
  after each read the frames not yet complete do not outnumber the reads to come
  (`RpcCoder.DeliveredIff`).
- The escape round trip fails for exactly the strings that contain `&#x`
  (`XmlText.EscapeRoundTrip`).

`dafny verify dfyconfig.toml` verifies the whole project.

## Model

| member | source | states |
|---|---|---|
| Tickets.DequeueSafety | submodules/concurrentqueue/concurrentqueue.h:2536-2604 | In every state of every run of one producer and any number of dequeuers, headIndex, even advanced by every thread about to advance it, does not pass tailIndex, and the optimistic count is exactly headIndex plus overcommit plus the units in flight |
| Tickets.PassedFits | submodules/concurrentqueue/concurrentqueue.h:2542-2549 | The core argument: take the largest ticket unit that passed the tail test; every overcommit it read belongs to an earlier failed unit, so claimed and claimable units fit below the tail |
| Tickets.NoIndexTwice | submodules/concurrentqueue/concurrentqueue.h:2548-2551 | No index is claimed twice in a run: if two threads hold the same index at two moments they are one thread, which has held the same claim all the time in between, and the index has been enqueued |
| Tickets.OwnerGrows | submodules/concurrentqueue/concurrentqueue.h:2548-2551 | Who claimed which index is settled once: the record of claims at one moment is a prefix of the record at every later one |
| Tickets.HoldsOrMovesOn | submodules/concurrentqueue/concurrentqueue.h:2548-2551 | A thread that holds indices still holds the same ones at any later moment, or holds only indices beyond them |
| Tickets.ClaimFits | submodules/concurrentqueue/concurrentqueue.h:2548-2551 | A thread about to claim n units finds headIndex plus n at most tailIndex, which is what the block index takes for granted of a claim |
| Tickets.TailCounts | submodules/concurrentqueue/concurrentqueue.h:2536-2551 | In every run tailIndex counts the elements enqueued and headIndex those claimed |
| Tickets.QuiescentDequeue | submodules/concurrentqueue/concurrentqueue.h:2765-2786 | With no other dequeue in flight, a single or bulk dequeue comes back empty exactly when the sub-queue is empty, and otherwise gets the oldest elements, as many as asked for or as there are |
| Tickets.CircularLessIsLess | submodules/concurrentqueue/concurrentqueue.h:469-480 | The wrapped comparison tells the true order if and only if the true distance is within half the range, one side included |
| FreeList.ReferenceCounts | submodules/concurrentqueue/concurrentqueue.h:1438-1517 | Over every interleaving of add and try_get, the low 31 bits of a node's word are the list's reference plus its current holders, and the flag bit is set exactly while the node waits to be inserted |
| FreeList.ChainIsSound | submodules/concurrentqueue/concurrentqueue.h:1452-1490 | The chain from freeListHead visits each node at most once and ends, and a thread about to swing the head past a node has that node's present successor in hand, so the compare-and-swap is free of ABA |
| FreeList.OneOwner | submodules/concurrentqueue/concurrentqueue.h:1473-1484 | A thread about to be given a node is its only taker, the node is off the chain and owned by nobody, and the assertion on its word holds |
| FreeList.NeverDangling | submodules/concurrentqueue/concurrentqueue.h:1452-1490 | Every node a thread is about to dereference exists |
| FreeList.NothingLost | submodules/concurrentqueue/concurrentqueue.h:1495-1517 | With no operation in progress every node is owned by a client or on the chain |
| FreeList.QuiescentGet | submodules/concurrentqueue/concurrentqueue.h:1452-1490 | From every reachable state with no operation in progress, try_get run alone changes nothing and comes back without a block exactly when the chain is empty; otherwise the first block of the chain becomes its caller's, the chain loses it, and nothing else changes |
| FreeList.QuiescentAdd | submodules/concurrentqueue/concurrentqueue.h:1438-1447 | From every such state add run alone puts its block in front of the chain, and nothing else changes |
| FreeList.EmptyHanded | submodules/concurrentqueue/concurrentqueue.h:1452-1490 | Under any interleaving try_get comes back without a block only if the list was empty at some moment of the call, however many races it lost |
| ProducerHash.TableLoad | submodules/concurrentqueue/concurrentqueue.h:3374-3524 | In every reachable state the ids in a table of capacity C, those re-added from older tables included, have distinct counts below 3C/4 and number fewer than that |
| ProducerHash.ProbesEnd | submodules/concurrentqueue/concurrentqueue.h:3395-3443 | A thread that is searching or placing always has a free slot ahead of it within one round of the table, so every probe loop ends |
| ProducerHash.OneProducerPerThread | submodules/concurrentqueue/concurrentqueue.h:3374-3524 | Over a whole run, whatever resizes happen in between, two calls return the same producer if and only if the same thread made them |
| ProducerHash.NeverStuck | submodules/concurrentqueue/concurrentqueue.h:3374-3524 | Every table and slot a thread is about to access exists |
| ProducerHash.CallEnds | submodules/concurrentqueue/concurrentqueue.h:3374-3524 | From every reachable state, whatever the other threads are in the middle of, a call that goes on alone ends with the thread's own producer, as long as no other thread is resizing |
| ProducerHash.CountsThreads | submodules/concurrentqueue/concurrentqueue.h:3446-3524 | The count is the number of threads that were not found, and as many producers have been made as there are threads that have one |
| ProducerHash.EndsInMain | submodules/concurrentqueue/concurrentqueue.h:3395-3443 | The step that ends a call leaves the thread's id in the newest table the call loaded: an id found in an older table only has been put there first |
| ProducerHash.WaitsForResize | submodules/concurrentqueue/concurrentqueue.h:3446-3524 | A call whose count is past three quarters of the newest table, while another thread is resizing, goes round without end when alone |
| ProducerHash.FromHome | submodules/concurrentqueue/concurrentqueue.h:3398-3435 | Linear probing reaches every slot within one round |
| ProducerHash.Grown | submodules/concurrentqueue/concurrentqueue.h:3452-3455 | The new capacity is at least the doubled one and more than twice the count |
| BlockRing.LookupSlot | submodules/concurrentqueue/concurrentqueue.h:2927-2948 | The wrapped 64-bit difference, divided unsigned by the block size and masked, lands in the slot of the block looked for, on either side of the tail, for every power-of-two capacity up to 2^59 |
| BlockRing.KeyOffset | submodules/concurrentqueue/concurrentqueue.h:2941-2943 | The unsigned division yields the difference of the block numbers modulo 2^59 |
| BlockIndex.RingIsMap | submodules/concurrentqueue/concurrentqueue.h:2886-2991 | After any inserts, rewinds, out-of-order frees and doublings, looking up a live block's base yields the entry with that base and that block |
| BlockIndex.DequeuerFindsBlock | submodules/concurrentqueue/concurrentqueue.h:2548-2560 | A dequeuer that loads header, tail and key at different moments, with the producer at work in between and through a header since replaced, finds its own base and its own live block; the base it reads at the tail is valid |
| BlockIndex.NeverOutOfRange | submodules/concurrentqueue/concurrentqueue.h:2886-2991 | No access leaves the index arrays: the producer and every dequeuer in an operation can always take their next step |
| BlockIndex.UnfinishedBlocksAreLive | submodules/concurrentqueue/concurrentqueue.h:1572-1590 | A block's count of dequeued elements never exceeds the block size, and a block with published elements still to be dequeued is in the index |
| BlockIndex.FinishedBlocksLeave | submodules/concurrentqueue/concurrentqueue.h:2553-2597 | In every state of every run a block whose last element has been dequeued is still in the index only while the dequeuer that emptied it is about to take it out |
| BlockIndex.QuietIndex | submodules/concurrentqueue/concurrentqueue.h:2553-2597 | With no dequeuer at work and the producer idle, the index stands for exactly the blocks from the one headIndex is in up to the last one inserted |
| BlockIndex.GoneBlocksAreNull | submodules/concurrentqueue/concurrentqueue.h:2927-2948 | A block that has left the index is not found any more: the slot its base leads to holds no block, as long as the ring has not gone round |
| BlockIndex.GrowsIffFull | submodules/concurrentqueue/concurrentqueue.h:2886-2916 | Inserting a block grows the ring exactly if the block one round earlier is still in the index |
| BlockIndex.GrowsOnlyWhenFull | submodules/concurrentqueue/concurrentqueue.h:2886-2916 | With no dequeuer at work that is exactly when every slot of the ring holds a block that still has elements |
| BlockIndex.NewSlotIsUnused | submodules/concurrentqueue/concurrentqueue.h:2900-2916 | After doubling, the slot after the tail has never been used, as the code asserts |
| BlockRing.CopyRing | submodules/concurrentqueue/concurrentqueue.h:2951-2991 | The copy loop of new_block_index writes the old entries from the oldest on, then the unused ones |
| BlockRing.RotatedAt | submodules/concurrentqueue/concurrentqueue.h:2966-2987 | Every block of the old ring keeps its entry in the new one, at the slot the new tail implies |
| Semaphore.Conservation | submodules/concurrentqueue/lightweightsemaphore.h:262-402 | Over every run with timeouts, bulk waits and failed compare-and-swaps: count plus permits acquired plus waiting threads equals what was put in |
| Semaphore.WaitersAccountedFor | submodules/concurrentqueue/lightweightsemaphore.h:280-304 | Waiting threads are exactly the negative part of the count plus inner permits plus permits about to be posted |
| Semaphore.NoLostWakeup | submodules/concurrentqueue/lightweightsemaphore.h:393-402 | With the count not negative, a thread asleep on the inner semaphore has a permit posted or about to be posted |
| Semaphore.ReturnsWhatItHolds | submodules/concurrentqueue/lightweightsemaphore.h:307-341 | A call returns at most what it asked for, and permits acquired are those returned plus those in calls under way |
| Semaphore.Accounts | submodules/concurrentqueue/lightweightsemaphore.h:262-402 | In every run the initial count and the arguments of all signals add up to what calls came back with, what calls under way hold, the count and the waiting threads |
| Semaphore.QuiescentWait | submodules/concurrentqueue/lightweightsemaphore.h:307-402 | With every other thread at rest the count is the permits there are; a wait that finds permits comes back with as many as there are up to what it asked for, one that finds none comes back empty or, if it blocks, lowers the count to -1 and sleeps |
| Semaphore.UndisturbedGrants | submodules/concurrentqueue/lightweightsemaphore.h:307-341 | A thread that has come to spin, or was woken with one permit in hand, and is not disturbed takes as many more as there are up to what it asked for |
| BlockingQueue.PermitLedger | submodules/concurrentqueue/blockingconcurrentqueue.h:359-367 | The items in the queue, counted by where their permits are |
| BlockingQueue.HolderHasItem | submodules/concurrentqueue/blockingconcurrentqueue.h:359-367 | All permits in hand are covered by distinct unclaimed items, so a holder retrying try_dequeue always has one to find |
| BlockingQueue.SleeperIsWoken | submodules/concurrentqueue/blockingconcurrentqueue.h:123-130 | A sleeping consumer has a wake-up on its way as soon as the queue holds an item that no holder and no pending signal accounts for |
| BlockingQueue.QuietCount | submodules/concurrentqueue/blockingconcurrentqueue.h:123-130 | With nobody inside, the semaphore's count is the number of items |
| BlockingQueue.QueueHoldsRest | submodules/concurrentqueue/blockingconcurrentqueue.h:123-367 | The queue holds what the enqueue calls of the run put in less what the dequeues took out, and a permit has been signalled, or is still owed by its enqueuer, for each item put in |
| XmlText.EscapeRoundTrip | submodules/tinyxml/tinyxmlparser.cpp:574-637 | For every string and quote, keep-whitespace ReadText over the escaped string, the quote and a nonempty rest returns the string and stops after the quote if and only if the string nowhere contains &#x (sections 4.1 and 4.6 of XML 1.0) |
| XmlText.DecodeEscape | submodules/tinyxml/tinyxmlparser.cpp:438-531 | Every character's escaped form decodes to that character and nothing more |
| XmlText.SemicolonAligned | submodules/tinyxml/tinyxml.cpp:52-133 | What follows a semicolon in escaped text is again the escape of a shorter text |
| XmlText.ReferenceValue | submodules/tinyxml/tinyxmlparser.cpp:438-498 | A character reference of any length, decimal or hexadecimal in either case, reads as the character whose code is the low byte of the number, and reading goes on after it |
| XmlText.ReferenceReadBack | submodules/tinyxml/tinyxmlparser.cpp:438-498 | Every character of the encoding is read from a reference with its number, decimal or hexadecimal, upper or lower case, with any number of leading zeros (section 4.1 of XML 1.0) |
| XmlLayout.TextReadBack | submodules/tinyxml/tinyxmlparser.cpp:597-637 | Text is read condensed whatever runs of white space, line breaks and tabs included, stand for its blanks and around it; line breaks and tabs of the text itself survive, being escaped |
| XmlLayout.NameThenValue | submodules/tinyxml/tinyxmlparser.cpp:1392-1463 | An attribute with any white space around its equals sign and either quote is parsed to its name and value and the parser stops exactly after it |
| XmlLayout.AttrsBack | submodules/tinyxml/tinyxmlparser.cpp:1131-1173 | So is a list of attributes with distinct names inside a tag, with any runs of white space between them |
| XmlPrinter.ElementRoundTrip | submodules/tinyxml/tinyxmlparser.cpp:1043-1176 | For every valid element tree, parsing the stream-mode text gives the tree back and consumes exactly the printed bytes, whatever follows |
| XmlLayout.ContentRead | submodules/tinyxml/tinyxmlparser.cpp:1179-1247 | For every valid content with any runs of white space between texts, tags and end tag, the children are read and the reader stops at the end tag |
| XmlTree.LeafRoundTrip | submodules/tinyxml/tinyxmlparser.cpp:818-899 | Comments, CDATA sections, unknown tags and declarations, each identified by its opening, parse back to themselves |
| XmlTree.DeclarationBack | submodules/tinyxml/tinyxmlparser.cpp:1572-1626 | A declaration is read back with each of version, encoding and standalone in its own place, empty ones left out |
| XmlTree.PseudoAnyCase | submodules/tinyxml/tinyxmlparser.cpp:1594-1620 | The names of the three are recognised in any mixture of upper and lower case |
| XmlLayout.LayoutRead | submodules/tinyxml/tinyxmlparser.cpp:1043-1247 | Every text of an element, whatever white space (the six characters of isspace, named one by one) stands around its tags, attributes and texts, whatever quotes its attributes have and however its empty elements are written, is parsed to the element's tree, and the parser stops just after it |
| XmlLayout.LayoutIndependence | submodules/tinyxml/tinyxmlparser.cpp:314-362 | Any two texts of one tree, with any white space before them, parse to the same tree |
| XmlLayout.WordsBack | submodules/tinyxml/tinyxmlparser.cpp:1188-1222 | A text before a tag, with any white space between them, becomes one text child, read condensed |
| XmlLayout.RepeatRefused | submodules/tinyxml/tinyxmlparser.cpp:1140-1173 | An attribute that repeats a name ends the parse with an error, whatever the layout |
| XmlLayout.MismatchRefused | submodules/tinyxml/tinyxmlparser.cpp:1103-1138 | An element closed by the end tag of another name, one that begins with the element's name included, is not accepted |
| XmlLayout.ItemRead | submodules/tinyxml/tinyxmlparser.cpp:818-899 | Each node is identified by its opening, whatever its layout, and parsed to its tree |
| XmlScanner.EncodeString | submodules/tinyxml/tinyxml.cpp:52-133 | The index loop computes Encode |
| XmlScanner.SkipWhiteSpaceAt | submodules/tinyxml/tinyxmlparser.cpp:314-362 | The pointer loop computes SkipWhiteSpace, which passes over any run of the six white-space characters (XmlLayout.SkipGap) and stops at anything else |
| XmlLayout.SkipGap | submodules/tinyxml/tinyxmlparser.cpp:314-362 | White space is skipped up to the first other character, for every run of blanks, tabs, line feeds, carriage returns, vertical tabs and form feeds |
| XmlScanner.ReadNameAt | submodules/tinyxml/tinyxmlparser.cpp:401-436 | The pointer loop computes ReadName |
| XmlScanner.ReadDigits | submodules/tinyxml/tinyxmlparser.cpp:446-498 | Digits summed backwards in a 32-bit multiplier and a 64-bit sum give the reference's value in the low byte, wrap-around notwithstanding, and fail exactly on a non-digit |
| XmlScanner.GetEntityAt | submodules/tinyxml/tinyxmlparser.cpp:438-531 | The decoder computes GetEntity |
| XmlScanner.GetCharAt | submodules/tinyxml/tinyxml.h:327-361 | Reading one character computes GetChar |
| XmlScanner.ReadKeepAt | submodules/tinyxml/tinyxmlparser.cpp:574-596 | The keep-whitespace loop computes ReadKeep |
| XmlScanner.ReadTrimAt | submodules/tinyxml/tinyxmlparser.cpp:597-637 | The condensing loop computes ReadTrim, which XmlLayout.TextReadBack describes for every run of white space |
| XmlScanner.ParseAttributeAt | submodules/tinyxml/tinyxmlparser.cpp:1392-1463 | Computes ParseAttribute |
| XmlScanner.ParseCommentAt | submodules/tinyxml/tinyxmlparser.cpp:1337-1389 | Computes the comment case of ParseNode |
| XmlScanner.ParseCDataAt | submodules/tinyxml/tinyxmlparser.cpp:1497-1531 | Computes the CDATA case of ParseNode |
| XmlScanner.ParseUnknownAt | submodules/tinyxml/tinyxmlparser.cpp:1275-1307 | Computes the unknown-tag case of ParseNode |
| XmlScanner.ParseDeclarationAt | submodules/tinyxml/tinyxmlparser.cpp:1572-1626 | Computes the declaration case of ParseNode |
| XmlScanner.ParseNodeAt | submodules/tinyxml/tinyxmlparser.cpp:818-899 | Identifies and parses a node as ParseNode does |
| XmlScanner.ParseElementAt | submodules/tinyxml/tinyxmlparser.cpp:1043-1081 | Computes ParseElement |
| XmlScanner.ParseTagAt | submodules/tinyxml/tinyxmlparser.cpp:1082-1176 | The attribute loop computes ParseTag |
| XmlScanner.ReadValueAt | submodules/tinyxml/tinyxmlparser.cpp:1179-1247 | The content loop computes ReadValue, which XmlLayout.ContentRead describes for every layout |
| XmlScanner.IsBlank | submodules/tinyxml/tinyxmlparser.cpp:1631-1637 | Computes Blank: only white space, so that layout between tags becomes no child (XmlLayout.ContentRead) |
| XmlPrinter.Printer.VisitEnter | submodules/tinyxml/tinyxml.cpp:1766-1800 | Appends margin, opening tag and, unless the only child is text, a line break, in any style; keeps the text flag and depth |
| XmlPrinter.Printer.VisitExit | submodules/tinyxml/tinyxml.cpp:1803-1826 | Appends the end tag with its margin and line break, or nothing for an empty element |
| XmlPrinter.Printer.VisitText | submodules/tinyxml/tinyxml.cpp:1829-1854 | Appends the text on a line of its own, or in place when it is an only child |
| XmlPrinter.Printer.Accept | submodules/tinyxml/tinyxml.cpp:1766-1885 | Walking a tree appends its lines in the printer's style and restores depth and text flag |
| XmlPrinter.PrintedIsParsed | submodules/tinyxml/tinyxml.cpp:1766-1885 | In every style made of white space, the default one and stream mode among them, parsing what was printed gives the tree back |
| XmlPrinter.StreamLine | submodules/tinyxml/tinyxml.h:1768-1773 | Without indent and line breaks the printer writes Print of the tree |
| XmlPrinter.PrintThenParse | submodules/tinyxml/tinyxmlparser.cpp:1043-1247 | With any indent and line break made of white space, the imperative printer followed by the imperative parser returns the same valid element and ends just after the printed element |
| XmlNode.SpliceForest | submodules/tinyxml/tinyxml.cpp:186-359 | Rewriting the links around one place of one list leaves every list of the forest well formed, parent, prev, next, first and last child consistent, and every other list alone |
| XmlNode.LinkEndChild | submodules/tinyxml/tinyxml.cpp:186-211 | Refuses a document, otherwise appends; the forest stays well formed if and only if the node was not in the list already, and if it was, no sequence describes the list's pointers any more |
| XmlNode.RelinkBreaks | submodules/tinyxml/tinyxml.cpp:199-209 | The latter, by following the prev pointers from the new last child back to the node itself |
| XmlNode.Run | submodules/tinyxml/tinyxml.cpp:136-359 | Every sequence of calls, up to a failed assertion or a child linked twice: the pointers of all nodes spell out the lists that the calls make as plain lists, each node is at most one node's child, once, and no document is a child |
| XmlNode.NewNode | submodules/tinyxml/tinyxml.cpp:136-144 | A node just made joins the forest without disturbing it |
| XmlAncestry.StaysTree | submodules/tinyxml/tinyxml.cpp:186-359 | Along every run the nodes form trees all the time if and only if no LinkEndChild links the parent itself or one of its ancestors |
| XmlAncestry.StepAcyclic | submodules/tinyxml/tinyxml.cpp:186-359 | One operation on a forest of trees leaves one if and only if it is not such a LinkEndChild; inserting, replacing and removing always do |
| XmlAncestry.SelfLinked | submodules/tinyxml/tinyxml.cpp:186-211 | The shortest run that ends in a circle: a node linked to itself |
| XmlNode.ParentIff | submodules/tinyxml/tinyxml.cpp:186-359 | A parent pointer says exactly that the node is in that parent's list |
| XmlNode.InsertBeforeChild | submodules/tinyxml/tinyxml.cpp:230-260 | Inserts before the given child, or refuses a node that is not one and a document |
| XmlNode.InsertAfterChild | submodules/tinyxml/tinyxml.cpp:263-293 | Inserts after the given child, under the same refusals |
| XmlNode.ReplaceChild | submodules/tinyxml/tinyxml.cpp:296-332 | Puts the new node in the old one's place |
| XmlNode.RemoveChild | submodules/tinyxml/tinyxml.cpp:335-359 | Takes the child out of the sequence, or refuses |
| XmlNode.FirstChild | submodules/tinyxml/tinyxml.cpp:361-370 | Following next pointers finds the first child with the value, or none has it |
| XmlNode.SpliceUndo | submodules/tinyxml/tinyxml.cpp:230-359 | Removing what was inserted gives the old list back |
| EventLoop.RunsInPushOrder | net/EventLoop.cpp:120-180 | Executed functors, the rest of the batch and the pending list always make up the functors pushed, in order, so each runs at most once |
| EventLoop.RunsWhatWasHanded | net/EventLoop.cpp:120-180 | Those functors are the ones handed to queueInLoop and runInLoop in the run, in the order of the critical sections |
| EventLoop.RoundRunsBatch | net/EventLoop.cpp:162-180 | From the swap to the end of its round the loop runs exactly the functors that were pending at the swap, in order; what is pushed meanwhile waits |
| EventLoop.RoundCompletes | net/EventLoop.cpp:66-93 | From every reachable state after a poll the loop thread, if it goes on, gets through its round: by the next poll it has run what was left of its batch or, before the list was taken over, everything pending |
| EventLoop.StopsIff | net/EventLoop.cpp:66-93 | A round ends the loop exactly if somebody asked it to quit since loop() was entered |
| EventLoop.EventfdCounts | net/EventLoop.cpp:134-160 | The eventfd's count is the number of writes since it was last read |
| EventLoop.OwesIff | net/EventLoop.cpp:120-142 | A write to the eventfd is owed exactly from a push or a quit that asks for one up to the write |
| EventLoop.ReportsWrites | net/EventLoop.cpp:66-93 | Poll reports the eventfd only after a write not read yet |
| EventLoop.NoLostWakeup | net/EventLoop.cpp:120-142 | In poll with a pending functor whose pusher was told to wake, the eventfd is readable or a pusher still owes its write |
| EventLoop.LaterPollsAreSafe | net/EventLoop.cpp:66-93 | From the second round on this covers every pending functor |
| EventLoop.QuitWakes | net/EventLoop.cpp:194-205 | In poll with quit requested, the eventfd is readable or about to be |
| EventLoop.NoEarlyFunctorNoSleep | net/EventLoop.cpp:120-142 | In every run in which the loop thread queues nothing outside loop(), every poll with a pending functor has a readable or owed eventfd |
| EventLoop.EarlyFunctorSleeps | net/EventLoop.cpp:128-131 | Conversely, from every reachable state in which loop() may be entered and no write is done or owed, queueing any functor on the loop thread and entering loop() gives a run that polls on it with the eventfd unreadable and no write owed |
| EventLoop.FreshLoop | net/EventLoop.cpp:30-64 | Such a state is reachable: an unused loop |
| ThreadPool.FifoAndBounded | base/ThreadPool.cpp:62-108 | What was pushed is what was taken followed by the queue, and a bounded queue never exceeds its bound |
| ThreadPool.RunsWhatWasAsked | base/ThreadPool.cpp:62-102 | The tasks taken followed by those queued are the tasks of the calls of run that found room in a running pool, in order, each the task its thread asked for, and each call of take that found a task took one |
| ThreadPool.ReturnsWithReason | base/ThreadPool.cpp:62-102 | A call of run comes back only with its task queued or the pool stopped, a call of take only with a task or with the pool stopped and the queue empty |
| ThreadPool.StopFreesEverybody | base/ThreadPool.cpp:42-60 | In a stopped pool no producer and no worker waits |
| ThreadPool.RunningIff | base/ThreadPool.cpp:42-60 | The pool runs exactly until it is stopped |
| ThreadPool.FreeSlotsHaveProducers | base/ThreadPool.cpp:62-81 | While a producer waits un-notified, free slots do not outnumber producers awake, spurious wake-ups and barging included |
| ThreadPool.TasksHaveWorkers | base/ThreadPool.cpp:83-102 | While a worker waits un-notified, queued tasks do not outnumber workers awake |
| ThreadPool.NoStandoff | base/ThreadPool.cpp:42-102 | A waiting producer and a waiting worker imply some thread awake |
| AsyncLogging.Run | base/AsyncLogging.cpp:24-96 | Over every interleaving of appends with the back end, the accepted lines in lock order are the file, the unwritten swapped buffers, the filled buffers and the current buffer, in that order |
| AsyncLogging.Logger.Append | base/AsyncLogging.cpp:24-42 | A line shorter than a buffer is added to the stream, a longer one is dropped; the invariant is kept |
| AsyncLogging.Logger.SwapOut | base/AsyncLogging.cpp:55-65 | The critical section hands over all filled buffers and leaves a spare behind |
| AsyncLogging.Logger.WriteOne | base/AsyncLogging.cpp:69-71 | Writes the next swapped buffer to the file |
| AsyncLogging.Logger.Refill | base/AsyncLogging.cpp:73-93 | Both refills find a buffer: the assertions hold |
| AsyncLogging.Logger.Flush | base/AsyncLogging.cpp:52-95 | A whole turn of the back end with no appends in between writes everything |
| AsyncLogging.OutputIsPrefix | base/AsyncLogging.cpp:44-98 | The file is a prefix of what was appended |
| TcpConnection.Run | net/TcpConnection.cpp:115-311 | Over every sequence of calls and write results: the run breaks off exactly where a connection is destroyed while closing or a second time; wire followed by buffer is the bytes of the sends that were taken, in order; write interest is on exactly while the buffer has bytes; the half-close happens at most once, with every accepted byte on the wire, and does happen once a requested one finds the buffer empty |
| TcpConnection.AcceptedBytes | net/TcpConnection.cpp:68-173 | What a run accepts is the concatenation of the sends whose state and write result took them |
| TcpConnection.WroteReported | net/TcpConnection.cpp:132-250 | What a run put on the wire is as long as the sum of the counts its write calls reported |
| TcpConnection.ForceCloses | net/TcpConnection.cpp:292-311 | After a forced close one is queued or the connection is down, and once a queued one has run it is down, whatever happens in between |
| TcpConnection.ConnectedIff | net/TcpConnection.cpp:175-311 | The connection is up, and so takes sends, exactly as long as no shutdown, forced close, end of input or destruction came |
| TcpConnection.BreaksOffIff | net/TcpConnection.cpp:274-290 | An assertion fails in a run if and only if some destruction finds the connection closing, which the channel asserts against, or comes after another one, which the poller asserts against |
| TcpConnection.RemovedIff | net/Epoll.cpp:146-161 | The channel is out of the poller exactly after a destruction |
| TcpConnection.Connection.SendData | net/TcpConnection.cpp:68-96 | A send is taken whole or not at all: refused unless connected, dropped when the direct write finds the connection broken; with an empty buffer a write of n bytes puts the first n on the wire and buffers the rest |
| TcpConnection.Connection.SendInLoop | net/TcpConnection.cpp:115-173 | With an empty buffer, a write of n bytes leaves the first n on the wire, the rest buffered and write interest on exactly if there is a rest; an errno leaves the wire alone; with a filled buffer everything is buffered |
| TcpConnection.Connection.HandleWrite | net/TcpConnection.cpp:214-250 | A write of n bytes puts the first n of the buffer on the wire and keeps the rest, with write interest on exactly if there is one; an errno changes nothing; emptying a closing connection's buffer half-closes it |
| TcpConnection.Connection.ShutdownSend | net/TcpConnection.cpp:175-191 | Half-closes at once exactly when connected with an empty buffer |
| TcpConnection.Connection.HandleClose | net/TcpConnection.cpp:259-272 | Ends disconnected with all interest off |
| TcpConnection.Connection.HandlePeerClosed | net/TcpConnection.cpp:194-212 | Reached only in the states handleClose asserts |
| TcpConnection.Connection.ForceCloseConn | net/TcpConnection.cpp:292-301 | Moves a connected one to disconnecting |
| TcpConnection.Connection.ForceCloseInLoop | net/TcpConnection.cpp:303-311 | Ends disconnected |
| TcpConnection.Connection.ConnectDestroyed | net/TcpConnection.cpp:274-290 | Removing the channel finds no interest left on it and finds it in the poller, as is asserted, if and only if the connection was not closing and not destroyed before; then it ends disconnected |
| TcpConnection.Connection.ConnectEstablished | net/TcpConnection.cpp:46-66 | Starts connected and reading |
| TcpConnection.Handle | net/TcpConnection.cpp:115-311 | An event fails exactly if it destroys a connection that is closing or was destroyed; nothing accepted or written is taken back, and after the half-close nothing is added |
| NetBuffer.Buffer.Append | net/Buffer.h:123-132 | Appends to the readable bytes, in place or in a bigger array |
| NetBuffer.Buffer.MakeSpace | net/Buffer.h:105-121 | Makes room without changing the readable bytes, by a bigger array or an overlapping move |
| NetBuffer.Buffer.Prepend | net/Buffer.h:134-140 | Prepends to the readable bytes |
| NetBuffer.Buffer.Retrieve | net/Buffer.h:73-90 | Drops the first bytes, resetting the indexes when all are dropped |
| NetBuffer.Buffer.ReadFd | net/Buffer.cpp:13-46 | The two-part scatter read appends exactly what arrived |
| NetBuffer.Buffer.PeekInt32 | net/Buffer.cpp:49-55 | Reads the first four bytes, most significant first |
| NetBuffer.BigEndianRoundTrip | net/Buffer.cpp:49-55 | Every 32-bit number survives the network byte order |
| RpcCoder.Pack | rpc/RpcCoder.cpp:83-90 | The buffer becomes one frame of its old content followed by the body |
| RpcCoder.Unpack | rpc/RpcCoder.cpp:64-81 | Takes off the first frame exactly when its length is nonnegative, fits and is complete; a length of -4 to -1 throws, one whose frame length overflows int32 is undefined, and in every other case the buffer is left as it is |
| RpcCoder.SendAll | rpc/RpcCoder.cpp:83-90 | Packing message after message puts their frames on the wire one after the other |
| RpcCoder.Deliver | rpc/RpcCoder.cpp:64-81 | A caller that unpacks as long as four bytes are readable and a frame comes out gets the original payloads, all and in order, whatever chunks the frames arrive in |
| RpcCoder.ReceiveEach | rpc/RpcClient.cpp:72-80 | The framework's own receivers, with one unpack for each read: no assertion fails if and only if each read leaves at least four bytes buffered; then the payloads come in order, and all of them if and only if EnoughReads holds |
| RpcCoder.DeliveredIff | rpc/RpcFrame.cpp:76-85 | With one unpack for each read every payload is delivered if and only if after each read the frames not yet complete do not outnumber the reads to come |
| RpcCoder.SecondFrameWaits | rpc/RpcFrame.cpp:81-85 | Two frames in one read: the second stays in the buffer |
| TimerQueue.Run | net/TimerQueue.cpp:96-245 | Every run breaks off exactly where a timer active at that moment is cancelled; up to there the two sets describe the timers the events call for and no other, and the timerfd is armed for the earliest |
| TimerQueue.BreaksOffIff | net/TimerQueue.cpp:137-159 | An assertion fails in a run if and only if some event cancels an active timer |
| TimerQueue.CallsFailIff | net/TimerQueue.cpp:137-159 | Calls made by callbacks fail if and only if one cancels a timer left active or added by an earlier one, whose numbers are consecutive |
| TimerQueue.CallsKeep | net/TimerQueue.cpp:119-159 | Otherwise they leave every timer there before as it was and add exactly one timer for each Add |
| TimerQueue.FiredKeeps | net/TimerQueue.cpp:191-245 | A firing leaves every timer not due as it was; of those due exactly the repeating ones that no callback cancelled remain, one interval from now |
| TimerQueue.Queue.CancelTimer | net/TimerQueue.cpp:142-159 | As written: its closing assertion holds if and only if the timer was not active; otherwise the timer is gone from the sorted set and deleted but still in the active set |
| TimerQueue.CancelAfterAdd | net/TimerQueue.cpp:142-159 | Adding a timer and cancelling it leaves the sorted set empty and the active set not |
| TimerQueue.Queue.Insert | net/TimerQueue.cpp:161-188 | Adds to both sets and reports whether the timer is the earliest |
| TimerQueue.Queue.AddTimer | net/TimerQueue.cpp:119-135 | Keeps the timerfd armed for the earliest timer |
| TimerQueue.Queue.GetExpired | net/TimerQueue.cpp:96-116 | Exactly the timers due leave both sets, in order of expiration |
| TimerQueue.Queue.HandleRead | net/TimerQueue.cpp:191-213 | Fails exactly if a callback cancels a timer active at that moment; otherwise exactly the timers due ran, of these exactly the repeating uncancelled ones are back one interval from now and the others deleted, timers not due are as they were, and the timerfd is armed again |
| TimerQueue.Queue.RunCallbacks | net/TimerQueue.cpp:201-210 | The callbacks' calls are applied in order, and the expired timers they cancel are remembered |
| TimerQueue.Queue.Reset | net/TimerQueue.cpp:216-245 | The same for given expired timers and cancellations, with all other timers untouched |
| TimerQueue.Queue.Perform | net/TimerQueue.cpp:119-159 | A call fails its assertions if and only if it cancels an active timer |
| Connector.Run | net/Connector.cpp:29-214 | Every run breaks off exactly where an event fails an assertion; otherwise each socket, one for each attempt, is in exactly one place (held by the attempt in progress, closed once, handed over once) if and only if no restart found an attempt in progress; the k-th retry in a row waits min(500 * 2^k, 30000) ms |
| Connector.BreaksOffIff | net/Connector.cpp:35-47 | An assertion fails in a run if and only if startInLoop is called while not disconnected, or makes a channel while there is one; the assertion of handleWrite never fails |
| Connector.AccountedIff | net/Connector.cpp:108-115 | All sockets of a run are accounted for if and only if no restart found an attempt in progress |
| Connector.AbandonedIff | net/Connector.cpp:108-145 | A socket is left in the poller with nobody to close it, for good, exactly after such a restart |
| Connector.SocketsAccounted | net/Connector.cpp:67-214 | Every other socket of every run is in exactly one place, and sockets never opened in none |
| Connector.RestartLosesSocket | net/Connector.cpp:108-115 | The shortest such run: start, then restart refused |
| Connector.SocketPerAttempt | net/Connector.cpp:35-106 | Sockets opened are the calls of startInLoop that found a connection wanted |
| Connector.AttemptEnds | net/Connector.cpp:56-196 | What becomes of an attempt in progress: broken by an error, a refusal, a self-connection or a stop it is closed and its channel taken down, successful it is handed over if still wanted and closed if not, and any other event leaves it alone |
| Connector.RetryScheduledIff | net/Connector.cpp:67-216 | A retry is scheduled exactly when an attempt fails that is still wanted, and a timer fires once |
| Connector.StopHolds | net/Connector.cpp:49-65 | After a stop, as long as nobody starts or restarts, no socket is opened or handed over |
| Connector.Conn.StartInLoop | net/Connector.cpp:35-130 | Its assertions hold if and only if it is disconnected and, where a channel is made, there is none yet |
| Connector.Conn.HandleWrite | net/Connector.cpp:147-184 | The finished attempt's socket is handed over if good and wanted, and closed otherwise; its assertion fails if and only if the state is connected |
| Connector.Conn.HandleEvent | net/Channel.cpp:92-102 | Dispatched while the channel is polled, error callback before write callback, that assertion holds; an error on an attempt in progress closes its socket and takes its channel down |
| Connector.Conn.HandleError | net/Connector.cpp:186-196 | The failed attempt's socket is closed |
| Connector.Conn.StopInLoop | net/Connector.cpp:56-65 | Stops an attempt in progress and closes its socket |
| Connector.Conn.Retry | net/Connector.cpp:198-216 | Closes the socket and, if still wanted, schedules a retry after the present delay |
| Connector.Conn.Restart | net/Connector.cpp:108-115 | Starts again with the first delay whatever the state; without a failed assertion it abandons a socket exactly if an attempt was in progress |
| Connector.Conn.ResetChannel | net/Connector.cpp:142-145 | Drops the channel |
| Connector.BackoffStep | net/Connector.cpp:208-210 | Doubling the delay up to the maximum gives the next term of min(500 * 2^k, 30000) |
| LogStream.DecimalRoundTrip | base/LogStream.cpp:139-162 | For every integer the text has a sign exactly when negative, no leading zero, and parses back to the integer |
| LogStream.DecimalInjective | base/LogStream.cpp:139-162 | No two integers share a text |
| LogStream.DigitsValue | base/LogStream.cpp:68-84 | The digits in base 10 or 16 have the value of the number |
| LogStream.DigitsCanonical | base/LogStream.cpp:68-84 | They are digits of the base with no leading zero |
| LogStream.WordDigits | base/LogStream.cpp:164-171 | 64-bit values have at most 20 decimal and 16 hexadecimal digits |
| LogStream.TruncStep | base/LogStream.cpp:139-152 | Truncating division and the symmetric table take the last digit off the absolute value, the minimum included |
| LogStream.Convert | base/LogStream.cpp:143-162 | Digit loop, sign, terminator and in-place reversal write exactly the canonical decimal and a terminator within 32 bytes, and nothing else |
| LogStream.ConvertHex | base/LogStream.cpp:68-84 | The same in hexadecimal, leaving room for the prefix |
| LogStream.ReverseRange | base/LogStream.cpp:158-160 | Reverses part of an array in place |
| LogStream.Stream.FormatInteger | base/LogStream.cpp:164-171 | Appends the decimal, or nothing when fewer than 32 bytes are left |
| LogStream.Stream.FormatPointer | base/LogStream.cpp:86-97 | Appends the prefixed hexadecimal, or nothing |
| LogStream.Stream.Append | base/LogStream.h:21-28 | Appends text that fits with a byte to spare, otherwise drops it whole |

## Left out

- Weak memory orderings and fences of the lock-free queue: steps are sequentially consistent.
- FreeList.ReferenceCounts: runs of 2^31 - 2 threads and more are excluded, because the count of holders would run into the flag bit.
- Allocation failure in the hash and the free list, consumer and producer tokens, explicit producers, moves, swaps and destructors of the queue.
- Tickets.QuiescentDequeue: a bulk dequeue of at most zero elements is not modelled; the framework never asks for it.
- ProducerHash.OneProducerPerThread: thread exit and producer recycling are compiled out in this configuration (line 221 of concurrentqueue.h) and not modelled.
- BlockRing.LookupSlot: a capacity above 2^59 is excluded, because an index array that large cannot be allocated.
- BlockRing.CopyRing: allocation and publication of the new index array are the single step Grow of the state machine.
- BlockingQueue.PermitLedger: the inner queue is a bag, so the order of items of one producer is not stated; that dequeued indices are claimed in order is Tickets' subject.
- TinyXML's UTF-8 mode, reading from streams, row and column stamping, error texts, and documents as a whole: the byte encoding of elements and their content is modelled.
- XmlLayout.LayoutRead: attribute values without quotes, which the parser accepts and XML does not allow, and raw line breaks inside attribute values.
- XmlNode.InsertBeforeChild: the copy made of the argument is passed in as a node without a parent; the same holds of InsertAfterChild and ReplaceChild.
- XmlNode.RemoveChild: deleting the node is modelled as detaching it.
- XmlNode.Run: a clone is one node without children, to which others can be linked; the assertion of LinkEndChild on documents, which only a document as argument can fail.
- TiXmlAttributeSet's sentinel list: the same idea as the child list with fewer cases.
- EventLoop.NoLostWakeup: runInLoop called on the loop thread runs its functor directly and does not touch the list.
- ThreadPool.FifoAndBounded: a pool without threads, where run executes its argument at once, and joining the threads in stop.
- AsyncLogging.OutputIsPrefix: buffers still filled when the logger stops are not written, as in the code; rolling and flushing of the log file.
- AsyncLogging.Run: a buffer is the bytes it holds; the identity of buffer objects is not modelled.
- TcpConnection.Connection.SendInLoop: the write-complete and high-water callbacks, and sends and closes from other threads.
- NetBuffer.Buffer.Append: lengths of 2^31 and more, where makeSpace's int parameter would overflow.
- NetBuffer.Buffer.ReadFd: a read that fails, which changes nothing.
- RpcCoder.ReceiveEach: reading and unpacking are one step; in the server they happen on different threads.
- RpcCoder.Unpack: needs four readable bytes, as peekInt32 asks; what follows a signed overflow, which C++ leaves undefined; a body that does not parse.
- TimerQueue.Queue.Insert: timers with the same expiration are ordered by sequence number, in the code by address.
- TimerQueue.Queue.AddTimer: the timerfd's minimum of 100 microseconds; adding and cancelling from other threads.
- Connector.Conn.StartInLoop: calls from other threads; what a connector does after a failed assertion.
- LogStream: floating-point formatting, which is snprintf's.
- Sockets, epoll, configuration, logging macros, the RPC dispatch around the coder: plumbing that would add only easy members.
