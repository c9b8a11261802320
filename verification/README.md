# Hold-back queue of JAM (Just Another Messenger)

JAM is a peer-to-peer group chat over UDP. Chat messages reach a peer in any
order; each carries a 32-bit order number assigned by the group. The
hold-back queue (`HoldQueue` in `code/src/hold_queue.cpp`) turns them into a
total order. It keeps received chat payloads in a delivery queue sorted by
order. It releases to the user pipe the contiguous run at the front whose
orders continue from the next expected order, and appends every released
payload to a history.

This project models that queue as pure functions over an immutable state and
proves what it guarantees:

- `payload.dfy` (module `Payloads`): the payload record (type tag, 32-bit
  order, user name, message text) and the first-order constant.
- `ordering.dfy` (module `Ordering`): sorting by order. `std::sort` is not
  stable, so every result is characterised only as "ordered and a
  permutation". `SortByOrder` (an insertion sort) is one admissible outcome.
- `hold_queue.dfy` (module `HoldQueue`): the state; the constructor;
  `ProcessPayloads` as a recursive release function; the same loop written
  as the source writes it; `AddMessageToQueue`; the user-pipe setter. The
  pipe write is an append to an output log of `PipeMessage`s.
- `hold_queue_properties.dfy` (module `HoldQueueProperties`): properties of
  whole runs of additions. Release is unique. Every reachable state keeps the
  invariant and conserves payloads. A complete run of distinct, non-negative
  orders is always released in order. A stale payload at the front blocks
  release for good. Two concrete scenarios are worked through.

`AddMessageToQueueAs` takes the arrangement produced by the sort as an
argument. Its `requires` only says that this arrangement is one `std::sort`
could produce, so its contract holds whichever arrangement of equal orders
the sort picks. `AddMessageToQueue` fixes that arrangement to `SortByOrder`.

The code has none of the following, and the model follows the code:

- Duplicate suppression. A second payload with an
  already-released order is kept; it or an older payload then sits at the
  front and blocks every later release (`StaleFrontBlocks`, `DuplicateBlocksScenario`).
- History eviction: `history_queue_` is an unbounded `std::queue`.
- A working history lookup (`GetPayloadInHistory` always returns false) or a
  missing-order counter.

## Model

| member | source | states |
|---|---|---|
| Ordering.SortByOrder | code/src/hold_queue.cpp:18 | the sorted delivery queue is ordered by order and holds exactly the payloads it was given (a permutation) |
| Ordering.FrontIsMinimal | code/src/hold_queue.cpp:18 | after any admissible sort, the front payload has an order no larger than that of any payload in the queue |
| HoldQueue.Init | code/src/hold_queue.cpp:7-9 | a new queue expects order DEFAULT_FIRST_ORDER (0) and has an empty delivery queue, history and output, with no pipe set (-1); it satisfies the reachable-state invariant |
| HoldQueue.Release | code/src/hold_queue.cpp:25-33 | the loop takes from the front exactly the run whose orders are e, e+1, …; what it leaves is the rest of the queue, whose first payload (if any) does not carry the next expected order |
| HoldQueue.ProcessPayloads | code/src/hold_queue.cpp:23-36 | released payloads leave the delivery queue from its front. They are appended to the history, which only grows, and written to the pipe, both in release order. Their orders are expected, expected+1, … with no gap. The expected order advances by the number released. On return the queue is empty or its front is not the expected order |
| HoldQueue.ProcessPayloadsLoop | code/src/hold_queue.cpp:23-36 | the while loop as written (write, push onto history, erase front, increment) computes exactly the state ProcessPayloads describes and ends settled |
| HoldQueue.ReleaseStep | code/src/hold_queue.cpp:26-33 | one loop iteration followed by releasing the rest gives the same result as releasing everything at once |
| HoldQueue.SuffixSorted | code/src/hold_queue.cpp:32 | erasing payloads from the front of a sorted queue leaves it sorted |
| HoldQueue.ValidAfterRelease | code/src/hold_queue.cpp:31-33 | releasing keeps the history equal to the orders 0, 1, …, expected-1 in order, with the output log mirroring it |
| HoldQueue.AddMessageToQueueAs | code/src/hold_queue.cpp:14-21 | for every admissible sort outcome: a non-chat payload changes nothing (queues, expected order, output). For a chat payload, the released run is taken from the front of the sorted queue and what stays queued is the rest of it, in the same order; the delivery queue is left sorted and settled. The pipe is unchanged. The expected order never decreases. The history only grows, by a gapless run starting at the old expected order, and the pipe gets the same run. Delivery plus history gains exactly the added payload. The reachable-state invariant is preserved |
| HoldQueue.AddMessageToQueue | code/src/hold_queue.cpp:14-21 | the same guarantees for the insertion-sort outcome: the released run followed by the remaining delivery queue is exactly the sorted queue with the new chat payload in it; the pipe is unchanged |
| HoldQueue.SetUserHandlerPipe | code/src/hold_queue.cpp:46-48 | later pipe writes go to the new pipe, which the getter returns; nothing else changes and the invariant is kept |
| HoldQueue.WritesGoToGetterPipe | code/src/hold_queue.cpp:50-52 | GetUserHandlerPipe returns the pipe that every write made by an addition goes to, and an addition leaves it unchanged |
| HoldQueueProperties.ReleaseIsUnique | code/src/hold_queue.cpp:25 | any cut of the queue into a run continuing from the expected order followed by a rest that does not continue it is exactly the cut the loop makes |
| HoldQueueProperties.OutOfTurnNotReleased | code/src/hold_queue.cpp:25 | a payload whose order is below the expected order on entry, or at or above it on exit, is not released by that call |
| HoldQueueProperties.ExpectedBounded | code/src/hold_queue.cpp:33 | in a reachable state the expected order lies between 0 and 2^31; it reaches 2^31 only after the payload with order INT32_MAX was released |
| HoldQueueProperties.Run | code/src/hold_queue.cpp:14-21 | feeding payloads one by one keeps the invariant and never lowers the expected order. The history only grows. Delivery plus history grows by exactly the chat payloads fed |
| HoldQueueProperties.AdmittedRunIsReleased | code/src/hold_queue.cpp:14-36 | in a reachable state, if the admitted chat payloads have distinct, non-negative orders that include every order below n, the expected order is at least n |
| HoldQueueProperties.EveryAdmittedRunIsReleased | code/src/hold_queue.cpp:14-36 | from a fresh queue, any feed whose chat payloads have distinct non-negative orders covering 0..n-1 releases 0..n-1 in increasing order with no gap. The pipe receives each one's user name and text in that order |
| HoldQueueProperties.StaleFrontBlocks | code/src/hold_queue.cpp:17-25 | with no duplicate suppression, a payload at the front whose order is below the expected one (a late duplicate or a negative order) makes every later addition release nothing, and a payload below the expected order stays at the front |
| HoldQueueProperties.StaleFrontBlocksForGood | code/src/hold_queue.cpp:14-25 | once a payload below the expected order is at the front of a reachable state, no sequence of further payloads releases anything: history, expected order and output stay as they were and such a payload stays at the front |
| HoldQueueProperties.AddReleases | code/src/hold_queue.cpp:14-36 | one chat addition spelled out: when the sorted queue splits into a run continuing the expected order and a rest that does not, the run is released and the rest kept |
| HoldQueueProperties.AddReleasesNothing | code/src/hold_queue.cpp:16-25 | a chat addition whose sorted queue does not start with the expected order only stores the sorted queue: history, expected order and output are unchanged |
| HoldQueueProperties.FirstOrderReleasedAtOnce | code/src/hold_queue.cpp:14-36 | adding order 0 to a new queue releases it immediately and writes it to the pipe |
| HoldQueueProperties.GapHoldsBack | code/src/hold_queue.cpp:14-36 | with expected order 1, adding order 2 releases nothing and keeps it queued |
| HoldQueueProperties.GapFilledReleasesRun | code/src/hold_queue.cpp:14-36 | with order 2 waiting, adding order 1 releases 1 then 2 and the expected order becomes 3 |
| HoldQueueProperties.GapFilledScenario | code/src/hold_queue.cpp:14-36 | orders 0, 2, 1 added to a new queue give history [0, 1, 2], expected order 3, an empty delivery queue, and pipe writes in that order |
| HoldQueueProperties.DuplicateIsKept | code/src/hold_queue.cpp:16-19 | a second payload with the already-released order 0 is queued, not dropped |
| HoldQueueProperties.DuplicateBlocksNext | code/src/hold_queue.cpp:18-25 | the kept duplicate sorts in front of order 1, so order 1 is not released |
| HoldQueueProperties.DuplicateBlocksScenario | code/src/hold_queue.cpp:14-36 | orders 0, 0, 1 added to a new queue release only the first 0; the duplicate and order 1 stay queued with expected order 1 |

## Left out

- `GetPayloadInHistory` (code/src/hold_queue.cpp:38-44): its body is an incomplete expression and it always returns false, so it has no behaviour to model.
- History eviction at `MAX_HOLDBACK_QUEUE_LENGTH` and the missing-order counter `NUM_MISSING_ORDER` (code/include/config.h:28-29): both constants are declared but no code here uses them.
- The pipe write `StreamCommunicator::SendMessage` is an append to the output log. What a write to an unset pipe (-1) does is not modelled, because the stream communicator is not part of this model. The payload is still pushed onto the history.
- The destructor and the `CentralQueues` handle stored by the constructor: neither takes part in the queue's behaviour.
- `expected_order_` is an unbounded integer, because its declaration is not in code/include/hold_queue.h. `ExpectedBounded` shows it never exceeds 2^31. That bound is reached only by the increment after releasing order INT32_MAX, which would overflow a signed 32-bit counter; the model does not model that overflow.
- `Payload` and its `operator<` are not part of this model. The sort is assumed to compare orders only. The non-chat type tags are placeholders; only "chat or not" matters.
- The declarations in code/include/hold_queue.h:15-21 (constructor arguments, `Process`, a void `GetPayloadInHistory`) do not match the implementation; the .cpp is followed.
- The UDP wrapper, the coordinator and the client directory (code/src/udp_wrapper.cpp, code/src/jam.cpp, code/include/client_info.h): sockets, threads, interface probing and console I/O, with no queue logic. Acknowledgement, retry, a working history lookup and gap reporting do not exist in this code.
- Only one deterministic sort outcome, the insertion-sort order, is used by `AddMessageToQueue`. `AddMessageToQueueAs` carries the guarantees for every outcome.
- Releasing a complete run is proved only for distinct, non-negative orders. Without them the code may not release the run: a duplicate or negative order that reaches the front before the run completes blocks it (`StaleFrontBlocks`).
