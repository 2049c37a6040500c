# Web-server scheduling simulator — verified model of the engine

This project models the scheduling engine of `os1.py`. A batch of requests is
loaded into a server's FIFO queue. The server then drains the queue with one of
three disciplines and returns completion records. Each record is a request
together with the cumulative simulated time at which it finished. The three
disciplines are:

- **round-robin** with a time quantum;
- **priority scheduling**;
- **shortest-job-first**.

Priority scheduling and shortest-job-first each have a "preemptive" variant,
which only changes the selection key.

The model keeps the source's form:

- `Requests.Request` is a class whose `remainingTime` field is updated in place.
- `Server.WebServer` is a class whose `queue` field is a sequence of requests.
  Its methods pop, append and remove, as the Python deque does.
- The three `Process…` methods are loops. Each is proved against a value-level
  specification built from immutable snapshots `Slot(request, remaining)` of
  the queue:
  - `RoundRobin.RunRoundRobin` iterates `RoundRobin.Turn`, which is one pass of
    the round-robin loop body.
  - `RunToCompletion.Schedule` covers priority and SJF. It repeatedly extracts
    the first minimum with `Selection.FirstMin`, which is Python's `min` with a
    key, and stamps the running sums of processing times.

The properties the engine promises are lemmas about those specifications:

- the queue is drained;
- every request completes exactly once (multiset equality);
- round-robin terminates, measured by the number of quantum slices still owed;
- remaining times stay within `[0, processing_time]`;
- the simulated clock plus the outstanding work is conserved;
- completion times never decrease, and the last one equals the total work;
- priority and SJF completion times are prefix sums of processing times;
- the selected request is the first minimum in queue order;
- the output is sorted by key and is stable among equal keys.

Four worked traces are proved as lemmas: `RoundRobin.RoundRobinExample`,
`RunToCompletion.ShortestJobExample`, `RunToCompletion.PriorityExample` and
`RunToCompletion.PriorityTieExample`.

The files are:

- `request.dfy` — requests, snapshots and completion records;
- `selection.dfy` — the four selection keys and the first-minimum rule;
- `round_robin.dfy` — the round-robin specification and its lemmas;
- `run_to_completion.dfy` — the priority/SJF specification and its lemmas;
- `web_server.dfy` — the server class;
- `simulation.dfy` — the `simulate_scheduling` dispatcher.

Modelling choices:

- **Unknown algorithm name.** The code raises `ValueError`. Here the error is
  the value `Simulation.Outcome.InvalidAlgorithm`.
- **Round-robin quantum.** The code never validates the quantum, so a
  non-positive quantum with positive remaining work loops forever. Here a
  positive quantum is a precondition of round-robin.
- **Ties.** The code breaks ties by queue position (`min` returns the first
  minimal element). Here the first minimum is taken, as
  `Selection.FirstMinIsFirst` and `RunToCompletion.PriorityTieExample` show.
- **A two-request round-robin trace.** Two requests needing 5 and 3 with
  quantum 2: B finishes at 7 and A at 8, when the clock reaches 5 + 3;
  `RoundRobin.RoundRobinExample` proves it.

## Model

| member | source | states |
|---|---|---|
| Requests.Request.constructor | os1.py:8-14 | a new request stores its id, processing time, priority and arrival time, and starts with remaining time equal to its processing time |
| Server.WebServer.constructor | os1.py:20-21 | a new server has an empty queue |
| Server.WebServer.AddRequest | os1.py:23-24 | the request is appended at the tail and the rest of the queue is unchanged |
| Server.WebServer.ProcessRoundRobin | os1.py:26-42 | the queue ends empty; the returned trace is exactly the one the value-level round-robin run produces from the initial queue's snapshot; every request that was queued ends with remaining time 0 |
| Server.WebServer.ServeHead | os1.py:31-40 | one loop pass is exactly one `Turn` of the specification; the queue either loses its head (which then has remaining time 0) or has it rotated to the tail |
| RoundRobin.TurnShrinks | os1.py:30-40 | each pass lowers the number of quantum slices still owed by exactly one, so the loop terminates |
| RoundRobin.TurnConservesTime | os1.py:33-40 | a pass moves exactly as much time onto the clock as it removes from the queued remaining times |
| RoundRobin.TurnKeepsRequests | os1.py:31-40 | a pass neither loses nor duplicates a request: finished plus queued is the same multiset |
| RoundRobin.Turn | os1.py:31-40 | one pass of the loop: the head is popped; if its remaining time is at most the quantum, the clock advances by that remaining time and the head leaves with a record at the new clock; otherwise the clock advances by the quantum and the head goes back to the tail with the quantum taken off its remaining time |
| RoundRobin.RunRoundRobin | os1.py:30-42 | passes are repeated while the queue is non-empty, and the final state carries the trace; it is total because each pass lowers the owed slice count |
| RoundRobin.TurnLastCompletion | os1.py:33-36 | when a pass empties the queue, the last record's time is the clock |
| RoundRobin.TurnWithinDemand | os1.py:33-40 | a pass keeps every queued remaining time within [0, processing time] |
| RoundRobin.RoundRobinWithinDemand | os1.py:30-40 | if every remaining time starts within [0, processing time], it stays there in every state the run passes through, after any number of turns |
| RoundRobin.AfterAllTurns | os1.py:30-40 | the run's final state is the state reached after exactly as many turns as quantum slices were owed |
| RoundRobin.TurnChronological | os1.py:33-40 | a pass keeps records in non-decreasing time order, none later than the clock |
| RoundRobin.RunRoundRobinOutcome | os1.py:26-42 | the run ends with an empty queue, at the starting clock plus the total remaining time, having accounted for every request once |
| RoundRobin.RunAfterTurn | os1.py:30-40 | running after one pass gives the same final state as running from before it (what the loop invariant rests on) |
| RoundRobin.RoundRobinChronological | os1.py:26-42 | completion times never decrease, and the last completion is at the starting clock plus the sum of the remaining times |
| RoundRobin.RoundRobinServesEachOnce | os1.py:26-42 | from an initial queue, the run drains it and every request appears in the trace exactly once |
| RoundRobin.RoundRobinExample | os1.py:26-42 | with times 5 and 3 and quantum 2, the second request finishes at 7 and the first at 8 |
| Selection.PriorityPolicy | os1.py:49-52 | priority scheduling selects by priority, or by (priority, arrival time) when preemptive |
| Selection.SjfPolicy | os1.py:65-68 | shortest-job-first selects by processing time, or by (remaining time, arrival time) when preemptive |
| Selection.KeyOf | os1.py:50-68 | the four `key=` lambdas: (priority, arrival), priority, (remaining, arrival), processing time; a one-component key is compared as a pair with a fixed second part |
| Selection.IsFirstMin | os1.py:50-52 | what `min` returns: an index whose key no later element undercuts and which is strictly below every earlier element's key |
| Selection.FirstMin | os1.py:50-52 | the scan `min` performs: front to back, replacing the candidate only on a strictly smaller key; the result is a valid index |
| Selection.FirstMinIsFirst | os1.py:50-52 | the selected index has a key no other entry is strictly below, and every earlier entry is strictly greater (Python `min` returns the first minimum) |
| Selection.FirstMinUnique | os1.py:50-52 | that first-minimum property determines the index uniquely |
| Selection.FirstMinIsLeast | os1.py:66-68 | no queued entry has a key strictly below the selected one |
| Server.WebServer.SelectNext | os1.py:50-52 | the front-to-back scan returns an index with the first-minimum property on the queue's snapshot |
| Server.WebServer.TakeNext | os1.py:49-54 | the request removed is the first minimum, and the queue loses exactly that position, with the rest kept in order |
| Server.RemoveFirst | os1.py:54 | `deque.remove`: the first occurrence of the request (by identity) is removed, so the queue gets one shorter |
| Server.RemoveFirstAt | os1.py:54 | `deque.remove` of a request that does not occur earlier removes exactly its position |
| Server.SnapshotAfterRemove | os1.py:54 | removing that request removes the same position from the snapshot |
| Server.WebServer.RunEachToCompletion | os1.py:45-57 | the queue ends empty and the trace equals `Schedule` of the initial snapshot; no request object is changed |
| Server.WebServer.ProcessPriorityScheduling | os1.py:44-58 | the trace is `Schedule` under the priority key, or under (priority, arrival) when preemptive |
| Server.WebServer.ProcessShortestJobFirst | os1.py:60-74 | the trace is `Schedule` under the processing-time key, or under (remaining, arrival) when preemptive |
| RunToCompletion.SelectionOrder | os1.py:48-54 | the order in which requests leave the queue: each time the first minimum is removed, the rest keep their order; one entry per queued request |
| RunToCompletion.Stamp | os1.py:55-56 | each request in turn adds its full processing time to the clock and is recorded at the new clock; one record per request |
| RunToCompletion.Schedule | os1.py:44-74 | a whole priority or shortest-job-first run: the selection order stamped from the start clock |
| RunToCompletion.ScheduleStep | os1.py:48-56 | one pass: the first minimum finishes at clock plus its processing time, then the rest is scheduled from there |
| RunToCompletion.ScheduleAdvance | os1.py:48-56 | the loop invariant step: records so far plus the schedule of the rest is preserved by one pass |
| RunToCompletion.ScheduleServesEachOnce | os1.py:44-74 | the trace has one record per queued request and serves each request exactly once |
| RunToCompletion.SelectionOrderPermutes | os1.py:48-54 | the selection order is a permutation of the queue |
| RunToCompletion.SelectionOrderRequests | os1.py:48-54 | the selection order holds the same requests as the queue |
| RunToCompletion.StampServes | os1.py:55-56 | stamping keeps the requests in selection order |
| RunToCompletion.SelectionOrderSorted | os1.py:48-54 | the selection order is non-decreasing by the policy's key |
| RunToCompletion.RestIsLeast | os1.py:50-54 | nothing left after removing the first minimum has a smaller key |
| RunToCompletion.SelectionOrderStable | os1.py:48-54 | among requests with equal keys the selection order keeps queue order |
| RunToCompletion.NoTieBefore | os1.py:50-52 | no entry before the first minimum has the same key |
| RunToCompletion.StableStep | os1.py:48-54 | one extraction keeps queue order within each key |
| RunToCompletion.StampPrefixSums | os1.py:55-56 | the k-th completion time is the starting clock plus the processing times of the first k+1 selected requests |
| RunToCompletion.StampMakespan | os1.py:55-56 | the last completion time is the starting clock plus the total processing time |
| RunToCompletion.SelectionOrderTotal | os1.py:48-56 | the requests selected over the whole run need exactly the queue's total processing time |
| RunToCompletion.ScheduleMakespan | os1.py:44-74 | the last priority or shortest-job-first completion is at the start clock plus the total processing time of the queued requests |
| RunToCompletion.StampChronological | os1.py:55-56 | with non-negative processing times, completion times are at least the start and never decrease |
| RunToCompletion.ScheduleChronological | os1.py:44-74 | with non-negative processing times, priority and shortest-job-first completion times never decrease and none is before the start clock |
| RunToCompletion.PriorityNonDecreasing | os1.py:44-58 | non-preemptive priority scheduling serves in non-decreasing priority |
| RunToCompletion.ShortestJobNonDecreasing | os1.py:60-74 | non-preemptive SJF serves in non-decreasing processing time |
| RunToCompletion.ScheduleKeyOrder | os1.py:44-74 | record k serves the k-th selected request, and selected keys never decrease |
| RunToCompletion.ShortestJobExample | os1.py:60-74 | SJF on processing times 9, 1, 4 finishes them in order 1, 4, 9 at times 1, 5, 14 |
| RunToCompletion.PriorityExample | os1.py:44-58 | priorities 3, 1, 2 with times 4, 2, 5 finish in priority order at times 2, 7, 11 |
| RunToCompletion.PriorityTieExample | os1.py:44-58 | of two equal priorities, the one queued first runs first |
| Simulation.KnownAlgorithm | os1.py:91-98 | the names the dispatcher accepts: "round_robin", "priority" and "sjf"; any other name takes the error branch |
| Simulation.SimulateScheduling | os1.py:85-101 | requests are enqueued in input order and the named algorithm's trace is returned; an unknown name yields the invalid-algorithm error; round-robin leaves every request at remaining time 0; priority and SJF leave every request unchanged |

## Left out

- `generate_requests` (os1.py:76-83) is not modelled: it draws random values. The engine receives a ready batch as a parameter.
- `main` and the Streamlit, pandas and matplotlib presentation layer (os1.py:103 onward) are not modelled: they are user-interface code.
- `Request.__str__` (os1.py:16-17) is not modelled: it is string formatting only.
- Simulation.SimulateScheduling: the `time.time()` measurement and the elapsed-seconds value are not modelled, because they read the wall clock and do not affect the trace.
- Simulation.SimulateScheduling: Python's default arguments (`time_quantum=2`, `preemptive=False`) are not modelled; every argument is explicit.
- Simulation.SimulateScheduling: the `ValueError` raise is modelled as an `InvalidAlgorithm` result value rather than an exception.
- Requests.Request: `arrival_time` is a float in the source and an `int` here. The engine only compares arrival times, and float rounding is not modelled.
- Server.WebServer.ProcessRoundRobin requires a positive quantum. With a quantum of 0 or less and positive remaining work, the source loops forever, and that non-termination is not modelled.
- Server.WebServer.ProcessRoundRobin requires the queue to hold no request object twice. With such aliasing, one object's remaining time would be shared by two queue entries, and that case is not modelled.
- Server.WebServer: the `deque` is a sequence field that is reassigned. Constant-time deque operations are not modelled.
- Server.WebServer.ServeHead and Server.WebServer.TakeNext are the bodies of the round-robin loop and the priority/SJF loop, written as methods of their own. The shared priority/SJF loop is Server.WebServer.RunEachToCompletion, parameterised by the selection key.
- Python integers are unbounded, so no overflow is modelled.
