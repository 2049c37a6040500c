/** Round-robin scheduling on values: one turn of the loop, the whole run, and
    what the run guarantees. */
module RoundRobin {
  import opened Requests

  /** The state of a round-robin run: the queue with each request's remaining
      time, the cumulative simulated time, and the completions so far. */
  datatype RRState = RRState(pending: seq<Slot>, clock: int, done: seq<Completion>)

  /** The number of turns a request with `remaining` time left needs: one if it
      fits in the quantum, one more per quantum otherwise. */
  function Slices(remaining: int, quantum: int): nat
    requires quantum > 0
    decreases remaining
  {
    if remaining <= quantum then 1 else 1 + Slices(remaining - quantum, quantum)
  }

  /** The number of turns the whole queue still needs. */
  function TotalSlices(s: seq<Slot>, quantum: int): nat
    requires quantum > 0
  {
    if s == [] then 0 else Slices(s[0].remaining, quantum) + TotalSlices(s[1..], quantum)
  }

  lemma {:induction false} TotalSlicesAppend(a: seq<Slot>, b: seq<Slot>, quantum: int)
    requires quantum > 0
    ensures TotalSlices(a + b, quantum) == TotalSlices(a, quantum) + TotalSlices(b, quantum)
  {
    if a != [] {
      assert (a + b)[1..] == a[1..] + b;
      TotalSlicesAppend(a[1..], b, quantum);
    } else {
      assert a + b == b;
    }
  }

  /** The multiset of requests a state accounts for: finished or still queued. */
  function Accounted(st: RRState): multiset<Request>
  {
    multiset(Served(st.done)) + multiset(RequestsOf(st.pending))
  }

  /** One turn: the head of the queue either fits in the quantum, finishes and
      is recorded at the advanced clock, or runs for one quantum and goes back
      to the tail with its remaining time lowered by the quantum. Either way
      the queue needs one turn fewer. */
  function Turn(st: RRState, quantum: int): (next: RRState)
    requires quantum > 0 && st.pending != []
  {
    var head := st.pending[0];
    if head.remaining <= quantum then
      var t := st.clock + head.remaining;
      RRState(st.pending[1..], t, st.done + [Completion(head.req, t)])
    else
      var back := Slot(head.req, head.remaining - quantum);
      RRState(st.pending[1..] + [back], st.clock + quantum, st.done)
  }

  lemma TurnShrinks(st: RRState, quantum: int)
    requires quantum > 0 && st.pending != []
    ensures TotalSlices(Turn(st, quantum).pending, quantum) == TotalSlices(st.pending, quantum) - 1
  {
    var head := st.pending[0];
    if head.remaining > quantum {
      TotalSlicesAppend(st.pending[1..], [Slot(head.req, head.remaining - quantum)], quantum);
    }
  }

  /** A turn adds to the clock exactly what it takes from the queue's
      remaining time. */
  lemma TurnConservesTime(st: RRState, quantum: int)
    requires quantum > 0 && st.pending != []
    ensures var next := Turn(st, quantum);
      next.clock + TotalRemaining(next.pending) == st.clock + TotalRemaining(st.pending)
  {
    var head := st.pending[0];
    if head.remaining > quantum {
      TotalRemainingAppend(st.pending[1..], [Slot(head.req, head.remaining - quantum)]);
    }
  }

  /** A turn neither loses nor duplicates a request. */
  lemma TurnKeepsRequests(st: RRState, quantum: int)
    requires quantum > 0 && st.pending != []
    ensures Accounted(Turn(st, quantum)) == Accounted(st)
  {
    var head := st.pending[0];
    if head.remaining <= quantum {
      var t := st.clock + head.remaining;
      var next := RRState(st.pending[1..], t, st.done + [Completion(head.req, t)]);
      assert Turn(st, quantum) == next;
      FinishKeepsRequests(st, next);
    } else {
      var back := Slot(head.req, head.remaining - quantum);
      var next := RRState(st.pending[1..] + [back], st.clock + quantum, st.done);
      assert Turn(st, quantum) == next;
      RequeueKeepsRequests(st, next, back);
    }
  }

  lemma FinishKeepsRequests(st: RRState, next: RRState)
    requires st.pending != [] && next.pending == st.pending[1..]
    requires next.done == st.done + [Completion(st.pending[0].req, next.clock)]
    ensures Accounted(next) == Accounted(st)
  {
    RequestsOfRemove(st.pending, 0);
    ServedAppend(st.done, [Completion(st.pending[0].req, next.clock)]);
    assert Served([Completion(st.pending[0].req, next.clock)]) == [st.pending[0].req];
  }

  lemma RequeueKeepsRequests(st: RRState, next: RRState, back: Slot)
    requires st.pending != [] && back.req == st.pending[0].req
    requires next.pending == st.pending[1..] + [back] && next.done == st.done
    ensures Accounted(next) == Accounted(st)
  {
    RequestsOfRemove(st.pending, 0);
    RequestsOfAppend(st.pending[1..], [back]);
    assert RequestsOf([back]) == [back.req];
  }

  /** The two shapes of a turn, for a queue split into its head and the rest. */
  lemma TurnFinishes(head: Slot, rest: seq<Slot>, clock: int, done: seq<Completion>, quantum: int)
    requires 0 < quantum && head.remaining <= quantum
    ensures Turn(RRState([head] + rest, clock, done), quantum)
         == RRState(rest, clock + head.remaining, done + [Completion(head.req, clock + head.remaining)])
  {
    assert ([head] + rest)[1..] == rest;
  }

  lemma TurnRequeues(head: Slot, rest: seq<Slot>, clock: int, done: seq<Completion>, quantum: int)
    requires 0 < quantum < head.remaining
    ensures Turn(RRState([head] + rest, clock, done), quantum)
         == RRState(rest + [Slot(head.req, head.remaining - quantum)], clock + quantum, done)
  {
    assert ([head] + rest)[1..] == rest;
  }

  /** A turn that empties the queue is a completion, recorded at the clock. */
  lemma TurnLastCompletion(st: RRState, quantum: int)
    requires quantum > 0 && st.pending != []
    ensures var next := Turn(st, quantum);
      next.pending == [] ==> next.done != [] && next.done[|next.done| - 1].time == next.clock
  {
  }

  /** Turns until the queue is empty. The run always ends: every turn leaves
      the queue needing one turn fewer. */
  function RunRoundRobin(st: RRState, quantum: int): RRState
    requires quantum > 0
    decreases TotalSlices(st.pending, quantum)
  {
    if st.pending == [] then st
    else
      TurnShrinks(st, quantum);
      RunRoundRobin(Turn(st, quantum), quantum)
  }

  /** The run drains the queue, advances the clock by exactly the total
      remaining time it started with, and accounts for every request it
      started with, each once. */
  lemma {:induction false} RunRoundRobinOutcome(st: RRState, quantum: int)
    requires quantum > 0
    ensures RunRoundRobin(st, quantum).pending == []
    ensures RunRoundRobin(st, quantum).clock == st.clock + TotalRemaining(st.pending)
    ensures Accounted(RunRoundRobin(st, quantum)) == Accounted(st)
    decreases TotalSlices(st.pending, quantum)
  {
    if st.pending != [] {
      TurnShrinks(st, quantum);
      TurnConservesTime(st, quantum);
      TurnKeepsRequests(st, quantum);
      RunRoundRobinOutcome(Turn(st, quantum), quantum);
    }
  }

  /** Taking one turn changes neither where the run ends nor that it ends:
      the queue needs one turn fewer. */
  lemma RunAfterTurn(st: RRState, quantum: int)
    requires quantum > 0 && st.pending != []
    ensures RunRoundRobin(Turn(st, quantum), quantum) == RunRoundRobin(st, quantum)
    ensures TotalSlices(Turn(st, quantum).pending, quantum) < TotalSlices(st.pending, quantum)
  {
    TurnShrinks(st, quantum);
  }

  /** Every remaining time lies between zero and the request's processing time. */
  predicate WithinDemand(s: seq<Slot>)
  {
    forall k :: 0 <= k < |s| ==> 0 <= s[k].remaining <= s[k].req.processingTime
  }

  /** A turn keeps every queued remaining time within [0, processing time]. */
  lemma TurnWithinDemand(st: RRState, quantum: int)
    requires quantum > 0 && st.pending != [] && WithinDemand(st.pending)
    ensures WithinDemand(Turn(st, quantum).pending)
  {
    var next := Turn(st, quantum);
    forall k | 0 <= k < |next.pending|
      ensures 0 <= next.pending[k].remaining <= next.pending[k].req.processingTime
    {
      if k < |st.pending| - 1 {
        assert next.pending[k] == st.pending[k + 1];
      }
    }
  }

  /** The state after `n` turns, or the drained state if the run ends sooner. */
  function After(st: RRState, quantum: int, n: nat): RRState
    requires quantum > 0
    decreases n
  {
    if n == 0 || st.pending == [] then st else After(Turn(st, quantum), quantum, n - 1)
  }

  /** The run is what the turns reach once every owed slice has been served. */
  lemma {:induction false} AfterAllTurns(st: RRState, quantum: int)
    requires quantum > 0
    ensures After(st, quantum, TotalSlices(st.pending, quantum)) == RunRoundRobin(st, quantum)
    decreases TotalSlices(st.pending, quantum)
  {
    if st.pending != [] {
      TurnShrinks(st, quantum);
      AfterAllTurns(Turn(st, quantum), quantum);
    }
  }

  /** Every state the run passes through keeps each queued remaining time
      within [0, processing time]. */
  lemma {:induction false} RoundRobinWithinDemand(st: RRState, quantum: int, n: nat)
    requires quantum > 0 && WithinDemand(st.pending)
    ensures WithinDemand(After(st, quantum, n).pending)
    decreases n
  {
    if n > 0 && st.pending != [] {
      TurnWithinDemand(st, quantum);
      RoundRobinWithinDemand(Turn(st, quantum), quantum, n - 1);
    }
  }

  /** The trace so far is in time order, no later than the clock, and no queued
      request has negative remaining time. */
  predicate Chronological(st: RRState)
  {
    && (forall j, k :: 0 <= j < k < |st.done| ==> st.done[j].time <= st.done[k].time)
    && (forall k :: 0 <= k < |st.done| ==> st.done[k].time <= st.clock)
    && (forall k :: 0 <= k < |st.pending| ==> st.pending[k].remaining >= 0)
  }

  lemma TurnChronological(st: RRState, quantum: int)
    requires quantum > 0 && st.pending != [] && Chronological(st)
    ensures Chronological(Turn(st, quantum))
  {
    var next := Turn(st, quantum);
    forall k | 0 <= k < |next.pending|
      ensures next.pending[k].remaining >= 0
    {
      if k < |st.pending| - 1 {
        assert next.pending[k] == st.pending[k + 1];
      }
    }
  }

  /** With non-negative remaining times, completion times never decrease in
      output order, and the last completion happens when the run's clock stops,
      at the starting clock plus the total remaining time. */
  lemma {:induction false} RoundRobinChronological(st: RRState, quantum: int)
    requires quantum > 0 && Chronological(st)
    ensures Chronological(RunRoundRobin(st, quantum))
    ensures st.pending != [] ==>
      var final := RunRoundRobin(st, quantum);
      final.done != [] && final.done[|final.done| - 1].time == st.clock + TotalRemaining(st.pending)
    decreases TotalSlices(st.pending, quantum)
  {
    if st.pending != [] {
      TurnShrinks(st, quantum);
      TurnChronological(st, quantum);
      TurnConservesTime(st, quantum);
      TurnLastCompletion(st, quantum);
      var next := Turn(st, quantum);
      RoundRobinChronological(next, quantum);
    }
  }

  /** A whole run completes every queued request exactly once. */
  lemma RoundRobinServesEachOnce(s: seq<Slot>, quantum: int)
    requires quantum > 0
    ensures RunRoundRobin(RRState(s, 0, []), quantum).pending == []
    ensures multiset(Served(RunRoundRobin(RRState(s, 0, []), quantum).done)) == multiset(RequestsOf(s))
  {
    var final := RunRoundRobin(RRState(s, 0, []), quantum);
    RunRoundRobinOutcome(RRState(s, 0, []), quantum);
    assert Accounted(final) == multiset(Served(final.done)) by {
      assert RequestsOf(final.pending) == [];
    }
    assert Accounted(RRState(s, 0, [])) == multiset(RequestsOf(s)) by {
      assert Served([]) == [];
    }
  }

  /** Two requests needing 5 and 3 units with a quantum of 2: the shorter one
      finishes first, at 7, and the longer one at 8. */
  lemma RoundRobinExample(a: Request, b: Request)
    ensures RunRoundRobin(RRState([Slot(a, 5), Slot(b, 3)], 0, []), 2).done
         == [Completion(b, 7), Completion(a, 8)]
  {
    var s0 := RRState([Slot(a, 5), Slot(b, 3)], 0, []);
    var s1 := RRState([Slot(b, 3), Slot(a, 3)], 2, []);
    var s2 := RRState([Slot(a, 3), Slot(b, 1)], 4, []);
    var s3 := RRState([Slot(b, 1), Slot(a, 1)], 6, []);
    var s4 := RRState([Slot(a, 1)], 7, [Completion(b, 7)]);
    var s5 := RRState([], 8, [Completion(b, 7), Completion(a, 8)]);
    assert Turn(s0, 2) == s1;
    assert Turn(s1, 2) == s2;
    assert Turn(s2, 2) == s3;
    assert Turn(s3, 2) == s4;
    assert Turn(s4, 2) == s5;
    RunAfterTurn(s0, 2);
    RunAfterTurn(s1, 2);
    RunAfterTurn(s2, 2);
    RunAfterTurn(s3, 2);
    RunAfterTurn(s4, 2);
  }
}
