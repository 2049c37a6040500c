/** The web server: a FIFO queue of requests and the three algorithms that
    drain it. Each algorithm is proved against the value-level run it
    performs. */
module Server {
  import opened Requests
  import opened Selection
  import opened RoundRobin
  import opened RunToCompletion

  /** What `deque.remove(r)` leaves: the sequence without the first
      occurrence of `r`. */
  function RemoveFirst(rs: seq<Request>, r: Request): (out: seq<Request>)
    requires r in rs
    ensures |out| == |rs| - 1
  {
    if rs[0] == r then
      assert rs == [rs[0]] + rs[1..];
      rs[1..]
    else
      assert rs == [rs[0]] + rs[1..];
      [rs[0]] + RemoveFirst(rs[1..], r)
  }

  /** When `rs[i]` does not occur earlier, removing its first occurrence
      removes position `i`. */
  lemma {:induction false} RemoveFirstAt(rs: seq<Request>, i: nat)
    requires i < |rs| && rs[i] !in rs[..i]
    ensures RemoveFirst(rs, rs[i]) == rs[..i] + rs[i + 1..]
  {
    if i > 0 {
      assert rs[1..][i - 1] == rs[i];
      assert rs[i] !in rs[1..][..i - 1] by {
        assert rs[1..][..i - 1] == rs[1..i];
      }
      RemoveFirstAt(rs[1..], i - 1);
      assert rs[..i] + rs[i + 1..] == [rs[0]] + (rs[1..][..i - 1] + rs[1..][i..]);
    }
  }

  /** Removing the first occurrence of the request at position `i`, when it
      does not occur earlier, removes position `i` of the snapshot. */
  lemma SnapshotAfterRemove(rs: seq<Request>, i: nat)
    requires i < |rs| && rs[i] !in rs[..i]
    ensures Snapshot(RemoveFirst(rs, rs[i])) == Snapshot(rs)[..i] + Snapshot(rs)[i + 1..]
  {
    RemoveFirstAt(rs, i);
    SnapshotRemove(rs, i);
  }

  class WebServer {
    var queue: seq<Request>

    constructor ()
      ensures queue == []
    {
      queue := [];
    }

    /** Enqueues a request at the tail. */
    method AddRequest(request: Request)
      modifies this
      ensures queue == old(queue) + [request]
    {
      queue := queue + [request];
    }

    /** Round-robin with a time quantum. The loop performs exactly the turns of
        `RunRoundRobin` on the queue's snapshot, leaves the queue empty and
        every request it started with at zero remaining time. */
    method ProcessRoundRobin(timeQuantum: int) returns (completed: seq<Completion>)
      requires timeQuantum > 0
      requires Distinct(queue)
      modifies this, queue
      ensures queue == []
      ensures completed == RunRoundRobin(RRState(old(Snapshot(queue)), 0, []), timeQuantum).done
      ensures forall r :: r in old(queue) ==> r.remainingTime == 0
    {
      ghost var batch := queue;
      ghost var final := RunRoundRobin(RRState(Snapshot(queue), 0, []), timeQuantum);
      var totalTime := 0;
      completed := [];
      while queue != []
        invariant Distinct(queue)
        invariant forall r :: r in queue ==> r in batch
        invariant forall k :: 0 <= k < |batch| && batch[k] !in queue ==> batch[k].remainingTime == 0
        invariant RunRoundRobin(RRState(Snapshot(queue), totalTime, completed), timeQuantum) == final
        decreases TotalSlices(Snapshot(queue), timeQuantum)
      {
        ghost var st := RRState(Snapshot(queue), totalTime, completed);
        ghost var current := queue[0];
        assert current in batch;
        DistinctRotate(queue);
        totalTime, completed := ServeHead(timeQuantum, totalTime, completed);
        RunAfterTurn(st, timeQuantum);
      }
    }

    /** One pass of the round-robin loop body: the head of the queue runs for
        at most one quantum, then either finishes or goes back to the tail. */
    method ServeHead(timeQuantum: int, totalTime: int, completed: seq<Completion>)
      returns (newTime: int, newCompleted: seq<Completion>)
      requires timeQuantum > 0 && queue != [] && Distinct(queue)
      modifies this, queue[0]
      ensures RRState(Snapshot(queue), newTime, newCompleted)
           == Turn(RRState(old(Snapshot(queue)), totalTime, completed), timeQuantum)
      ensures queue == old(queue[1..]) + [old(queue[0])] || queue == old(queue[1..])
      ensures queue == old(queue[1..]) ==> old(queue[0]).remainingTime == 0
    {
      ghost var pre := RRState(Snapshot(queue), totalTime, completed);
      var current := queue[0];
      ghost var head := Slot(current, current.remainingTime);
      assert queue == [current] + queue[1..];
      queue := queue[1..];
      assert current !in queue;
      ghost var rest := Snapshot(queue);
      assert pre.pending == [head] + rest;
      if current.remainingTime <= timeQuantum {
        TurnFinishes(head, rest, totalTime, completed, timeQuantum);
        newTime := totalTime + current.remainingTime;
        current.remainingTime := 0;
        newCompleted := completed + [Completion(current, newTime)];
        assert Snapshot(queue) == rest;
        assert Completion(current, newTime) == Completion(head.req, totalTime + head.remaining);
      } else {
        TurnRequeues(head, rest, totalTime, completed, timeQuantum);
        newTime := totalTime + timeQuantum;
        current.remainingTime := current.remainingTime - timeQuantum;
        newCompleted := completed;
        assert Snapshot(queue) == rest;
        SnapshotAppend(queue, current);
        assert Slot(current, current.remainingTime) == Slot(head.req, head.remaining - timeQuantum);
        queue := queue + [current];
      }
    }

    /** Python's `min(self.queue, key=...)`: the index of the first request
        with the least key, scanning the queue front to back. */
    method SelectNext(policy: Policy) returns (index: nat)
      requires queue != []
      ensures IsFirstMin(Snapshot(queue), policy, index)
    {
      ghost var s := Snapshot(queue);
      index := 0;
      for k := 1 to |queue|
        invariant index < k
        invariant forall j :: 0 <= j < index ==> Before(KeyOf(s[index], policy), KeyOf(s[j], policy))
        invariant forall j :: index < j < k ==> !Before(KeyOf(s[j], policy), KeyOf(s[index], policy))
      {
        SnapshotAt(queue, k);
        SnapshotAt(queue, index);
        var candidate := Slot(queue[k], queue[k].remainingTime);
        var best := Slot(queue[index], queue[index].remainingTime);
        if Before(KeyOf(candidate, policy), KeyOf(best, policy)) {
          index := k;
        }
      }
    }

    /** The loop shared by priority and shortest-job-first scheduling: take the
        selected request out of the queue and run it for its whole processing
        time. No request object is changed. */
    method RunEachToCompletion(policy: Policy) returns (completed: seq<Completion>)
      modifies this
      ensures queue == []
      ensures completed == Schedule(old(Snapshot(queue)), policy, 0)
    {
      ghost var goal := Schedule(Snapshot(queue), policy, 0);
      var totalTime := 0;
      completed := [];
      while queue != []
        invariant completed + Schedule(Snapshot(queue), policy, totalTime) == goal
        decreases |queue|
      {
        ghost var s := Snapshot(queue);
        var chosen, index := TakeNext(policy);
        ScheduleAdvance(completed, s, policy, totalTime, index);
        totalTime := totalTime + chosen.processingTime;
        completed := completed + [Completion(chosen, totalTime)];
      }
    }

    /** Takes the selected request out of the queue, as `min` followed by
        `deque.remove` does: the first minimal request leaves, the others keep
        their order. */
    method TakeNext(policy: Policy) returns (chosen: Request, ghost index: nat)
      requires queue != []
      modifies this
      ensures index < |old(queue)| && index == FirstMin(old(Snapshot(queue)), policy)
      ensures chosen == old(queue[index]) == old(Snapshot(queue))[index].req
      ensures Snapshot(queue) == old(Snapshot(queue)[..index] + Snapshot(queue)[index + 1..])
    {
      var i := SelectNext(policy);
      index := i;
      ghost var s := Snapshot(queue);
      ghost var before := queue;
      chosen := queue[i];
      queue := RemoveFirst(queue, chosen);
      assert Snapshot(before) == s;
      FirstMinUnique(s, policy, i);
      assert chosen !in before[..i] by {
        if j :| 0 <= j < i && before[j] == chosen {
          SnapshotAt(before, j);
          SnapshotAt(before, i);
        }
      }
      SnapshotAt(before, i);
      SnapshotAfterRemove(before, i);
    }

    /** Priority scheduling: by `priority`, or by `(priority, arrival_time)`
        when preemptive; each selected request runs to completion. */
    method ProcessPriorityScheduling(preemptive: bool) returns (completed: seq<Completion>)
      modifies this
      ensures queue == []
      ensures completed == Schedule(old(Snapshot(queue)), PriorityPolicy(preemptive), 0)
    {
      completed := RunEachToCompletion(PriorityPolicy(preemptive));
    }

    /** Shortest-job-first: by `processing_time`, or by
        `(remaining_time, arrival_time)` when preemptive; each selected request
        runs to completion. */
    method ProcessShortestJobFirst(preemptive: bool) returns (completed: seq<Completion>)
      modifies this
      ensures queue == []
      ensures completed == Schedule(old(Snapshot(queue)), SjfPolicy(preemptive), 0)
    {
      completed := RunEachToCompletion(SjfPolicy(preemptive));
    }
  }
}
