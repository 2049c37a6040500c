/** Priority and shortest-job-first scheduling on values. Both repeatedly take
    the first minimal request under a key out of the queue and run it to
    completion in one step, so a run is the order of selection followed by the
    running sums of processing times. */
module RunToCompletion {
  import opened Requests
  import opened Selection

  /** The order in which the requests leave the queue: each time, the first
      minimal one among those still queued. */
  function SelectionOrder(s: seq<Slot>, policy: Policy): (order: seq<Slot>)
    ensures |order| == |s|
    decreases |s|
  {
    if s == [] then []
    else
      var i := FirstMin(s, policy);
      [s[i]] + SelectionOrder(s[..i] + s[i + 1..], policy)
  }

  /** One selection: the first minimal slot leaves, then the rest of the
      queue is selected from. */
  lemma SelectionOrderUnfold(s: seq<Slot>, policy: Policy)
    requires s != []
    ensures var i := FirstMin(s, policy);
      SelectionOrder(s, policy) == [s[i]] + SelectionOrder(s[..i] + s[i + 1..], policy)
  {
  }

  /** The selection order is a permutation of the queue. */
  lemma {:induction false} SelectionOrderPermutes(s: seq<Slot>, policy: Policy)
    ensures multiset(SelectionOrder(s, policy)) == multiset(s)
    decreases |s|
  {
    if s != [] {
      var i := FirstMin(s, policy);
      var rest := s[..i] + s[i + 1..];
      SelectionOrderPermutes(rest, policy);
      MultisetRemove(s, i);
      SelectionOrderUnfold(s, policy);
    }
  }

  /** Completion records for requests run one after another from `clock`,
      each for its full processing time. */
  function Stamp(order: seq<Slot>, clock: int): (cs: seq<Completion>)
    ensures |cs| == |order|
    decreases |order|
  {
    if order == [] then []
    else
      var t := clock + order[0].req.processingTime;
      [Completion(order[0].req, t)] + Stamp(order[1..], t)
  }

  /** A whole priority or shortest-job-first run from `clock`. */
  function Schedule(s: seq<Slot>, policy: Policy, clock: int): seq<Completion>
  {
    Stamp(SelectionOrder(s, policy), clock)
  }

  /** One step of a run: the first minimal request finishes after its
      processing time, and the run continues on the rest of the queue. */
  lemma ScheduleStep(s: seq<Slot>, policy: Policy, clock: int, i: nat)
    requires s != [] && i == FirstMin(s, policy)
    ensures Schedule(s, policy, clock)
         == [Completion(s[i].req, clock + s[i].req.processingTime)]
            + Schedule(s[..i] + s[i + 1..], policy, clock + s[i].req.processingTime)
  {
    ScheduleUnfold(s, policy, clock, i);
    StampSelected(s, policy, clock, i);
  }

  /** The same step seen from a loop that has already recorded `done`. */
  lemma ScheduleAdvance(done: seq<Completion>, s: seq<Slot>, policy: Policy, clock: int, i: nat)
    requires s != [] && i == FirstMin(s, policy)
    ensures var t := clock + s[i].req.processingTime;
      done + Schedule(s, policy, clock)
      == (done + [Completion(s[i].req, t)]) + Schedule(s[..i] + s[i + 1..], policy, t)
  {
    ScheduleStep(s, policy, clock, i);
    var t := clock + s[i].req.processingTime;
    AppendAssoc(done, [Completion(s[i].req, t)], Schedule(s[..i] + s[i + 1..], policy, t));
  }

  lemma AppendAssoc(a: seq<Completion>, b: seq<Completion>, c: seq<Completion>)
    ensures a + (b + c) == (a + b) + c
  {
  }

  lemma ScheduleUnfold(s: seq<Slot>, policy: Policy, clock: int, i: nat)
    requires s != [] && i == FirstMin(s, policy)
    ensures Schedule(s, policy, clock) == Stamp([s[i]] + SelectionOrder(s[..i] + s[i + 1..], policy), clock)
  {
  }

  lemma StampSelected(s: seq<Slot>, policy: Policy, clock: int, i: nat)
    requires i < |s|
    ensures var tail := SelectionOrder(s[..i] + s[i + 1..], policy);
      Stamp([s[i]] + tail, clock)
      == [Completion(s[i].req, clock + s[i].req.processingTime)] + Stamp(tail, clock + s[i].req.processingTime)
  {
    StampCons(s[i], SelectionOrder(s[..i] + s[i + 1..], policy), clock);
  }

  lemma StampCons(x: Slot, tail: seq<Slot>, clock: int)
    ensures Stamp([x] + tail, clock)
         == [Completion(x.req, clock + x.req.processingTime)] + Stamp(tail, clock + x.req.processingTime)
  {
    assert ([x] + tail)[1..] == tail;
  }

  /** The completion records name the requests in the order they ran. */
  lemma {:induction false} StampServes(order: seq<Slot>, clock: int)
    ensures Served(Stamp(order, clock)) == RequestsOf(order)
    decreases |order|
  {
    if order != [] {
      var t := clock + order[0].req.processingTime;
      StampServes(order[1..], t);
      assert Stamp(order, clock)[1..] == Stamp(order[1..], t);
    }
  }

  /** Every queued request is completed exactly once. */
  lemma ScheduleServesEachOnce(s: seq<Slot>, policy: Policy, clock: int)
    ensures |Schedule(s, policy, clock)| == |s|
    ensures multiset(Served(Schedule(s, policy, clock))) == multiset(RequestsOf(s))
  {
    StampServes(SelectionOrder(s, policy), clock);
    SelectionOrderRequests(s, policy);
  }

  /** The selection order holds the same request objects as the queue. */
  lemma {:induction false} SelectionOrderRequests(s: seq<Slot>, policy: Policy)
    ensures multiset(RequestsOf(SelectionOrder(s, policy))) == multiset(RequestsOf(s))
    decreases |s|
  {
    if s != [] {
      var i := FirstMin(s, policy);
      var rest := s[..i] + s[i + 1..];
      var tail := SelectionOrder(rest, policy);
      SelectionOrderRequests(rest, policy);
      SelectionOrderUnfold(s, policy);
      RequestsOfRemove([s[i]] + tail, 0);
      assert ([s[i]] + tail)[..0] + ([s[i]] + tail)[1..] == tail;
      RequestsOfRemove(s, i);
    }
  }

  /** No slot of the sequence is placed after one with a strictly larger key. */
  predicate SortedByKey(order: seq<Slot>, policy: Policy)
  {
    forall j, k :: 0 <= j < k < |order| ==> !Before(KeyOf(order[k], policy), KeyOf(order[j], policy))
  }

  /** Requests leave the queue in key order. */
  lemma {:induction false} SelectionOrderSorted(s: seq<Slot>, policy: Policy)
    ensures SortedByKey(SelectionOrder(s, policy), policy)
    decreases |s|
  {
    if s != [] {
      var i := FirstMin(s, policy);
      var rest := s[..i] + s[i + 1..];
      SelectionOrderSorted(rest, policy);
      SelectionOrderPermutes(rest, policy);
      var tail := SelectionOrder(rest, policy);
      forall y | y in tail
        ensures !Before(KeyOf(y, policy), KeyOf(s[i], policy))
      {
        assert y in multiset(tail);
        assert y in rest;
        RestIsLeast(s, policy, y);
      }
      SortedStep(s[i], tail, policy);
      SelectionOrderUnfold(s, policy);
    }
  }

  /** Whatever stays queued after a selection has no key below the selected one. */
  lemma RestIsLeast(s: seq<Slot>, policy: Policy, y: Slot)
    requires s != []
    requires y in s[..FirstMin(s, policy)] + s[FirstMin(s, policy) + 1..]
    ensures !Before(KeyOf(y, policy), KeyOf(s[FirstMin(s, policy)], policy))
  {
    var i := FirstMin(s, policy);
    assert y in s[..i] || y in s[i + 1..];
    FirstMinIsLeast(s, policy, y);
  }

  lemma SortedStep(x: Slot, tail: seq<Slot>, policy: Policy)
    requires SortedByKey(tail, policy)
    requires forall y :: y in tail ==> !Before(KeyOf(y, policy), KeyOf(x, policy))
    ensures SortedByKey([x] + tail, policy)
  {
    var order := [x] + tail;
    forall j, k | 0 <= j < k < |order|
      ensures !Before(KeyOf(order[k], policy), KeyOf(order[j], policy))
    {
      assert order[k] == tail[k - 1];
      if j > 0 {
        assert order[j] == tail[j - 1];
      }
    }
  }

  /** The queued slots whose key equals `key`, in queue order. */
  function WithKey(s: seq<Slot>, policy: Policy, key: Key): seq<Slot>
  {
    if s == [] then []
    else (if KeyOf(s[0], policy) == key then [s[0]] else []) + WithKey(s[1..], policy, key)
  }

  lemma {:induction false} WithKeyAppend(a: seq<Slot>, b: seq<Slot>, policy: Policy, key: Key)
    ensures WithKey(a + b, policy, key) == WithKey(a, policy, key) + WithKey(b, policy, key)
  {
    if a == [] {
      assert a + b == b;
    } else {
      assert (a + b)[1..] == a[1..] + b;
      WithKeyAppend(a[1..], b, policy, key);
    }
  }

  lemma {:induction false} WithKeyNone(a: seq<Slot>, policy: Policy, key: Key)
    requires forall j :: 0 <= j < |a| ==> KeyOf(a[j], policy) != key
    ensures WithKey(a, policy, key) == []
  {
    if a != [] {
      WithKeyNone(a[1..], policy, key);
    }
  }

  /** Ties keep queue order: among requests with equal keys, the selection
      order is the order they were queued in. */
  lemma {:induction false} SelectionOrderStable(s: seq<Slot>, policy: Policy, key: Key)
    ensures WithKey(SelectionOrder(s, policy), policy, key) == WithKey(s, policy, key)
    decreases |s|
  {
    if s != [] {
      var i := FirstMin(s, policy);
      var tail := SelectionOrder(s[..i] + s[i + 1..], policy);
      SelectionOrderStable(s[..i] + s[i + 1..], policy, key);
      if KeyOf(s[i], policy) == key {
        FirstMinIsFirst(s, policy);
        NoTieBefore(s, policy, i);
      }
      SplitAt(s, i);
      StableStep(s[..i], s[i], s[i + 1..], tail, policy, key);
      SelectionOrderUnfold(s, policy);
    }
  }

  /** Nothing queued before the first minimal slot has the same key. */
  lemma NoTieBefore(s: seq<Slot>, policy: Policy, i: int)
    requires IsFirstMin(s, policy, i)
    ensures WithKey(s[..i], policy, KeyOf(s[i], policy)) == []
  {
    forall j | 0 <= j < i
      ensures KeyOf(s[..i][j], policy) != KeyOf(s[i], policy)
    {
      assert Before(KeyOf(s[i], policy), KeyOf(s[j], policy));
    }
    WithKeyNone(s[..i], policy, KeyOf(s[i], policy));
  }

  /** Moving `x` to the front keeps the slots with key `key` in queue order,
      provided none with that key is queued before it. */
  lemma StableStep(before: seq<Slot>, x: Slot, after: seq<Slot>, tail: seq<Slot>, policy: Policy, key: Key)
    requires WithKey(tail, policy, key) == WithKey(before + after, policy, key)
    requires KeyOf(x, policy) == key ==> WithKey(before, policy, key) == []
    ensures WithKey([x] + tail, policy, key) == WithKey(before + ([x] + after), policy, key)
  {
    var wb, wx, wa := WithKey(before, policy, key), WithKey([x], policy, key), WithKey(after, policy, key);
    WithKeyAppend(before, [x] + after, policy, key);
    WithKeyAppend([x], after, policy, key);
    WithKeyAppend(before, after, policy, key);
    WithKeyAppend([x], tail, policy, key);
    WithKeySingle(x, policy, key);
    SwapEmpty(wb, wx, wa);
  }

  /** Two pieces of which one is empty may be swapped. */
  lemma SwapEmpty<T>(p: seq<T>, q: seq<T>, r: seq<T>)
    requires p == [] || q == []
    ensures q + (p + r) == p + (q + r)
  {
    if p == [] {
      assert p + r == r;
      assert q + r == p + (q + r);
    } else {
      assert q + (p + r) == p + r;
      assert q + r == r;
    }
  }


  lemma WithKeySingle(x: Slot, policy: Policy, key: Key)
    ensures WithKey([x], policy, key) == (if KeyOf(x, policy) == key then [x] else [])
  {
    assert [x][1..] == [];
  }

  /** The k-th completion time is the start clock plus the processing times of
      the first k requests run. */
  lemma {:induction false} StampPrefixSums(order: seq<Slot>, clock: int)
    ensures forall k :: 0 <= k < |order| ==>
      Stamp(order, clock)[k].time == clock + TotalProcessing(order[..k + 1])
    decreases |order|
  {
    if order != [] {
      var p := order[0].req.processingTime;
      StampPrefixSums(order[1..], clock + p);
      forall k | 0 <= k < |order|
        ensures Stamp(order, clock)[k].time == clock + TotalProcessing(order[..k + 1])
      {
        assert order[..k + 1][1..] == order[1..][..k];
        if k > 0 {
          assert Stamp(order, clock)[k] == Stamp(order[1..], clock + p)[k - 1];
        }
      }
    }
  }

  /** The selection order runs exactly the processing time of the queue. */
  lemma {:induction false} SelectionOrderTotal(s: seq<Slot>, policy: Policy)
    ensures TotalProcessing(SelectionOrder(s, policy)) == TotalProcessing(s)
    decreases |s|
  {
    if s != [] {
      var i := FirstMin(s, policy);
      var rest := s[..i] + s[i + 1..];
      var tail := SelectionOrder(rest, policy);
      SelectionOrderTotal(rest, policy);
      SelectionOrderUnfold(s, policy);
      assert ([s[i]] + tail)[1..] == tail;
      TotalProcessingRemove(s, i);
    }
  }

  /** The last request of a priority or shortest-job-first run finishes at the
      start clock plus the processing time of the whole queue. */
  lemma {:induction false} ScheduleMakespan(s: seq<Slot>, policy: Policy, clock: int)
    requires s != []
    ensures Schedule(s, policy, clock)[|s| - 1].time == clock + TotalProcessing(s)
  {
    StampMakespan(SelectionOrder(s, policy), clock);
    SelectionOrderTotal(s, policy);
  }

  /** The last completion time is the start clock plus the total processing time. */
  lemma StampMakespan(order: seq<Slot>, clock: int)
    requires order != []
    ensures Stamp(order, clock)[|order| - 1].time == clock + TotalProcessing(order)
  {
    StampPrefixSums(order, clock);
    assert order[..|order|] == order;
  }

  /** With non-negative processing times, completion times never precede
      the start clock and never decrease. */
  lemma {:induction false} StampChronological(order: seq<Slot>, clock: int)
    requires forall k :: 0 <= k < |order| ==> order[k].req.processingTime >= 0
    ensures forall k :: 0 <= k < |Stamp(order, clock)| ==> clock <= Stamp(order, clock)[k].time
    ensures forall j, k :: 0 <= j < k < |Stamp(order, clock)| ==>
      Stamp(order, clock)[j].time <= Stamp(order, clock)[k].time
    decreases |order|
  {
    if order != [] {
      var t := clock + order[0].req.processingTime;
      StampChronological(order[1..], t);
      var cs := Stamp(order, clock);
      var tail := Stamp(order[1..], t);
      assert cs == [Completion(order[0].req, t)] + tail;
      forall k | 0 <= k < |cs|
        ensures clock <= cs[k].time
      {
        if k > 0 {
          assert cs[k] == tail[k - 1];
        }
      }
      forall j, k | 0 <= j < k < |cs|
        ensures cs[j].time <= cs[k].time
      {
        assert cs[k] == tail[k - 1];
        if j > 0 {
          assert cs[j] == tail[j - 1];
        }
      }
    }
  }

  /** With non-negative processing times, priority and shortest-job-first
      completion times never decrease and none is before the start clock. */
  lemma ScheduleChronological(s: seq<Slot>, policy: Policy, clock: int)
    requires forall k :: 0 <= k < |s| ==> s[k].req.processingTime >= 0
    ensures var cs := Schedule(s, policy, clock);
      && (forall k :: 0 <= k < |cs| ==> clock <= cs[k].time)
      && (forall j, k :: 0 <= j < k < |cs| ==> cs[j].time <= cs[k].time)
  {
    var order := SelectionOrder(s, policy);
    SelectionOrderPermutes(s, policy);
    forall k | 0 <= k < |order|
      ensures order[k].req.processingTime >= 0
    {
      assert order[k] in multiset(s);
      var j :| 0 <= j < |s| && s[j] == order[k];
    }
    StampChronological(order, clock);
  }

  /** Non-preemptive priority scheduling completes requests in non-decreasing
      priority. */
  lemma PriorityNonDecreasing(s: seq<Slot>, clock: int)
    ensures var cs := Schedule(s, ByPriority, clock);
      forall j, k :: 0 <= j < k < |cs| ==> cs[j].request.priority <= cs[k].request.priority
  {
    ScheduleKeyOrder(s, ByPriority, clock);
  }

  /** Non-preemptive shortest-job-first completes requests in non-decreasing
      processing time. */
  lemma ShortestJobNonDecreasing(s: seq<Slot>, clock: int)
    ensures var cs := Schedule(s, ByProcessingTime, clock);
      forall j, k :: 0 <= j < k < |cs| ==> cs[j].request.processingTime <= cs[k].request.processingTime
  {
    ScheduleKeyOrder(s, ByProcessingTime, clock);
  }

  /** The completion trace follows the selection order's keys. */
  lemma ScheduleKeyOrder(s: seq<Slot>, policy: Policy, clock: int)
    ensures var order := SelectionOrder(s, policy);
      var cs := Schedule(s, policy, clock);
      && |cs| == |order|
      && (forall k :: 0 <= k < |cs| ==> cs[k].request == order[k].req)
      && (forall j, k :: 0 <= j < k < |order| ==> !Before(KeyOf(order[k], policy), KeyOf(order[j], policy)))
  {
    var order := SelectionOrder(s, policy);
    var cs := Schedule(s, policy, clock);
    SelectionOrderSorted(s, policy);
    StampServes(order, clock);
    forall k | 0 <= k < |cs|
      ensures cs[k].request == order[k].req
    {
      ServedAt(cs, k);
      RequestsOfAt(order, k);
    }
  }

  /** Shortest-job-first on jobs of 9, 1 and 4 units: they finish in the
      order 1, 4, 9, at times 1, 5 and 14. */
  lemma ShortestJobExample(a: Request, b: Request, c: Request)
    requires a.processingTime == 9 && b.processingTime == 1 && c.processingTime == 4
    ensures Schedule([Slot(a, 9), Slot(b, 1), Slot(c, 4)], ByProcessingTime, 0)
         == [Completion(b, 1), Completion(c, 5), Completion(a, 14)]
  {
    ThreeStep(Slot(a, 9), Slot(b, 1), Slot(c, 4), ByProcessingTime, 0);
  }

  /** Non-preemptive priority scheduling on priorities 3, 1, 2 with processing
      times 4, 2, 5: the requests finish in priority order at times 2, 7, 11. */
  lemma PriorityExample(a: Request, b: Request, c: Request)
    requires a.priority == 3 && b.priority == 1 && c.priority == 2
    requires a.processingTime == 4 && b.processingTime == 2 && c.processingTime == 5
    ensures Schedule([Slot(a, 4), Slot(b, 2), Slot(c, 5)], ByPriority, 0)
         == [Completion(b, 2), Completion(c, 7), Completion(a, 11)]
  {
    ThreeStep(Slot(a, 4), Slot(b, 2), Slot(c, 5), ByPriority, 0);
  }

  /** Priority scheduling with a tie: of the two requests with priority 1,
      the one queued first runs first; the priority-2 request runs last. */
  lemma PriorityTieExample(a: Request, b: Request, c: Request)
    requires a.priority == 2 && b.priority == 1 && c.priority == 1
    requires a.processingTime == 3 && b.processingTime == 2 && c.processingTime == 4
    ensures Schedule([Slot(a, 3), Slot(b, 2), Slot(c, 4)], ByPriority, 0)
         == [Completion(b, 2), Completion(c, 6), Completion(a, 9)]
  {
    ThreeStep(Slot(a, 3), Slot(b, 2), Slot(c, 4), ByPriority, 0);
  }

  /** The run of the three examples above: the middle slot is selected first,
      then the last one, then the first one. */
  lemma ThreeStep(x: Slot, y: Slot, z: Slot, policy: Policy, clock: int)
    requires Before(KeyOf(y, policy), KeyOf(x, policy)) && !Before(KeyOf(z, policy), KeyOf(y, policy))
    requires Before(KeyOf(z, policy), KeyOf(x, policy))
    ensures var t1 := clock + y.req.processingTime;
      var t2 := t1 + z.req.processingTime;
      Schedule([x, y, z], policy, clock)
      == [Completion(y.req, t1), Completion(z.req, t2), Completion(x.req, t2 + x.req.processingTime)]
  {
    var t1 := clock + y.req.processingTime;
    var t2 := t1 + z.req.processingTime;
    MiddleFirst(x, y, z, policy, clock);
    LastFirst(x, z, policy, t1);
    ScheduleSingle(x, policy, t2);
  }

  lemma MiddleFirst(x: Slot, y: Slot, z: Slot, policy: Policy, clock: int)
    requires Before(KeyOf(y, policy), KeyOf(x, policy)) && !Before(KeyOf(z, policy), KeyOf(y, policy))
    ensures var t := clock + y.req.processingTime;
      Schedule([x, y, z], policy, clock) == [Completion(y.req, t)] + Schedule([x, z], policy, t)
  {
    var s := [x, y, z];
    assert IsFirstMin(s, policy, 1);
    FirstMinUnique(s, policy, 1);
    ScheduleStep(s, policy, clock, 1);
    assert s[..1] + s[2..] == [x, z];
  }

  lemma LastFirst(x: Slot, z: Slot, policy: Policy, clock: int)
    requires Before(KeyOf(z, policy), KeyOf(x, policy))
    ensures var t := clock + z.req.processingTime;
      Schedule([x, z], policy, clock) == [Completion(z.req, t)] + Schedule([x], policy, t)
  {
    var s := [x, z];
    assert IsFirstMin(s, policy, 1);
    FirstMinUnique(s, policy, 1);
    ScheduleStep(s, policy, clock, 1);
    assert s[..1] + s[2..] == [x];
  }

  lemma ScheduleSingle(x: Slot, policy: Policy, clock: int)
    ensures Schedule([x], policy, clock) == [Completion(x.req, clock + x.req.processingTime)]
  {
    FirstMinUnique([x], policy, 0);
    ScheduleStep([x], policy, clock, 0);
    assert [x][..0] + [x][1..] == [];
  }
}
