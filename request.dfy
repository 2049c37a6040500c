/** Requests, the value snapshots the scheduling algorithms are specified
    over, and completion records. */
module Requests {

  /** A request of the batch. Its identity and service demand are fixed at
      creation; `remainingTime` is the counter that round-robin decrements in
      place. Arrival times are integers: the engine only ever compares them. */
  class Request {
    const id: int
    const processingTime: int
    const priority: int
    const arrivalTime: int
    var remainingTime: int

    /** A new request has all of its service demand still to run. */
    constructor (id: int, processingTime: int, priority: int, arrivalTime: int)
      ensures this.id == id && this.processingTime == processingTime
      ensures this.priority == priority && this.arrivalTime == arrivalTime
      ensures remainingTime == processingTime
    {
      this.id := id;
      this.processingTime := processingTime;
      this.priority := priority;
      this.arrivalTime := arrivalTime;
      remainingTime := processingTime;
    }
  }

  /** A queued request together with its remaining time at one moment. */
  datatype Slot = Slot(req: Request, remaining: int)

  /** A completion record: a finished request and the cumulative simulated
      time at which it finished. */
  datatype Completion = Completion(request: Request, time: int)

  /** No request object occurs twice. */
  predicate Distinct(rs: seq<Request>)
  {
    forall i, j :: 0 <= i < j < |rs| ==> rs[i] != rs[j]
  }

  /** The queue as values: each request paired with its current remaining time. */
  function Snapshot(rs: seq<Request>): (s: seq<Slot>)
    reads rs
    ensures |s| == |rs|
  {
    if rs == [] then [] else [Slot(rs[0], rs[0].remainingTime)] + Snapshot(rs[1..])
  }

  /** The request objects of a sequence of slots, in order. */
  function RequestsOf(s: seq<Slot>): (rs: seq<Request>)
    ensures |rs| == |s|
  {
    if s == [] then [] else [s[0].req] + RequestsOf(s[1..])
  }

  /** The request objects of a completion trace, in finishing order. */
  function Served(cs: seq<Completion>): (rs: seq<Request>)
    ensures |rs| == |cs|
  {
    if cs == [] then [] else [cs[0].request] + Served(cs[1..])
  }

  /** Sum of the remaining times of the slots. */
  function TotalRemaining(s: seq<Slot>): int
  {
    if s == [] then 0 else s[0].remaining + TotalRemaining(s[1..])
  }

  /** Sum of the processing times of the slots' requests. */
  function TotalProcessing(s: seq<Slot>): int
  {
    if s == [] then 0 else s[0].req.processingTime + TotalProcessing(s[1..])
  }

  lemma {:induction false} TotalRemainingAppend(a: seq<Slot>, b: seq<Slot>)
    ensures TotalRemaining(a + b) == TotalRemaining(a) + TotalRemaining(b)
  {
    if a != [] {
      assert (a + b)[1..] == a[1..] + b;
      TotalRemainingAppend(a[1..], b);
    } else {
      assert a + b == b;
    }
  }

  lemma {:induction false} TotalProcessingAppend(a: seq<Slot>, b: seq<Slot>)
    ensures TotalProcessing(a + b) == TotalProcessing(a) + TotalProcessing(b)
  {
    if a != [] {
      assert (a + b)[1..] == a[1..] + b;
      TotalProcessingAppend(a[1..], b);
    } else {
      assert a + b == b;
    }
  }

  lemma RequestsOfAppend(a: seq<Slot>, b: seq<Slot>)
    ensures RequestsOf(a + b) == RequestsOf(a) + RequestsOf(b)
  {
    if a == [] {
      assert a + b == b;
    } else {
      assert (a + b)[1..] == a[1..] + b;
      RequestsOfAppend(a[1..], b);
    }
  }

  lemma ServedAppend(a: seq<Completion>, b: seq<Completion>)
    ensures Served(a + b) == Served(a) + Served(b)
  {
    if a == [] {
      assert a + b == b;
    } else {
      assert (a + b)[1..] == a[1..] + b;
      ServedAppend(a[1..], b);
    }
  }

  lemma {:induction false} RequestsOfAt(s: seq<Slot>, k: nat)
    requires k < |s|
    ensures RequestsOf(s)[k] == s[k].req
  {
    if k > 0 {
      RequestsOfAt(s[1..], k - 1);
    }
  }

  lemma {:induction false} ServedAt(cs: seq<Completion>, k: nat)
    requires k < |cs|
    ensures Served(cs)[k] == cs[k].request
  {
    if k > 0 {
      ServedAt(cs[1..], k - 1);
    }
  }

  /** Taking the i-th slot out of a sequence takes its request out of the
      sequence's requests. */
  lemma RequestsOfRemove(s: seq<Slot>, i: nat)
    requires i < |s|
    ensures multiset(RequestsOf(s)) == multiset{s[i].req} + multiset(RequestsOf(s[..i] + s[i + 1..]))
  {
    RequestsOfWithout(s, i);
    RequestsOfAt(s, i);
    MultisetRemove(RequestsOf(s), i);
  }

  /** The requests of a sequence with one position removed. */
  lemma RequestsOfWithout(s: seq<Slot>, i: nat)
    requires i < |s|
    ensures RequestsOf(s[..i] + s[i + 1..]) == RequestsOf(s)[..i] + RequestsOf(s)[i + 1..]
  {
    var removed := s[..i] + s[i + 1..];
    var all := RequestsOf(s);
    var rest := RequestsOf(removed);
    forall k | 0 <= k < |rest|
      ensures rest[k] == (all[..i] + all[i + 1..])[k]
    {
      RequestsOfAt(removed, k);
      ElementAfterRemove(s, i, k);
      ElementAfterRemove(all, i, k);
      if k < i {
        RequestsOfAt(s, k);
      } else {
        RequestsOfAt(s, k + 1);
      }
    }
  }

  /** Which element sits at position `k` once position `i` is removed. */
  lemma ElementAfterRemove<T>(s: seq<T>, i: nat, k: nat)
    requires i < |s| && k < |s| - 1
    ensures (s[..i] + s[i + 1..])[k] == if k < i then s[k] else s[k + 1]
  {
  }

  /** Taking one position out of a sequence takes its element out of the
      sequence's multiset. */
  lemma MultisetRemove<T>(rs: seq<T>, i: nat)
    requires i < |rs|
    ensures multiset(rs) == multiset{rs[i]} + multiset(rs[..i] + rs[i + 1..])
  {
    assert rs == rs[..i] + [rs[i]] + rs[i + 1..];
  }

  /** A sequence is its prefix, the element at `i`, and its suffix. */
  lemma SplitAt<T>(s: seq<T>, i: nat)
    requires i < |s|
    ensures s == s[..i] + ([s[i]] + s[i + 1..])
  {
  }

  /** Taking the i-th slot out of a sequence takes its processing time out of
      the total. */
  lemma TotalProcessingRemove(s: seq<Slot>, i: nat)
    requires i < |s|
    ensures TotalProcessing(s) == s[i].req.processingTime + TotalProcessing(s[..i] + s[i + 1..])
  {
    SplitAt(s, i);
    TotalProcessingAppend(s[..i], [s[i]] + s[i + 1..]);
    TotalProcessingAppend([s[i]], s[i + 1..]);
    TotalProcessingAppend(s[..i], s[i + 1..]);
    assert [s[i]][1..] == [];
  }

  /** Moving the head of a queue without duplicates to its tail keeps it
      without duplicates. */
  lemma DistinctRotate(rs: seq<Request>)
    requires rs != [] && Distinct(rs)
    ensures Distinct(rs[1..] + [rs[0]])
  {
    var rotated := rs[1..] + [rs[0]];
    forall i, j | 0 <= i < j < |rotated|
      ensures rotated[i] != rotated[j]
    {
      assert rotated[i] == rs[i + 1];
      if j < |rs| - 1 {
        assert rotated[j] == rs[j + 1];
      }
    }
  }

  lemma {:induction false} SnapshotAt(rs: seq<Request>, k: nat)
    requires k < |rs|
    ensures Snapshot(rs)[k] == Slot(rs[k], rs[k].remainingTime)
  {
    if k > 0 {
      SnapshotAt(rs[1..], k - 1);
    }
  }

  /** Snapshots distribute over concatenation. */
  lemma {:induction false} SnapshotConcat(a: seq<Request>, b: seq<Request>)
    ensures Snapshot(a + b) == Snapshot(a) + Snapshot(b)
  {
    if a == [] {
      assert a + b == b;
    } else {
      assert (a + b)[1..] == a[1..] + b;
      SnapshotConcat(a[1..], b);
    }
  }

  /** The snapshot of a queue with one position removed. */
  lemma SnapshotRemove(rs: seq<Request>, i: nat)
    requires i < |rs|
    ensures Snapshot(rs[..i] + rs[i + 1..]) == Snapshot(rs)[..i] + Snapshot(rs)[i + 1..]
  {
    var removed := rs[..i] + rs[i + 1..];
    var left := Snapshot(removed);
    var right := Snapshot(rs)[..i] + Snapshot(rs)[i + 1..];
    forall k | 0 <= k < |left|
      ensures left[k] == right[k]
    {
      SnapshotAt(removed, k);
      ElementAfterRemove(rs, i, k);
      ElementAfterRemove(Snapshot(rs), i, k);
      if k < i {
        SnapshotAt(rs, k);
      } else {
        SnapshotAt(rs, k + 1);
      }
    }
  }

  /** The snapshot of a queue with one request appended. */
  lemma SnapshotAppend(rs: seq<Request>, r: Request)
    ensures Snapshot(rs + [r]) == Snapshot(rs) + [Slot(r, r.remainingTime)]
  {
    SnapshotConcat(rs, [r]);
  }
}
