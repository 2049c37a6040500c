/** The selection rule of priority and shortest-job-first scheduling: the
    request Python's `min` returns over the queue under a key. */
module Selection {
  import opened Requests

  /** The four keys the engine selects by. */
  datatype Policy =
    | ByPriority              // priority scheduling, non-preemptive
    | ByPriorityThenArrival   // priority scheduling, preemptive
    | ByProcessingTime        // shortest-job-first, non-preemptive
    | ByRemainingThenArrival  // shortest-job-first, preemptive

  function PriorityPolicy(preemptive: bool): Policy
  {
    if preemptive then ByPriorityThenArrival else ByPriority
  }

  function SjfPolicy(preemptive: bool): Policy
  {
    if preemptive then ByRemainingThenArrival else ByProcessingTime
  }

  /** A selection key. A single-component key has minor 0, so that two
      requests with the same major component compare equal. */
  datatype Key = Key(major: int, minor: int)

  /** Strict lexicographic order on keys, as Python's `<` on pairs. */
  predicate Before(a: Key, b: Key)
  {
    a.major < b.major || (a.major == b.major && a.minor < b.minor)
  }

  function KeyOf(s: Slot, policy: Policy): Key
  {
    match policy
    case ByPriority => Key(s.req.priority, 0)
    case ByPriorityThenArrival => Key(s.req.priority, s.req.arrivalTime)
    case ByProcessingTime => Key(s.req.processingTime, 0)
    case ByRemainingThenArrival => Key(s.remaining, s.req.arrivalTime)
  }

  /** `i` is the index `min` picks: its key is strictly below the key of every
      earlier element and no later element has a strictly smaller key, so ties
      go to the earliest element in queue order. */
  predicate IsFirstMin(s: seq<Slot>, policy: Policy, i: int)
  {
    && 0 <= i < |s|
    && (forall j :: 0 <= j < i ==> Before(KeyOf(s[i], policy), KeyOf(s[j], policy)))
    && (forall j :: i < j < |s| ==> !Before(KeyOf(s[j], policy), KeyOf(s[i], policy)))
  }

  /** The index of the first minimal element, scanning left to right and
      replacing the candidate only on a strictly smaller key. */
  function FirstMin(s: seq<Slot>, policy: Policy): (i: nat)
    requires |s| > 0
    ensures i < |s|
  {
    if |s| == 1 then 0
    else
      var b := FirstMin(s[..|s| - 1], policy);
      if Before(KeyOf(s[|s| - 1], policy), KeyOf(s[b], policy)) then |s| - 1 else b
  }

  /** The scan picks the index `min` picks. */
  lemma {:induction false} FirstMinIsFirst(s: seq<Slot>, policy: Policy)
    requires |s| > 0
    ensures IsFirstMin(s, policy, FirstMin(s, policy))
  {
    if |s| > 1 {
      var init := s[..|s| - 1];
      FirstMinIsFirst(init, policy);
      var b := FirstMin(init, policy);
      assert init[b] == s[b];
      forall j | 0 <= j < |s| - 1
        ensures init[j] == s[j]
      {
      }
    }
  }

  /** There is only one first minimal element. */
  lemma FirstMinUnique(s: seq<Slot>, policy: Policy, i: int)
    requires IsFirstMin(s, policy, i)
    ensures i == FirstMin(s, policy)
  {
    FirstMinIsFirst(s, policy);
  }

  /** No element of the sequence has a key strictly below the selected one. */
  lemma {:induction false} FirstMinIsLeast(s: seq<Slot>, policy: Policy, x: Slot)
    requires x in s
    ensures !Before(KeyOf(x, policy), KeyOf(s[FirstMin(s, policy)], policy))
  {
    var m := FirstMin(s, policy);
    FirstMinIsFirst(s, policy);
    var j :| 0 <= j < |s| && s[j] == x;
    if j < m {
      assert Before(KeyOf(s[m], policy), KeyOf(s[j], policy));
    }
  }
}
