/** The simulation entry point: load a batch of requests into a fresh server
    and run the algorithm chosen by name. The wall-clock measurement around
    the run is not part of this model. */
module Simulation {
  import opened Requests
  import opened Selection
  import opened RoundRobin
  import opened RunToCompletion
  import opened Server

  /** What a simulation returns: the completion records of the run, or the
      error raised for an algorithm name the dispatcher does not know. */
  datatype Outcome =
    | Completed(records: seq<Completion>)
    | InvalidAlgorithm

  /** The algorithm names the dispatcher accepts. */
  predicate KnownAlgorithm(algorithm: string)
  {
    algorithm == "round_robin" || algorithm == "priority" || algorithm == "sjf"
  }

  /** Loads the requests in input order, then dispatches on the name.
      Round-robin needs a positive quantum to terminate and, since it
      updates remaining times in place, a batch without repeated objects. */
  method SimulateScheduling(requests: seq<Request>, algorithm: string, timeQuantum: int, preemptive: bool)
    returns (outcome: Outcome)
    requires algorithm == "round_robin" ==> timeQuantum > 0 && Distinct(requests)
    modifies requests
    ensures algorithm == "round_robin" ==>
      outcome == Completed(RunRoundRobin(RRState(old(Snapshot(requests)), 0, []), timeQuantum).done)
    ensures algorithm == "priority" ==>
      outcome == Completed(Schedule(old(Snapshot(requests)), PriorityPolicy(preemptive), 0))
    ensures algorithm == "sjf" ==>
      outcome == Completed(Schedule(old(Snapshot(requests)), SjfPolicy(preemptive), 0))
    ensures !KnownAlgorithm(algorithm) ==> outcome == InvalidAlgorithm
    ensures algorithm == "round_robin" ==> forall r :: r in requests ==> r.remainingTime == 0
    ensures algorithm != "round_robin" ==> forall r :: r in requests ==> unchanged(r)
  {
    ghost var batch := Snapshot(requests);
    var server := new WebServer();
    for i := 0 to |requests|
      invariant fresh(server)
      invariant server.queue == requests[..i]
      invariant unchanged(requests)
    {
      server.AddRequest(requests[i]);
    }
    assert server.queue == requests;
    assert Snapshot(server.queue) == batch;
    if algorithm == "round_robin" {
      var completed := server.ProcessRoundRobin(timeQuantum);
      outcome := Completed(completed);
    } else if algorithm == "priority" {
      var completed := server.ProcessPriorityScheduling(preemptive);
      outcome := Completed(completed);
    } else if algorithm == "sjf" {
      var completed := server.ProcessShortestJobFirst(preemptive);
      outcome := Completed(completed);
    } else {
      outcome := InvalidAlgorithm;
    }
  }
}
