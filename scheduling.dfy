/**
 * The scheduling queue in front of the ledger pipeline. Requests wait in a
 * priority queue ordered by timestamp; the scheduler takes the earliest
 * and hands its fields to `processVote`. The request id and the timestamp
 * (a UUID and the clock in the code) are parameters, and so are the
 * arguments the pipeline draws from the environment.
 */
module Scheduling {
  import opened Base
  import opened VoteProcessing

  datatype VoteRequest = VoteRequest(requestId: string, userId: string, candidateId: string,
                                     candidateName: string, sessionId: string, timestamp: int)

  /** The position of the earliest request, the first one among equal timestamps. */
  function MinIndex(q: seq<VoteRequest>): (m: nat)
    requires |q| > 0
    ensures m < |q|
    ensures forall j :: 0 <= j < |q| ==> q[m].timestamp <= q[j].timestamp
    decreases |q|
  {
    if |q| == 1 then 0
    else
      var m := MinIndex(q[..|q| - 1]);
      if q[|q| - 1].timestamp < q[m].timestamp then |q| - 1 else m
  }

  /** The queue without the request at position `i`. */
  function RemoveAt(q: seq<VoteRequest>, i: nat): (r: seq<VoteRequest>)
    requires i < |q|
    ensures |r| == |q| - 1
    ensures multiset(r) + multiset{q[i]} == multiset(q)
  {
    assert q == q[..i] + [q[i]] + q[i + 1..];
    q[..i] + q[i + 1..]
  }

  /** The order the scheduler takes the queued requests in. */
  function Drain(q: seq<VoteRequest>): seq<VoteRequest>
    decreases |q|
  {
    if |q| == 0 then [] else [q[MinIndex(q)]] + Drain(RemoveAt(q, MinIndex(q)))
  }

  /** Draining takes every queued request exactly once. */
  lemma {:induction false} DrainPermutes(q: seq<VoteRequest>)
    ensures multiset(Drain(q)) == multiset(q)
    decreases |q|
  {
    if |q| > 0 {
      DrainPermutes(RemoveAt(q, MinIndex(q)));
    }
  }

  /** Draining takes the requests in order of timestamp. */
  lemma {:induction false} DrainSorted(q: seq<VoteRequest>)
    ensures forall i, j :: 0 <= i < j < |Drain(q)| ==> Drain(q)[i].timestamp <= Drain(q)[j].timestamp
    decreases |q|
  {
    if |q| > 0 {
      var m := MinIndex(q);
      var rest := RemoveAt(q, m);
      DrainSorted(rest);
      DrainPermutes(rest);
      var d := Drain(q);
      assert d == [q[m]] + Drain(rest);
      forall j | 0 < j < |d|
        ensures q[m].timestamp <= d[j].timestamp
      {
        assert d[j] == Drain(rest)[j - 1];
        assert d[j] in multiset(Drain(rest));
        assert d[j] in multiset(q);
      }
    }
  }

  datatype SchedulingStats = SchedulingStats(totalRequests: int, processedRequests: int,
                                             failedRequests: int, queueSize: int, isRunning: bool)

  class VoteSchedulingService {
    const voteProcessingService: VoteProcessingService
    var voteQueue: seq<VoteRequest>
    var totalRequests: int
    var processedRequests: int
    var failedRequests: int
    var isRunning: bool

    /** A new service starts its scheduler. */
    constructor (processing: VoteProcessingService)
      ensures voteProcessingService == processing && voteQueue == []
      ensures totalRequests == 0 && processedRequests == 0 && failedRequests == 0
      ensures isRunning
    {
      voteProcessingService := processing;
      voteQueue := [];
      totalRequests := 0;
      processedRequests := 0;
      failedRequests := 0;
      isRunning := false;
      new;
      StartScheduler();
    }

    /** `submitVoteRequest`: queue one request and count it. The queue has no
        bound, so the offer always succeeds. */
    method SubmitVoteRequest(userId: string, candidateId: string, candidateName: string, sessionId: string,
                             requestId: string, now: int) returns (id: string)
      modifies this
      ensures voteQueue == old(voteQueue) + [VoteRequest(requestId, userId, candidateId, candidateName,
                                                         sessionId, now)]
      ensures totalRequests == old(totalRequests) + 1
      ensures id == requestId
      ensures processedRequests == old(processedRequests) && failedRequests == old(failedRequests)
      ensures isRunning == old(isRunning)
    {
      var request := VoteRequest(requestId, userId, candidateId, candidateName, sessionId, now);
      voteQueue := voteQueue + [request];
      totalRequests := totalRequests + 1;
      id := request.requestId;
    }

    /** `take`: remove and return the earliest queued request. */
    method Take() returns (request: VoteRequest)
      requires |voteQueue| > 0
      modifies this
      ensures request == old(voteQueue)[MinIndex(old(voteQueue))]
      ensures voteQueue == RemoveAt(old(voteQueue), MinIndex(old(voteQueue)))
      ensures totalRequests == old(totalRequests) && processedRequests == old(processedRequests)
      ensures failedRequests == old(failedRequests) && isRunning == old(isRunning)
    {
      var best := 0;
      var k := 1;
      while k < |voteQueue|
        invariant 1 <= k <= |voteQueue|
        invariant best == MinIndex(voteQueue[..k])
      {
        assert voteQueue[..k + 1][..k] == voteQueue[..k];
        if voteQueue[k].timestamp < voteQueue[best].timestamp {
          best := k;
        }
        k := k + 1;
      }
      assert voteQueue[..|voteQueue|] == voteQueue;
      request := voteQueue[best];
      voteQueue := voteQueue[..best] + voteQueue[best + 1..];
    }

    /** `startScheduler`: nothing happens when it is already running. */
    method StartScheduler()
      modifies this
      ensures isRunning
      ensures voteQueue == old(voteQueue) && totalRequests == old(totalRequests)
      ensures processedRequests == old(processedRequests) && failedRequests == old(failedRequests)
    {
      if isRunning {
        return;
      }
      isRunning := true;
    }

    /** `processVoteRequest`: forward the request's fields to the pipeline and
        count the outcome. */
    method ProcessVoteRequest(request: VoteRequest, id: string, now: int, releaseNow: int, serverNode: string,
                              storeFault: bool)
      requires voteProcessingService.Valid()
      modifies this, voteProcessingService, voteProcessingService.lockService
      ensures voteProcessingService.Valid()
      ensures var r := ProcessVoteStep(old(voteProcessingService.State()), request.userId, request.candidateId,
                                       request.candidateName, request.sessionId, id, now, releaseNow, serverNode, storeFault);
        voteProcessingService.State() == r.ledger &&
        (r.ok ==> processedRequests == old(processedRequests) + 1 && failedRequests == old(failedRequests)) &&
        (!r.ok ==> failedRequests == old(failedRequests) + 1 && processedRequests == old(processedRequests))
      ensures voteQueue == old(voteQueue) && totalRequests == old(totalRequests) && isRunning == old(isRunning)
    {
      var success := voteProcessingService.ProcessVote(request.userId, request.candidateId,
                                                       request.candidateName, request.sessionId,
                                                       id, now, releaseNow, serverNode, storeFault);
      if success {
        processedRequests := processedRequests + 1;
      } else {
        failedRequests := failedRequests + 1;
      }
    }

    /** `shutdown`: the scheduler stops. */
    method Shutdown()
      modifies this
      ensures !isRunning
      ensures voteQueue == old(voteQueue) && totalRequests == old(totalRequests)
      ensures processedRequests == old(processedRequests) && failedRequests == old(failedRequests)
    {
      isRunning := false;
    }

    /** `getStats`: the counters, the queue length and the running flag. */
    method GetStats() returns (stats: SchedulingStats)
      ensures stats == SchedulingStats(totalRequests, processedRequests, failedRequests, |voteQueue|, isRunning)
    {
      stats := SchedulingStats(totalRequests, processedRequests, failedRequests, |voteQueue|, isRunning);
    }
  }
}
