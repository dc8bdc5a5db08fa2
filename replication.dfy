/**
 * Replication bookkeeping: the majority rule that decides a replication,
 * the per-vote status table and counters, and the consistency check that
 * compares replica reads with the main copy. The answers of the replicas,
 * which the code collects from asynchronous tasks, are a sequence of
 * booleans, one per replica index; `timedOut` says whether waiting for
 * them threw.
 */
module Replication {
  import opened Base
  import opened JavaText

  /** The majority rule: more than half of the replicas, with Java's `/`. */
  predicate Quorum(successCount: int, replicaCount: int) {
    successCount >= JavaDiv(replicaCount, 2) + 1
  }

  /** Three replicas need two successes, four need three. */
  lemma QuorumSizes()
    ensures Quorum(2, 3) && !Quorum(1, 3)
    ensures Quorum(3, 4) && !Quorum(2, 4)
    ensures Quorum(3, 5) && !Quorum(2, 5)
    ensures !Quorum(0, 0) && Quorum(1, 1)
  {
  }

  /** For a non-negative replica count the rule is a strict majority. */
  lemma QuorumIsMajority(successCount: int, replicaCount: int)
    requires replicaCount >= 0
    ensures Quorum(successCount, replicaCount) <==> 2 * successCount > replicaCount
  {
    var q := replicaCount / 2;
    assert JavaDiv(replicaCount, 2) == q;
    assert replicaCount == 2 * q || replicaCount == 2 * q + 1;
  }

  /** Two quorums of the same replicas always share a replica. */
  lemma QuorumsOverlap(s1: int, s2: int, replicaCount: int)
    requires replicaCount >= 0 && Quorum(s1, replicaCount) && Quorum(s2, replicaCount)
    ensures s1 + s2 > replicaCount
  {
    QuorumIsMajority(s1, replicaCount);
    QuorumIsMajority(s2, replicaCount);
  }

  /** The number of replicas that reported success. */
  function Successes(results: seq<bool>): (n: nat)
    ensures n <= |results|
    ensures n == |results| <==> forall i :: 0 <= i < |results| ==> results[i]
    ensures n == 0 <==> forall i :: 0 <= i < |results| ==> !results[i]
  {
    if |results| == 0 then 0
    else Successes(results[..|results| - 1]) + (if results[|results| - 1] then 1 else 0)
  }

  /** The result-counting loop. */
  method CountSuccesses(results: seq<bool>) returns (successCount: int)
    ensures successCount == Successes(results)
  {
    successCount := 0;
    var i := 0;
    while i < |results|
      invariant 0 <= i <= |results|
      invariant successCount == Successes(results[..i])
    {
      assert results[..i + 1][..i] == results[..i];
      if results[i] {
        successCount := successCount + 1;
      }
      i := i + 1;
    }
    assert results[..|results|] == results;
  }

  datatype Status = StatusPending | Completed | Failed

  /** A `ReplicationStatus` entry of the table. */
  datatype ReplicationStatus = ReplicationStatus(voteId: string, totalReplicas: int, status: Status)

  /** The number of replica indices `0 .. replicaCount-1` the loop visits. */
  function Attempts(replicaCount: int): nat {
    if replicaCount < 0 then 0 else replicaCount
  }

  datatype ReplicationStats = ReplicationStats(successfulReplications: int, failedReplications: int,
                                               activeReplications: int)

  /** `getTotalReplications`. */
  function TotalReplications(s: ReplicationStats): (t: int)
    ensures t - s.failedReplications == s.successfulReplications
  {
    s.successfulReplications + s.failedReplications
  }

  datatype ConsistencyCheckResult = ConsistencyCheckResult(voteId: string, isConsistent: bool,
                                                           consistentReplicas: int, totalReplicas: int)

  /** The replica reads that returned data, in replica order. */
  function Present(fetched: seq<Option<string>>): (ps: seq<string>)
    ensures |ps| <= |fetched|
    ensures forall x :: x in ps <==> Some(x) in fetched
  {
    if |fetched| == 0 then []
    else
      var rest := Present(fetched[..|fetched| - 1]);
      assert fetched == fetched[..|fetched| - 1] + [fetched[|fetched| - 1]];
      match fetched[|fetched| - 1]
      case None => rest
      case Some(x) => rest + [x]
  }

  /** How many of the reads equal the main copy. */
  function Matching(data: seq<string>, main: string): (n: nat)
    ensures n <= |data|
    ensures n == |data| <==> forall i :: 0 <= i < |data| ==> data[i] == main
    ensures n == 0 <==> forall i :: 0 <= i < |data| ==> data[i] != main
  {
    if |data| == 0 then 0
    else Matching(data[..|data| - 1], main) + (if data[|data| - 1] == main then 1 else 0)
  }

  /** The report of `checkConsistency` for the main copy and the replica reads. */
  function Consistency(voteId: string, main: string, fetched: seq<Option<string>>): ConsistencyCheckResult {
    var data := Present(fetched);
    ConsistencyCheckResult(voteId, Matching(data, main) == |data|, Matching(data, main), |data|)
  }

  /** Consistent exactly when every read that returned data equals the main copy. */
  lemma ConsistentMeansAllAgree(voteId: string, main: string, fetched: seq<Option<string>>)
    ensures Consistency(voteId, main, fetched).isConsistent <==>
      forall i :: 0 <= i < |fetched| && fetched[i].Some? ==> fetched[i].value == main
    ensures Consistency(voteId, main, fetched).consistentReplicas <= Consistency(voteId, main, fetched).totalReplicas
    ensures Consistency(voteId, main, fetched).totalReplicas <= |fetched|
  {
    var data := Present(fetched);
    if Matching(data, main) == |data| {
      forall i | 0 <= i < |fetched| && fetched[i].Some?
        ensures fetched[i].value == main
      {
        assert fetched[i].value in data;
      }
    } else {
      var j :| 0 <= j < |data| && data[j] != main;
      assert data[j] in data;
      var i :| 0 <= i < |fetched| && fetched[i] == Some(data[j]);
    }
  }

  /** `getVoteDataFromMain` as written: a fixed string for the vote. */
  function MainData(voteId: string): string {
    "vote_data_" + voteId
  }

  /** `getVoteDataFromReplica` as written: a fixed string for the vote and replica. */
  function ReplicaData(voteId: string, replicaIndex: int): string {
    "vote_data_" + voteId + "_replica_" + IntToString(replicaIndex)
  }

  /** What the built-in readers return for replicas `0 .. replicaCount-1`. */
  function BuiltInReads(voteId: string, replicaCount: int): (fetched: seq<Option<string>>)
    ensures |fetched| == Attempts(replicaCount)
    ensures forall i :: 0 <= i < |fetched| ==> fetched[i] == Some(ReplicaData(voteId, i))
  {
    seq(Attempts(replicaCount), i => Some(ReplicaData(voteId, i)))
  }

  /** A replica string is always longer than the main string. */
  lemma ReplicaNeverMain(voteId: string, replicaIndex: int)
    ensures ReplicaData(voteId, replicaIndex) != MainData(voteId)
  {
    assert |ReplicaData(voteId, replicaIndex)| > |MainData(voteId)|;
  }

  /** With the built-in readers and at least one replica, the check always
      reports an inconsistent vote with no agreeing replica. */
  lemma BuiltInInconsistent(voteId: string, replicaCount: int)
    requires replicaCount > 0
    ensures Consistency(voteId, MainData(voteId), BuiltInReads(voteId, replicaCount)) ==
      ConsistencyCheckResult(voteId, false, 0, replicaCount)
  {
    var fetched := BuiltInReads(voteId, replicaCount);
    PresentAll(fetched);
    var data := Present(fetched);
    forall i | 0 <= i < |data|
      ensures data[i] != MainData(voteId)
    {
      ReplicaNeverMain(voteId, i);
    }
  }

  /** When every read returned data, all of it is kept, in order. */
  lemma {:induction false} PresentAll(fetched: seq<Option<string>>)
    requires forall i :: 0 <= i < |fetched| ==> fetched[i].Some?
    ensures |Present(fetched)| == |fetched|
    ensures forall i :: 0 <= i < |fetched| ==> Present(fetched)[i] == fetched[i].value
  {
    if |fetched| > 0 {
      PresentAll(fetched[..|fetched| - 1]);
    }
  }

  /** The first loop of `checkConsistency`: keep the reads that returned data. */
  method CollectPresent(fetched: seq<Option<string>>) returns (replicaData: seq<string>)
    ensures replicaData == Present(fetched)
  {
    replicaData := [];
    var i := 0;
    while i < |fetched|
      invariant 0 <= i <= |fetched|
      invariant replicaData == Present(fetched[..i])
    {
      assert fetched[..i + 1][..i] == fetched[..i];
      if fetched[i].Some? {
        replicaData := replicaData + [fetched[i].value];
      }
      i := i + 1;
    }
    assert fetched[..|fetched|] == fetched;
  }

  /** The second loop of `checkConsistency`: count the reads equal to the main
      copy, and note whether any differs. */
  method CompareWithMain(replicaData: seq<string>, mainData: string)
    returns (isConsistent: bool, consistentReplicas: int)
    ensures consistentReplicas == Matching(replicaData, mainData)
    ensures isConsistent <==> consistentReplicas == |replicaData|
  {
    isConsistent := true;
    consistentReplicas := 0;
    var j := 0;
    while j < |replicaData|
      invariant 0 <= j <= |replicaData|
      invariant consistentReplicas == Matching(replicaData[..j], mainData)
      invariant isConsistent <==> consistentReplicas == j
    {
      assert replicaData[..j + 1][..j] == replicaData[..j];
      if mainData == replicaData[j] {
        consistentReplicas := consistentReplicas + 1;
      } else {
        isConsistent := false;
      }
      j := j + 1;
    }
    assert replicaData[..|replicaData|] == replicaData;
  }

  class ReplicationService {
    const replicaCount: int
    var replicationStatus: map<string, ReplicationStatus>
    var successfulReplications: int
    var failedReplications: int

    constructor (replicas: int)
      ensures replicaCount == replicas && replicationStatus == map[]
      ensures successfulReplications == 0 && failedReplications == 0
    {
      replicaCount := replicas;
      replicationStatus := map[];
      successfulReplications := 0;
      failedReplications := 0;
    }

    /** `replicateVoteData`: register the vote as PENDING, count the replica
        successes, and settle it by the majority rule; a timeout fails it. */
    method ReplicateVoteData(voteId: string, results: seq<bool>, timedOut: bool) returns (ok: bool)
      requires |results| == Attempts(replicaCount)
      modifies this
      ensures ok <==> !timedOut && Quorum(Successes(results), replicaCount)
      ensures replicationStatus ==
        old(replicationStatus)[voteId := ReplicationStatus(voteId, replicaCount, if ok then Completed else Failed)]
      ensures ok ==> successfulReplications == old(successfulReplications) + 1 &&
                     failedReplications == old(failedReplications)
      ensures !ok ==> failedReplications == old(failedReplications) + 1 &&
                      successfulReplications == old(successfulReplications)
    {
      replicationStatus := replicationStatus[voteId := ReplicationStatus(voteId, replicaCount, StatusPending)];
      if timedOut {
        failedReplications := failedReplications + 1;
        replicationStatus := replicationStatus[voteId := replicationStatus[voteId].(status := Failed)];
        return false;
      }
      var successCount := CountSuccesses(results);
      ok := successCount >= JavaDiv(replicaCount, 2) + 1;
      if ok {
        successfulReplications := successfulReplications + 1;
        replicationStatus := replicationStatus[voteId := replicationStatus[voteId].(status := Completed)];
      } else {
        failedReplications := failedReplications + 1;
        replicationStatus := replicationStatus[voteId := replicationStatus[voteId].(status := Failed)];
      }
    }

    /** `checkConsistency` over the main copy and the replica reads: collect
        the reads that returned data, then compare each with the main copy. */
    method CheckConsistency(voteId: string, mainData: string, fetched: seq<Option<string>>)
      returns (result: ConsistencyCheckResult)
      requires |fetched| == Attempts(replicaCount)
      ensures result == Consistency(voteId, mainData, fetched)
    {
      var replicaData := CollectPresent(fetched);
      var isConsistent, consistentReplicas := CompareWithMain(replicaData, mainData);
      result := ConsistencyCheckResult(voteId, isConsistent, consistentReplicas, |replicaData|);
    }

    /** `getReplicationStats`. */
    method GetReplicationStats() returns (stats: ReplicationStats)
      ensures stats == ReplicationStats(successfulReplications, failedReplications, |replicationStatus|)
    {
      stats := ReplicationStats(successfulReplications, failedReplications, |replicationStatus|);
    }
  }

  /** After any replication call the total counts it once more. */
  lemma TotalCountsEachCall(before: ReplicationStats, after: ReplicationStats, ok: bool)
    requires ok ==> after.successfulReplications == before.successfulReplications + 1 &&
                    after.failedReplications == before.failedReplications
    requires !ok ==> after.failedReplications == before.failedReplications + 1 &&
                     after.successfulReplications == before.successfulReplications
    ensures TotalReplications(after) == TotalReplications(before) + 1
  {
  }
}
