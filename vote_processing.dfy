/**
 * The ledger pipeline: take the user's lock, refuse a user who already has
 * a record, save the vote as PROCESSING and then as CONFIRMED, and release
 * the lock on every way out. The document store is the `votes` collection;
 * the new record's id, the time of the grant, the time of the release and
 * the server-node name are parameters (the code draws them from a UUID, the
 * clock and the thread), and `storeFault` says whether the store throws on
 * the first save.
 */
module VoteProcessing {
  import opened Base
  import opened LockService
  import opened VoteRecord

  /** Everything one call reads and writes. */
  datatype Ledger = Ledger(
    locks: Store,
    votes: Collection,
    totalVotes: int,
    successfulVotes: int,
    failedVotes: int)

  datatype Outcome = Outcome(ok: bool, ledger: Ledger)

  /** `hasUserVoted`: some record of any status carries the user. */
  predicate HasUserVoted(votes: Collection, userId: string) {
    exists k :: k in votes && votes[k].userId == Some(userId)
  }

  /** The record the pipeline builds before its first save. */
  function NewDoc(id: string, now: int, userId: string, candidateId: string, candidateName: string,
                  sessionId: string, serverNode: string): VoteDoc
  {
    VoteDoc(id, Some(userId), Some(candidateId), Some(candidateName), now, Some(serverNode),
      Some(sessionId), Processing)
  }

  /** One `processVote` call: the lock is taken at `now` and released, in the
      `finally`, at `releaseNow`, after the store calls in between. */
  function ProcessVoteStep(l: Ledger, userId: string, candidateId: string, candidateName: string,
                           sessionId: string, id: string, now: int, releaseNow: int, serverNode: string,
                           storeFault: bool): Outcome
  {
    var counted := l.(totalVotes := l.totalVotes + 1);
    var lock := TryLockStep(l.locks, userId, sessionId, now);
    if !lock.ok then
      Outcome(false, counted.(failedVotes := l.failedVotes + 1))
    else
      var released := ReleaseStep(lock.store, userId, sessionId, releaseNow).store;
      var failed := counted.(locks := released, failedVotes := l.failedVotes + 1);
      if HasUserVoted(l.votes, userId) then Outcome(false, failed)
      else
        var doc := NewDoc(id, now, userId, candidateId, candidateName, sessionId, serverNode);
        if storeFault then Outcome(false, failed)
        else
          match Save(l.votes, doc)
          case None => Outcome(false, failed)
          case Some(processing) =>
            match Save(processing, doc.(status := Confirmed))
            case None => Outcome(false, failed)
            case Some(confirmed) =>
              Outcome(true, counted.(locks := released, votes := confirmed,
                                     successfulVotes := l.successfulVotes + 1))
  }

  /** The document written by a successful call. */
  function ConfirmedDoc(id: string, now: int, userId: string, candidateId: string, candidateName: string,
                        sessionId: string, serverNode: string): VoteDoc
  {
    NewDoc(id, now, userId, candidateId, candidateName, sessionId, serverNode).(status := Confirmed)
  }

  /** The counters balance. */
  predicate Balanced(l: Ledger) {
    l.totalVotes == l.successfulVotes + l.failedVotes
  }

  /** Each call counts once in `totalVotes` and once in exactly one of the
      success and failure counters, by its result. */
  lemma CountersStep(l: Ledger, userId: string, candidateId: string, candidateName: string,
                     sessionId: string, id: string, now: int, releaseNow: int, serverNode: string, storeFault: bool)
    ensures var r := ProcessVoteStep(l, userId, candidateId, candidateName, sessionId, id, now, releaseNow, serverNode, storeFault);
      r.ledger.totalVotes == l.totalVotes + 1 &&
      (r.ok ==> r.ledger.successfulVotes == l.successfulVotes + 1 && r.ledger.failedVotes == l.failedVotes) &&
      (!r.ok ==> r.ledger.failedVotes == l.failedVotes + 1 && r.ledger.successfulVotes == l.successfulVotes) &&
      (Balanced(l) ==> Balanced(r.ledger))
  {
  }

  /** A refused lock stores nothing and leaves the lock table alone. */
  lemma LockRefused(l: Ledger, userId: string, candidateId: string, candidateName: string,
                    sessionId: string, id: string, now: int, releaseNow: int, serverNode: string, storeFault: bool)
    requires Locked(l.locks, userId, now)
    ensures var r := ProcessVoteStep(l, userId, candidateId, candidateName, sessionId, id, now, releaseNow, serverNode, storeFault);
      !r.ok && r.ledger.votes == l.votes && r.ledger.locks == l.locks
  {
  }

  /** A user with any record, whatever its status, is refused and nothing is stored. */
  lemma RepeatVoterRefused(l: Ledger, userId: string, candidateId: string, candidateName: string,
                           sessionId: string, id: string, now: int, releaseNow: int, serverNode: string, storeFault: bool)
    requires HasUserVoted(l.votes, userId)
    ensures var r := ProcessVoteStep(l, userId, candidateId, candidateName, sessionId, id, now, releaseNow, serverNode, storeFault);
      !r.ok && r.ledger.votes == l.votes
  {
  }

  /** A call succeeds exactly when the lock is free, the user has no record and
      the store does not fail; it then stores the CONFIRMED record under its id. */
  lemma SuccessRecord(l: Ledger, userId: string, candidateId: string, candidateName: string,
                      sessionId: string, id: string, now: int, releaseNow: int, serverNode: string, storeFault: bool)
    ensures var r := ProcessVoteStep(l, userId, candidateId, candidateName, sessionId, id, now, releaseNow, serverNode, storeFault);
      (r.ok <==> !Locked(l.locks, userId, now) && !HasUserVoted(l.votes, userId) && !storeFault) &&
      (r.ok ==>
        r.ledger.votes == l.votes[id := ConfirmedDoc(id, now, userId, candidateId, candidateName, sessionId, serverNode)]) &&
      (!r.ok ==> r.ledger.votes == l.votes)
  {
    var doc := NewDoc(id, now, userId, candidateId, candidateName, sessionId, serverNode);
    if !Locked(l.locks, userId, now) && !HasUserVoted(l.votes, userId) && !storeFault {
      assert !UserTaken(l.votes, doc);
      ResaveSucceeds(l.votes, doc, doc.(status := Confirmed));
    }
  }

  /** With a fresh id, a success adds exactly one record and a failure none. */
  lemma OneNewRecord(l: Ledger, userId: string, candidateId: string, candidateName: string,
                     sessionId: string, id: string, now: int, releaseNow: int, serverNode: string, storeFault: bool)
    requires id !in l.votes
    ensures var r := ProcessVoteStep(l, userId, candidateId, candidateName, sessionId, id, now, releaseNow, serverNode, storeFault);
      (r.ok ==> |r.ledger.votes| == |l.votes| + 1 && r.ledger.votes.Keys == l.votes.Keys + {id}) &&
      (!r.ok ==> r.ledger.votes == l.votes)
  {
    SuccessRecord(l, userId, candidateId, candidateName, sessionId, id, now, releaseNow, serverNode, storeFault);
  }

  /** Once the lock has been taken, a release within its 10 s frees it on
      every way out; when it was not taken the lock table is untouched. */
  lemma LockAlwaysReleased(l: Ledger, userId: string, candidateId: string, candidateName: string,
                           sessionId: string, id: string, now: int, releaseNow: int, serverNode: string, storeFault: bool)
    requires now <= releaseNow < now + LockTimeoutMs
    ensures var r := ProcessVoteStep(l, userId, candidateId, candidateName, sessionId, id, now, releaseNow, serverNode, storeFault);
      (!Locked(l.locks, userId, now) ==>
        r.ledger.locks == l.locks[LockKey(userId) := Stored(sessionId, now + LockTimeoutMs)]
                                 [SessionKey(userId) := Stored(sessionId, now + SessionTimeoutMs)]
                          - {LockKey(userId), SessionKey(userId)} &&
        !Locked(r.ledger.locks, userId, releaseNow)) &&
      (Locked(l.locks, userId, now) ==> r.ledger.locks == l.locks)
  {
    if !Locked(l.locks, userId, now) {
      LockThenRelease(l.locks, userId, sessionId, now, releaseNow);
    }
  }

  /** When the `finally` runs only after the lock's 10 s have passed, the
      release finds no live lock and fails: the grant's keys stay as they
      were, and the session key lives on until its 300 s are up. */
  lemma LateReleaseKeepsSession(l: Ledger, userId: string, candidateId: string, candidateName: string,
                                sessionId: string, id: string, now: int, releaseNow: int, serverNode: string,
                                storeFault: bool)
    requires !Locked(l.locks, userId, now)
    requires releaseNow >= now + LockTimeoutMs
    ensures var r := ProcessVoteStep(l, userId, candidateId, candidateName, sessionId, id, now, releaseNow, serverNode, storeFault);
      r.ledger.locks == l.locks[LockKey(userId) := Stored(sessionId, now + LockTimeoutMs)]
                               [SessionKey(userId) := Stored(sessionId, now + SessionTimeoutMs)] &&
      (releaseNow < now + SessionTimeoutMs <==> Live(r.ledger.locks, SessionKey(userId), releaseNow)) &&
      !Locked(r.ledger.locks, userId, releaseNow)
  {
    LateReleaseFails(l.locks, userId, sessionId, now, releaseNow);
  }

  /** A call keeps the unique index unique. */
  lemma StepKeepsUnique(l: Ledger, userId: string, candidateId: string, candidateName: string,
                        sessionId: string, id: string, now: int, releaseNow: int, serverNode: string, storeFault: bool)
    requires UniqueUsers(l.votes)
    ensures UniqueUsers(ProcessVoteStep(l, userId, candidateId, candidateName, sessionId, id, now, releaseNow,
                                        serverNode, storeFault).ledger.votes)
  {
    var doc := NewDoc(id, now, userId, candidateId, candidateName, sessionId, serverNode);
    var r := ProcessVoteStep(l, userId, candidateId, candidateName, sessionId, id, now, releaseNow, serverNode, storeFault);
    SuccessRecord(l, userId, candidateId, candidateName, sessionId, id, now, releaseNow, serverNode, storeFault);
    if r.ok {
      var confirmed := doc.(status := Confirmed);
      assert !UserTaken(l.votes, confirmed);
      SaveKeepsUnique(l.votes, confirmed);
    }
  }

  /** The arguments of one call. */
  datatype Request = Request(userId: string, candidateId: string, candidateName: string,
                             sessionId: string, id: string, now: int, releaseNow: int, serverNode: string,
                             storeFault: bool)

  /** A sequence of calls, one after another. */
  function Run(l: Ledger, reqs: seq<Request>): Ledger
    decreases |reqs|
  {
    if |reqs| == 0 then l
    else
      var q := reqs[0];
      Run(ProcessVoteStep(l, q.userId, q.candidateId, q.candidateName, q.sessionId, q.id, q.now, q.releaseNow,
                          q.serverNode, q.storeFault).ledger, reqs[1..])
  }

  /** Any sequence of calls keeps at most one record per user, and the
      counters balanced. */
  lemma {:induction false} RunKeepsUnique(l: Ledger, reqs: seq<Request>)
    requires UniqueUsers(l.votes) && Balanced(l)
    ensures UniqueUsers(Run(l, reqs).votes) && Balanced(Run(l, reqs))
    decreases |reqs|
  {
    if |reqs| > 0 {
      var q := reqs[0];
      StepKeepsUnique(l, q.userId, q.candidateId, q.candidateName, q.sessionId, q.id, q.now, q.releaseNow,
                      q.serverNode, q.storeFault);
      CountersStep(l, q.userId, q.candidateId, q.candidateName, q.sessionId, q.id, q.now, q.releaseNow,
                   q.serverNode, q.storeFault);
      RunKeepsUnique(ProcessVoteStep(l, q.userId, q.candidateId, q.candidateName, q.sessionId, q.id,
                                     q.now, q.releaseNow, q.serverNode, q.storeFault).ledger, reqs[1..]);
    }
  }

  /** From an empty store, every user has at most one record. */
  lemma FromEmptyUnique(locks: Store, reqs: seq<Request>)
    ensures UniqueUsers(Run(Ledger(locks, map[], 0, 0, 0), reqs).votes)
  {
    RunKeepsUnique(Ledger(locks, map[], 0, 0, 0), reqs);
  }

  // ------------------------------------------------------------------ tally

  /** The ids of the CONFIRMED records for a candidate id (null included). */
  function ConfirmedFor(votes: Collection, candidateId: Option<string>): set<string> {
    set k | k in votes && votes[k].status == Confirmed && votes[k].candidateId == candidateId
  }

  /** The ids of all CONFIRMED records. */
  function AllConfirmed(votes: Collection): set<string> {
    set k | k in votes && votes[k].status == Confirmed
  }

  /** Taking out a record that is not the candidate's CONFIRMED one. */
  lemma RemoveOther(rest: Collection, k: string, c: Option<string>)
    requires k in rest && !(rest[k].status == Confirmed && rest[k].candidateId == c)
    ensures ConfirmedFor(rest, c) == ConfirmedFor(rest - {k}, c)
  {
  }

  /** Taking out a CONFIRMED record of the candidate. */
  lemma RemoveCounted(rest: Collection, k: string, c: Option<string>)
    requires k in rest && rest[k].status == Confirmed && rest[k].candidateId == c
    ensures |ConfirmedFor(rest, c)| == |ConfirmedFor(rest - {k}, c)| + 1
  {
    assert ConfirmedFor(rest, c) == ConfirmedFor(rest - {k}, c) + {k};
  }

  /** Taking one record out of the collection, over all candidates. */
  lemma RemoveAll(rest: Collection, k: string)
    requires k in rest
    ensures |AllConfirmed(rest)| == |AllConfirmed(rest - {k})| + (if rest[k].status == Confirmed then 1 else 0)
  {
    if rest[k].status == Confirmed {
      assert AllConfirmed(rest) == AllConfirmed(rest - {k}) + {k};
    } else {
      assert AllConfirmed(rest) == AllConfirmed(rest - {k});
    }
  }

  /** The tally after looking at one more record. */
  function AddVote(results: map<Option<string>, int>, v: VoteDoc): map<Option<string>, int> {
    if v.status == Confirmed then results[v.candidateId := GetOrDefault(results, v.candidateId, 0) + 1]
    else results
  }

  /** What the tally loop keeps: `results` counts the records of `votes`
      that are no longer in `rest`. */
  ghost predicate TallyInv(votes: Collection, rest: Collection, results: map<Option<string>, int>) {
    (forall k :: k in rest ==> k in votes && rest[k] == votes[k]) &&
    (forall c :: GetOrDefault(results, c, 0) + |ConfirmedFor(rest, c)| == |ConfirmedFor(votes, c)|) &&
    (forall c :: c in results ==> results[c] > 0) &&
    MapSum(results) + |AllConfirmed(rest)| == |AllConfirmed(votes)|
  }

  /** One turn of the tally loop keeps its invariant. */
  lemma TallyStep(votes: Collection, rest: Collection, results: map<Option<string>, int>, k: string)
    requires k in rest && TallyInv(votes, rest, results)
    ensures TallyInv(votes, rest - {k}, AddVote(results, rest[k]))
  {
    var v := rest[k];
    var next := AddVote(results, v);
    forall c
      ensures GetOrDefault(next, c, 0) + |ConfirmedFor(rest - {k}, c)| == |ConfirmedFor(votes, c)|
    {
      if v.status == Confirmed && v.candidateId == c {
        RemoveCounted(rest, k, c);
      } else {
        RemoveOther(rest, k, c);
      }
    }
    RemoveAll(rest, k);
    if v.status == Confirmed {
      MapSumUpdate(results, v.candidateId, GetOrDefault(results, v.candidateId, 0) + 1);
    }
  }

  datatype VoteStats = VoteStats(totalVotes: int, successfulVotes: int, failedVotes: int)

  class VoteProcessingService {
    const lockService: DistributedLockService
    var votes: Collection
    var totalVotes: int
    var successfulVotes: int
    var failedVotes: int

    function State(): Ledger
      reads this, lockService
    {
      Ledger(lockService.store, votes, totalVotes, successfulVotes, failedVotes)
    }

    /** Counters balance and no user has two records. */
    ghost predicate Valid()
      reads this, lockService
    {
      Balanced(State()) && UniqueUsers(votes)
    }

    constructor (locks: DistributedLockService)
      ensures lockService == locks && votes == map[]
      ensures totalVotes == 0 && successfulVotes == 0 && failedVotes == 0
      ensures Valid()
    {
      lockService := locks;
      votes := map[];
      totalVotes := 0;
      successfulVotes := 0;
      failedVotes := 0;
    }

    method ProcessVote(userId: string, candidateId: string, candidateName: string, sessionId: string,
                       id: string, now: int, releaseNow: int, serverNode: string, storeFault: bool) returns (ok: bool)
      requires Valid()
      modifies this, lockService
      ensures Outcome(ok, State()) == ProcessVoteStep(old(State()), userId, candidateId, candidateName,
                                                      sessionId, id, now, releaseNow, serverNode, storeFault)
      ensures Valid()
    {
      ghost var before := State();
      StepKeepsUnique(before, userId, candidateId, candidateName, sessionId, id, now, releaseNow, serverNode, storeFault);
      CountersStep(before, userId, candidateId, candidateName, sessionId, id, now, releaseNow, serverNode, storeFault);
      SuccessRecord(before, userId, candidateId, candidateName, sessionId, id, now, releaseNow, serverNode, storeFault);
      totalVotes := totalVotes + 1;
      var acquired := lockService.TryLock(userId, sessionId, now);
      if !acquired {
        failedVotes := failedVotes + 1;
        return false;
      }
      ok := Record(userId, candidateId, candidateName, sessionId, id, now, serverNode, storeFault);
      var _ := lockService.ReleaseLock(userId, sessionId, releaseNow);
    }

    /** The part of `processVote` inside the lock, before the `finally`. */
    method Record(userId: string, candidateId: string, candidateName: string, sessionId: string,
                  id: string, now: int, serverNode: string, storeFault: bool) returns (ok: bool)
      modifies this
      ensures totalVotes == old(totalVotes)
      ensures ok <==> !HasUserVoted(old(votes), userId) && !storeFault
      ensures ok ==> (votes == old(votes)[id := ConfirmedDoc(id, now, userId, candidateId, candidateName,
                                                               sessionId, serverNode)] &&
                      successfulVotes == old(successfulVotes) + 1 && failedVotes == old(failedVotes))
      ensures !ok ==> (votes == old(votes) && failedVotes == old(failedVotes) + 1 &&
                       successfulVotes == old(successfulVotes))
    {
      if HasUserVoted(votes, userId) {
        failedVotes := failedVotes + 1;
        return false;
      }
      var vote := new Vote(id, now, userId, candidateId, candidateName);
      vote.SetSessionId(sessionId);
      vote.SetServerNode(serverNode);
      vote.SetStatus(Processing);
      if storeFault {
        failedVotes := failedVotes + 1;
        return false;
      }
      var doc := vote.Doc();
      assert doc == NewDoc(id, now, userId, candidateId, candidateName, sessionId, serverNode);
      assert !UserTaken(votes, doc);
      var processing := Save(votes, doc).value;
      vote.SetStatus(Confirmed);
      ResaveSucceeds(votes, doc, vote.Doc());
      votes := Save(processing, vote.Doc()).value;
      successfulVotes := successfulVotes + 1;
      return true;
    }

    /** `getVoteStats`: the three counters, which balance. */
    method GetVoteStats() returns (stats: VoteStats)
      requires Valid()
      ensures stats == VoteStats(totalVotes, successfulVotes, failedVotes)
      ensures stats.totalVotes == stats.successfulVotes + stats.failedVotes
    {
      stats := VoteStats(totalVotes, successfulVotes, failedVotes);
    }

    /** `getCandidateVoteCount`: the number of CONFIRMED records for the id. */
    method GetCandidateVoteCount(candidateId: string) returns (count: nat)
      ensures count == |ConfirmedFor(votes, Some(candidateId))|
    {
      count := |ConfirmedFor(votes, Some(candidateId))|;
    }

    /** `getAllCandidateVoteCounts`: CONFIRMED records grouped by candidate id. */
    method GetAllCandidateVoteCounts() returns (results: map<Option<string>, int>)
      ensures forall c :: GetOrDefault(results, c, 0) == |ConfirmedFor(votes, c)|
      ensures forall c :: c in results ==> results[c] > 0
      ensures MapSum(results) == |AllConfirmed(votes)|
    {
      results := map[];
      var rest := votes;
      while rest != map[]
        invariant TallyInv(votes, rest, results)
        decreases |rest|
      {
        var k :| k in rest;
        var vote := rest[k];
        TallyStep(votes, rest, results, k);
        if vote.status == Confirmed {
          var candidateId := vote.candidateId;
          results := results[candidateId := GetOrDefault(results, candidateId, 0) + 1];
        }
        assert (rest - {k}).Keys == rest.Keys - {k};
        rest := rest - {k};
      }
    }
  }
}
