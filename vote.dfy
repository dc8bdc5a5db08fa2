/**
 * The persisted vote record. `Vote` is the mutable Java bean the ledger
 * pipeline fills in and saves; `VoteDoc` is the value a save copies into
 * the document store. Nullable Java strings are `Option<string>`; the
 * random id and the creation time, which the bean draws from a UUID
 * generator and the clock, are constructor parameters.
 */
module VoteRecord {
  import opened Base

  /** The four states of a vote, in the order they are declared. */
  datatype VoteStatus = Pending | Processing | Confirmed | Rejected

  /** A stored copy of a vote. */
  datatype VoteDoc = VoteDoc(
    id: string,
    userId: Option<string>,
    candidateId: Option<string>,
    candidateName: Option<string>,
    voteTime: int,
    serverNode: Option<string>,
    sessionId: Option<string>,
    status: VoteStatus)

  /** The values of the status enum, in declaration order. */
  const AllStatuses: seq<VoteStatus> := [Pending, Processing, Confirmed, Rejected]

  /** There are exactly four statuses and each appears once. */
  lemma StatusesComplete(s: VoteStatus)
    ensures s in AllStatuses
    ensures |AllStatuses| == 4
    ensures forall i, j :: 0 <= i < j < |AllStatuses| ==> AllStatuses[i] != AllStatuses[j]
  {
  }

  class Vote {
    var id: string
    var userId: Option<string>
    var candidateId: Option<string>
    var candidateName: Option<string>
    var voteTime: int
    var serverNode: Option<string>
    var sessionId: Option<string>
    var status: VoteStatus

    /** The no-argument constructor: a fresh id and time, status PENDING,
        every other field null. */
    constructor Empty(newId: string, now: int)
      ensures id == newId && voteTime == now && status == Pending
      ensures userId == None && candidateId == None && candidateName == None
      ensures serverNode == None && sessionId == None
    {
      id := newId;
      voteTime := now;
      status := Pending;
      userId := None;
      candidateId := None;
      candidateName := None;
      serverNode := None;
      sessionId := None;
    }

    /** The three-argument constructor: the no-argument one, then the user,
        candidate id and candidate name. */
    constructor (newId: string, now: int, user: string, candidate: string, name: string)
      ensures id == newId && voteTime == now && status == Pending
      ensures userId == Some(user) && candidateId == Some(candidate) && candidateName == Some(name)
      ensures serverNode == None && sessionId == None
    {
      id := newId;
      voteTime := now;
      status := Pending;
      serverNode := None;
      sessionId := None;
      userId := Some(user);
      candidateId := Some(candidate);
      candidateName := Some(name);
    }

    /** The fields as a stored document. */
    function Doc(): (d: VoteDoc)
      reads this
      ensures d.id == id && d.userId == userId && d.status == status
    {
      VoteDoc(id, userId, candidateId, candidateName, voteTime, serverNode, sessionId, status)
    }

    method SetStatus(s: VoteStatus)
      modifies this
      ensures Doc() == old(Doc()).(status := s)
    {
      status := s;
    }

    method SetSessionId(s: string)
      modifies this
      ensures Doc() == old(Doc()).(sessionId := Some(s))
    {
      sessionId := Some(s);
    }

    method SetServerNode(node: string)
      modifies this
      ensures Doc() == old(Doc()).(serverNode := Some(node))
    {
      serverNode := Some(node);
    }
  }

  /** The documents of the votes collection, by id. */
  type Collection = map<string, VoteDoc>

  /** The unique index on `userId`: no two documents share a user. */
  ghost predicate UniqueUsers(votes: Collection) {
    forall a, b :: a in votes && b in votes && votes[a].userId == votes[b].userId ==> a == b
  }

  /** Some other document already holds this user. */
  predicate UserTaken(votes: Collection, d: VoteDoc) {
    exists k :: k in votes && k != d.id && votes[k].userId == d.userId
  }

  /** `save` with the unique index: it replaces the document with the same
      id, or inserts; a second document for a user fails with a duplicate
      key error (`None`). */
  function Save(votes: Collection, d: VoteDoc): (r: Option<Collection>)
    ensures r.None? <==> UserTaken(votes, d)
    ensures r.Some? ==> r.value == votes[d.id := d]
  {
    if UserTaken(votes, d) then None else Some(votes[d.id := d])
  }

  /** A save that succeeds keeps the index unique. */
  lemma SaveKeepsUnique(votes: Collection, d: VoteDoc)
    requires UniqueUsers(votes)
    requires Save(votes, d).Some?
    ensures UniqueUsers(Save(votes, d).value)
  {
    var v := Save(votes, d).value;
    forall a, b | a in v && b in v && v[a].userId == v[b].userId
      ensures a == b
    {
      if a != d.id && b != d.id {
        assert votes[a].userId == votes[b].userId;
      }
    }
  }

  /** Re-saving a document under its own id never trips the index. */
  lemma ResaveSucceeds(votes: Collection, d: VoteDoc, d2: VoteDoc)
    requires Save(votes, d).Some?
    requires d2.id == d.id && d2.userId == d.userId
    ensures Save(Save(votes, d).value, d2) == Some(votes[d.id := d2])
  {
    var v := Save(votes, d).value;
    assert v[d.id := d2] == votes[d.id := d2];
  }
}
