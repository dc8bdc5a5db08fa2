/**
 * The single-node vote server: the hand-written request-field extractors,
 * the vote handler with its per-user lock, its two maps and its three
 * counters, and the results and statistics handlers that write flat JSON.
 */
module VoteServer {
  import opened Base
  import opened JavaText
  import opened JsonResults

  const CandidateIds: seq<string> := ["1", "2", "3"]
  const CandidateNames: seq<string> := ["Alice", "Bob", "Charlie"]

  // ------------------------------------------------------- field extraction

  const UserIdProbe: string := "\"userId\":"
  const UserIdMarker: string := "\"userId\":\""
  const CandidateIdProbe: string := "\"candidateId\":"
  const CandidateIdMarker: string := "\"candidateId\":\""
  const CandidateNameProbe: string := "\"candidateName\":"
  const CandidateNameMarker: string := "\"candidateName\":\""

  /** `v` is the non-empty, quote-free text that starts right after the first
      occurrence of `marker` in `body` and is closed by a quote. */
  predicate FollowsFirst(body: string, marker: string, v: string) {
    var k := IndexOf(body, marker);
    k >= 0 && QuotedAt(body, v, k + |marker|)
  }

  /** `v` is non-empty, quote-free, and written at `start` followed by a quote. */
  predicate QuotedAt(body: string, v: string, start: int) {
    |v| > 0 && '"' !in v && OccursAt(body, v + "\"", start)
  }

  /** The shape shared by the three `extract*` methods: when `body` contains
      `probe`, take the text from `offset` characters past the first
      `marker` up to the next quote, provided the marker was found (the
      start exceeds `guard`) and the text is not empty; null otherwise. */
  function Extract(body: string, probe: string, marker: string, offset: int, guard: int): Option<string>
    requires 0 <= guard
  {
    if !Contains(body, probe) then None
    else
      var start := IndexOf(body, marker) + offset;
      var end := IndexOfFrom(body, "\"", start);
      if start > guard && end > start then Some(body[start..end]) else None
  }

  /** The first quote at or after `start` closes a quote-free `v`. */
  lemma NextQuote(body: string, start: int, v: string)
    requires 0 <= start && '"' !in v && OccursAt(body, v + "\"", start)
    ensures IndexOfFrom(body, "\"", start) == start + |v|
  {
    var e := IndexOfFrom(body, "\"", start);
    assert body[start + |v|] == (v + "\"")[|v|];
    OccursChar(body, '"', start + |v|);
    forall k | start <= k < start + |v|
      ensures !OccursAt(body, "\"", k)
    {
      OccursChar(body, '"', k);
      assert body[k] == (v + "\"")[k - start];
    }
  }

  /** The text up to the first quote at or after `start` is quote-free and
      closed by that quote. */
  lemma UpToNextQuote(body: string, start: int, end: int)
    requires end == IndexOfFrom(body, "\"", start) && 0 <= start < end
    ensures QuotedAt(body, body[start..end], start)
  {
    var w := body[start..end];
    forall i | 0 <= i < |w|
      ensures w[i] != '"'
    {
      OccursChar(body, '"', start + i);
    }
    OccursChar(body, '"', end);
    assert body[start..end + 1] == w + "\"";
  }

  /** The shape once the probe, the marker and a closing quote after a
      non-empty text are located. */
  lemma ExtractFound(body: string, probe: string, marker: string, offset: int, guard: int, k: int, end: int)
    requires 0 <= guard < offset && Contains(body, probe)
    requires k == IndexOf(body, marker) && 0 <= k
    requires end == IndexOfFrom(body, "\"", k + offset) && k + offset < end
    ensures Extract(body, probe, marker, offset, guard) == Some(body[k + offset..end])
  {
  }

  /** A body with the marker contains the probe the marker starts with. */
  lemma ProbeFound(body: string, probe: string, marker: string)
    requires marker == probe + "\"" && IndexOf(body, marker) >= 0
    ensures Contains(body, probe)
  {
    OccursPrefix(body, probe, "\"", IndexOf(body, marker));
  }

  /** Without the marker the shape gives null: the start lands on the guard. */
  lemma ExtractNoMarker(body: string, probe: string, marker: string, offset: int, guard: int)
    requires 0 <= guard == offset - 1
    requires IndexOf(body, marker) < 0
    ensures Extract(body, probe, marker, offset, guard) == None
  {
  }

  /** With the quote right at the start the shape gives null. */
  lemma ExtractNoValue(body: string, probe: string, marker: string, offset: int, guard: int, start: int)
    requires 0 <= guard
    requires start == IndexOf(body, marker) + offset
    requires IndexOfFrom(body, "\"", start) <= start
    ensures Extract(body, probe, marker, offset, guard) == None
  {
  }

  /** A value that follows the first marker is what the shape extracts. */
  lemma ExtractFollowing(body: string, probe: string, marker: string, offset: int, guard: int, v: string)
    requires 0 <= guard < offset == |marker| && Contains(body, probe)
    requires FollowsFirst(body, marker, v)
    ensures Extract(body, probe, marker, offset, guard) == Some(v)
  {
    var k := IndexOf(body, marker);
    var start := k + offset;
    NextQuote(body, start, v);
    ExtractFound(body, probe, marker, offset, guard, k, start + |v|);
    assert body[start..start + |v|] == (v + "\"")[..|v|] == v;
  }

  /** What the extractor shape computes, given the offset and guard that
      belong to its marker. */
  lemma ExtractMeaning(body: string, probe: string, marker: string, offset: int, guard: int)
    requires marker == probe + "\"" && offset == |marker| && guard == offset - 1 && 0 <= guard
    ensures forall v :: FollowsFirst(body, marker, v) <==> Extract(body, probe, marker, offset, guard) == Some(v)
  {
    var k := IndexOf(body, marker);
    if k < 0 {
      ExtractNoMarker(body, probe, marker, offset, guard);
    } else {
      ProbeFound(body, probe, marker);
      forall v | FollowsFirst(body, marker, v)
        ensures Extract(body, probe, marker, offset, guard) == Some(v)
      {
        ExtractFollowing(body, probe, marker, offset, guard, v);
      }
      var end := IndexOfFrom(body, "\"", k + offset);
      if end <= k + offset {
        ExtractNoValue(body, probe, marker, offset, guard, k + offset);
      } else {
        ExtractFound(body, probe, marker, offset, guard, k, end);
        UpToNextQuote(body, k + offset, end);
      }
    }
  }

  /** `extractUserId`: the user id, when the body carries a non-empty one. */
  function ExtractUserId(body: string): (r: Option<string>)
    ensures forall v :: FollowsFirst(body, UserIdMarker, v) <==> r == Some(v)
  {
    ExtractMeaning(body, UserIdProbe, UserIdMarker, 10, 9);
    Extract(body, UserIdProbe, UserIdMarker, 10, 9)
  }

  /** `extractCandidateId`. */
  function ExtractCandidateId(body: string): (r: Option<string>)
    ensures forall v :: FollowsFirst(body, CandidateIdMarker, v) <==> r == Some(v)
  {
    ExtractMeaning(body, CandidateIdProbe, CandidateIdMarker, 15, 14);
    Extract(body, CandidateIdProbe, CandidateIdMarker, 15, 14)
  }

  /** `extractCandidateName`. */
  function ExtractCandidateName(body: string): (r: Option<string>)
    ensures forall v :: FollowsFirst(body, CandidateNameMarker, v) <==> r == Some(v)
  {
    ExtractMeaning(body, CandidateNameProbe, CandidateNameMarker, 17, 16);
    Extract(body, CandidateNameProbe, CandidateNameMarker, 17, 16)
  }

  // -------------------------------------------------------------- handlers

  /** The status code and text `sendResponse` writes. */
  datatype Response = Response(status: int, message: string)

  const MethodNotAllowed := Response(405, "Method Not Allowed")
  const InvalidRequest := Response(400, "Invalid request data")
  const AlreadyVoted := Response(400, "User already voted")
  const BeingProcessed := Response(429, "User is being processed")
  const VoteSuccessful := Response(200, "Vote successful")
  const InternalError := Response(500, "Internal server error")

  /**
   * Everything the vote handler reads or writes. `userLocks` maps each user
   * that has reached the lock step to whether their `ReentrantLock` is
   * currently held by another request.
   */
  datatype ServerState = ServerState(
    voteCounts: map<string, int>,
    userVotes: map<string, string>,
    userLocks: map<string, bool>,
    totalRequests: nat,
    successfulVotes: nat,
    failedVotes: nat)

  datatype Handled = Handled(state: ServerState, response: Response)

  /** The counts after the first `i` rounds of `main`'s initialisation loop. */
  function InitialCounts(i: nat): map<string, int>
    requires i <= |CandidateIds|
  {
    if i == 0 then map[] else InitialCounts(i - 1)[CandidateIds[i - 1] := 0]
  }

  /** The state `main` sets up: every candidate at 0 votes. */
  function InitialState(): ServerState {
    ServerState(map["1" := 0, "2" := 0, "3" := 0], map[], map[], 0, 0, 0)
  }

  /** One request to `VoteHandler.handle`, run to completion, given the
      method and the user id and candidate id the extractors read from the
      body. */
  function VoteStep(s: ServerState, httpMethod: string, userId: Option<string>, candidateId: Option<string>): Handled {
    var counted := s.(totalRequests := s.totalRequests + 1);
    var failed := counted.(failedVotes := s.failedVotes + 1);
    if httpMethod != "POST" then Handled(counted, MethodNotAllowed)
    else
      if userId.None? || candidateId.None? then Handled(failed, InvalidRequest)
      else
        var u, c := userId.value, candidateId.value;
        // computeIfAbsent creates a free lock; tryLock fails while it is held
        if GetOrDefault(s.userLocks, u, false) then Handled(failed, BeingProcessed)
        else
          // the finally block leaves the lock free again
          var locked := failed.(userLocks := s.userLocks[u := false]);
          if u in s.userVotes then Handled(locked, AlreadyVoted)
          else if c !in s.voteCounts then
            // voteCounts.get(candidateId) is null and unboxing it throws
            Handled(locked.(userVotes := s.userVotes[u := c]), InternalError)
          else
            Handled(ServerState(s.voteCounts[c := s.voteCounts[c] + 1], s.userVotes[u := c],
                                s.userLocks[u := false], s.totalRequests + 1,
                                s.successfulVotes + 1, s.failedVotes),
                    VoteSuccessful)
  }

  // ------------------------------------------------- tallies and voters

  /** The users whose recorded vote is for `c`. */
  ghost function Voters(userVotes: map<string, string>, c: string): set<string> {
    set u | u in userVotes && userVotes[u] == c
  }

  /** The users whose recorded vote is for one of the candidates. */
  ghost function KnownVoters(userVotes: map<string, string>): set<string> {
    set u | u in userVotes && userVotes[u] in CandidateIds
  }

  /** Every recorded vote is for one of the candidates. */
  ghost predicate AllKnown(userVotes: map<string, string>) {
    forall u :: u in userVotes ==> userVotes[u] in CandidateIds
  }

  /** The tallies agree with the recorded votes: each candidate's count is
      the number of users who voted for them, the counts add up to the
      successful votes, and no request was counted as both or neither. */
  ghost predicate Consistent(s: ServerState) {
    s.voteCounts.Keys == (set c | c in CandidateIds) &&
    (forall c :: c in s.voteCounts ==> s.voteCounts[c] == |Voters(s.userVotes, c)|) &&
    MapSum(s.voteCounts) == s.successfulVotes &&
    |KnownVoters(s.userVotes)| == s.successfulVotes &&
    s.successfulVotes + s.failedVotes <= s.totalRequests
  }

  lemma VotersAdd(userVotes: map<string, string>, u: string, c: string, d: string)
    requires u !in userVotes
    ensures |Voters(userVotes[u := c], d)| == |Voters(userVotes, d)| + (if d == c then 1 else 0)
  {
    if d == c {
      assert Voters(userVotes[u := c], d) == Voters(userVotes, d) + {u};
    } else {
      assert Voters(userVotes[u := c], d) == Voters(userVotes, d);
    }
  }

  lemma KnownVotersAdd(userVotes: map<string, string>, u: string, c: string)
    requires u !in userVotes
    ensures |KnownVoters(userVotes[u := c])| == |KnownVoters(userVotes)| + (if c in CandidateIds then 1 else 0)
  {
    if c in CandidateIds {
      assert KnownVoters(userVotes[u := c]) == KnownVoters(userVotes) + {u};
    } else {
      assert KnownVoters(userVotes[u := c]) == KnownVoters(userVotes);
    }
  }

  lemma InitialConsistent()
    ensures Consistent(InitialState())
  {
    var m := InitialState().voteCounts;
    MapSumUpdate(map[], "1", 0);
    MapSumUpdate(map["1" := 0], "2", 0);
    MapSumUpdate(map["1" := 0, "2" := 0], "3", 0);
    assert m.Keys == (set c | c in CandidateIds);
    forall c | c in m
      ensures m[c] == |Voters(map[], c)|
    {
      assert Voters(map[], c) == {};
    }
    assert KnownVoters(map[]) == {};
  }

  /** Every request keeps the tallies consistent with the recorded votes. */
  lemma VoteStepConsistent(s: ServerState, httpMethod: string, userId: Option<string>, candidateId: Option<string>)
    requires Consistent(s)
    ensures Consistent(VoteStep(s, httpMethod, userId, candidateId).state)
  {
    if httpMethod == "POST" && userId.Some? && candidateId.Some? &&
       !GetOrDefault(s.userLocks, userId.value, false) && userId.value !in s.userVotes {
      var u, c := userId.value, candidateId.value;
      if c in s.voteCounts {
        RecordConsistent(s, u, c);
      } else {
        UnknownConsistent(s, u, c);
      }
    }
  }

  /** A recorded first vote keeps the tallies consistent. */
  lemma RecordConsistent(s: ServerState, u: string, c: string)
    requires Consistent(s) && !GetOrDefault(s.userLocks, u, false)
    requires u !in s.userVotes && c in s.voteCounts
    ensures Consistent(VoteStep(s, "POST", Some(u), Some(c)).state)
  {
    var t := VoteStep(s, "POST", Some(u), Some(c)).state;
    assert t.userVotes == s.userVotes[u := c];
    assert t.voteCounts == s.voteCounts[c := s.voteCounts[c] + 1];
    KnownVotersAdd(s.userVotes, u, c);
    forall d | d in t.voteCounts
      ensures t.voteCounts[d] == |Voters(t.userVotes, d)|
    {
      VotersAdd(s.userVotes, u, c, d);
    }
    MapSumUpdate(s.voteCounts, c, s.voteCounts[c] + 1);
  }

  /** A first vote for an id without a count leaves the tallies consistent:
      the new entry in `userVotes` is for no candidate. */
  lemma UnknownConsistent(s: ServerState, u: string, c: string)
    requires Consistent(s) && !GetOrDefault(s.userLocks, u, false)
    requires u !in s.userVotes && c !in s.voteCounts
    ensures Consistent(VoteStep(s, "POST", Some(u), Some(c)).state)
  {
    var t := VoteStep(s, "POST", Some(u), Some(c)).state;
    assert t.userVotes == s.userVotes[u := c];
    assert t.voteCounts == s.voteCounts;
    assert c !in CandidateIds;
    KnownVotersAdd(s.userVotes, u, c);
    forall d | d in t.voteCounts
      ensures t.voteCounts[d] == |Voters(t.userVotes, d)|
    {
      VotersAdd(s.userVotes, u, c, d);
    }
  }

  /** Every request is counted, and every POST is counted as exactly one
      success or one failure; anything but POST only bumps the request
      counter and answers 405. */
  lemma VoteStepCounters(s: ServerState, httpMethod: string, userId: Option<string>, candidateId: Option<string>)
    ensures VoteStep(s, httpMethod, userId, candidateId).state.totalRequests == s.totalRequests + 1
    ensures httpMethod != "POST" ==>
      VoteStep(s, httpMethod, userId, candidateId) == Handled(s.(totalRequests := s.totalRequests + 1), MethodNotAllowed)
    ensures httpMethod == "POST" ==>
      var t := VoteStep(s, httpMethod, userId, candidateId).state;
      t.successfulVotes + t.failedVotes == s.successfulVotes + s.failedVotes + 1
  {
  }

  /** A body without a user id or candidate id is refused with 400 and
      records nothing. */
  lemma InvalidBodyRejected(s: ServerState, userId: Option<string>, candidateId: Option<string>)
    requires userId.None? || candidateId.None?
    ensures VoteStep(s, "POST", userId, candidateId) ==
      Handled(s.(totalRequests := s.totalRequests + 1, failedVotes := s.failedVotes + 1), InvalidRequest)
  {
  }

  /** While another request holds the user's lock the answer is 429 and
      nothing is recorded. */
  lemma HeldLockRejected(s: ServerState, u: string, c: string)
    requires GetOrDefault(s.userLocks, u, false)
    ensures VoteStep(s, "POST", Some(u), Some(c)) ==
      Handled(s.(totalRequests := s.totalRequests + 1, failedVotes := s.failedVotes + 1), BeingProcessed)
  {
  }

  /** A user who already has a recorded vote is refused with 400; the vote
      maps are untouched and the user's lock ends up free. */
  lemma RepeatVoteRejected(s: ServerState, u: string, c: string)
    requires !GetOrDefault(s.userLocks, u, false)
    requires u in s.userVotes
    ensures var t := VoteStep(s, "POST", Some(u), Some(c));
      t.response == AlreadyVoted &&
      t.state.userVotes == s.userVotes && t.state.voteCounts == s.voteCounts &&
      t.state.userLocks == s.userLocks[u := false] &&
      t.state.failedVotes == s.failedVotes + 1 && t.state.successfulVotes == s.successfulVotes
  {
  }

  /** A first vote for a known candidate is recorded, raises that
      candidate's count by one and no other count, and answers 200. */
  lemma NewVoteRecorded(s: ServerState, u: string, c: string)
    requires !GetOrDefault(s.userLocks, u, false)
    requires u !in s.userVotes
    requires c in s.voteCounts
    ensures var t := VoteStep(s, "POST", Some(u), Some(c));
      t.response == VoteSuccessful &&
      t.state.userVotes == s.userVotes[u := c] &&
      t.state.voteCounts.Keys == s.voteCounts.Keys &&
      t.state.voteCounts[c] == s.voteCounts[c] + 1 &&
      (forall d :: d in s.voteCounts && d != c ==> t.state.voteCounts[d] == s.voteCounts[d]) &&
      t.state.userLocks == s.userLocks[u := false] &&
      t.state.successfulVotes == s.successfulVotes + 1 && t.state.failedVotes == s.failedVotes
  {
  }

  /** A first vote for an id that has no count is written to `userVotes`
      before the count update throws: the answer is 500, it counts as a
      failure, and the user can never vote again. */
  lemma UnknownCandidateFails(s: ServerState, u: string, c: string)
    requires !GetOrDefault(s.userLocks, u, false)
    requires u !in s.userVotes
    requires c !in s.voteCounts
    ensures var t := VoteStep(s, "POST", Some(u), Some(c));
      t.response == InternalError &&
      t.state.userVotes == s.userVotes[u := c] && t.state.voteCounts == s.voteCounts &&
      t.state.failedVotes == s.failedVotes + 1 && t.state.successfulVotes == s.successfulVotes &&
      forall c' :: VoteStep(t.state, "POST", Some(u), Some(c')).response == AlreadyVoted
  {
  }

  /** As long as only candidate ids are submitted, every recorded vote is
      for a candidate. */
  lemma VoteStepAllKnown(s: ServerState, httpMethod: string, userId: Option<string>, candidateId: Option<string>)
    requires AllKnown(s.userVotes)
    requires candidateId.Some? ==> candidateId.value in CandidateIds
    ensures AllKnown(VoteStep(s, httpMethod, userId, candidateId).state.userVotes)
  {
  }

  /** With only candidate ids submitted, the tally, the successful-vote
      counter and the number of voters agree. */
  lemma CountsAgree(s: ServerState)
    requires Consistent(s) && AllKnown(s.userVotes)
    ensures MapSum(s.voteCounts) == s.successfulVotes == |s.userVotes|
  {
    assert KnownVoters(s.userVotes) == s.userVotes.Keys;
  }

  // ------------------------------------------------------------ JSON out

  /** The entries the results handler writes, in candidate order. */
  function ResultsEntries(voteCounts: map<string, int>): (es: seq<Entry>)
    ensures |es| == |CandidateIds|
    ensures forall i :: 0 <= i < |es| ==>
      es[i] == Entry(CandidateIds[i], GetOrDefault(voteCounts, CandidateIds[i], 0))
  {
    [Entry("1", GetOrDefault(voteCounts, "1", 0)), Entry("2", GetOrDefault(voteCounts, "2", 0)),
     Entry("3", GetOrDefault(voteCounts, "3", 0))]
  }

  /** The entries the statistics handler writes, in order. */
  function StatsEntries(s: ServerState): seq<Entry> {
    [Entry("totalRequests", s.totalRequests), Entry("successfulVotes", s.successfulVotes),
     Entry("failedVotes", s.failedVotes), Entry("totalVoters", |s.userVotes|),
     Entry("activeLocks", |s.userLocks|)]
  }

  /** The single-node server. */
  class SimpleVoteServer {
    var voteCounts: map<string, int>
    var userVotes: map<string, string>
    var userLocks: map<string, bool>
    var totalRequests: nat
    var successfulVotes: nat
    var failedVotes: nat

    function State(): ServerState
      reads this
    {
      ServerState(voteCounts, userVotes, userLocks, totalRequests, successfulVotes, failedVotes)
    }

    /** `main`'s initialisation loop over the candidate ids. */
    constructor ()
      ensures State() == InitialState()
    {
      voteCounts := map[];
      userVotes := map[];
      userLocks := map[];
      totalRequests := 0;
      successfulVotes := 0;
      failedVotes := 0;
      new;
      var i := 0;
      while i < |CandidateIds|
        invariant 0 <= i <= |CandidateIds|
        invariant voteCounts == InitialCounts(i)
        invariant State() == InitialState().(voteCounts := voteCounts)
      {
        voteCounts := voteCounts[CandidateIds[i] := 0];
        i := i + 1;
      }
      assert InitialCounts(3) == map["1" := 0, "2" := 0, "3" := 0];
    }

    /** Another request for `u` is inside its critical section. */
    method LockHeldElsewhere(u: string)
      modifies this
      ensures State() == old(State()).(userLocks := old(userLocks)[u := true])
    {
      userLocks := userLocks[u := true];
    }

    /** `VoteHandler.handle`: a POST body is read by the three extractors
        (the candidate name only goes to the log) and then processed. */
    method HandleVote(httpMethod: string, body: string) returns (resp: Response)
      modifies this
      ensures State() == VoteStep(old(State()), httpMethod, ExtractUserId(body), ExtractCandidateId(body)).state
      ensures resp == VoteStep(old(State()), httpMethod, ExtractUserId(body), ExtractCandidateId(body)).response
    {
      var userId: Option<string> := None;
      var candidateId: Option<string> := None;
      if httpMethod == "POST" {
        userId := ExtractUserId(body);
        candidateId := ExtractCandidateId(body);
        var candidateName := ExtractCandidateName(body);
      }
      resp := Process(httpMethod, userId, candidateId);
    }

    /** The vote handler once the fields are extracted. */
    method Process(httpMethod: string, userId: Option<string>, candidateId: Option<string>) returns (resp: Response)
      modifies this
      ensures State() == VoteStep(old(State()), httpMethod, userId, candidateId).state
      ensures resp == VoteStep(old(State()), httpMethod, userId, candidateId).response
    {
      totalRequests := totalRequests + 1;
      if httpMethod != "POST" {
        return MethodNotAllowed;
      }
      if userId.None? || candidateId.None? {
        failedVotes := failedVotes + 1;
        return InvalidRequest;
      }
      var u, c := userId.value, candidateId.value;
      if u !in userLocks {
        userLocks := userLocks[u := false];
      }
      if userLocks[u] {
        failedVotes := failedVotes + 1;
        return BeingProcessed;
      }
      // tryLock succeeded; the finally block unlocks on every path below
      if u in userVotes {
        failedVotes := failedVotes + 1;
        return AlreadyVoted;
      }
      userVotes := userVotes[u := c];
      if c !in voteCounts {
        failedVotes := failedVotes + 1;
        return InternalError;
      }
      voteCounts := voteCounts[c := voteCounts[c] + 1];
      successfulVotes := successfulVotes + 1;
      resp := VoteSuccessful;
    }

    /** `ResultsHandler.handle`: the vote counts as a JSON object keyed by
        candidate id, in candidate order. */
    method HandleResults(httpMethod: string) returns (resp: Response)
      ensures httpMethod != "GET" ==> resp == MethodNotAllowed
      ensures httpMethod == "GET" ==> resp == Response(200, JsonObject(ResultsEntries(voteCounts)))
    {
      if httpMethod != "GET" {
        return MethodNotAllowed;
      }
      ghost var es := ResultsEntries(voteCounts);
      var json := "{";
      var i := 0;
      while i < |CandidateIds|
        invariant 0 <= i <= |CandidateIds|
        invariant json == "{" + Join(Pieces(es[..i]), ',')
      {
        if i > 0 {
          json := json + ",";
        }
        var member := "\"" + CandidateIds[i] + "\":" + IntToString(GetOrDefault(voteCounts, CandidateIds[i], 0));
        assert member == JsonEntry(es[i]);
        PiecesSnoc(es, i);
        if i > 0 {
          ObjectSnoc(Pieces(es[..i]), member);
        } else {
          assert Pieces(es[..1]) == [member];
        }
        json := json + member;
        i := i + 1;
      }
      assert es[..i] == es;
      json := json + "}";
      resp := Response(200, json);
    }

    /** `StatsHandler.handle`: the three counters, the number of voters and
        the number of user locks ever created, as a JSON object. */
    method HandleStats(httpMethod: string) returns (resp: Response)
      ensures httpMethod != "GET" ==> resp == MethodNotAllowed
      ensures httpMethod == "GET" ==> resp == Response(200, JsonObject(StatsEntries(State())))
    {
      if httpMethod != "GET" {
        return MethodNotAllowed;
      }
      ghost var es := StatsEntries(State());
      // each member is written as `"name":value`
      var m0 := JsonEntry(Entry("totalRequests", totalRequests));
      var m1 := JsonEntry(Entry("successfulVotes", successfulVotes));
      var m2 := JsonEntry(Entry("failedVotes", failedVotes));
      var m3 := JsonEntry(Entry("totalVoters", |userVotes|));
      var m4 := JsonEntry(Entry("activeLocks", |userLocks|));
      JsonObjectFive(es);
      var json := "{" + m0 + "," + m1 + "," + m2 + "," + m3 + "," + m4;
      json := json + "}";
      resp := Response(200, json);
    }
  }
}
