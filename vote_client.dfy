/**
 * The Swing vote client, without its window: the JSON body it posts, the
 * node it picks for each request, and what it shows from the results and
 * statistics it reads back with `parseJsonResults`.
 */
module VoteClient {
  import opened Base
  import opened JavaText
  import opened JsonResults
  import opened VoteServer

  // ------------------------------------------------------------ vote body

  const BodyStart: string := "{\"userId\":\""
  const AfterUser: string := "\",\"candidateId\":\""
  const AfterCandidate: string := "\",\"candidateName\":\""
  const BodyEnd: string := "\"}"

  /** The `String.format` body of `sendVoteToServer`. */
  function VoteBody(userId: string, candidateId: string, candidateName: string): string {
    BodyStart + userId + AfterUser + candidateId + AfterCandidate + candidateName + BodyEnd
  }

  /** A field the server's extractors can read back: not empty, no quote. */
  predicate PlainField(v: string) {
    |v| > 0 && '"' !in v
  }

  /** Where each part of a body `b` with fields `u`, `c`, `n` stands. */
  ghost predicate Layout(b: string, u: string, c: string, n: string) {
    |b| == 49 + |u| + |c| + |n| &&
    b[..11] == BodyStart && b[11..11 + |u|] == u && b[11 + |u|..28 + |u|] == AfterUser &&
    b[28 + |u|..28 + |u| + |c|] == c && b[28 + |u| + |c|..47 + |u| + |c|] == AfterCandidate &&
    b[47 + |u| + |c|..47 + |u| + |c| + |n|] == n && b[47 + |u| + |c| + |n|..] == BodyEnd
  }

  lemma BodyLayout(u: string, c: string, n: string)
    ensures Layout(VoteBody(u, c, n), u, c, n)
  {
    var b := VoteBody(u, c, n);
    var x1 := BodyStart + u;
    var x2 := x1 + AfterUser;
    var x3 := x2 + c;
    var x4 := x3 + AfterCandidate;
    var x5 := x4 + n;
    assert b == x5 + BodyEnd;
    assert b[..|x5|] == x5 && b[|x5|..] == BodyEnd;
    assert x5[..|x4|] == x4 && x5[|x4|..] == n;
    assert x4[..|x3|] == x3 && x4[|x3|..] == AfterCandidate;
    assert x3[..|x2|] == x2 && x3[|x2|..] == c;
    assert x2[..|x1|] == x1 && x2[|x1|..] == AfterUser;
    assert x1[..11] == BodyStart && x1[11..] == u;
    assert b[..11] == BodyStart by { assert b[..11] == x5[..|x4|][..|x3|][..|x2|][..|x1|][..11]; }
    assert b[11..11 + |u|] == u by { assert b[11..11 + |u|] == x5[..|x4|][..|x3|][..|x2|][..|x1|][11..]; }
    assert b[11 + |u|..28 + |u|] == AfterUser by { assert b[11 + |u|..28 + |u|] == x5[..|x4|][..|x3|][..|x2|][|x1|..]; }
    assert b[28 + |u|..28 + |u| + |c|] == c by { assert b[28 + |u|..28 + |u| + |c|] == x5[..|x4|][..|x3|][|x2|..]; }
    assert b[28 + |u| + |c|..47 + |u| + |c|] == AfterCandidate by {
      assert b[28 + |u| + |c|..47 + |u| + |c|] == x5[..|x4|][|x3|..];
    }
    assert b[47 + |u| + |c|..47 + |u| + |c| + |n|] == n by { assert b[47 + |u| + |c|..47 + |u| + |c| + |n|] == x5[|x4|..]; }
  }

  /** A character inside a part is that part's character. */
  lemma InPart(b: string, a: int, w: string, k: int)
    requires 0 <= a && a + |w| <= |b| && b[a..a + |w|] == w && a <= k < a + |w|
    ensures b[k] == w[k - a]
  {
    assert b[a..a + |w|][k - a] == b[k];
  }

  lemma BodyStartQuotes(i: int)
    requires 0 <= i < 11 && i != 1 && i != 8 && i != 10
    ensures BodyStart[i] != '"'
  {
  }

  lemma AfterUserQuotes(i: int)
    requires 0 <= i < 17 && i != 0 && i != 2 && i != 14 && i != 16
    ensures AfterUser[i] != '"'
  {
  }

  /** A quote, a quote-free `w` and a quote, followed by a character other
      than the one after the second quote of `m`, is no occurrence of `m`,
      when `m` starts with a quote and has its second quote at `L + 1`. */
  lemma QuotedMismatch(s: string, m: string, k: int, w: string, L: nat)
    requires 0 <= k && k + 2 + |w| < |s|
    requires s[k + 1..k + 1 + |w|] == w && '"' !in w && s[k + 1 + |w|] == '"'
    requires L + 2 < |m| && '"' !in m[1..L + 1] && m[L + 1] == '"' && m[L + 2] != s[k + 2 + |w|]
    ensures !OccursAt(s, m, k)
  {
    if |w| < L {
      assert m[1..L + 1][|w|] == m[1 + |w|];
      Mismatch(s, m, k, 1 + |w|);
    } else if |w| > L {
      assert s[k + 1..k + 1 + |w|][L] == s[k + 1 + L];
      Mismatch(s, m, k, L + 1);
    } else {
      Mismatch(s, m, k, L + 2);
    }
  }

  /** A marker cannot start where the body has no quote. */
  lemma NotAtNonQuote(b: string, m: string, k: int)
    requires 0 <= k < |b| && |m| > 0 && m[0] == '"' && b[k] != '"'
    ensures !OccursAt(b, m, k)
  {
    Mismatch(b, m, k, 0);
  }

  /** Positions in the opening `{"userId":"` and in the user id hold no marker
      that has its second quote at `L + 1` and a colon after it. */
  lemma NotInUserPart(b: string, u: string, c: string, n: string, m: string, L: nat, k: int)
    requires Layout(b, u, c, n) && PlainField(u)
    requires L + 2 < |m| && m[0] == '"' && '"' !in m[1..L + 1] && m[L + 1] == '"' && m[L + 2] == ':'
    requires m[1] != 'u' && m[1] != ':' && 0 <= k < 11 + |u|
    ensures !OccursAt(b, m, k)
  {
    if k < 11 {
      InPart(b, 0, BodyStart, k);
      if k == 1 || k == 8 {
        InPart(b, 0, BodyStart, k + 1);
        Mismatch(b, m, k, 1);
      } else if k == 10 {
        InPart(b, 11 + |u|, AfterUser, 11 + |u|);
        InPart(b, 11 + |u|, AfterUser, 12 + |u|);
        QuotedMismatch(b, m, k, u, L);
      } else {
        BodyStartQuotes(k);
        NotAtNonQuote(b, m, k);
      }
    } else {
      InPart(b, 11, u, k);
      NotAtNonQuote(b, m, k);
    }
  }

  /** The server reads the user id back from the body. */
  lemma UserIdRoundTrip(u: string, c: string, n: string)
    requires PlainField(u)
    ensures ExtractUserId(VoteBody(u, c, n)) == Some(u)
  {
    var b := VoteBody(u, c, n);
    BodyLayout(u, c, n);
    assert b[1..11] == UserIdMarker by { assert b[1..11] == b[..11][1..]; }
    InPart(b, 0, BodyStart, 0);
    NotAtNonQuote(b, UserIdMarker, 0);
    FirstOccurrence(b, UserIdMarker, 1);
    InPart(b, 11 + |u|, AfterUser, 11 + |u|);
    assert b[11..12 + |u|] == u + "\"";
    assert FollowsFirst(b, UserIdMarker, u);
  }

  /** No candidate-id marker starts before its place in the body. */
  lemma CandidateIdFirst(b: string, u: string, c: string, n: string)
    requires Layout(b, u, c, n) && PlainField(u)
    ensures IndexOf(b, CandidateIdMarker) == 13 + |u|
  {
    var m := CandidateIdMarker;
    assert b[13 + |u|..28 + |u|] == m by { assert b[13 + |u|..28 + |u|] == b[11 + |u|..28 + |u|][2..]; }
    forall k | 0 <= k < 13 + |u|
      ensures !OccursAt(b, m, k)
    {
      if k < 11 + |u| {
        NotInUserPart(b, u, c, n, m, 11, k);
      } else if k == 11 + |u| {
        InPart(b, 11 + |u|, AfterUser, k + 1);
        Mismatch(b, m, k, 1);
      } else {
        InPart(b, 11 + |u|, AfterUser, k);
        NotAtNonQuote(b, m, k);
      }
    }
    FirstOccurrence(b, m, 13 + |u|);
  }

  /** The server reads the candidate id back from the body. */
  lemma CandidateIdRoundTrip(u: string, c: string, n: string)
    requires PlainField(u) && PlainField(c)
    ensures ExtractCandidateId(VoteBody(u, c, n)) == Some(c)
  {
    var b := VoteBody(u, c, n);
    BodyLayout(u, c, n);
    CandidateIdFirst(b, u, c, n);
    InPart(b, 28 + |u| + |c|, AfterCandidate, 28 + |u| + |c|);
    assert b[28 + |u|..29 + |u| + |c|] == c + "\"";
    assert FollowsFirst(b, CandidateIdMarker, c);
  }

  /** Positions in `","candidateId":"` and in the candidate id hold no
      candidate-name marker. */
  lemma NotInCandidatePart(b: string, u: string, c: string, n: string, k: int)
    requires Layout(b, u, c, n) && PlainField(u) && PlainField(c)
    requires 11 + |u| <= k < 28 + |u| + |c|
    ensures !OccursAt(b, CandidateNameMarker, k)
  {
    var m := CandidateNameMarker;
    if k < 28 + |u| {
      var i := k - 11 - |u|;
      InPart(b, 11 + |u|, AfterUser, k);
      if i == 0 || i == 14 {
        InPart(b, 11 + |u|, AfterUser, k + 1);
        Mismatch(b, m, k, 1);
      } else if i == 2 {
        InPart(b, 11 + |u|, AfterUser, k + 10);
        Mismatch(b, m, k, 10);
      } else if i == 16 {
        InPart(b, 28 + |u| + |c|, AfterCandidate, 28 + |u| + |c|);
        InPart(b, 28 + |u| + |c|, AfterCandidate, 29 + |u| + |c|);
        QuotedMismatch(b, m, k, c, 13);
      } else {
        AfterUserQuotes(i);
        NotAtNonQuote(b, m, k);
      }
    } else {
      InPart(b, 28 + |u|, c, k);
      NotAtNonQuote(b, m, k);
    }
  }

  /** No candidate-name marker starts before its place in the body. */
  lemma CandidateNameFirst(b: string, u: string, c: string, n: string)
    requires Layout(b, u, c, n) && PlainField(u) && PlainField(c)
    ensures IndexOf(b, CandidateNameMarker) == 30 + |u| + |c|
  {
    var m := CandidateNameMarker;
    assert b[30 + |u| + |c|..47 + |u| + |c|] == m by {
      assert b[30 + |u| + |c|..47 + |u| + |c|] == b[28 + |u| + |c|..47 + |u| + |c|][2..];
    }
    forall k | 0 <= k < 30 + |u| + |c|
      ensures !OccursAt(b, m, k)
    {
      if k < 11 + |u| {
        NotInUserPart(b, u, c, n, m, 13, k);
      } else if k < 28 + |u| + |c| {
        NotInCandidatePart(b, u, c, n, k);
      } else if k == 28 + |u| + |c| {
        InPart(b, 28 + |u| + |c|, AfterCandidate, k + 1);
        Mismatch(b, m, k, 1);
      } else {
        InPart(b, 28 + |u| + |c|, AfterCandidate, k);
        NotAtNonQuote(b, m, k);
      }
    }
    FirstOccurrence(b, m, 30 + |u| + |c|);
  }

  /** The server reads the candidate name back from the body. */
  lemma CandidateNameRoundTrip(u: string, c: string, n: string)
    requires PlainField(u) && PlainField(c) && PlainField(n)
    ensures ExtractCandidateName(VoteBody(u, c, n)) == Some(n)
  {
    var b := VoteBody(u, c, n);
    BodyLayout(u, c, n);
    CandidateNameFirst(b, u, c, n);
    InPart(b, 47 + |u| + |c| + |n|, BodyEnd, 47 + |u| + |c| + |n|);
    assert b[47 + |u| + |c|..48 + |u| + |c| + |n|] == n + "\"";
    assert FollowsFirst(b, CandidateNameMarker, n);
  }

  // ------------------------------------------------------- node selection

  const ServerNodes: seq<string> := ["http://10.72.214.22:8080", "http://10.72.214.22:8081"]

  /** The node index round-robin picks for the request numbered `calls`
      (counting from 0), as the code is written: `nodeIndex` is a Java
      `int` that wraps after 2^31 increments, and `%` keeps the sign of a
      negative counter. */
  function AsWrittenNodeIndex(calls: nat): int {
    JavaRem(Wrap32(calls), |ServerNodes|)
  }

  /** Up to the wrap the written index is the intended one. */
  lemma AsWrittenAgreesBeforeWrap(calls: nat)
    requires calls <= MaxInt32
    ensures AsWrittenNodeIndex(calls) == NodeIndex(calls)
  {
  }

  /** The request numbered 2^31 + 1 computes index -1, and
      `SERVER_NODES[-1]` throws. */
  lemma AsWrittenGoesNegative()
    ensures AsWrittenNodeIndex(0x8000_0001) == -1
    ensures !(0 <= AsWrittenNodeIndex(0x8000_0001) < |ServerNodes|)
  {
    assert Wrap32(0x8000_0001) == -0x7fff_ffff;
  }

  /** The intended round-robin index of the request numbered `calls`. */
  function NodeIndex(calls: nat): (i: nat)
    ensures i < |ServerNodes|
  {
    calls % |ServerNodes|
  }

  /** Consecutive requests go to different nodes and every node comes back
      after one full round. */
  lemma NodesCycle(calls: nat)
    ensures NodeIndex(calls + 1) != NodeIndex(calls)
    ensures NodeIndex(calls + |ServerNodes|) == NodeIndex(calls)
    ensures ServerNodes[NodeIndex(calls + 1)] != ServerNodes[NodeIndex(calls)]
  {
  }

  /** Every node is picked within one round. */
  lemma EveryNodePicked(calls: nat, i: nat) returns (j: nat)
    requires i < |ServerNodes|
    ensures j < |ServerNodes| && NodeIndex(calls + j) == i
  {
    j := (i - calls % |ServerNodes| + |ServerNodes|) % |ServerNodes|;
  }

  /** The client's node counter. */
  class SimpleVoteClient {
    var nodeIndex: nat

    constructor ()
      ensures nodeIndex == 0
    {
      nodeIndex := 0;
    }

    /** `getServerUrl` in round-robin mode. */
    method GetServerUrl() returns (url: string)
      modifies this
      ensures url == ServerNodes[NodeIndex(old(nodeIndex))]
      ensures nodeIndex == old(nodeIndex) + 1
    {
      var idx := nodeIndex % |ServerNodes|;
      nodeIndex := nodeIndex + 1;
      url := ServerNodes[idx];
    }
  }

  // ------------------------------------------------------ results and stats

  /** The counts that `refreshResultsFromServer` shows, candidate by
      candidate, with 0 for an id the parsed map lacks. */
  method ShownCounts(results: map<string, int>) returns (counts: seq<int>)
    ensures |counts| == |CandidateIds|
    ensures forall i :: 0 <= i < |counts| && CandidateIds[i] in results ==> counts[i] == results[CandidateIds[i]]
    ensures forall i :: 0 <= i < |counts| && CandidateIds[i] !in results ==> counts[i] == 0
  {
    counts := [];
    var i := 0;
    while i < |CandidateIds|
      invariant 0 <= i <= |CandidateIds| && |counts| == i
      invariant forall j :: 0 <= j < i ==> counts[j] == GetOrDefault(results, CandidateIds[j], 0)
    {
      var count := GetOrDefault(results, CandidateIds[i], 0);
      counts := counts + [count];
      i := i + 1;
    }
  }

  /** The five statistics `getServerStats` shows, 0 for a missing one. */
  function ShownStats(stats: map<string, int>): (shown: seq<int>)
    ensures |shown| == |StatsKeys|
    ensures forall i :: 0 <= i < |shown| && StatsKeys[i] in stats ==> shown[i] == stats[StatsKeys[i]]
    ensures forall i :: 0 <= i < |shown| && StatsKeys[i] !in stats ==> shown[i] == 0
  {
    seq(|StatsKeys|, i requires 0 <= i < |StatsKeys| => GetOrDefault(stats, StatsKeys[i], 0))
  }

  const StatsKeys: seq<string> := ["totalRequests", "successfulVotes", "failedVotes", "totalVoters", "activeLocks"]

  /** Every value fits in a Java `int`. */
  predicate Int32Entries(es: seq<Entry>) {
    forall i :: 0 <= i < |es| ==> IsInt32(es[i].value)
  }

  /** The results JSON the server writes parses back to exactly the three
      candidate counts. */
  lemma ResultsRoundTrip(voteCounts: map<string, int>)
    requires Int32Entries(ResultsEntries(voteCounts))
    ensures ParseJson(JsonObject(ResultsEntries(voteCounts))) ==
      map["1" := GetOrDefault(voteCounts, "1", 0), "2" := GetOrDefault(voteCounts, "2", 0),
          "3" := GetOrDefault(voteCounts, "3", 0)]
  {
    var es := ResultsEntries(voteCounts);
    assert WellFormed(es);
    ParseJsonObject(es);
    assert es[1..][1..][1..] == [];
  }

  /** The keys the statistics handler writes are plain. */
  lemma StatsKeysPlain()
    ensures forall i :: 0 <= i < |StatsKeys| ==> PlainKey(StatsKeys[i])
  {
    forall i | 0 <= i < |StatsKeys|
      ensures PlainKey(StatsKeys[i])
    {
      var k := StatsKeys[i];
      assert !IsSpace(k[0]) && !IsSpace(k[|k| - 1]);
    }
  }

  /** Folding five entries in one after another. */
  lemma PutAllFive(es: seq<Entry>)
    requires |es| == 5
    ensures PutAll(map[], es) ==
      map[][es[0].key := es[0].value][es[1].key := es[1].value][es[2].key := es[2].value]
           [es[3].key := es[3].value][es[4].key := es[4].value]
  {
    var m1 := map[][es[0].key := es[0].value];
    var m2 := m1[es[1].key := es[1].value];
    var m3 := m2[es[2].key := es[2].value];
    var m4 := m3[es[3].key := es[3].value];
    var m5 := m4[es[4].key := es[4].value];
    assert PutAll(m5, es[5..]) == m5;
    assert PutAll(m4, es[4..]) == m5;
    assert PutAll(m3, es[3..]) == m5;
    assert PutAll(m2, es[2..]) == m5;
    assert PutAll(m1, es[1..]) == m5;
  }

  /** The statistics JSON the server writes parses back to its five fields. */
  lemma StatsRoundTrip(s: ServerState)
    requires Int32Entries(StatsEntries(s))
    ensures ParseJson(JsonObject(StatsEntries(s))) ==
      map["totalRequests" := s.totalRequests, "successfulVotes" := s.successfulVotes,
          "failedVotes" := s.failedVotes, "totalVoters" := |s.userVotes|, "activeLocks" := |s.userLocks|]
  {
    var es := StatsEntries(s);
    StatsKeysPlain();
    assert forall i :: 0 <= i < |es| ==> es[i].key == StatsKeys[i];
    assert WellFormed(es);
    ParseJsonObject(es);
    PutAllFive(es);
  }

  /** The client shows each candidate with the count the server holds for
      it, and 0 for a candidate the server has no count for. */
  lemma ShownCountsMatchServer(voteCounts: map<string, int>, i: int)
    requires Int32Entries(ResultsEntries(voteCounts)) && 0 <= i < |CandidateIds|
    ensures GetOrDefault(ParseJson(JsonObject(ResultsEntries(voteCounts))), CandidateIds[i], 0) ==
      GetOrDefault(voteCounts, CandidateIds[i], 0)
  {
    ResultsRoundTrip(voteCounts);
  }

  /** The statistics shown for a map holding the five fields. */
  lemma ShownStatsOfFields(a: int, b: int, c: int, d: int, e: int)
    ensures ShownStats(map["totalRequests" := a, "successfulVotes" := b, "failedVotes" := c,
                           "totalVoters" := d, "activeLocks" := e]) == [a, b, c, d, e]
  {
    var shown := ShownStats(map["totalRequests" := a, "successfulVotes" := b, "failedVotes" := c,
                                "totalVoters" := d, "activeLocks" := e]);
    assert shown[0] == a && shown[1] == b && shown[2] == c && shown[3] == d && shown[4] == e;
  }

  /** The client shows the server's statistics as they are. */
  lemma ShownStatsMatchServer(s: ServerState)
    requires Int32Entries(StatsEntries(s))
    ensures ShownStats(ParseJson(JsonObject(StatsEntries(s)))) ==
      [s.totalRequests, s.successfulVotes, s.failedVotes, |s.userVotes|, |s.userLocks|]
  {
    StatsRoundTrip(s);
    ShownStatsOfFields(s.totalRequests, s.successfulVotes, s.failedVotes, |s.userVotes|, |s.userLocks|);
  }
}
