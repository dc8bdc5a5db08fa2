/**
 * The arithmetic behind the vote-results panel of the monitoring window:
 * the total over all parsed counts and the 20-symbol progress bar. The
 * window parses the server's JSON with the same loop as the client
 * (`JsonResults.ParseJsonResults`) and looks values up with the same
 * defaults (`VoteClient.ShownCounts`, `VoteClient.ShownStats`).
 */
module ServerGui {
  import opened Base
  import opened JavaText
  import opened JsonResults
  import opened VoteServer
  import opened VoteClient

  const Modulus32: int := 0x1_0000_0000

  /** Java `int` addition: the exact sum, brought back into range by one
      turn of 2^32 when it leaves it. */
  function AddInt32(a: int, b: int): (r: int)
    requires IsInt32(a) && IsInt32(b)
    ensures IsInt32(r)
    ensures r == a + b || r == a + b - Modulus32 || r == a + b + Modulus32
  {
    var s := a + b;
    if s > MaxInt32 then s - Modulus32 else if s < MinInt32 then s + Modulus32 else s
  }

  lemma ModOfShift(r: int, w: int)
    requires 0 <= r < Modulus32
    ensures (r + Modulus32 * w) % Modulus32 == r
  {
    var y := r + Modulus32 * w;
    assert y == Modulus32 * w + r;
  }

  /** An in-range value that differs from `x` by whole turns of 2^32 is the
      wrap-around of `x`. */
  lemma WrapUnique(t: int, x: int, w: int)
    requires IsInt32(t) && t == x - Modulus32 * w
    ensures t == Wrap32(x)
  {
    ModOfShift(t - MinInt32, w);
    assert x - MinInt32 == (t - MinInt32) + Modulus32 * w;
  }

  /** `AddInt32` is the wrap-around of the exact sum. */
  lemma AddInt32Wraps(a: int, b: int)
    requires IsInt32(a) && IsInt32(b)
    ensures AddInt32(a, b) == Wrap32(a + b)
  {
    var r := AddInt32(a, b);
    if r == a + b - Modulus32 {
      WrapUnique(r, a + b, 1);
    } else if r == a + b + Modulus32 {
      WrapUnique(r, a + b, -1);
    } else {
      WrapUnique(r, a + b, 0);
    }
  }

  /** One turn of the `totalVotes` loop, for the exact sum. */
  lemma SumStep(results: map<string, int>, rest: map<string, int>, done: int, k: string)
    requires k in rest && done + MapSum(rest) == MapSum(results)
    ensures done + rest[k] + MapSum(rest - {k}) == MapSum(results)
    ensures |rest - {k}| < |rest|
  {
    MapSumRemove(rest, k);
    assert (rest - {k}).Keys == rest.Keys - {k};
  }

  /** Every count is a Java `int`. */
  predicate Int32Values(m: map<string, int>) {
    forall k :: k in m ==> IsInt32(m[k])
  }

  /** Collecting parsed pairs into a map of Java `int`s keeps every value a Java `int`. */
  lemma {:induction false} CollectInt32(rs: seq<PairResult>, acc: map<string, int>)
    requires Int32Values(acc)
    requires forall i :: 0 <= i < |rs| && rs[i].Put? ==> IsInt32(rs[i].value)
    ensures Int32Values(Collect(rs, acc))
    decreases |rs|
  {
    if |rs| > 0 {
      match rs[0]
      case Skip => CollectInt32(rs[1..], acc);
      case Bad =>
      case Put(k, v) => CollectInt32(rs[1..], acc[k := v]);
    }
  }

  /** Every value the parser returns is a Java `int`, so the total can be
      taken of any parsed map. */
  lemma ParsedCountsInt32(json: string)
    ensures Int32Values(ParseJson(json))
  {
    if |json| >= 2 {
      var rs := ParsedPairs(Split(json[1..|json| - 1], ','));
      CollectInt32(rs, map[]);
    }
  }

  /** The `totalVotes` loop: the Java `int` sum of every parsed value,
      whether or not its key is a candidate id. */
  method TotalVotes(results: map<string, int>) returns (total: int)
    requires Int32Values(results)
    ensures total == Wrap32(MapSum(results))
  {
    total := 0;
    var rest := results;
    ghost var done := 0;
    ghost var turns := 0;
    while rest != map[]
      invariant Int32Values(rest)
      invariant done + MapSum(rest) == MapSum(results)
      invariant IsInt32(total) && total == done - Modulus32 * turns
      decreases |rest|
    {
      var k :| k in rest;
      var count := rest[k];
      SumStep(results, rest, done, k);
      var next := AddInt32(total, count);
      turns := if next == total + count then turns
               else if next == total + count - Modulus32 then turns + 1 else turns - 1;
      total := next;
      done := done + count;
      rest := rest - {k};
    }
    WrapUnique(total, MapSum(results), turns);
  }

  /** The sum of a one-entry map. */
  lemma MapSumOne(a: string, x: int)
    ensures MapSum(map[a := x]) == x
  {
    MapSumRemove(map[a := x], a);
    assert map[a := x] - {a} == map[];
  }

  /** Adding an entry for a new key adds its value to the sum. */
  lemma MapSumAdd(m: map<string, int>, a: string, x: int)
    requires a !in m
    ensures MapSum(m[a := x]) == MapSum(m) + x
  {
    MapSumUpdate(m, a, x);
  }

  /** The sum of a three-entry map. */
  lemma MapSumThree(a: string, b: string, c: string, x: int, y: int, z: int)
    requires a != b && b != c && a != c
    ensures MapSum(map[a := x, b := y, c := z]) == x + y + z
  {
    MapSumOne(a, x);
    MapSumAdd(map[a := x], b, y);
    MapSumAdd(map[a := x, b := y], c, z);
  }

  /** For the server's results JSON the total is the sum of the three
      candidate counts. */
  lemma TotalOfServerResults(voteCounts: map<string, int>)
    requires Int32Entries(ResultsEntries(voteCounts))
    ensures MapSum(ParseJson(JsonObject(ResultsEntries(voteCounts)))) ==
      GetOrDefault(voteCounts, "1", 0) + GetOrDefault(voteCounts, "2", 0) + GetOrDefault(voteCounts, "3", 0)
  {
    ResultsRoundTrip(voteCounts);
    MapSumThree("1", "2", "3", GetOrDefault(voteCounts, "1", 0), GetOrDefault(voteCounts, "2", 0),
      GetOrDefault(voteCounts, "3", 0));
  }

  /** Keys that are not candidate ids add to the total as much as the
      candidate ids do: the sum `totalVotes` wraps is the candidates' part
      plus the part of every other key. */
  lemma TotalCountsOtherKeys(results: map<string, int>)
    ensures MapSum(results) ==
      MapSum(Within(results, set c | c in CandidateIds)) + MapSum(Outside(results, set c | c in CandidateIds))
  {
    MapSumSplit(results, set c | c in CandidateIds);
  }

  const BarLength: nat := 20
  const Filled: char := '█'
  const Empty: char := '░'

  function Repeat(c: char, n: nat): (s: string)
    ensures |s| == n && forall i :: 0 <= i < n ==> s[i] == c
  {
    if n == 0 then [] else Repeat(c, n - 1) + [c]
  }

  /** How many symbols of the bar are filled for a given `bars`. */
  function FilledCount(bars: int): (f: nat)
    ensures f <= BarLength
    ensures 0 <= bars <= BarLength ==> f == bars
  {
    if bars < 0 then 0 else if bars > BarLength then BarLength else bars
  }

  /** The bar as a run of filled symbols followed by a run of empty ones. */
  function Bar(bars: int): string {
    Repeat(Filled, FilledCount(bars)) + Repeat(Empty, BarLength - FilledCount(bars))
  }

  /** The bar drawing loop: 20 symbols, filled while `j < bars`. */
  method ProgressBar(bars: int) returns (bar: string)
    ensures bar == Bar(bars)
  {
    bar := [];
    var j := 0;
    while j < BarLength
      invariant 0 <= j <= BarLength && |bar| == j
      invariant forall i :: 0 <= i < j ==> bar[i] == Bar(bars)[i]
    {
      if j < bars {
        bar := bar + [Filled];
      } else {
        bar := bar + [Empty];
      }
      j := j + 1;
    }
  }

  /** The bar is always 20 symbols, the first `min(bars, 20)` of them filled
      and the rest empty. */
  lemma BarShape(bars: int)
    requires bars >= 0
    ensures |Bar(bars)| == BarLength
    ensures forall i :: 0 <= i < BarLength ==> (Bar(bars)[i] == Filled <==> i < bars)
    ensures forall i :: 0 <= i < BarLength ==> (Bar(bars)[i] == Empty <==> i >= bars)
  {
  }
}
