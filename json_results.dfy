/**
 * The flat JSON objects the vote server writes (`{"1":4,"2":0,"3":7}` and
 * the statistics object) and the hand-written `parseJsonResults` that both
 * the client window and the server monitor use to read them back into a
 * `Map<String, Integer>`.
 */
module JsonResults {
  import opened Base
  import opened JavaText

  /** One `"key":value` member of a flat JSON object. */
  datatype Entry = Entry(key: string, value: int)

  /** A member as the server's `StringBuilder` writes it. */
  function JsonEntry(e: Entry): string {
    "\"" + e.key + "\":" + IntToString(e.value)
  }

  function Pieces(es: seq<Entry>): (ps: seq<string>)
    ensures |ps| == |es|
    ensures forall i :: 0 <= i < |es| ==> ps[i] == JsonEntry(es[i])
  {
    if |es| == 0 then [] else [JsonEntry(es[0])] + Pieces(es[1..])
  }

  lemma PiecesConcat(a: seq<Entry>, b: seq<Entry>)
    ensures Pieces(a + b) == Pieces(a) + Pieces(b)
  {
    forall i | 0 <= i < |a| + |b|
      ensures Pieces(a + b)[i] == (Pieces(a) + Pieces(b))[i]
    {
      if i < |a| {
        assert (a + b)[i] == a[i];
      } else {
        assert (a + b)[i] == b[i - |a|];
      }
    }
  }

  /** The object `{m1,m2,...}` with the members in the given order. */
  function JsonObject(es: seq<Entry>): string {
    "{" + Join(Pieces(es), ',') + "}"
  }

  /** The entries up to `i` and the one at `i` give the pieces up to `i + 1`. */
  lemma PiecesSnoc(es: seq<Entry>, i: int)
    requires 0 <= i < |es|
    ensures Pieces(es[..i + 1]) == Pieces(es[..i]) + [JsonEntry(es[i])]
  {
    assert es[..i + 1] == es[..i] + [es[i]];
    PiecesConcat(es[..i], [es[i]]);
  }

  /** Writing one more member after `{` and the members so far. */
  lemma ObjectSnoc(ps: seq<string>, p: string)
    requires |ps| > 0
    ensures "{" + Join(ps + [p], ',') == "{" + Join(ps, ',') + "," + p
  {
    JoinSnoc(ps, p, ',');
    AppendAssoc("{", Join(ps, ','), ",", p);
  }

  /** An object of five members written out. */
  lemma ObjectOfFive(ps: seq<string>)
    requires |ps| == 5
    ensures "{" + Join(ps, ',') + "}" == "{" + ps[0] + "," + ps[1] + "," + ps[2] + "," + ps[3] + "," + ps[4] + "}"
  {
    assert ps == [ps[0], ps[1], ps[2], ps[3], ps[4]];
    JoinFive(ps[0], ps[1], ps[2], ps[3], ps[4], ',');
  }

  lemma JsonObjectFive(es: seq<Entry>)
    requires |es| == 5
    ensures JsonObject(es) == "{" + JsonEntry(es[0]) + "," + JsonEntry(es[1]) + "," + JsonEntry(es[2]) + "," +
      JsonEntry(es[3]) + "," + JsonEntry(es[4]) + "}"
  {
    ObjectOfFive(Pieces(es));
  }

  /** `results.put(key, value)` for each entry in turn: a later entry with
      the same key overwrites an earlier one. */
  function PutAll(acc: map<string, int>, es: seq<Entry>): (r: map<string, int>)
    ensures forall k :: k in acc ==> k in r
    ensures forall i :: 0 <= i < |es| ==> es[i].key in r
    decreases |es|
  {
    if |es| == 0 then acc else PutAll(acc[es[0].key := es[0].value], es[1..])
  }

  /** What one pair of the loop in `parseJsonResults` contributes. */
  datatype PairResult =
    | Skip                              // it does not split into exactly two parts
    | Bad                               // `Integer.parseInt` throws on its value
    | Put(key: string, value: int)

  /** One pair split on `:`; the key loses its quotes and is trimmed, the
      value is trimmed and parsed. */
  function ParsePair(pair: string): PairResult {
    var kv := Split(pair, ':');
    if |kv| != 2 then Skip
    else
      match ParseInt(Trim(kv[1]))
      case None => Bad
      case Some(v) => Put(Trim(RemoveChar(kv[0], '"')), v)
  }

  /** Every pair parsed on its own. */
  function ParsedPairs(pairs: seq<string>): (rs: seq<PairResult>)
    ensures |rs| == |pairs|
    ensures forall i :: 0 <= i < |pairs| ==> rs[i] == ParsePair(pairs[i])
  {
    seq(|pairs|, i requires 0 <= i < |pairs| => ParsePair(pairs[i]))
  }

  /** The loop of `parseJsonResults` over the parsed pairs: each key and
      value is put into the map, and a bad value ends the loop (the
      exception is caught outside it) keeping what was put so far. */
  function Collect(rs: seq<PairResult>, acc: map<string, int>): (r: map<string, int>)
    ensures forall k :: k in acc ==> k in r
    decreases |rs|
  {
    if |rs| == 0 then acc
    else
      match rs[0]
      case Skip => Collect(rs[1..], acc)
      case Bad => acc
      case Put(k, v) => Collect(rs[1..], acc[k := v])
  }

  /** What `parseJsonResults(json)` returns: the first and last character
      are dropped (input shorter than two characters makes `substring`
      throw, which yields the empty map) and the rest is split on `,`. */
  function ParseJson(json: string): (r: map<string, int>)
    ensures |json| < 2 ==> r == map[]
  {
    if |json| < 2 then map[]
    else Collect(ParsedPairs(Split(json[1..|json| - 1], ',')), map[])
  }

  /** The loop of `parseJsonResults`, filling the result map pair by pair. */
  method ParseJsonResults(json: string) returns (results: map<string, int>)
    ensures results == ParseJson(json)
  {
    results := map[];
    if |json| < 2 {
      return;
    }
    var pairs := Split(json[1..|json| - 1], ',');
    ghost var rs := ParsedPairs(pairs);
    var i := 0;
    while i < |pairs|
      invariant 0 <= i <= |pairs|
      invariant Collect(rs[i..], results) == ParseJson(json)
    {
      assert rs[i..][0] == ParsePair(pairs[i]);
      assert rs[i..][1..] == rs[i + 1..];
      var keyValue := Split(pairs[i], ':');
      if |keyValue| == 2 {
        var value := ParseInt(Trim(keyValue[1]));
        if value.None? {
          return;
        }
        results := results[Trim(RemoveChar(keyValue[0], '"')) := value.value];
      }
      i := i + 1;
    }
    assert rs[i..] == [];
  }

  // ------------------------------------------------------------ properties

  /** A key the hand-written parser can carry through unchanged: no `,`,
      `:` or `"` inside and nothing for `trim` to remove. */
  predicate PlainKey(k: string) {
    ',' !in k && ':' !in k && '"' !in k &&
    (|k| == 0 || (!IsSpace(k[0]) && !IsSpace(k[|k| - 1])))
  }

  predicate WellFormed(es: seq<Entry>) {
    forall i :: 0 <= i < |es| ==> PlainKey(es[i].key) && IsInt32(es[i].value)
  }

  /** The decimal form of an int has no separator, quote or blank in it. */
  lemma IntToStringPlain(n: int)
    ensures ',' !in IntToString(n) && ':' !in IntToString(n) && '"' !in IntToString(n)
    ensures Trim(IntToString(n)) == IntToString(n)
  {
    var s := IntToString(n);
    assert s[0] == '-' || IsDigit(s[0]);
    assert s[|s| - 1] == '-' || IsDigit(s[|s| - 1]);
  }

  /** Quotes around a quote-free key are all that `replace` removes. */
  lemma RemoveQuotes(k: string)
    requires '"' !in k
    ensures RemoveChar("\"" + k + "\"", '"') == k
  {
    assert "\"" + k + "\"" == "\"" + (k + "\"");
    RemoveCharConcat("\"", k + "\"", '"');
    RemoveCharConcat(k, "\"", '"');
    assert RemoveChar("\"", '"') == "";
  }

  /** A written member splits on `:` into the quoted key and the number. */
  lemma SplitEntry(e: Entry)
    requires PlainKey(e.key)
    ensures Split(JsonEntry(e), ':') == ["\"" + e.key + "\"", IntToString(e.value)]
  {
    var q := "\"" + e.key + "\"";
    var vs := IntToString(e.value);
    IntToStringPlain(e.value);
    assert JsonEntry(e) == Join([q, vs], ':');
    SplitJoin([q, vs], ':');
  }

  /** One written member reads back as its key and value. */
  lemma ParseEntry(e: Entry)
    requires PlainKey(e.key) && IsInt32(e.value)
    ensures ',' !in JsonEntry(e)
    ensures ParsePair(JsonEntry(e)) == Put(e.key, e.value)
  {
    IntToStringPlain(e.value);
    SplitEntry(e);
    RemoveQuotes(e.key);
    ParseIntToString(e.value);
  }

  /** Each written member parses to putting its entry. */
  function Puts(es: seq<Entry>): (rs: seq<PairResult>)
    ensures |rs| == |es|
  {
    seq(|es|, i requires 0 <= i < |es| => Put(es[i].key, es[i].value))
  }

  lemma ParsedPieces(es: seq<Entry>)
    requires WellFormed(es)
    ensures ParsedPairs(Pieces(es)) == Puts(es)
  {
    forall i | 0 <= i < |es|
      ensures ParsedPairs(Pieces(es))[i] == Puts(es)[i]
    {
      ParseEntry(es[i]);
    }
  }

  /** Collecting the entries' puts is putting the entries in order. */
  lemma {:induction false} CollectPuts(es: seq<Entry>, acc: map<string, int>)
    ensures Collect(Puts(es), acc) == PutAll(acc, es)
    decreases |es|
  {
    if |es| > 0 {
      assert Puts(es)[0] == Put(es[0].key, es[0].value);
      assert Puts(es)[1..] == Puts(es[1..]);
      CollectPuts(es[1..], acc[es[0].key := es[0].value]);
    }
  }

  /** Round trip: `parseJsonResults` reads back every object the server
      writes, with the members put in the order they were written. */
  lemma ParseJsonObject(es: seq<Entry>)
    requires WellFormed(es)
    ensures ParseJson(JsonObject(es)) == PutAll(map[], es)
  {
    var json := JsonObject(es);
    var inner := Join(Pieces(es), ',');
    assert json[1..|json| - 1] == inner;
    if |es| == 0 {
      assert Split(inner, ',') == [""];
      assert ParsePair("") == Skip by {
        assert Split("", ':') == [""];
      }
      assert ParsedPairs([""])[1..] == [];
    } else {
      var ps := Pieces(es);
      forall i | 0 <= i < |ps|
        ensures ',' !in ps[i]
      {
        ParseEntry(es[i]);
      }
      assert ps[|ps| - 1] != "";
      SplitJoin(ps, ',');
      ParsedPieces(es);
      CollectPuts(es, map[]);
    }
  }

  /** A bad value ends the loop: the result is what the pairs before it
      gave, whatever follows. */
  lemma {:induction false} CollectStopsAtBad(before: seq<PairResult>, after: seq<PairResult>, acc: map<string, int>)
    ensures Collect(before + [Bad] + after, acc) == Collect(before, acc)
    decreases |before|
  {
    var all := before + [Bad] + after;
    if |before| > 0 {
      assert all[0] == before[0];
      assert all[1..] == before[1..] + [Bad] + after;
      match before[0]
      case Skip => CollectStopsAtBad(before[1..], after, acc);
      case Bad =>
      case Put(k, v) => CollectStopsAtBad(before[1..], after, acc[k := v]);
    } else {
      assert all[0] == Bad;
    }
  }

  lemma ParsedPairsConcat(a: seq<string>, b: seq<string>)
    ensures ParsedPairs(a + b) == ParsedPairs(a) + ParsedPairs(b)
  {
    forall i | 0 <= i < |a| + |b|
      ensures ParsedPairs(a + b)[i] == (ParsedPairs(a) + ParsedPairs(b))[i]
    {
      if i < |a| {
        assert (a + b)[i] == a[i];
      } else {
        assert (a + b)[i] == b[i - |a|];
      }
    }
  }

  /** When a pair's value does not parse, what was read from the pairs
      before it is the result and nothing after it is read. */
  lemma ParseStopsAtBadValue(before: seq<string>, bad: string, after: seq<string>, acc: map<string, int>)
    requires ParsePair(bad) == Bad
    ensures Collect(ParsedPairs(before + [bad] + after), acc) == Collect(ParsedPairs(before), acc)
  {
    ParsedPairsConcat(before, [bad]);
    ParsedPairsConcat(before + [bad], after);
    assert ParsedPairs([bad]) == [Bad];
    CollectStopsAtBad(ParsedPairs(before), ParsedPairs(after), acc);
  }

  /** The value of a key in `PutAll` is that of its last entry. */
  lemma {:induction false} PutAllLast(acc: map<string, int>, es: seq<Entry>, i: int)
    requires 0 <= i < |es|
    requires forall j :: i < j < |es| ==> es[j].key != es[i].key
    ensures PutAll(acc, es)[es[i].key] == es[i].value
    decreases |es|
  {
    if i > 0 {
      PutAllLast(acc[es[0].key := es[0].value], es[1..], i - 1);
    } else {
      PutAllUnchanged(acc[es[0].key := es[0].value], es[1..], es[0].key);
    }
  }

  /** Keys no entry mentions keep their value. */
  lemma {:induction false} PutAllUnchanged(acc: map<string, int>, es: seq<Entry>, k: string)
    requires k in acc
    requires forall j :: 0 <= j < |es| ==> es[j].key != k
    ensures PutAll(acc, es)[k] == acc[k]
    decreases |es|
  {
    if |es| > 0 {
      PutAllUnchanged(acc[es[0].key := es[0].value], es[1..], k);
    }
  }

  /** The keys of `PutAll` are the old keys and the entries' keys. */
  lemma {:induction false} PutAllKeys(acc: map<string, int>, es: seq<Entry>)
    ensures PutAll(acc, es).Keys == acc.Keys + set i | 0 <= i < |es| :: es[i].key
    decreases |es|
  {
    if |es| > 0 {
      PutAllKeys(acc[es[0].key := es[0].value], es[1..]);
      var rest := set i | 0 <= i < |es| - 1 :: es[1..][i].key;
      var all := set i | 0 <= i < |es| :: es[i].key;
      assert all == {es[0].key} + rest by {
        forall k | k in all
          ensures k in {es[0].key} + rest
        {
          var i :| 0 <= i < |es| && es[i].key == k;
          if i > 0 {
            assert es[1..][i - 1].key == k;
          }
        }
      }
    }
  }
}
