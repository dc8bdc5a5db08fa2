/**
 * The `java.lang.String` and `java.lang.Integer` operations the voting code
 * relies on, stated as Dafny functions on `seq<char>`: `indexOf`,
 * `contains`, `split` on a one-character separator, `replace` of a character
 * by nothing, `trim`, `Integer.parseInt` and `Integer.toString`.
 */
module JavaText {
  import opened Base

  /** `p` occurs in `s` starting at position `k`. */
  predicate OccursAt(s: string, p: string, k: int) {
    0 <= k && k + |p| <= |s| && s[k..k + |p|] == p
  }

  /** Occurrences in `s[f..]` are the occurrences in `s` shifted by `f`. */
  lemma ShiftOccurrences(s: string, p: string, f: nat)
    requires f <= |s|
    ensures forall k :: f <= k ==> OccursAt(s, p, k) == OccursAt(s[f..], p, k - f)
  {
    forall k | f <= k
      ensures OccursAt(s, p, k) == OccursAt(s[f..], p, k - f)
    {
      if k + |p| <= |s| {
        assert s[f..][k - f..k - f + |p|] == s[k..k + |p|];
      }
    }
  }

  /** `s.indexOf(p)`: the first position at which `p` occurs in `s`, or -1. */
  function IndexOf(s: string, p: string): (r: int)
    ensures -1 <= r <= |s|
    ensures r >= 0 ==> OccursAt(s, p, r)
    ensures r >= 0 ==> forall k :: 0 <= k < r ==> !OccursAt(s, p, k)
    ensures r < 0 ==> forall k :: !OccursAt(s, p, k)
    decreases |s|
  {
    if |s| < |p| then -1
    else if s[..|p|] == p then 0
    else
      var r := IndexOf(s[1..], p);
      ShiftOccurrences(s, p, 1);
      if r < 0 then -1 else r + 1
  }

  /** `s.indexOf(p, from)`: the first occurrence at or after `from` (a
      negative `from` counts as 0), or -1. */
  function IndexOfFrom(s: string, p: string, from: int): (r: int)
    ensures -1 <= r <= |s|
    ensures |p| > 0 && r >= 0 ==> from <= r && OccursAt(s, p, r)
    ensures r >= 0 ==> forall k :: from <= k < r ==> !OccursAt(s, p, k)
    ensures r < 0 ==> forall k :: from <= k ==> !OccursAt(s, p, k)
  {
    var f := if from < 0 then 0 else from;
    if f > |s| then (if |p| == 0 then |s| else -1)
    else
      var r := IndexOf(s[f..], p);
      ShiftOccurrences(s, p, f);
      if r < 0 then -1 else f + r
  }

  /** `s.contains(p)`. */
  predicate Contains(s: string, p: string) {
    IndexOf(s, p) >= 0
  }

  /** A string contains every prefix of a string that occurs in it. */
  lemma OccursPrefix(s: string, p: string, q: string, k: int)
    requires OccursAt(s, p + q, k)
    ensures OccursAt(s, p, k) && Contains(s, p)
  {
    assert s[k..k + |p|] == (p + q)[..|p|];
    var r := IndexOf(s, p);
    assert OccursAt(s, p, k);
  }

  /** A single-character string occurs exactly where that character stands. */
  lemma OccursChar(s: string, c: char, k: int)
    requires 0 <= k < |s|
    ensures OccursAt(s, [c], k) <==> s[k] == c
  {
    if s[k] == c {
      assert s[k..k + 1] == [c];
    }
  }

  /** An occurrence with none before it is the one `indexOf` finds. */
  lemma FirstOccurrence(s: string, p: string, k: int)
    requires OccursAt(s, p, k)
    requires forall j :: 0 <= j < k ==> !OccursAt(s, p, j)
    ensures IndexOf(s, p) == k
  {
  }

  /** One differing character rules out an occurrence. */
  lemma Mismatch(s: string, p: string, k: int, j: int)
    requires 0 <= k && 0 <= j < |p| && k + j < |s| && s[k + j] != p[j]
    ensures !OccursAt(s, p, k)
  {
    if k + |p| <= |s| {
      assert s[k..k + |p|][j] == s[k + j];
    }
  }

  // ---------------------------------------------------------------- split

  /** Every piece between occurrences of `c`, empty pieces included. */
  function SplitAll(s: string, c: char): (r: seq<string>)
    ensures |r| >= 1
    ensures forall i :: 0 <= i < |r| ==> c !in r[i]
    ensures c !in s ==> r == [s]
    decreases |s|
  {
    if |s| == 0 then [""]
    else
      var rest := SplitAll(s[1..], c);
      if s[0] == c then [""] + rest
      else
        assert c !in s ==> s == [s[0]] + s[1..];
        [[s[0]] + rest[0]] + rest[1..]
  }

  /** The pieces joined by `c`. */
  function Join(pieces: seq<string>, c: char): string
  {
    if |pieces| == 0 then ""
    else if |pieces| == 1 then pieces[0]
    else pieces[0] + [c] + Join(pieces[1..], c)
  }

  lemma AppendAssoc<T>(a: seq<T>, b: seq<T>, c: seq<T>, d: seq<T>)
    ensures a + (b + c + d) == a + b + c + d
  {
  }

  /** A join of five pieces written out. */
  lemma JoinFive(a: string, b: string, d: string, e: string, f: string, c: char)
    ensures Join([a, b, d, e, f], c) == a + [c] + b + [c] + d + [c] + e + [c] + f
  {
    assert [a, b, d, e, f][1..] == [b, d, e, f];
    assert [b, d, e, f][1..] == [d, e, f];
    assert [d, e, f][1..] == [e, f];
    assert [e, f][1..] == [f];
    assert Join([e, f], c) == e + [c] + f;
    assert Join([d, e, f], c) == d + [c] + (e + [c] + f);
    assert Join([b, d, e, f], c) == b + [c] + (d + [c] + (e + [c] + f));
  }

  /** Appending one more piece to a join. */
  lemma {:induction false} JoinSnoc(pieces: seq<string>, p: string, c: char)
    requires |pieces| >= 1
    ensures Join(pieces + [p], c) == Join(pieces, c) + [c] + p
    decreases |pieces|
  {
    if |pieces| > 1 {
      assert (pieces + [p])[1..] == pieces[1..] + [p];
      JoinSnoc(pieces[1..], p, c);
    }
  }

  /** Joining the pieces of a split gives the original string back. */
  lemma {:induction false} JoinSplitAll(s: string, c: char)
    ensures Join(SplitAll(s, c), c) == s
    decreases |s|
  {
    if |s| > 0 {
      var rest := SplitAll(s[1..], c);
      JoinSplitAll(s[1..], c);
      if s[0] == c {
        assert ([""] + rest)[1..] == rest;
      } else {
        var r := [[s[0]] + rest[0]] + rest[1..];
        if |rest| > 1 {
          assert r[1..] == rest[1..];
        }
      }
    }
  }

  /** Splitting a string that has `c` right after a `c`-free prefix. */
  lemma {:induction false} SplitAllAfter(a: string, b: string, c: char)
    requires c !in a
    ensures SplitAll(a + [c] + b, c) == [a] + SplitAll(b, c)
    decreases |a|
  {
    var s := a + [c] + b;
    if |a| == 0 {
      assert s[1..] == b;
    } else {
      assert s[1..] == a[1..] + [c] + b;
      SplitAllAfter(a[1..], b, c);
      assert [a[0]] + a[1..] == a;
    }
  }

  /** Splitting joined `c`-free pieces gives the pieces back. */
  lemma {:induction false} SplitAllJoin(pieces: seq<string>, c: char)
    requires |pieces| >= 1
    requires forall i :: 0 <= i < |pieces| ==> c !in pieces[i]
    ensures SplitAll(Join(pieces, c), c) == pieces
    decreases |pieces|
  {
    if |pieces| > 1 {
      SplitAllJoin(pieces[1..], c);
      SplitAllAfter(pieces[0], Join(pieces[1..], c), c);
      assert [pieces[0]] + pieces[1..] == pieces;
    }
  }

  /** Drops the empty strings at the end of a split, as Java does. */
  function StripTrailingEmpty(ps: seq<string>): (r: seq<string>)
    ensures |r| <= |ps| && r == ps[..|r|]
    ensures r == [] || r[|r| - 1] != ""
    ensures forall i :: |r| <= i < |ps| ==> ps[i] == ""
    decreases |ps|
  {
    if |ps| > 0 && ps[|ps| - 1] == "" then StripTrailingEmpty(ps[..|ps| - 1]) else ps
  }

  /** `s.split(c)` for a separator that is not a regular-expression
      metacharacter (`,` and `:` here): the pieces between separators, with
      trailing empty pieces removed; a string without the separator is
      returned whole, even when it is empty. */
  function Split(s: string, c: char): (r: seq<string>)
    ensures forall i :: 0 <= i < |r| ==> c !in r[i]
    ensures c !in s ==> r == [s]
    ensures c in s ==> r == [] || r[|r| - 1] != ""
  {
    if c !in s then [s] else StripTrailingEmpty(SplitAll(s, c))
  }

  /** Joined pieces contain the separator as soon as there are two of them. */
  lemma JoinHasSeparator(pieces: seq<string>, c: char)
    requires |pieces| >= 2
    ensures c in Join(pieces, c)
  {
    assert Join(pieces, c)[|pieces[0]|] == c;
  }

  /** `Split` undoes `Join` for `c`-free pieces whose last piece is not empty
      (or that are a single piece). */
  lemma SplitJoin(pieces: seq<string>, c: char)
    requires |pieces| >= 1
    requires forall i :: 0 <= i < |pieces| ==> c !in pieces[i]
    requires |pieces| == 1 || pieces[|pieces| - 1] != ""
    ensures Split(Join(pieces, c), c) == pieces
  {
    if |pieces| >= 2 {
      JoinHasSeparator(pieces, c);
      SplitAllJoin(pieces, c);
    }
  }

  // ---------------------------------------------------- replace and trim

  /** `s.replace(String.valueOf(c), "")`: every `c` removed. */
  function RemoveChar(s: string, c: char): (r: string)
    ensures c !in r
    ensures c !in s ==> r == s
    ensures |r| <= |s|
    decreases |s|
  {
    if |s| == 0 then ""
    else
      assert c !in s ==> s == [s[0]] + s[1..];
      (if s[0] == c then "" else [s[0]]) + RemoveChar(s[1..], c)
  }

  lemma {:induction false} RemoveCharConcat(a: string, b: string, c: char)
    ensures RemoveChar(a + b, c) == RemoveChar(a, c) + RemoveChar(b, c)
    decreases |a|
  {
    if |a| > 0 {
      assert (a + b)[1..] == a[1..] + b;
      RemoveCharConcat(a[1..], b, c);
    } else {
      assert a + b == b;
    }
  }

  /** The characters `String.trim` removes: code points up to U+0020. */
  predicate IsSpace(ch: char) {
    ch <= ' '
  }

  function TrimStart(s: string): (r: string)
    ensures |r| <= |s| && r == s[|s| - |r|..]
    ensures |r| > 0 ==> !IsSpace(r[0])
    decreases |s|
  {
    if |s| > 0 && IsSpace(s[0]) then TrimStart(s[1..]) else s
  }

  function TrimEnd(s: string): (r: string)
    ensures |r| <= |s| && r == s[..|r|]
    ensures |r| > 0 ==> !IsSpace(r[|r| - 1])
    decreases |s|
  {
    if |s| > 0 && IsSpace(s[|s| - 1]) then TrimEnd(s[..|s| - 1]) else s
  }

  /** `s.trim()`. */
  function Trim(s: string): (r: string)
    ensures |r| <= |s|
    ensures |r| > 0 ==> !IsSpace(r[0]) && !IsSpace(r[|r| - 1])
    ensures (|s| == 0 || (!IsSpace(s[0]) && !IsSpace(s[|s| - 1]))) ==> r == s
  {
    var t := TrimStart(s);
    if |s| > 0 && !IsSpace(s[0]) && !IsSpace(s[|s| - 1]) then
      assert t == s;
      assert TrimEnd(s) == s;
      t
    else
      var r := TrimEnd(t);
      assert |r| > 0 ==> r[0] == t[0];
      r
  }

  // ------------------------------------------------------------- integers

  predicate IsDigit(ch: char) {
    '0' <= ch <= '9'
  }

  predicate AllDigits(s: string) {
    forall i :: 0 <= i < |s| ==> IsDigit(s[i])
  }

  /** The number a string of decimal digits denotes. */
  function DigitsValue(s: string): nat
    requires AllDigits(s)
    decreases |s|
  {
    if |s| == 0 then 0
    else DigitsValue(s[..|s| - 1]) * 10 + (s[|s| - 1] as int - '0' as int)
  }

  /** `Integer.parseInt(s)` over ASCII digits: an optional sign followed by one
      or more of `'0'..'9'` whose value fits in an `int` gives that value, and
      any other text is None, where Java throws NumberFormatException. Java
      also reads the other Unicode decimal digits (through
      `Character.digit`); this model reads only the ASCII ones. */
  function ParseInt(s: string): (r: Option<int>)
    ensures r.Some? ==> IsInt32(r.value)
    ensures |s| == 0 ==> r.None?
    ensures r.Some? ==> exists i :: 0 <= i < |s| && IsDigit(s[i])
    ensures r.Some? ==> AllDigits(s) || (|s| > 1 && (s[0] == '-' || s[0] == '+') && AllDigits(s[1..]))
    ensures |s| > 0 && AllDigits(s) ==>
      (r.Some? <==> IsInt32(DigitsValue(s))) && (r.Some? ==> r.value == DigitsValue(s))
    ensures |s| > 1 && s[0] == '+' && AllDigits(s[1..]) ==>
      (r.Some? <==> IsInt32(DigitsValue(s[1..]))) && (r.Some? ==> r.value == DigitsValue(s[1..]))
    ensures |s| > 1 && s[0] == '-' && AllDigits(s[1..]) ==>
      (r.Some? <==> IsInt32(-(DigitsValue(s[1..]) as int))) && (r.Some? ==> r.value == -(DigitsValue(s[1..]) as int))
  {
    if |s| == 0 then None
    else if s[0] == '-' || s[0] == '+' then
      if |s| == 1 || !AllDigits(s[1..]) then None
      else
        assert IsDigit(s[1..][0]);
        var d: int := DigitsValue(s[1..]);
        var v := if s[0] == '-' then -d else d;
        if IsInt32(v) then Some(v) else None
    else if !AllDigits(s) then None
    else
      assert IsDigit(s[0]);
      var v := DigitsValue(s);
      if IsInt32(v) then Some(v) else None
  }

  function DigitChar(d: int): (ch: char)
    requires 0 <= d <= 9
    ensures IsDigit(ch) && ch as int - '0' as int == d
  {
    ('0' as int + d) as char
  }

  /** The decimal digits of a natural number, without leading zeros. */
  function NatToString(n: nat): (s: string)
    ensures |s| > 0 && AllDigits(s)
    decreases n
  {
    if n < 10 then [DigitChar(n)] else NatToString(n / 10) + [DigitChar(n % 10)]
  }

  /** `Integer.toString(n)`, which is also what `StringBuilder.append(int)`
      writes. */
  function IntToString(n: int): (s: string)
    ensures |s| > 0
    ensures forall i :: 0 <= i < |s| ==> s[i] == '-' || IsDigit(s[i])
    ensures n >= 0 <==> AllDigits(s)
  {
    if n < 0 then
      var s := "-" + NatToString(-n);
      assert !IsDigit(s[0]);
      s
    else NatToString(n)
  }

  lemma {:induction false} NatToStringValue(n: nat)
    ensures DigitsValue(NatToString(n)) == n
    decreases n
  {
    if n >= 10 {
      var s := NatToString(n);
      NatToStringValue(n / 10);
      assert s[..|s| - 1] == NatToString(n / 10);
    }
  }

  /** `Integer.parseInt` reads back what `Integer.toString` writes. */
  lemma ParseIntToString(n: int)
    requires IsInt32(n)
    ensures ParseInt(IntToString(n)) == Some(n)
  {
    var s := IntToString(n);
    if n < 0 {
      NatToStringValue(-n);
      assert s[1..] == NatToString(-n);
    } else {
      NatToStringValue(n);
    }
  }
}
