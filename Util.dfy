/** Shared value types and the small string operations the build engine takes
    from Python's standard library (str.join, str.split, str.strip,
    str.replace, list.reverse, list.remove, sorted string keys). */
module Util {

  datatype Option<+T> = None | Some(value: T)

  /** A value or the exception the source raises instead. */
  datatype Result<+T, +E> = Ok(value: T) | Err(error: E)

  // ---------------------------------------------------------------------
  // Sequences

  function Reverse<T>(s: seq<T>): (r: seq<T>)
    ensures |r| == |s|
    ensures forall i :: 0 <= i < |s| ==> r[i] == s[|s| - 1 - i]
  {
    if s == [] then [] else Reverse(s[1..]) + [s[0]]
  }

  lemma {:induction false} ReverseReverse<T>(s: seq<T>)
    ensures Reverse(Reverse(s)) == s
  {
    var r := Reverse(Reverse(s));
    assert |r| == |s|;
    forall i | 0 <= i < |s| ensures r[i] == s[i] {
      assert r[i] == Reverse(s)[|s| - 1 - i];
    }
  }

  lemma ReverseMembers<T>(s: seq<T>)
    ensures forall x :: x in Reverse(s) <==> x in s
  {
    forall x ensures x in Reverse(s) <==> x in s {
      if x in s {
        var i :| 0 <= i < |s| && s[i] == x;
        assert Reverse(s)[|s| - 1 - i] == x;
      }
    }
  }

  /** Python's list.remove: drop the first occurrence of x. */
  function RemoveFirst<T(==)>(s: seq<T>, x: T): (r: seq<T>)
    requires x in s
    ensures |r| == |s| - 1
    ensures multiset(r) == multiset(s) - multiset{x}
  {
    if s[0] == x then
      assert s == [s[0]] + s[1..];
      s[1..]
    else
      assert s == [s[0]] + s[1..];
      [s[0]] + RemoveFirst(s[1..], x)
  }

  /** No element occurs twice. */
  predicate Distinct<T(==)>(s: seq<T>)
  {
    forall i, j :: 0 <= i < j < |s| ==> s[i] != s[j]
  }

  lemma DistinctCons<T>(a: T, t: seq<T>)
    ensures Distinct([a] + t) <==> a !in t && Distinct(t)
  {
    var s := [a] + t;
    if Distinct(s) {
      forall i, j | 0 <= i < j < |t| ensures t[i] != t[j] {
        assert t[i] == s[i + 1] && t[j] == s[j + 1];
      }
      forall k | 0 <= k < |t| ensures t[k] != a {
        assert t[k] == s[k + 1] && a == s[0];
      }
    }
    if a !in t && Distinct(t) {
      forall i, j | 0 <= i < j < |s| ensures s[i] != s[j] {
        if i == 0 {
          assert s[j] == t[j - 1];
        } else {
          assert s[i] == t[i - 1] && s[j] == t[j - 1];
        }
      }
    }
  }

  /** Removing x from a list without repetitions leaves the other
      elements, still without repetitions. */
  lemma {:induction false} RemoveFirstDistinct<T>(s: seq<T>, x: T)
    requires x in s && Distinct(s)
    ensures Distinct(RemoveFirst(s, x))
    ensures forall y :: y in RemoveFirst(s, x) <==> y in s && y != x
  {
    assert s == [s[0]] + s[1..];
    DistinctCons(s[0], s[1..]);
    if s[0] != x {
      RemoveFirstDistinct(s[1..], x);
      DistinctCons(s[0], RemoveFirst(s[1..], x));
    }
  }

  /** Python's filter(pred, s). */
  function Filter<T(!new)>(s: seq<T>, p: T -> bool): (r: seq<T>)
    ensures |r| <= |s|
    ensures forall x :: x in r <==> x in s && p(x)
  {
    if s == [] then []
    else if p(s[0]) then [s[0]] + Filter(s[1..], p)
    else Filter(s[1..], p)
  }

  /** r keeps some elements of s, in order. */
  predicate Subseq<T(==)>(r: seq<T>, s: seq<T>)
    decreases |s|
  {
    r == [] || (s != [] && ((r[0] == s[0] && Subseq(r[1..], s[1..])) || Subseq(r, s[1..])))
  }

  lemma {:induction false} SubseqRefl<T>(s: seq<T>)
    ensures Subseq(s, s)
  {
    if s != [] { SubseqRefl(s[1..]); }
  }

  lemma {:induction false} SubseqLength<T>(r: seq<T>, s: seq<T>)
    requires Subseq(r, s)
    ensures |r| <= |s|
    decreases |s|
  {
    if r != [] {
      if r[0] == s[0] && Subseq(r[1..], s[1..]) {
        SubseqLength(r[1..], s[1..]);
      } else {
        SubseqLength(r, s[1..]);
      }
    }
  }

  lemma {:induction false} SubseqExtendLeft<T>(r: seq<T>, s: seq<T>, t: seq<T>)
    requires Subseq(r, t)
    ensures Subseq(r, s + t)
    decreases |s|
  {
    if s != [] && r != [] {
      assert (s + t)[1..] == s[1..] + t;
      SubseqExtendLeft(r, s[1..], t);
    } else if s == [] {
      assert s + t == t;
    }
  }

  lemma {:induction false} SubseqConcat<T>(a: seq<T>, b: seq<T>, s: seq<T>, t: seq<T>)
    requires Subseq(a, s) && Subseq(b, t)
    ensures Subseq(a + b, s + t)
    decreases |s|
  {
    if a == [] {
      assert a + b == b;
      SubseqExtendLeft(b, s, t);
    } else {
      assert s != [];
      assert (s + t)[0] == s[0] && (s + t)[1..] == s[1..] + t;
      assert (a + b)[0] == a[0] && (a + b)[1..] == a[1..] + b;
      if a[0] == s[0] && Subseq(a[1..], s[1..]) {
        SubseqConcat(a[1..], b, s[1..], t);
      } else {
        SubseqConcat(a, b, s[1..], t);
      }
    }
  }

  /** s interleaves a and b: it is a merge of the two that keeps the
      order within each. */
  predicate Interleaving<T(==)>(a: seq<T>, b: seq<T>, s: seq<T>)
    decreases |s|
  {
    if s == [] then a == [] && b == []
    else
      || (a != [] && a[0] == s[0] && Interleaving(a[1..], b, s[1..]))
      || (b != [] && b[0] == s[0] && Interleaving(a, b[1..], s[1..]))
  }

  lemma {:induction false} InterleavingPrefixLeft<T>(p: seq<T>, a: seq<T>, b: seq<T>, s: seq<T>)
    requires Interleaving(a, b, s)
    ensures Interleaving(p + a, b, p + s)
    decreases |p|
  {
    if p == [] {
      assert p + a == a && p + s == s;
    } else {
      InterleavingPrefixLeft(p[1..], a, b, s);
      assert (p + a)[1..] == p[1..] + a && (p + s)[1..] == p[1..] + s;
    }
  }

  lemma InterleavingPrefixRight<T>(p: seq<T>, a: seq<T>, b: seq<T>, s: seq<T>)
    requires |p| <= 1 && Interleaving(a, b, s)
    ensures Interleaving(a, p + b, p + s)
  {
    if p == [] {
      assert p + b == b && p + s == s;
    } else {
      assert (p + b)[1..] == b && (p + s)[1..] == s;
    }
  }

  /** An interleaving holds every element of both sides, and nothing else. */
  lemma {:induction false} InterleavingMultiset<T>(a: seq<T>, b: seq<T>, s: seq<T>)
    requires Interleaving(a, b, s)
    ensures multiset(a) + multiset(b) == multiset(s)
    decreases |s|
  {
    if s != [] {
      assert s == [s[0]] + s[1..];
      if a != [] && a[0] == s[0] && Interleaving(a[1..], b, s[1..]) {
        InterleavingMultiset(a[1..], b, s[1..]);
        assert a == [a[0]] + a[1..];
      } else {
        InterleavingMultiset(a, b[1..], s[1..]);
        assert b == [b[0]] + b[1..];
      }
    }
  }

  // ---------------------------------------------------------------------
  // Strings

  /** pre in front of a successful text; an error passes through. */
  function Prepend<E>(pre: string, r: Result<string, E>): Result<string, E>
  {
    if r.Ok? then Ok(pre + r.value) else r
  }

  lemma PrependTwice<E>(a: string, b: string, r: Result<string, E>)
    ensures Prepend(a, Prepend(b, r)) == Prepend(a + b, r)
  {
    if r.Ok? {
      assert a + (b + r.value) == a + b + r.value;
    }
  }

  predicate IsPrefix(p: string, s: string)
  {
    |p| <= |s| && s[..|p|] == p
  }

  /** Python's sep.join(parts). */
  function Join(parts: seq<string>, sep: string): (r: string)
    ensures |parts| == 0 ==> r == ""
    ensures |parts| == 1 ==> r == parts[0]
  {
    if |parts| == 0 then ""
    else if |parts| == 1 then parts[0]
    else parts[0] + sep + Join(parts[1..], sep)
  }

  lemma {:induction false} JoinAppend(parts: seq<string>, last: string, sep: string)
    requires |parts| > 0
    ensures Join(parts + [last], sep) == Join(parts, sep) + sep + last
  {
    if |parts| == 1 {
      assert parts + [last] == [parts[0], last];
    } else {
      assert (parts + [last])[1..] == parts[1..] + [last];
      JoinAppend(parts[1..], last, sep);
    }
  }

  /** Python's s.split(c) for a one-character separator: the pieces between
      separators; the result is never empty. */
  function SplitOn(s: string, c: char): (r: seq<string>)
    ensures |r| >= 1
    ensures forall k :: 0 <= k < |r| ==> c !in r[k]
    ensures Join(r, [c]) == s
    decreases |s|
  {
    if c !in s then [s]
    else
      var i := FirstIndex(s, c);
      var rest := SplitOn(s[i + 1..], c);
      assert s == s[..i] + [c] + s[i + 1..];
      [s[..i]] + rest
  }

  function FirstIndex(s: string, c: char): (i: nat)
    requires c in s
    ensures i < |s| && s[i] == c && c !in s[..i]
  {
    if s[0] == c then 0 else 1 + FirstIndex(s[1..], c)
  }

  /** The first c in a + [c] + b is the one after a when a has none. */
  lemma {:induction false} FirstIndexAfter(a: string, c: char, b: string)
    requires c !in a
    ensures FirstIndex(a + [c] + b, c) == |a|
    decreases |a|
  {
    if a != [] {
      assert (a + [c] + b)[1..] == a[1..] + [c] + b;
      FirstIndexAfter(a[1..], c, b);
    }
  }

  /** The characters Python's str.split() and str.strip() treat as white space. */
  predicate IsSpace(c: char)
  {
    c == ' ' || c == '\t' || c == '\n' || c == '\r' || c == '\U{000B}' || c == '\U{000C}'
  }

  /** Python's s.strip(): drop leading and trailing white space. */
  function Strip(s: string): (r: string)
    ensures |r| <= |s|
    ensures r != [] ==> !IsSpace(r[0]) && !IsSpace(r[|r| - 1])
    ensures (forall k :: 0 <= k < |s| ==> !IsSpace(s[k])) ==> r == s
  {
    StripRight(StripLeft(s))
  }

  function StripLeft(s: string): (r: string)
    ensures |r| <= |s| && r == s[|s| - |r|..]
    ensures r != [] ==> !IsSpace(r[0])
    ensures (s != [] && !IsSpace(s[0])) ==> r == s
  {
    if s != [] && IsSpace(s[0]) then StripLeft(s[1..]) else s
  }

  function StripRight(s: string): (r: string)
    ensures |r| <= |s| && r == s[..|r|]
    ensures r != [] ==> !IsSpace(r[|r| - 1])
    ensures (s != [] && !IsSpace(s[|s| - 1])) ==> r == s
  {
    if s != [] && IsSpace(s[|s| - 1]) then StripRight(s[..|s| - 1]) else s
  }

  /** Python's s.split() with no argument: the maximal runs of
      non-white-space characters. */
  function Words(s: string): (r: seq<string>)
    decreases |s|
  {
    var t := StripLeft(s);
    if t == [] then []
    else
      var n := WordLength(t);
      [t[..n]] + Words(t[n..])
  }

  function WordLength(t: string): (n: nat)
    requires t != [] && !IsSpace(t[0])
    ensures 0 < n <= |t|
    ensures forall j :: 0 <= j < n ==> !IsSpace(t[j])
    ensures n < |t| ==> IsSpace(t[n])
  {
    if |t| == 1 || IsSpace(t[1]) then 1 else 1 + WordLength(t[1..])
  }

  /** Python's s.replace(old, new) for a non-empty old: every non-overlapping
      occurrence, scanning from the left. */
  function Replace(s: string, pat: string, rep: string): (r: string)
    requires pat != []
    decreases |s|
  {
    if |s| < |pat| then s
    else if s[..|pat|] == pat then rep + Replace(s[|pat|..], pat, rep)
    else [s[0]] + Replace(s[1..], pat, rep)
  }

  /** pat occurs in s at position i. */
  predicate MatchesAt(s: string, i: nat, pat: string)
  {
    i + |pat| <= |s| && s[i..i + |pat|] == pat
  }

  /** pat does not occur at i when its j-th character differs. */
  lemma NoMatchHere(s: string, i: nat, pat: string, j: nat)
    requires j < |pat| && i + j < |s| && s[i + j] != pat[j]
    ensures !MatchesAt(s, i, pat)
  {
    assert i + |pat| <= |s| ==> s[i..i + |pat|][j] == s[i + j];
  }

  /** A stretch in which no occurrence starts is copied unchanged. */
  lemma {:induction false} ReplacePlainPrefix(p: string, t: string, pat: string, rep: string)
    requires pat != []
    requires forall i :: 0 <= i < |p| ==> !MatchesAt(p + t, i, pat)
    ensures Replace(p + t, pat, rep) == p + Replace(t, pat, rep)
    decreases |p|
  {
    if p != [] {
      var s := p + t;
      assert !MatchesAt(s, 0, pat) && s[0] == p[0];
      if |s| < |pat| {
        assert |t| < |pat|;
        assert p + Replace(t, pat, rep) == p + t;
      } else {
        assert s[1..] == p[1..] + t && s[..|pat|] == s[0..|pat|];
        forall i | 0 <= i < |p[1..]| ensures !MatchesAt(p[1..] + t, i, pat) {
          if MatchesAt(p[1..] + t, i, pat) {
            assert (p[1..] + t)[i..i + |pat|] == s[i + 1..i + 1 + |pat|];
            assert MatchesAt(s, i + 1, pat);
          }
        }
        ReplacePlainPrefix(p[1..], t, pat, rep);
        assert [p[0]] + (p[1..] + Replace(t, pat, rep)) == p + Replace(t, pat, rep);
      }
    } else {
      assert p + t == t;
    }
  }

  /** An occurrence at the head is replaced. */
  lemma ReplaceHere(pat: string, t: string, rep: string)
    requires pat != []
    ensures Replace(pat + t, pat, rep) == rep + Replace(t, pat, rep)
  {
    assert (pat + t)[..|pat|] == pat && (pat + t)[|pat|..] == t;
  }

  /** Text in which pat does not occur is returned as it is. */
  lemma ReplaceAbsent(s: string, pat: string, rep: string)
    requires pat != []
    requires forall i :: 0 <= i < |s| ==> !MatchesAt(s, i, pat)
    ensures Replace(s, pat, rep) == s
  {
    assert s + [] == s;
    ReplacePlainPrefix(s, [], pat, rep);
  }

  /** No occurrence starts inside p when there is none in p and the text
      after p starts with a character that pat has only at its head. */
  lemma NoMatchAcross(p: string, t: string, pat: string)
    requires forall i :: 0 <= i < |p| ==> !MatchesAt(p, i, pat)
    requires t != [] && forall k :: 1 <= k < |pat| ==> pat[k] != t[0]
    ensures forall i :: 0 <= i < |p| ==> !MatchesAt(p + t, i, pat)
  {
    forall i | 0 <= i < |p| ensures !MatchesAt(p + t, i, pat) {
      if i + |pat| <= |p| {
        assert !MatchesAt(p, i, pat);
        assert (p + t)[i..i + |pat|] == p[i..i + |pat|];
      } else {
        assert pat[|p| - i] != t[0];
        assert i + |pat| <= |p + t| ==> (p + t)[i..i + |pat|][|p| - i] == t[0];
      }
    }
  }

  /** Python's str(n) for an integer. */
  function IntToString(n: int): (r: string)
    ensures r != []
    ensures n < 0 <==> r[0] == '-'
  {
    if n < 0 then "-" + NatToString(-n) else NatToString(n)
  }

  function NatToString(n: nat): (r: string)
    ensures r != [] && forall k :: 0 <= k < |r| ==> '0' <= r[k] <= '9'
    decreases n
  {
    if n < 10 then [Digit(n)] else NatToString(n / 10) + [Digit(n % 10)]
  }

  function Digit(d: nat): (c: char)
    requires d < 10
    ensures '0' <= c <= '9'
  {
    ['0', '1', '2', '3', '4', '5', '6', '7', '8', '9'][d]
  }

  // ---------------------------------------------------------------------
  // Python's ordering of byte strings, and sorting of dictionary keys

  /** a sorts strictly before b: the first differing character is smaller,
      or a is a proper prefix of b. */
  predicate StrLess(a: string, b: string)
  {
    if a == [] then b != []
    else if b == [] then false
    else if a[0] != b[0] then a[0] < b[0]
    else StrLess(a[1..], b[1..])
  }

  lemma {:induction false} StrLessIrreflexive(a: string)
    ensures !StrLess(a, a)
  {
    if a != [] { StrLessIrreflexive(a[1..]); }
  }

  lemma {:induction false} StrLessAsymmetric(a: string, b: string)
    requires StrLess(a, b)
    ensures !StrLess(b, a)
  {
    if a != [] && b != [] && a[0] == b[0] { StrLessAsymmetric(a[1..], b[1..]); }
  }

  lemma {:induction false} StrLessTotal(a: string, b: string)
    requires a != b
    ensures StrLess(a, b) || StrLess(b, a)
  {
    if a != [] && b != [] && a[0] == b[0] {
      assert a == [a[0]] + a[1..] && b == [b[0]] + b[1..];
      StrLessTotal(a[1..], b[1..]);
    }
  }

  predicate SortedStrings(s: seq<string>)
  {
    forall i, j :: 0 <= i < j < |s| ==> StrLess(s[i], s[j])
  }

  lemma {:induction false} StrLessTransitive(a: string, b: string, c: string)
    requires StrLess(a, b) && StrLess(b, c)
    ensures StrLess(a, c)
  {
    if a != [] && b != [] && c != [] && a[0] == b[0] && b[0] == c[0] {
      StrLessTransitive(a[1..], b[1..], c[1..]);
    }
  }

  /** k is the least element of s. */
  predicate IsLeast(k: string, s: set<string>)
  {
    k in s && forall x :: x in s && x != k ==> StrLess(k, x)
  }

  lemma {:induction false} LeastExists(s: set<string>)
    requires s != {}
    ensures exists k :: IsLeast(k, s)
    decreases |s|
  {
    var x :| x in s;
    if s != {x} {
      LeastExists(s - {x});
      var y :| IsLeast(y, s - {x});
      if StrLess(x, y) {
        forall z | z in s && z != x ensures StrLess(x, z) {
          if z != y { StrLessTransitive(x, y, z); }
        }
        assert IsLeast(x, s);
      } else {
        StrLessTotal(x, y);
        assert IsLeast(y, s);
      }
    } else {
      assert IsLeast(x, s);
    }
  }

  lemma LeastUnique(s: set<string>)
    ensures forall k1, k2 :: IsLeast(k1, s) && IsLeast(k2, s) ==> k1 == k2
  {
    forall k1, k2 | IsLeast(k1, s) && IsLeast(k2, s) ensures k1 == k2 {
      if k1 != k2 { StrLessAsymmetric(k1, k2); }
    }
  }

  /** The keys of a dictionary in ascending order, as `keys.sort()` leaves them. */
  function SortedKeys<V>(m: map<string, V>): (r: seq<string>)
    ensures SortedStrings(r)
    ensures forall k :: k in r <==> k in m
    decreases |m.Keys|
  {
    if |m.Keys| == 0 then []
    else
      LeastExists(m.Keys);
      LeastUnique(m.Keys);
      var k :| IsLeast(k, m.Keys);
      var rest := map x | x in m && x != k :: m[x];
      assert rest.Keys == m.Keys - {k};
      var t := SortedKeys(rest);
      forall j | 0 <= j < |t| ensures StrLess(k, t[j]) {
        assert t[j] in rest;
      }
      SortedCons(k, t);
      [k] + t
  }

  lemma SortedCons(k: string, t: seq<string>)
    requires SortedStrings(t)
    requires forall j :: 0 <= j < |t| ==> StrLess(k, t[j])
    ensures SortedStrings([k] + t)
  {
    var r := [k] + t;
    forall i, j | 0 <= i < j < |r| ensures StrLess(r[i], r[j]) {
      if i == 0 { assert r[j] == t[j - 1]; } else { assert r[i] == t[i - 1] && r[j] == t[j - 1]; }
    }
  }

  lemma SortedKeysCount<V>(m: map<string, V>)
    ensures |SortedKeys(m)| == |m|
  {
    var keys := SortedKeys(m);
    DistinctSorted(keys);
    DistinctCard(keys);
    assert (set k | k in keys) == m.Keys;
  }

  /** A map of one key lists that key alone. */
  lemma SingletonKeys<V>(key: string, v: V)
    ensures SortedKeys(map[key := v]) == [key]
  {
    var keys := SortedKeys(map[key := v]);
    SortedKeysCount(map[key := v]);
    assert keys[0] in map[key := v];
  }

  lemma DistinctSorted(s: seq<string>)
    requires SortedStrings(s)
    ensures forall i, j :: 0 <= i < j < |s| ==> s[i] != s[j]
  {
    forall i, j | 0 <= i < j < |s| ensures s[i] != s[j] {
      StrLessIrreflexive(s[i]);
    }
  }

  lemma {:induction false} DistinctCard(s: seq<string>)
    requires forall i, j :: 0 <= i < j < |s| ==> s[i] != s[j]
    ensures |set k | k in s| == |s|
  {
    if s != [] {
      DistinctCard(s[1..]);
      assert (set k | k in s) == (set k | k in s[1..]) + {s[0]};
      assert s[0] !in s[1..];
    }
  }
}
