/**
 * A Python `dict[str, str]` as the request handlers see it: an insertion-ordered
 * list of key/value pairs with no key repeated. Also Python's ordering of
 * strings and `sorted` over such pairs.
 */
module Dict {
  import opened Wrappers
  import opened PyText
  import opened FormEncoding

  type Pair = (string, string)

  predicate DistinctKeys<V>(ps: seq<(string, V)>) {
    forall i, j :: 0 <= i < j < |ps| ==> ps[i].0 != ps[j].0
  }

  type Dict = ps: seq<Pair> | DistinctKeys(ps) witness []

  function Keys<V>(ps: seq<(string, V)>): (ks: seq<string>)
    ensures |ks| == |ps| && forall i :: 0 <= i < |ps| ==> ks[i] == ps[i].0
  {
    if |ps| == 0 then [] else [ps[0].0] + Keys(ps[1..])
  }

  /** `d.get(k)`. */
  function Get<V(==,!new)>(d: seq<(string, V)>, k: string): (r: Option<V>)
    ensures r.None? <==> k !in Keys(d)
    ensures r.Some? ==> (k, r.value) in d
    ensures DistinctKeys(d) ==> forall v :: (k, v) in d ==> r == Some(v)
  {
    if |d| == 0 then None
    else if d[0].0 == k then Some(d[0].1)
    else
      var r := Get(d[1..], k);
      assert DistinctKeys(d) ==> DistinctKeys(d[1..]);
      assert Keys(d) == [d[0].0] + Keys(d[1..]);
      assert forall v :: (k, v) in d ==> (k, v) in d[1..];
      r
  }

  /** `d.get(k, default)`. */
  function GetOr(d: seq<Pair>, k: string, default: string): (r: string)
    ensures k !in Keys(d) ==> r == default
    ensures k in Keys(d) ==> Some(r) == Get(d, k)
  {
    Get(d, k).GetOr(default)
  }

  /** `d.get(k) or default`: a missing key and an empty value both give the default. */
  function GetOrIfEmpty(d: seq<Pair>, k: string, default: string): (r: string)
    ensures Get(d, k).Some? && Get(d, k).value != "" ==> r == Get(d, k).value
    ensures Get(d, k).None? || Get(d, k) == Some("") ==> r == default
  {
    match Get(d, k)
    case Some(v) => if v != "" then v else default
    case None => default
  }

  /** `{k: v for k, v in d.items() if keep(k, v)}`, order preserved. */
  function Filter(d: seq<Pair>, keep: Pair -> bool): (r: seq<Pair>)
    ensures forall p :: multiset(r)[p] == if keep(p) then multiset(d)[p] else 0
    ensures forall p :: p in r <==> p in d && keep(p)
    ensures DistinctKeys(d) ==> DistinctKeys(r)
  {
    if |d| == 0 then []
    else
      var rest := Filter(d[1..], keep);
      assert d == [d[0]] + d[1..];
      assert multiset(d) == multiset{d[0]} + multiset(d[1..]);
      if keep(d[0]) then
        FreshKeyPrepends(d, rest);
        [d[0]] + rest
      else
        assert DistinctKeys(d) ==> DistinctKeys(d[1..]);
        rest
  }

  lemma FreshKeyPrepends(d: seq<Pair>, rest: seq<Pair>)
    requires |d| > 0
    requires forall p :: p in rest ==> p in d[1..]
    requires DistinctKeys(d) ==> DistinctKeys(rest)
    ensures DistinctKeys(d) ==> DistinctKeys([d[0]] + rest)
  {
    if DistinctKeys(d) {
      forall j | 0 <= j < |rest| ensures rest[j].0 != d[0].0 {
        assert rest[j] in d[1..];
        var i :| 0 <= i < |d[1..]| && d[1..][i] == rest[j];
        assert d[i + 1] == rest[j];
      }
    }
  }

  /** Python's `a < b` on strings: lexicographic by code point. */
  predicate LexLess(a: string, b: string) {
    |b| > 0 && (|a| == 0 || a[0] < b[0] || (a[0] == b[0] && LexLess(a[1..], b[1..])))
  }

  lemma {:induction false} LexLessIrreflexive(a: string)
    ensures !LexLess(a, a)
  {
    if |a| > 0 {
      LexLessIrreflexive(a[1..]);
    }
  }

  lemma {:induction false} LexLessTransitive(a: string, b: string, c: string)
    requires LexLess(a, b) && LexLess(b, c)
    ensures LexLess(a, c)
  {
    if |a| > 0 && a[0] == b[0] && b[0] == c[0] {
      LexLessTransitive(a[1..], b[1..], c[1..]);
    }
  }

  lemma {:induction false} LexLessTotal(a: string, b: string)
    requires a != b
    ensures LexLess(a, b) || LexLess(b, a)
  {
    if |a| > 0 && |b| > 0 && a[0] == b[0] {
      assert a == [a[0]] + a[1..] && b == [b[0]] + b[1..];
      LexLessTotal(a[1..], b[1..]);
    }
  }

  /** Two strings that agree up to index `n` and differ there are ordered by that character. */
  lemma {:induction false} LexLessAt(a: string, b: string, n: nat)
    requires n < |a| && n < |b| && a[n] < b[n]
    requires forall k :: 0 <= k < n ==> a[k] == b[k]
    ensures LexLess(a, b)
  {
    if n > 0 {
      assert a[0] == b[0];
      LexLessAt(a[1..], b[1..], n - 1);
    }
  }

  /** A chain of neighbours in increasing order is increasing throughout. */
  lemma {:induction false} ChainIsSorted(ps: seq<Pair>)
    requires forall i :: 0 <= i < |ps| - 1 ==> LexLess(ps[i].0, ps[i + 1].0)
    ensures SortedByKey(ps)
    decreases |ps|
  {
    if |ps| > 1 {
      ChainIsSorted(ps[1..]);
      forall j | 1 <= j < |ps| ensures LexLess(ps[0].0, ps[j].0) {
        if j > 1 {
          assert LexLess(ps[1..][0].0, ps[1..][j - 1].0);
          LexLessTransitive(ps[0].0, ps[1].0, ps[j].0);
        }
      }
    }
  }

  lemma LexLessAsymmetric(a: string, b: string)
    requires LexLess(a, b)
    ensures !LexLess(b, a)
  {
    if LexLess(b, a) {
      LexLessTransitive(a, b, a);
      LexLessIrreflexive(a);
    }
  }

  /** Keys strictly increasing, the order `sorted` produces for distinct keys. */
  predicate SortedByKey(ps: seq<Pair>) {
    forall i, j :: 0 <= i < j < |ps| ==> LexLess(ps[i].0, ps[j].0)
  }

  function Insert(p: Pair, ps: seq<Pair>): (r: seq<Pair>)
    requires SortedByKey(ps)
    requires forall q :: q in ps ==> q.0 != p.0
    ensures SortedByKey(r)
    ensures multiset(r) == multiset(ps) + multiset{p}
  {
    if |ps| == 0 then [p]
    else if LexLess(p.0, ps[0].0) then
      forall j | 0 <= j < |ps| ensures LexLess(p.0, ps[j].0) {
        if j > 0 { LexLessTransitive(p.0, ps[0].0, ps[j].0); }
      }
      PrependSorted(p, ps);
      [p] + ps
    else
      assert ps[0] in ps;
      LexLessTotal(p.0, ps[0].0);
      var rest := Insert(p, ps[1..]);
      assert ps == [ps[0]] + ps[1..];
      forall j | 0 <= j < |rest| ensures LexLess(ps[0].0, rest[j].0) {
        assert rest[j] in multiset(rest);
        if rest[j] != p {
          assert rest[j] in multiset(ps[1..]);
          var i :| 0 <= i < |ps[1..]| && ps[1..][i] == rest[j];
          assert ps[i + 1] == rest[j];
        }
      }
      PrependSorted(ps[0], rest);
      [ps[0]] + rest
  }

  lemma PrependSorted(x: Pair, rest: seq<Pair>)
    requires SortedByKey(rest)
    requires forall j :: 0 <= j < |rest| ==> LexLess(x.0, rest[j].0)
    ensures SortedByKey([x] + rest)
  {
  }

  /** Strictly increasing keys are distinct keys. */
  lemma SortedDistinct(ps: seq<Pair>)
    requires SortedByKey(ps)
    ensures DistinctKeys(ps)
  {
    forall i, j | 0 <= i < j < |ps| ensures ps[i].0 != ps[j].0 {
      LexLessIrreflexive(ps[i].0);
    }
  }

  /** `sorted(d.items())` for a dict: its pairs in increasing key order. */
  function SortByKey(ps: seq<Pair>): (r: seq<Pair>)
    requires DistinctKeys(ps)
    ensures SortedByKey(r)
    ensures multiset(r) == multiset(ps)
  {
    if |ps| == 0 then []
    else
      var sorted := SortByKey(ps[1..]);
      HeadKeyNotInTail(ps, sorted);
      assert ps == [ps[0]] + ps[1..];
      Insert(ps[0], sorted)
  }

  /** With distinct keys, no pair drawn from the tail has the head's key. */
  lemma HeadKeyNotInTail(ps: seq<Pair>, t: seq<Pair>)
    requires DistinctKeys(ps) && |ps| > 0
    requires multiset(t) == multiset(ps[1..])
    ensures forall q :: q in t ==> q.0 != ps[0].0
  {
    forall q | q in t ensures q.0 != ps[0].0 {
      assert q in multiset(ps[1..]);
      var i :| 0 <= i < |ps[1..]| && ps[1..][i] == q;
      assert ps[i + 1] == q;
    }
  }

  /** Two strictly sorted lists with the same elements start with the same element. */
  lemma SortedHeadsAgree(x: seq<Pair>, y: seq<Pair>)
    requires SortedByKey(x) && SortedByKey(y)
    requires multiset(x) == multiset(y) && |x| > 0
    ensures |y| > 0 && x[0] == y[0]
  {
    assert x[0] in multiset(y);
    assert y[0] in multiset(x);
    var i :| 0 <= i < |x| && x[i] == y[0];
    var j :| 0 <= j < |y| && y[j] == x[0];
    if i > 0 && j > 0 {
      assert LexLess(x[0].0, y[0].0);
      assert LexLess(y[0].0, x[0].0);
      LexLessAsymmetric(x[0].0, y[0].0);
    }
  }

  /** A strictly sorted list is determined by its elements: sorting cannot depend on input order. */
  lemma {:induction false} SortedUnique(x: seq<Pair>, y: seq<Pair>)
    requires SortedByKey(x) && SortedByKey(y)
    requires multiset(x) == multiset(y)
    ensures x == y
    decreases |x|
  {
    if |x| == 0 {
      assert |y| == |multiset(y)| == 0;
    } else {
      SortedHeadsAgree(x, y);
      assert x == [x[0]] + x[1..] && y == [y[0]] + y[1..];
      assert multiset(x) == multiset{x[0]} + multiset(x[1..]);
      assert multiset(y) == multiset{y[0]} + multiset(y[1..]);
      assert multiset(x[1..]) == multiset(x) - multiset{x[0]};
      assert multiset(y[1..]) == multiset(y) - multiset{y[0]};
      SortedUnique(x[1..], y[1..]);
    }
  }

  /** `key=quote_plus(value)` joined with `&`, in list order. */
  function EncodePairs(ps: seq<Pair>): string {
    Join("&", PairStrings(ps))
  }

  function PairStrings(ps: seq<Pair>): (r: seq<string>)
    ensures |r| == |ps|
    ensures forall i :: 0 <= i < |ps| ==> r[i] == ps[i].0 + "=" + QuotePlus(ps[i].1)
  {
    if |ps| == 0 then [] else [ps[0].0 + "=" + QuotePlus(ps[0].1)] + PairStrings(ps[1..])
  }

  predicate NonEmptyValue(p: Pair) {
    p.1 != ""
  }

  /**
   * `_encode_pairs_sorted`: drop empty values, sort by key, and join
   * `key=quote_plus(value)` with `&`.
   */
  function EncodePairsSorted(d: Dict): (r: string)
  {
    EncodePairs(SortByKey(Filter(d, NonEmptyValue)))
  }

  /** The canonical string depends only on the dict's contents, not on its insertion order. */
  lemma EncodingIgnoresOrder(d1: Dict, d2: Dict)
    requires multiset(d1) == multiset(d2)
    ensures EncodePairsSorted(d1) == EncodePairsSorted(d2)
  {
    var f1, f2 := Filter(d1, NonEmptyValue), Filter(d2, NonEmptyValue);
    assert multiset(f1) == multiset(f2);
    SortedUnique(SortByKey(f1), SortByKey(f2));
  }

  /** The canonical string lists exactly the non-empty entries, in increasing key order. */
  lemma EncodingIsSortedNonEmpty(d: Dict)
    ensures var s := SortByKey(Filter(d, NonEmptyValue));
      && SortedByKey(s)
      && (forall p :: p in s <==> p in d && p.1 != "")
      && EncodePairsSorted(d) == Join("&", PairStrings(s))
  {
    var f := Filter(d, NonEmptyValue);
    var s := SortByKey(f);
    forall p ensures p in s <==> p in d && p.1 != "" {
      assert p in s <==> p in multiset(s);
      assert p in f <==> p in multiset(f);
    }
  }

  function Zip(ks: seq<string>, vs: seq<string>): (r: seq<Pair>)
    requires |ks| == |vs|
    ensures |r| == |ks| && forall i :: 0 <= i < |ks| ==> r[i] == (ks[i], vs[i])
  {
    seq(|ks|, i requires 0 <= i < |ks| => (ks[i], vs[i]))
  }

  /** The values of a list of pairs, in order. */
  function Values(ps: seq<Pair>): (vs: seq<string>)
    ensures |vs| == |ps| && forall i :: 0 <= i < |ps| ==> vs[i] == ps[i].1
  {
    seq(|ps|, i requires 0 <= i < |ps| => ps[i].1)
  }

  /** Each key is below the next one in Python's string order. */
  predicate ChainOrdered(ks: seq<string>) {
    forall i :: 0 <= i < |ks| - 1 ==> LexLess(ks[i], ks[i + 1])
  }

  /** Pairs keys with values; keys in increasing order give a key-sorted dict. */
  function ZipSorted(ks: seq<string>, vs: seq<string>): (r: seq<Pair>)
    requires |ks| == |vs| && ChainOrdered(ks)
    ensures Keys(r) == ks && Values(r) == vs && SortedByKey(r)
    ensures forall i :: 0 <= i < |ks| ==> r[i] == (ks[i], vs[i])
  {
    var r := Zip(ks, vs);
    ChainIsSorted(r);
    assert Values(r) == vs;
    r
  }
}
