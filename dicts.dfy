/**
 * Python dictionaries with string keys. A Python dict remembers insertion
 * order, and `d[k] = v` on a present key keeps its position, so a dict is
 * modelled as a sequence of entries with pairwise distinct keys.
 */
module Dicts {

  /** No key occurs twice. */
  predicate UniqueKeys<V>(entries: seq<(string, V)>) {
    Distinct(Keys(entries))
  }

  type Dict<V> = d: seq<(string, V)> | UniqueKeys(d) witness []

  /** The keys, in iteration order. */
  function Keys<V>(entries: seq<(string, V)>): (ks: seq<string>)
    ensures |ks| == |entries|
    ensures forall i :: 0 <= i < |entries| ==> ks[i] == entries[i].0
  {
    seq(|entries|, i requires 0 <= i < |entries| => entries[i].0)
  }

  predicate Distinct(xs: seq<string>) {
    forall i, j :: 0 <= i < j < |xs| ==> xs[i] != xs[j]
  }

  /** Position of a present key. */
  function IndexOf<V>(d: Dict<V>, k: string): (i: nat)
    requires k in Keys(d)
    ensures i < |d| && d[i].0 == k
    ensures forall j :: 0 <= j < |d| && d[j].0 == k ==> j == i
  {
    assert exists j :: 0 <= j < |d| && Keys(d)[j] == k;
    var i :| 0 <= i < |d| && d[i].0 == k;
    i
  }

  /** `d[k]` for a present key. */
  function Get<V>(d: Dict<V>, k: string): V
    requires k in Keys(d)
  {
    d[IndexOf(d, k)].1
  }

  /** `d[k] = v`: overwrite in place when present, append otherwise. */
  function Set<V>(d: Dict<V>, k: string, v: V): (r: Dict<V>)
    ensures k in Keys(d) ==> Keys(r) == Keys(d)
    ensures k !in Keys(d) ==> Keys(r) == Keys(d) + [k]
    ensures k in Keys(r) && Get(r, k) == v
    ensures forall k' :: k' != k && k' in Keys(d) ==> k' in Keys(r) && Get(r, k') == Get(d, k')
  {
    if k in Keys(d) then
      var r := d[IndexOf(d, k) := (k, v)];
      assert Keys(r) == Keys(d);
      r
    else
      var r := d + [(k, v)];
      assert Keys(r) == Keys(d) + [k];
      r
  }

  /** `{k: v for k, v in pairs}`: later pairs overwrite earlier ones. */
  function FromPairs<V>(pairs: seq<(string, V)>): (d: Dict<V>)
    ensures forall k :: k in Keys(d) <==> k in Keys(pairs)
  {
    if pairs == [] then []
    else
      var last := pairs[|pairs| - 1];
      var d := Set(FromPairs(pairs[..|pairs| - 1]), last.0, last.1);
      assert forall k :: k in Keys(pairs) <==> k in Keys(pairs[..|pairs| - 1]) || k == last.0 by {
        forall k | k in Keys(pairs) ensures k in Keys(pairs[..|pairs| - 1]) || k == last.0 {
          var i :| 0 <= i < |pairs| && pairs[i].0 == k;
          if i < |pairs| - 1 { assert Keys(pairs[..|pairs| - 1])[i] == k; }
        }
      }
      d
  }

  /** With distinct keys the comprehension keeps every pair, in order. */
  lemma {:induction false} FromDistinctPairs<V>(pairs: seq<(string, V)>)
    requires Distinct(Keys(pairs))
    ensures FromPairs(pairs) == pairs
  {
    if pairs != [] {
      var init := pairs[..|pairs| - 1];
      assert Keys(init) == Keys(pairs)[..|pairs| - 1];
      FromDistinctPairs(init);
      var last := pairs[|pairs| - 1];
      assert last.0 !in Keys(init);
      assert init + [last] == pairs;
    }
  }

  /** Two entry lists with the same keys, in order, and the same value at every position are equal. */
  lemma SameEntries<V>(a: seq<(string, V)>, b: seq<(string, V)>)
    requires Keys(a) == Keys(b)
    requires forall i :: 0 <= i < |a| && i < |b| ==> a[i].1 == b[i].1
    ensures a == b
  {
    assert |a| == |Keys(a)| == |Keys(b)| == |b|;
    forall i | 0 <= i < |a| ensures a[i] == b[i] {
      assert a[i].0 == Keys(a)[i] == Keys(b)[i] == b[i].0;
    }
  }

  function Min(a: int, b: int): int {
    if a <= b then a else b
  }

  /** Python's zip: stops at the shorter argument. */
  function Zip<A, B>(xs: seq<A>, ys: seq<B>): (z: seq<(A, B)>)
    ensures |z| == Min(|xs|, |ys|)
    ensures forall i :: 0 <= i < |z| ==> z[i] == (xs[i], ys[i])
  {
    var n := Min(|xs|, |ys|);
    seq(n, i requires 0 <= i < n => (xs[i], ys[i]))
  }

  /** `{k: f(v) for k, v in d.items()}` */
  function MapValues<V, W>(d: Dict<V>, f: V -> W): (r: Dict<W>)
    ensures Keys(r) == Keys(d)
    ensures forall i :: 0 <= i < |d| ==> r[i].1 == f(d[i].1)
  {
    var r := seq(|d|, i requires 0 <= i < |d| => (d[i].0, f(d[i].1)));
    assert Keys(r) == Keys(d);
    r
  }
}
