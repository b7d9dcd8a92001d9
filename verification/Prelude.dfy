/** Small shared vocabulary: optional values, sums and cardinalities. */
module Prelude {
  datatype Option<+T> = None | Some(value: T) {
    function GetOr(default: T): T {
      if Some? then value else default
    }
  }

  function Max(a: int, b: int): (m: int)
    ensures m >= a && m >= b && (m == a || m == b)
  {
    if a >= b then a else b
  }

  function Min(a: int, b: int): (m: int)
    ensures m <= a && m <= b && (m == a || m == b)
  {
    if a <= b then a else b
  }

  lemma SubsetCardinality<T>(a: set<T>, b: set<T>)
    requires a <= b
    ensures |a| <= |b|
  {
    if a != {} {
      var x :| x in a;
      SubsetCardinality(a - {x}, b - {x});
    }
  }

  lemma PrefixHas<T>(s: seq<T>, i: nat, j: nat)
    ensures i < j <= |s| ==> s[i] in s[..j]
  {
    if i < j <= |s| { assert s[..j][i] == s[i]; }
  }

  lemma SuffixHas<T>(s: seq<T>, i: nat, j: nat)
    ensures j <= i < |s| ==> s[i] in s[j..]
  {
    if j <= i < |s| { assert s[j..][i - j] == s[i]; }
  }

  lemma LessTimes(a: real, b: real, n: real)
    requires n > 0.0
    ensures a < b <==> a * n < b * n
  {
    assert b * n - a * n == (b - a) * n;
  }

  /** The naturals from `lo` up to, not including, `hi`. */
  function Range(lo: nat, hi: nat): (r: set<nat>)
    requires lo <= hi
    ensures forall i :: i in r <==> lo <= i < hi
    ensures |r| == hi - lo
    decreases hi - lo
  {
    if lo == hi then {} else Range(lo, hi - 1) + {hi - 1}
  }
}
