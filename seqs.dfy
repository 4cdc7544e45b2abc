/** Facts about mapping a function over a sequence and about reordering. */
module Seqs {

  /** Applies f to every element of s, keeping the order. */
  function MapSeq<A, B>(f: A -> B, s: seq<A>): (r: seq<B>)
    ensures |r| == |s|
    ensures forall k :: 0 <= k < |s| ==> r[k] == f(s[k])
  {
    seq(|s|, k requires 0 <= k < |s| => f(s[k]))
  }

  lemma MapConcat<A, B>(f: A -> B, x: seq<A>, y: seq<A>)
    ensures MapSeq(f, x + y) == MapSeq(f, x) + MapSeq(f, y)
  {
    var l, r := MapSeq(f, x + y), MapSeq(f, x) + MapSeq(f, y);
    forall i | 0 <= i < |x + y| ensures l[i] == r[i] {
      if i < |x| {
        assert (x + y)[i] == x[i];
      } else {
        assert (x + y)[i] == y[i - |x|];
      }
    }
  }

  lemma Cancel<A>(m1: multiset<A>, m2: multiset<A>, x: A)
    requires m1 + multiset{x} == m2 + multiset{x}
    ensures m1 == m2
  {
    forall y ensures m1[y] == m2[y] {
      assert (m1 + multiset{x})[y] == (m2 + multiset{x})[y];
    }
  }

  lemma RemoveAt<A>(b: seq<A>, k: int)
    requires 0 <= k < |b|
    ensures multiset(b) == multiset(b[..k] + b[k + 1..]) + multiset{b[k]}
  {
    assert b == b[..k] + [b[k]] + b[k + 1..];
  }

  /** Mapping a sequence with one element left out leaves out its image. */
  lemma MapSkip<A, B>(f: A -> B, b: seq<A>, k: int)
    requires 0 <= k < |b|
    ensures MapSeq(f, b[..k] + b[k + 1..]) == MapSeq(f, b)[..k] + MapSeq(f, b)[k + 1..]
  {
    var r := MapSeq(f, b);
    var rb := b[..k] + b[k + 1..];
    var m := MapSeq(f, rb);
    forall i | 0 <= i < |rb| ensures m[i] == (r[..k] + r[k + 1..])[i] {
      if i < k {
        assert rb[i] == b[i];
      } else {
        assert rb[i] == b[i + 1];
      }
    }
  }

  lemma MapRemoveAt<A, B>(f: A -> B, b: seq<A>, k: int)
    requires 0 <= k < |b|
    ensures multiset(MapSeq(f, b)) == multiset(MapSeq(f, b[..k] + b[k + 1..])) + multiset{f(b[k])}
  {
    MapSkip(f, b, k);
    RemoveAt(MapSeq(f, b), k);
  }

  /** Two permutations of each other that agree from n on are permutations
      of each other below n as well. */
  lemma SplitPermutation<A>(s: seq<A>, t: seq<A>, n: int)
    requires 0 <= n <= |s| == |t|
    requires multiset(s) == multiset(t) && s[n..] == t[n..]
    ensures multiset(s[..n]) == multiset(t[..n])
  {
    assert s == s[..n] + s[n..];
    assert t == t[..n] + t[n..];
    forall y ensures multiset(s[..n])[y] == multiset(t[..n])[y] {
      assert multiset(s)[y] == multiset(s[..n])[y] + multiset(s[n..])[y];
      assert multiset(t)[y] == multiset(t[..n])[y] + multiset(t[n..])[y];
    }
  }

  /** Mapping commutes with reordering: permuted inputs give permuted outputs. */
  lemma {:induction false} MapPermutation<A, B>(f: A -> B, a: seq<A>, b: seq<A>)
    requires multiset(a) == multiset(b)
    ensures multiset(MapSeq(f, a)) == multiset(MapSeq(f, b))
    decreases |a|
  {
    if a == [] {
      assert |multiset(b)| == 0;
    } else {
      var x := a[0];
      assert x in multiset(b) by { assert x in multiset(a); }
      var k :| 0 <= k < |b| && b[k] == x;
      var ra, rb := a[1..], b[..k] + b[k + 1..];
      assert a == [x] + ra;
      RemoveAt(b, k);
      assert multiset(a) == multiset(ra) + multiset{x};
      assert multiset(b) == multiset(rb) + multiset{x};
      Cancel(multiset(ra), multiset(rb), x);
      MapPermutation(f, ra, rb);
      MapConcat(f, [x], ra);
      assert MapSeq(f, [x]) == [f(x)];
      MapRemoveAt(f, b, k);
      assert multiset(MapSeq(f, a)) == multiset(MapSeq(f, ra)) + multiset{f(x)};
      assert multiset(MapSeq(f, b)) == multiset(MapSeq(f, rb)) + multiset{f(x)};
    }
  }
}
