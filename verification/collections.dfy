// Facts about finite sets and sequences.

module Collections {

  ghost predicate Distinct<T>(s: seq<T>) {
    forall i, j :: 0 <= i < j < |s| ==> s[i] != s[j]
  }

  ghost predicate NonDescending(s: seq<int>) {
    forall i, j :: 0 <= i < j < |s| ==> s[i] <= s[j]
  }

  lemma Assoc<T>(a: seq<T>, b: seq<T>, c: seq<T>)
    ensures (a + b) + c == a + (b + c)
  {
  }

  ghost function Any<T>(s: set<T>): (x: T)
    requires s != {}
    ensures x in s
  {
    var x :| x in s;
    x
  }

  lemma {:induction false} SubsetSize<T>(s: set<T>, t: set<T>)
    requires s <= t
    ensures |s| <= |t|
    ensures |s| == |t| ==> s == t
  {
    if s != {} {
      var x :| x in s;
      SubsetSize(s - {x}, t - {x});
    }
  }

  lemma SmallerSet<T>(s: set<T>, t: set<T>)
    requires s < t
    ensures |s| < |t|
  {
    SubsetSize(s, t);
  }

  function Upto(n: nat): (s: set<int>)
    ensures |s| == n && forall i :: i in s <==> 0 <= i < n
  {
    if n == 0 then {} else Upto(n - 1) + {n - 1}
  }

  /** A sequence without repetition, of numbers below n, has at most n of them. */
  lemma DistinctFits(s: seq<int>, n: nat)
    requires Distinct(s) && forall i :: 0 <= i < |s| ==> 0 <= s[i] < n
    ensures |s| <= n
  {
    DistinctSize(s);
    SubsetSize((set x | x in s), Upto(n));
  }

  lemma {:induction false} DistinctSize<T>(s: seq<T>)
    requires Distinct(s)
    ensures |set x | x in s| == |s|
  {
    if s != [] {
      var n := |s| - 1;
      DistinctSize(s[..n]);
      assert (set x | x in s) == (set x | x in s[..n]) + {s[n]};
    }
  }

  /** The values at the given positions, with multiplicity. */
  ghost function Bag<T>(s: seq<T>, at: set<int>): multiset<T>
    requires forall i :: i in at ==> 0 <= i < |s|
  {
    if at == {} then multiset{}
    else var i := Any(at); Bag(s, at - {i}) + multiset{s[i]}
  }

  lemma {:induction false} BagRemove<T>(s: seq<T>, at: set<int>, i: int)
    requires i in at && forall j :: j in at ==> 0 <= j < |s|
    ensures Bag(s, at) == Bag(s, at - {i}) + multiset{s[i]}
    decreases |at|
  {
    var j := Any(at);
    if i != j {
      BagRemove(s, at - {j}, i);
      BagRemove(s, at - {i}, j);
      assert at - {i} - {j} == at - {j} - {i};
    }
  }

  lemma {:induction false} BagPrefix<T>(s: seq<T>, n: nat)
    requires n <= |s|
    ensures Bag(s, Upto(n)) == multiset(s[..n])
  {
    hide Bag;
    if n > 0 {
      BagPrefix(s, n - 1);
      PrefixBag(s, n);
      BagRemove(s, Upto(n), n - 1);
      UptoBefore(n);
    } else {
      BagNothing(s);
      assert s[..0] == [];
    }
  }

  lemma BagNothing<T>(s: seq<T>)
    ensures Bag(s, {}) == multiset{}
  {
  }

  lemma UptoBefore(n: nat)
    requires n > 0
    ensures Upto(n) - {n - 1} == Upto(n - 1)
  {
  }

  lemma PrefixBag<T>(s: seq<T>, n: nat)
    requires 0 < n <= |s|
    ensures multiset(s[..n]) == multiset(s[..n - 1]) + multiset{s[n - 1]}
  {
    assert s[..n] == s[..n - 1] + [s[n - 1]];
  }

  lemma BagSnoc<T>(s: seq<T>, x: T)
    ensures multiset(s + [x]) == multiset(s) + multiset{x}
  {
  }

  lemma LastBag<T>(s: seq<T>)
    requires s != []
    ensures multiset(s) == multiset(s[..|s| - 1]) + multiset{s[|s| - 1]}
  {
    assert s == s[..|s| - 1] + [s[|s| - 1]];
  }
}
