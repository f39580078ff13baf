// Cyclic order: what the second half of the push_swap algorithm relies on.

module PushSwapOrder {
  import opened Collections
  import opened PushSwapList

  ghost predicate Ascending(s: seq<int>) {
    forall i, j :: 0 <= i < j < |s| ==> s[i] < s[j]
  }

  /** Values of a distinct list never descend exactly when they ascend. */
  lemma SortedIsAscending(s: seq<int>)
    requires Distinct(s)
    ensures NonDescending(s) <==> Ascending(s)
  {
  }

  /** Turning s by k places makes it strictly increasing. */
  ghost predicate CyclicAt(s: seq<int>, k: nat) {
    k < |s| && Ascending(Rot(s, k))
  }

  ghost predicate Cyclic(s: seq<int>) {
    exists k: nat :: CyclicAt(s, k)
  }

  ghost predicate IsMin(x: int, s: seq<int>) {
    x in s && forall y :: y in s ==> x <= y
  }

  ghost predicate IsMax(x: int, s: seq<int>) {
    x in s && forall y :: y in s ==> y <= x
  }

  /** t follows v in the cyclic order of s: the least value above v, or the least of all. */
  ghost predicate IsSuccessor(t: int, v: int, s: seq<int>) {
    if exists y :: y in s && y > v
    then t in s && t > v && forall y :: y in s && y > v ==> t <= y
    else IsMin(t, s)
  }

  /** t precedes v: the greatest value below v, or the greatest of all. */
  ghost predicate IsPredecessor(t: int, v: int, s: seq<int>) {
    if exists y :: y in s && y < v
    then t in s && t < v && forall y :: y in s && y < v ==> y <= t
    else IsMax(t, s)
  }

  lemma RotAt<T>(s: seq<T>, k: nat, i: nat)
    requires k <= |s| && i < |s|
    ensures Rot(s, k)[i] == s[if i + k < |s| then i + k else i + k - |s|]
  {
  }

  /** Two increasing runs, the one from k on below the one before it. */
  ghost predicate TwoRuns(s: seq<int>, k: nat)
    requires k <= |s|
  {
    && (forall i, j :: 0 <= i < j < k ==> s[i] < s[j])
    && (forall i, j :: k <= i < j < |s| ==> s[i] < s[j])
    && (forall i, j :: 0 <= i < k <= j < |s| ==> s[j] < s[i])
  }

  /** CyclicAt by positions: two increasing runs, the later one below the earlier. */
  lemma CyclicRuns(s: seq<int>, k: nat)
    requires k < |s|
    ensures CyclicAt(s, k) <==> TwoRuns(s, k)
  {
    var r := Rot(s, k);
    var n := |s|;
    assert forall i :: k <= i < n ==> s[i] == r[i - k];
    assert forall i :: 0 <= i < k ==> s[i] == r[i + n - k];
    assert forall i :: 0 <= i < n - k ==> r[i] == s[i + k];
    assert forall i :: n - k <= i < n ==> r[i] == s[i + k - n];
  }

  lemma RotRot<T>(s: seq<T>, j: nat, k: nat)
    requires j <= |s| && k <= |s|
    ensures Rot(Rot(s, j), k) == if j + k <= |s| then Rot(s, j + k) else Rot(s, j + k - |s|)
  {
    hide Rot;
    var m := if j + k <= |s| then j + k else j + k - |s|;
    forall i | 0 <= i < |s| ensures Rot(Rot(s, j), k)[i] == Rot(s, m)[i] {
      RotAt(Rot(s, j), k, i);
      RotAt(s, j, if i + k < |s| then i + k else i + k - |s|);
      RotAt(s, m, i);
    }
  }

  lemma RotKeepsCyclic(s: seq<int>, j: nat)
    requires Cyclic(s) && j <= |s|
    ensures Cyclic(Rot(s, j))
  {
    var k: nat :| CyclicAt(s, k);
    var m := if k >= j then k - j else k - j + |s|;
    RotRot(s, j, m);
    assert Rot(Rot(s, j), m) == Rot(s, k);
    assert CyclicAt(Rot(s, j), m);
  }

  lemma RunsLonger(s: seq<int>, v: int, k: nat)
    requires 0 < k < |s| && TwoRuns(s, k) && v < s[0]
    requires forall j :: k <= j < |s| ==> s[j] < v
    ensures TwoRuns([v] + s, k + 1)
  {
    var t := [v] + s;
    assert forall i :: 1 <= i < |t| ==> t[i] == s[i - 1];
  }

  lemma InsertInside(s: seq<int>, v: int, k: nat)
    requires 0 < k && CyclicAt(s, k) && v !in s && IsSuccessor(s[0], v, s)
    ensures CyclicAt([v] + s, k + 1)
  {
    CyclicRuns(s, k);
    assert s[k] in s && s[k] < s[0];
    assert s[0] > v;
    forall j | k <= j < |s| ensures s[j] < v {
      assert s[j] in s && s[j] < s[0];
    }
    RunsLonger(s, v, k);
    CyclicRuns([v] + s, k + 1);
  }

  lemma InsertAtSeam(s: seq<int>, v: int)
    requires CyclicAt(s, 0) && v !in s && IsSuccessor(s[0], v, s)
    ensures Cyclic([v] + s)
  {
    var t := [v] + s;
    assert Rot(s, 0) == s;
    if s[0] > v {
      assert Rot(t, 0) == t;
      assert CyclicAt(t, 0);
    } else {
      forall j | 0 <= j < |s| ensures s[j] < v {
        assert s[j] in s && s[0] in s;
      }
      assert Rot(t, 1) == s + [v];
      assert CyclicAt(t, 1);
    }
  }

  /** Pushing v onto its successor keeps the cyclic order, whatever v is. */
  lemma InsertKeepsCyclic(s: seq<int>, v: int)
    requires Cyclic(s) && v !in s && IsSuccessor(s[0], v, s)
    ensures Cyclic([v] + s)
  {
    var k: nat :| CyclicAt(s, k);
    if k == 0 {
      InsertAtSeam(s, v);
    } else {
      InsertInside(s, v, k);
      assert CyclicAt([v] + s, k + 1);
    }
  }

  lemma MinOnTopSorts(s: seq<int>)
    requires Cyclic(s) && IsMin(s[0], s)
    ensures Ascending(s)
  {
    var k: nat :| CyclicAt(s, k);
    CyclicRuns(s, k);
    assert s[k] in s;
  }

  lemma AscendingIsCyclic(s: seq<int>)
    requires s != [] && Ascending(s)
    ensures Cyclic(s)
  {
    assert Rot(s, 0) == s;
    assert CyclicAt(s, 0);
  }
}
