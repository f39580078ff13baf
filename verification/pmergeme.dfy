// Merge-insertion sort (CPP/CPP_09/ex02/PmergeMe.cpp). The vector and the deque
// version differ in the container only; the contract fixes the result, so they agree.

module PmergeMe {
  import opened Collections

  /** Comparisons of a binary search among m values, at most. */
  function BitLength(m: nat): nat {
    if m == 0 then 0 else 1 + BitLength(m / 2)
  }

  function CeilLog2(n: nat): nat {
    if n <= 1 then 0 else 1 + CeilLog2((n + 1) / 2)
  }

  lemma {:induction false} BitLengthIsLog(n: nat)
    requires n >= 1
    ensures BitLength(n - 1) == CeilLog2(n)
  {
    if n > 1 {
      BitLengthIsLog((n + 1) / 2);
      assert (n + 1) / 2 - 1 == (n - 1) / 2;
    }
  }

  lemma {:induction false} BitLengthMonotone(m: nat, n: nat)
    requires m <= n
    ensures BitLength(m) <= BitLength(n)
  {
    if m > 0 {
      BitLengthMonotone(m / 2, n / 2);
    }
  }

  function Jacobsthal(i: nat): nat {
    if i < 2 then 1 else Jacobsthal(i - 1) + 2 * Jacobsthal(i - 2)
  }

  function PowerOfTwo(n: nat): nat {
    if n == 0 then 1 else 2 * PowerOfTwo(n - 1)
  }

  /** In closed form: a third of the next power of two, rounded to the nearest whole number. */
  lemma {:induction false} JacobsthalClosed(i: nat)
    ensures 3 * Jacobsthal(i) == PowerOfTwo(i + 1) + if i % 2 == 0 then 1 else -1
  {
    if i >= 2 {
      JacobsthalClosed(i - 1);
      JacobsthalClosed(i - 2);
      assert PowerOfTwo(i + 1) == 2 * PowerOfTwo(i) == 4 * PowerOfTwo(i - 1);
    } else {
      assert PowerOfTwo(1) == 2 && PowerOfTwo(2) == 4;
    }
  }

  lemma JacobsthalNext(i: nat)
    ensures Jacobsthal(i + 2) == Jacobsthal(i + 1) + 2 * Jacobsthal(i)
  {
  }

  lemma {:induction false} JacobsthalPositive(i: nat)
    ensures Jacobsthal(i) >= 1
  {
    if i >= 2 {
      JacobsthalPositive(i - 1);
    }
  }

  /** The first |s| Jacobsthal numbers. */
  ghost predicate JacobsthalPrefix(s: seq<nat>) {
    forall i :: 0 <= i < |s| ==> s[i] == Jacobsthal(i)
  }

  lemma JacobsthalGrows(s: seq<nat>)
    requires |s| >= 2 && JacobsthalPrefix(s)
    ensures JacobsthalPrefix(s + [s[|s| - 1] + 2 * s[|s| - 2]]) && s[|s| - 2] >= 1
  {
    JacobsthalPositive(|s| - 2);
    JacobsthalNext(|s| - 2);
  }

  /** The Jacobsthal numbers up to the first one that reaches size. */
  method JacobsthalSequence(size: nat) returns (result: seq<nat>)
    ensures if size == 0 then result == [] else |result| >= 2 && result[|result| - 1] >= size
    ensures JacobsthalPrefix(result)
    ensures size > 0 ==> result[0] == 1 && result[1] == 1
    ensures |result| > 2 ==> result[|result| - 2] < size
  {
    result := [];
    if size == 0 {
      return;
    }
    var t0: nat, t1: nat := 1, 1;
    result := [1, 1];
    while t1 < size
      invariant |result| >= 2 && t0 == result[|result| - 2] && t1 == result[|result| - 1]
      invariant JacobsthalPrefix(result)
      invariant |result| > 2 ==> t0 < size
      decreases size - t1
    {
      JacobsthalGrows(result);
      hide JacobsthalPrefix, Jacobsthal;
      var next: nat := t1 + 2 * t0;
      t0 := t1;
      t1 := next;
      result := result + [next];
    }
  }

  /** Every position below size, each once. */
  ghost predicate Permutation(order: seq<nat>, size: nat) {
    && Distinct(order)
    && (forall i :: 0 <= i < |order| ==> order[i] < size)
    && (forall k :: 0 <= k < size ==> k in order)
  }

  ghost predicate Ascending(s: seq<nat>) {
    forall i, j :: 0 <= i < j < |s| ==> s[i] < s[j]
  }

  ghost predicate IsJacobsthal(x: nat) {
    exists i: nat :: Jacobsthal(i) == x
  }

  /** The first k positions are one below the Jacobsthal numbers, the others are the gaps. */
  ghost predicate JacobsthalFirst(order: seq<nat>, k: nat) {
    && k <= |order| && Ascending(order[..k]) && Ascending(order[k..])
    && (forall i :: 0 <= i < k ==> IsJacobsthal(order[i] + 1))
    && (forall i :: k <= i < |order| ==> !IsJacobsthal(order[i] + 1))
  }

  lemma {:induction false} JacobsthalMonotone(i: nat, j: nat)
    requires i <= j
    ensures Jacobsthal(i) <= Jacobsthal(j)
    ensures 2 <= i + 1 < j + 1 ==> Jacobsthal(i) < Jacobsthal(j)
    decreases j
  {
    if i < j {
      JacobsthalMonotone(i, j - 1);
      if j >= 2 {
        JacobsthalPositive(j - 2);
      }
    }
  }

  /** order lists, ascending, the positions whose successor occurs in found. */
  ghost predicate Marked(order: seq<nat>, used: seq<bool>, found: seq<nat>) {
    && Ascending(order)
    && (forall i :: 0 <= i < |order| ==> order[i] < |used| && used[order[i]])
    && (forall x :: 0 <= x < |used| && used[x] ==> x in order)
    && (forall x :: 0 <= x < |used| ==> (used[x] <==> x + 1 in found))
  }

  lemma MarkedMore(order: seq<nat>, used: seq<bool>, jac: seq<nat>, i: nat)
    requires JacobsthalPrefix(jac) && i < |jac| && Marked(order, used, jac[..i])
    ensures jac[i] >= 1
    ensures if jac[i] <= |used| && !used[jac[i] - 1]
            then Marked(order + [jac[i] - 1], used[jac[i] - 1 := true], jac[..i + 1])
            else Marked(order, used, jac[..i + 1])
  {
    JacobsthalPositive(i);
    assert jac[..i + 1] == jac[..i] + [jac[i]];
    var more := order + [jac[i] - 1];
    if jac[i] <= |used| && !used[jac[i] - 1] {
      forall k | 0 <= k < |order| ensures more[k] < jac[i] - 1 {
        assert order[k] + 1 in jac[..i];
        var m :| 0 <= m < i && jac[m] == order[k] + 1;
        JacobsthalMonotone(m, i);
      }
    }
  }

  lemma MarkedAll(order: seq<nat>, used: seq<bool>, jac: seq<nat>)
    requires JacobsthalPrefix(jac) && |jac| >= 2 && jac[|jac| - 1] >= |used|
    requires Marked(order, used, jac)
    ensures forall x: nat :: x < |used| ==> (used[x] <==> IsJacobsthal(x + 1))
  {
    forall x: nat | x < |used| ensures used[x] <==> IsJacobsthal(x + 1) {
      if used[x] {
        var m :| 0 <= m < |jac| && jac[m] == x + 1;
        assert Jacobsthal(m) == x + 1;
      } else {
        forall m: nat ensures Jacobsthal(m) != x + 1 {
          if m < |jac| {
            assert jac[m] in jac;
          } else {
            JacobsthalMonotone(|jac| - 1, m);
          }
        }
      }
    }
  }

  /** gaps lists, ascending, the unused positions below i. */
  ghost predicate Gaps(gaps: seq<nat>, used: seq<bool>, i: nat) {
    && i <= |used| && Ascending(gaps)
    && (forall k :: 0 <= k < |gaps| ==> gaps[k] < i && !used[gaps[k]])
    && (forall x :: 0 <= x < i && !used[x] ==> x in gaps)
  }

  lemma GapsMore(marked: seq<nat>, gaps: seq<nat>, used: seq<bool>, i: nat)
    requires i < |used| && Gaps(gaps, used, i)
    ensures if used[i] then Gaps(gaps, used, i + 1) else Gaps(gaps + [i], used, i + 1)
    ensures marked + (gaps + [i]) == (marked + gaps) + [i]
  {
  }

  lemma OrderComplete(marked: seq<nat>, gaps: seq<nat>, used: seq<bool>, found: seq<nat>)
    requires Marked(marked, used, found) && Gaps(gaps, used, |used|)
    requires forall x: nat :: x < |used| ==> (used[x] <==> IsJacobsthal(x + 1))
    ensures Permutation(marked + gaps, |used|) && JacobsthalFirst(marked + gaps, |marked|)
  {
    var order := marked + gaps;
    assert order[..|marked|] == marked && order[|marked|..] == gaps;
    forall x | 0 <= x < |used| ensures x in order {
      assert used[x] ==> x in marked;
    }
  }

  /** The insertion order: first the Jacobsthal positions, then the gaps, both ascending. */
  method JacobsthalOrder(size: nat) returns (order: seq<nat>, ghost k: nat)
    ensures Permutation(order, size) && JacobsthalFirst(order, k)
  {
    order, k := [], 0;
    if size == 0 {
      return;
    }
    var used := new bool[size](_ => false);
    var jac := JacobsthalSequence(size);
    assert Marked(order, used[..], jac[..0]);
    var i: nat := 0;
    while i < |jac|
      invariant i <= |jac|
      invariant Marked(order, used[..], jac[..i])
    {
      hide Marked, JacobsthalPrefix;
      MarkedMore(order, used[..], jac, i);
      if jac[i] >= 1 && jac[i] <= size && !used[jac[i] - 1] {
        order := order + [jac[i] - 1];
        used[jac[i] - 1] := true;
      }
      i := i + 1;
    }
    assert jac[..i] == jac;
    MarkedAll(order, used[..], jac);
    ghost var marked: seq<nat>, gaps: seq<nat>, flags := order, [], used[..];
    i := 0;
    while i < size
      invariant i <= size
      invariant used[..] == flags && order == marked + gaps && Gaps(gaps, flags, i)
    {
      hide Marked, Gaps, JacobsthalPrefix, IsJacobsthal;
      GapsMore(marked, gaps, flags, i);
      if !used[i] {
        order := order + [i];
        gaps := gaps + [i];
      }
      i := i + 1;
    }
    OrderComplete(marked, gaps, flags, jac);
    k := |marked|;
  }

  /** std::lower_bound by bisection: the first position not below val, and the comparisons made. */
  method LowerBound(big: seq<int>, val: int) returns (first: nat, ghost cost: nat)
    requires NonDescending(big)
    ensures first <= |big|
    ensures forall i :: 0 <= i < first ==> big[i] < val
    ensures forall i :: first <= i < |big| ==> val <= big[i]
    ensures cost <= BitLength(|big|)
  {
    first, cost := 0, 0;
    var len := |big|;
    while len > 0
      invariant 0 <= len && first + len <= |big|
      invariant forall i :: 0 <= i < first ==> big[i] < val
      invariant forall i :: first + len <= i < |big| ==> val <= big[i]
      invariant cost + BitLength(len) <= BitLength(|big|)
      decreases len
    {
      var half := len / 2;
      var middle := first + half;
      cost := cost + 1;
      BitLengthMonotone(len - half - 1, half);
      if big[middle] < val {
        first := middle + 1;
        len := len - half - 1;
      } else {
        len := half;
      }
    }
  }

  predicate OneEach(x: int, y: int, first: int, second: int) {
    (x == first && y == second) || (x == second && y == first)
  }

  /** What pairing the first it values has done. */
  ghost predicate Paired(big: seq<int>, small: seq<int>, seen: seq<int>) {
    && |small| == |seen| / 2 && |big| == (|seen| + 1) / 2
    && (forall i :: 0 <= i < |small| ==> small[i] <= big[i] && OneEach(small[i], big[i], seen[2 * i], seen[2 * i + 1]))
    && multiset(big) + multiset(small) == multiset(seen)
  }

  lemma PairedTwo(big: seq<int>, small: seq<int>, seen: seq<int>, pair: seq<int>, x: int, y: int)
    requires |seen| % 2 == 0 && Paired(big, small, seen)
    requires y <= x && (pair == [x, y] || pair == [y, x])
    ensures Paired(big + [x], small + [y], seen + pair)
  {
    BagSnoc(big, x);
    BagSnoc(small, y);
    assert multiset(seen + pair) == multiset(seen) + multiset{x, y};
    AddPair(multiset(big), multiset(small), x, y);
  }

  lemma AddPair(a: multiset<int>, b: multiset<int>, x: int, y: int)
    ensures (a + multiset{x}) + (b + multiset{y}) == (a + b) + multiset{x, y}
  {
  }

  lemma PairedOne(big: seq<int>, small: seq<int>, seen: seq<int>, x: int)
    requires |seen| % 2 == 0 && Paired(big, small, seen)
    ensures Paired(big + [x], small, seen + [x])
  {
  }

  /** The pairing loop: the larger of each pair, and a last one alone, to big; the smaller to small. */
  method Pair(input: seq<int>) returns (big: seq<int>, small: seq<int>, ghost cost: nat)
    ensures Paired(big, small, input) && cost == |input| / 2
  {
    big, small, cost := [], [], 0;
    var it := 0;
    assert Paired([], [], input[..0]);
    while it < |input|
      invariant 0 <= it <= |input| && (it % 2 == 0 || it == |input|)
      invariant Paired(big, small, input[..it]) && cost == it / 2
    {
      hide Paired;
      ghost var seen := input[..it];
      var first := input[it];
      it := it + 1;
      if it == |input| {
        PairedOne(big, small, seen, first);
        big := big + [first];
        assert input[..it] == seen + [first];
        break;
      }
      var second := input[it];
      it := it + 1;
      assert input[..it] == seen + [first, second];
      cost := cost + 1;
      if first > second {
        PairedTwo(big, small, seen, [first, second], first, second);
        big := big + [first];
        small := small + [second];
      } else {
        PairedTwo(big, small, seen, [first, second], second, first);
        big := big + [second];
        small := small + [first];
      }
    }
    assert input[..it] == input;
  }

  lemma InsertSorted(big: seq<int>, pos: nat, val: int)
    requires NonDescending(big) && pos <= |big|
    requires forall i :: 0 <= i < pos ==> big[i] < val
    requires forall i :: pos <= i < |big| ==> val <= big[i]
    ensures NonDescending(big[..pos] + [val] + big[pos..])
  {
    var t := big[..pos] + [val] + big[pos..];
    forall i, j | 0 <= i < j < |t| ensures t[i] <= t[j] {
      assert t[i] == if i < pos then big[i] else if i == pos then val else big[i - 1];
      assert t[j] == if j < pos then big[j] else if j == pos then val else big[j - 1];
    }
  }

  lemma InsertBag(big: seq<int>, pos: nat, val: int)
    requires pos <= |big|
    ensures multiset(big[..pos] + [val] + big[pos..]) == multiset(big) + multiset{val}
  {
    assert multiset(big[..pos] + [val] + big[pos..]) == multiset(big[..pos]) + multiset{val} + multiset(big[pos..]);
    assert big == big[..pos] + big[pos..];
    assert multiset(big) == multiset(big[..pos]) + multiset(big[pos..]);
  }

  /** What the insertion loop keeps: left holds the positions of small still to insert. */
  ghost predicate Inserting(big: seq<int>, sorted: seq<int>, small: seq<int>, order: seq<nat>, i: nat) {
    && i <= |order| && Permutation(order, |small|)
    && NonDescending(big) && |big| == |sorted| + i
    && multiset(big) + Bag(small, Left(order, i, |small|)) == multiset(sorted) + multiset(small)
  }

  ghost function Left(order: seq<nat>, i: nat, size: nat): (s: set<int>)
    requires i <= |order|
    ensures forall k :: k in s ==> 0 <= k < size
  {
    set k | 0 <= k < size && k !in order[..i]
  }

  lemma LeftStep(order: seq<nat>, i: nat, size: nat)
    requires Permutation(order, size) && i < |order|
    ensures order[i] in Left(order, i, size)
    ensures Left(order, i, size) - {order[i]} == Left(order, i + 1, size)
  {
    assert order[..i + 1] == order[..i] + [order[i]];
  }

  lemma InsertingStarts(sorted: seq<int>, small: seq<int>, order: seq<nat>)
    requires NonDescending(sorted) && Permutation(order, |small|)
    ensures Inserting(sorted, sorted, small, order, 0) && |order| <= |small|
  {
    DistinctFits(order, |small|);
    assert Left(order, 0, |small|) == Upto(|small|);
    BagPrefix(small, |small|);
    assert small[..|small|] == small;
  }

  lemma InsertingStep(big: seq<int>, sorted: seq<int>, small: seq<int>, order: seq<nat>, i: nat, pos: nat)
    requires Inserting(big, sorted, small, order, i) && i < |order| && pos <= |big|
    requires forall k :: 0 <= k < pos ==> big[k] < small[order[i]]
    requires forall k :: pos <= k < |big| ==> small[order[i]] <= big[k]
    ensures Inserting(big[..pos] + [small[order[i]]] + big[pos..], sorted, small, order, i + 1)
  {
    InsertSorted(big, pos, small[order[i]]);
    InsertBag(big, pos, small[order[i]]);
    LeftStep(order, i, |small|);
    BagRemove(small, Left(order, i, |small|), order[i]);
    hide NonDescending, Permutation, Left, Bag, Distinct;
  }

  lemma InsertingEnds(big: seq<int>, sorted: seq<int>, small: seq<int>, order: seq<nat>)
    requires Inserting(big, sorted, small, order, |order|)
    ensures NonDescending(big) && multiset(big) == multiset(sorted) + multiset(small)
  {
    assert order[..|order|] == order;
    assert Left(order, |order|, |small|) == {};
    BagNothing(small);
  }

  /** The insertion loop, in Jacobsthal order. */
  method InsertAll(sorted: seq<int>, small: seq<int>) returns (big: seq<int>, ghost cost: nat)
    requires NonDescending(sorted) && sorted != []
    ensures NonDescending(big) && multiset(big) == multiset(sorted) + multiset(small)
    ensures cost <= |small| * BitLength(|sorted| + |small| - 1)
  {
    big, cost := sorted, 0;
    ghost var split;
    var order;
    order, split := JacobsthalOrder(|small|);
    InsertingStarts(sorted, small, order);
    ghost var most := BitLength(|sorted| + |small| - 1);
    var i := 0;
    hide NonDescending, Permutation, Left, BitLength, Bag, Distinct, JacobsthalFirst;
    while i < |order|
      invariant 0 <= i <= |order|
      invariant Inserting(big, sorted, small, order, i)
      invariant cost <= i * most
    {
      ghost var spent;
      big, spent := InsertOne(big, sorted, small, order, i);
      BitLengthMonotone(|sorted| + i, |sorted| + |small| - 1);
      Grow(cost, spent, i, most);
      cost := cost + spent;
      i := i + 1;
    }
    InsertingEnds(big, sorted, small, order);
    Shrink(|order|, |small|, most);
  }

  /** One iteration: the next small value goes where lower_bound says. */
  method InsertOne(was: seq<int>, ghost sorted: seq<int>, small: seq<int>, order: seq<nat>, i: nat)
    returns (big: seq<int>, ghost spent: nat)
    requires i < |order| && Inserting(was, sorted, small, order, i)
    ensures Inserting(big, sorted, small, order, i + 1) && spent <= BitLength(|sorted| + i)
  {
    var idx := order[i];
    var val := small[idx];
    hide Permutation, Left, Bag, Distinct, BitLength;
    var pos;
    pos, spent := LowerBound(was, val);
    InsertingStep(was, sorted, small, order, i, pos);
    big := was[..pos] + [val] + was[pos..];
  }

  lemma Grow(cost: nat, spent: nat, i: nat, most: nat)
    requires cost <= i * most && spent <= most
    ensures cost + spent <= (i + 1) * most
  {
  }

  lemma Shrink(i: nat, n: nat, most: nat)
    requires i <= n
    ensures i * most <= n * most
  {
  }

  /** Sorts in at most n * ceil(log2 n) comparisons. */
  method FordJohnsonSort(input: seq<int>) returns (big: seq<int>, ghost cost: nat)
    ensures NonDescending(big) && multiset(big) == multiset(input)
    ensures cost <= |input| * CeilLog2(|input|)
    decreases |input|
  {
    if |input| <= 1 {
      return input, 0;
    }
    ghost var pairs, rest, spent;
    var small;
    big, small, pairs := Pair(input);
    ghost var unsorted := big;
    big, rest := FordJohnsonSort(big);
    assert |big| == |multiset(unsorted)| == |unsorted|;
    big, spent := InsertAll(big, small);
    BitLengthIsLog(|input|);
    Recurrence(|input|, rest, spent);
    cost := pairs + rest + spent;
  }

  lemma Recurrence(n: nat, rest: nat, spent: nat)
    requires n >= 2
    requires rest <= (n + 1) / 2 * CeilLog2((n + 1) / 2) && spent <= n / 2 * CeilLog2(n)
    ensures n / 2 + rest + spent <= n * CeilLog2(n)
  {
    var f, h, l := n / 2, (n + 1) / 2, CeilLog2(n);
    assert h * (l - 1) == h * l - h;
    assert f * l + h * l == n * l by { assert f + h == n; }
  }

  // The overload on deques, with loops of its own.

  method PairDeque(input: seq<int>) returns (big: seq<int>, small: seq<int>)
    ensures Paired(big, small, input)
  {
    big, small := [], [];
    var it := 0;
    assert Paired([], [], input[..0]);
    while it != |input|
      invariant 0 <= it <= |input| && (it % 2 == 0 || it == |input|)
      invariant Paired(big, small, input[..it])
      decreases |input| - it
    {
      hide Paired;
      ghost var seen := input[..it];
      var first := input[it];
      it := it + 1;
      if it == |input| {
        PairedOne(big, small, seen, first);
        big := big + [first];
        assert input[..it] == seen + [first];
        break;
      }
      var second := input[it];
      it := it + 1;
      assert input[..it] == seen + [first, second];
      if first > second {
        PairedTwo(big, small, seen, [first, second], first, second);
        big := big + [first];
        small := small + [second];
      } else {
        PairedTwo(big, small, seen, [first, second], second, first);
        big := big + [second];
        small := small + [first];
      }
    }
    assert input[..it] == input;
  }

  method InsertDeque(sorted: seq<int>, small: seq<int>) returns (big: seq<int>)
    requires NonDescending(sorted)
    ensures NonDescending(big) && multiset(big) == multiset(sorted) + multiset(small)
  {
    big := sorted;
    ghost var split;
    var order;
    order, split := JacobsthalOrder(|small|);
    InsertingStarts(sorted, small, order);
    var i := 0;
    while i < |order|
      invariant 0 <= i <= |order|
      invariant Inserting(big, sorted, small, order, i)
    {
      hide NonDescending, Permutation, Left, Bag, Distinct;
      ghost var spent;
      var pos;
      pos, spent := LowerBound(big, small[order[i]]);
      InsertingStep(big, sorted, small, order, i, pos);
      big := big[..pos] + [small[order[i]]] + big[pos..];
      i := i + 1;
    }
    InsertingEnds(big, sorted, small, order);
  }

  method FordJohnsonSortDeque(input: seq<int>) returns (big: seq<int>)
    ensures NonDescending(big) && multiset(big) == multiset(input)
    decreases |input|
  {
    if |input| <= 1 {
      return input;
    }
    var small;
    big, small := PairDeque(input);
    PairedSize(big, small, input);
    hide Paired, NonDescending;
    big := FordJohnsonSortDeque(big);
    big := InsertDeque(big, small);
  }

  lemma PairedSize(big: seq<int>, small: seq<int>, input: seq<int>)
    requires Paired(big, small, input) && |input| > 1
    ensures 0 < |big| < |input| && multiset(big) + multiset(small) == multiset(input)
  {
  }

  /** The two sorts of main give the same sequence, whatever the input. */
  method SortBoth(before: seq<int>) returns (afterVector: seq<int>, afterDeque: seq<int>)
    ensures afterVector == afterDeque
    ensures NonDescending(afterVector) && multiset(afterVector) == multiset(before)
  {
    ghost var cost;
    afterVector, cost := FordJohnsonSort(before);
    afterDeque := FordJohnsonSortDeque(before);
    SortedUnique(afterVector, afterDeque);
  }

  /** A sorted arrangement is the only one: any two sorts meeting the contract above agree. */
  lemma {:induction false} SortedUnique(s: seq<int>, t: seq<int>)
    requires NonDescending(s) && NonDescending(t) && multiset(s) == multiset(t)
    ensures s == t
    decreases |s|
  {
    assert |s| == |multiset(s)| == |multiset(t)| == |t|;
    if s != [] {
      var n := |s| - 1;
      SameLast(s, t);
      SortedPrefix(s);
      SortedPrefix(t);
      LastBag(s);
      LastBag(t);
      hide NonDescending;
      RestEqual(multiset(s[..n]), multiset(t[..n]), s[n]);
      SortedUnique(s[..n], t[..n]);
      assert s == s[..n] + [s[n]] && t == t[..n] + [t[n]];
    }
  }

  lemma SortedPrefix(s: seq<int>)
    requires NonDescending(s) && s != []
    ensures NonDescending(s[..|s| - 1])
  {
  }

  lemma SameLast(s: seq<int>, t: seq<int>)
    requires NonDescending(s) && NonDescending(t) && multiset(s) == multiset(t) && s != [] && t != []
    ensures s[|s| - 1] == t[|t| - 1]
  {
    LastIsGreatest(s);
    LastIsGreatest(t);
    hide NonDescending;
  }

  lemma LastIsGreatest(s: seq<int>)
    requires NonDescending(s) && s != []
    ensures s[|s| - 1] in multiset(s) && forall x :: x in multiset(s) ==> x <= s[|s| - 1]
  {
  }

  lemma RestEqual(a: multiset<int>, b: multiset<int>, x: int)
    requires a + multiset{x} == b + multiset{x}
    ensures a == b
  {
    assert (a + multiset{x}) - multiset{x} == a && (b + multiset{x}) - multiset{x} == b;
  }
}
