/** Splitting bins until their number is a multiple of the shards, as _adjust_bin_count does: single
    sequences move from the fullest bins to new bins of their own. */
module BinCounts {
  import opened Wrappers
  import opened Arith
  import opened Seqs
  import opened Packing

  function AtLeast(current: nat, minCount: Option<nat>): nat {
    if minCount.Some? && minCount.value > current then minCount.value else current
  }

  function TargetCount(current: nat, minCount: Option<nat>, multiple: Option<nat>): nat
    requires multiple.Some? ==> multiple.value >= 1
  {
    var n := AtLeast(current, minCount);
    if multiple.Some? && n % multiple.value != 0 then n + multiple.value - n % multiple.value else n
  }

  // The target is the least count that is not below the bins or the minimum and is a multiple.
  lemma TargetIsLeast(current: nat, minCount: Option<nat>, multiple: Option<nat>, other: nat)
    requires multiple.Some? ==> multiple.value >= 1
    ensures var t := TargetCount(current, minCount, multiple);
            && t >= current && (minCount.Some? ==> t >= minCount.value)
            && (multiple.Some? ==> t % multiple.value == 0)
            && (other >= current && (minCount.Some? ==> other >= minCount.value) && (multiple.Some? ==> other % multiple.value == 0)
                ==> t <= other)
  {
    if multiple.Some? {
      RoundUpIsLeast(AtLeast(current, minCount), multiple.value, other);
    }
  }

  lemma RoundUpIsLeast(n: nat, k: nat, other: nat)
    requires k >= 1
    ensures n % k != 0 ==> (n + k - n % k) % k == 0
    ensures n % k != 0 && other >= n && other % k == 0 ==> n + k - n % k <= other
  {
    var q, r := n / k, n % k;
    assert n == q * k + r;
    if r != 0 {
      MulStep(q, k);
      DivModUnique(n + k - r, k, q + 1, 0);
      if other >= n && other % k == 0 {
        var p := other / k;
        assert other == p * k;
        if p <= q { MulMono(p, q, k); }
        MulMono(q + 1, p, k);
      }
    }
  }

  // The state of the loop: the old bins keep at least one sequence, the new ones up to `filled`
  // have exactly one, the others wait.
  ghost predicate Splitting(bins: seq<seq<nat>>, oldCount: nat, filled: nat, lens: seq<nat>, cap: int) {
    && oldCount <= filled <= |bins|
    && Complete(bins, [], |lens|)
    && (forall b :: 0 <= b < filled ==> GoodBin(bins[b], lens, cap))
    && (forall b :: oldCount <= b < filled ==> |bins[b]| == 1)
    && (forall b :: filled <= b < |bins| ==> bins[b] == [])
  }

  // The old bins keep a front part of their sequences.
  ghost predicate Fronts(before: seq<seq<nat>>, after: seq<seq<nat>>) {
    |before| <= |after| && forall b :: 0 <= b < |before| ==> after[b] <= before[b]
  }

  // Single sequences have moved from the ends of old bins, each to a new bin of its own.
  ghost predicate OnlyMoved(before: seq<seq<nat>>, after: seq<seq<nat>>) {
    Fronts(before, after) && forall b :: |before| <= b < |after| ==> |after[b]| == 1
  }

  // A bin gives up sequences only after every fuller bin is down to one.
  ghost predicate FullestFirst(before: seq<seq<nat>>, after: seq<seq<nat>>) {
    |before| <= |after| && forall a, b ::
      && 0 <= a < |before| && 0 <= b < |before| && after[b] != before[b]
      && (|before[a]| > |before[b]| || (|before[a]| == |before[b]| && a > b)) ==>
      |after[a]| == 1
  }

  method AdjustBinCount(bins: seq<seq<nat>>, minCount: Option<nat>, multiple: Option<nat>,
                        ghost lens: seq<nat>, ghost cap: int)
    returns (r: Result<seq<seq<nat>>, PackError>)
    requires IsPacking(bins, lens, cap)
    requires multiple.Some? ==> multiple.value >= 1
    ensures r.Ok? <==> TargetCount(|bins|, minCount, multiple) <= |lens|
    ensures r.Ok? ==> IsPacking(r.value, lens, cap) && |r.value| == TargetCount(|bins|, minCount, multiple)
    ensures r.Ok? ==> OnlyMoved(bins, r.value) && FullestFirst(bins, r.value)
    ensures r.Err? ==> r.error == TooFewSequences
  {
    hide BinSum, Flatten;
    var current := |bins|;
    var target := TargetCount(current, minCount, multiple);
    TargetIsLeast(current, minCount, multiple, 0);
    PackingLength(bins, lens, cap);
    if target == current {
      return Ok(bins);
    }
    var total := CountSequences(bins);
    if total < target {
      return Err(TooFewSequences);
    }
    r := Split(bins, target, lens, cap);
  }

  // The redistribution loop.
  method Split(bins: seq<seq<nat>>, target: nat, ghost lens: seq<nat>, ghost cap: int)
    returns (r: Result<seq<seq<nat>>, PackError>)
    requires IsPacking(bins, lens, cap) && |bins| <= target <= |lens|
    ensures r.Ok? && IsPacking(r.value, lens, cap) && |r.value| == target
    ensures OnlyMoved(bins, r.value) && FullestFirst(bins, r.value)
  {
    hide BinSum, Flatten, ArgSort, IsPacking, Splitting, DownToOne, IsPermutation, Fronts, Untouched, FullestFirst;
    var current := |bins|;
    var adjusted := bins + seq(target - current, _ => []);
    StartSplitting(bins, target - current, lens, cap);
    var sizes := seq<int>(current, i requires 0 <= i < current => |bins[i]|);
    var order := Reversed(ArgSort(sizes, current));
    ReversedPermutation(ArgSort(sizes, current), current);
    NothingTouched(bins, target - current, order);
    var source := 0;
    NothingSkipped(adjusted, order);
    NothingMoved(bins, target - current);
    for newBin := current to target
      invariant |adjusted| == target && Splitting(adjusted, current, newBin, lens, cap)
      invariant source <= current && DownToOne(adjusted, order, source) && Fronts(bins, adjusted)
      invariant Untouched(bins, adjusted, order, source)
    {
      var passed := source;
      source := FindSource(adjusted, order, source, newBin, lens, cap);
      FewerTouched(bins, adjusted, order, passed, source);
      if source == current {
        AllOnes(adjusted, order, current, newBin, lens, cap);
        assert false;
        return Err(CannotRedistribute);
      }
      adjusted := MoveSequence(bins, adjusted, order, source, newBin, lens, cap);
    }
    SplittingDone(adjusted, current, lens, cap);
    SourcesInOrder(bins, adjusted, sizes, order, source);
    return Ok(adjusted);
  }

  lemma NothingSkipped(bins: seq<seq<nat>>, order: seq<nat>)
    ensures DownToOne(bins, order, 0)
  {
  }

  lemma SplittingDone(bins: seq<seq<nat>>, current: nat, lens: seq<nat>, cap: int)
    requires Splitting(bins, current, |bins|, lens, cap)
    ensures IsPacking(bins, lens, cap) && forall b :: current <= b < |bins| ==> |bins[b]| == 1
  {
    hide BinSum, Flatten;
  }

  lemma NothingMoved(bins: seq<seq<nat>>, extra: nat)
    ensures Fronts(bins, bins + seq(extra, _ => []))
  {
  }

  // The bins behind the source are as they were.
  ghost predicate Untouched(before: seq<seq<nat>>, after: seq<seq<nat>>, order: seq<nat>, source: nat) {
    forall j :: source < j < |order| ==> order[j] < |before| && order[j] < |after| && after[order[j]] == before[order[j]]
  }

  lemma NothingTouched(bins: seq<seq<nat>>, extra: nat, order: seq<nat>)
    requires Below(order, |bins|)
    ensures Untouched(bins, bins + seq(extra, _ => []), order, 0)
  {
  }

  lemma FewerTouched(before: seq<seq<nat>>, after: seq<seq<nat>>, order: seq<nat>, source: nat, source': nat)
    requires Untouched(before, after, order, source) && source <= source'
    ensures Untouched(before, after, order, source')
  {
  }

  // No bin later in the order of the sources is fuller than an earlier one.
  lemma LaterIsNotFuller(bins: seq<seq<nat>>, sizes: seq<int>, ascending: seq<nat>, j: nat, i: nat)
    requires |sizes| == |bins| && forall b :: 0 <= b < |bins| ==> sizes[b] == |bins[b]|
    requires SortedBy(sizes, ascending) && j <= i < |ascending|
    ensures var a, b := Reversed(ascending)[i], Reversed(ascending)[j];
            |bins[a]| < |bins[b]| || (|bins[a]| == |bins[b]| && a <= b)
  {
    hide Reversed;
    var last := |ascending| - 1;
    if j < i {
      assert Before(sizes, ascending[last - i], ascending[last - j]);
    }
  }

  lemma SourceInOrder(before: seq<seq<nat>>, after: seq<seq<nat>>, sizes: seq<int>, order: seq<nat>, source: nat, i: nat, j: nat)
    requires |sizes| == |before| <= |after| && forall b :: 0 <= b < |before| ==> sizes[b] == |before[b]|
    requires order == Reversed(ArgSort(sizes, |before|)) && |order| == |before| && Below(order, |before|)
    requires i < |before| && j < |before|
    requires DownToOne(after, order, source) && Untouched(before, after, order, source)
    requires var a, b := order[i], order[j];
             |before[a]| > |before[b]| || (|before[a]| == |before[b]| && a > b)
    requires after[order[j]] != before[order[j]]
    ensures |after[order[i]]| == 1
  {
    hide ArgSort, Reversed;
    if j <= i {
      ArgSortSorted(sizes, |before|);
      LaterIsNotFuller(before, sizes, ArgSort(sizes, |before|), j, i);
    }
  }

  lemma SourcesInOrder(before: seq<seq<nat>>, after: seq<seq<nat>>, sizes: seq<int>, order: seq<nat>, source: nat)
    requires |sizes| == |before| <= |after| && forall b :: 0 <= b < |before| ==> sizes[b] == |before[b]|
    requires order == Reversed(ArgSort(sizes, |before|)) && IsPermutation(order, |before|)
    requires |order| == |before| && Below(order, |before|)
    requires DownToOne(after, order, source) && Untouched(before, after, order, source)
    ensures FullestFirst(before, after)
  {
    hide IsPermutation, ArgSort, DownToOne, Untouched, Reversed;
    forall a, b | && 0 <= a < |before| && 0 <= b < |before| && after[b] != before[b]
                  && (|before[a]| > |before[b]| || (|before[a]| == |before[b]| && a > b))
      ensures |after[a]| == 1
    {
      var i := PositionOf(order, |before|, a);
      var j := PositionOf(order, |before|, b);
      SourceInOrder(before, after, sizes, order, source, i, j);
    }
  }

  // The bins that the search has passed are down to one sequence.
  ghost predicate DownToOne(bins: seq<seq<nat>>, order: seq<nat>, n: nat) {
    n <= |order| && forall j :: 0 <= j < n ==> order[j] < |bins| && |bins[order[j]]| == 1
  }

  function Reversed(s: seq<nat>): (r: seq<nat>)
    ensures |r| == |s| && forall i :: 0 <= i < |s| ==> r[i] == s[|s| - 1 - i]
  {
    if |s| == 0 then [] else [s[|s| - 1]] + Reversed(s[..|s| - 1])
  }

  lemma {:induction false} ReversedMultiset(s: seq<nat>)
    ensures multiset(Reversed(s)) == multiset(s)
  {
    if |s| > 0 {
      ReversedMultiset(s[..|s| - 1]);
      assert s == s[..|s| - 1] + [s[|s| - 1]];
    }
  }

  lemma ReversedPermutation(s: seq<nat>, n: nat)
    requires IsPermutation(s, n)
    ensures IsPermutation(Reversed(s), n) && |Reversed(s)| == n && Below(Reversed(s), n)
  {
    ReversedMultiset(s);
    PermutationBounds(Reversed(s), n);
  }

  method CountSequences(bins: seq<seq<nat>>) returns (total: nat)
    ensures total == |Flatten(bins)|
  {
    total := 0;
    for b := 0 to |bins|
      invariant total == |Flatten(bins[..b])|
    {
      FlattenSnoc(bins[..b], bins[b]);
      assert bins[..b + 1] == bins[..b] + [bins[b]];
      total := total + |bins[b]|;
    }
    assert bins[..|bins|] == bins;
  }

  // Largest bin first, skipping bins that are down to one sequence.
  method FindSource(bins: seq<seq<nat>>, order: seq<nat>, start: nat, ghost newBin: nat, ghost lens: seq<nat>, ghost cap: int)
    returns (source: nat)
    requires start <= |order| && Below(order, |order|) && Splitting(bins, |order|, newBin, lens, cap)
    requires DownToOne(bins, order, start)
    ensures start <= source <= |order| && DownToOne(bins, order, source)
    ensures source < |order| ==> order[source] < |order| <= |bins| && |bins[order[source]]| > 1
  {
    source := start;
    while source < |order|
      invariant start <= source <= |order| && DownToOne(bins, order, source)
    {
      assert order[source] < |order|;
      assert GoodBin(bins[order[source]], lens, cap);
      if |bins[order[source]]| > 1 {
        return;
      }
      source := source + 1;
    }
  }

  // Pops a sequence off the source bin into the new bin.
  method MoveSequence(ghost before: seq<seq<nat>>, bins: seq<seq<nat>>, order: seq<nat>, source: nat, newBin: nat,
                      ghost lens: seq<nat>, ghost cap: int)
    returns (moved: seq<seq<nat>>)
    requires source < |order| && order[source] < |order| <= newBin < |bins| && |bins[order[source]]| > 1
    requires IsPermutation(order, |order|) && DownToOne(bins, order, source)
    requires Splitting(bins, |order|, newBin, lens, cap) && |before| == |order| && Fronts(before, bins)
    requires Below(order, |order|) && Untouched(before, bins, order, source)
    ensures |moved| == |bins| && Splitting(moved, |order|, newBin + 1, lens, cap) && DownToOne(moved, order, source)
    ensures Fronts(before, moved) && Untouched(before, moved, order, source)
  {
    hide IsPermutation, Splitting, Fronts;
    var from := order[source];
    var k := |bins[from]| - 1;
    ShorterFront(before, bins, from, newBin);
    MoveOne(bins, |order|, newBin, from, lens, cap);
    moved := bins[from := bins[from][..k]][newBin := [bins[from][k]]];
    forall j | 0 <= j < source ensures order[j] < |bins| && |moved[order[j]]| == 1 {
      PermutationInjective(order, |order|, j, source);
    }
    forall j | source < j < |order| ensures moved[order[j]] == before[order[j]] {
      PermutationInjective(order, |order|, source, j);
    }
  }

  lemma ShorterFront(before: seq<seq<nat>>, bins: seq<seq<nat>>, from: nat, newBin: nat)
    requires Fronts(before, bins) && from < |before| <= newBin < |bins| && |bins[from]| > 0
    ensures var k := |bins[from]| - 1;
            Fronts(before, bins[from := bins[from][..k]][newBin := [bins[from][k]]])
  {
  }

  lemma PackingLength(bins: seq<seq<nat>>, lens: seq<nat>, cap: int)
    requires IsPacking(bins, lens, cap)
    ensures |Flatten(bins)| == |lens| >= |bins|
  {
    PackedAll(bins, lens, cap);
    PermutationBounds(Flatten(bins), |lens|);
    NonEmptyLength(bins);
  }

  lemma {:induction false} NonEmptyLength(bins: seq<seq<nat>>)
    requires forall b :: 0 <= b < |bins| ==> |bins[b]| > 0
    ensures |Flatten(bins)| >= |bins|
  {
    if |bins| > 0 {
      NonEmptyLength(bins[..|bins| - 1]);
    }
  }

  lemma {:induction false} FlattenWithEmpty(bins: seq<seq<nat>>, n: nat)
    ensures Flatten(bins + seq(n, _ => [])) == Flatten(bins)
  {
    var all := bins + seq(n, _ => []);
    if n == 0 {
      assert all == bins;
    } else {
      FlattenWithEmpty(bins, n - 1);
      assert all == (bins + seq(n - 1, _ => [])) + [[]];
      FlattenSnoc(bins + seq(n - 1, _ => []), []);
    }
  }

  lemma StartSplitting(bins: seq<seq<nat>>, extra: nat, lens: seq<nat>, cap: int)
    requires IsPacking(bins, lens, cap)
    ensures Splitting(bins + seq(extra, _ => []), |bins|, |bins|, lens, cap)
  {
    FlattenWithEmpty(bins, extra);
    hide BinSum, Flatten;
  }

  lemma FlattenShrink(bins: seq<seq<nat>>, b: nat)
    requires b < |bins| && |bins[b]| > 0
    ensures var k := |bins[b]| - 1;
            multiset(Flatten(bins)) == multiset(Flatten(bins[b := bins[b][..k]])) + multiset{bins[b][k]}
  {
    hide Flatten;
    var k := |bins[b]| - 1;
    ShrinkGrow(bins, b);
    FlattenGrow(bins[b := bins[b][..k]], b, [bins[b][k]]);
  }

  lemma ShrinkGrow(bins: seq<seq<nat>>, b: nat)
    requires b < |bins| && |bins[b]| > 0
    ensures var k := |bins[b]| - 1;
            var less := bins[b := bins[b][..k]];
            less[b := less[b] + [bins[b][k]]] == bins
  {
    var k := |bins[b]| - 1;
    assert bins[b][..k] + [bins[b][k]] == bins[b];
  }

  // Moving the last sequence of a bin to a new bin.
  lemma MoveOne(bins: seq<seq<nat>>, oldCount: nat, newBin: nat, from: nat, lens: seq<nat>, cap: int)
    requires Splitting(bins, oldCount, newBin, lens, cap) && from < oldCount && newBin < |bins| && |bins[from]| > 1
    ensures var k := |bins[from]| - 1;
            Splitting(bins[from := bins[from][..k]][newBin := [bins[from][k]]], oldCount, newBin + 1, lens, cap)
  {
    hide BinSum, Complete;
    assert GoodBin(bins[from], lens, cap);
    MovedConserves(bins, newBin, from, |lens|);
    MovedIsGood(bins[from], lens, cap);
    hide GoodBin;
  }

  lemma MovedConserves(bins: seq<seq<nat>>, newBin: nat, from: nat, n: nat)
    requires Complete(bins, [], n) && from < |bins| && newBin < |bins| && from != newBin
    requires |bins[from]| > 1 && bins[newBin] == []
    ensures var k := |bins[from]| - 1;
            Complete(bins[from := bins[from][..k]][newBin := [bins[from][k]]], [], n)
  {
    hide Flatten, Identity;
    var k := |bins[from]| - 1;
    var x := bins[from][k];
    var less := bins[from := bins[from][..k]];
    FlattenShrink(bins, from);
    FlattenGrow(less, newBin, [x]);
    assert [] + [x] == [x];
  }

  lemma MovedIsGood(bin: seq<nat>, lens: seq<nat>, cap: int)
    requires GoodBin(bin, lens, cap) && |bin| > 1
    ensures GoodBin(bin[..|bin| - 1], lens, cap) && GoodBin([bin[|bin| - 1]], lens, cap)
  {
    var x := bin[|bin| - 1];
    BinSumSnoc([], x, lens);
    assert [] + [x] == [x];
  }

  // When every old bin is down to one sequence, there are only as many sequences as filled bins.
  lemma AllOnes(bins: seq<seq<nat>>, order: seq<nat>, current: nat, newBin: nat, lens: seq<nat>, cap: int)
    requires |order| == current && IsPermutation(order, current)
    requires Splitting(bins, current, newBin, lens, cap) && DownToOne(bins, order, current)
    ensures |lens| == newBin
  {
    forall b | 0 <= b < current ensures |bins[b]| == 1 {
      var i := PositionOf(order, current, b);
      assert |bins[order[i]]| == 1;
    }
    OnesLength(bins, newBin);
    SplitLength(bins, lens);
    hide Flatten, IsPermutation;
  }

  lemma SplitLength(bins: seq<seq<nat>>, lens: seq<nat>)
    requires Complete(bins, [], |lens|)
    ensures |Flatten(bins)| == |lens|
  {
    assert multiset(Flatten(bins)) + multiset([]) == multiset(Flatten(bins));
    PermutationBounds(Flatten(bins), |lens|);
  }

  lemma {:induction false} OnesLength(bins: seq<seq<nat>>, n: nat)
    requires n <= |bins|
    requires forall b :: 0 <= b < n ==> |bins[b]| == 1
    requires forall b :: n <= b < |bins| ==> bins[b] == []
    ensures |Flatten(bins)| == n
    decreases |bins|
  {
    if |bins| > 0 {
      OnesLength(bins[..|bins| - 1], if n == |bins| then n - 1 else n);
    }
  }
}
