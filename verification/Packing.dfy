/** The sequence packers: they divide sequences into bins within a capacity, then split bins until
    their number suits the data-parallel shards. */
module Packing {
  import opened Wrappers
  import opened Arith
  import opened Seqs

  datatype PackError =
    | TooLong
    | TooFewSequences
    | CannotRedistribute   // the branch whose message asks to report a bug
    | NotPositive

  // ---------------------------------------------------------------- bins

  // Total length of the sequences in a bin.
  function BinSum(bin: seq<nat>, lens: seq<nat>): nat {
    if |bin| == 0 then 0
    else BinSum(bin[..|bin| - 1], lens) + if bin[|bin| - 1] < |lens| then lens[bin[|bin| - 1]] else 0
  }

  lemma BinSumSnoc(bin: seq<nat>, x: nat, lens: seq<nat>)
    ensures BinSum(bin + [x], lens) == BinSum(bin, lens) + if x < |lens| then lens[x] else 0
  {
    assert (bin + [x])[..|bin|] == bin;
  }

  lemma {:induction false} BinSumConcat(a: seq<nat>, b: seq<nat>, lens: seq<nat>)
    ensures BinSum(a + b, lens) == BinSum(a, lens) + BinSum(b, lens)
  {
    if |b| == 0 {
      assert a + b == a;
    } else {
      var init, x := b[..|b| - 1], b[|b| - 1];
      BinSumConcat(a, init, lens);
      assert a + b == (a + init) + [x];
      BinSumSnoc(a + init, x, lens);
    }
  }

  // The total depends on which sequences are packed, not on their order.
  lemma {:induction false} BinSumSame(a: seq<nat>, b: seq<nat>, lens: seq<nat>)
    requires multiset(a) == multiset(b)
    ensures BinSum(a, lens) == BinSum(b, lens)
    decreases |a|
  {
    hide BinSum;
    assert |multiset(a)| == |a| && |multiset(b)| == |b|;
    if |a| == 0 {
      assert a == b;
    } else {
      var k := FirstAmong(a, b);
      BinSumSame(a[..0] + a[1..], b[..k] + b[k + 1..], lens);
      BinSumRemove(a, 0, lens);
      BinSumRemove(b, k, lens);
    }
  }

  lemma BinSumRemove(a: seq<nat>, k: nat, lens: seq<nat>)
    requires k < |a|
    ensures BinSum(a, lens) == BinSum(a[..k] + a[k + 1..], lens) + if a[k] < |lens| then lens[a[k]] else 0
  {
    assert a == (a[..k] + [a[k]]) + a[k + 1..];
    BinSumConcat(a[..k] + [a[k]], a[k + 1..], lens);
    BinSumSnoc(a[..k], a[k], lens);
    BinSumConcat(a[..k], a[k + 1..], lens);
  }

  ghost predicate GoodBin(bin: seq<nat>, lens: seq<nat>, cap: int) {
    |bin| > 0 && BinSum(bin, lens) <= cap
  }

  ghost predicate GoodBins(bins: seq<seq<nat>>, lens: seq<nat>, cap: int) {
    forall b :: 0 <= b < |bins| ==> GoodBin(bins[b], lens, cap)
  }

  // The bins and the sequences still to be packed are all the sequences, each once.
  ghost predicate Complete(bins: seq<seq<nat>>, rest: seq<nat>, n: nat) {
    multiset(Flatten(bins)) + multiset(rest) == multiset(Identity(n))
  }

  // A packing: every sequence in exactly one bin, no bin empty, no bin above capacity.
  ghost predicate IsPacking(bins: seq<seq<nat>>, lens: seq<nat>, cap: int) {
    GoodBins(bins, lens, cap) && Complete(bins, [], |lens|)
  }

  predicate Fitting(lens: seq<nat>, cap: int) {
    forall i :: 0 <= i < |lens| ==> lens[i] <= cap
  }

  // Neighbouring bins overflow one bin together.
  ghost predicate NeighboursOverflow(bins: seq<seq<nat>>, lens: seq<nat>, cap: int) {
    forall b :: 0 <= b < |bins| - 1 ==> BinSum(bins[b], lens) + BinSum(bins[b + 1], lens) > cap
  }

  // ---------------------------------------------------------------- placing one sequence

  lemma OpenBin(bins: seq<seq<nat>>, rest: seq<nat>, x: nat, after: seq<nat>, n: nat)
    requires Complete(bins, rest, n) && multiset(rest) == multiset(after) + multiset{x}
    ensures Complete(bins + [[x]], after, n)
  {
    FlattenSnoc(bins, [x]);
  }

  lemma AddToBin(bins: seq<seq<nat>>, b: nat, rest: seq<nat>, x: nat, after: seq<nat>, n: nat)
    requires b < |bins| && Complete(bins, rest, n) && multiset(rest) == multiset(after) + multiset{x}
    ensures Complete(bins[b := bins[b] + [x]], after, n)
  {
    FlattenGrow(bins, b, [x]);
  }

  lemma AddKeepsGood(bins: seq<seq<nat>>, b: nat, x: nat, lens: seq<nat>, cap: int)
    requires b < |bins| && GoodBins(bins, lens, cap) && x < |lens| && BinSum(bins[b], lens) + lens[x] <= cap
    ensures GoodBins(bins[b := bins[b] + [x]], lens, cap)
    ensures BinSum(bins[b] + [x], lens) == BinSum(bins[b], lens) + lens[x]
  {
    BinSumSnoc(bins[b], x, lens);
    hide BinSum;
  }

  lemma SingleBin(x: nat, lens: seq<nat>)
    requires x < |lens|
    ensures BinSum([x], lens) == lens[x]
  {
    BinSumSnoc([], x, lens);
    assert [] + [x] == [x];
  }

  // ---------------------------------------------------------------- the concatenative packer

  // The next sequence would not have joined the bin: no room, or (unless -1) the limit is reached.
  ghost predicate CutBefore(bin: seq<nat>, x: nat, lens: seq<nat>, cap: int, limit: int) {
    BinSum(bin + [x], lens) > cap || (limit != -1 && |bin| >= limit)
  }

  ghost predicate CutAt(bins: seq<seq<nat>>, b: nat, lens: seq<nat>, cap: int, limit: int) {
    b + 1 < |bins| && |bins[b + 1]| > 0 && CutBefore(bins[b], bins[b + 1][0], lens, cap, limit)
  }

  // Every bin ends only where the first sequence of the next bin could not join it, and no bin is
  // over the limit (one sequence is always taken).
  ghost predicate GreedyCuts(bins: seq<seq<nat>>, lens: seq<nat>, cap: int, limit: int) {
    && (forall b :: 0 <= b < |bins| - 1 ==> CutAt(bins, b, lens, cap, limit))
    && (limit != -1 ==> forall b :: 0 <= b < |bins| ==> |bins[b]| <= 1 || |bins[b]| <= limit)
  }

  // The sequences in their order, cut greedily: together these fix the answer.
  method ConcatenativePack(lens: seq<nat>, cap: int, limit: int) returns (r: Result<seq<seq<nat>>, PackError>)
    ensures r.Ok? <==> forall i :: 0 <= i < |lens| ==> lens[i] <= cap
    ensures r.Ok? ==> IsPacking(r.value, lens, cap)
    ensures r.Ok? ==> Flatten(r.value) == Identity(|lens|) && GreedyCuts(r.value, lens, cap, limit)
    ensures r.Err? ==> r.error == TooLong
  {
    if exists i :: 0 <= i < |lens| && lens[i] > cap {
      return Err(TooLong);
    }
    hide Concatenated, BinSum;
    var bins: seq<seq<nat>> := [];
    var current: seq<nat> := [];
    var currentLength := 0;
    StartConcatenating(lens, cap, limit);
    for i := 0 to |lens|
      invariant Concatenated(bins, current, i, lens, cap, limit)
      invariant currentLength == BinSum(current, lens)
    {
      SingleBin(i, lens);
      BinSumSnoc(current, i, lens);
      if currentLength + lens[i] > cap || (limit != -1 && |current| >= limit) {
        CloseCurrent(bins, current, i, lens, cap, limit);
        if |current| > 0 {
          bins := bins + [current];
        }
        current := [i];
        currentLength := lens[i];
      } else {
        GrowCurrent(bins, current, i, lens, cap, limit);
        current := current + [i];
        currentLength := currentLength + lens[i];
      }
    }
    FinishConcatenating(bins, current, lens, cap, limit);
    if |current| > 0 {
      bins := bins + [current];
    }
    return Ok(bins);
  }

  // The closed bins and the current one hold the first n sequences in order.
  ghost predicate Concatenated(bins: seq<seq<nat>>, current: seq<nat>, n: nat, lens: seq<nat>, cap: int, limit: int) {
    && Flatten(bins) + current == Identity(n)
    && GoodBins(bins, lens, cap)
    && (|current| > 0 <==> n > 0)
    && (|current| == 0 ==> bins == [])
    && (n > 0 ==> BinSum(current, lens) <= cap)
    && GreedyCuts(bins + [current], lens, cap, limit)
  }

  lemma StartConcatenating(lens: seq<nat>, cap: int, limit: int)
    ensures Concatenated([], [], 0, lens, cap, limit) && BinSum([], lens) == 0
  {
    EmptyBins(lens);
    NothingPacked(lens, cap, limit);
    hide GoodBins, GreedyCuts;
  }

  lemma CloseCurrent(bins: seq<seq<nat>>, current: seq<nat>, i: nat, lens: seq<nat>, cap: int, limit: int)
    requires i < |lens| && lens[i] <= cap && Concatenated(bins, current, i, lens, cap, limit)
    requires CutBefore(current, i, lens, cap, limit)
    ensures Concatenated(if |current| > 0 then bins + [current] else bins, [i], i + 1, lens, cap, limit)
  {
    hide BinSum, Flatten, GreedyCuts, GoodBins, Identity, CutBefore;
    IdentitySnoc(i);
    SingleBin(i, lens);
    if |current| > 0 {
      FlattenSnoc(bins, current);
      CloseKeepsCuts(bins + [current], i, lens, cap, limit);
      CloseKeepsGood(bins, current, lens, cap);
    } else {
      OneBin(i, lens, cap, limit);
    }
  }

  lemma GrowCurrent(bins: seq<seq<nat>>, current: seq<nat>, i: nat, lens: seq<nat>, cap: int, limit: int)
    requires i < |lens| && Concatenated(bins, current, i, lens, cap, limit)
    requires BinSum(current, lens) + lens[i] <= cap && (limit != -1 ==> |current| < limit)
    ensures Concatenated(bins, current + [i], i + 1, lens, cap, limit)
  {
    hide BinSum, Flatten, GreedyCuts, GoodBins, Identity;
    IdentitySnoc(i);
    BinSumSnoc(current, i, lens);
    GrowKeepsCuts(bins, current, i, lens, cap, limit);
  }

  lemma FinishConcatenating(bins: seq<seq<nat>>, current: seq<nat>, lens: seq<nat>, cap: int, limit: int)
    requires Concatenated(bins, current, |lens|, lens, cap, limit)
    ensures var all := if |current| > 0 then bins + [current] else bins;
            IsPacking(all, lens, cap) && Flatten(all) == Identity(|lens|) && GreedyCuts(all, lens, cap, limit)
  {
    hide BinSum, Flatten, GreedyCuts, GoodBins, Identity;
    NothingPacked(lens, cap, limit);
    if |current| > 0 {
      FlattenSnoc(bins, current);
      CloseKeepsGood(bins, current, lens, cap);
    }
  }

  lemma IdentitySnoc(n: nat)
    ensures Identity(n + 1) == Identity(n) + [n]
  {
  }

  lemma NothingPacked(lens: seq<nat>, cap: int, limit: int)
    ensures GoodBins([], lens, cap) && GreedyCuts([], lens, cap, limit)
    ensures GreedyCuts([] + [[]], lens, cap, limit) && Identity(0) == []
  {
  }

  lemma OneBin(x: nat, lens: seq<nat>, cap: int, limit: int)
    ensures GreedyCuts([] + [[x]], lens, cap, limit)
  {
  }

  lemma CloseKeepsGood(bins: seq<seq<nat>>, current: seq<nat>, lens: seq<nat>, cap: int)
    requires GoodBins(bins, lens, cap) && |current| > 0 && BinSum(current, lens) <= cap
    ensures GoodBins(bins + [current], lens, cap)
  {
    hide BinSum;
  }

  lemma EmptyBins(lens: seq<nat>)
    ensures Flatten<nat>([]) == [] && BinSum([], lens) == 0
  {
  }

  lemma CloseKeepsCuts(bins: seq<seq<nat>>, x: nat, lens: seq<nat>, cap: int, limit: int)
    requires |bins| > 0 && GreedyCuts(bins, lens, cap, limit) && CutBefore(bins[|bins| - 1], x, lens, cap, limit)
    ensures GreedyCuts(bins + [[x]], lens, cap, limit)
  {
    hide CutBefore;
    forall b | 0 <= b < |bins| ensures CutAt(bins + [[x]], b, lens, cap, limit) {
      if b < |bins| - 1 { assert CutAt(bins, b, lens, cap, limit); }
    }
  }

  lemma GrowKeepsCuts(bins: seq<seq<nat>>, current: seq<nat>, x: nat, lens: seq<nat>, cap: int, limit: int)
    requires GreedyCuts(bins + [current], lens, cap, limit) && (|current| == 0 ==> bins == [])
    requires limit != -1 ==> |current| < limit
    ensures GreedyCuts(bins + [current + [x]], lens, cap, limit)
  {
    hide CutBefore;
    var before, after := bins + [current], bins + [current + [x]];
    forall b | 0 <= b < |after| - 1 ensures CutAt(after, b, lens, cap, limit) {
      assert CutAt(before, b, lens, cap, limit);
    }
    forall b | 0 <= b < |after| ensures limit != -1 ==> |after[b]| <= 1 || |after[b]| <= limit {
      if b < |bins| { assert after[b] == before[b]; }
    }
  }

  // A bin weighs at least as much as each of its members.
  lemma MemberFits(bin: seq<nat>, k: nat, lens: seq<nat>)
    requires k < |bin|
    ensures bin[k] < |lens| ==> lens[bin[k]] <= BinSum(bin, lens)
  {
    BinSumRemove(bin, k, lens);
    hide BinSum;
  }

  lemma CutsOverflow(bins: seq<seq<nat>>, lens: seq<nat>, cap: int)
    requires GreedyCuts(bins, lens, cap, -1)
    ensures cap >= 0 ==> NeighboursOverflow(bins, lens, cap)
  {
    hide BinSum;
    forall b | 0 <= b < |bins| - 1 ensures BinSum(bins[b], lens) + BinSum(bins[b + 1], lens) > cap {
      assert CutAt(bins, b, lens, cap, -1);
      BinSumSnoc(bins[b], bins[b + 1][0], lens);
      MemberFits(bins[b + 1], 0, lens);
    }
  }

  // ---------------------------------------------------------------- first fit, in a given order

  predicate HasRoom(bin: seq<nat>, x: nat, lens: seq<nat>, cap: int)
    requires x < |lens|
  {
    BinSum(bin, lens) + lens[x] <= cap
  }

  // The first bin with room, or the number of bins where there is none.
  function FirstRoom(bins: seq<seq<nat>>, x: nat, lens: seq<nat>, cap: int): (b: nat)
    requires x < |lens|
    ensures b <= |bins| && (b < |bins| ==> HasRoom(bins[b], x, lens, cap))
    ensures forall a :: 0 <= a < b ==> !HasRoom(bins[a], x, lens, cap)
  {
    if |bins| == 0 then 0
    else
      var n := |bins| - 1;
      var b := FirstRoom(bins[..n], x, lens, cap);
      if b < n || HasRoom(bins[n], x, lens, cap) then b else n + 1
  }

  function Joined(bins: seq<seq<nat>>, b: nat, x: nat): seq<seq<nat>> {
    if b < |bins| then bins[b := bins[b] + [x]] else bins + [[x]]
  }

  // The sequences placed one after the other, each into the first bin with room when its turn comes.
  function PlacedInTurn(order: seq<nat>, lens: seq<nat>, cap: int): seq<seq<nat>>
    requires Below(order, |lens|)
  {
    if |order| == 0 then []
    else
      var n := |order| - 1;
      var before := PlacedInTurn(order[..n], lens, cap);
      Joined(before, FirstRoom(before, order[n], lens, cap), order[n])
  }

  lemma PlacedSnoc(order: seq<nat>, i: nat, lens: seq<nat>, cap: int)
    requires Below(order, |lens|) && i < |order|
    ensures var before := PlacedInTurn(order[..i], lens, cap);
            PlacedInTurn(order[..i + 1], lens, cap) == Joined(before, FirstRoom(before, order[i], lens, cap), order[i])
    ensures order[i..] == [order[i]] + order[i + 1..]
  {
    assert order[..i + 1][..i] == order[..i];
  }

  method FirstFitPack(lens: seq<nat>, cap: int, order: seq<nat>) returns (r: Result<seq<seq<nat>>, PackError>)
    requires IsPermutation(order, |lens|)
    ensures r.Ok? <==> forall i :: 0 <= i < |lens| ==> lens[i] <= cap
    ensures r.Ok? ==> IsPacking(r.value, lens, cap) && FirstFit(r.value, lens, cap)
    ensures Below(order, |lens|) && (r.Ok? ==> r.value == PlacedInTurn(order, lens, cap))
    ensures r.Err? ==> r.error == TooLong
  {
    PermutationBounds(order, |lens|);
    NoBins(order, lens, cap);
    hide IsPermutation, Complete, Remaining, GoodBins, FirstFit, FirstRoom, Joined, PlacedInTurn, HasRoom, IsPacking;
    var bins: seq<seq<nat>> := [];
    var remaining: seq<int> := [];
    for i := 0 to |order|
      invariant Complete(bins, order[i..], |lens|)
      invariant forall j :: 0 <= j < i ==> lens[order[j]] <= cap
      invariant Remaining(bins, remaining, lens, cap)
      invariant bins == PlacedInTurn(order[..i], lens, cap)
    {
      var idx := order[i];
      PlacedSnoc(order, i, lens, cap);
      var length := lens[idx];
      if length > cap {
        return Err(TooLong);
      }
      bins, remaining := PlaceFirstFit(bins, remaining, idx, order[i..], order[i + 1..], lens, cap);
    }
    AllOrdered(order, lens, cap);
    RemainingIsPacking(bins, remaining, lens, cap);
    return Ok(bins);
  }

  lemma NoBins(order: seq<nat>, lens: seq<nat>, cap: int)
    requires IsPermutation(order, |lens|)
    ensures Complete([], order, |lens|) && Remaining([], [], lens, cap)
    ensures order[..0] == [] && order[0..] == order && PlacedInTurn([], lens, cap) == []
    ensures order[|order|..] == [] && order[..|order|] == order
  {
  }

  lemma AllOrdered(order: seq<nat>, lens: seq<nat>, cap: int)
    requires IsPermutation(order, |lens|) && Below(order, |lens|)
    requires forall j :: 0 <= j < |order| ==> lens[order[j]] <= cap
    ensures Fitting(lens, cap)
  {
    forall i | 0 <= i < |lens| ensures lens[i] <= cap {
      assert i in multiset(Identity(|lens|)) by { assert Identity(|lens|)[i] in multiset(Identity(|lens|)); }
      assert i in order;
    }
  }

  // None of the items fits into the bin.
  ghost predicate NoneFits(bin: seq<nat>, items: seq<nat>, lens: seq<nat>, cap: int) {
    forall x :: x in items ==> x < |lens| && BinSum(bin, lens) + lens[x] > cap
  }

  // No sequence fits into an earlier bin.
  ghost predicate FirstFit(bins: seq<seq<nat>>, lens: seq<nat>, cap: int) {
    forall a, b :: 0 <= a < b < |bins| ==> NoneFits(bins[a], bins[b], lens, cap)
  }

  // remaining[b] is the room left in bin b.
  ghost predicate Remaining(bins: seq<seq<nat>>, remaining: seq<int>, lens: seq<nat>, cap: int) {
    && |bins| == |remaining| && FirstFit(bins, lens, cap)
    && (forall b :: 0 <= b < |bins| ==> |bins[b]| > 0 && remaining[b] == cap - BinSum(bins[b], lens) && remaining[b] >= 0)
  }

  lemma RemainingIsGood(bins: seq<seq<nat>>, remaining: seq<int>, lens: seq<nat>, cap: int)
    requires Remaining(bins, remaining, lens, cap)
    ensures GoodBins(bins, lens, cap) && FirstFit(bins, lens, cap)
  {
    hide BinSum, FirstFit;
  }

  lemma RemainingIsPacking(bins: seq<seq<nat>>, remaining: seq<int>, lens: seq<nat>, cap: int)
    requires Remaining(bins, remaining, lens, cap) && Complete(bins, [], |lens|)
    ensures IsPacking(bins, lens, cap) && FirstFit(bins, lens, cap)
  {
    RemainingIsGood(bins, remaining, lens, cap);
    hide Remaining, Complete, GoodBins, FirstFit;
  }

  // First fit leaves any two bins over one capacity together.
  lemma FirstFitOverflows(bins: seq<seq<nat>>, lens: seq<nat>, cap: int)
    requires FirstFit(bins, lens, cap) && GoodBins(bins, lens, cap)
    ensures NeighboursOverflow(bins, lens, cap)
  {
    hide BinSum;
    forall b | 0 <= b < |bins| - 1 ensures BinSum(bins[b], lens) + BinSum(bins[b + 1], lens) > cap {
      assert GoodBin(bins[b + 1], lens, cap);
      assert NoneFits(bins[b], bins[b + 1], lens, cap);
      assert bins[b + 1][0] in bins[b + 1];
      MemberFits(bins[b + 1], 0, lens);
    }
  }

  lemma FitsLess(bin: seq<nat>, fuller: seq<nat>, items: seq<nat>, lens: seq<nat>, cap: int)
    requires NoneFits(bin, items, lens, cap) && BinSum(bin, lens) <= BinSum(fuller, lens)
    ensures NoneFits(fuller, items, lens, cap)
  {
    hide BinSum;
  }

  lemma OneMoreDoesNotFit(bin: seq<nat>, items: seq<nat>, x: nat, lens: seq<nat>, cap: int)
    requires NoneFits(bin, items, lens, cap) && x < |lens| && BinSum(bin, lens) + lens[x] > cap
    ensures NoneFits(bin, items + [x], lens, cap)
  {
    hide BinSum;
  }

  lemma JoinKeepsFit(bins: seq<seq<nat>>, i: nat, x: nat, lens: seq<nat>, cap: int)
    requires i < |bins| && FirstFit(bins, lens, cap) && x < |lens|
    requires forall a :: 0 <= a < i ==> BinSum(bins[a], lens) + lens[x] > cap
    ensures FirstFit(bins[i := bins[i] + [x]], lens, cap)
  {
    hide BinSum, NoneFits;
    BinSumSnoc(bins[i], x, lens);
    var after := bins[i := bins[i] + [x]];
    forall a, b | 0 <= a < b < |after| ensures NoneFits(after[a], after[b], lens, cap) {
      assert NoneFits(bins[a], bins[b], lens, cap);
      if a == i {
        FitsLess(bins[i], bins[i] + [x], bins[b], lens, cap);
      } else if b == i {
        OneMoreDoesNotFit(bins[a], bins[i], x, lens, cap);
      }
    }
  }

  lemma NothingFits(bin: seq<nat>, lens: seq<nat>, cap: int)
    ensures NoneFits(bin, [], lens, cap)
  {
  }

  lemma OpenKeepsFit(bins: seq<seq<nat>>, x: nat, lens: seq<nat>, cap: int)
    requires FirstFit(bins, lens, cap) && x < |lens|
    requires forall a :: 0 <= a < |bins| ==> BinSum(bins[a], lens) + lens[x] > cap
    ensures FirstFit(bins + [[x]], lens, cap)
  {
    hide BinSum, NoneFits;
    var after := bins + [[x]];
    forall a, b | 0 <= a < b < |after| ensures NoneFits(after[a], after[b], lens, cap) {
      if b < |bins| {
        assert NoneFits(bins[a], bins[b], lens, cap);
      } else {
        NothingFits(bins[a], lens, cap);
        OneMoreDoesNotFit(bins[a], [], x, lens, cap);
        assert [] + [x] == [x];
      }
    }
  }

  // One sequence goes to the first bin with room, or opens a bin.
  method PlaceFirstFit(bins: seq<seq<nat>>, remaining: seq<int>, idx: nat, ghost rest: seq<nat>, ghost after: seq<nat>,
                       lens: seq<nat>, cap: int)
    returns (bins': seq<seq<nat>>, remaining': seq<int>)
    requires idx < |lens| && lens[idx] <= cap && Remaining(bins, remaining, lens, cap)
    requires Complete(bins, rest, |lens|) && rest == [idx] + after
    ensures Remaining(bins', remaining', lens, cap) && Complete(bins', after, |lens|)
    ensures bins' == Joined(bins, FirstRoom(bins, idx, lens, cap), idx)
  {
    hide BinSum, Flatten, FirstFit;
    var length := lens[idx];
    assert multiset(rest) == multiset(after) + multiset{idx};
    for i := 0 to |remaining|
      invariant forall j :: 0 <= j < i ==> remaining[j] < length && !HasRoom(bins[j], idx, lens, cap)
    {
      if remaining[i] >= length {
        assert HasRoom(bins[i], idx, lens, cap);
        bins', remaining' := bins[i := bins[i] + [idx]], remaining[i := remaining[i] - length];
        AddToBin(bins, i, rest, idx, after, |lens|);
        BinSumSnoc(bins[i], idx, lens);
        JoinKeepsFit(bins, i, idx, lens, cap);
        return;
      }
    }
    bins', remaining' := bins + [[idx]], remaining + [cap - length];
    OpenBin(bins, rest, idx, after, |lens|);
    OpenKeepsFit(bins, idx, lens, cap);
    SingleBin(idx, lens);
  }

  // ---------------------------------------------------------------- how good the packing is

  lemma {:induction false} TotalAtMost(bins: seq<seq<nat>>, lens: seq<nat>, cap: nat)
    requires GoodBins(bins, lens, cap)
    ensures BinSum(Flatten(bins), lens) <= Times(|bins|, cap)
  {
    hide BinSum;
    EmptyBins(lens);
    if |bins| > 0 {
      var k := |bins| - 1;
      TotalAtMost(bins[..k], lens, cap);
      BinSumConcat(Flatten(bins[..k]), bins[k], lens);
      assert GoodBin(bins[k], lens, cap);
    }
  }

  // Each pair of neighbours holds more than one capacity.
  lemma {:induction false} TotalAtLeast(bins: seq<seq<nat>>, lens: seq<nat>, cap: nat, pairs: nat)
    requires NeighboursOverflow(bins, lens, cap) && 2 * pairs <= |bins|
    ensures BinSum(Flatten(bins[..2 * pairs]), lens) >= Times(pairs, cap + 1)
  {
    hide BinSum;
    if pairs > 0 {
      var k := 2 * pairs - 2;
      TotalAtLeast(bins, lens, cap, pairs - 1);
      assert bins[..k + 2] == bins[..k] + [bins[k]] + [bins[k + 1]];
      FlattenSnoc(bins[..k], bins[k]);
      FlattenSnoc(bins[..k] + [bins[k]], bins[k + 1]);
      BinSumConcat(Flatten(bins[..k]), bins[k], lens);
      BinSumConcat(Flatten(bins[..k]) + bins[k], bins[k + 1], lens);
    }
  }

  lemma {:induction false} FlattenPrefixSum(bins: seq<seq<nat>>, m: nat, lens: seq<nat>)
    requires m <= |bins|
    ensures BinSum(Flatten(bins[..m]), lens) <= BinSum(Flatten(bins), lens)
    decreases |bins|
  {
    hide BinSum;
    if m < |bins| {
      var k := |bins| - 1;
      FlattenPrefixSum(bins[..k], m, lens);
      assert bins[..k][..m] == bins[..m];
      BinSumConcat(Flatten(bins[..k]), bins[k], lens);
    } else {
      assert bins[..m] == bins;
    }
  }

  lemma {:induction false} TimesLess(m: nat, p: nat, cap: nat)
    requires Times(p, cap + 1) <= Times(m, cap) && m > 0
    ensures p < m
  {
    if p >= m {
      TimesMono(m, p, cap + 1);
      TimesStrict(m, cap);
    }
  }

  lemma {:induction false} TimesMono(a: nat, b: nat, k: nat)
    requires a <= b
    ensures Times(a, k) <= Times(b, k)
  {
    if a < b {
      TimesMono(a, b - 1, k);
    }
  }

  lemma {:induction false} TimesStrict(m: nat, cap: nat)
    ensures Times(m, cap + 1) == Times(m, cap) + m
  {
    if m > 0 {
      TimesStrict(m - 1, cap);
    }
  }

  // Bins whose neighbours overflow are fewer than twice the bins of any packing.
  lemma WithinTwiceOptimal(bins: seq<seq<nat>>, other: seq<seq<nat>>, lens: seq<nat>, cap: nat)
    requires IsPacking(bins, lens, cap) && NeighboursOverflow(bins, lens, cap)
    requires IsPacking(other, lens, cap) && |lens| > 0
    ensures |bins| < 2 * |other|
  {
    var pairs := |bins| / 2;
    PackedAll(bins, lens, cap);
    PackedAll(other, lens, cap);
    SomeBin(other, lens, cap);
    hide BinSum, Flatten, Times, IsPacking, Complete;
    TotalAtLeast(bins, lens, cap, pairs);
    FlattenPrefixSum(bins, 2 * pairs, lens);
    BinSumSame(Flatten(bins), Flatten(other), lens);
    PackedTotal(other, lens, cap);
    TimesLess(|other|, pairs, cap);
  }

  lemma PackedTotal(bins: seq<seq<nat>>, lens: seq<nat>, cap: nat)
    requires IsPacking(bins, lens, cap)
    ensures BinSum(Flatten(bins), lens) <= Times(|bins|, cap)
  {
    TotalAtMost(bins, lens, cap);
  }

  lemma PackedAll(bins: seq<seq<nat>>, lens: seq<nat>, cap: int)
    requires IsPacking(bins, lens, cap)
    ensures IsPermutation(Flatten(bins), |lens|)
  {
    assert multiset(Flatten(bins)) + multiset([]) == multiset(Flatten(bins));
  }

  lemma SomeBin(bins: seq<seq<nat>>, lens: seq<nat>, cap: nat)
    requires IsPacking(bins, lens, cap) && |lens| > 0
    ensures |bins| > 0
  {
    PackedAll(bins, lens, cap);
    PermutationBounds(Flatten(bins), |lens|);
  }
}
