/** The modified first-fit-decreasing packer: four size classes, one bin for each large item, medium
    and small items beside it, a greedy fill, and first fit for the left-overs. */
module ModifiedFirstFit {
  import opened Wrappers
  import opened Seqs
  import opened Packing

  // ---------------------------------------------------------------- items and their order

  ghost predicate Items(items: seq<nat>, lens: seq<nat>) {
    Below(items, |lens|)
  }

  // list.sort by size, ascending or descending, equal sizes in their old order.
  function SortItems(items: seq<nat>, lens: seq<nat>, descending: bool): (r: seq<nat>)
    requires Items(items, lens)
    ensures multiset(r) == multiset(items) && |r| == |items| && Items(r, lens)
  {
    var order := ArgSort(SortKeys(items, lens, descending), |items|);
    GatherPermutation(items, order);
    Gather(items, order)
  }

  function SortKeys(items: seq<nat>, lens: seq<nat>, descending: bool): (keys: seq<int>)
    requires Items(items, lens)
    ensures |keys| == |items|
    ensures forall i :: 0 <= i < |items| ==> keys[i] == if descending then -(lens[items[i]] as int) else lens[items[i]]
  {
    seq<int>(|items|, i requires 0 <= i < |items| && items[i] < |lens| =>
      if descending then -(lens[items[i]] as int) else lens[items[i]])
  }

  ghost predicate Descending(items: seq<nat>, lens: seq<nat>) {
    && Items(items, lens)
    && forall a, b :: 0 <= a < b < |items| ==> lens[items[a]] >= lens[items[b]]
  }

  lemma SortedDescending(items: seq<nat>, lens: seq<nat>)
    requires Items(items, lens)
    ensures Descending(SortItems(items, lens, true), lens)
  {
    hide ArgSort;
    var keys := SortKeys(items, lens, true);
    var order := ArgSort(keys, |items|);
    ArgSortSorted(keys, |items|);
    GatherPermutation(items, order);
    forall a, b | 0 <= a < b < |items| ensures lens[items[order[a]]] >= lens[items[order[b]]] {
      assert Before(keys, order[a], order[b]);
    }
  }

  ghost predicate Ascending(items: seq<nat>, lens: seq<nat>) {
    && Items(items, lens)
    && forall a, b :: 0 <= a < b < |items| ==> lens[items[a]] <= lens[items[b]]
  }

  lemma SortedAscending(items: seq<nat>, lens: seq<nat>)
    requires Items(items, lens)
    ensures Ascending(SortItems(items, lens, false), lens)
  {
    hide ArgSort;
    var keys := SortKeys(items, lens, false);
    var order := ArgSort(keys, |items|);
    ArgSortSorted(keys, |items|);
    GatherPermutation(items, order);
    forall a, b | 0 <= a < b < |items| ensures lens[items[order[a]]] <= lens[items[order[b]]] {
      assert Before(keys, order[a], order[b]);
    }
  }

  lemma RemoveAscending(items: seq<nat>, lens: seq<nat>, i: nat)
    requires Ascending(items, lens) && i < |items|
    ensures Ascending(RemoveItem(items, i), lens)
    ensures forall x :: x in RemoveItem(items, i) ==> x in items
  {
  }

  lemma RemoveDescending(items: seq<nat>, lens: seq<nat>, i: nat)
    requires Descending(items, lens) && i < |items|
    ensures Descending(RemoveItem(items, i), lens)
    ensures forall x :: x in RemoveItem(items, i) ==> x in items
  {
  }

  function RemoveItem(items: seq<nat>, i: nat): (r: seq<nat>)
    requires i < |items|
    ensures multiset(items) == multiset(r) + multiset{items[i]}
    ensures forall bound: nat :: Below(items, bound) ==> Below(r, bound)
  {
    RemoveIndex(items, i);
    items[..i] + items[i + 1..]
  }

  // The first item that still fits into the room, if any.
  method FirstFitting(items: seq<nat>, lens: seq<nat>, room: int) returns (found: Option<nat>)
    requires Items(items, lens)
    ensures found.Some? ==> found.value < |items| && lens[items[found.value]] <= room
    ensures found.Some? ==> forall j :: 0 <= j < found.value ==> lens[items[j]] > room
    ensures found.None? ==> forall j :: 0 <= j < |items| ==> lens[items[j]] > room
  {
    for i := 0 to |items|
      invariant forall j :: 0 <= j < i ==> lens[items[j]] > room
    {
      if lens[items[i]] <= room {
        return Some(i);
      }
    }
    return None;
  }

  // Good bins, and with the rest every sequence exactly once.
  ghost predicate Partial(bins: seq<seq<nat>>, rest: seq<nat>, lens: seq<nat>, cap: int) {
    GoodBins(bins, lens, cap) && Complete(bins, rest, |lens|) && Items(rest, lens)
  }

  // No bin has lost anything.
  ghost predicate Grown(before: seq<seq<nat>>, after: seq<seq<nat>>, lens: seq<nat>) {
    |after| == |before| && forall b :: 0 <= b < |before| ==> BinSum(before[b], lens) <= BinSum(after[b], lens)
  }

  lemma GrowOne(before: seq<seq<nat>>, after: seq<seq<nat>>, b: nat, x: nat, lens: seq<nat>)
    requires Grown(before, after, lens) && b < |after|
    ensures Grown(before, after[b := after[b] + [x]], lens)
  {
    BinSumSnoc(after[b], x, lens);
    hide BinSum;
  }

  lemma NotGrown(bins: seq<seq<nat>>, lens: seq<nat>)
    ensures Grown(bins, bins, lens)
  {
  }

  ghost predicate HalfFull(bins: seq<seq<nat>>, lens: seq<nat>, cap: int) {
    forall b :: 0 <= b < |bins| ==> 2 * BinSum(bins[b], lens) > cap
  }

  // Moving one item of the rest into a bin.
  lemma MoveIn(bins: seq<seq<nat>>, b: nat, rest: seq<nat>, x: nat, after: seq<nat>, lens: seq<nat>, cap: int)
    requires b < |bins| && Partial(bins, rest, lens, cap) && x < |lens|
    requires multiset(rest) == multiset(after) + multiset{x}
    requires BinSum(bins[b], lens) + lens[x] <= cap
    ensures Partial(bins[b := bins[b] + [x]], after, lens, cap)
    ensures BinSum(bins[b] + [x], lens) == BinSum(bins[b], lens) + lens[x]
  {
    AddToBin(bins, b, rest, x, after, |lens|);
    AddKeepsGood(bins, b, x, lens, cap);
    SubItems(rest, after, lens);
    hide BinSum, Complete, GoodBins;
  }

  lemma SubItems(rest: seq<nat>, after: seq<nat>, lens: seq<nat>)
    requires Items(rest, lens) && multiset(after) <= multiset(rest)
    ensures Items(after, lens)
  {
    forall i | 0 <= i < |after| ensures after[i] < |lens| {
      assert after[i] in multiset(rest);
      assert after[i] in rest;
    }
  }

  // ---------------------------------------------------------------- phase 0 and 1

  // The four classes: above a half, a third, a sixth of the capacity, and the others.
  method Classify(lens: seq<nat>, cap: int) returns (large: seq<nat>, medium: seq<nat>, small: seq<nat>, tiny: seq<nat>)
    ensures Items(large, lens) && Items(medium, lens) && Items(small, lens) && Items(tiny, lens)
    ensures multiset(large) + multiset(medium) + multiset(small) + multiset(tiny) == multiset(Identity(|lens|))
    ensures forall i :: 0 <= i < |large| ==> 2 * lens[large[i]] > cap
    ensures InClass(large, lens, cap, 0, 2) && InClass(medium, lens, cap, 2, 3)
    ensures InClass(small, lens, cap, 3, 6) && InClass(tiny, lens, cap, 6, 0)
  {
    hide Below, Identity, InClass;
    large, medium, small, tiny := [], [], [], [];
    NoneSeen(lens, cap);
    for i := 0 to |lens|
      invariant Below(large, i) && Below(medium, i) && Below(small, i) && Below(tiny, i)
      invariant InClass(large, lens, cap, 0, 2) && InClass(medium, lens, cap, 2, 3)
      invariant InClass(small, lens, cap, 3, 6) && InClass(tiny, lens, cap, 6, 0)
      invariant multiset(large) + multiset(medium) + multiset(small) + multiset(tiny) == multiset(Identity(i))
    {
      ghost var seen := multiset(large) + multiset(medium) + multiset(small) + multiset(tiny);
      SeeOne(large, i);
      SeeOne(medium, i);
      SeeOne(small, i);
      SeeOne(tiny, i);
      assert seen + multiset{i} == multiset(Identity(i + 1));
      if 2 * lens[i] > cap {
        JoinClass(large, lens, cap, 0, 2, i);
        large := large + [i];
      } else if 3 * lens[i] > cap {
        JoinClass(medium, lens, cap, 2, 3, i);
        medium := medium + [i];
      } else if 6 * lens[i] > cap {
        JoinClass(small, lens, cap, 3, 6, i);
        small := small + [i];
      } else {
        JoinClass(tiny, lens, cap, 6, 0, i);
        tiny := tiny + [i];
      }
    }
    LargeIsAboveHalf(large, lens, cap);
  }

  lemma LargeIsAboveHalf(large: seq<nat>, lens: seq<nat>, cap: int)
    requires InClass(large, lens, cap, 0, 2)
    ensures forall i :: 0 <= i < |large| ==> large[i] < |lens| && 2 * lens[large[i]] > cap
  {
  }

  lemma JoinClass(items: seq<nat>, lens: seq<nat>, cap: int, high: nat, low: nat, i: nat)
    requires InClass(items, lens, cap, high, low) && Below(items, i) && i < |lens|
    requires (high == 0 || high * lens[i] <= cap) && (low == 0 || low * lens[i] > cap)
    ensures InClass(items + [i], lens, cap, high, low)
  {
  }

  // In the order of their indices, sequences up to cap / high and above cap / low, 0 for no limit.
  ghost predicate InClass(items: seq<nat>, lens: seq<nat>, cap: int, high: nat, low: nat) {
    && Increasing(items)
    && forall i :: 0 <= i < |items| ==>
         && items[i] < |lens|
         && (high == 0 || high * lens[items[i]] <= cap)
         && (low == 0 || low * lens[items[i]] > cap)
  }

  lemma NoneSeen(lens: seq<nat>, cap: int)
    ensures Below([], 0) && Identity(0) == []
    ensures InClass([], lens, cap, 0, 2) && InClass([], lens, cap, 2, 3)
    ensures InClass([], lens, cap, 3, 6) && InClass([], lens, cap, 6, 0)
  {
  }

  lemma SeeOne(items: seq<nat>, i: nat)
    requires Below(items, i)
    ensures Below(items, i + 1) && Below(items + [i], i + 1)
    ensures multiset(items + [i]) == multiset(items) + multiset{i}
    ensures multiset(Identity(i + 1)) == multiset(Identity(i)) + multiset{i}
  {
    assert Identity(i + 1) == Identity(i) + [i];
  }

  method OpenLarge(large: seq<nat>, lens: seq<nat>, cap: int) returns (bins: seq<seq<nat>>)
    requires Items(large, lens) && Fitting(lens, cap)
    requires forall i :: 0 <= i < |large| ==> 2 * lens[large[i]] > cap
    ensures GoodBins(bins, lens, cap) && Flatten(bins) == large && |bins| == |large| && HalfFull(bins, lens, cap)
    ensures forall i :: 0 <= i < |large| ==> bins[i] == [large[i]]
  {
    hide BinSum;
    bins := [];
    for i := 0 to |large|
      invariant |bins| == i && GoodBins(bins, lens, cap) && Flatten(bins) == large[..i] && HalfFull(bins, lens, cap)
      invariant forall j :: 0 <= j < i ==> bins[j] == [large[j]]
    {
      SingleBin(large[i], lens);
      FlattenSnoc(bins, [large[i]]);
      assert large[..i + 1] == large[..i] + [large[i]];
      bins := bins + [[large[i]]];
    }
    assert large[..|large|] == large;
  }

  // ---------------------------------------------------------------- phase 2: one medium item per bin

  // Bin b has room for y.
  predicate RoomFor(bins: seq<seq<nat>>, b: nat, y: nat, lens: seq<nat>, cap: int)
    requires b < |bins|
  {
    y < |lens| && BinSum(bins[b], lens) + lens[y] <= cap
  }

  // The item taken by a bin is the largest it had room for.
  ghost predicate TookLargest(bins: seq<seq<nat>>, b: nat, taken: Option<nat>, y: nat, lens: seq<nat>, cap: int)
    requires b < |bins|
  {
    RoomFor(bins, b, y, lens, cap) ==> taken.Some? && taken.value < |lens| && lens[taken.value] >= lens[y]
  }

  // Bins in their order take one medium item each: no item that is left, or that a later bin takes, is
  // larger than the one taken and would have fitted.
  ghost predicate MediumTaken(
      bins: seq<seq<nat>>, bins': seq<seq<nat>>, left: seq<nat>, taken: seq<Option<nat>>, lens: seq<nat>, cap: int)
  {
    && |bins'| == |bins| == |taken|
    && (forall b :: 0 <= b < |bins| ==> bins'[b] == if taken[b].Some? then bins[b] + [taken[b].value] else bins[b])
    && (forall b, y :: 0 <= b < |bins| && y in left ==> TookLargest(bins, b, taken[b], y, lens, cap))
    && (forall b, c :: 0 <= b < c < |bins| && taken[c].Some? ==> TookLargest(bins, b, taken[b], taken[c].value, lens, cap))
  }

  method AddMedium(bins: seq<seq<nat>>, medium: seq<nat>, ghost others: seq<nat>, lens: seq<nat>, cap: int)
    returns (bins': seq<seq<nat>>, medium': seq<nat>, ghost taken: seq<Option<nat>>)
    requires Partial(bins, medium + others, lens, cap) && Descending(medium, lens)
    ensures Partial(bins', medium' + others, lens, cap) && Grown(bins, bins', lens)
    ensures MediumTaken(bins, bins', medium', taken, lens, cap)
  {
    hide BinSum, Partial, Grown, MediumTaken, RoomFor, Descending;
    bins', medium', taken := bins, medium, seq(|bins|, _ => None);
    NotGrown(bins, lens);
    NothingTaken(bins, medium, taken, lens, cap);
    for b := 0 to |bins|
      invariant |bins'| == |bins| && Partial(bins', medium' + others, lens, cap) && Grown(bins, bins', lens)
      invariant Descending(medium', lens)
      invariant TakenUpTo(bins, bins', medium', taken, b, lens, cap)
    {
      ItemsOfPrefix(bins', medium', others, lens, cap);
      var room := cap - BinSum(bins'[b], lens);
      var found := FirstFitting(medium', lens, room);
      TakeUpToNext(bins, bins', medium', taken, b, found, lens, cap);
      if found.Some? {
        var x := medium'[found.value];
        MoveIn(bins', b, medium' + others, x, RemoveItem(medium', found.value) + others, lens, cap);
        GrowOne(bins, bins', b, x, lens);
        RemoveDescending(medium', lens, found.value);
        bins' := bins'[b := bins'[b] + [x]];
        medium' := RemoveItem(medium', found.value);
        taken := taken[b := Some(x)];
      }
    }
    AllTaken(bins, bins', medium', taken, lens, cap);
  }

  // The same for the first n bins; the others are as they were.
  ghost predicate TakenUpTo(
      bins: seq<seq<nat>>, bins': seq<seq<nat>>, left: seq<nat>, taken: seq<Option<nat>>, n: nat, lens: seq<nat>, cap: int)
  {
    && n <= |bins| == |bins'| == |taken| && (forall b :: n <= b < |bins| ==> taken[b].None?)
    && MediumTaken(bins[..n], bins'[..n], left, taken[..n], lens, cap)
    && (forall b :: n <= b < |bins| ==> bins'[b] == bins[b])
  }

  lemma NothingTaken(bins: seq<seq<nat>>, medium: seq<nat>, taken: seq<Option<nat>>, lens: seq<nat>, cap: int)
    requires |taken| == |bins| && forall b :: 0 <= b < |bins| ==> taken[b] == None
    ensures TakenUpTo(bins, bins, medium, taken, 0, lens, cap)
  {
  }

  lemma AllTaken(
      bins: seq<seq<nat>>, bins': seq<seq<nat>>, left: seq<nat>, taken: seq<Option<nat>>, lens: seq<nat>, cap: int)
    requires TakenUpTo(bins, bins', left, taken, |bins|, lens, cap)
    ensures MediumTaken(bins, bins', left, taken, lens, cap)
  {
    assert bins[..|bins|] == bins && bins'[..|bins|] == bins' && taken[..|bins|] == taken;
  }

  lemma TakeUpToNext(
      bins: seq<seq<nat>>, bins': seq<seq<nat>>, left: seq<nat>, taken: seq<Option<nat>>, b: nat, found: Option<nat>,
      lens: seq<nat>, cap: int)
    requires b < |bins| && TakenUpTo(bins, bins', left, taken, b, lens, cap) && Descending(left, lens)
    requires found.Some? ==> found.value < |left|
    requires found.Some? ==> forall j :: 0 <= j < found.value ==> lens[left[j]] > cap - BinSum(bins'[b], lens)
    requires found.None? ==> forall j :: 0 <= j < |left| ==> lens[left[j]] > cap - BinSum(bins'[b], lens)
    ensures found.None? ==> TakenUpTo(bins, bins', left, taken, b + 1, lens, cap)
    ensures found.Some? ==>
              var x := left[found.value];
              TakenUpTo(bins, bins'[b := bins'[b] + [x]], RemoveItem(left, found.value), taken[b := Some(x)], b + 1, lens, cap)
  {
    hide BinSum;
    var chosen := if found.Some? then Some(left[found.value]) else None;
    forall y | y in left ensures TookLargest(bins, b, chosen, y, lens, cap) {
      var j :| 0 <= j < |left| && left[j] == y;
      if found.Some? && j > found.value {
        assert lens[left[found.value]] >= lens[left[j]];
      }
    }
    var left' := left;
    if found.Some? {
      RemoveDescending(left, lens, found.value);
      left' := RemoveItem(left, found.value);
    }
    ChosenNext(bins, bins', left, left', taken, b, chosen, lens, cap);
  }

  lemma ChosenNext(
      bins: seq<seq<nat>>, bins': seq<seq<nat>>, left: seq<nat>, left': seq<nat>, taken: seq<Option<nat>>, b: nat,
      chosen: Option<nat>, lens: seq<nat>, cap: int)
    requires b < |bins| && TakenUpTo(bins, bins', left, taken, b, lens, cap)
    requires (chosen.Some? ==> chosen.value in left) && forall y :: y in left' ==> y in left
    requires forall y :: y in left ==> TookLargest(bins, b, chosen, y, lens, cap)
    ensures TakenUpTo(bins, bins'[b := if chosen.Some? then bins'[b] + [chosen.value] else bins'[b]], left',
                      taken[b := chosen], b + 1, lens, cap)
  {
    hide RoomFor, BinSum;
    var n := b + 1;
    var after, now := bins'[b := if chosen.Some? then bins'[b] + [chosen.value] else bins'[b]], taken[b := chosen];
    forall a, y | 0 <= a < n && y in left' ensures TookLargest(bins[..n], a, now[..n][a], y, lens, cap) {
      if a < b {
        assert TookLargest(bins[..b], a, taken[..b][a], y, lens, cap);
      } else {
        assert TookLargest(bins, b, chosen, y, lens, cap);
      }
      SameRoom(bins, a, y, b, n, lens, cap);
    }
    forall a, c | 0 <= a < c < n && now[..n][c].Some?
      ensures TookLargest(bins[..n], a, now[..n][a], now[..n][c].value, lens, cap)
    {
      SameRoom(bins, a, now[..n][c].value, b, n, lens, cap);
      if c < b {
        assert TookLargest(bins[..b], a, taken[..b][a], taken[..b][c].value, lens, cap);
      } else {
        assert TookLargest(bins[..b], a, taken[..b][a], chosen.value, lens, cap);
      }
    }
    assert MediumTaken(bins[..n], after[..n], left', now[..n], lens, cap);
  }

  lemma SameRoom(bins: seq<seq<nat>>, a: nat, y: nat, b: nat, n: nat, lens: seq<nat>, cap: int)
    requires a < n <= |bins| && b <= n
    ensures RoomFor(bins[..n], a, y, lens, cap) == RoomFor(bins, a, y, lens, cap)
    ensures a < b ==> RoomFor(bins[..b], a, y, lens, cap) == RoomFor(bins, a, y, lens, cap)
  {
  }

  lemma ItemsOfPrefix(bins: seq<seq<nat>>, items: seq<nat>, others: seq<nat>, lens: seq<nat>, cap: int)
    requires Partial(bins, items + others, lens, cap)
    ensures Items(items, lens)
  {
    SubItems(items + others, items, lens);
  }

  // ---------------------------------------------------------------- phase 3: two small items where possible

  predicate HasMedium(bin: seq<nat>, lens: seq<nat>, cap: int) {
    exists i :: 0 <= i < |bin| && bin[i] < |lens| && cap < 3 * lens[bin[i]] && 2 * lens[bin[i]] <= cap
  }

  // What the items in `left` say about bin b and the pair it took: without a pair, and without a medium
  // item, no two of them fit; with one, the first of the pair is the smallest, and the second the
  // largest that fits beside it.
  ghost predicate PairIsRight(
      bins: seq<seq<nat>>, b: nat, pair: Option<(nat, nat)>, left: seq<nat>, lens: seq<nat>, cap: int)
    requires b < |bins|
  {
    var room := cap - BinSum(bins[b], lens);
    var medium := exists x :: x in bins[b] && x < |lens| && cap < 3 * lens[x] && 2 * lens[x] <= cap;
    && Items(left, lens)
    && match pair
       case None => medium || forall i, j :: 0 <= i < j < |left| ==> lens[left[i]] + lens[left[j]] > room
       case Some((first, second)) =>
         && !medium && first < |lens| && second < |lens| && lens[first] + lens[second] <= room
         && forall i :: 0 <= i < |left| ==>
              lens[left[i]] >= lens[first] && (lens[first] + lens[left[i]] <= room ==> lens[left[i]] <= lens[second])
  }

  // The bins, last one first, took pairs that are right for the items still left and for each later pair.
  ghost predicate PairsTaken(
      bins: seq<seq<nat>>, bins': seq<seq<nat>>, left: seq<nat>, pairs: seq<Option<(nat, nat)>>, from: nat,
      lens: seq<nat>, cap: int)
  {
    && |bins'| == |bins| == |pairs| && (forall b :: 0 <= b < from && b < |bins| ==> pairs[b].None?)
    && (forall b :: 0 <= b < |bins| ==>
          bins'[b] == if pairs[b].Some? then bins[b] + [pairs[b].value.0, pairs[b].value.1] else bins[b])
    && (forall b :: from <= b < |bins| ==> PairIsRight(bins, b, pairs[b], left, lens, cap))
    && (forall b, c :: from <= c < b < |bins| && pairs[c].Some? ==>
          PairIsRight(bins, b, pairs[b], [pairs[c].value.0, pairs[c].value.1], lens, cap))
  }

  method AddSmallPairs(bins: seq<seq<nat>>, small: seq<nat>, ghost others: seq<nat>, lens: seq<nat>, cap: int)
    returns (bins': seq<seq<nat>>, small': seq<nat>, ghost pairs: seq<Option<(nat, nat)>>)
    requires Partial(bins, small + others, lens, cap) && Ascending(small, lens)
    ensures Partial(bins', small' + others, lens, cap) && Grown(bins, bins', lens)
    ensures PairsTaken(bins, bins', small', pairs, 0, lens, cap)
  {
    hide BinSum, Partial, Grown, PairIsRight, Ascending;
    bins', small', pairs := bins, small, seq(|bins|, _ => None);
    NotGrown(bins, lens);
    var b := |bins|;
    while b > 0
      invariant 0 <= b <= |bins| == |bins'| && Partial(bins', small' + others, lens, cap) && Grown(bins, bins', lens)
      invariant Ascending(small', lens) && PairsTaken(bins, bins', small', pairs, b, lens, cap)
    {
      b := b - 1;
      ItemsOfPrefix(bins', small', others, lens, cap);
      if HasMedium(bins'[b], lens, cap) || |small'| < 2 {
        NoPairTaken(bins, b, small', lens, cap);
        continue;
      }
      var room := cap - BinSum(bins'[b], lens);
      if lens[small'[0]] + lens[small'[1]] > room {
        NoPairTaken(bins, b, small', lens, cap);
        continue;
      }
      ghost var second;
      ghost var was := small';
      bins', small', second := AddPair(bins, bins', b, small', others, lens, cap);
      PairTaken(bins, b, was, small', second, lens, cap);
      LaterPairs(bins, was, small', pairs, b, second, lens, cap);
      pairs := pairs[b := Some((was[0], was[second]))];
    }
  }

  lemma NoPairTaken(bins: seq<seq<nat>>, b: nat, left: seq<nat>, lens: seq<nat>, cap: int)
    requires b < |bins| && Ascending(left, lens)
    requires HasMedium(bins[b], lens, cap) || |left| < 2 || lens[left[0]] + lens[left[1]] > cap - BinSum(bins[b], lens)
    ensures PairIsRight(bins, b, None, left, lens, cap)
  {
    hide BinSum;
    if HasMedium(bins[b], lens, cap) {
      var i :| 0 <= i < |bins[b]| && bins[b][i] < |lens| && cap < 3 * lens[bins[b][i]] && 2 * lens[bins[b][i]] <= cap;
      assert bins[b][i] in bins[b];
    } else {
      forall i, j | 0 <= i < j < |left| ensures lens[left[i]] + lens[left[j]] > cap - BinSum(bins[b], lens) {
        assert lens[left[0]] <= lens[left[i]];
        assert lens[left[1]] <= lens[left[j]];
      }
    }
  }

  lemma PairTaken(bins: seq<seq<nat>>, b: nat, was: seq<nat>, left: seq<nat>, second: nat, lens: seq<nat>, cap: int)
    requires b < |bins| && Ascending(was, lens) && 0 < second < |was| && left == RemoveItem(was[1..], second - 1)
    requires !HasMedium(bins[b], lens, cap)
    requires lens[was[0]] + lens[was[second]] <= cap - BinSum(bins[b], lens)
    requires forall i :: second < i < |was| ==> lens[was[0]] + lens[was[i]] > cap - BinSum(bins[b], lens)
    ensures PairIsRight(bins, b, Some((was[0], was[second])), left, lens, cap) && Ascending(left, lens)
  {
    hide BinSum;
    RemoveAscending(was[1..], lens, second - 1);
    forall i | 0 <= i < |left|
      ensures lens[left[i]] >= lens[was[0]]
      ensures lens[was[0]] + lens[left[i]] <= cap - BinSum(bins[b], lens) ==> lens[left[i]] <= lens[was[second]]
    {
      var j := if i + 1 < second then i + 1 else i + 2;
      assert left[i] == was[j];
    }
  }

  lemma RightForSome(
      bins: seq<seq<nat>>, b: nat, pair: Option<(nat, nat)>, left: seq<nat>, lens: seq<nat>, cap: int, some: seq<nat>, at: seq<nat>)
    requires b < |bins| && PairIsRight(bins, b, pair, left, lens, cap)
    requires |some| == |at| && Increasing(at) && forall i :: 0 <= i < |at| ==> at[i] < |left| && some[i] == left[at[i]]
    ensures PairIsRight(bins, b, pair, some, lens, cap)
  {
    hide BinSum;
  }

  // The bins before see two items of their list taken, and the rest of it left.
  lemma LaterPairs(
      bins: seq<seq<nat>>, was: seq<nat>, left: seq<nat>, pairs: seq<Option<(nat, nat)>>, b: nat, second: nat,
      lens: seq<nat>, cap: int)
    requires |pairs| == |bins| && 0 < second < |was| && left == RemoveItem(was[1..], second - 1)
    requires forall a :: b < a < |bins| ==> PairIsRight(bins, a, pairs[a], was, lens, cap)
    ensures forall a :: b < a < |bins| ==> PairIsRight(bins, a, pairs[a], left, lens, cap)
    ensures forall a :: b < a < |bins| ==> PairIsRight(bins, a, pairs[a], [was[0], was[second]], lens, cap)
  {
    hide PairIsRight;
    var rest := seq(|left|, i requires 0 <= i < |left| => if i + 1 < second then i + 1 else i + 2);
    forall a | b < a < |bins|
      ensures PairIsRight(bins, a, pairs[a], left, lens, cap)
      ensures PairIsRight(bins, a, pairs[a], [was[0], was[second]], lens, cap)
    {
      RightForSome(bins, a, pairs[a], was, lens, cap, left, rest);
      RightForSome(bins, a, pairs[a], was, lens, cap, [was[0], was[second]], [0, second]);
    }
  }

  // The last item that fits into the room, looked for from the end.
  method FindLast(items: seq<nat>, room: int, lens: seq<nat>) returns (found: Option<nat>)
    requires Items(items, lens)
    ensures found.Some? ==> found.value < |items| && lens[items[found.value]] <= room
    ensures forall i :: (if found.Some? then found.value else -1) < i < |items| ==> lens[items[i]] > room
  {
    var j := |items| - 1;
    while j >= 0
      invariant -1 <= j < |items|
      invariant forall i :: j < i < |items| ==> lens[items[i]] > room
    {
      if lens[items[j]] <= room {
        return Some(j);
      }
      j := j - 1;
    }
    return None;
  }

  // The first small item and the largest other one that fits beside it; the first is never lost.
  method AddPair(ghost start: seq<seq<nat>>, bins: seq<seq<nat>>, b: nat, small: seq<nat>, ghost others: seq<nat>,
                 lens: seq<nat>, cap: int)
    returns (bins': seq<seq<nat>>, small': seq<nat>, ghost second: nat)
    requires Grown(start, bins, lens)
    requires b < |bins| && Partial(bins, small + others, lens, cap) && |small| >= 2 && Items(small, lens)
    requires lens[small[0]] + lens[small[1]] <= cap - BinSum(bins[b], lens)
    ensures Partial(bins', small' + others, lens, cap) && |bins'| == |bins| && Grown(start, bins', lens)
    ensures 0 < second < |small| && lens[small[0]] + lens[small[second]] <= cap - BinSum(bins[b], lens)
    ensures forall i :: second < i < |small| ==> lens[small[0]] + lens[small[i]] > cap - BinSum(bins[b], lens)
    ensures bins' == bins[b := bins[b] + [small[0], small[second]]] && small' == RemoveItem(small[1..], second - 1)
  {
    hide BinSum, Partial, Grown;
    second := 1;
    var room := cap - BinSum(bins[b], lens);
    var first := small[0];
    var left := small[1..];
    assert left == RemoveItem(small, 0);
    var found := FindLast(left, room - lens[first], lens);
    assert left[0] == small[1];
    if found.None? {
      assert false;
      return bins, left, second;
    }
    second := found.value + 1;
    assert forall i :: second < i < |small| ==> small[i] == left[i - 1];
    bins', small' := MovePair(start, bins, b, first, found.value, small, left, others, lens, cap);
  }

  method MovePair(ghost start: seq<seq<nat>>, bins: seq<seq<nat>>, b: nat, first: nat, place: nat, ghost small: seq<nat>,
                  left: seq<nat>, ghost others: seq<nat>, lens: seq<nat>, cap: int)
    returns (bins': seq<seq<nat>>, small': seq<nat>)
    requires Grown(start, bins, lens) && b < |bins| && Partial(bins, small + others, lens, cap) && Items(small, lens)
    requires |small| > 0 && first == small[0] && left == RemoveItem(small, 0) && place < |left| && left[place] < |lens|
    requires lens[first] + lens[left[place]] <= cap - BinSum(bins[b], lens)
    ensures Partial(bins', small' + others, lens, cap) && Grown(start, bins', lens)
    ensures bins' == bins[b := bins[b] + [first, left[place]]] && small' == RemoveItem(left, place)
  {
    hide BinSum, Partial, Grown;
    var second := left[place];
    small' := RemoveItem(left, place);
    MoveIn(bins, b, small + others, first, left + others, lens, cap);
    var once := bins[b := bins[b] + [first]];
    GrowOne(start, bins, b, first, lens);
    GrowOne(start, once, b, second, lens);
    BinSumSnoc(bins[b], first, lens);
    MoveIn(once, b, left + others, second, small' + others, lens, cap);
    bins' := once[b := once[b] + [second]];
    assert bins[b] + [first] + [second] == bins[b] + [first, second];
  }

  // ---------------------------------------------------------------- phase 4: greedy fill

  // Whenever the bin took one of the added items, y did not fit or was no larger.
  ghost predicate FitsNoLarger(bin: seq<nat>, added: seq<nat>, y: nat, lens: seq<nat>, cap: int) {
    forall k :: 0 <= k < |added| ==> y < |lens| && added[k] < |lens|
                                     && (BinSum(bin + added[..k], lens) + lens[y] <= cap ==> lens[y] <= lens[added[k]])
  }

  lemma NoLargerSnoc(bin: seq<nat>, added: seq<nat>, x: nat, y: nat, lens: seq<nat>, cap: int)
    requires FitsNoLarger(bin, added, y, lens, cap) && x < |lens| && y < |lens|
    requires BinSum(bin + added, lens) + lens[y] <= cap ==> lens[y] <= lens[x]
    ensures FitsNoLarger(bin, added + [x], y, lens, cap)
  {
    hide BinSum;
    forall k | 0 <= k < |added + [x]|
      ensures (added + [x])[k] < |lens|
      ensures BinSum(bin + (added + [x])[..k], lens) + lens[y] <= cap ==> lens[y] <= lens[(added + [x])[k]]
    {
      assert (added + [x])[..k] == added[..k];
      assert added[..|added|] == added;
    }
  }

  // The bin grew by `added`, and each time took the largest of the items that fitted.
  ghost predicate LargestFirst(bin: seq<nat>, added: seq<nat>, left: seq<nat>, lens: seq<nat>, cap: int) {
    && (forall y :: y in left ==> FitsNoLarger(bin, added, y, lens, cap))
    && (forall j :: 0 <= j < |added| ==> FitsNoLarger(bin, added[..j], added[j], lens, cap))
  }

  // Bins in their order are filled largest item first; also the items of later bins were no larger or did not fit.
  ghost predicate FilledInTurn(
      bins: seq<seq<nat>>, bins': seq<seq<nat>>, left: seq<nat>, added: seq<seq<nat>>, lens: seq<nat>, cap: int)
  {
    && |bins'| == |bins| == |added|
    && (forall b :: 0 <= b < |bins| ==> bins'[b] == bins[b] + added[b] && LargestFirst(bins[b], added[b], left, lens, cap))
    && (forall b, c, j :: 0 <= b < c < |bins| && 0 <= j < |added[c]| ==> FitsNoLarger(bins[b], added[b], added[c][j], lens, cap))
  }

  method FillGreedily(bins: seq<seq<nat>>, items: seq<nat>, lens: seq<nat>, cap: int)
    returns (bins': seq<seq<nat>>, items': seq<nat>, ghost added: seq<seq<nat>>)
    requires Partial(bins, items, lens, cap) && Descending(items, lens)
    ensures Partial(bins', items', lens, cap) && Grown(bins, bins', lens)
    ensures forall b :: 0 <= b < |bins'| ==> NoneFits(bins'[b], items', lens, cap)
    ensures FilledInTurn(bins, bins', items', added, lens, cap)
  {
    hide BinSum, Partial, Grown, Descending, LargestFirst, FitsNoLarger;
    bins', items', added := bins, items, [];
    NotGrown(bins, lens);
    for b := 0 to |bins|
      invariant |bins'| == |bins| && Partial(bins', items', lens, cap) && Grown(bins, bins', lens) && Descending(items', lens)
      invariant forall a :: 0 <= a < b ==> NoneFits(bins'[a], items', lens, cap)
      invariant |added| == b && FilledInTurn(bins[..b], bins'[..b], items', added, lens, cap)
      invariant forall a :: b <= a < |bins| ==> bins'[a] == bins[a]
    {
      ghost var was, wasItems := bins', items';
      ghost var more;
      bins', items', more := FillBin(bins, bins', b, items', lens, cap);
      FilledNext(bins[..b], was[..b], wasItems, added, bins[b], items', more, lens, cap);
      assert bins[..b + 1] == bins[..b] + [bins[b]];
      assert bins'[..b + 1] == was[..b] + [bins[b] + more];
      added := added + [more];
    }
    assert bins[..|bins|] == bins && bins'[..|bins|] == bins';
  }

  lemma FilledNext(bins: seq<seq<nat>>, bins': seq<seq<nat>>, left: seq<nat>, added: seq<seq<nat>>,
                   bin: seq<nat>, left': seq<nat>, more: seq<nat>, lens: seq<nat>, cap: int)
    requires FilledInTurn(bins, bins', left, added, lens, cap) && LargestFirst(bin, more, left', lens, cap)
    requires (forall y :: y in left' ==> y in left) && (forall y :: y in more ==> y in left)
    ensures FilledInTurn(bins + [bin], bins' + [bin + more], left', added + [more], lens, cap)
  {
    hide FitsNoLarger;
    var n := |bins|;
    var all, allAdded := bins + [bin], added + [more];
    forall b | 0 <= b < n ensures LargestFirst(bins[b], added[b], left', lens, cap) {
      assert LargestFirst(bins[b], added[b], left, lens, cap);
    }
    forall b, c, j | 0 <= b < c < n + 1 && 0 <= j < |allAdded[c]|
      ensures FitsNoLarger(all[b], allAdded[b], allAdded[c][j], lens, cap)
    {
      assert LargestFirst(bins[b], added[b], left, lens, cap);
      if c == n {
        assert more[j] in more;
      }
    }
  }

  method FillBin(ghost start: seq<seq<nat>>, bins: seq<seq<nat>>, b: nat, items: seq<nat>, lens: seq<nat>, cap: int)
    returns (bins': seq<seq<nat>>, items': seq<nat>, ghost added: seq<nat>)
    requires b < |bins| && Partial(bins, items, lens, cap) && Descending(items, lens) && Grown(start, bins, lens)
    ensures |bins'| == |bins| && Partial(bins', items', lens, cap) && Descending(items', lens) && Grown(start, bins', lens)
    ensures NoneFits(bins'[b], items', lens, cap)
    ensures forall a :: 0 <= a < |bins| && a != b ==> bins'[a] == bins[a]
    ensures (forall x :: x in items' ==> x in items) && (forall x :: x in added ==> x in items)
    ensures bins'[b] == bins[b] + added && LargestFirst(bins[b], added, items', lens, cap)
  {
    hide BinSum, Partial, Grown, Descending, NoneFits, LargestFirst;
    bins', items', added := bins, items, [];
    NothingToFit(bins'[b], lens, cap);
    NothingAdded(bins[b], items, lens, cap);
    while |items'| > 0
      invariant |bins'| == |bins| && Partial(bins', items', lens, cap) && Descending(items', lens) && Grown(start, bins', lens)
      invariant forall a :: 0 <= a < |bins| && a != b ==> bins'[a] == bins[a]
      invariant (forall x :: x in items' ==> x in items) && (forall x :: x in added ==> x in items)
      invariant bins'[b] == bins[b] + added && LargestFirst(bins[b], added, items', lens, cap)
      invariant |items'| == 0 ==> NoneFits(bins'[b], items', lens, cap)
      decreases |items'|
    {
      assert Items(items', lens) by { ItemsOfPartial(bins', items', lens, cap); }
      var room := cap - BinSum(bins'[b], lens);
      if room < lens[items'[|items'| - 1]] {
        SmallestDoesNotFit(bins'[b], items', lens, cap);
        break;
      }
      var found := FirstFitting(items', lens, room);
      if found.None? {
        assert false;  // the smallest item fits
        break;
      }
      TakeLargest(bins[b], added, items', found.value, lens, cap);
      added := added + [items'[found.value]];
      bins', items' := TakeItem(start, bins', b, items', found.value, lens, cap);
      NothingToFit(bins'[b], lens, cap);
    }
  }

  // One item of the list joins the bin.
  method TakeItem(ghost start: seq<seq<nat>>, bins: seq<seq<nat>>, b: nat, items: seq<nat>, i: nat, lens: seq<nat>, cap: int)
    returns (bins': seq<seq<nat>>, items': seq<nat>)
    requires b < |bins| && Partial(bins, items, lens, cap) && Descending(items, lens) && Grown(start, bins, lens)
    requires i < |items| && items[i] < |lens| && BinSum(bins[b], lens) + lens[items[i]] <= cap
    ensures Partial(bins', items', lens, cap) && Descending(items', lens) && Grown(start, bins', lens)
    ensures bins' == bins[b := bins[b] + [items[i]]] && items' == RemoveItem(items, i) && |items'| < |items|
    ensures forall x :: x in items' ==> x in items
  {
    hide BinSum, Partial, Grown, Descending;
    MoveIn(bins, b, items, items[i], RemoveItem(items, i), lens, cap);
    GrowOne(start, bins, b, items[i], lens);
    RemoveDescending(items, lens, i);
    bins', items' := bins[b := bins[b] + [items[i]]], RemoveItem(items, i);
  }

  lemma NothingAdded(bin: seq<nat>, items: seq<nat>, lens: seq<nat>, cap: int)
    ensures LargestFirst(bin, [], items, lens, cap)
  {
  }

  lemma TakeLargest(bin: seq<nat>, added: seq<nat>, items: seq<nat>, i: nat, lens: seq<nat>, cap: int)
    requires LargestFirst(bin, added, items, lens, cap) && Descending(items, lens) && i < |items|
    requires forall j :: 0 <= j < i ==> lens[items[j]] > cap - BinSum(bin + added, lens)
    ensures LargestFirst(bin, added + [items[i]], RemoveItem(items, i), lens, cap)
  {
    hide BinSum, FitsNoLarger;
    var x, all := items[i], added + [items[i]];
    RemoveDescending(items, lens, i);
    forall y | y in RemoveItem(items, i) ensures FitsNoLarger(bin, all, y, lens, cap) {
      var j :| 0 <= j < |items| && items[j] == y;
      NoLargerSnoc(bin, added, x, y, lens, cap);
    }
    forall j | 0 <= j < |all| ensures FitsNoLarger(bin, all[..j], all[j], lens, cap) {
      assert all[..j] == added[..j];
      assert added[..|added|] == added;
    }
  }

  lemma NothingToFit(bin: seq<nat>, lens: seq<nat>, cap: int)
    ensures forall items: seq<nat> :: |items| == 0 ==> NoneFits(bin, items, lens, cap)
  {
  }

  lemma SmallestDoesNotFit(bin: seq<nat>, items: seq<nat>, lens: seq<nat>, cap: int)
    requires |items| > 0 && Descending(items, lens) && cap - BinSum(bin, lens) < lens[items[|items| - 1]]
    ensures NoneFits(bin, items, lens, cap)
  {
    hide BinSum;
  }

  lemma ItemsOfPartial(bins: seq<seq<nat>>, items: seq<nat>, lens: seq<nat>, cap: int)
    requires Partial(bins, items, lens, cap)
    ensures Items(items, lens)
  {
  }

  // ---------------------------------------------------------------- phase 5: first fit on the left-overs

  ghost predicate SortedSizes(sizes: seq<nat>) {
    forall a, b :: 0 <= a <= b < |sizes| ==> sizes[a] <= sizes[b]
  }

  // bisect.bisect: the place after all sizes that are not larger.
  method Bisect(sizes: seq<nat>, size: nat) returns (at: nat)
    requires SortedSizes(sizes)
    ensures at <= |sizes|
    ensures forall i :: 0 <= i < at ==> sizes[i] <= size
    ensures forall i :: at <= i < |sizes| ==> sizes[i] > size
  {
    var lo, hi := 0, |sizes|;
    while lo < hi
      invariant 0 <= lo <= hi <= |sizes|
      invariant forall i :: 0 <= i < lo ==> sizes[i] <= size
      invariant forall i :: hi <= i < |sizes| ==> sizes[i] > size
    {
      var mid := (lo + hi) / 2;
      if size < sizes[mid] {
        hi := mid;
      } else {
        lo := mid + 1;
      }
    }
    return lo;
  }

  function InsertAt<X>(s: seq<X>, at: nat, x: X): (r: seq<X>)
    requires at <= |s|
    ensures |r| == |s| + 1
    ensures forall i :: 0 <= i < |r| ==> r[i] == if i < at then s[i] else if i == at then x else s[i - 1]
  {
    s[..at] + [x] + s[at..]
  }

  // The open bins with their sizes, emptiest first; some may still be empty.
  ghost predicate OpenBins(bins: seq<seq<nat>>, sizes: seq<nat>, lens: seq<nat>, cap: int) {
    && |bins| == |sizes| && SortedSizes(sizes)
    && forall b :: 0 <= b < |bins| ==> sizes[b] == BinSum(bins[b], lens) <= cap
  }

  lemma FlattenInsert(bins: seq<seq<nat>>, at: nat, bin: seq<nat>)
    requires at <= |bins|
    ensures multiset(Flatten(InsertAt(bins, at, bin))) == multiset(Flatten(bins)) + multiset(bin)
  {
    hide Flatten;
    var a, b := bins[..at], bins[at..];
    FlattenConcat(a + [bin], b);
    FlattenSnoc(a, bin);
    FlattenConcat(a, b);
    assert bins == a + b;
    assert InsertAt(bins, at, bin) == (a + [bin]) + b;
  }

  lemma FlattenTail(bins: seq<seq<nat>>)
    requires |bins| > 0
    ensures multiset(Flatten(bins)) == multiset(Flatten(bins[1..])) + multiset(bins[0])
  {
    FlattenInsert(bins[1..], 0, bins[0]);
    assert InsertAt(bins[1..], 0, bins[0]) == bins;
  }

  // Any two bins that hold something overflow one bin together.
  ghost predicate PairsOverflow(bins: seq<seq<nat>>, lens: seq<nat>, cap: int) {
    forall a, b :: 0 <= a < b < |bins| && |bins[a]| > 0 && |bins[b]| > 0 ==> BinSum(bins[a], lens) + BinSum(bins[b], lens) > cap
  }

  // Only a single open bin can still be empty.
  ghost predicate OpenOverflow(open: seq<seq<nat>>, lens: seq<nat>, cap: int) {
    PairsOverflow(open, lens, cap) && (|open| > 1 ==> forall b :: 0 <= b < |open| ==> |open[b]| > 0)
  }

  method PlaceLeftover(open: seq<seq<nat>>, sizes: seq<nat>, x: nat, lens: seq<nat>, cap: int)
    returns (open': seq<seq<nat>>, sizes': seq<nat>)
    requires x < |lens| && lens[x] <= cap && |open| > 0 && OpenBins(open, sizes, lens, cap) && OpenOverflow(open, lens, cap)
    ensures |open'| > 0 && OpenBins(open', sizes', lens, cap) && OpenOverflow(open', lens, cap)
    ensures multiset(Flatten(open')) == multiset(Flatten(open)) + multiset{x}
  {
    hide BinSum, Flatten, OpenBins, InsertAt, OpenOverflow;
    var rest, restSizes := open, sizes;
    var bin, size := [], 0;
    EmptyBins(lens);
    FirstSize(open, sizes, lens, cap);
    if lens[x] <= cap - sizes[0] {
      bin, size := open[0], sizes[0];
      rest, restSizes := open[1..], sizes[1..];
      FlattenTail(open);
      EmptiestGrows(open, x, lens, cap);
    } else {
      NewOpens(open, sizes, x, lens, cap);
    }
    BinSumSnoc(bin, x, lens);
    assert multiset(bin + [x]) == multiset(bin) + multiset{x};
    bin, size := bin + [x], size + lens[x];
    SizesSorted(rest, restSizes, lens, cap);
    var at := Bisect(restSizes, size);
    FlattenInsert(rest, at, bin);
    InsertKeepsOpen(rest, restSizes, at, bin, size, lens, cap);
    InsertOverflows(rest, at, bin, lens, cap);
    open', sizes' := InsertAt(rest, at, bin), InsertAt(restSizes, at, size);
  }

  // A bin that overflows with each of the others.
  ghost predicate OverflowsAll(bin: seq<nat>, bins: seq<seq<nat>>, lens: seq<nat>, cap: int) {
    && PairsOverflow(bins, lens, cap)
    && forall b :: 0 <= b < |bins| ==> |bins[b]| > 0 && BinSum(bin, lens) + BinSum(bins[b], lens) > cap
  }

  lemma EmptiestGrows(open: seq<seq<nat>>, x: nat, lens: seq<nat>, cap: int)
    requires |open| > 0 && OpenOverflow(open, lens, cap)
    ensures OverflowsAll(open[0] + [x], open[1..], lens, cap)
  {
    BinSumSnoc(open[0], x, lens);
    hide BinSum;
  }

  lemma NewOpens(open: seq<seq<nat>>, sizes: seq<nat>, x: nat, lens: seq<nat>, cap: int)
    requires |open| > 0 && OpenBins(open, sizes, lens, cap) && OpenOverflow(open, lens, cap)
    requires x < |lens| && lens[x] <= cap && lens[x] > cap - sizes[0]
    ensures OverflowsAll([] + [x], open, lens, cap)
  {
    BinSumSnoc([], x, lens);
    EmptyBins(lens);
    assert |open[0]| > 0;
    hide BinSum;
  }

  lemma InsertOverflows(bins: seq<seq<nat>>, at: nat, bin: seq<nat>, lens: seq<nat>, cap: int)
    requires at <= |bins| && |bin| > 0 && OverflowsAll(bin, bins, lens, cap)
    ensures OpenOverflow(InsertAt(bins, at, bin), lens, cap)
  {
    hide BinSum;
  }

  lemma FirstSize(open: seq<seq<nat>>, sizes: seq<nat>, lens: seq<nat>, cap: int)
    requires |open| > 0 && OpenBins(open, sizes, lens, cap)
    ensures |sizes| == |open| && sizes[0] == BinSum(open[0], lens)
    ensures OpenBins(open[1..], sizes[1..], lens, cap)
  {
    hide BinSum;
  }

  lemma SizesSorted(open: seq<seq<nat>>, sizes: seq<nat>, lens: seq<nat>, cap: int)
    requires OpenBins(open, sizes, lens, cap)
    ensures |sizes| == |open| && SortedSizes(sizes)
  {
  }

  lemma InsertKeepsOpen(open: seq<seq<nat>>, sizes: seq<nat>, at: nat, bin: seq<nat>, size: nat, lens: seq<nat>, cap: int)
    requires OpenBins(open, sizes, lens, cap) && at <= |sizes|
    requires forall i :: 0 <= i < at ==> sizes[i] <= size
    requires forall i :: at <= i < |sizes| ==> sizes[i] > size
    requires size == BinSum(bin, lens) <= cap
    ensures at <= |open| && |InsertAt(open, at, bin)| > 0
    ensures OpenBins(InsertAt(open, at, bin), InsertAt(sizes, at, size), lens, cap)
  {
    hide BinSum;
  }

  method PackLeftovers(items: seq<nat>, lens: seq<nat>, cap: int) returns (open: seq<seq<nat>>)
    requires Items(items, lens) && Fitting(lens, cap) && cap >= 0
    ensures forall b :: 0 <= b < |open| ==> BinSum(open[b], lens) <= cap
    ensures multiset(Flatten(open)) == multiset(items) && PairsOverflow(open, lens, cap)
  {
    hide BinSum, Flatten, PairsOverflow;
    OneOpen(lens, cap);
    open := [[]];
    var sizes := [0];
    EmptyBins(lens);
    FlattenSnoc<nat>([], []);
    assert [] + [[]] == open;
    for i := 0 to |items|
      invariant |open| > 0 && OpenBins(open, sizes, lens, cap) && OpenOverflow(open, lens, cap)
      invariant multiset(Flatten(open)) == multiset(items[..i])
    {
      assert items[..i + 1] == items[..i] + [items[i]];
      open, sizes := PlaceLeftover(open, sizes, items[i], lens, cap);
    }
    assert items[..|items|] == items;
  }

  lemma OneOpen(lens: seq<nat>, cap: int)
    ensures OpenOverflow([[]], lens, cap)
  {
  }

  function NonEmpty(bins: seq<seq<nat>>): (r: seq<seq<nat>>)
    ensures Flatten(r) == Flatten(bins)
    ensures forall b :: 0 <= b < |r| ==> |r[b]| > 0 && r[b] in bins
  {
    if |bins| == 0 then []
    else
      var before, last := NonEmpty(bins[..|bins| - 1]), bins[|bins| - 1];
      FlattenSnoc(before, last);
      if |last| == 0 then before else before + [last]
  }

  // ---------------------------------------------------------------- the packer

  predicate Positive(lens: seq<nat>) {
    forall i :: 0 <= i < |lens| ==> lens[i] > 0
  }

  method Pack(lens: seq<nat>, cap: int) returns (r: Result<seq<seq<nat>>, PackError>)
    ensures r.Ok? <==> cap > 0 && forall i :: 0 <= i < |lens| ==> 0 < lens[i] <= cap
    ensures r.Ok? ==> IsPacking(r.value, lens, cap) && PairsOverflow(r.value, lens, cap) && NeighboursOverflow(r.value, lens, cap)
    ensures r.Err? ==> r.error == if cap <= 0 || exists i :: 0 <= i < |lens| && lens[i] == 0 then NotPositive else TooLong
  {
    if cap <= 0 || !Positive(lens) {
      return Err(NotPositive);
    }
    if !Fitting(lens, cap) {
      return Err(TooLong);
    }
    hide BinSum, Flatten, Partial, Items, HalfFull, NoneFits, PairsOverflow, Descending, NeighboursOverflow, FilledInTurn;
    var bins, items := FillLargeBins(lens, cap);
    var remaining := SortItems(items, lens, true);
    SortedDescending(items, lens);
    Regroup(bins, items, remaining, lens, cap);
    ghost var before := bins;
    ghost var added;
    bins, remaining, added := FillGreedily(bins, remaining, lens, cap);
    GrownHalfFull(before, bins, lens, cap);
    ItemsOfPartial(bins, remaining, lens, cap);
    var leftovers := SortItems(remaining, lens, true);
    var open := PackLeftovers(leftovers, lens, cap);
    var all := NonEmpty(bins + open);
    Finished(bins, remaining, open, all, lens, cap);
    AllOverflow(bins, open, remaining, lens, cap);
    return Ok(all);
  }

  // Phases 0 to 3: one bin for each large item, with the medium and small items they take.
  method FillLargeBins(lens: seq<nat>, cap: int) returns (bins: seq<seq<nat>>, items: seq<nat>)
    requires Fitting(lens, cap)
    ensures Partial(bins, items, lens, cap) && Items(items, lens) && HalfFull(bins, lens, cap)
  {
    hide BinSum, Flatten, Partial, Items, Grown, HalfFull, MediumTaken, PairsTaken, Descending, Ascending, InClass;
    var large, medium, small, tiny := Classify(lens, cap);
    SortedStayLarge(large, lens, cap);
    SortedDescending(medium, lens);
    SortedAscending(small, lens);
    large, medium := SortItems(large, lens, true), SortItems(medium, lens, true);
    small, tiny := SortItems(small, lens, false), SortItems(tiny, lens, false);
    bins := OpenLarge(large, lens, cap);
    ghost var first := bins;
    StartPartial(bins, large, medium, small, tiny, lens, cap);
    ghost var taken;
    bins, medium, taken := AddMedium(bins, medium, small + tiny, lens, cap);
    GrownHalfFull(first, bins, lens, cap);
    ghost var second := bins;
    Regroup(bins, medium + (small + tiny), small + (medium + tiny), lens, cap);
    ghost var pairs;
    bins, small, pairs := AddSmallPairs(bins, small, medium + tiny, lens, cap);
    GrownHalfFull(second, bins, lens, cap);
    Regroup(bins, small + (medium + tiny), medium + small + tiny, lens, cap);
    items := medium + small + tiny;
    ItemsOfPartial(bins, items, lens, cap);
  }

  lemma SortedStayLarge(large: seq<nat>, lens: seq<nat>, cap: int)
    requires Items(large, lens) && forall i :: 0 <= i < |large| ==> 2 * lens[large[i]] > cap
    ensures var sorted := SortItems(large, lens, true);
            forall i :: 0 <= i < |sorted| ==> 2 * lens[sorted[i]] > cap
  {
    var sorted := SortItems(large, lens, true);
    forall i | 0 <= i < |sorted| ensures 2 * lens[sorted[i]] > cap {
      assert sorted[i] in multiset(sorted);
      assert sorted[i] in large;
    }
  }

  lemma GrownHalfFull(before: seq<seq<nat>>, after: seq<seq<nat>>, lens: seq<nat>, cap: int)
    requires HalfFull(before, lens, cap) && Grown(before, after, lens)
    ensures HalfFull(after, lens, cap)
  {
    hide BinSum;
  }

  // Two bins of the large items are both over half full, a left-over does not fit beside a large
  // item's bin, and the left-overs' bins overflow in pairs.
  lemma AllOverflow(bins: seq<seq<nat>>, open: seq<seq<nat>>, items: seq<nat>, lens: seq<nat>, cap: int)
    requires HalfFull(bins, lens, cap) && PairsOverflow(open, lens, cap) && multiset(Flatten(open)) == multiset(items)
    requires forall b :: 0 <= b < |bins| ==> NoneFits(bins[b], items, lens, cap)
    ensures PairsOverflow(NonEmpty(bins + open), lens, cap) && NeighboursOverflow(NonEmpty(bins + open), lens, cap)
  {
    var all := bins + open;
    hide BinSum, NoneFits, Flatten;
    forall a, b | 0 <= a < b < |all| && |all[a]| > 0 && |all[b]| > 0 ensures BinSum(all[a], lens) + BinSum(all[b], lens) > cap {
      if a < |bins| && b >= |bins| {
        LeftoverOverflows(bins[a], open, b - |bins|, items, lens, cap);
      }
    }
    NonEmptyOverflow(all, lens, cap);
    PairsNeighbours(NonEmpty(all), lens, cap);
  }

  lemma LeftoverOverflows(bin: seq<nat>, open: seq<seq<nat>>, b: nat, items: seq<nat>, lens: seq<nat>, cap: int)
    requires NoneFits(bin, items, lens, cap) && multiset(Flatten(open)) == multiset(items) && b < |open| && |open[b]| > 0
    ensures BinSum(bin, lens) + BinSum(open[b], lens) > cap
  {
    var x := open[b][|open[b]| - 1];
    FlattenMember(open, b, x);
    assert x in multiset(Flatten(open));
    assert x in items;
    hide Flatten;
  }

  lemma {:induction false} NonEmptyOverflow(bins: seq<seq<nat>>, lens: seq<nat>, cap: int)
    requires PairsOverflow(bins, lens, cap)
    ensures PairsOverflow(NonEmpty(bins), lens, cap)
  {
    hide BinSum, PairsOverflow, Flatten;
    if |bins| == 0 {
      PairsOfPrefix(NonEmpty(bins), 0, lens, cap);
    } else {
      var n := |bins| - 1;
      PairsOfPrefix(bins, n, lens, cap);
      NonEmptyOverflow(bins[..n], lens, cap);
      if |bins[n]| > 0 {
        AddLast(bins, NonEmpty(bins[..n]), lens, cap);
      }
    }
  }

  lemma PairsOfPrefix(bins: seq<seq<nat>>, n: nat, lens: seq<nat>, cap: int)
    requires n <= |bins| && (n > 0 ==> PairsOverflow(bins, lens, cap))
    ensures PairsOverflow(bins[..n], lens, cap) && (|bins| == 0 ==> PairsOverflow(bins, lens, cap))
  {
    hide BinSum;
  }

  lemma AddLast(bins: seq<seq<nat>>, before: seq<seq<nat>>, lens: seq<nat>, cap: int)
    requires |bins| > 0 && PairsOverflow(bins, lens, cap) && PairsOverflow(before, lens, cap)
    requires forall a :: 0 <= a < |before| ==> before[a] in bins[..|bins| - 1]
    ensures PairsOverflow(before + [bins[|bins| - 1]], lens, cap)
  {
    hide BinSum;
    var n := |bins| - 1;
    forall a | 0 <= a < |before| && |before[a]| > 0 && |bins[n]| > 0
      ensures BinSum(before[a], lens) + BinSum(bins[n], lens) > cap
    {
      var i :| 0 <= i < n && bins[..n][i] == before[a];
      assert bins[i] == before[a];
    }
  }

  lemma PairsNeighbours(bins: seq<seq<nat>>, lens: seq<nat>, cap: int)
    requires PairsOverflow(bins, lens, cap) && forall b :: 0 <= b < |bins| ==> |bins[b]| > 0
    ensures NeighboursOverflow(bins, lens, cap)
  {
    hide BinSum;
  }

  lemma StartPartial(bins: seq<seq<nat>>, large: seq<nat>, medium: seq<nat>, small: seq<nat>, tiny: seq<nat>,
                     lens: seq<nat>, cap: int)
    requires GoodBins(bins, lens, cap) && Flatten(bins) == large
    requires Items(medium, lens) && Items(small, lens) && Items(tiny, lens)
    requires multiset(large) + multiset(medium) + multiset(small) + multiset(tiny) == multiset(Identity(|lens|))
    ensures Partial(bins, medium + (small + tiny), lens, cap)
  {
    hide BinSum, Flatten;
  }

  lemma Regroup(bins: seq<seq<nat>>, rest: seq<nat>, again: seq<nat>, lens: seq<nat>, cap: int)
    requires Partial(bins, rest, lens, cap) && multiset(rest) == multiset(again)
    ensures Partial(bins, again, lens, cap)
  {
    SubItems(rest, again, lens);
  }

  lemma Finished(bins: seq<seq<nat>>, rest: seq<nat>, open: seq<seq<nat>>, all: seq<seq<nat>>, lens: seq<nat>, cap: int)
    requires Partial(bins, rest, lens, cap) && multiset(Flatten(open)) == multiset(rest)
    requires forall b :: 0 <= b < |open| ==> BinSum(open[b], lens) <= cap
    requires Flatten(all) == Flatten(bins + open)
    requires forall b :: 0 <= b < |all| ==> |all[b]| > 0 && all[b] in bins + open
    ensures IsPacking(all, lens, cap)
  {
    FlattenConcat(bins, open);
    hide BinSum, Flatten;
    forall b | 0 <= b < |all| ensures GoodBin(all[b], lens, cap) {
      var i :| 0 <= i < |bins + open| && (bins + open)[i] == all[b];
      if i < |bins| { assert GoodBin(bins[i], lens, cap); }
    }
  }
}
