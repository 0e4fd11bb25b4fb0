/** Top-k and top-p filtering: sort-free, sorted and chunked. */
module TopKTopP {
  import opened Wrappers
  import opened Seqs

  // A logit, with the -inf that masked_fill_ writes.
  datatype Logit = NegInf | Fin(v: real)

  datatype FilterError = TopKOutOfRange | ZeroStep

  predicate AtLeast(x: Logit, t: Logit) {
    t.NegInf? || (x.Fin? && x.v >= t.v)
  }

  predicate Above(x: Logit, t: Logit) {
    AtLeast(x, t) && x != t
  }

  // Logits are ordered by their values, -inf below all.
  lemma LogitOrder(x: Logit, y: Logit, z: Logit)
    ensures AtLeast(x, x) && (AtLeast(x, y) || AtLeast(y, x))
    ensures AtLeast(x, y) && AtLeast(y, x) ==> x == y
    ensures AtLeast(x, y) && AtLeast(y, z) ==> AtLeast(x, z)
    ensures AtLeast(x, NegInf) && (x.Fin? && y.Fin? ==> (AtLeast(x, y) <==> x.v >= y.v))
  {
  }

  // Softmax up to the common divisor: positive and non-decreasing, 0 at -inf.
  ghost predicate IsWeight(w: real -> real) {
    && (forall x :: w(x) > 0.0)
    && (forall x, y :: x <= y ==> w(x) <= w(y))
  }

  function Weight(w: real -> real, x: Logit): real {
    if x.NegInf? then 0.0 else w(x.v)
  }

  // ---------------------------------------------------------------- sorting

  ghost predicate AscendingLogits(s: seq<Logit>) {
    forall a, b :: 0 <= a <= b < |s| ==> AtLeast(s[b], s[a])
  }

  ghost predicate DescendingLogits(s: seq<Logit>) {
    forall a, b :: 0 <= a <= b < |s| ==> AtLeast(s[a], s[b])
  }

  // What sort promises: positions in ascending order of their logits, ties in any order.
  ghost predicate IsSort(row: seq<Logit>, idx: seq<nat>) {
    IsPermutation(idx, |row|) && Below(idx, |row|) && AscendingLogits(Gather(row, idx))
  }

  ghost predicate IsDescendingSort(row: seq<Logit>, idx: seq<nat>) {
    IsPermutation(idx, |row|) && Below(idx, |row|) && DescendingLogits(Gather(row, idx))
  }

  // ---------------------------------------------------------------- the k-th largest logit

  // How many logits are at least t, or above it.
  function Count(s: seq<Logit>, t: Logit, strict: bool): nat {
    if |s| == 0 then 0
    else Count(s[..|s| - 1], t, strict) + Counts(s[|s| - 1], t, strict)
  }

  function Counts(x: Logit, t: Logit, strict: bool): nat {
    if (if strict then Above(x, t) else AtLeast(x, t)) then 1 else 0
  }

  ghost predicate IsKthLargest(s: seq<Logit>, k: nat, t: Logit) {
    Count(s, t, true) < k <= Count(s, t, false)
  }

  lemma {:induction false} CountConcat(a: seq<Logit>, b: seq<Logit>, t: Logit, strict: bool)
    ensures Count(a + b, t, strict) == Count(a, t, strict) + Count(b, t, strict)
  {
    if |b| == 0 {
      assert a + b == a;
    } else {
      var c, x := b[..|b| - 1], b[|b| - 1];
      CountConcat(a, c, t, strict);
      assert (a + b)[..|a + b| - 1] == a + c;
    }
  }

  lemma CountRemove(a: seq<Logit>, i: nat, t: Logit, strict: bool)
    requires i < |a|
    ensures Count(a, t, strict) == Count(a[..i] + a[i + 1..], t, strict) + Counts(a[i], t, strict)
  {
    hide Counts;
    assert a == (a[..i] + [a[i]]) + a[i + 1..];
    CountConcat(a[..i] + [a[i]], a[i + 1..], t, strict);
    CountConcat(a[..i], [a[i]], t, strict);
    CountConcat(a[..i], a[i + 1..], t, strict);
    assert [a[i]][..0] == [];
  }

  // Counting does not depend on the order.
  lemma {:induction false} CountSame(a: seq<Logit>, b: seq<Logit>, t: Logit, strict: bool)
    requires multiset(a) == multiset(b)
    ensures Count(a, t, strict) == Count(b, t, strict)
    decreases |a|
  {
    hide Count, Counts;
    assert |multiset(a)| == |a| && |multiset(b)| == |b|;
    if |a| == 0 {
      assert a == b;
    } else {
      var i := FirstAmong(a, b);
      CountSame(a[..0] + a[1..], b[..i] + b[i + 1..], t, strict);
      CountRemove(a, 0, t, strict);
      CountRemove(b, i, t, strict);
    }
  }

  lemma {:induction false} CountGrows(s: seq<Logit>, t: Logit, u: Logit)
    requires Above(u, t)
    ensures Count(s, u, false) <= Count(s, t, true)
  {
    if |s| > 0 {
      CountGrows(s[..|s| - 1], t, u);
    }
  }

  lemma KthIsUnique(s: seq<Logit>, k: nat, t: Logit, u: Logit)
    requires IsKthLargest(s, k, t) && IsKthLargest(s, k, u)
    ensures t == u
  {
    if Above(u, t) {
      CountGrows(s, t, u);
    } else if Above(t, u) {
      CountGrows(s, u, t);
    }
  }

  lemma {:induction false} CountAll(s: seq<Logit>, t: Logit, strict: bool)
    requires forall i :: 0 <= i < |s| ==> if strict then Above(s[i], t) else AtLeast(s[i], t)
    ensures Count(s, t, strict) == |s|
  {
    if |s| > 0 {
      CountAll(s[..|s| - 1], t, strict);
    }
  }

  lemma {:induction false} CountNone(s: seq<Logit>, t: Logit, strict: bool)
    requires forall i :: 0 <= i < |s| ==> !(if strict then Above(s[i], t) else AtLeast(s[i], t))
    ensures Count(s, t, strict) == 0
  {
    if |s| > 0 {
      CountNone(s[..|s| - 1], t, strict);
    }
  }

  lemma {:induction false} CountAtMost(s: seq<Logit>, t: Logit, strict: bool)
    ensures Count(s, t, strict) <= |s|
  {
    if |s| > 0 {
      CountAtMost(s[..|s| - 1], t, strict);
    }
  }

  // In ascending order the k-th largest is k places from the end.
  lemma KthOfAscending(s: seq<Logit>, k: nat)
    requires AscendingLogits(s) && 0 < k <= |s|
    ensures IsKthLargest(s, k, s[|s| - k])
  {
    hide Count;
    var m := |s| - k;
    var t := s[m];
    assert s == s[..m] + s[m..] == s[..m + 1] + s[m + 1..];
    CountConcat(s[..m], s[m..], t, false);
    CountAll(s[m..], t, false);
    CountConcat(s[..m + 1], s[m + 1..], t, true);
    CountNone(s[..m + 1], t, true);
    CountAtMost(s[m + 1..], t, true);
  }

  lemma KthOfDescending(s: seq<Logit>, k: nat)
    requires DescendingLogits(s) && 0 < k <= |s|
    ensures IsKthLargest(s, k, s[k - 1])
  {
    hide Count;
    var t := s[k - 1];
    assert s == s[..k] + s[k..] == s[..k - 1] + s[k - 1..];
    CountConcat(s[..k], s[k..], t, false);
    CountAll(s[..k], t, false);
    CountConcat(s[..k - 1], s[k - 1..], t, true);
    CountNone(s[k - 1..], t, true);
    CountAtMost(s[..k - 1], t, true);
  }

  lemma KthOfOrder(row: seq<Logit>, idx: seq<nat>, k: nat, t: Logit)
    requires IsPermutation(idx, |row|) && Below(idx, |row|) && IsKthLargest(Gather(row, idx), k, t)
    ensures IsKthLargest(row, k, t)
  {
    GatherPermutation(row, idx);
    CountSame(Gather(row, idx), row, t, true);
    CountSame(Gather(row, idx), row, t, false);
  }

  // Whatever sorts the two paths use, their top-k thresholds are the same logit.
  lemma TopKPathsAgree(row: seq<Logit>, idx: seq<nat>, desc: seq<nat>, k: nat)
    requires IsSort(row, idx) && IsDescendingSort(row, desc) && 0 < k <= |row|
    ensures |idx| == |desc| == |row|
    ensures row[idx[|row| - k]] == row[desc[k - 1]]
    ensures IsKthLargest(row, k, row[desc[k - 1]])
  {
    hide IsKthLargest, IsPermutation;
    assert |idx| == |desc| == |row| by { PermutationBounds(idx, |row|); PermutationBounds(desc, |row|); }
    KthOfAscending(Gather(row, idx), k);
    KthOfDescending(Gather(row, desc), k);
    KthOfOrder(row, idx, k, row[idx[|row| - k]]);
    KthOfOrder(row, desc, k, row[desc[k - 1]]);
    KthIsUnique(row, k, row[idx[|row| - k]], row[desc[k - 1]]);
  }

  // ---------------------------------------------------------------- the sort-free top-k path

  predicate NeedTopK(topK: Option<int>) {
    topK.Some? && topK.value > 0
  }

  // The masked row and the mask of one row.
  datatype Filtered = Filtered(logits: seq<Logit>, keep: seq<bool>)

  ghost predicate MaskedBy(row: seq<Logit>, f: Filtered) {
    && |f.logits| == |f.keep| == |row|
    && forall i :: 0 <= i < |row| ==> f.logits[i] == if f.keep[i] then row[i] else NegInf
  }

  // One row of _apply_top_k_only_fn; desc is the order in which topk finds the logits.
  method TopKOnly(row: seq<Logit>, topK: nat, desc: seq<nat>) returns (r: Result<Filtered, FilterError>)
    requires IsDescendingSort(row, desc) && topK > 0
    ensures r.Ok? <==> topK <= |row|
    ensures r.Err? ==> r.error == TopKOutOfRange
    ensures r.Ok? ==> MaskedBy(row, r.value)
    ensures r.Ok? ==> forall t :: IsKthLargest(row, topK, t) ==>
                        forall i :: 0 <= i < |row| ==> (r.value.keep[i] <==> AtLeast(row[i], t))
  {
    if topK > |row| {
      return Err(TopKOutOfRange);
    }
    PermutationBounds(desc, |row|);
    var threshold := row[desc[topK - 1]];
    var keep := seq(|row|, i requires 0 <= i < |row| => AtLeast(row[i], threshold));
    var logits := seq(|row|, i requires 0 <= i < |row| => if AtLeast(row[i], threshold) then row[i] else NegInf);
    KthOfDescending(Gather(row, desc), topK);
    KthOfOrder(row, desc, topK, threshold);
    hide IsKthLargest;
    forall t | IsKthLargest(row, topK, t) ensures t == threshold {
      KthIsUnique(row, topK, t, threshold);
    }
    return Ok(Filtered(logits, keep));
  }

  // ---------------------------------------------------------------- the sorted path on one row

  // The part of the row that top-k leaves, in sorted order.
  function TopKMask(s: seq<Logit>, topK: Option<int>): (r: seq<bool>)
    requires NeedTopK(topK) ==> topK.value <= |s|
    ensures |r| == |s|
    ensures forall i :: 0 <= i < |s| ==> (r[i] <==> NeedTopK(topK) ==> AtLeast(s[i], s[|s| - topK.value]))
  {
    seq(|s|, i requires 0 <= i < |s| => NeedTopK(topK) ==> AtLeast(s[i], s[|s| - topK.value]))
  }

  // What the sort-free path answers for a row: the logits at least as large as the k-th largest.
  ghost predicate KeptTopK(row: seq<Logit>, topK: nat, f: Filtered) {
    && MaskedBy(row, f)
    && forall t :: IsKthLargest(row, topK, t) ==> forall i :: 0 <= i < |row| ==> (f.keep[i] <==> AtLeast(row[i], t))
  }

  // The sorted top-k mask, scattered back to the original positions, is the mask of the sort-free path.
  lemma TopKMasksAgree(row: seq<Logit>, idx: seq<nat>, desc: seq<nat>, k: nat, scattered: seq<bool>, f: Filtered)
    requires IsSort(row, idx) && IsDescendingSort(row, desc) && 0 < k <= |row| == |idx| == |scattered|
    requires forall i :: 0 <= i < |row| ==> scattered[idx[i]] == TopKMask(Gather(row, idx), Some(k))[i]
    requires KeptTopK(row, k, f)
    ensures scattered == f.keep
  {
    hide IsKthLargest, IsPermutation, AscendingLogits;
    TopKPathsAgree(row, idx, desc, k);
    forall j | 0 <= j < |row| ensures scattered[j] == f.keep[j] {
      var i := PositionOf(idx, |row|, j);
      assert scattered[idx[i]] == TopKMask(Gather(row, idx), Some(k))[i];
    }
  }

  // masked_fill_ with -inf where the mask is false.
  function Masked(s: seq<Logit>, mask: seq<bool>): (r: seq<Logit>)
    requires |mask| == |s|
    ensures |r| == |s| && forall i :: 0 <= i < |s| ==> r[i] == if mask[i] then s[i] else NegInf
  {
    seq(|s|, i requires 0 <= i < |s| => if mask[i] then s[i] else NegInf)
  }

  // The unnormalised probability of a stretch of logits.
  function Mass(s: seq<Logit>, w: real -> real): real {
    if |s| == 0 then 0.0 else Mass(s[..|s| - 1], w) + Weight(w, s[|s| - 1])
  }

  // The cumulative probability up to position i exceeds 1 - top_p, or i is the last position. The
  // comparison is multiplied by the softmax divisor: for a row of -inf it is false, as it is of NaN.
  function TopPMask(s: seq<Logit>, p: real, w: real -> real): (r: seq<bool>)
    ensures |r| == |s|
    ensures forall i :: 0 <= i < |s| ==> (r[i] <==> i == |s| - 1 || Mass(s[..i + 1], w) > (1.0 - p) * Mass(s, w))
  {
    seq(|s|, i requires 0 <= i < |s| => i == |s| - 1 || Mass(s[..i + 1], w) > (1.0 - p) * Mass(s, w))
  }

  function AfterTopK(s: seq<Logit>, topK: Option<int>): (r: seq<Logit>)
    requires NeedTopK(topK) ==> topK.value <= |s|
    ensures |r| == |s|
  {
    Masked(s, TopKMask(s, topK))
  }

  function SortedKeep(s: seq<Logit>, topK: Option<int>, p: real, w: real -> real): (r: seq<bool>)
    requires NeedTopK(topK) ==> topK.value <= |s|
    ensures |r| == |s|
    ensures forall i :: 0 <= i < |s| ==> (r[i] <==> TopKMask(s, topK)[i] && TopPMask(AfterTopK(s, topK), p, w)[i])
  {
    seq(|s|, i requires 0 <= i < |s| => TopKMask(s, topK)[i] && TopPMask(AfterTopK(s, topK), p, w)[i])
  }

  // The running sum and the comparison with it.
  method TopP(s: seq<Logit>, p: real, w: real -> real) returns (mask: seq<bool>)
    requires |s| > 0
    ensures mask == TopPMask(s, p, w)
  {
    var sums: seq<real> := [];
    var sum := 0.0;
    for i := 0 to |s|
      invariant |sums| == i && sum == Mass(s[..i], w)
      invariant forall j :: 0 <= j < i ==> sums[j] == Mass(s[..j + 1], w)
    {
      assert s[..i + 1][..i] == s[..i];
      sum := sum + Weight(w, s[i]);
      sums := sums + [sum];
    }
    assert s[..|s|] == s;
    var bound := (1.0 - p) * sum;
    mask := seq(|s|, i requires 0 <= i < |s| && |sums| == |s| => sums[i] > bound);
    mask := mask[|s| - 1 := true];
  }

  // scatter: the i-th sorted value returns to position idx[i].
  method Scatter<X>(src: seq<X>, idx: seq<nat>) returns (out: seq<X>)
    requires IsPermutation(idx, |src|) && |idx| == |src| && Below(idx, |src|)
    ensures |out| == |src| && forall i :: 0 <= i < |src| ==> out[idx[i]] == src[i]
  {
    hide IsPermutation;
    out := src;
    for i := 0 to |src|
      invariant |out| == |src| && forall j :: 0 <= j < i ==> out[idx[j]] == src[j]
    {
      forall j | 0 <= j < i ensures idx[j] != idx[i] {
        PermutationInjective(idx, |src|, j, i);
      }
      out := out[idx[i] := src[i]];
    }
  }

  // What the filtering of one row answers, for the sort that was used.
  ghost predicate IsFiltered(row: seq<Logit>, idx: seq<nat>, topK: Option<int>, p: real, w: real -> real, f: Filtered)
    requires Below(idx, |row|) && |idx| == |row| && (NeedTopK(topK) ==> topK.value <= |row|)
  {
    && MaskedBy(row, f)
    && forall i :: 0 <= i < |row| ==> f.keep[idx[i]] == SortedKeep(Gather(row, idx), topK, p, w)[i]
  }

  method FilterRow(row: seq<Logit>, idx: seq<nat>, topK: Option<int>, p: real, w: real -> real) returns (f: Filtered)
    requires |row| > 0 && IsSort(row, idx) && |idx| == |row| && (NeedTopK(topK) ==> topK.value <= |row|)
    ensures IsFiltered(row, idx, topK, p, w, f)
  {
    hide IsPermutation, AscendingLogits, TopPMask, TopKMask;
    var sorted := Gather(row, idx);
    var mask := TopKMask(sorted, topK);
    var logits := Masked(sorted, mask);
    var topP := TopP(logits, p, w);
    logits := Masked(logits, topP);
    var both := seq(|row|, i requires 0 <= i < |row| && |mask| == |topP| == |row| => mask[i] && topP[i]);
    var scattered := Scatter(logits, idx);
    var keep := Scatter(both, idx);
    f := Filtered(scattered, keep);
    forall j | 0 <= j < |row| ensures scattered[j] == if keep[j] then row[j] else NegInf {
      var i := PositionOf(idx, |row|, j);
    }
  }

  // The row, its sort and the parameters fix the answer.
  lemma FilteredIsUnique(row: seq<Logit>, idx: seq<nat>, topK: Option<int>, p: real, w: real -> real, f: Filtered, g: Filtered)
    requires IsSort(row, idx) && |idx| == |row| && (NeedTopK(topK) ==> topK.value <= |row|)
    requires IsFiltered(row, idx, topK, p, w, f) && IsFiltered(row, idx, topK, p, w, g)
    ensures f == g
  {
    hide IsPermutation, AscendingLogits, SortedKeep;
    forall j | 0 <= j < |row| ensures f.keep[j] == g.keep[j] {
      var i := PositionOf(idx, |row|, j);
    }
  }

  // ---------------------------------------------------------------- top-p keeps the smallest sufficient top set

  lemma {:induction false} MassSplit(s: seq<Logit>, i: nat, w: real -> real)
    requires i <= |s|
    ensures Mass(s, w) == Mass(s[..i], w) + Mass(s[i..], w)
  {
    if i == |s| {
      assert s[..i] == s && s[i..] == [];
    } else {
      var n := |s| - 1;
      MassSplit(s[..n], i, w);
      assert s[..n][..i] == s[..i] && s[..n][i..] == s[i..][..n - i];
    }
  }

  lemma {:induction false} MassNonNegative(s: seq<Logit>, w: real -> real)
    requires IsWeight(w)
    ensures Mass(s, w) >= 0.0
  {
    if |s| > 0 {
      MassNonNegative(s[..|s| - 1], w);
    }
  }

  lemma {:induction false} NoMass(s: seq<Logit>, w: real -> real)
    requires forall i :: 0 <= i < |s| ==> s[i].NegInf?
    ensures Mass(s, w) == 0.0
  {
    if |s| > 0 {
      NoMass(s[..|s| - 1], w);
    }
  }

  lemma MassGrows(s: seq<Logit>, i: nat, j: nat, w: real -> real)
    requires IsWeight(w) && i <= j <= |s|
    ensures Mass(s[..i], w) <= Mass(s[..j], w)
  {
    MassSplit(s[..j], i, w);
    assert s[..j][..i] == s[..i];
    MassNonNegative(s[..j][i..], w);
  }

  lemma LeastTrue(mask: seq<bool>) returns (m: nat)
    requires |mask| > 0 && mask[|mask| - 1]
    ensures m < |mask| && mask[m] && forall i :: 0 <= i < m ==> !mask[i]
  {
    m := 0;
    while !mask[m]
      invariant m < |mask| && forall i :: 0 <= i < m ==> !mask[i]
      decreases |mask| - m
    {
      m := m + 1;
    }
  }

  lemma TopPIsSuffix(s: seq<Logit>, p: real, w: real -> real) returns (m: nat)
    requires |s| > 0 && IsWeight(w)
    ensures m < |s| && forall i :: 0 <= i < |s| ==> (TopPMask(s, p, w)[i] <==> i >= m)
  {
    m := LeastTrue(TopPMask(s, p, w));
    forall i | m <= i < |s| ensures TopPMask(s, p, w)[i] {
      MassGrows(s, m + 1, i + 1, w);
    }
  }

  // The complement of the mass that is cut off.
  lemma Complement(total: real, low: real, high: real, p: real)
    requires low + high == total
    ensures low <= (1.0 - p) * total ==> high >= p * total
    ensures low > (1.0 - p) * total ==> high < p * total
  {
    assert (1.0 - p) * total == total - p * total;
  }

  lemma TopPMassSufficient(s: seq<Logit>, p: real, w: real -> real, m: nat)
    requires m < |s| && IsWeight(w) && 0.0 < p < 1.0
    requires forall i :: 0 <= i < |s| ==> (TopPMask(s, p, w)[i] <==> i >= m)
    ensures Mass(s[m..], w) >= p * Mass(s, w)
    ensures m < |s| - 1 ==> Mass(s[m + 1..], w) < p * Mass(s, w)
  {
    hide Mass, IsWeight;
    var total := Mass(s, w);
    var bound := (1.0 - p) * total;
    MassSplit(s, m, w);
    Complement(total, Mass(s[..m], w), Mass(s[m..], w), p);
    assert Mass(s[..m], w) <= bound by {
      if m > 0 {
        assert !TopPMask(s, p, w)[m - 1];
        assert s[..m - 1 + 1] == s[..m];
      } else {
        MassNonNegative(s, w);
        NothingBelow(total, p);
        EmptyMass(s[..0], w);
      }
    }
    if m < |s| - 1 {
      assert TopPMask(s, p, w)[m];
      MassSplit(s, m + 1, w);
      Complement(total, Mass(s[..m + 1], w), Mass(s[m + 1..], w), p);
    }
  }

  lemma EmptyMass(s: seq<Logit>, w: real -> real)
    requires |s| == 0
    ensures Mass(s, w) == 0.0
  {
  }

  lemma NothingBelow(total: real, p: real)
    requires total >= 0.0 && p < 1.0
    ensures (1.0 - p) * total >= 0.0
  {
    ProductNonNegative(1.0 - p, total);
  }

  lemma ProductNonNegative(x: real, y: real)
    requires x >= 0.0 && y >= 0.0
    ensures x * y >= 0.0
  {
  }

  // The positions that top-k drops have no mass, so top-p drops them too.
  lemma DroppedByBoth(s: seq<Logit>, topK: Option<int>, p: real, w: real -> real, i: nat)
    requires i < |s| && AscendingLogits(s) && IsWeight(w) && 0.0 < p < 1.0 && (NeedTopK(topK) ==> topK.value <= |s|)
    requires !TopKMask(s, topK)[i]
    ensures !TopPMask(AfterTopK(s, topK), p, w)[i]
  {
    hide Mass, IsWeight;
    var y := AfterTopK(s, topK);
    NoMass(y[..i + 1], w);
    MassNonNegative(y, w);
    NothingBelow(Mass(y, w), p);
  }

  lemma TopKWithinTopP(s: seq<Logit>, topK: Option<int>, p: real, w: real -> real, m: nat)
    requires m < |s| && AscendingLogits(s) && IsWeight(w) && 0.0 < p < 1.0 && (NeedTopK(topK) ==> topK.value <= |s|)
    requires forall i :: 0 <= i < |s| ==> (TopPMask(AfterTopK(s, topK), p, w)[i] <==> i >= m)
    ensures forall i :: m <= i < |s| ==> TopKMask(s, topK)[i]
  {
    hide IsWeight, TopPMask, TopKMask, AscendingLogits, AfterTopK;
    forall i | m <= i < |s| ensures TopKMask(s, topK)[i] {
      if !TopKMask(s, topK)[i] {
        DroppedByBoth(s, topK, p, w, i);
      }
    }
  }

  // For 0 < top_p < 1 the kept tokens are the last ones in sorted order; of the probability that
  // top-k leaves they hold at least top_p, and without the lowest of them less (or it is the only one).
  lemma TopPSmallestSufficient(s: seq<Logit>, topK: Option<int>, p: real, w: real -> real) returns (m: nat)
    requires |s| > 0 && AscendingLogits(s) && IsWeight(w) && 0.0 < p < 1.0 && (NeedTopK(topK) ==> topK.value <= |s|)
    ensures m < |s| && forall i :: 0 <= i < |s| ==> (SortedKeep(s, topK, p, w)[i] <==> i >= m)
    ensures var y := AfterTopK(s, topK);
            && Mass(y[m..], w) >= p * Mass(y, w)
            && (m < |s| - 1 ==> Mass(y[m + 1..], w) < p * Mass(y, w))
  {
    hide Mass, TopPMask, AscendingLogits;
    var y := AfterTopK(s, topK);
    m := TopPIsSuffix(y, p, w);
    TopPMassSufficient(y, p, w, m);
    TopKWithinTopP(s, topK, p, w, m);
  }

  // No dropped token outranks a kept one, in the original positions.
  lemma NoDroppedOutranks(row: seq<Logit>, idx: seq<nat>, topK: Option<int>, p: real, w: real -> real, f: Filtered, a: nat, b: nat)
    requires IsSort(row, idx) && |idx| == |row| && IsWeight(w) && 0.0 < p < 1.0 && (NeedTopK(topK) ==> topK.value <= |row|)
    requires IsFiltered(row, idx, topK, p, w, f) && a < |row| && b < |row| && f.keep[a] && !f.keep[b]
    ensures AtLeast(row[a], row[b])
  {
    hide SortedKeep, IsPermutation, MaskedBy;
    var m := TopPSmallestSufficient(Gather(row, idx), topK, p, w);
    var i := PositionOf(idx, |row|, a);
    var j := PositionOf(idx, |row|, b);
    assert AtLeast(Gather(row, idx)[i], Gather(row, idx)[j]);
  }

  // ---------------------------------------------------------------- the filtered row in its original positions

  // The logits that top-k leaves: all of them without top-k, else those at least the k-th largest.
  ghost predicate LeftByTopK(row: seq<Logit>, topK: Option<int>, left: seq<bool>) {
    && |left| == |row|
    && if topK.Some? && topK.value > 0
       then forall t :: IsKthLargest(row, topK.value, t) ==> forall i :: 0 <= i < |row| ==> (left[i] <==> AtLeast(row[i], t))
       else forall i :: 0 <= i < |row| ==> left[i]
  }

  // The unnormalised probability of the logits that a mask keeps.
  function MassKept(row: seq<Logit>, keep: seq<bool>, w: real -> real): real
    requires |keep| == |row|
  {
    if |row| == 0 then 0.0
    else
      var n := |row| - 1;
      MassKept(row[..n], keep[..n], w) + if keep[n] && row[n].Fin? then w(row[n].v) else 0.0
  }

  // The kept logits are some of what top-k leaves and hold at least p of its mass, without the lowest
  // of them less (or it is the only one); no other logit outranks them.
  ghost predicate SmallestSufficient(row: seq<Logit>, topK: Option<int>, p: real, w: real -> real, keep: seq<bool>) {
    && |keep| == |row|
    && (forall a, b :: 0 <= a < |row| && 0 <= b < |row| && keep[a] && !keep[b] ==> AtLeast(row[a], row[b]))
    && exists left, low :: IsSufficient(row, topK, p, w, keep, left, low)
  }

  ghost predicate IsSufficient(
      row: seq<Logit>, topK: Option<int>, p: real, w: real -> real, keep: seq<bool>, left: seq<bool>, low: nat)
    requires |keep| == |row|
  {
    && LeftByTopK(row, topK, left) && (forall i :: 0 <= i < |row| && keep[i] ==> left[i])
    && low < |row| && keep[low] && (forall i :: 0 <= i < |row| && keep[i] ==> AtLeast(row[i], row[low]))
    && MassKept(row, keep, w) >= p * MassKept(row, left, w)
    && ((forall i :: 0 <= i < |row| && keep[i] ==> i == low)
        || MassKept(row, keep[low := false], w) < p * MassKept(row, left, w))
  }

  lemma {:induction false} MassOfMasked(row: seq<Logit>, keep: seq<bool>, w: real -> real)
    requires |keep| == |row|
    ensures MassKept(row, keep, w) == Mass(Masked(row, keep), w)
  {
    if |row| > 0 {
      var n := |row| - 1;
      MassOfMasked(row[..n], keep[..n], w);
      assert Masked(row, keep)[..n] == Masked(row[..n], keep[..n]);
    }
  }

  lemma MassRemove(a: seq<Logit>, i: nat, w: real -> real)
    requires i < |a|
    ensures Mass(a, w) == Mass(a[..i] + a[i + 1..], w) + Weight(w, a[i])
  {
    var rest := a[..i] + a[i + 1..];
    MassSplit(a, i, w);
    MassSplit(a[i..], 1, w);
    assert a[i..][..1] == [a[i]] && a[i..][1..] == a[i + 1..];
    assert [a[i]][..0] == [];
    MassSplit(rest, i, w);
    assert rest[..i] == a[..i] && rest[i..] == a[i + 1..];
  }

  // Mass does not depend on the order.
  lemma {:induction false} MassSame(a: seq<Logit>, b: seq<Logit>, w: real -> real)
    requires multiset(a) == multiset(b)
    ensures Mass(a, w) == Mass(b, w)
    decreases |a|
  {
    hide Mass, Weight;
    assert |multiset(a)| == |a| && |multiset(b)| == |b|;
    if |a| == 0 {
      assert a == b;
    } else {
      var i := FirstAmong(a, b);
      MassSame(a[..0] + a[1..], b[..i] + b[i + 1..], w);
      MassRemove(a, 0, w);
      MassRemove(b, i, w);
    }
  }

  // A mask of original positions holds the mass of its sorted form.
  lemma MassOfSorted(row: seq<Logit>, idx: seq<nat>, mask: seq<bool>, s: seq<Logit>, w: real -> real)
    requires IsPermutation(idx, |row|) && |idx| == |row| == |mask| == |s| && Below(idx, |row|)
    requires forall i :: 0 <= i < |row| ==> s[i] == if mask[idx[i]] then row[idx[i]] else NegInf
    ensures MassKept(row, mask, w) == Mass(s, w)
  {
    MassOfMasked(row, mask, w);
    GatherPermutation(Masked(row, mask), idx);
    assert Gather(Masked(row, mask), idx) == s;
    MassSame(s, Masked(row, mask), w);
    hide Mass, MassKept, IsPermutation;
  }

  // The mass of a list whose front has none.
  lemma MassOfSuffix(s: seq<Logit>, y: seq<Logit>, m: nat, w: real -> real)
    requires |s| == |y| && m <= |s|
    requires forall i :: 0 <= i < |s| ==> s[i] == if i < m then NegInf else y[i]
    ensures Mass(s, w) == Mass(y[m..], w)
  {
    hide Mass;
    MassSplit(s, m, w);
    NoMass(s[..m], w);
    assert s[m..] == y[m..];
  }

  lemma TopKLeaves(row: seq<Logit>, idx: seq<nat>, topK: Option<int>) returns (left: seq<bool>)
    requires IsSort(row, idx) && |idx| == |row| && (NeedTopK(topK) ==> topK.value <= |row|)
    ensures LeftByTopK(row, topK, left) && |left| == |row|
    ensures forall i :: 0 <= i < |row| ==> (left[idx[i]] <==> TopKMask(Gather(row, idx), topK)[i])
  {
    hide IsKthLargest, IsPermutation, AscendingLogits;
    if NeedTopK(topK) {
      var t := row[idx[|row| - topK.value]];
      left := seq(|row|, j requires 0 <= j < |row| => AtLeast(row[j], t));
      KthOfAscending(Gather(row, idx), topK.value);
      KthOfOrder(row, idx, topK.value, t);
      forall u | IsKthLargest(row, topK.value, u) ensures u == t {
        KthIsUnique(row, topK.value, u, t);
      }
    } else {
      left := seq(|row|, _ => true);
    }
  }

  // Which positions a filtered row keeps: from the m-th on in sorted order.
  lemma KeptFrom(row: seq<Logit>, idx: seq<nat>, topK: Option<int>, p: real, w: real -> real, f: Filtered) returns (m: nat)
    requires |row| > 0 && IsSort(row, idx) && |idx| == |row| && IsWeight(w) && 0.0 < p < 1.0
    requires NeedTopK(topK) ==> topK.value <= |row|
    requires IsFiltered(row, idx, topK, p, w, f)
    ensures m < |row| && |f.keep| == |row| && forall i :: 0 <= i < |row| ==> (f.keep[idx[i]] <==> i >= m)
    ensures forall i :: m <= i < |row| ==> TopKMask(Gather(row, idx), topK)[i]
    ensures var y := AfterTopK(Gather(row, idx), topK);
            && Mass(y[m..], w) >= p * Mass(y, w)
            && (m < |row| - 1 ==> Mass(y[m + 1..], w) < p * Mass(y, w))
  {
    hide IsPermutation, MaskedBy, AscendingLogits, Mass, TopPMask, TopKMask, AfterTopK;
    m := TopPSmallestSufficient(Gather(row, idx), topK, p, w);
    FilteredKeeps(row, idx, topK, p, w, f);
  }

  lemma FilteredKeeps(row: seq<Logit>, idx: seq<nat>, topK: Option<int>, p: real, w: real -> real, f: Filtered)
    requires Below(idx, |row|) && |idx| == |row| && (NeedTopK(topK) ==> topK.value <= |row|)
    requires IsFiltered(row, idx, topK, p, w, f)
    ensures |f.keep| == |row|
    ensures forall i :: 0 <= i < |row| ==> (f.keep[idx[i]] <==> SortedKeep(Gather(row, idx), topK, p, w)[i])
    ensures forall i :: 0 <= i < |row| && f.keep[idx[i]] ==> TopKMask(Gather(row, idx), topK)[i]
  {
  }

  lemma KeptMass(row: seq<Logit>, idx: seq<nat>, topK: Option<int>, w: real -> real, keep: seq<bool>, left: seq<bool>, m: nat)
    requires IsSort(row, idx) && |idx| == |row| == |keep| == |left| && m <= |row|
    requires NeedTopK(topK) ==> topK.value <= |row|
    requires forall i :: 0 <= i < |row| ==> (left[idx[i]] <==> TopKMask(Gather(row, idx), topK)[i])
    requires forall i :: 0 <= i < |row| ==> (keep[idx[i]] <==> i >= m)
    requires forall i :: m <= i < |row| ==> TopKMask(Gather(row, idx), topK)[i]
    ensures var y := AfterTopK(Gather(row, idx), topK);
            MassKept(row, left, w) == Mass(y, w) && MassKept(row, keep, w) == Mass(y[m..], w)
  {
    hide IsPermutation, AscendingLogits, Mass, MassKept, TopKMask;
    var y := AfterTopK(Gather(row, idx), topK);
    MassOfSorted(row, idx, left, y, w);
    var z := seq(|row|, i requires 0 <= i < |row| => if i < m then NegInf else y[i]);
    MassOfSorted(row, idx, keep, z, w);
    MassOfSuffix(z, y, m, w);
  }

  // What a filtered row keeps, without its sort.
  lemma FilteredIsSufficient(row: seq<Logit>, idx: seq<nat>, topK: Option<int>, p: real, w: real -> real, f: Filtered)
    requires |row| > 0 && IsSort(row, idx) && |idx| == |row| && IsWeight(w) && 0.0 < p < 1.0
    requires NeedTopK(topK) ==> topK.value <= |row|
    requires IsFiltered(row, idx, topK, p, w, f)
    ensures SmallestSufficient(row, topK, p, w, f.keep)
  {
    hide IsPermutation, AscendingLogits, Mass, MassKept, TopKMask, AfterTopK, IsFiltered, LeftByTopK;
    var m := KeptFrom(row, idx, topK, p, w, f);
    var left := TopKLeaves(row, idx, topK);
    KeptMass(row, idx, topK, w, f.keep, left, m);
    KeptInOrder(row, idx, f.keep, m);
    var low := idx[m];
    forall i | 0 <= i < |row| && f.keep[i] ensures left[i] && (m == |row| - 1 ==> i == low) {
      var j := PositionOf(idx, |row|, i);
    }
    if m < |row| - 1 {
      WithoutLowest(row, idx, f.keep, m);
      KeptMass(row, idx, topK, w, f.keep[low := false], left, m + 1);
    }
    assert IsSufficient(row, topK, p, w, f.keep, left, low);
  }

  lemma KeptInOrder(row: seq<Logit>, idx: seq<nat>, keep: seq<bool>, m: nat)
    requires IsSort(row, idx) && |idx| == |row| == |keep| && m < |row|
    requires forall i :: 0 <= i < |row| ==> (keep[idx[i]] <==> i >= m)
    ensures forall a, b :: 0 <= a < |row| && 0 <= b < |row| && keep[a] && !keep[b] ==> AtLeast(row[a], row[b])
    ensures forall a :: 0 <= a < |row| && keep[a] ==> AtLeast(row[a], row[idx[m]])
  {
    hide IsPermutation;
    forall a, b | 0 <= a < |row| && 0 <= b < |row| && keep[a] && !keep[b] ensures AtLeast(row[a], row[b]) {
      var i := PositionOf(idx, |row|, a);
      var j := PositionOf(idx, |row|, b);
      assert AtLeast(Gather(row, idx)[i], Gather(row, idx)[j]);
    }
    forall a | 0 <= a < |row| && keep[a] ensures AtLeast(row[a], row[idx[m]]) {
      var i := PositionOf(idx, |row|, a);
      assert AtLeast(Gather(row, idx)[i], Gather(row, idx)[m]);
    }
  }

  lemma WithoutLowest(row: seq<Logit>, idx: seq<nat>, keep: seq<bool>, m: nat)
    requires IsSort(row, idx) && |idx| == |row| == |keep| && m < |row|
    requires forall i :: 0 <= i < |row| ==> (keep[idx[i]] <==> i >= m)
    ensures forall i :: 0 <= i < |row| ==> (keep[idx[m] := false][idx[i]] <==> i >= m + 1)
  {
    hide IsPermutation, AscendingLogits;
    forall i | 0 <= i < |row| && i != m ensures idx[i] != idx[m] {
      PermutationInjective(idx, |row|, if i < m then i else m, if i < m then m else i);
    }
  }

  // ---------------------------------------------------------------- the chunked loop

  ghost predicate AreSorts(rows: seq<seq<Logit>>, sorts: seq<seq<nat>>, descending: seq<seq<nat>>) {
    && |rows| == |sorts| == |descending|
    && forall r :: 0 <= r < |rows| ==>
         IsSort(rows[r], sorts[r]) && |sorts[r]| == |rows[r]| && IsDescendingSort(rows[r], descending[r])
  }

  predicate NeedTopP(topP: Option<real>) {
    topP.Some? && topP.value != 1.0
  }

  // The rows from lo on up to hi are filtered row by row.
  ghost predicate RowsFiltered(
      rows: seq<seq<Logit>>, sorts: seq<seq<nat>>, topK: Option<int>, p: real, w: real -> real,
      logits: seq<seq<Logit>>, keep: seq<seq<bool>>, n: nat)
    requires |rows| == |sorts|
  {
    && n <= |rows| && n <= |logits| && n <= |keep|
    && forall r :: 0 <= r < n ==> RowFiltered(rows[r], sorts[r], topK, p, w, Filtered(logits[r], keep[r]))
  }

  // Two runs on the same sorts agree, whatever their chunk sizes.
  lemma ChunkSizeIrrelevant(
      rows: seq<seq<Logit>>, sorts: seq<seq<nat>>, descending: seq<seq<nat>>, topK: Option<int>, p: real, w: real -> real,
      logits: seq<seq<Logit>>, keep: seq<seq<bool>>, logits': seq<seq<Logit>>, keep': seq<seq<bool>>)
    requires AreSorts(rows, sorts, descending)
    requires |logits| == |keep| == |logits'| == |keep'| == |rows|
    requires RowsFiltered(rows, sorts, topK, p, w, logits, keep, |rows|)
    requires RowsFiltered(rows, sorts, topK, p, w, logits', keep', |rows|)
    ensures logits == logits' && keep == keep'
  {
    hide IsFiltered, IsSort, IsDescendingSort;
    forall r | 0 <= r < |rows| ensures logits[r] == logits'[r] && keep[r] == keep'[r] {
      assert IsSort(rows[r], sorts[r]);
      assert RowFiltered(rows[r], sorts[r], topK, p, w, Filtered(logits[r], keep[r]));
      assert RowFiltered(rows[r], sorts[r], topK, p, w, Filtered(logits'[r], keep'[r]));
      FilteredIsUnique(rows[r], sorts[r], topK, p, w, Filtered(logits[r], keep[r]), Filtered(logits'[r], keep'[r]));
    }
  }

  ghost predicate RowFiltered(row: seq<Logit>, idx: seq<nat>, topK: Option<int>, p: real, w: real -> real, f: Filtered) {
    && Below(idx, |row|) && |idx| == |row| && (NeedTopK(topK) ==> topK.value <= |row|)
    && IsFiltered(row, idx, topK, p, w, f)
  }

  // One chunk of rows is filtered and stored at its place in the outputs.
  method FilterChunk(rows: seq<seq<Logit>>, vocab: nat, sorts: seq<seq<nat>>, topK: Option<int>, p: real, w: real -> real,
                     start: nat, end: nat, logits: array<seq<Logit>>, keep: array<seq<bool>>, ghost descending: seq<seq<nat>>)
    requires AreSorts(rows, sorts, descending) && vocab > 0 && (forall r :: 0 <= r < |rows| ==> |rows[r]| == vocab)
    requires NeedTopK(topK) ==> topK.value <= vocab
    requires start <= end <= |rows| == logits.Length == keep.Length
    requires RowsFiltered(rows, sorts, topK, p, w, logits[..], keep[..], start)
    modifies logits, keep
    ensures RowsFiltered(rows, sorts, topK, p, w, logits[..], keep[..], end)
  {
    hide IsFiltered, IsSort, IsDescendingSort;
    for r := start to end
      invariant RowsFiltered(rows, sorts, topK, p, w, logits[..], keep[..], r)
    {
      assert IsSort(rows[r], sorts[r]);
      SortBelow(rows[r], sorts[r]);
      var f := FilterRow(rows[r], sorts[r], topK, p, w);
      logits[r], keep[r] := f.logits, f.keep;
    }
  }

  lemma SortBelow(row: seq<Logit>, idx: seq<nat>)
    requires IsSort(row, idx)
    ensures Below(idx, |row|)
  {
  }

  // The answer for all rows: without top-p and top-k the logits and no mask, without top-p the
  // sort-free top-k mask, otherwise the outputs that the loop fills chunk by chunk. It does not
  // depend on the chunk size. The sorts stand for torch.sort and torch.topk on each row.
  method ApplyTopKTopP(rows: seq<seq<Logit>>, vocab: nat, topK: Option<int>, topP: Option<real>, chunkSize: Option<nat>,
                       w: real -> real, sorts: seq<seq<nat>>, descending: seq<seq<nat>>)
    returns (r: Result<(seq<seq<Logit>>, Option<seq<seq<bool>>>), FilterError>)
    requires AreSorts(rows, sorts, descending) && vocab > 0 && (forall r :: 0 <= r < |rows| ==> |rows[r]| == vocab)
    ensures r.Ok? <==>
              && (topK.Some? && topK.value > 0 && (topP.Some? && topP.value != 1.0 ==> |rows| > 0) ==> topK.value <= vocab)
              && (topP.Some? && topP.value != 1.0 ==> if chunkSize.Some? then chunkSize.value > 0 else |rows| > 0)
    ensures r.Err? && r.error == ZeroStep ==> topP.Some? && topP.value != 1.0 && (chunkSize == Some(0) || |rows| == 0)
    ensures r.Err? && r.error == TopKOutOfRange ==> topK.Some? && topK.value > vocab
    ensures r.Ok? && (topP.None? || topP.value == 1.0) && topK.Some? && topK.value > 0 ==>
              TopKRows(rows, topK.value, r.value.0, r.value.1)
    ensures r.Ok? ==> (r.value.1.None? <==> (topP.None? || topP.value == 1.0) && (topK.None? || topK.value <= 0))
    ensures r.Ok? && r.value.1.None? ==> r.value.0 == rows
    ensures r.Ok? && topP.Some? && 0.0 < topP.value < 1.0 && IsWeight(w) ==>
              && r.value.1.Some? && |r.value.0| == |r.value.1.value| == |rows|
              && forall i :: 0 <= i < |rows| ==> SufficientRow(rows[i], topK, topP.value, w, r.value.0[i], r.value.1.value[i])
    ensures r.Ok? && NeedTopP(topP) ==>
              && r.value.1.Some? && |r.value.0| == |r.value.1.value| == |rows|
              && RowsFiltered(rows, sorts, topK, topP.value, w, r.value.0, r.value.1.value, |rows|)
  {
    hide IsFiltered, IsSort, IsDescendingSort, KeptTopK, SufficientRow, IsWeight;
    if !NeedTopP(topP) {
      if !NeedTopK(topK) {
        return Ok((rows, None));
      }
      r := TopKOnlyRows(rows, vocab, topK.value, sorts, descending);
      return;
    }
    var step := if chunkSize.Some? then chunkSize.value else |rows|;
    if step == 0 {
      return Err(ZeroStep);
    }
    if NeedTopK(topK) && |rows| > 0 && topK.value > vocab {
      return Err(TopKOutOfRange);
    }
    var logits := new seq<Logit>[|rows|](_ => []);
    var keep := new seq<bool>[|rows|](_ => []);
    var start := 0;
    while start < |rows|
      invariant start <= |rows|
      invariant RowsFiltered(rows, sorts, topK, topP.value, w, logits[..], keep[..], start)
      decreases |rows| - start
    {
      var end := if start + step < |rows| then start + step else |rows|;
      FilterChunk(rows, vocab, sorts, topK, topP.value, w, start, end, logits, keep, descending);
      start := end;
    }
    if 0.0 < topP.value < 1.0 && IsWeight(w) {
      AllSufficient(rows, vocab, sorts, descending, topK, topP.value, w, logits[..], keep[..]);
    }
    return Ok((logits[..], Some(keep[..])));
  }

  ghost predicate SufficientRow(row: seq<Logit>, topK: Option<int>, p: real, w: real -> real, logits: seq<Logit>, keep: seq<bool>) {
    MaskedBy(row, Filtered(logits, keep)) && SmallestSufficient(row, topK, p, w, keep)
  }

  lemma AllSufficient(
      rows: seq<seq<Logit>>, vocab: nat, sorts: seq<seq<nat>>, descending: seq<seq<nat>>, topK: Option<int>, p: real,
      w: real -> real, logits: seq<seq<Logit>>, keep: seq<seq<bool>>)
    requires AreSorts(rows, sorts, descending) && vocab > 0 && (forall r :: 0 <= r < |rows| ==> |rows[r]| == vocab)
    requires |logits| == |keep| == |rows| && IsWeight(w) && 0.0 < p < 1.0
    requires RowsFiltered(rows, sorts, topK, p, w, logits, keep, |rows|)
    ensures forall i :: 0 <= i < |rows| ==> SufficientRow(rows[i], topK, p, w, logits[i], keep[i])
  {
    hide IsSort, IsDescendingSort, SmallestSufficient, IsWeight, SortedKeep, MaskedBy;
    forall i | 0 <= i < |rows| ensures SufficientRow(rows[i], topK, p, w, logits[i], keep[i]) {
      assert IsSort(rows[i], sorts[i]);
      assert RowFiltered(rows[i], sorts[i], topK, p, w, Filtered(logits[i], keep[i]));
      FilteredIsSufficient(rows[i], sorts[i], topK, p, w, Filtered(logits[i], keep[i]));
    }
  }

  ghost predicate TopKRows(rows: seq<seq<Logit>>, topK: int, logits: seq<seq<Logit>>, keep: Option<seq<seq<bool>>>)
    requires topK > 0
  {
    && keep.Some? && |logits| == |keep.value| == |rows|
    && forall r :: 0 <= r < |rows| ==> KeptTopK(rows[r], topK, Filtered(logits[r], keep.value[r]))
  }

  method TopKOnlyRows(rows: seq<seq<Logit>>, vocab: nat, topK: int, ghost sorts: seq<seq<nat>>, descending: seq<seq<nat>>)
    returns (r: Result<(seq<seq<Logit>>, Option<seq<seq<bool>>>), FilterError>)
    requires AreSorts(rows, sorts, descending) && topK > 0 && (forall r :: 0 <= r < |rows| ==> |rows[r]| == vocab)
    ensures r.Ok? <==> topK <= vocab
    ensures r.Err? ==> r.error == TopKOutOfRange
    ensures r.Ok? ==> TopKRows(rows, topK, r.value.0, r.value.1)
  {
    hide IsSort, IsDescendingSort, IsKthLargest, MaskedBy;
    if topK > vocab {
      return Err(TopKOutOfRange);  // torch.topk compares with the width, whatever the number of rows
    }
    var logits: seq<seq<Logit>> := [];
    var keep: seq<seq<bool>> := [];
    for i := 0 to |rows|
      invariant |logits| == |keep| == i
      invariant forall j :: 0 <= j < i ==> KeptTopK(rows[j], topK, Filtered(logits[j], keep[j]))
    {
      assert IsDescendingSort(rows[i], descending[i]);
      var f := TopKOnly(rows[i], topK, descending[i]);
      logits, keep := logits + [f.value.logits], keep + [f.value.keep];
    }
    return Ok((logits, Some(keep)));
  }
}
