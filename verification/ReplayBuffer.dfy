/** The replay buffer: three parallel lists and the queue they are. */
module ReplayBuffers {
  import opened Wrappers
  import opened Arith
  import Seqs

  // The lists are behind a lock. The class below is proved to behave like a queue of entries, and the
  // protocol of asynchronous GRPO is stated on that queue.

  // One prompt group: the weights that generated it and the training step it is meant for.
  datatype Entry<T> = Entry(version: int, target: int, item: T)

  datatype PushStatus = Success | Full

  // TooOld is the ValueError about trajectories older than the age window;
  // NoGroupsRequested is the division by zero of the average age when no group is asked for.
  datatype SampleError = TooOld | NoGroupsRequested

  datatype SampleOutcome<T> =
    | Raised(error: SampleError)
    | Stalled
    | Sampled(items: seq<T>, avgAge: real)

  // ---------------------------------------------------------------- the queue

  // The oldest version that may still be trained on at version `current`.
  function MinValid(current: int, maxAge: int): int {
    Max(0, current - maxAge)
  }

  predicate InWindow(version: int, current: int, maxAge: int) {
    MinValid(current, maxAge) <= version <= current
  }

  predicate Wanted<T>(e: Entry<T>, current: int, maxAge: int) {
    e.target == current && InWindow(e.version, current, maxAge)
  }

  function CountWanted<T>(es: seq<Entry<T>>, current: int, maxAge: int): nat {
    if |es| == 0 then 0
    else CountWanted(es[..|es| - 1], current, maxAge) + if Wanted(es[|es| - 1], current, maxAge) then 1 else 0
  }

  function CountValid<T>(es: seq<Entry<T>>, current: int, maxAge: int): nat {
    if |es| == 0 then 0
    else CountValid(es[..|es| - 1], current, maxAge)
         + if InWindow(es[|es| - 1].version, current, maxAge) then 1 else 0
  }

  // An entry is taken when it is wanted and fewer than n wanted entries stand before it.
  predicate TakesLast<T>(es: seq<Entry<T>>, current: int, maxAge: int, n: nat)
    requires |es| > 0
  {
    Wanted(es[|es| - 1], current, maxAge) && CountWanted(es[..|es| - 1], current, maxAge) < n
  }

  function TakeWanted<T>(es: seq<Entry<T>>, current: int, maxAge: int, n: nat): seq<Entry<T>> {
    if |es| == 0 then []
    else TakeWanted(es[..|es| - 1], current, maxAge, n)
         + if TakesLast(es, current, maxAge, n) then [es[|es| - 1]] else []
  }

  function DropWanted<T>(es: seq<Entry<T>>, current: int, maxAge: int, n: nat): seq<Entry<T>> {
    if |es| == 0 then []
    else DropWanted(es[..|es| - 1], current, maxAge, n)
         + if TakesLast(es, current, maxAge, n) then [] else [es[|es| - 1]]
  }

  ghost predicate HasTooOld<T>(es: seq<Entry<T>>, current: int, maxAge: int) {
    exists i :: 0 <= i < |es| && es[i].version < MinValid(current, maxAge)
  }

  function Items<T>(es: seq<Entry<T>>): seq<T> {
    seq(|es|, i requires 0 <= i < |es| => es[i].item)
  }

  function SumVersions<T>(es: seq<Entry<T>>): int {
    if |es| == 0 then 0 else SumVersions(es[..|es| - 1]) + es[|es| - 1].version
  }

  function AverageAge<T>(taken: seq<Entry<T>>, current: int): real
    requires |taken| > 0
  {
    current as real - SumVersions(taken) as real / |taken| as real
  }

  // What one call of sample answers, stated on the queue.
  ghost function Outcome<T>(es: seq<Entry<T>>, n: nat, current: int, maxAge: int): SampleOutcome<T> {
    if |es| == 0 then Stalled
    else if HasTooOld(es, current, maxAge) then Raised(TooOld)
    else if CountValid(es, current, maxAge) == 0 || CountWanted(es, current, maxAge) < n then Stalled
    else if n == 0 then Raised(NoGroupsRequested)
    else
      var taken := TakeWanted(es, current, maxAge, n);
      TakeLength(es, current, maxAge, n);
      Sampled(Items(taken), AverageAge(taken, current))
  }

  ghost function Remaining<T>(es: seq<Entry<T>>, n: nat, current: int, maxAge: int): seq<Entry<T>> {
    if Outcome(es, n, current, maxAge).Sampled? then DropWanted(es, current, maxAge, n) else es
  }

  // ---------------------------------------------------------------- laws of the queue

  lemma {:induction false} TakeLength<T>(es: seq<Entry<T>>, current: int, maxAge: int, n: nat)
    ensures |TakeWanted(es, current, maxAge, n)|
         == (if CountWanted(es, current, maxAge) < n then CountWanted(es, current, maxAge) else n)
  {
    if |es| > 0 {
      TakeLength(es[..|es| - 1], current, maxAge, n);
    }
  }

  // Every taken entry is wanted.
  lemma {:induction false} TakenAreWanted<T>(es: seq<Entry<T>>, current: int, maxAge: int, n: nat)
    ensures forall e :: e in TakeWanted(es, current, maxAge, n) ==> Wanted(e, current, maxAge)
  {
    if |es| > 0 {
      TakenAreWanted(es[..|es| - 1], current, maxAge, n);
    }
  }

  // Sampling loses and invents nothing.
  lemma {:induction false} TakeDropConserves<T>(es: seq<Entry<T>>, current: int, maxAge: int, n: nat)
    ensures multiset(TakeWanted(es, current, maxAge, n)) + multiset(DropWanted(es, current, maxAge, n))
         == multiset(es)
  {
    if |es| > 0 {
      var before, x := es[..|es| - 1], es[|es| - 1];
      TakeDropConserves(before, current, maxAge, n);
      assert es == before + [x];
      var taken, left := TakeWanted(before, current, maxAge, n), DropWanted(before, current, maxAge, n);
      assert multiset(taken + [x]) == multiset(taken) + multiset{x};
      assert multiset(left + [x]) == multiset(left) + multiset{x};
      if TakesLast(es, current, maxAge, n) {
        assert DropWanted(es, current, maxAge, n) == left;
      } else {
        assert TakeWanted(es, current, maxAge, n) == taken;
      }
    }
  }

  // First in, first out: a wanted entry that stays behind has n wanted entries before it.
  lemma {:induction false} OnlySurplusStays<T>(es: seq<Entry<T>>, current: int, maxAge: int, n: nat)
    ensures CountWanted(es, current, maxAge) <= n
        ==> forall e :: e in DropWanted(es, current, maxAge, n) ==> !Wanted(e, current, maxAge)
  {
    if |es| > 0 {
      OnlySurplusStays(es[..|es| - 1], current, maxAge, n);
    }
  }

  lemma {:induction false} DropIsSubset<T>(es: seq<Entry<T>>, current: int, maxAge: int, n: nat)
    ensures forall e :: e in DropWanted(es, current, maxAge, n) ==> e in es
  {
    if |es| > 0 {
      DropIsSubset(es[..|es| - 1], current, maxAge, n);
    }
  }

  lemma {:induction false} SumVersionsBounds<T>(es: seq<Entry<T>>, lo: int, hi: int)
    requires forall e :: e in es ==> lo <= e.version <= hi
    ensures lo * |es| <= SumVersions(es) <= hi * |es|
  {
    if |es| > 0 {
      assert es[|es| - 1] in es;
      SumVersionsBounds(es[..|es| - 1], lo, hi);
    }
  }

  // The average age that sample reports lies between no age and the permitted age.
  lemma AverageAgeWithinWindow<T>(es: seq<Entry<T>>, n: nat, current: int, maxAge: int)
    requires Outcome(es, n, current, maxAge).Sampled?
    ensures 0.0 <= Outcome(es, n, current, maxAge).avgAge <= maxAge as real
  {
    var taken := TakeWanted(es, current, maxAge, n);
    TakeLength(es, current, maxAge, n);
    TakenAreWanted(es, current, maxAge, n);
    SumVersionsBounds(taken, MinValid(current, maxAge), current);
    MeanBounds(SumVersions(taken), |taken|, MinValid(current, maxAge), current);
  }

  lemma MeanBounds(sum: int, count: nat, lo: int, hi: int)
    requires count > 0 && lo * count <= sum <= hi * count
    ensures lo as real <= sum as real / count as real <= hi as real
  {
    var s, m := sum as real, count as real;
    assert lo as real * m == (lo * count) as real;
    assert hi as real * m == (hi * count) as real;
    AtMostQuotient(lo as real, s, m);
    AtMostQuotient(-(hi as real), -s, m);
    assert (-s) / m == -(s / m);
  }

  lemma AtMostQuotient(l: real, s: real, m: real)
    requires m > 0.0 && l * m <= s
    ensures l <= s / m
  {
    var q := s / m;
    assert q * m == s;
    if q < l {
      ScaleStrictly(q, l, m);
    }
  }

  lemma ScaleStrictly(a: real, b: real, m: real)
    requires m > 0.0 && a < b
    ensures a * m < b * m
  {
  }

  // ---------------------------------------------------------------- index lists, as sample builds them

  // [i for i, v in enumerate(versions) if lo <= v <= hi], over the first m indices.
  function ValidIndices(versions: seq<int>, lo: int, hi: int, m: nat): (r: seq<nat>)
    requires m <= |versions|
    ensures forall i :: i in r ==> i < m
  {
    if m == 0 then []
    else ValidIndices(versions, lo, hi, m - 1) + if lo <= versions[m - 1] <= hi then [m - 1] else []
  }

  // [i for i in valid if targets[i] == current]
  function IntendedIndices(valid: seq<nat>, targets: seq<int>, current: int): (r: seq<nat>)
    requires forall i :: i in valid ==> i < |targets|
    ensures forall i :: i in r ==> i in valid
  {
    if |valid| == 0 then []
    else
      var k := |valid| - 1;
      assert valid[k] in valid;
      assert forall i :: i in valid[..k] ==> i in valid;
      IntendedIndices(valid[..k], targets, current) + if targets[valid[k]] == current then [valid[k]] else []
  }

  function WantedIndices<T>(es: seq<Entry<T>>, current: int, maxAge: int, m: nat): (r: seq<nat>)
    requires m <= |es|
    ensures forall i :: i in r ==> i < m
    ensures |r| == CountWanted(es[..m], current, maxAge)
  {
    if m == 0 then []
    else
      assert es[..m][..m - 1] == es[..m - 1];
      WantedIndices(es, current, maxAge, m - 1) + if Wanted(es[m - 1], current, maxAge) then [m - 1] else []
  }

  function RemoveAt<X>(s: seq<X>, i: nat): seq<X>
    requires i < |s|
  {
    s[..i] + s[i + 1..]
  }

  ghost predicate IndicesAscend(idx: seq<nat>, bound: nat) {
    Seqs.Increasing(idx) && forall i :: 0 <= i < |idx| ==> idx[i] < bound
  }

  // Popping the indices of an ascending list from its last to its first.
  function PopAll<X>(s: seq<X>, idx: seq<nat>): seq<X>
    requires IndicesAscend(idx, |s|)
    decreases |idx|
  {
    if |idx| == 0 then s
    else
      var k := |idx| - 1;
      PopAll(RemoveAt(s, idx[k]), idx[..k])
  }

  lemma {:induction false} ValidIndicesCount<T>(es: seq<Entry<T>>, versions: seq<int>, current: int, maxAge: int, m: nat)
    requires m <= |es| == |versions|
    requires forall i :: 0 <= i < |es| ==> es[i].version == versions[i]
    ensures |ValidIndices(versions, MinValid(current, maxAge), current, m)| == CountValid(es[..m], current, maxAge)
  {
    if m > 0 {
      ValidIndicesCount(es, versions, current, maxAge, m - 1);
      assert es[..m][..m - 1] == es[..m - 1];
    }
  }

  lemma {:induction false} WantedAtMostValid<T>(es: seq<Entry<T>>, current: int, maxAge: int)
    ensures CountWanted(es, current, maxAge) <= CountValid(es, current, maxAge)
  {
    if |es| > 0 {
      WantedAtMostValid(es[..|es| - 1], current, maxAge);
    }
  }

  // The two filters of sample select exactly the wanted indices.
  lemma {:induction false} FiltersSelectWanted<T>(
      es: seq<Entry<T>>, versions: seq<int>, targets: seq<int>, current: int, maxAge: int, m: nat)
    requires m <= |es| == |versions| == |targets|
    requires forall i :: 0 <= i < |es| ==> es[i].version == versions[i] && es[i].target == targets[i]
    ensures IntendedIndices(ValidIndices(versions, MinValid(current, maxAge), current, m), targets, current)
         == WantedIndices(es, current, maxAge, m)
  {
    if m > 0 {
      FiltersSelectWanted(es, versions, targets, current, maxAge, m - 1);
      var lo := MinValid(current, maxAge);
      var before := ValidIndices(versions, lo, current, m - 1);
      var all := ValidIndices(versions, lo, current, m);
      if lo <= versions[m - 1] <= current {
        assert all[..|all| - 1] == before;
      } else {
        assert all == before;
      }
    }
  }

  lemma {:induction false} PopAllSnoc<X>(s: seq<X>, x: X, idx: seq<nat>)
    requires IndicesAscend(idx, |s|)
    ensures IndicesAscend(idx, |s + [x]|)
    ensures PopAll(s + [x], idx) == PopAll(s, idx) + [x]
    decreases |idx|
  {
    if |idx| > 0 {
      var k := |idx| - 1;
      assert RemoveAt(s + [x], idx[k]) == RemoveAt(s, idx[k]) + [x];
      PopAllSnoc(RemoveAt(s, idx[k]), x, idx[..k]);
    }
  }

  // The first m elements, in order, without those at the given indices.
  function Without<X>(s: seq<X>, idx: seq<nat>, m: nat): seq<X>
    requires m <= |s|
  {
    if m == 0 then [] else Without(s, idx, m - 1) + if m - 1 in idx then [] else [s[m - 1]]
  }

  lemma {:induction false} WithoutSame<X>(s: seq<X>, t: seq<X>, idx: seq<nat>, idx': seq<nat>, m: nat)
    requires m <= |s| && m <= |t| && s[..m] == t[..m]
    requires forall i :: 0 <= i < m ==> (i in idx <==> i in idx')
    ensures Without(s, idx, m) == Without(t, idx', m)
  {
    if m > 0 {
      assert s[..m][..m - 1] == s[..m - 1] && t[..m][..m - 1] == t[..m - 1];
      assert s[..m][m - 1] == t[..m][m - 1];
      WithoutSame(s, t, idx, idx', m - 1);
    }
  }

  lemma WithoutSnoc<X>(t: seq<X>, x: X, idx: seq<nat>, idx': seq<nat>)
    requires forall i :: 0 <= i < |t| ==> (i in idx <==> i in idx')
    ensures Without(t + [x], idx, |t + [x]|) == Without(t, idx', |t|) + if |t| in idx then [] else [x]
  {
    assert (t + [x])[..|t|] == t == t[..|t|];
    WithoutSame(t + [x], t, idx, idx', |t|);
  }

  // An ascending list below n + 1 ends with n or lies below n.
  lemma SplitAscending(idx: seq<nat>, n: nat) returns (front: seq<nat>)
    requires IndicesAscend(idx, n + 1)
    ensures IndicesAscend(front, n) && idx == front + if n in idx then [n] else []
    ensures forall i :: 0 <= i < n ==> (i in idx <==> i in front)
  {
    front := idx;
    if n in idx {
      front := idx[..|idx| - 1];
      assert idx == front + [idx[|idx| - 1]];
    } else {
      forall j | 0 <= j < |idx| ensures idx[j] < n {
        assert idx[j] in idx;
      }
    }
  }

  // Popping from the back removes exactly the given positions; the others keep their order.
  lemma {:induction false} PopAllIsWithout<X>(s: seq<X>, idx: seq<nat>)
    requires IndicesAscend(idx, |s|)
    ensures PopAll(s, idx) == Without(s, idx, |s|)
    decreases |s|
  {
    if |s| > 0 {
      hide PopAll, Without, IndicesAscend;
      var n := |s| - 1;
      var t, x := s[..n], s[n];
      assert s == t + [x];
      var front := SplitAscending(idx, n);
      PopSnoc(t, x, front, n in idx);
      WithoutSnoc(t, x, idx, front);
      PopAllIsWithout(t, front);
    }
  }

  // The indices that sample selects: the first n wanted ones.
  function Selected<T>(es: seq<Entry<T>>, current: int, maxAge: int, n: nat, m: nat): (r: seq<nat>)
    requires m <= |es|
    ensures |r| == if CountWanted(es[..m], current, maxAge) < n then CountWanted(es[..m], current, maxAge) else n
    ensures forall i :: 0 <= i < |r| ==> r[i] < m
  {
    var w := WantedIndices(es, current, maxAge, m);
    assert forall i :: 0 <= i < |w| ==> w[i] in w;
    w[..if |w| < n then |w| else n]
  }

  lemma SelectedSnoc<T>(es: seq<Entry<T>>, current: int, maxAge: int, n: nat, m: nat)
    requires 0 < m <= |es|
    ensures es[..m] == es[..m - 1] + [es[m - 1]] && es[..m][..m - 1] == es[..m - 1]
    ensures Selected(es, current, maxAge, n, m) == Selected(es, current, maxAge, n, m - 1)
            + if TakesLast(es[..m], current, maxAge, n) then [m - 1] else []
  {
    assert es[..m][..m - 1] == es[..m - 1];
    var v, w := WantedIndices(es, current, maxAge, m - 1), WantedIndices(es, current, maxAge, m);
    if TakesLast(es[..m], current, maxAge, n) {
      assert Selected(es, current, maxAge, n, m) == v + [m - 1];
    } else {
      assert Selected(es, current, maxAge, n, m) == Selected(es, current, maxAge, n, m - 1);
    }
  }

  lemma PopLast<X>(s: seq<X>, x: X, idx: seq<nat>)
    requires IndicesAscend(idx, |s|)
    ensures IndicesAscend(idx + [|s|], |s + [x]|)
    ensures PopAll(s + [x], idx + [|s|]) == PopAll(s, idx)
  {
    assert (idx + [|s|])[..|idx|] == idx;
    assert RemoveAt(s + [x], |s|) == s;
  }

  lemma DropWantedSnoc<T>(s: seq<Entry<T>>, x: Entry<T>, current: int, maxAge: int, n: nat)
    ensures DropWanted(s + [x], current, maxAge, n) == DropWanted(s, current, maxAge, n)
            + if TakesLast(s + [x], current, maxAge, n) then [] else [x]
  {
    assert (s + [x])[..|s|] == s;
  }

  lemma PopSnoc<X>(s: seq<X>, x: X, idx: seq<nat>, popLast: bool)
    requires IndicesAscend(idx, |s|)
    ensures var all := idx + if popLast then [|s|] else [];
            && IndicesAscend(all, |s + [x]|)
            && PopAll(s + [x], all) == PopAll(s, idx) + if popLast then [] else [x]
  {
    if popLast {
      PopLast(s, x, idx);
      assert PopAll(s, idx) + [] == PopAll(s, idx);
    } else {
      PopAllSnoc(s, x, idx);
      assert idx + [] == idx;
    }
  }

  // Popping the first n wanted indices is dropping the first n wanted entries.
  lemma {:induction false} PopAllDropsWanted<T>(es: seq<Entry<T>>, current: int, maxAge: int, n: nat, m: nat)
    requires m <= |es|
    ensures IndicesAscend(Selected(es, current, maxAge, n, m), |es[..m]|)
    ensures PopAll(es[..m], Selected(es, current, maxAge, n, m)) == DropWanted(es[..m], current, maxAge, n)
  {
    if m > 0 {
      var s, x := es[..m - 1], es[m - 1];
      PopAllDropsWanted(es, current, maxAge, n, m - 1);
      SelectedSnoc(es, current, maxAge, n, m);
      DropWantedSnoc(s, x, current, maxAge, n);
      PopSnoc(s, x, Selected(es, current, maxAge, n, m - 1), TakesLast(s + [x], current, maxAge, n));
    }
  }

  // The taken entries, read off at the selected indices.
  lemma {:induction false} SelectedAreTaken<T>(es: seq<Entry<T>>, current: int, maxAge: int, n: nat, m: nat)
    requires m <= |es|
    ensures |TakeWanted(es[..m], current, maxAge, n)| == |Selected(es, current, maxAge, n, m)|
    ensures forall i :: 0 <= i < |Selected(es, current, maxAge, n, m)| ==>
              TakeWanted(es[..m], current, maxAge, n)[i] == es[Selected(es, current, maxAge, n, m)[i]]
  {
    TakeLength(es[..m], current, maxAge, n);
    if m > 0 {
      SelectedAreTaken(es, current, maxAge, n, m - 1);
      SelectedSnoc(es, current, maxAge, n, m);
    }
  }

  // ---------------------------------------------------------------- one sample, read off the lists

  // A group for the current step whose version is not negative and inside the age window.
  predicate OfStep(version: int, target: int, current: int, maxAge: int) {
    target == current && 0 <= version && current - maxAge <= version <= current
  }

  predicate Outdated(version: int, current: int, maxAge: int) {
    version < 0 || version < current - maxAge
  }

  // sel holds the first n positions of groups for the current step, in order.
  ghost predicate FirstOfStep(versions: seq<int>, targets: seq<int>, current: int, maxAge: int, n: nat, sel: seq<nat>) {
    && |sel| == n && |versions| == |targets| && IndicesAscend(sel, |versions|)
    && (forall i :: 0 <= i < n ==> OfStep(versions[sel[i]], targets[sel[i]], current, maxAge))
    && (forall j :: 0 <= j < |versions| && OfStep(versions[j], targets[j], current, maxAge) ==>
          j in sel || n == 0 || j > sel[n - 1])
  }

  // The items at the selected positions, and the mean of the ages of their versions.
  ghost predicate HandsOut<T>(outcome: SampleOutcome<T>, items: seq<T>, versions: seq<int>, current: int, sel: seq<nat>) {
    && outcome.Sampled? && |outcome.items| == |sel| && IndicesAscend(sel, |items|) && |versions| == |items|
    && (forall i :: 0 <= i < |sel| ==> outcome.items[i] == items[sel[i]])
    && outcome.avgAge * |sel| as real == Seqs.Sum(AgesAt(versions, current, sel)) as real
  }

  function AgesAt(versions: seq<int>, current: int, sel: seq<nat>): (r: seq<int>)
    requires IndicesAscend(sel, |versions|)
    ensures |r| == |sel| && forall i :: 0 <= i < |sel| ==> r[i] == current - versions[sel[i]]
  {
    seq(|sel|, i requires 0 <= i < |sel| => current - versions[sel[i]])
  }

  lemma WantedMeansOfStep<T>(e: Entry<T>, current: int, maxAge: int)
    ensures Wanted(e, current, maxAge) <==> OfStep(e.version, e.target, current, maxAge)
  {
  }

  lemma {:induction false} WantedIndicesMeaning<T>(es: seq<Entry<T>>, current: int, maxAge: int, m: nat)
    requires m <= |es|
    ensures IndicesAscend(WantedIndices(es, current, maxAge, m), m)
    ensures forall j :: 0 <= j < m ==> (j in WantedIndices(es, current, maxAge, m) <==> Wanted(es[j], current, maxAge))
  {
    if m > 0 {
      WantedIndicesMeaning(es, current, maxAge, m - 1);
    }
  }

  lemma SelectedMeaning<T>(es: seq<Entry<T>>, current: int, maxAge: int, n: nat)
    requires n <= CountWanted(es, current, maxAge)
    ensures var sel := Selected(es, current, maxAge, n, |es|);
            && |sel| == n && IndicesAscend(sel, |es|)
            && (forall i :: 0 <= i < n ==> Wanted(es[sel[i]], current, maxAge))
            && (forall j :: 0 <= j < |es| && Wanted(es[j], current, maxAge) ==> j in sel || n == 0 || j > sel[n - 1])
  {
    assert es[..|es|] == es;
    var w := WantedIndices(es, current, maxAge, |es|);
    WantedIndicesMeaning(es, current, maxAge, |es|);
    var sel := Selected(es, current, maxAge, n, |es|);
    hide Wanted, WantedIndices, CountWanted;
    assert sel == w[..n];
    forall i | 0 <= i < n ensures Wanted(es[sel[i]], current, maxAge) {
      assert w[i] in w;
    }
    forall j | 0 <= j < |es| && Wanted(es[j], current, maxAge) ensures j in sel || n == 0 || j > sel[n - 1] {
      var k :| 0 <= k < |w| && w[k] == j;
      if k < n {
        assert sel[k] == j;
      }
    }
  }

  // As many wanted entries as there are positions of wanted entries.
  lemma {:induction false} EnoughPositions<T>(es: seq<Entry<T>>, current: int, maxAge: int, sel: seq<nat>)
    requires IndicesAscend(sel, |es|) && forall i :: 0 <= i < |sel| ==> Wanted(es[sel[i]], current, maxAge)
    ensures CountWanted(es, current, maxAge) >= |sel|
  {
    if |es| > 0 {
      var n := |es| - 1;
      var front := SplitAscending(sel, n);
      forall i | 0 <= i < |front| ensures Wanted(es[..n][front[i]], current, maxAge) {
        assert sel[i] == front[i];
      }
      if n in sel {
        assert sel[|sel| - 1] == n;
      }
      EnoughPositions(es[..n], current, maxAge, front);
      hide Wanted, IndicesAscend;
    }
  }

  // A sample can be taken exactly where n groups for the step are there.
  lemma EnoughMeansSelection<T>(es: seq<Entry<T>>, versions: seq<int>, targets: seq<int>, current: int, maxAge: int, n: nat)
    requires |es| == |versions| == |targets|
    requires forall i :: 0 <= i < |es| ==> es[i].version == versions[i] && es[i].target == targets[i]
    ensures CountWanted(es, current, maxAge) >= n ==>
              FirstOfStep(versions, targets, current, maxAge, n, Selected(es, current, maxAge, n, |es|))
    ensures (exists sel :: FirstOfStep(versions, targets, current, maxAge, n, sel)) ==> CountWanted(es, current, maxAge) >= n
  {
    hide CountWanted, Selected, Wanted, OfStep;
    forall i | 0 <= i < |es|
      ensures Wanted(es[i], current, maxAge) <==> OfStep(versions[i], targets[i], current, maxAge)
    {
      WantedMeansOfStep(es[i], current, maxAge);
    }
    if CountWanted(es, current, maxAge) >= n {
      SelectedMeaning(es, current, maxAge, n);
    }
    if exists sel :: FirstOfStep(versions, targets, current, maxAge, n, sel) {
      var sel :| FirstOfStep(versions, targets, current, maxAge, n, sel);
      EnoughPositions(es, current, maxAge, sel);
    }
  }

  lemma {:induction false} AgesAddUp<T>(taken: seq<Entry<T>>, current: int, ages: seq<int>)
    requires |ages| == |taken| && forall i :: 0 <= i < |taken| ==> ages[i] == current - taken[i].version
    ensures Seqs.Sum(ages) == |taken| * current - SumVersions(taken)
  {
    if |taken| > 0 {
      var n := |taken| - 1;
      AgesAddUp(taken[..n], current, ages[..n]);
      MulStep(n + 1, current);
    }
  }

  lemma MeanTimesCount(sum: int, count: nat, current: int)
    requires count > 0
    ensures (current as real - sum as real / count as real) * count as real == (count * current - sum) as real
  {
    var c, s, n := current as real, sum as real, count as real;
    assert (s / n) * n == s;
    assert (c - s / n) * n == c * n - s;
    assert c * n == (count * current) as real;
  }

  lemma TakenAt<T>(es: seq<Entry<T>>, current: int, maxAge: int, n: nat)
    requires n <= CountWanted(es, current, maxAge)
    ensures var sel, taken := Selected(es, current, maxAge, n, |es|), TakeWanted(es, current, maxAge, n);
            && |sel| == |taken| == n && IndicesAscend(sel, |es|)
            && forall i :: 0 <= i < n ==> taken[i] == es[sel[i]]
  {
    assert es[..|es|] == es;
    SelectedMeaning(es, current, maxAge, n);
    SelectedAreTaken(es, current, maxAge, n, |es|);
    hide Selected, TakeWanted, CountWanted, Wanted;
  }

  lemma TakenAges<T>(taken: seq<Entry<T>>, versions: seq<int>, current: int, sel: seq<nat>)
    requires |taken| == |sel| > 0 && IndicesAscend(sel, |versions|)
    requires forall i :: 0 <= i < |sel| ==> taken[i].version == versions[sel[i]]
    ensures AverageAge(taken, current) * |sel| as real == Seqs.Sum(AgesAt(versions, current, sel)) as real
  {
    AgesAddUp(taken, current, AgesAt(versions, current, sel));
    MeanTimesCount(SumVersions(taken), |sel|, current);
    hide SumVersions, IndicesAscend;
  }

  // What the outcome hands out, at the selected positions.
  lemma OutcomeHandsOut<T>(es: seq<Entry<T>>, items: seq<T>, versions: seq<int>, current: int, maxAge: int, n: nat)
    requires Outcome(es, n, current, maxAge).Sampled? && |es| == |items| == |versions|
    requires forall i :: 0 <= i < |es| ==> es[i].version == versions[i] && es[i].item == items[i]
    ensures HandsOut(Outcome(es, n, current, maxAge), items, versions, current, Selected(es, current, maxAge, n, |es|))
  {
    hide Selected, TakeWanted, CountWanted, HasTooOld, AverageAge, IndicesAscend, AgesAt;
    TakenAt(es, current, maxAge, n);
    TakenAges(TakeWanted(es, current, maxAge, n), versions, current, Selected(es, current, maxAge, n, |es|));
    SelectionBelow(es, current, maxAge, n);
  }

  lemma SelectionBelow<T>(es: seq<Entry<T>>, current: int, maxAge: int, n: nat)
    ensures forall i :: 0 <= i < |Selected(es, current, maxAge, n, |es|)| ==> Selected(es, current, maxAge, n, |es|)[i] < |es|
  {
  }

  // The chosen elements and the others are all the elements.
  lemma {:induction false} ChosenAndRest<X>(s: seq<X>, idx: seq<nat>, chosen: seq<X>)
    requires IndicesAscend(idx, |s|) && |chosen| == |idx| && forall i :: 0 <= i < |idx| ==> chosen[i] == s[idx[i]]
    ensures multiset(chosen) + multiset(Without(s, idx, |s|)) == multiset(s)
    decreases |s|
  {
    if |s| == 0 {
      assert idx == [] && chosen == [];
    } else {
      var n := |s| - 1;
      var t, x := s[..n], s[n];
      assert s == t + [x];
      var front := SplitAscending(idx, n);
      WithoutSnoc(t, x, idx, front);
      ChosenAndRest(t, front, chosen[..|front|]);
      if n in idx {
        assert chosen == chosen[..|front|] + [x];
      } else {
        assert chosen == chosen[..|front|];
      }
      hide Without, IndicesAscend;
    }
  }

  function Mapped<X, Y>(s: seq<X>, f: X -> Y): (r: seq<Y>)
    ensures |r| == |s| && forall i :: 0 <= i < |s| ==> r[i] == f(s[i])
  {
    seq(|s|, i requires 0 <= i < |s| => f(s[i]))
  }

  lemma {:induction false} WithoutMapped<X, Y>(s: seq<X>, f: X -> Y, idx: seq<nat>, m: nat)
    requires m <= |s|
    ensures Mapped(Without(s, idx, m), f) == Without(Mapped(s, f), idx, m)
  {
    if m > 0 {
      WithoutMapped(s, f, idx, m - 1);
    }
  }

  function VersionOf<T>(e: Entry<T>): int {
    e.version
  }

  function TargetOf<T>(e: Entry<T>): int {
    e.target
  }

  function ItemOf<T>(e: Entry<T>): T {
    e.item
  }

  // The three lists are the three parts of the entries.
  ghost predicate AreParts<T>(es: seq<Entry<T>>, items: seq<T>, versions: seq<int>, targets: seq<int>) {
    && |es| == |items| == |versions| == |targets|
    && forall i :: 0 <= i < |es| ==> es[i] == Entry(versions[i], targets[i], items[i])
  }

  // Removing entries removes the same positions from each list.
  lemma PartsWithout<T>(
      es: seq<Entry<T>>, items: seq<T>, versions: seq<int>, targets: seq<int>,
      left: seq<Entry<T>>, items': seq<T>, versions': seq<int>, targets': seq<int>, idx: seq<nat>)
    requires AreParts(es, items, versions, targets) && AreParts(left, items', versions', targets')
    requires left == Without(es, idx, |es|)
    ensures items' == Without(items, idx, |es|)
    ensures versions' == Without(versions, idx, |es|)
    ensures targets' == Without(targets, idx, |es|)
  {
    hide Without;
    WithoutMapped(es, ItemOf, idx, |es|);
    WithoutMapped(es, VersionOf, idx, |es|);
    WithoutMapped(es, TargetOf, idx, |es|);
    assert Mapped(es, ItemOf) == items && Mapped(left, ItemOf) == items';
    assert Mapped(es, VersionOf) == versions && Mapped(left, VersionOf) == versions';
    assert Mapped(es, TargetOf) == targets && Mapped(left, TargetOf) == targets';
  }

  ghost predicate SomeOutdated(versions: seq<int>, current: int, maxAge: int) {
    exists i :: 0 <= i < |versions| && Outdated(versions[i], current, maxAge)
  }

  ghost predicate SomeNotNewer(versions: seq<int>, current: int) {
    exists i :: 0 <= i < |versions| && versions[i] <= current
  }

  lemma {:induction false} ValidMeaning<T>(es: seq<Entry<T>>, current: int, maxAge: int)
    ensures CountValid(es, current, maxAge) > 0 <==> exists i :: 0 <= i < |es| && InWindow(es[i].version, current, maxAge)
  {
    hide InWindow;
    if |es| > 0 {
      var n := |es| - 1;
      ValidMeaning(es[..n], current, maxAge);
      assert forall i :: 0 <= i < n ==> es[..n][i] == es[i];
    }
  }

  // When sample raises, stalls and succeeds, read off the lists.
  lemma OutcomeMeaning<T>(
      es: seq<Entry<T>>, items: seq<T>, versions: seq<int>, targets: seq<int>, n: nat, current: int, maxAge: int)
    requires AreParts(es, items, versions, targets)
    ensures var outcome := Outcome(es, n, current, maxAge);
            && (outcome == Raised(TooOld) <==> SomeOutdated(versions, current, maxAge))
            && (outcome == Raised(NoGroupsRequested) <==>
                  n == 0 && !SomeOutdated(versions, current, maxAge) && SomeNotNewer(versions, current))
            && (outcome.Sampled? <==>
                  && n > 0 && !SomeOutdated(versions, current, maxAge)
                  && exists sel :: FirstOfStep(versions, targets, current, maxAge, n, sel))
  {
    hide CountValid, CountWanted, FirstOfStep, TakeWanted, Items, AverageAge;
    EnoughMeansSelection(es, versions, targets, current, maxAge, n);
    WantedAtMostValid(es, current, maxAge);
    ValidMeaning(es, current, maxAge);
    OutdatedMeaning(es, items, versions, targets, current, maxAge);
    NoneOfNone(es, current, maxAge);
  }

  lemma NoneOfNone<T>(es: seq<Entry<T>>, current: int, maxAge: int)
    ensures |es| == 0 ==> CountWanted(es, current, maxAge) == 0
  {
  }

  lemma OutdatedMeaning<T>(
      es: seq<Entry<T>>, items: seq<T>, versions: seq<int>, targets: seq<int>, current: int, maxAge: int)
    requires AreParts(es, items, versions, targets)
    ensures HasTooOld(es, current, maxAge) <==> SomeOutdated(versions, current, maxAge)
    ensures !SomeOutdated(versions, current, maxAge) ==>
              ((exists i :: 0 <= i < |es| && InWindow(es[i].version, current, maxAge)) <==> SomeNotNewer(versions, current))
  {
    if HasTooOld(es, current, maxAge) {
      var i :| 0 <= i < |es| && es[i].version < MinValid(current, maxAge);
      assert Outdated(versions[i], current, maxAge);
    }
    if SomeOutdated(versions, current, maxAge) {
      var i :| 0 <= i < |versions| && Outdated(versions[i], current, maxAge);
      assert es[i].version < MinValid(current, maxAge);
    } else if SomeNotNewer(versions, current) {
      var i :| 0 <= i < |versions| && versions[i] <= current;
      assert !Outdated(versions[i], current, maxAge);
      assert InWindow(es[i].version, current, maxAge);
    }
  }

  // What a successful sample does to the entries and hands out.
  lemma SampledSelection<T>(
      es: seq<Entry<T>>, items: seq<T>, versions: seq<int>, targets: seq<int>, n: nat, current: int, maxAge: int)
    requires AreParts(es, items, versions, targets) && Outcome(es, n, current, maxAge).Sampled?
    ensures var sel, taken := Selected(es, current, maxAge, n, |es|), TakeWanted(es, current, maxAge, n);
            && FirstOfStep(versions, targets, current, maxAge, n, sel) && IndicesAscend(sel, |es|)
            && HandsOut(Outcome(es, n, current, maxAge), items, versions, current, sel)
            && PopAll(es, sel) == Remaining(es, n, current, maxAge)
            && |taken| > 0 && Outcome(es, n, current, maxAge) == Sampled(Items(taken), AverageAge(taken, current))
  {
    assert es[..|es|] == es;
    TakeLength(es, current, maxAge, n);
    EnoughMeansSelection(es, versions, targets, current, maxAge, n);
    OutcomeHandsOut(es, items, versions, current, maxAge, n);
    PopAllDropsWanted(es, current, maxAge, n, |es|);
    hide Selected, TakeWanted, DropWanted, PopAll, FirstOfStep, HandsOut, AverageAge, Items, CountWanted;
  }

  lemma HandedOutAndRest<T>(outcome: SampleOutcome<T>, items: seq<T>, versions: seq<int>, current: int, sel: seq<nat>)
    requires HandsOut(outcome, items, versions, current, sel)
    ensures multiset(outcome.items) + multiset(Without(items, sel, |items|)) == multiset(items)
  {
    ChosenAndRest(items, sel, outcome.items);
  }

  // ---------------------------------------------------------------- the class

  class ReplayBuffer<T> {
    const maxSize: int
    var trajectories: seq<T>
    var trajectoryVersions: seq<int>
    var targetWeightVersions: seq<int>
    var lastTargetWeightAlreadyGenerated: int

    ghost predicate Valid()
      reads this
    {
      maxSize > 0 && |trajectories| == |trajectoryVersions| == |targetWeightVersions|
    }

    ghost function Contents(): (es: seq<Entry<T>>)
      reads this
      requires Valid()
      ensures |es| == |trajectories|
    {
      seq(|trajectories|, i requires 0 <= i < |trajectories| reads this requires Valid() =>
        Entry(trajectoryVersions[i], targetWeightVersions[i], trajectories[i]))
    }

    constructor (maxSize: int)
      requires maxSize > 0
      ensures Valid() && Contents() == [] && this.maxSize == maxSize
      ensures lastTargetWeightAlreadyGenerated == -1
    {
      this.maxSize := maxSize;
      trajectories, trajectoryVersions, targetWeightVersions := [], [], [];
      lastTargetWeightAlreadyGenerated := -1;
    }

    // The source's constructor, with its ValueError as a null answer.
    static method Create(maxSize: int) returns (buffer: ReplayBuffer?<T>)
      ensures buffer == null <==> maxSize <= 0
      ensures buffer != null ==> fresh(buffer) && buffer.Valid() && buffer.Contents() == [] && buffer.maxSize == maxSize
    {
      if maxSize <= 0 {
        return null;
      }
      buffer := new ReplayBuffer<T>(maxSize);
    }

    method PushWithWaitSignal(trajectory: T, weightVersion: int, targetWeightVersion: int) returns (status: PushStatus)
      requires Valid()
      modifies this
      ensures Valid()
      ensures status == Full <==> old(|Contents()|) >= maxSize
      ensures status == Full ==> unchanged(this)
      ensures status == Success ==>
                && Contents() == old(Contents()) + [Entry(weightVersion, targetWeightVersion, trajectory)]
                && lastTargetWeightAlreadyGenerated
                   == Max(old(lastTargetWeightAlreadyGenerated), targetWeightVersion)
    {
      if |trajectories| >= maxSize {
        return Full;
      }
      trajectories := trajectories + [trajectory];
      trajectoryVersions := trajectoryVersions + [weightVersion];
      targetWeightVersions := targetWeightVersions + [targetWeightVersion];
      lastTargetWeightAlreadyGenerated := Max(lastTargetWeightAlreadyGenerated, targetWeightVersion);
      return Success;
    }

    method GetExistingTargetWeights() returns (targets: set<int>)
      requires Valid()
      ensures targets == set e | e in Contents() :: e.target
    {
      targets := set t | t in targetWeightVersions;
      ghost var es := Contents();
      forall t ensures t in targets <==> t in set e | e in es :: e.target {
        if t in targets {
          var i :| 0 <= i < |targetWeightVersions| && targetWeightVersions[i] == t;
          assert es[i] in es && es[i].target == t;
        }
      }
    }

    // The tests of sample and its two filters: the indices to take, or what sample answers instead.
    method SelectIndices(numPromptGroups: nat, currentWeightVersion: int, maxAgeSteps: int)
      returns (r: Result<seq<nat>, SampleOutcome<T>>)
      requires Valid()
      ensures r.Ok? <==> Outcome(Contents(), numPromptGroups, currentWeightVersion, maxAgeSteps).Sampled?
      ensures r.Err? ==> r.error == Outcome(Contents(), numPromptGroups, currentWeightVersion, maxAgeSteps)
      ensures r.Ok? ==> r.value == Selected(Contents(), currentWeightVersion, maxAgeSteps, numPromptGroups, |Contents()|)
                        && |r.value| == numPromptGroups > 0
    {
      ghost var es := Contents();
      if |trajectories| == 0 {
        return Err(Stalled);
      }
      var minValidVersion := MinValid(currentWeightVersion, maxAgeSteps);
      if exists i :: 0 <= i < |trajectoryVersions| && trajectoryVersions[i] < minValidVersion {
        var i :| 0 <= i < |trajectoryVersions| && trajectoryVersions[i] < minValidVersion;
        assert es[i].version < minValidVersion;
        return Err(Raised(TooOld));
      }
      assert forall i :: 0 <= i < |es| ==> es[i].version == trajectoryVersions[i];
      assert !HasTooOld(es, currentWeightVersion, maxAgeSteps);
      assert es[..|es|] == es;
      var total := |trajectories|;
      var validIndices := ValidIndices(trajectoryVersions, minValidVersion, currentWeightVersion, total);
      ValidIndicesCount(es, trajectoryVersions, currentWeightVersion, maxAgeSteps, total);
      WantedAtMostValid(es, currentWeightVersion, maxAgeSteps);
      if |validIndices| == 0 || |validIndices| < numPromptGroups {
        return Err(Stalled);
      }
      var intendedIndices := IntendedIndices(validIndices, targetWeightVersions, currentWeightVersion);
      FiltersSelectWanted(es, trajectoryVersions, targetWeightVersions, currentWeightVersion, maxAgeSteps, total);
      if |intendedIndices| < numPromptGroups {
        return Err(Stalled);
      }
      var selected := intendedIndices[..numPromptGroups];
      if |selected| == 0 {
        return Err(Raised(NoGroupsRequested));
      }
      assert selected == Selected(es, currentWeightVersion, maxAgeSteps, numPromptGroups, total);
      return Ok(selected);
    }

    method Sample(numPromptGroups: nat, currentWeightVersion: int, maxAgeSteps: int)
      returns (outcome: SampleOutcome<T>)
      requires Valid()
      modifies this
      ensures Valid()
      ensures outcome == Outcome(old(Contents()), numPromptGroups, currentWeightVersion, maxAgeSteps)
      ensures Contents() == Remaining(old(Contents()), numPromptGroups, currentWeightVersion, maxAgeSteps)
      ensures lastTargetWeightAlreadyGenerated == old(lastTargetWeightAlreadyGenerated)
      ensures !outcome.Sampled? ==> unchanged(this)
      ensures outcome == Raised(TooOld) <==> SomeOutdated(old(trajectoryVersions), currentWeightVersion, maxAgeSteps)
      ensures outcome == Raised(NoGroupsRequested) <==>
                && numPromptGroups == 0 && !SomeOutdated(old(trajectoryVersions), currentWeightVersion, maxAgeSteps)
                && SomeNotNewer(old(trajectoryVersions), currentWeightVersion)
      ensures outcome.Sampled? <==>
                && numPromptGroups > 0 && !SomeOutdated(old(trajectoryVersions), currentWeightVersion, maxAgeSteps)
                && exists sel :: FirstOfStep(old(trajectoryVersions), old(targetWeightVersions), currentWeightVersion,
                                             maxAgeSteps, numPromptGroups, sel)
      ensures outcome.Sampled? ==>
                exists sel ::
                  && FirstOfStep(old(trajectoryVersions), old(targetWeightVersions), currentWeightVersion, maxAgeSteps,
                                 numPromptGroups, sel)
                  && HandsOut(outcome, old(trajectories), old(trajectoryVersions), currentWeightVersion, sel)
                  && trajectories == Without(old(trajectories), sel, |old(trajectories)|)
                  && trajectoryVersions == Without(old(trajectoryVersions), sel, |old(trajectories)|)
                  && targetWeightVersions == Without(old(targetWeightVersions), sel, |old(trajectories)|)
      ensures outcome.Sampled? ==> multiset(outcome.items) + multiset(trajectories) == multiset(old(trajectories))
    {
      hide FirstOfStep, HandsOut, SomeOutdated, SomeNotNewer, Without, Outcome, Selected, TakeWanted, Items, AverageAge;
      ghost var es := Contents();
      ghost var was, wasVersions, wasTargets := trajectories, trajectoryVersions, targetWeightVersions;
      OutcomeMeaning(es, was, wasVersions, wasTargets, numPromptGroups, currentWeightVersion, maxAgeSteps);
      var selection := SelectIndices(numPromptGroups, currentWeightVersion, maxAgeSteps);
      if selection.Err? {
        return selection.error;
      }
      var selected := selection.value;
      SampledSelection(es, was, wasVersions, wasTargets, numPromptGroups, currentWeightVersion, maxAgeSteps);
      outcome := ReadSelected(selected, currentWeightVersion, maxAgeSteps);
      PopSelected(selected);
      HandedOutAndRest(outcome, was, wasVersions, currentWeightVersion, selected);
    }

    // The values that sample hands out for a selection of wanted indices.
    method ReadSelected(selected: seq<nat>, currentWeightVersion: int, maxAgeSteps: int)
      returns (outcome: SampleOutcome<T>)
      requires Valid() && 0 < |selected|
      requires selected == Selected(Contents(), currentWeightVersion, maxAgeSteps, |selected|, |Contents()|)
      ensures var taken := TakeWanted(Contents(), currentWeightVersion, maxAgeSteps, |selected|);
              |taken| > 0 && outcome == Sampled(Items(taken), AverageAge(taken, currentWeightVersion))
    {
      ghost var es := Contents();
      assert es[..|es|] == es;
      SelectedAreTaken(es, currentWeightVersion, maxAgeSteps, |selected|, |es|);
      ghost var taken := TakeWanted(es, currentWeightVersion, maxAgeSteps, |selected|);
      assert forall i :: 0 <= i < |selected| ==> selected[i] < |trajectories| && taken[i] == es[selected[i]];
      var items := seq(|selected|, i requires 0 <= i < |selected| && selected[i] < |trajectories| reads this => trajectories[selected[i]]);
      assert items == Items(taken);
      var sum := 0;
      for j := 0 to |selected|
        invariant sum == SumVersions(taken[..j])
      {
        assert taken[..j + 1][..j] == taken[..j];
        sum := sum + trajectoryVersions[selected[j]];
      }
      assert taken[..|selected|] == taken;
      outcome := Sampled(items, currentWeightVersion as real - sum as real / |selected| as real);
    }

    // Pops one index from all three lists.
    method PopOne(idx: nat)
      requires Valid() && idx < |trajectories|
      modifies this
      ensures Valid() && Contents() == RemoveAt(old(Contents()), idx)
      ensures lastTargetWeightAlreadyGenerated == old(lastTargetWeightAlreadyGenerated)
    {
      trajectoryVersions := RemoveAt(trajectoryVersions, idx);
      targetWeightVersions := RemoveAt(targetWeightVersions, idx);
      trajectories := RemoveAt(trajectories, idx);
    }

    // Pops the selected indices, largest index first.
    method PopSelected(selected: seq<nat>)
      requires Valid() && IndicesAscend(selected, |trajectories|)
      modifies this
      ensures Valid()
      ensures Contents() == PopAll(old(Contents()), selected)
      ensures Contents() == Without(old(Contents()), selected, |old(Contents())|)
      ensures trajectories == Without(old(trajectories), selected, |old(trajectories)|)
      ensures trajectoryVersions == Without(old(trajectoryVersions), selected, |old(trajectories)|)
      ensures targetWeightVersions == Without(old(targetWeightVersions), selected, |old(trajectories)|)
      ensures lastTargetWeightAlreadyGenerated == old(lastTargetWeightAlreadyGenerated)
    {
      PopAllIsWithout(Contents(), selected);
      var j := |selected|;
      assert selected[..j] == selected;
      while j > 0
        invariant 0 <= j <= |selected|
        invariant Valid() && IndicesAscend(selected[..j], |trajectories|)
        invariant PopAll(Contents(), selected[..j]) == PopAll(old(Contents()), selected)
        invariant lastTargetWeightAlreadyGenerated == old(lastTargetWeightAlreadyGenerated)
      {
        j := j - 1;
        assert selected[..j + 1][..j] == selected[..j] && selected[..j + 1][j] == selected[j];
        PopOne(selected[j]);
      }
      PartsWithout(old(Contents()), old(trajectories), old(trajectoryVersions), old(targetWeightVersions),
                   Contents(), trajectories, trajectoryVersions, targetWeightVersions, selected);
    }

    method Clear()
      requires Valid()
      modifies this
      ensures Valid() && Contents() == []
      ensures lastTargetWeightAlreadyGenerated == old(lastTargetWeightAlreadyGenerated)
    {
      trajectories, trajectoryVersions, targetWeightVersions := [], [], [];
    }
  }
}
