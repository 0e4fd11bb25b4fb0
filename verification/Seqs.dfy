/** Sequences, index lists, permutations and stable sorting, as the batching and packing code uses them:
    Python's sorted with a key, strided slices, round-robin dealing and flattening of lists of lists. */
module Seqs {
  import opened Arith

  function Identity(n: nat): (r: seq<nat>)
    ensures |r| == n && forall i :: 0 <= i < n ==> r[i] == i
  {
    seq(n, i => i)
  }

  ghost predicate IsPermutation(p: seq<nat>, n: nat) {
    multiset(p) == multiset(Identity(n))
  }

  lemma PermutationBounds(p: seq<nat>, n: nat)
    requires IsPermutation(p, n)
    ensures |p| == n && forall i :: 0 <= i < |p| ==> p[i] < n
  {
    assert |multiset(p)| == |p| && |multiset(Identity(n))| == n;
    forall i | 0 <= i < |p| ensures p[i] < n {
      assert p[i] in multiset(p);
      assert p[i] in Identity(n);
    }
  }

  lemma {:induction false} IdentityOnce(n: nat, x: nat)
    ensures multiset(Identity(n))[x] <= 1
  {
    if n > 0 {
      assert Identity(n) == Identity(n - 1) + [n - 1];
      IdentityOnce(n - 1, x);
    }
  }

  lemma PermutationInjective(p: seq<nat>, n: nat, i: nat, j: nat)
    requires IsPermutation(p, n) && i < |p| && j < |p| && i != j
    ensures p[i] != p[j]
  {
    var a, b := if i < j then i else j, if i < j then j else i;
    IdentityOnce(n, p[b]);
    assert p == p[..b] + [p[b]] + p[b + 1..];
    assert p[..b][a] in multiset(p[..b]);
  }

  // Every index below n has a place in a permutation.
  lemma PositionOf(p: seq<nat>, n: nat, x: nat) returns (i: nat)
    requires IsPermutation(p, n) && x < n
    ensures i < |p| && p[i] == x
  {
    assert Identity(n)[x] in multiset(Identity(n));
    assert x in p;
    i :| 0 <= i < |p| && p[i] == x;
  }

  ghost predicate Increasing(xs: seq<int>) {
    forall i, j :: 0 <= i < j < |xs| ==> xs[i] < xs[j]
  }

  ghost predicate Distinct<T(!new)>(xs: seq<T>) {
    forall i, j :: 0 <= i < j < |xs| ==> xs[i] != xs[j]
  }

  // The rows of data at the given indices, in the order of the indices.
  function Gather<T>(data: seq<T>, idx: seq<nat>): (r: seq<T>)
    requires forall i :: 0 <= i < |idx| ==> idx[i] < |data|
    ensures |r| == |idx|
    ensures forall i :: 0 <= i < |idx| ==> r[i] == data[idx[i]]
  {
    seq(|idx|, i requires 0 <= i < |idx| => data[idx[i]])
  }

  lemma GatherConcat<T>(data: seq<T>, a: seq<nat>, b: seq<nat>)
    requires forall i :: 0 <= i < |a| ==> a[i] < |data|
    requires forall i :: 0 <= i < |b| ==> b[i] < |data|
    ensures forall i :: 0 <= i < |a + b| ==> (a + b)[i] < |data|
    ensures Gather(data, a + b) == Gather(data, a) + Gather(data, b)
  {
  }

  lemma RemoveIndex<T>(s: seq<T>, k: nat)
    requires k < |s|
    ensures multiset(s) == multiset(s[..k] + s[k + 1..]) + multiset{s[k]}
    ensures multiset(s[..k] + s[k + 1..]) == multiset(s) - multiset{s[k]}
  {
    assert s == s[..k] + [s[k]] + s[k + 1..];
  }

  // The first element of one of two rearrangements occurs in the other; both are left without it.
  lemma FirstAmong<T>(a: seq<T>, b: seq<T>) returns (k: nat)
    requires |a| > 0 && multiset(a) == multiset(b)
    ensures k < |b| && b[k] == a[0] && multiset(a[..0] + a[1..]) == multiset(b[..k] + b[k + 1..])
  {
    assert a[0] in multiset(b);
    k :| 0 <= k < |b| && b[k] == a[0];
    RemoveIndex(a, 0);
    RemoveIndex(b, k);
  }

  lemma DropLast<T>(s: seq<T>)
    requires |s| > 0
    ensures multiset(s[..|s| - 1]) == multiset(s) - multiset{s[|s| - 1]}
  {
    RemoveIndex(s, |s| - 1);
    assert s[..|s| - 1] + s[|s|..] == s[..|s| - 1];
  }

  lemma GatherRemove<T>(data: seq<T>, idx: seq<nat>, k: nat)
    requires k < |idx| && forall i :: 0 <= i < |idx| ==> idx[i] < |data|
    ensures var rest := idx[..k] + idx[k + 1..];
            && multiset(rest) == multiset(idx) - multiset{idx[k]}
            && (forall i :: 0 <= i < |rest| ==> rest[i] < |data|)
            && multiset(Gather(data, idx)) == multiset(Gather(data, rest)) + multiset{data[idx[k]]}
  {
    RemoveIndex(idx, k);
    RemoveIndex(Gather(data, idx), k);
    assert Gather(data, idx[..k] + idx[k + 1..]) == Gather(data, idx)[..k] + Gather(data, idx)[k + 1..];
  }

  // Index lists with the same indices select the same rows.
  lemma {:induction false} GatherSameRows<T>(data: seq<T>, a: seq<nat>, b: seq<nat>)
    requires multiset(a) == multiset(b)
    requires forall i :: 0 <= i < |a| ==> a[i] < |data|
    requires forall i :: 0 <= i < |b| ==> b[i] < |data|
    ensures multiset(Gather(data, a)) == multiset(Gather(data, b))
    decreases |a|
  {
    assert |multiset(a)| == |a| && |multiset(b)| == |b|;
    if |a| > 0 {
      var k := FirstAmong(a, b);
      GatherRemove(data, a, 0);
      GatherRemove(data, b, k);
      GatherSameRows(data, a[..0] + a[1..], b[..k] + b[k + 1..]);
    }
  }

  lemma GatherPermutation<T>(data: seq<T>, p: seq<nat>)
    requires IsPermutation(p, |data|)
    ensures |p| == |data| && forall i :: 0 <= i < |p| ==> p[i] < |data|
    ensures multiset(Gather(data, p)) == multiset(data)
  {
    PermutationBounds(p, |data|);
    GatherSameRows(data, p, Identity(|data|));
    assert Gather(data, Identity(|data|)) == data;
  }

  // ---------------------------------------------------------------- stable sorting of positions

  ghost predicate Below(order: seq<nat>, bound: nat) {
    forall i :: 0 <= i < |order| ==> order[i] < bound
  }

  function Insert(order: seq<nat>, keys: seq<int>, i: nat): (r: seq<nat>)
    requires i < |keys| && Below(order, |keys|)
    ensures |r| == |order| + 1
    ensures multiset(r) == multiset(order) + multiset{i}
    ensures Below(r, |keys|)
    decreases |order|
  {
    if |order| == 0 then [i]
    else
      var last := order[|order| - 1];
      assert order == order[..|order| - 1] + [last];
      if keys[last] <= keys[i] then order + [i]
      else Insert(order[..|order| - 1], keys, i) + [last]
  }

  // Python's sorted(range(len(keys)), key=...): positions by key, equal keys in position order.
  function ArgSort(keys: seq<int>, m: nat): (r: seq<nat>)
    requires m <= |keys|
    ensures IsPermutation(r, m)
    ensures |r| == m && Below(r, m)
  {
    if m == 0 then []
    else
      var before := ArgSort(keys, m - 1);
      assert Identity(m) == Identity(m - 1) + [m - 1];
      var r := Insert(before, keys, m - 1);
      PermutationBounds(r, m);
      r
  }

  predicate Before(keys: seq<int>, x: nat, y: nat)
    requires x < |keys| && y < |keys|
  {
    keys[x] < keys[y] || (keys[x] == keys[y] && x < y)
  }

  ghost predicate SortedBy(keys: seq<int>, order: seq<nat>) {
    && Below(order, |keys|)
    && (forall a, b :: 0 <= a < b < |order| ==> Before(keys, order[a], order[b]))
  }

  lemma SortedSnoc(keys: seq<int>, order: seq<nat>, x: nat)
    requires x < |keys| && SortedBy(keys, order)
    requires forall a :: 0 <= a < |order| ==> Before(keys, order[a], x)
    ensures SortedBy(keys, order + [x])
  {
  }

  lemma {:induction false} InsertBefore(order: seq<nat>, keys: seq<int>, i: nat, last: nat)
    requires i < |keys| && last < |keys| && Below(order, |keys|) && Before(keys, i, last)
    requires forall a :: 0 <= a < |order| ==> Before(keys, order[a], last)
    ensures forall a :: 0 <= a < |order| + 1 ==> Before(keys, Insert(order, keys, i)[a], last)
    decreases |order|
  {
    hide Before;
    if |order| > 0 {
      InsertBefore(order[..|order| - 1], keys, i, last);
    }
  }

  lemma {:induction false} InsertSorted(order: seq<nat>, keys: seq<int>, i: nat)
    requires i < |keys| && SortedBy(keys, order) && Below(order, i)
    ensures SortedBy(keys, Insert(order, keys, i))
    decreases |order|
  {
    if |order| > 0 {
      var n := |order| - 1;
      var last := order[n];
      if keys[last] > keys[i] {
        InsertSorted(order[..n], keys, i);
        InsertBefore(order[..n], keys, i, last);
        SortedSnoc(keys, Insert(order[..n], keys, i), last);
      } else {
        assert forall a :: 0 <= a < n ==> Before(keys, order[a], last);
        SortedSnoc(keys, order, i);
      }
    }
  }

  lemma {:induction false} ArgSortSorted(keys: seq<int>, m: nat)
    requires m <= |keys|
    ensures SortedBy(keys, ArgSort(keys, m))
  {
    if m > 0 {
      ArgSortSorted(keys, m - 1);
      InsertSorted(ArgSort(keys, m - 1), keys, m - 1);
    }
  }

  // Two orders of the same positions sorted by the same keys are equal, so ArgSort is what any
  // stable sort answers.
  lemma {:induction false} SortedIsUnique(keys: seq<int>, a: seq<nat>, b: seq<nat>)
    requires SortedBy(keys, a) && SortedBy(keys, b) && multiset(a) == multiset(b)
    ensures a == b
    decreases |a|
  {
    assert |multiset(a)| == |a| && |multiset(b)| == |b|;
    if |a| > 0 {
      SameLast(keys, a, b);
      SortedIsUnique(keys, a[..|a| - 1], b[..|a| - 1]);
      assert a == a[..|a| - 1] + [a[|a| - 1]];
      assert b == b[..|a| - 1] + [a[|a| - 1]];
    }
  }

  lemma SameLast(keys: seq<int>, a: seq<nat>, b: seq<nat>)
    requires SortedBy(keys, a) && SortedBy(keys, b) && multiset(a) == multiset(b) && |a| == |b| > 0
    ensures a[|a| - 1] == b[|b| - 1]
    ensures SortedBy(keys, a[..|a| - 1]) && SortedBy(keys, b[..|a| - 1])
    ensures multiset(a[..|a| - 1]) == multiset(b[..|a| - 1])
  {
    hide SortedBy;
    LastIsGreatest(keys, a, b);
    LastIsGreatest(keys, b, a);
    SortedPrefix(keys, a);
    SortedPrefix(keys, b);
    DropLast(a);
    DropLast(b);
  }

  lemma SortedPrefix(keys: seq<int>, order: seq<nat>)
    requires SortedBy(keys, order) && |order| > 0
    ensures SortedBy(keys, order[..|order| - 1])
  {
    hide Before;
  }

  lemma LastIsGreatest(keys: seq<int>, a: seq<nat>, b: seq<nat>)
    requires SortedBy(keys, a) && multiset(a) == multiset(b) && |a| == |b| > 0
    ensures b[|b| - 1] < |keys|
    ensures b[|b| - 1] == a[|a| - 1] || Before(keys, b[|b| - 1], a[|a| - 1])
  {
    assert b[|b| - 1] in multiset(a);
    assert b[|b| - 1] in a;
  }

  // Sorting the positions of a permutation by its values inverts the permutation.
  lemma ArgSortInverts(p: seq<nat>, n: nat)
    requires IsPermutation(p, n)
    ensures |p| == n
    ensures var q := ArgSort(p, n);
            && |q| == n
            && forall k :: 0 <= k < n ==> q[k] < n && p[q[k]] == k
  {
    PermutationBounds(p, n);
    var q := ArgSort(p, n);
    ArgSortSorted(p, n);
    var s := Gather(p, q);
    GatherPermutation(p, q);
    forall a, b | 0 <= a < b < n ensures s[a] <= s[b] {
      assert Before(p, q[a], q[b]);
    }
    SortedPermutationIsIdentity(s, n);
  }

  lemma {:induction false} SortedPermutationIsIdentity(s: seq<nat>, n: nat)
    requires IsPermutation(s, n)
    requires forall a, b :: 0 <= a < b < |s| ==> s[a] <= s[b]
    ensures s == Identity(n)
  {
    PermutationBounds(s, n);
    if n > 0 {
      assert Identity(n) == Identity(n - 1) + [n - 1];
      assert n - 1 in multiset(Identity(n));
      assert n - 1 in s;
      assert s[n - 1] == n - 1;
      DropLast(s);
      DropLast(Identity(n));
      assert Identity(n)[..n - 1] == Identity(n - 1);
      SortedPermutationIsIdentity(s[..n - 1], n - 1);
      assert s == s[..n - 1] + [n - 1];
    }
  }

  // ---------------------------------------------------------------- concatenation

  function Flatten<T>(ss: seq<seq<T>>): seq<T> {
    if |ss| == 0 then [] else Flatten(ss[..|ss| - 1]) + ss[|ss| - 1]
  }

  lemma FlattenSnoc<T>(ss: seq<seq<T>>, s: seq<T>)
    ensures Flatten(ss + [s]) == Flatten(ss) + s
  {
    assert (ss + [s])[..|ss|] == ss;
  }

  lemma {:induction false} FlattenConcat<T>(a: seq<seq<T>>, b: seq<seq<T>>)
    ensures Flatten(a + b) == Flatten(a) + Flatten(b)
  {
    if |b| == 0 {
      assert a + b == a;
    } else {
      var n := |b| - 1;
      FlattenConcat(a, b[..n]);
      assert a + b == (a + b[..n]) + [b[n]];
      FlattenSnoc(a + b[..n], b[n]);
    }
  }

  lemma {:induction false} FlattenEmpty<T>(k: nat)
    ensures |Flatten<T>(seq(k, _ => []))| == 0
  {
    if k > 0 {
      FlattenEmpty<T>(k - 1);
      assert seq<seq<T>>(k, _ => [])[..k - 1] == seq<seq<T>>(k - 1, _ => []);
    }
  }

  // Growing one of the lists adds its new elements to the whole.
  lemma {:induction false} FlattenGrow<T>(ss: seq<seq<T>>, i: nat, more: seq<T>)
    requires i < |ss|
    ensures multiset(Flatten(ss[i := ss[i] + more])) == multiset(Flatten(ss)) + multiset(more)
  {
    var n := |ss| - 1;
    var grown := ss[i := ss[i] + more];
    if i == n {
      assert grown[..n] == ss[..n];
      assert Flatten(grown) == Flatten(ss) + more;
    } else {
      FlattenGrow(ss[..n], i, more);
      assert grown[..n] == ss[..n][i := ss[..n][i] + more];
    }
  }

  // Appending list by list.
  lemma {:induction false} FlattenZip<T>(a: seq<seq<T>>, b: seq<seq<T>>, ab: seq<seq<T>>)
    requires |a| == |b| == |ab| && forall i :: 0 <= i < |a| ==> ab[i] == a[i] + b[i]
    ensures multiset(Flatten(ab)) == multiset(Flatten(a)) + multiset(Flatten(b))
  {
    if |a| > 0 {
      var n := |a| - 1;
      FlattenZip(a[..n], b[..n], ab[..n]);
    }
  }

  lemma {:induction false} FlattenMember<T>(ss: seq<seq<T>>, i: nat, x: T)
    requires i < |ss| && x in ss[i]
    ensures x in Flatten(ss)
  {
    if i < |ss| - 1 {
      FlattenMember(ss[..|ss| - 1], i, x);
    }
  }

  function Sum(xs: seq<int>): int {
    if |xs| == 0 then 0 else Sum(xs[..|xs| - 1]) + xs[|xs| - 1]
  }

  // ---------------------------------------------------------------- dealing and striding

  // Python's s[i::k].
  function Stride<T>(s: seq<T>, i: nat, k: nat): seq<T>
    requires k > 0
    decreases |s| - i
  {
    if i >= |s| then [] else [s[i]] + Stride(s, i + k, k)
  }

  // Dealing the elements of s to k hands in turn.
  function Deal<T>(s: seq<T>, k: nat): (r: seq<seq<T>>)
    requires k > 0
    ensures |r| == k
  {
    if |s| == 0 then seq(k, _ => [])
    else
      var before, hand := Deal(s[..|s| - 1], k), (|s| - 1) % k;
      before[hand := before[hand] + [s[|s| - 1]]]
  }

  lemma DealSnoc<T>(s: seq<T>, x: T, k: nat)
    requires k > 0
    ensures var hand := |s| % k;
            && hand < k
            && Deal(s + [x], k) == Deal(s, k)[hand := Deal(s, k)[hand] + [x]]
  {
    assert (s + [x])[..|s|] == s;
  }

  lemma {:induction false} DealConserves<T>(s: seq<T>, k: nat)
    requires k > 0
    ensures multiset(Flatten(Deal(s, k))) == multiset(s)
  {
    if |s| == 0 {
      FlattenEmpty<T>(k);
    } else {
      hide Flatten, Deal;
      var n := |s| - 1;
      DealConserves(s[..n], k);
      assert s == s[..n] + [s[n]];
      DealSnoc(s[..n], s[n], k);
      FlattenGrow(Deal(s[..n], k), n % k, [s[n]]);
    }
  }

  // A hand holds every k-th element.
  lemma {:induction false} StrideAt<T>(s: seq<T>, i: nat, k: nat, j: nat)
    requires k > 0 && i + Times(j, k) < |s|
    ensures j < |Stride(s, i, k)| && Stride(s, i, k)[j] == s[i + Times(j, k)]
    decreases j
  {
    assert Times(j, k) == if j == 0 then 0 else Times(j - 1, k) + k;
    assert Stride(s, i, k) == [s[i]] + Stride(s, i + k, k);
    hide Stride, Times;
    if j > 0 {
      StrideAt(s, i + k, k, j - 1);
    }
  }

  lemma {:induction false} StrideLength<T>(s: seq<T>, i: nat, k: nat, n: nat)
    requires k > 0 && |s| <= i + Times(n, k) && (n > 0 ==> i + Times(n - 1, k) < |s|)
    ensures |Stride(s, i, k)| == n
    decreases n
  {
    if n > 0 {
      StrideLength(s, i + k, k, n - 1);
    }
  }

  lemma ModShift(d: int, k: nat)
    requires k > 0 && d > 0
    ensures d % k == 0 ==> d >= k
    ensures (d - k) % k == d % k
  {
    var q := d / k;
    assert d == q * k + d % k;
    assert d - k == (q - 1) * k + d % k;
    DivModUnique(d - k, k, q - 1, d % k);
    if d % k == 0 && d < k {
      DivModUnique(d, k, 0, d);
    }
  }

  lemma {:induction false} StrideSnoc<T>(s: seq<T>, x: T, i: nat, k: nat)
    requires k > 0
    ensures Stride(s + [x], i, k) == Stride(s, i, k) + if i <= |s| && (|s| - i) % k == 0 then [x] else []
    decreases |s| - i
  {
    if i < |s| {
      ModShift(|s| - i, k);
      StrideSnoc(s, x, i + k, k);
      assert (s + [x])[i] == s[i];
    }
  }

  // The i-th hand of a deal is the slice s[i::k].
  lemma {:induction false} DealIsStride<T>(s: seq<T>, k: nat, i: nat)
    requires i < k
    ensures Deal(s, k)[i] == Stride(s, i, k)
  {
    if |s| > 0 {
      var n := |s| - 1;
      DealIsStride(s[..n], k, i);
      assert s == s[..n] + [s[n]];
      StrideSnoc(s[..n], s[n], i, k);
      HandOf(n, k, i);
    }
  }

  lemma HandOf(n: nat, k: nat, i: nat)
    requires i < k
    ensures n % k == i <==> i <= n && (n - i) % k == 0
  {
    var q, r := n / k, n % k;
    assert n == q * k + r;
    if r == i {
      assert q * k >= 0;
      DivModUnique(n - i, k, q, 0);
    }
    if i <= n && (n - i) % k == 0 {
      var p := (n - i) / k;
      assert n - i == p * k;
      DivModUnique(n, k, p, i);
    }
  }

  // A whole number of rounds gives every hand the same number of elements.
  lemma DealEven<T>(s: seq<T>, k: nat, n: nat, i: nat)
    requires i < k && |s| == Times(n, k)
    ensures |Deal(s, k)[i]| == n
    ensures forall j :: 0 <= j < n ==> i + Times(j, k) < |s| && Deal(s, k)[i][j] == s[i + Times(j, k)]
  {
    DealIsStride(s, k, i);
    StrideLength(s, i, k, n);
    forall j | 0 <= j < n ensures i + Times(j, k) < |s| && Stride(s, i, k)[j] == s[i + Times(j, k)] {
      TimesFits(k, n, j);
      StrideAt(s, i, k, j);
    }
  }

  // ---------------------------------------------------------------- shifted and flattened index lists

  function Shift(idx: seq<nat>, start: nat): (r: seq<nat>)
    ensures |r| == |idx| && forall i :: 0 <= i < |idx| ==> r[i] == idx[i] + start
  {
    seq<nat>(|idx|, i requires 0 <= i < |idx| => idx[i] + start)
  }

  lemma ShiftSlice(idx: seq<nat>, start: nat, lo: nat, hi: nat)
    requires lo <= hi <= |idx|
    ensures Shift(idx, start)[lo..hi] == Shift(idx[lo..hi], start)
  {
  }

  // A permutation of the next n indices continues a permutation of the first m.
  lemma ShiftPermutation(a: seq<nat>, m: nat, p: seq<nat>, n: nat)
    requires IsPermutation(a, m) && IsPermutation(p, n)
    ensures IsPermutation(a + Shift(p, m), m + n)
  {
    var next := Shift(Identity(n), m);
    GatherPermutation(next, p);
    PermutationBounds(p, n);
    assert Shift(p, m) == Gather(next, p);
    assert Identity(m + n) == Identity(m) + next;
  }

  // Lists of one length n: the i-th list is found at i * n.
  lemma {:induction false} FlattenSlice<T>(ss: seq<seq<T>>, n: nat, i: nat)
    requires i < |ss| && forall j :: 0 <= j < |ss| ==> |ss[j]| == n
    ensures |Flatten(ss)| == Times(|ss|, n)
    ensures Times(i + 1, n) <= |Flatten(ss)|
    ensures Flatten(ss)[Times(i, n)..Times(i + 1, n)] == ss[i]
  {
    var k := |ss| - 1;
    FlattenLength(ss[..k], n);
    TimesFits(n, |ss|, i);
    hide Times;
    assert Times(i + 1, n) == Times(i, n) + n && Times(|ss|, n) == Times(k, n) + n by { TimesSucc(i, n); TimesSucc(k, n); }
    var before, last := Flatten(ss[..k]), ss[k];
    assert Flatten(ss) == before + last;
    if i < k {
      FlattenSlice(ss[..k], n, i);
      PrefixSlice(before, last, Times(i, n), Times(i + 1, n));
    }
  }

  lemma PrefixSlice<T>(a: seq<T>, b: seq<T>, lo: nat, hi: nat)
    requires lo <= hi <= |a|
    ensures (a + b)[lo..hi] == a[lo..hi]
  {
  }

  lemma TimesSucc(i: nat, n: nat)
    ensures Times(i + 1, n) == Times(i, n) + n
  {
  }

  lemma {:induction false} FlattenLength<T>(ss: seq<seq<T>>, n: nat)
    requires forall j :: 0 <= j < |ss| ==> |ss[j]| == n
    ensures |Flatten(ss)| == Times(|ss|, n)
  {
    if |ss| > 0 {
      FlattenLength(ss[..|ss| - 1], n);
    }
  }
}
