/** The row order of dynamic batching and its inverse. */
module DynamicOrder {
  import opened Wrappers
  import opened Arith
  import opened Seqs
  import opened Batches
  import opened DynamicBatching

  // Each chunk is sorted by length and dealt over the shards, which balances the shards; reordering
  // undoes it in exactly the single-chunk or single-shard case.

  function Lengths<T>(rows: seq<Row<T>>): (r: seq<int>)
    ensures |r| == |rows| && forall i :: 0 <= i < |rows| ==> r[i] == rows[i].length
  {
    seq(|rows|, i requires 0 <= i < |rows| => rows[i].length)
  }

  function Strides(order: seq<nat>, k: nat): (r: seq<seq<nat>>)
    requires k > 0
    ensures |r| == k && forall i :: 0 <= i < k ==> r[i] == Stride(order, i, k)
  {
    seq(k, i requires 0 <= i < k => Stride(order, i, k))
  }

  // The positions of one chunk: sorted by length, the slices [i::k] one after the other.
  function ChunkOrder(lengths: seq<int>, k: nat): seq<nat>
    requires k > 0
  {
    Flatten(Strides(ArgSort(lengths, |lengths|), k))
  }

  function Window<X>(s: seq<X>, batchSize: nat, c: nat): (r: seq<X>)
    requires |s| >= Times(c + 1, batchSize)
    ensures |r| == batchSize
  {
    s[Times(c, batchSize)..Times(c + 1, batchSize)]
  }

  // batch_sorted_indices after the first n chunks.
  function SortedIndices(lengths: seq<int>, batchSize: nat, k: nat, n: nat): seq<nat>
    requires k > 0 && |lengths| >= Times(n, batchSize)
  {
    if n == 0 then []
    else SortedIndices(lengths, batchSize, k, n - 1)
         + Shift(ChunkOrder(Window(lengths, batchSize, n - 1), k), Times(n - 1, batchSize))
  }

  // The preprocessing loop of dynamic batching.
  method SortAndStride(lengths: seq<int>, batchSize: nat, k: nat, chunks: nat) returns (indices: seq<nat>)
    requires k > 0 && |lengths| == Times(chunks, batchSize)
    ensures indices == SortedIndices(lengths, batchSize, k, chunks)
    ensures IsPermutation(indices, |lengths|)
  {
    hide ChunkOrder, IsPermutation;
    indices := [];
    for c := 0 to chunks
      invariant |lengths| >= Times(c, batchSize)
      invariant indices == SortedIndices(lengths, batchSize, k, c)
    {
      TimesFits(batchSize, chunks, c);
      var start := Times(c, batchSize);
      var strided := SortChunk(lengths[start..start + batchSize], k);
      indices := indices + Shift(strided, start);
    }
    SortedIndicesPermute(lengths, batchSize, k, chunks);
  }

  method SortChunk(lengths: seq<int>, k: nat) returns (strided: seq<nat>)
    requires k > 0
    ensures strided == ChunkOrder(lengths, k)
  {
    var order := ArgSort(lengths, |lengths|);
    strided := [];
    for i := 0 to k
      invariant strided == Flatten(Strides(order, k)[..i])
    {
      assert Strides(order, k)[..i + 1] == Strides(order, k)[..i] + [Stride(order, i, k)];
      FlattenSnoc(Strides(order, k)[..i], Stride(order, i, k));
      strided := strided + Stride(order, i, k);
    }
    assert Strides(order, k)[..k] == Strides(order, k);
  }

  lemma ChunkOrderPermutes(lengths: seq<int>, k: nat)
    requires k > 0
    ensures IsPermutation(ChunkOrder(lengths, k), |lengths|)
  {
    var order := ArgSort(lengths, |lengths|);
    forall i | 0 <= i < k ensures Strides(order, k)[i] == Deal(order, k)[i] {
      DealIsStride(order, k, i);
    }
    assert Strides(order, k) == Deal(order, k);
    DealConserves(order, k);
  }

  lemma {:induction false} SortedIndicesPermute(lengths: seq<int>, batchSize: nat, k: nat, n: nat)
    requires k > 0 && |lengths| >= Times(n, batchSize)
    ensures IsPermutation(SortedIndices(lengths, batchSize, k, n), Times(n, batchSize))
  {
    hide ChunkOrder;
    if n > 0 {
      var window := Window(lengths, batchSize, n - 1);
      SortedIndicesPermute(lengths, batchSize, k, n - 1);
      ChunkOrderPermutes(window, k);
      ShiftPermutation(SortedIndices(lengths, batchSize, k, n - 1), Times(n - 1, batchSize),
                       ChunkOrder(window, k), batchSize);
    }
  }

  // ---------------------------------------------------------------- which rows a shard receives

  lemma {:induction false} StrideBelow(order: seq<nat>, i: nat, k: nat, bound: nat)
    requires k > 0 && Below(order, bound)
    ensures Below(Stride(order, i, k), bound)
    decreases |order| - i
  {
    if i < |order| {
      StrideBelow(order, i + k, k, bound);
    }
  }

  // Shard s of a chunk with k * n rows holds the s-th slice of the sorted chunk.
  lemma ShardOfChunkOrder(lengths: seq<int>, k: nat, n: nat, s: nat)
    requires s < k && |lengths| == Times(n, k)
    ensures |ChunkOrder(lengths, k)| == Times(k, n)
    ensures Times(s + 1, n) <= Times(k, n)
    ensures ChunkOrder(lengths, k)[Times(s, n)..Times(s + 1, n)] == Stride(ArgSort(lengths, |lengths|), s, k)
    ensures |Stride(ArgSort(lengths, |lengths|), s, k)| == n
  {
    var order := ArgSort(lengths, |lengths|);
    forall i | 0 <= i < k ensures |Strides(order, k)[i]| == n {
      DealEven(order, k, n, i);
      DealIsStride(order, k, i);
    }
    FlattenSlice(Strides(order, k), n, s);
  }

  lemma ChunkOrderLength(lengths: seq<int>, k: nat)
    requires k > 0
    ensures |ChunkOrder(lengths, k)| == |lengths|
  {
    ChunkOrderPermutes(lengths, k);
    PermutationBounds(ChunkOrder(lengths, k), |lengths|);
    hide ChunkOrder, IsPermutation;
  }

  lemma SortedIndicesLength(lengths: seq<int>, batchSize: nat, k: nat, n: nat)
    requires k > 0 && |lengths| >= Times(n, batchSize)
    ensures |SortedIndices(lengths, batchSize, k, n)| == Times(n, batchSize)
    ensures Below(SortedIndices(lengths, batchSize, k, n), Times(n, batchSize))
  {
    SortedIndicesPermute(lengths, batchSize, k, n);
    PermutationBounds(SortedIndices(lengths, batchSize, k, n), Times(n, batchSize));
    hide SortedIndices, IsPermutation;
  }

  lemma SortedIndicesSnoc(lengths: seq<int>, batchSize: nat, k: nat, n: nat)
    requires k > 0 && n > 0 && |lengths| >= Times(n, batchSize)
    ensures SortedIndices(lengths, batchSize, k, n)
         == SortedIndices(lengths, batchSize, k, n - 1)
            + Shift(ChunkOrder(Window(lengths, batchSize, n - 1), k), Times(n - 1, batchSize))
  {
    hide ChunkOrder;
  }

  lemma WindowOfPrefix<X>(a: seq<X>, b: seq<X>, batchSize: nat, c: nat)
    requires |a| >= Times(c + 1, batchSize)
    ensures Window(a + b, batchSize, c) == Window(a, batchSize, c)
  {
    TimesSucc(c, batchSize);
    hide Times;
  }

  lemma WindowAtEnd<X>(a: seq<X>, b: seq<X>, batchSize: nat, c: nat)
    requires |a| == Times(c, batchSize) && |b| == batchSize
    ensures |a + b| >= Times(c + 1, batchSize)
    ensures Window(a + b, batchSize, c) == b
  {
    TimesSucc(c, batchSize);
    hide Times;
  }

  lemma {:induction false} SortedIndicesWindow(lengths: seq<int>, batchSize: nat, k: nat, n: nat, c: nat)
    requires k > 0 && c < n && |lengths| >= Times(n, batchSize)
    ensures |SortedIndices(lengths, batchSize, k, n)| == Times(n, batchSize) >= Times(c + 1, batchSize)
    ensures Window(SortedIndices(lengths, batchSize, k, n), batchSize, c)
         == Shift(ChunkOrder(Window(lengths, batchSize, c), k), Times(c, batchSize))
    decreases n
  {
    hide ChunkOrder, IsPermutation, SortedIndices, Times, Below, Window, Shift;
    TimesFits(batchSize, n, c);
    TimesSucc(c, batchSize);
    TimesSucc(n - 1, batchSize);
    SortedIndicesLength(lengths, batchSize, k, n);
    SortedIndicesLength(lengths, batchSize, k, n - 1);
    SortedIndicesSnoc(lengths, batchSize, k, n);
    ChunkOrderLength(Window(lengths, batchSize, n - 1), k);
    var before := SortedIndices(lengths, batchSize, k, n - 1);
    var last := Shift(ChunkOrder(Window(lengths, batchSize, n - 1), k), Times(n - 1, batchSize));
    if c < n - 1 {
      SortedIndicesWindow(lengths, batchSize, k, n - 1, c);
      WindowOfPrefix(before, last, batchSize, c);
    } else {
      WindowAtEnd(before, last, batchSize, c);
    }
  }

  // The indices that shard s holds of chunk c.
  function SliceOf(lengths: seq<int>, batchSize: nat, k: nat, c: nat, s: nat): seq<nat>
    requires k > 0 && |lengths| >= Times(c + 1, batchSize)
  {
    Shift(Stride(ArgSort(Window(lengths, batchSize, c), batchSize), s, k), Times(c, batchSize))
  }

  lemma ShardChunkIndices(lengths: seq<int>, k: nat, n: nat, chunks: nat, c: nat, s: nat)
    requires s < k && c < chunks
    requires |lengths| == Times(chunks, Times(k, n)) && Times(k, n) == Times(n, k)
    ensures var batchSize := Times(k, n);
            var idx := SortedIndices(lengths, batchSize, k, chunks);
            && |idx| == |lengths| >= Times(c + 1, batchSize) && Below(idx, |lengths|)
            && Times(c, batchSize) + Times(s + 1, n) <= |idx|
            && Times(s + 1, n) == Times(s, n) + n
            && idx[Times(c, batchSize) + Times(s, n)..Times(c, batchSize) + Times(s + 1, n)]
               == SliceOf(lengths, batchSize, k, c, s)
  {
    hide SortedIndices, ChunkOrder, Stride, ArgSort, Times, Window, Shift;
    var batchSize := Times(k, n);
    var idx := SortedIndices(lengths, batchSize, k, chunks);
    TimesFits(batchSize, chunks, c);
    TimesSucc(c, batchSize);
    SortedIndicesLength(lengths, batchSize, k, chunks);
    SortedIndicesWindow(lengths, batchSize, k, chunks, c);
    ShardOfChunkOrder(Window(lengths, batchSize, c), k, n, s);
    TimesSucc(s, n);
    var order := ChunkOrder(Window(lengths, batchSize, c), k);
    SliceOfWindow(idx, batchSize, c, Times(s, n), Times(s + 1, n));
    ShiftSlice(order, Times(c, batchSize), Times(s, n), Times(s + 1, n));
  }

  lemma SliceOfWindow<X>(xs: seq<X>, batchSize: nat, c: nat, lo: nat, hi: nat)
    requires |xs| >= Times(c + 1, batchSize) && lo <= hi <= batchSize
    ensures Times(c, batchSize) + hi <= |xs|
    ensures Window(xs, batchSize, c)[lo..hi] == xs[Times(c, batchSize) + lo..Times(c, batchSize) + hi]
  {
    hide Times;
    TimesSucc(c, batchSize);
    SliceOfSlice(xs, Times(c, batchSize), Times(c + 1, batchSize), lo, hi);
  }

  lemma SliceOfSlice<X>(xs: seq<X>, a: nat, b: nat, lo: nat, hi: nat)
    requires a <= b <= |xs| && lo <= hi <= b - a
    ensures xs[a..b][lo..hi] == xs[a + lo..a + hi]
  {
    var left, right := xs[a..b][lo..hi], xs[a + lo..a + hi];
    forall i | 0 <= i < hi - lo ensures left[i] == right[i] {
      assert left[i] == xs[a..b][lo + i] == xs[a + (lo + i)];
    }
  }

  // Chunk c of shard s: the s-th slice of the chunk's rows in sorted order.
  lemma ShardChunkRows<T>(rows: seq<Row<T>>, k: nat, n: nat, chunks: nat, c: nat, s: nat)
    requires s < k && c < chunks
    requires |rows| == Times(chunks, Times(k, n)) && Times(k, n) == Times(n, k)
    ensures var batchSize := Times(k, n);
            var idx := SortedIndices(Lengths(rows), batchSize, k, chunks);
            && |rows| >= Times(c + 1, batchSize)
            && Below(idx, |rows|)
            && Below(SliceOf(Lengths(rows), batchSize, k, c, s), |rows|)
            && Block(Gather(rows, idx), Times(c, batchSize), n, s)
               == Gather(rows, SliceOf(Lengths(rows), batchSize, k, c, s))
  {
    hide SortedIndices, SliceOf, Times, Block;
    ShardChunkIndices(Lengths(rows), k, n, chunks, c, s);
    var batchSize := Times(k, n);
    var idx := SortedIndices(Lengths(rows), batchSize, k, chunks);
    BlockOfGather(rows, idx, Times(c, batchSize), n, s);
  }

  lemma BlockOfGather<X>(data: seq<X>, idx: seq<nat>, start: nat, n: nat, s: nat)
    requires Below(idx, |data|) && start + Times(s + 1, n) <= |idx|
    ensures Times(s + 1, n) == Times(s, n) + n
    ensures var part := idx[start + Times(s, n)..start + Times(s + 1, n)];
            Below(part, |data|) && Block(Gather(data, idx), start, n, s) == Gather(data, part)
  {
    TimesSucc(s, n);
    hide Times;
  }

  // ---------------------------------------------------------------- load balance

  ghost predicate Ascending(xs: seq<int>) {
    forall a, b :: 0 <= a <= b < |xs| ==> xs[a] <= xs[b]
  }

  // Interlacing sequences have totals that differ by at most their range.
  lemma {:induction false} InterlacedSums(u: seq<int>, v: seq<int>)
    requires |u| == |v| > 0
    requires forall a :: 0 <= a < |u| ==> u[a] <= v[a]
    requires forall a :: 0 <= a < |u| - 1 ==> v[a] <= u[a + 1]
    ensures 0 <= Sum(v) - Sum(u) <= v[|v| - 1] - u[0]
    decreases |u|
  {
    var n := |u| - 1;
    if n == 0 {
      assert u[..0] == [] == v[..0];
    } else {
      InterlacedSums(u[..n], v[..n]);
      assert v[n - 1] <= u[n];
    }
  }

  // Two hands of a sorted deal with n full rounds.
  lemma StrideSumsClose(xs: seq<int>, i: nat, j: nat, k: nat, n: nat)
    requires Ascending(xs) && i <= j < k && n > 0 && |xs| == Times(n, k)
    ensures 0 <= Sum(Stride(xs, j, k)) - Sum(Stride(xs, i, k)) <= xs[|xs| - 1] - xs[0]
  {
    DealEven(xs, k, n, i);
    DealEven(xs, k, n, j);
    DealIsStride(xs, k, i);
    DealIsStride(xs, k, j);
    var u, v := Stride(xs, i, k), Stride(xs, j, k);
    hide Stride, Deal, Sum, Times;
    forall a | 0 <= a < n - 1 ensures v[a] <= u[a + 1] {
      TimesSucc(a, k);
    }
    InterlacedSums(u, v);
  }

  lemma {:induction false} StrideOfGather(lengths: seq<int>, order: seq<nat>, i: nat, k: nat)
    requires k > 0 && Below(order, |lengths|)
    ensures Below(Stride(order, i, k), |lengths|)
    ensures Stride(Gather(lengths, order), i, k) == Gather(lengths, Stride(order, i, k))
    decreases |order| - i
  {
    hide Gather;
    StrideBelow(order, i, k, |lengths|);
    if i < |order| {
      StrideOfGather(lengths, order, i + k, k);
      GatherCons(lengths, order[i], Stride(order, i + k, k));
    }
  }

  lemma GatherCons(lengths: seq<int>, first: nat, rest: seq<nat>)
    requires first < |lengths| && Below(rest, |lengths|)
    ensures Gather(lengths, [first] + rest) == [lengths[first]] + Gather(lengths, rest)
  {
  }

  lemma SortedLengthsAscend(lengths: seq<int>, order: seq<nat>)
    requires SortedBy(lengths, order)
    ensures Ascending(Gather(lengths, order))
  {
    forall a, b | 0 <= a <= b < |order| ensures lengths[order[a]] <= lengths[order[b]] {
      if a < b { assert Before(lengths, order[a], order[b]); }
    }
  }

  // The totals of any two hands of the sorted lengths differ by at most the range of the lengths.
  lemma HandsBalanced(lengths: seq<int>, k: nat, n: nat, i: nat, j: nat, lo: int, hi: int)
    requires i < k && j < k && n > 0 && |lengths| == Times(n, k)
    requires forall a :: 0 <= a < |lengths| ==> lo <= lengths[a] <= hi
    ensures var order := ArgSort(lengths, |lengths|);
            && Below(Stride(order, i, k), |lengths|) && Below(Stride(order, j, k), |lengths|)
            && -(hi - lo) <= Sum(Gather(lengths, Stride(order, i, k))) - Sum(Gather(lengths, Stride(order, j, k))) <= hi - lo
  {
    var order := ArgSort(lengths, |lengths|);
    ArgSortSorted(lengths, |lengths|);
    SortedLengthsAscend(lengths, order);
    StrideOfGather(lengths, order, i, k);
    StrideOfGather(lengths, order, j, k);
    var xs := Gather(lengths, order);
    assert |xs| > 0 by { TimesFits(k, n, 0); }
    hide ArgSort, Stride, Sum, Ascending, Times;
    if i <= j {
      StrideSumsClose(xs, i, j, k, n);
    } else {
      StrideSumsClose(xs, j, i, k, n);
    }
  }

  // After sorting and striding, the total lengths of any two shards' parts of a chunk differ by at
  // most the longest minus the shortest length of the chunk.
  lemma LoadBalance<T>(rows: seq<Row<T>>, k: nat, n: nat, chunks: nat, c: nat, s: nat, t: nat, lo: int, hi: int)
    requires s < k && t < k && n > 0 && c < chunks
    requires |rows| == Times(chunks, Times(k, n)) && Times(k, n) == Times(n, k)
    requires forall a :: Times(c, Times(k, n)) <= a < Times(c + 1, Times(k, n)) && a < |rows| ==> lo <= rows[a].length <= hi
    ensures var batchSize := Times(k, n);
            var idx := SortedIndices(Lengths(rows), batchSize, k, chunks);
            && Below(idx, |rows|)
            && -(hi - lo) <= Sum(Lengths(Block(Gather(rows, idx), Times(c, batchSize), n, s)))
                             - Sum(Lengths(Block(Gather(rows, idx), Times(c, batchSize), n, t))) <= hi - lo
  {
    hide ArgSort, Stride, Sum, Block, Times, SortedIndices, Window, Gather, Lengths;
    var batchSize := Times(k, n);
    ShardLengths(rows, k, n, chunks, c, s);
    ShardLengths(rows, k, n, chunks, c, t);
    var window := Window(Lengths(rows), batchSize, c);
    WindowBounds(rows, batchSize, c, lo, hi);
    HandsBalanced(window, k, n, s, t, lo, hi);
  }

  // In a chunk the rows come out sorted round by round: row j of a shard is no longer than row j of a
  // later shard, and that one no longer than row j + 1 of any shard.
  lemma SortedRounds<T>(rows: seq<Row<T>>, k: nat, n: nat, chunks: nat, c: nat, s: nat, t: nat, j: nat)
    requires s <= t < k && j < n && c < chunks
    requires |rows| == Times(chunks, Times(k, n)) && Times(k, n) == Times(n, k)
    ensures var batchSize := Times(k, n);
            var idx := SortedIndices(Lengths(rows), batchSize, k, chunks);
            && Below(idx, |rows|)
            && var u := Lengths(Block(Gather(rows, idx), Times(c, batchSize), n, s));
            var v := Lengths(Block(Gather(rows, idx), Times(c, batchSize), n, t));
            && |u| == |v| == n && u[j] <= v[j] && (j + 1 < n ==> v[j] <= u[j + 1])
  {
    hide ArgSort, Stride, Block, Times, SortedIndices, Window, Gather, Lengths;
    var batchSize := Times(k, n);
    ShardLengths(rows, k, n, chunks, c, s);
    ShardLengths(rows, k, n, chunks, c, t);
    var window := Window(Lengths(rows), batchSize, c);
    RoundsAscend(window, k, n, s, t, j);
  }

  lemma RoundsAscend(lengths: seq<int>, k: nat, n: nat, s: nat, t: nat, j: nat)
    requires s <= t < k && j < n && |lengths| == Times(n, k)
    ensures var order := ArgSort(lengths, |lengths|);
            && Below(Stride(order, s, k), |lengths|) && Below(Stride(order, t, k), |lengths|)
            && var u, v := Gather(lengths, Stride(order, s, k)), Gather(lengths, Stride(order, t, k));
            && |u| == |v| == n && u[j] <= v[j] && (j + 1 < n ==> v[j] <= u[j + 1])
  {
    var order := ArgSort(lengths, |lengths|);
    ArgSortSorted(lengths, |lengths|);
    SortedLengthsAscend(lengths, order);
    StrideOfGather(lengths, order, s, k);
    StrideOfGather(lengths, order, t, k);
    var xs := Gather(lengths, order);
    StrideAscends(xs, k, n, s, t, j);
    hide ArgSort, Stride, Ascending, Times;
  }

  lemma StrideAscends(xs: seq<int>, k: nat, n: nat, s: nat, t: nat, j: nat)
    requires s <= t < k && j < n && |xs| == Times(n, k) && Ascending(xs)
    ensures |Stride(xs, s, k)| == n && |Stride(xs, t, k)| == n
    ensures Stride(xs, s, k)[j] <= Stride(xs, t, k)[j]
    ensures j + 1 < n ==> Stride(xs, t, k)[j] <= Stride(xs, s, k)[j + 1]
  {
    DealEven(xs, k, n, s);
    DealEven(xs, k, n, t);
    DealIsStride(xs, k, s);
    DealIsStride(xs, k, t);
    TimesSucc(j, k);
    hide Stride, Deal, Times;
  }

  lemma WindowBounds<T>(rows: seq<Row<T>>, batchSize: nat, c: nat, lo: int, hi: int)
    requires |rows| >= Times(c + 1, batchSize)
    requires forall a :: Times(c, batchSize) <= a < Times(c + 1, batchSize) && a < |rows| ==> lo <= rows[a].length <= hi
    ensures forall a :: 0 <= a < batchSize ==> lo <= Window(Lengths(rows), batchSize, c)[a] <= hi
  {
    TimesSucc(c, batchSize);
    hide Times;
    forall a | 0 <= a < batchSize ensures lo <= Window(Lengths(rows), batchSize, c)[a] <= hi {
      assert Window(Lengths(rows), batchSize, c)[a] == rows[Times(c, batchSize) + a].length;
    }
  }

  lemma ShardLengths<T>(rows: seq<Row<T>>, k: nat, n: nat, chunks: nat, c: nat, s: nat)
    requires s < k && c < chunks
    requires |rows| == Times(chunks, Times(k, n)) && Times(k, n) == Times(n, k)
    ensures var batchSize := Times(k, n);
            var idx := SortedIndices(Lengths(rows), batchSize, k, chunks);
            && |rows| >= Times(c + 1, batchSize) && Below(idx, |rows|)
            && var window := Window(Lengths(rows), batchSize, c);
            var slice := Stride(ArgSort(window, batchSize), s, k);
            && Below(slice, |window|)
            && Lengths(Block(Gather(rows, idx), Times(c, batchSize), n, s)) == Gather(window, slice)
  {
    hide ArgSort, Stride, Block, Times, SortedIndices, Window, Gather, Lengths;
    var batchSize := Times(k, n);
    ShardChunkRows(rows, k, n, chunks, c, s);
    var window := Window(Lengths(rows), batchSize, c);
    StrideBelow(ArgSort(window, batchSize), s, k, batchSize);
    LengthsOfSlice(rows, batchSize, c, Stride(ArgSort(window, batchSize), s, k));
  }

  lemma LengthsOfSlice<T>(rows: seq<Row<T>>, batchSize: nat, c: nat, slice: seq<nat>)
    requires |rows| >= Times(c + 1, batchSize) && Below(slice, batchSize)
    ensures Below(Shift(slice, Times(c, batchSize)), |rows|)
    ensures Lengths(Gather(rows, Shift(slice, Times(c, batchSize)))) == Gather(Window(Lengths(rows), batchSize, c), slice)
  {
    TimesSucc(c, batchSize);
    hide Times;
  }

  // ---------------------------------------------------------------- when reorder_data undoes the sharding

  // The shards one after the other, put back with the indices that arranged the rows.
  function RoundTrip<T>(data: seq<T>, p: seq<nat>, k: nat, n: nat, chunks: nat): seq<T>
    requires Below(p, |data|)
  {
    Reordered(Flatten(AllShards(Gather(data, p), Times(k, n), n, k, chunks)), p)
  }

  lemma {:induction false} OneShardRows<T>(data: seq<T>, n: nat, chunks: nat)
    requires |data| >= Times(chunks, n)
    ensures ShardRows(data, n, n, 0, chunks) == data[..Times(chunks, n)]
  {
    if chunks > 0 {
      OneShardRows(data, n, chunks - 1);
    }
  }

  lemma ShardsOfOne<T>(data: seq<T>, k: nat, n: nat, chunks: nat)
    requires |data| == Times(chunks, Times(k, n)) && (chunks == 1 || k == 1)
    ensures Flatten(AllShards(data, Times(k, n), n, k, chunks)) == data
  {
    if chunks == 1 {
      UnevenShardsTile(data, n, k);
    } else {
      var all := AllShards(data, Times(1, n), n, 1, chunks);
      assert Times(1, n) == n;
      OneShardRows(data, n, chunks);
      hide ShardRows;
      assert all == [] + [all[0]];
      FlattenSnoc<T>([], all[0]);
    }
  }

  // With one chunk (or one shard), reordering the concatenated shards restores the data.
  lemma RoundTripHolds<T>(data: seq<T>, p: seq<nat>, k: nat, n: nat, chunks: nat)
    requires IsPermutation(p, |data|) && |data| == Times(chunks, Times(k, n))
    requires chunks == 1 || k == 1
    ensures Below(p, |data|) && RoundTrip(data, p, k, n, chunks) == data
  {
    PermutationBounds(p, |data|);
    ShardsOfOne(Gather(data, p), k, n, chunks);
    ReorderUndoes(data, p);
  }

  lemma {:induction false} FlattenFirst<T>(ss: seq<seq<T>>)
    requires |ss| > 0
    ensures |Flatten(ss)| >= |ss[0]| && Flatten(ss)[..|ss[0]|] == ss[0]
  {
    if |ss| > 1 {
      FlattenFirst(ss[..|ss| - 1]);
    }
  }

  // With two chunks and two shards, the row after shard 0's part of chunk 0 is the first of chunk 1.
  lemma SecondBlock<T>(data: seq<T>, k: nat, n: nat, chunks: nat)
    requires k >= 2 && n > 0 && chunks >= 2 && |data| == Times(chunks, Times(k, n))
    ensures n < Times(k, n) < |data|
    ensures var concat := Flatten(AllShards(data, Times(k, n), n, k, chunks));
            n < |concat| && concat[n] == data[Times(k, n)]
  {
    var batchSize := Times(k, n);
    TimesFits(n, k, 0);
    TimesFits(n, k, 1);
    assert Times(1, n) == n && Times(1, batchSize) == batchSize && Times(0, n) == 0;
    hide Flatten, ShardRows, Times;
    ChunkRowAt(data, batchSize, n, 0, chunks, 1, 0);
    var all := AllShards(data, batchSize, n, k, chunks);
    FlattenFirst(all);
    assert all[0] == Flatten(all)[..|all[0]|];
  }

  lemma RoundTripFails<T(!new)>(data: seq<T>, p: seq<nat>, k: nat, n: nat, chunks: nat)
    requires IsPermutation(p, |data|) && Distinct(data) && |data| == Times(chunks, Times(k, n))
    requires k >= 2 && n > 0 && chunks >= 2
    ensures Below(p, |data|) && RoundTrip(data, p, k, n, chunks) != data
  {
    PermutationBounds(p, |data|);
    ArgSortInverts(p, |data|);
    SecondBlock(Gather(data, p), k, n, chunks);
    PermutationInjective(p, |data|, n, Times(k, n));
    ShardsLength(Gather(data, p), k, n, chunks);
    var concat := Flatten(AllShards(Gather(data, p), Times(k, n), n, k, chunks));
    var q := ArgSort(p, |data|);
    PermutationInjectiveAt(p, |data|, q[p[n]], n);
    hide Flatten, AllShards, IsPermutation, ArgSort, Times;
    assert Reordered(concat, p)[p[n]] == concat[n];
    assert concat[n] == data[p[Times(k, n)]];
  }

  lemma PermutationInjectiveAt(p: seq<nat>, n: nat, i: nat, j: nat)
    requires IsPermutation(p, n) && i < |p| && j < |p| && p[i] == p[j]
    ensures i == j
  {
    if i != j {
      PermutationInjective(p, n, i, j);
    }
  }

  lemma ShardsLength<T>(data: seq<T>, k: nat, n: nat, chunks: nat)
    requires |data| == Times(chunks, Times(k, n))
    ensures |Flatten(AllShards(data, Times(k, n), n, k, chunks))| == |data|
  {
    ShardsConserve(data, Times(k, n), n, k, chunks);
    var concat := Flatten(AllShards(data, Times(k, n), n, k, chunks));
    assert Clip(data, 0, |data|) == data;
    assert |multiset(concat)| == |concat| && |multiset(data)| == |data|;
    hide Flatten, AllShards, Times;
  }

  // The exact condition: for distinct rows reorder_data undoes sharding if and only if the batch
  // is a single chunk or goes to a single shard.
  lemma RoundTripIff<T(!new)>(data: seq<T>, p: seq<nat>, k: nat, n: nat, chunks: nat)
    requires IsPermutation(p, |data|) && Distinct(data) && |data| == Times(chunks, Times(k, n))
    requires k > 0 && n > 0 && chunks > 0
    ensures Below(p, |data|)
    ensures RoundTrip(data, p, k, n, chunks) == data <==> chunks == 1 || k == 1
  {
    PermutationBounds(p, |data|);
    hide RoundTrip, Times, IsPermutation, Distinct;
    if chunks == 1 || k == 1 {
      RoundTripHolds(data, p, k, n, chunks);
    } else {
      RoundTripFails(data, p, k, n, chunks);
    }
  }

  // ---------------------------------------------------------------- microbatches drop no real token

  function Truncated<T>(row: Row<T>, length: nat): Row<T>
    requires length <= |row.tokens|
  {
    row.(tokens := row.tokens[..length])
  }

  ghost predicate Rectangular<T>(rows: seq<Row<T>>, width: nat) {
    forall i :: 0 <= i < |rows| ==> |rows[i].tokens| == width
  }

  // The dynamic microbatch iterator over one global batch of a shard: each microbatch is a slice
  // whose rows are cut to the recorded length.
  // A batch without exactly one list of ranges, or without lengths, is refused.
  method MicrobatchesWithDynamicShapes<T>(batch: Shard<T>, width: nat) returns (r: Result<seq<seq<Row<T>>>, BatchError>)
    requires Rectangular(batch.rows, width)
    ensures r == Err(NotOneLayout) <==>
              || batch.microIndices.None? || |batch.microIndices.value| != 1
              || batch.microLengths.None? || |batch.microLengths.value| == 0
    ensures r != Err(NotOneLayout) ==>
              var ranges, lengths := batch.microIndices.value[0], batch.microLengths.value[0];
              && (r.Ok? <==> forall b :: 0 <= b < |ranges| && b < |lengths| ==> ranges[b].end <= |batch.rows| && lengths[b] <= width)
              && (r.Ok? ==>
                    && |r.value| == Min(|ranges|, |lengths|)
                    && forall b :: 0 <= b < |r.value| ==> MicrobatchOf(batch.rows, ranges[b], lengths[b], r.value[b]))
  {
    if !HasOneLayout(batch) {
      return Err(NotOneLayout);
    }
    var ranges, lengths := batch.microIndices.value[0], batch.microLengths.value[0];
    var out: seq<seq<Row<T>>> := [];
    for b := 0 to Min(|ranges|, |lengths|)
      invariant |out| == b
      invariant forall a :: 0 <= a < b ==> ranges[a].end <= |batch.rows| && lengths[a] <= width
      invariant forall a :: 0 <= a < b ==> MicrobatchOf(batch.rows, ranges[a], lengths[a], out[a])
    {
      var sliced := Slice(batch, ranges[b].start, ranges[b].end);
      if sliced.Err? {
        return Err(sliced.error);
      }
      if lengths[b] > width {
        return Err(LengthPastWidth);
      }
      var mb := sliced.value.rows;
      out := out + [seq(|mb|, i requires 0 <= i < |mb| && lengths[b] <= |mb[i].tokens| => Truncated(mb[i], lengths[b]))];
    }
    return Ok(out);
  }

  predicate HasOneLayout<T>(batch: Shard<T>) {
    && batch.microIndices.Some? && |batch.microIndices.value| == 1
    && batch.microLengths.Some? && |batch.microLengths.value| > 0
  }

  ghost predicate MicrobatchOf<T>(rows: seq<Row<T>>, range: Range, length: nat, mb: seq<Row<T>>) {
    && range.end <= |rows| && |mb| == (if range.start <= range.end then range.end - range.start else 0)
    && forall i :: 0 <= i < |mb| ==>
         && length <= |rows[range.start + i].tokens|
         && mb[i] == Row(rows[range.start + i].length, rows[range.start + i].tokens[..length])
  }

  // Every real token of every row of every shard is within its microbatch's recorded length, and
  // no recorded length exceeds the width, so the iterator's cut never fails and never loses one.
  lemma RecordedLengthCovers<T>(
      shards: seq<seq<Row<T>>>, start: nat, shardSize: nat, round: nat, width: nat, budget: int,
      ranges: seq<Range>, lengths: seq<nat>, b: nat, i: nat, s: nat)
    requires AllFit(shards, start, shardSize, round, width, budget)
    requires GreedyLayout(RoundedLengths(shards, start, shardSize, round, width), shardSize, budget, ranges, lengths)
    requires b < |ranges| && ranges[b].start <= i < ranges[b].end && s < |shards|
    ensures start + i < |shards[s]|
    ensures var kept := Min(shards[s][start + i].length, width);
            && kept <= lengths[b] <= width
            && (|shards[s][start + i].tokens| == width ==>
                  shards[s][start + i].tokens[..lengths[b]][..kept] == shards[s][start + i].tokens[..kept])
  {
    var m := RoundedLengths(shards, start, shardSize, round, width);
    var lo, hi := ranges[b].start, ranges[b].end;
    assert Fits(shards, start + i, round, width, budget);
    MaxOfMember(m, lo, hi, i);
    MaxAtBounds(shards, start + i, |shards|, s);
    CappedMonotone(shards[s][start + i].length, MaxAt(shards, start + i, |shards|), width);
    MaxOfBounded(m, lo, hi, width);
    hide GreedyLayout, MaxOf, MaxAt, Rounded;
  }

  lemma CappedMonotone(a: nat, b: nat, width: nat)
    requires a <= b
    ensures Min(a, width) <= Min(b, width)
  {
  }
}
