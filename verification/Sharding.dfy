/** shard_by_batch_size with its three modes of sharding. */
module Sharding {
  import opened Wrappers
  import opened Arith
  import opened Seqs
  import opened Batches
  import opened DynamicBatching
  import opened DynamicOrder
  import opened SequencePacking
  import opened Packers

  // Argument checks, the plain, dynamic and packing branches, and the copying of each shard's ranges.

  datatype DynamicArgs = DynamicArgs(maxTokens: nat, lengthRound: nat, width: nat)

  // One shuffle per chunk stands for random.shuffle of the shuffling packer.
  datatype PackingArgs = PackingArgs(algorithm: Algorithm, maxTokens: int, padMultiple: nat, shuffles: seq<seq<nat>>)

  datatype ShardError =
    | BatchSizeWithUneven
    | BothModes
    | ZeroDivision
    | NotMultipleOfBatchSize
    | NotMultipleOfShards
    | NoBatches
    | NotDynamic(dynamic: DynamicError)
    | NotPackable(failure: PackingFailure)

  // The list of shards, with batch_sorted_indices when the call answers a pair.
  datatype Sharded<T> = Sharded(shards: seq<Shard<T>>, sortedIndices: Option<seq<nat>>)

  // ---------------------------------------------------------------- argument checks

  datatype Sizes = Sizes(batchSize: nat, chunks: nat, shardSize: nat)

  predicate ArgumentsOk(total: nat, k: nat, batchSize: Option<nat>, uneven: bool) {
    var size := if batchSize.Some? then batchSize.value else total;
    && (uneven ==> batchSize.None?)
    && size > 0 && k > 0 && total % size == 0 && (!uneven ==> size % k == 0)
  }

  function SizesFor(total: nat, k: nat, batchSize: Option<nat>, uneven: bool): (z: Sizes)
    requires ArgumentsOk(total, k, batchSize, uneven)
  {
    var size := if batchSize.Some? then batchSize.value else total;
    Sizes(size, total / size, if uneven then (size + k - 1) / k else size / k)
  }

  // Every chunk has `batchSize` rows and, unless uneven, every shard has `shardSize` of them; uneven
  // shards take one chunk, and are just large enough for it.
  lemma SizesMeaning(total: nat, k: nat, batchSize: Option<nat>, uneven: bool)
    requires ArgumentsOk(total, k, batchSize, uneven)
    ensures var z := SizesFor(total, k, batchSize, uneven);
            && total == Times(z.chunks, z.batchSize)
            && (batchSize.None? ==> z.chunks == 1)
            && (if uneven then total <= Times(k, z.shardSize) < total + k
                else z.batchSize == Times(k, z.shardSize) == Times(z.shardSize, k))
  {
    hide Times;
    var size := if batchSize.Some? then batchSize.value else total;
    Multiple(total, size);
    if uneven {
      UnevenSize(size, k);
    } else {
      Multiple(size, k);
    }
  }

  // What each error of the argument checks says about the call.
  ghost predicate Explains(error: ShardError, total: nat, k: nat, batchSize: Option<nat>, uneven: bool) {
    var size := if batchSize.Some? then batchSize.value else total;
    && (error.BatchSizeWithUneven? <==> uneven && batchSize.Some?)
    && (error.ZeroDivision? ==> size == 0 || (total % size == 0 && k == 0))
    && (error.NotMultipleOfBatchSize? ==> size > 0 && total % size != 0)
    && (error.NotMultipleOfShards? ==> size > 0 && k > 0 && !uneven && size % k != 0)
  }

  method CheckArguments(total: nat, k: nat, batchSize: Option<nat>, uneven: bool) returns (r: Result<Sizes, ShardError>)
    ensures r.Ok? <==> ArgumentsOk(total, k, batchSize, uneven)
    ensures r.Err? ==> Explains(r.error, total, k, batchSize, uneven)
    ensures r.Err? ==> r.error.BatchSizeWithUneven? || r.error.ZeroDivision? || r.error.NotMultipleOfBatchSize? || r.error.NotMultipleOfShards?
    ensures r.Ok? ==> r.value == SizesFor(total, k, batchSize, uneven)
  {
    if uneven && batchSize.Some? {
      return Err(BatchSizeWithUneven);
    }
    var size := if batchSize.Some? then batchSize.value else total;
    if size == 0 {
      return Err(ZeroDivision);
    }
    if total % size != 0 {
      return Err(NotMultipleOfBatchSize);
    }
    if k == 0 {
      return Err(ZeroDivision);
    }
    if !uneven && size % k != 0 {
      return Err(NotMultipleOfShards);
    }
    var chunks := total / size;
    var shardSize := if uneven then (size + k - 1) / k else size / k;
    return Ok(Sizes(size, chunks, shardSize));
  }

  lemma Multiple(n: nat, k: nat)
    requires k > 0 && n % k == 0
    ensures n / k >= 0 && n == Times(n / k, k) == Times(k, n / k)
    ensures n == k ==> n / k == 1
  {
    var q := n / k;
    assert n == q * k;
    TimesIsProduct(q, k);
    TimesIsProduct(k, q);
  }

  lemma UnevenSize(n: nat, k: nat)
    requires k > 0
    ensures (n + k - 1) / k >= 0 && n <= Times(k, (n + k - 1) / k) < n + k
  {
    CeilDiv(n, k);
    var q := (n + k - 1) / k;
    assert q >= 0;
    TimesIsProduct(k, q);
  }

  // ---------------------------------------------------------------- copying the ranges of a shard

  function SlicesOf<X>(data: seq<X>, ranges: seq<Range>): seq<X> {
    if |ranges| == 0 then []
    else SlicesOf(data, ranges[..|ranges| - 1]) + Clip(data, ranges[|ranges| - 1].start, EndOf(ranges[|ranges| - 1]))
  }

  function EndOf(range: Range): (end: nat)
    ensures range.start <= end && (range.start <= range.end ==> end == range.end)
  {
    if range.start <= range.end then range.end else range.start
  }

  ghost predicate InRange(ranges: seq<Range>, total: nat) {
    forall b :: 0 <= b < |ranges| ==> ranges[b].start < ranges[b].end <= total
  }

  // The ranges of one shard, chunk by chunk; for uneven shards the ends are capped.
  method ShardRanges<X>(ghost data: seq<X>, total: nat, batchSize: nat, shardSize: nat, s: nat, chunks: nat, uneven: bool)
    returns (ranges: seq<Range>)
    requires total == |data| == Times(chunks, batchSize)
    requires !uneven ==> Times(s + 1, shardSize) <= batchSize
    ensures InRange(ranges, total) && SlicesOf(data, ranges) == ShardRows(data, batchSize, shardSize, s, chunks)
  {
    hide Clip;
    ranges := [];
    for c := 0 to chunks
      invariant InRange(ranges, total) && SlicesOf(data, ranges) == ShardRows(data, batchSize, shardSize, s, c)
    {
      TimesFits(batchSize, chunks, c);
      TimesSucc(s, shardSize);
      var chunkStart := Times(c, batchSize);
      var start, end := chunkStart + Times(s, shardSize), chunkStart + Times(s + 1, shardSize);
      if uneven {
        start, end := Min(start, total), Min(end, total);
      }
      BlockOfRange(data, chunkStart, shardSize, s, start, end);
      if start < end {
        SlicesSnoc(data, ranges, Range(start, end));
        ranges := ranges + [Range(start, end)];
      }
    }
  }

  lemma SlicesSnoc<X>(data: seq<X>, ranges: seq<Range>, range: Range)
    requires range.start <= range.end
    ensures SlicesOf(data, ranges + [range]) == SlicesOf(data, ranges) + Clip(data, range.start, range.end)
  {
    assert (ranges + [range])[..|ranges|] == ranges;
  }

  lemma BlockOfRange<X>(data: seq<X>, chunkStart: nat, shardSize: nat, s: nat, start: nat, end: nat)
    requires start == chunkStart + Times(s, shardSize) || start == Min(chunkStart + Times(s, shardSize), |data|)
    requires end == chunkStart + Times(s + 1, shardSize) || end == Min(chunkStart + Times(s + 1, shardSize), |data|)
    ensures Block(data, chunkStart, shardSize, s) == if start < end then Clip(data, start, end) else []
  {
  }

  function Rows(ranges: seq<Range>): nat {
    if |ranges| == 0 then 0
    else Rows(ranges[..|ranges| - 1]) + (EndOf(ranges[|ranges| - 1]) - ranges[|ranges| - 1].start)
  }

  lemma {:induction false} RowsGrow(ranges: seq<Range>, b: nat)
    requires b <= |ranges|
    ensures Rows(ranges[..b]) <= Rows(ranges)
  {
    if b < |ranges| {
      assert ranges[..|ranges| - 1][..b] == ranges[..b];
      RowsGrow(ranges[..|ranges| - 1], b);
    } else {
      assert ranges[..b] == ranges;
    }
  }

  lemma NoSlices<X>(data: seq<X>)
    ensures SlicesOf(data, []) == []
  {
  }

  lemma RowsSnoc(ranges: seq<Range>, range: Range)
    requires range.start <= range.end
    ensures Rows(ranges + [range]) == Rows(ranges) + (range.end - range.start)
    ensures Rows([]) == 0
  {
    assert (ranges + [range])[..|ranges|] == ranges;
  }

  // Allocate the shard once and copy each range behind the previous one. `blank` stands for the
  // arbitrary contents of a new tensor.
  method CopyRanges<X>(data: seq<X>, ranges: seq<Range>, blank: X) returns (shard: array<X>)
    requires InRange(ranges, |data|)
    ensures fresh(shard) && shard[..] == SlicesOf(data, ranges)
  {
    hide SlicesOf, Rows, Clip;
    var rows := 0;
    RowsSnoc([], Range(0, 0));
    for b := 0 to |ranges|
      invariant rows == Rows(ranges[..b])
    {
      assert ranges[..b + 1] == ranges[..b] + [ranges[b]];
      RowsSnoc(ranges[..b], ranges[b]);
      rows := rows + (ranges[b].end - ranges[b].start);
    }
    assert ranges[..|ranges|] == ranges;
    shard := new X[rows](_ => blank);
    var offset := 0;
    NoSlices(data);
    assert ranges[..0] == [];
    for b := 0 to |ranges|
      invariant offset == Rows(ranges[..b]) <= rows
      invariant shard[..offset] == SlicesOf(data, ranges[..b])
    {
      assert ranges[..b + 1] == ranges[..b] + [ranges[b]];
      RowsGrow(ranges, b + 1);
      RowsSnoc(ranges[..b], ranges[b]);
      SlicesSnoc(data, ranges[..b], ranges[b]);
      CopySpan(shard, offset, data, ranges[b]);
      offset := offset + (ranges[b].end - ranges[b].start);
    }
  }

  method CopySpan<X>(shard: array<X>, offset: nat, data: seq<X>, range: Range)
    requires range.start <= range.end <= |data| && offset + (range.end - range.start) <= shard.Length
    modifies shard
    ensures shard[..offset + (range.end - range.start)] == old(shard[..offset]) + Clip(data, range.start, range.end)
  {
    var span := range.end - range.start;
    for i := 0 to span
      invariant shard[..offset + i] == old(shard[..offset]) + data[range.start..range.start + i]
    {
      shard[offset + i] := data[range.start + i];
    }
  }

  // ---------------------------------------------------------------- the three branches

  // The rows of every shard, copied shard by shard.
  method BuildShards<X>(data: seq<X>, k: nat, z: Sizes, uneven: bool, blank: X) returns (shards: seq<seq<X>>)
    requires |data| == Times(z.chunks, z.batchSize) && (!uneven ==> z.batchSize == Times(k, z.shardSize))
    ensures shards == AllShards(data, z.batchSize, z.shardSize, k, z.chunks)
  {
    hide ShardRows;
    shards := [];
    for s := 0 to k
      invariant |shards| == s
      invariant forall t :: 0 <= t < s ==> shards[t] == ShardRows(data, z.batchSize, z.shardSize, t, z.chunks)
    {
      TimesFits(z.shardSize, k, s);
      TimesSucc(s, z.shardSize);
      var ranges := ShardRanges(data, |data|, z.batchSize, z.shardSize, s, z.chunks, uneven);
      var shard := CopyRanges(data, ranges, blank);
      shards := shards + [shard[..]];
    }
  }

  ghost predicate IsPlain<T>(r: Sharded<T>, rows: seq<Row<T>>, k: nat, z: Sizes) {
    && r.sortedIndices.None? && |r.shards| == k
    && forall s :: 0 <= s < k ==>
         r.shards[s] == Shard(ShardRows(rows, z.batchSize, z.shardSize, s, z.chunks), None, None, None)
  }

  method ShardPlain<T>(rows: seq<Row<T>>, k: nat, z: Sizes, uneven: bool, blank: Row<T>) returns (r: Sharded<T>)
    requires |rows| == Times(z.chunks, z.batchSize) && (!uneven ==> z.batchSize == Times(k, z.shardSize))
    ensures IsPlain(r, rows, k, z)
  {
    hide ShardRows;
    var parts := BuildShards(rows, k, z, uneven, blank);
    r := Sharded(seq(k, s requires 0 <= s < k && s < |parts| => Shard(parts[s], None, None, None)), None);
  }

  // The shards of the sorted and strided rows.
  ghost function DynamicShards<T>(rows: seq<Row<T>>, k: nat, z: Sizes): seq<seq<Row<T>>>
    requires k > 0 && |rows| == Times(z.chunks, z.batchSize)
  {
    SortedIndicesLength(Lengths(rows), z.batchSize, k, z.chunks);
    AllShards(Gather(rows, SortedIndices(Lengths(rows), z.batchSize, k, z.chunks)), z.batchSize, z.shardSize, k, z.chunks)
  }

  // No lookup and no assertion of the microbatch loop fails.
  ghost predicate DynamicFits<T>(rows: seq<Row<T>>, k: nat, z: Sizes, args: DynamicArgs)
    requires k > 0 && |rows| == Times(z.chunks, z.batchSize)
  {
    AllChunksFit(DynamicShards(rows, k, z), z.chunks, z.shardSize, args.lengthRound, args.width, args.maxTokens)
  }

  ghost predicate IsDynamic<T>(r: Sharded<T>, rows: seq<Row<T>>, k: nat, z: Sizes, args: DynamicArgs, layout: Layout)
    requires k > 0 && |rows| == Times(z.chunks, z.batchSize)
  {
    && r.sortedIndices == Some(SortedIndices(Lengths(rows), z.batchSize, k, z.chunks))
    && |r.shards| == k == |DynamicShards(rows, k, z)|
    && (forall s :: 0 <= s < k ==>
          r.shards[s] == Shard(DynamicShards(rows, k, z)[s], Some(layout.indices), Some(layout.lengths), None))
    && LayoutOf(DynamicShards(rows, k, z), z.chunks, z.shardSize, args.lengthRound, args.width, args.maxTokens, layout)
  }

  method ShardDynamic<T>(rows: seq<Row<T>>, k: nat, z: Sizes, uneven: bool, args: DynamicArgs, blank: Row<T>)
    returns (r: Result<Sharded<T>, DynamicError>, layout: Layout)
    requires k > 0 && |rows| == Times(z.chunks, z.batchSize) && (!uneven ==> z.batchSize == Times(k, z.shardSize))
    ensures r.Ok? <==> DynamicFits(rows, k, z, args)
    ensures r.Ok? ==> IsDynamic(r.value, rows, k, z, args, layout)
  {
    hide SortedIndices, ShardRows, AllChunksFit, GreedyLayout, AllShards, Gather;
    layout := Layout([], []);
    var indices := SortAndStride(Lengths(rows), z.batchSize, k, z.chunks);
    SortedIndicesLength(Lengths(rows), z.batchSize, k, z.chunks);
    var data := Gather(rows, indices);
    var parts := BuildShards(data, k, z, uneven, blank);
    assert parts == DynamicShards(rows, k, z);
    var built := BuildMicrobatches(parts, z.chunks, z.shardSize, args.lengthRound, args.width, args.maxTokens);
    if built.Err? {
      return Err(built.error), layout;
    }
    layout := built.value;
    var shards := seq(k, s requires 0 <= s < k && s < |parts| =>
                        Shard(parts[s], Some(layout.indices), Some(layout.lengths), None));
    return Ok(Sharded(shards, Some(indices))), layout;
  }

  ghost predicate IsPacked<T>(r: Sharded<T>, rows: seq<Row<T>>, k: nat, z: Sizes, args: PackingArgs, bins: seq<seq<seq<nat>>>)
    requires |rows| == Times(z.chunks, z.batchSize) && args.padMultiple > 0
  {
    && |bins| == z.chunks
    && Assigned(bins, rows, z.batchSize, k, args.padMultiple, args.maxTokens, z.chunks)
    && ArePackedShards(r.shards, rows, bins, z.batchSize, k, args.padMultiple)
    && r.sortedIndices == Some(Flatten(AllIndices(bins, z.batchSize, k, z.chunks)))
  }

  ghost predicate ShufflesOk(args: PackingArgs, z: Sizes) {
    args.algorithm.FirstFitShuffle? ==>
      |args.shuffles| == z.chunks && forall c :: 0 <= c < z.chunks ==> IsPermutation(args.shuffles[c], z.batchSize)
  }

  // Every chunk is packable, and the bins that the packer finds can be adjusted to the shards.
  ghost predicate PackingFits<T>(rows: seq<Row<T>>, k: nat, z: Sizes, args: PackingArgs, firsts: seq<seq<seq<nat>>>)
    requires k > 0 && |rows| == Times(z.chunks, z.batchSize)
  {
    && z.chunks > 0 && args.padMultiple > 0
    && AllPackable(args.algorithm, rows, z.batchSize, args.padMultiple, args.maxTokens, z.chunks)
    && AllAdjustable(firsts, z.batchSize, k)
  }

  method ShardByPacking<T>(rows: seq<Row<T>>, k: nat, z: Sizes, args: PackingArgs)
    returns (r: Result<Sharded<T>, ShardError>, ghost bins: seq<seq<seq<nat>>>, ghost firsts: seq<seq<seq<nat>>>)
    requires k > 0 && z.batchSize > 0 && |rows| == Times(z.chunks, z.batchSize) && ShufflesOk(args, z)
    ensures r.Ok? ==> z.chunks > 0 && args.padMultiple > 0 && IsPacked(r.value, rows, k, z, args, bins)
    ensures r.Err? ==> if z.chunks == 0 then r.error == NoBatches else r.error.NotPackable?
    ensures args.padMultiple > 0 ==> FirstPackings(firsts, rows, z.batchSize, args.padMultiple, args.maxTokens, z.chunks)
    ensures r.Ok? <==> PackingFits(rows, k, z, args, firsts)
    ensures args.padMultiple > 0 && z.batchSize >= k && z.batchSize % k == 0 ==> AllAdjustable(firsts, z.batchSize, k)
  {
    hide Assigned, ArePackedShards, AllPackable, IsPermutation, FirstPackings, AllAdjustable;
    bins, firsts := [], [];
    if z.chunks == 0 {
      NoPackings(rows, k, z, args);
      return Err(NoBatches), bins, firsts;  // from_batches looks at its first batch
    }
    var packed;
    packed, firsts := PackChunks(args.algorithm, args.shuffles, rows, z.batchSize, k, args.padMultiple, args.maxTokens, z.chunks);
    if packed.Err? {
      return Err(NotPackable(packed.error)), bins, firsts;
    }
    bins := packed.value;
    assert |bins| == z.chunks by { AssignedLength(bins, rows, z.batchSize, k, args.padMultiple, args.maxTokens, z.chunks); }
    var shards, indices := ShardPacked(rows, packed.value, z.batchSize, k, args.padMultiple, args.maxTokens);
    return Ok(Sharded(shards, Some(indices))), bins, firsts;
  }

  lemma NoPackings<T>(rows: seq<Row<T>>, k: nat, z: Sizes, args: PackingArgs)
    requires k > 0
    ensures args.padMultiple > 0 && |rows| >= Times(z.chunks, z.batchSize) ==>
              FirstPackings([], rows, z.batchSize, args.padMultiple, args.maxTokens, z.chunks)
    ensures AllAdjustable([], z.batchSize, k)
  {
  }

  lemma AssignedLength<T>(
      bins: seq<seq<seq<nat>>>, rows: seq<Row<T>>, batchSize: nat, k: nat, pad: nat, cap: int, n: nat)
    requires pad > 0 && |rows| >= Times(n, batchSize) && Assigned(bins, rows, batchSize, k, pad, cap, n)
    ensures |bins| == n
  {
  }

  // ---------------------------------------------------------------- shard_by_batch_size

  // What a successful call answers in each mode.
  ghost predicate IsSharded<T>(
      r: Sharded<T>, rows: seq<Row<T>>, k: nat, z: Sizes, dynamic: Option<DynamicArgs>, packing: Option<PackingArgs>,
      layout: Layout, bins: seq<seq<seq<nat>>>)
    requires k > 0 && |rows| == Times(z.chunks, z.batchSize)
  {
    if dynamic.Some? then IsDynamic(r, rows, k, z, dynamic.value, layout)
    else if packing.Some? then packing.value.padMultiple > 0 && IsPacked(r, rows, k, z, packing.value, bins)
    else IsPlain(r, rows, k, z)
  }

  // When a call with good arguments succeeds; `firsts` are the packer's own packings of the chunks.
  ghost predicate Shardable<T>(
      rows: seq<Row<T>>, k: nat, z: Sizes, dynamic: Option<DynamicArgs>, packing: Option<PackingArgs>,
      firsts: seq<seq<seq<nat>>>)
    requires k > 0 && |rows| == Times(z.chunks, z.batchSize)
  {
    if dynamic.Some? then DynamicFits(rows, k, z, dynamic.value)
    else if packing.Some? then PackingFits(rows, k, z, packing.value, firsts)
    else true
  }

  method ShardByBatchSize<T>(
      rows: seq<Row<T>>, k: nat, batchSize: Option<nat>, uneven: bool,
      dynamic: Option<DynamicArgs>, packing: Option<PackingArgs>, blank: Row<T>)
    returns (r: Result<Sharded<T>, ShardError>, layout: Layout, ghost bins: seq<seq<seq<nat>>>,
             ghost firsts: seq<seq<seq<nat>>>)
    requires packing.Some? && ArgumentsOk(|rows|, k, batchSize, uneven) ==>
               ShufflesOk(packing.value, SizesFor(|rows|, k, batchSize, uneven))
    ensures r.Ok? ==> ArgumentsOk(|rows|, k, batchSize, uneven) && (dynamic.None? || packing.None?)
    ensures r.Err? ==> Explains(r.error, |rows|, k, batchSize, uneven)
    ensures r.Err? && r.error.BothModes? ==> dynamic.Some? && packing.Some?
    ensures r.Err? && (r.error.NoBatches? || r.error.NotPackable?) ==> packing.Some?
    ensures r.Err? && r.error.NotDynamic? ==> dynamic.Some?
    ensures ArgumentsOk(|rows|, k, batchSize, uneven) ==>
              var z := SizesFor(|rows|, k, batchSize, uneven);
              && |rows| == Times(z.chunks, z.batchSize)
              && (r.Ok? ==> IsSharded(r.value, rows, k, z, dynamic, packing, layout, bins))
              && ((dynamic.None? || packing.None?) ==> (r.Ok? <==> Shardable(rows, k, z, dynamic, packing, firsts)))
              && (dynamic.None? && packing.Some? && packing.value.padMultiple > 0 ==>
                    && FirstPackings(firsts, rows, z.batchSize, packing.value.padMultiple, packing.value.maxTokens, z.chunks)
                    && (!uneven ==> AllAdjustable(firsts, z.batchSize, k)))
  {
    hide IsPlain, IsDynamic, IsPacked, DynamicFits, AllPackable, ShufflesOk, Times, FirstPackings, AllAdjustable;
    layout, bins, firsts := Layout([], []), [], [];
    if uneven && batchSize.Some? {
      return Err(BatchSizeWithUneven), layout, bins, firsts;
    }
    if ArgumentsOk(|rows|, k, batchSize, uneven) {
      SizesMeaning(|rows|, k, batchSize, uneven);
      LeastBatch(|rows|, k, batchSize, uneven);
    }
    if dynamic.Some? && packing.Some? {
      return Err(BothModes), layout, bins, firsts;
    }
    var checked := CheckArguments(|rows|, k, batchSize, uneven);
    if checked.Err? {
      return Err(checked.error), layout, bins, firsts;
    }
    var z := checked.value;
    if dynamic.Some? {
      var sharded;
      sharded, layout := ShardDynamic(rows, k, z, uneven, dynamic.value, blank);
      r := if sharded.Ok? then Ok(sharded.value) else Err(NotDynamic(sharded.error));
    } else if packing.Some? {
      r, bins, firsts := ShardByPacking(rows, k, z, packing.value);
    } else {
      var sharded := ShardPlain(rows, k, z, uneven, blank);
      r := Ok(sharded);
    }
  }

  lemma LeastBatch(total: nat, k: nat, batchSize: Option<nat>, uneven: bool)
    requires ArgumentsOk(total, k, batchSize, uneven)
    ensures var z := SizesFor(total, k, batchSize, uneven);
            z.batchSize > 0 && (!uneven ==> z.batchSize % k == 0 && z.batchSize >= k)
  {
    var size := SizesFor(total, k, batchSize, uneven).batchSize;
    if size < k {
      DivModUnique(size, k, 0, size);
    }
  }

  // ---------------------------------------------------------------- no row is lost or duplicated

  lemma AllShardsConserve<X>(data: seq<X>, k: nat, z: Sizes)
    requires |data| == Times(z.chunks, z.batchSize)
    requires z.batchSize == Times(k, z.shardSize) || (z.chunks == 1 && |data| <= Times(k, z.shardSize))
    ensures multiset(Flatten(AllShards(data, z.batchSize, z.shardSize, k, z.chunks))) == multiset(data)
  {
    hide Flatten, ShardRows, AllShards;
    if z.batchSize == Times(k, z.shardSize) {
      ShardsConserve(data, z.batchSize, z.shardSize, k, z.chunks);
      assert Clip(data, 0, |data|) == data;
    } else {
      assert Times(1, z.batchSize) == z.batchSize;
      UnevenShardsTile(data, z.shardSize, k);
    }
  }

  lemma PlainConserves<T>(r: Sharded<T>, rows: seq<Row<T>>, k: nat, z: Sizes)
    requires |rows| == Times(z.chunks, z.batchSize) && IsPlain(r, rows, k, z)
    ensures RowsOf(r.shards) == AllShards(rows, z.batchSize, z.shardSize, k, z.chunks)
  {
    hide ShardRows;
  }

  lemma DynamicConserves<T>(r: Sharded<T>, rows: seq<Row<T>>, k: nat, z: Sizes, args: DynamicArgs, layout: Layout)
    requires k > 0 && |rows| == Times(z.chunks, z.batchSize) && IsDynamic(r, rows, k, z, args, layout)
    requires z.batchSize == Times(k, z.shardSize) || (z.chunks == 1 && |rows| <= Times(k, z.shardSize))
    ensures multiset(Flatten(RowsOf(r.shards))) == multiset(rows)
  {
    hide Flatten, ShardRows, SortedIndices, LayoutOf, IsPermutation;
    var idx := SortedIndices(Lengths(rows), z.batchSize, k, z.chunks);
    assert RowsOf(r.shards) == DynamicShards(rows, k, z);
    SortedIndicesPermute(Lengths(rows), z.batchSize, k, z.chunks);
    GatherPermutation(rows, idx);
    AllShardsConserve(Gather(rows, idx), k, z);
  }

  lemma PackedConserves<T>(r: Sharded<T>, rows: seq<Row<T>>, k: nat, z: Sizes, args: PackingArgs, bins: seq<seq<seq<nat>>>)
    requires k > 0 && |rows| == Times(z.chunks, z.batchSize) && args.padMultiple > 0 && IsPacked(r, rows, k, z, args, bins)
    ensures multiset(Flatten(RowsOf(r.shards))) == multiset(rows)
  {
    hide Flatten, Assigned, ArePackedShards, IsPermutation, AllIndices, Reordered;
    PackedRoundTrip(r.shards, rows, bins, z.batchSize, k, args.padMultiple, args.maxTokens);
    GatherPermutation(rows, Flatten(AllIndices(bins, z.batchSize, k, z.chunks)));
  }

  // In every mode the shards together hold every row of the batch exactly once.
  lemma ShardingConserves<T>(
      r: Sharded<T>, rows: seq<Row<T>>, k: nat, batchSize: Option<nat>, uneven: bool,
      dynamic: Option<DynamicArgs>, packing: Option<PackingArgs>, layout: Layout, bins: seq<seq<seq<nat>>>)
    requires ArgumentsOk(|rows|, k, batchSize, uneven)
    requires var z := SizesFor(|rows|, k, batchSize, uneven);
             |rows| == Times(z.chunks, z.batchSize) && IsSharded(r, rows, k, z, dynamic, packing, layout, bins)
    ensures multiset(Flatten(RowsOf(r.shards))) == multiset(rows)
  {
    hide Flatten, IsPlain, IsDynamic, IsPacked, AllShards, Times;
    SizesMeaning(|rows|, k, batchSize, uneven);
    var z := SizesFor(|rows|, k, batchSize, uneven);
    if dynamic.Some? {
      DynamicConserves(r, rows, k, z, dynamic.value, layout);
    } else if packing.Some? {
      PackedConserves(r, rows, k, z, packing.value, bins);
    } else {
      PlainConserves(r, rows, k, z);
      AllShardsConserve(rows, k, z);
    }
  }

  // ---------------------------------------------------------------- global batches of even shards

  // The layout attributes of one chunk, where the shard has a layout.
  function LayoutAt<T>(shard: Shard<T>, rows: seq<Row<T>>, c: nat): Shard<T>
    requires shard.microIndices.Some? ==> c < |shard.microIndices.value|
    requires shard.microLengths.Some? ==> c < |shard.microLengths.value|
  {
    Shard(rows,
          if shard.microIndices.Some? then Some([shard.microIndices.value[c]]) else None,
          if shard.microLengths.Some? then Some([shard.microLengths.value[c]]) else None,
          None)
  }

  ghost predicate HasLayouts<T>(shard: Shard<T>, chunks: nat) {
    && shard.elemCounts.None?
    && (shard.microIndices.Some? <==> shard.microLengths.Some?)
    && (shard.microIndices.Some? ==> |shard.microIndices.value| == chunks == |shard.microLengths.value|)
  }

  // get_batch(c) of a plain or dynamic shard, with the shard's size of a chunk as batch size, is the
  // shard's block of global batch c, with the layout of that chunk.
  lemma EvenBatch<T>(shard: Shard<T>, data: seq<Row<T>>, k: nat, z: Sizes, s: nat, c: nat)
    requires |data| == Times(z.chunks, z.batchSize) && z.batchSize == Times(k, z.shardSize) && s < k && c < z.chunks
    requires shard.rows == ShardRows(data, z.batchSize, z.shardSize, s, z.chunks) && HasLayouts(shard, z.chunks)
    ensures BatchOf(shard, c, z.shardSize) == Ok(LayoutAt(shard, Block(data, Times(c, z.batchSize), z.shardSize, s), c))
  {
    hide ShardRows, Block, Times;
    TimesFits(z.shardSize, k, s);
    TimesSucc(s, z.shardSize);
    ShardRowsOfChunk(data, z.batchSize, z.shardSize, s, z.chunks, c);
    TimesIsProduct(c, z.shardSize);
    TimesIsProduct(c + 1, z.shardSize);
    TimesSucc(c, z.shardSize);
  }

  // The dynamic iterator over global batch c of shard s: every microbatch lies within the batch, and
  // its recorded length is between each of its rows' real tokens and the padded width.
  lemma DynamicBatchIterates<T>(
      r: Sharded<T>, rows: seq<Row<T>>, k: nat, z: Sizes, args: DynamicArgs, layout: Layout, s: nat, c: nat, b: nat, i: nat)
    requires k > 0 && |rows| == Times(z.chunks, z.batchSize) && z.batchSize == Times(k, z.shardSize) && s < k && c < z.chunks
    requires IsDynamic(r, rows, k, z, args, layout) && DynamicFits(rows, k, z, args)
    requires c < |layout.indices| && c < |layout.lengths|
    requires b < |layout.indices[c]| && layout.indices[c][b].start <= i < layout.indices[c][b].end
    ensures b < |layout.lengths[c]|
    ensures var batch := BatchOf(r.shards[s], c, z.shardSize);
            && batch.Ok? && batch.value.microIndices == Some([layout.indices[c]])
            && batch.value.microLengths == Some([layout.lengths[c]])
            && layout.indices[c][b].end <= |batch.value.rows| == z.shardSize
            && Min(batch.value.rows[i].length, args.width) <= layout.lengths[c][b] <= args.width
  {
    hide ShardRows, Block, AllFit, GreedyLayout, RoundedLengths, BatchOf, SortedIndices, Gather, Times;
    var shards := DynamicShards(rows, k, z);
    assert GreedyLayout(RoundedLengths(shards, Times(c, z.shardSize), z.shardSize, args.lengthRound, args.width),
                        z.shardSize, args.maxTokens, layout.indices[c], layout.lengths[c]);
    assert AllFit(shards, Times(c, z.shardSize), z.shardSize, args.lengthRound, args.width, args.maxTokens);
    RecordedLengthCovers(shards, Times(c, z.shardSize), z.shardSize, args.lengthRound, args.width, args.maxTokens,
                         layout.indices[c], layout.lengths[c], b, i, s);
    RangeInChunk(RoundedLengths(shards, Times(c, z.shardSize), z.shardSize, args.lengthRound, args.width),
                 z.shardSize, args.maxTokens, layout.indices[c], layout.lengths[c], b);
    DynamicBlock(r, rows, k, z, args, layout, s, c, i);
  }

  lemma RangeInChunk(m: seq<nat>, n: nat, budget: int, ranges: seq<Range>, lengths: seq<nat>, b: nat)
    requires GreedyLayout(m, n, budget, ranges, lengths) && b < |ranges|
    ensures |lengths| == |ranges| && ranges[b].end <= n
  {
    hide MaxOf, Tokens, Maximal;
  }

  lemma DynamicBlock<T>(
      r: Sharded<T>, rows: seq<Row<T>>, k: nat, z: Sizes, args: DynamicArgs, layout: Layout, s: nat, c: nat, i: nat)
    requires k > 0 && |rows| == Times(z.chunks, z.batchSize) && z.batchSize == Times(k, z.shardSize) && s < k && c < z.chunks
    requires IsDynamic(r, rows, k, z, args, layout) && i < z.shardSize
    requires |layout.indices| == |layout.lengths| == z.chunks
    ensures var batch := BatchOf(r.shards[s], c, z.shardSize);
            && batch.Ok? && batch.value.microIndices == Some([layout.indices[c]])
            && batch.value.microLengths == Some([layout.lengths[c]])
            && |batch.value.rows| == z.shardSize && Times(c, z.shardSize) + i < |DynamicShards(rows, k, z)[s]|
            && batch.value.rows[i] == DynamicShards(rows, k, z)[s][Times(c, z.shardSize) + i]
  {
    hide ShardRows, Block, LayoutOf, BatchOf, SortedIndices, Gather, Times;
    var idx := SortedIndices(Lengths(rows), z.batchSize, k, z.chunks);
    SortedIndicesLength(Lengths(rows), z.batchSize, k, z.chunks);
    var data := Gather(rows, idx);
    var shard := r.shards[s];
    assert shard.rows == ShardRows(data, z.batchSize, z.shardSize, s, z.chunks);
    EvenBatch(shard, data, k, z, s, c);
    TimesFits(z.shardSize, k, s);
    TimesSucc(s, z.shardSize);
    ShardRowsOfChunk(data, z.batchSize, z.shardSize, s, z.chunks, c);
    assert shard.rows[Times(c, z.shardSize)..Times(c, z.shardSize) + z.shardSize][i] == shard.rows[Times(c, z.shardSize) + i];
  }

  // The shards of dynamic batching hold the rows in the order of the indices that are handed out, block by block.
  lemma DynamicShardRows<T>(r: Sharded<T>, rows: seq<Row<T>>, k: nat, z: Sizes, args: DynamicArgs, layout: Layout, s: nat)
    requires k > 0 && |rows| == Times(z.chunks, z.batchSize) && s < k && IsDynamic(r, rows, k, z, args, layout)
    ensures r.sortedIndices.Some? && Below(r.sortedIndices.value, |rows|)
    ensures s < |r.shards| && r.shards[s].rows
         == ShardRows(Gather(rows, r.sortedIndices.value), z.batchSize, z.shardSize, s, z.chunks)
  {
    hide ShardRows, LayoutOf, SortedIndices, Times;
    SortedIndicesLength(Lengths(rows), z.batchSize, k, z.chunks);
  }

  // get_batch(c) of any two shards of dynamic batching: the total lengths differ by at most the range of
  // the lengths in the chunk.
  lemma DynamicBatchesBalance<T>(
      r: Sharded<T>, rows: seq<Row<T>>, k: nat, z: Sizes, args: DynamicArgs, layout: Layout, c: nat, s: nat, t: nat,
      lo: int, hi: int)
    requires k > 0 && |rows| == Times(z.chunks, z.batchSize) && z.batchSize == Times(k, z.shardSize) == Times(z.shardSize, k)
    requires s < k && t < k && c < z.chunks && z.shardSize > 0 && IsDynamic(r, rows, k, z, args, layout)
    requires forall a :: Times(c, z.batchSize) <= a < Times(c + 1, z.batchSize) && a < |rows| ==> lo <= rows[a].length <= hi
    ensures var u, v := BatchOf(r.shards[s], c, z.shardSize), BatchOf(r.shards[t], c, z.shardSize);
            && u.Ok? && v.Ok?
            && -(hi - lo) <= Sum(Lengths(u.value.rows)) - Sum(Lengths(v.value.rows)) <= hi - lo
  {
    hide ShardRows, Block, SortedIndices, Gather, Times, BatchOf, Sum, Lengths, GreedyLayout, RoundedLengths;
    SortedIndicesLength(Lengths(rows), z.batchSize, k, z.chunks);
    var data := Gather(rows, SortedIndices(Lengths(rows), z.batchSize, k, z.chunks));
    EvenBatch(r.shards[s], data, k, z, s, c);
    EvenBatch(r.shards[t], data, k, z, t, c);
    LoadBalance(rows, k, z.shardSize, z.chunks, c, s, t, lo, hi);
  }
}
