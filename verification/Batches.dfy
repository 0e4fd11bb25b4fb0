/** Batches of rows, their slices, and the even and uneven division of a batch over shards. */
module Batches {
  import opened Wrappers
  import opened Seqs
  import opened Arith

  // One sample: how many of its tokens are real, and its tokens padded to the batch's width.
  datatype Row<T> = Row(length: nat, tokens: seq<T>)

  // A half-open range of rows.
  datatype Range = Range(start: nat, end: nat)

  // SlicedDataDict: the rows and the three layout attributes, None where the source has None.
  datatype Shard<T> = Shard(
    rows: seq<Row<T>>,
    microIndices: Option<seq<seq<Range>>>,
    microLengths: Option<seq<seq<nat>>>,
    elemCounts: Option<seq<nat>>)

  datatype BatchError = EndPastRows | NoMicrobatches | NoSuchBatch | IndexOutOfRange | NotOneLayout | LengthPastWidth

  function Min(a: int, b: int): int {
    if a < b then a else b
  }

  // ---------------------------------------------------------------- slices and batches of a shard

  function Clip<T>(data: seq<T>, lo: nat, hi: nat): (r: seq<T>)
    requires lo <= hi
  {
    data[Min(lo, |data|)..Min(hi, |data|)]
  }

  function Slice<T>(shard: Shard<T>, start: nat, end: nat): Result<Shard<T>, BatchError> {
    if end > |shard.rows| then Err(EndPastRows)
    else Ok(Shard(if start <= end then shard.rows[start..end] else [], None, None, None))
  }

  function PrefixSum(counts: seq<nat>, n: nat): (r: nat)
    requires n <= |counts|
  {
    if n == 0 then 0 else PrefixSum(counts, n - 1) + counts[n - 1]
  }

  // The rows and the layout of one global batch of a shard.
  function BatchOf<T>(shard: Shard<T>, batchIdx: nat, batchSize: nat): Result<Shard<T>, BatchError> {
    if shard.elemCounts.Some? then
      var counts := shard.elemCounts.value;
      if shard.microIndices.None? || shard.microLengths.None? then Err(NoMicrobatches)
      else if batchIdx >= |counts| then Err(NoSuchBatch)
      else
        match Slice(shard, PrefixSum(counts, batchIdx), PrefixSum(counts, batchIdx + 1))
        case Err(e) => Err(e)
        case Ok(batch) => WithLayout(batch, shard, batchIdx, Some([counts[batchIdx]]))
    else
      match Slice(shard, batchSize * batchIdx, batchSize * (batchIdx + 1))
      case Err(e) => Err(e)
      case Ok(batch) =>
        if shard.microIndices.None? then Ok(batch) else WithLayout(batch, shard, batchIdx, None)
  }

  function WithLayout<T>(batch: Shard<T>, shard: Shard<T>, batchIdx: nat, counts: Option<seq<nat>>)
    : Result<Shard<T>, BatchError>
  {
    if shard.microIndices.None? || shard.microLengths.None? then Err(NoMicrobatches)
    else if batchIdx >= |shard.microIndices.value| || batchIdx >= |shard.microLengths.value| then Err(NoSuchBatch)
    else Ok(batch.(microIndices := Some([shard.microIndices.value[batchIdx]]),
                   microLengths := Some([shard.microLengths.value[batchIdx]]),
                   elemCounts := counts))
  }

  // The rows from `from` on and the layout of the batch, where the shard has one.
  ghost predicate IsBatch<T>(batch: Shard<T>, shard: Shard<T>, batchIdx: nat, from: nat, count: nat) {
    && from + count <= |shard.rows| && batch.rows == shard.rows[from..from + count]
    && (shard.microIndices.Some? ==>
          && shard.microLengths.Some? && batchIdx < |shard.microIndices.value| && batchIdx < |shard.microLengths.value|
          && batch.microIndices == Some([shard.microIndices.value[batchIdx]])
          && batch.microLengths == Some([shard.microLengths.value[batchIdx]]))
    && (shard.microIndices.None? ==> batch.microIndices.None? && batch.microLengths.None?)
  }

  // With element counts a batch is located by them; both layouts are needed and must reach it.
  lemma CountedBatch<T>(shard: Shard<T>, batchIdx: nat, batchSize: nat)
    requires shard.elemCounts.Some?
    ensures var r, counts := BatchOf(shard, batchIdx, batchSize), shard.elemCounts.value;
            && (shard.microIndices.None? || shard.microLengths.None? ==> r == Err(NoMicrobatches))
            && (r.Ok? <==>
                  && shard.microIndices.Some? && shard.microLengths.Some?
                  && batchIdx < |counts| && PrefixSum(counts, batchIdx + 1) <= |shard.rows|
                  && batchIdx < |shard.microIndices.value| && batchIdx < |shard.microLengths.value|)
            && (r.Ok? ==> IsBatch(r.value, shard, batchIdx, PrefixSum(counts, batchIdx), counts[batchIdx])
                          && r.value.elemCounts == Some([counts[batchIdx]]))
  {
  }

  // Without them by the batch size; a layout, where there is one, must reach it.
  lemma PlainBatch<T>(shard: Shard<T>, batchIdx: nat, batchSize: nat)
    requires shard.elemCounts.None?
    ensures var r, from := BatchOf(shard, batchIdx, batchSize), batchSize * batchIdx;
            && (r.Ok? <==>
                  && from + batchSize <= |shard.rows|
                  && (shard.microIndices.Some? ==>
                        && shard.microLengths.Some?
                        && batchIdx < |shard.microIndices.value| && batchIdx < |shard.microLengths.value|))
            && (r.Ok? ==> IsBatch(r.value, shard, batchIdx, from, batchSize) && r.value.elemCounts == None)
  {
    MulStep(batchIdx, batchSize);
  }

  method GetBatch<T>(shard: Shard<T>, batchIdx: nat, batchSize: nat) returns (r: Result<Shard<T>, BatchError>)
    ensures r == BatchOf(shard, batchIdx, batchSize)
  {
    if shard.elemCounts.Some? {
      var counts := shard.elemCounts.value;
      if shard.microIndices.None? || shard.microLengths.None? {
        return Err(NoMicrobatches);
      }
      if batchIdx >= |counts| {
        return Err(NoSuchBatch);
      }
      var cumElemCount := [0];
      for i := 0 to |counts|
        invariant |cumElemCount| == i + 1
        invariant forall j :: 0 <= j <= i ==> cumElemCount[j] == PrefixSum(counts, j)
      {
        cumElemCount := cumElemCount + [cumElemCount[i] + counts[i]];
      }
      var sliced := Slice(shard, cumElemCount[batchIdx], cumElemCount[batchIdx + 1]);
      if sliced.Err? {
        return sliced;
      }
      return WithLayout(sliced.value, shard, batchIdx, Some([counts[batchIdx]]));
    }
    var sliced := Slice(shard, batchSize * batchIdx, batchSize * (batchIdx + 1));
    if sliced.Err? || shard.microIndices.None? {
      return sliced;
    }
    return WithLayout(sliced.value, shard, batchIdx, None);
  }

  // ---------------------------------------------------------------- reordering in place

  class BatchedDataDict<T> {
    var rows: seq<Row<T>>

    constructor (rows: seq<Row<T>>)
      ensures this.rows == rows
    {
      this.rows := rows;
    }

    // Puts row i at the rank of reorderedIndices[i] among the given indices.
    method ReorderData(reorderedIndices: seq<nat>)
      modifies this
      ensures rows == Reordered(old(rows), reorderedIndices)
    {
      var n := Min(|reorderedIndices|, |rows|);
      var order := ArgSort(reorderedIndices, n);
      var sorted: seq<Row<T>> := [];
      for i := 0 to |order|
        invariant sorted == Gather(rows, order[..i])
        invariant rows == old(rows)
      {
        sorted := sorted + [rows[order[i]]];
        assert order[..i + 1] == order[..i] + [order[i]];
      }
      assert order[..|order|] == order;
      rows := sorted;
    }

    // Negative indices count from the end.
    method SelectIndices(indices: seq<int>) returns (r: Result<seq<Row<T>>, BatchError>)
      ensures r.Ok? <==> forall i :: 0 <= i < |indices| ==> -|rows| <= indices[i] < |rows|
      ensures r.Ok? ==> |r.value| == |indices|
                        && forall i :: 0 <= i < |indices| ==>
                             r.value[i] == if indices[i] < 0 then rows[|rows| + indices[i]] else rows[indices[i]]
      ensures r.Err? ==> r.error == IndexOutOfRange
    {
      var selected := [];
      for i := 0 to |indices|
        invariant |selected| == i
        invariant forall j :: 0 <= j < i ==>
                    -|rows| <= indices[j] < |rows| && selected[j] == rows[FromEnd(indices[j], |rows|)]
      {
        if indices[i] < -|rows| || indices[i] >= |rows| {
          return Err(IndexOutOfRange);
        }
        selected := selected + [rows[FromEnd(indices[i], |rows|)]];
      }
      return Ok(selected);
    }
  }

  function FromEnd(i: int, n: nat): int {
    if i < 0 then i + n else i
  }

  function Reordered<T>(rows: seq<T>, indices: seq<nat>): seq<T> {
    Gather(rows, ArgSort(indices, Min(|indices|, |rows|)))
  }

  // Reordering by the permutation that arranged the rows restores them.
  lemma ReorderUndoes<T>(data: seq<T>, p: seq<nat>)
    requires IsPermutation(p, |data|)
    ensures |p| == |data| && forall i :: 0 <= i < |p| ==> p[i] < |data|
    ensures Reordered(Gather(data, p), p) == data
  {
    PermutationBounds(p, |data|);
    ArgSortInverts(p, |data|);
  }

  // ---------------------------------------------------------------- blocks of the plain layout

  // Rows of the chunk starting at `start` that go to shard s.
  function Block<T>(data: seq<T>, start: nat, shardSize: nat, s: nat): seq<T> {
    Clip(data, start + Times(s, shardSize), start + Times(s + 1, shardSize))
  }

  function ShardRows<T>(data: seq<T>, batchSize: nat, shardSize: nat, s: nat, chunks: nat): seq<T> {
    if chunks == 0 then []
    else
      ShardRows(data, batchSize, shardSize, s, chunks - 1) + Block(data, Times(chunks - 1, batchSize), shardSize, s)
  }

  // The first n shards' parts of a chunk.
  function Parts<T>(data: seq<T>, start: nat, shardSize: nat, n: nat): (r: seq<seq<T>>)
    ensures |r| == n && forall s :: 0 <= s < n ==> r[s] == Block(data, start, shardSize, s)
  {
    seq(n, s requires 0 <= s < n => Block(data, start, shardSize, s))
  }

  function AllShards<T>(data: seq<T>, batchSize: nat, shardSize: nat, shards: nat, chunks: nat): (r: seq<seq<T>>)
    ensures |r| == shards && forall s :: 0 <= s < shards ==> r[s] == ShardRows(data, batchSize, shardSize, s, chunks)
  {
    seq(shards, s requires 0 <= s < shards => ShardRows(data, batchSize, shardSize, s, chunks))
  }

  lemma ClipConcat<T>(data: seq<T>, a: nat, b: nat, d: nat)
    requires a <= b <= d
    ensures Clip(data, a, b) + Clip(data, b, d) == Clip(data, a, d)
  {
  }

  // Side by side, the parts of a chunk are the rows of the chunk.
  lemma {:induction false} PartsTile<T>(data: seq<T>, start: nat, shardSize: nat, n: nat)
    ensures Flatten(Parts(data, start, shardSize, n)) == Clip(data, start, start + Times(n, shardSize))
  {
    hide Clip, Flatten, Parts;
    if n == 0 {
      NoParts(data, start, shardSize);
    } else {
      PartsTile(data, start, shardSize, n - 1);
      PartsSnoc(data, start, shardSize, n - 1);
      ClipConcat(data, start, start + Times(n - 1, shardSize), start + Times(n, shardSize));
    }
  }

  lemma NoParts<T>(data: seq<T>, start: nat, shardSize: nat)
    ensures Flatten(Parts(data, start, shardSize, 0)) == Clip(data, start, start)
  {
    assert Parts(data, start, shardSize, 0) == [];
  }

  lemma PartsSnoc<T>(data: seq<T>, start: nat, shardSize: nat, n: nat)
    ensures Flatten(Parts(data, start, shardSize, n + 1))
         == Flatten(Parts(data, start, shardSize, n)) + Block(data, start, shardSize, n)
  {
    assert Parts(data, start, shardSize, n + 1) == Parts(data, start, shardSize, n) + [Block(data, start, shardSize, n)];
    FlattenSnoc(Parts(data, start, shardSize, n), Block(data, start, shardSize, n));
  }

  // Over all shards, every row of the first `chunks` chunks appears exactly as often as in the data.
  lemma ShardsConserve<T>(data: seq<T>, batchSize: nat, shardSize: nat, shards: nat, chunks: nat)
    requires batchSize == Times(shards, shardSize)
    ensures multiset(Flatten(AllShards(data, batchSize, shardSize, shards, chunks)))
         == multiset(Clip(data, 0, Times(chunks, batchSize)))
  {
    forall start: nat ensures PartsCover(data, start, shardSize, shards, batchSize) {
      PartsTile(data, start, shardSize, shards);
    }
    ChunksAdd(data, batchSize, shardSize, shards, chunks);
  }

  ghost predicate PartsCover<T>(data: seq<T>, start: nat, shardSize: nat, shards: nat, batchSize: nat) {
    Flatten(Parts(data, start, shardSize, shards)) == Clip(data, start, start + batchSize)
  }

  ghost predicate Conserved<T>(all: seq<seq<T>>, data: seq<T>, end: nat) {
    multiset(Flatten(all)) == multiset(Clip(data, 0, end))
  }

  lemma {:induction false} ChunksAdd<T>(data: seq<T>, batchSize: nat, shardSize: nat, shards: nat, chunks: nat)
    requires forall start: nat :: PartsCover(data, start, shardSize, shards, batchSize)
    ensures Conserved(AllShards(data, batchSize, shardSize, shards, chunks), data, Times(chunks, batchSize))
  {
    hide Clip, Conserved, Flatten;
    if chunks == 0 {
      NoChunks(data, batchSize, shardSize, shards);
    } else {
      assert PartsCover(data, Times(chunks - 1, batchSize), shardSize, shards, batchSize);
      ChunksAdd(data, batchSize, shardSize, shards, chunks - 1);
      ShardsStep(data, batchSize, shardSize, shards, chunks - 1);
      ZipConserves(
        AllShards(data, batchSize, shardSize, shards, chunks - 1),
        Parts(data, Times(chunks - 1, batchSize), shardSize, shards),
        AllShards(data, batchSize, shardSize, shards, chunks),
        data, Times(chunks - 1, batchSize), batchSize);
    }
  }

  lemma NoChunks<T>(data: seq<T>, batchSize: nat, shardSize: nat, shards: nat)
    ensures Conserved(AllShards(data, batchSize, shardSize, shards, 0), data, 0)
  {
    assert AllShards(data, batchSize, shardSize, shards, 0) == seq<seq<T>>(shards, _ => []);
    FlattenEmpty<T>(shards);
  }

  lemma ShardsStep<T>(data: seq<T>, batchSize: nat, shardSize: nat, shards: nat, c: nat)
    ensures forall s :: 0 <= s < shards ==>
              AllShards(data, batchSize, shardSize, shards, c + 1)[s]
              == AllShards(data, batchSize, shardSize, shards, c)[s]
                 + Parts(data, Times(c, batchSize), shardSize, shards)[s]
  {
  }

  lemma ZipConserves<T>(before: seq<seq<T>>, parts: seq<seq<T>>, after: seq<seq<T>>, data: seq<T>, start: nat, n: nat)
    requires |before| == |parts| == |after| && forall i :: 0 <= i < |before| ==> after[i] == before[i] + parts[i]
    requires Conserved(before, data, start) && Flatten(parts) == Clip(data, start, start + n)
    ensures Conserved(after, data, start + n)
  {
    hide Flatten, Clip;
    FlattenZip(before, parts, after);
    ClipConcat(data, 0, start, start + n);
    assert multiset(Clip(data, 0, start) + Clip(data, start, start + n))
        == multiset(Clip(data, 0, start)) + multiset(Clip(data, start, start + n));
  }

  lemma {:induction false} ShardRowsLength<T>(data: seq<T>, batchSize: nat, shardSize: nat, s: nat, chunks: nat)
    requires Times(s + 1, shardSize) <= batchSize && |data| >= Times(chunks, batchSize)
    ensures |ShardRows(data, batchSize, shardSize, s, chunks)| == Times(chunks, shardSize)
  {
    if chunks > 0 {
      ShardRowsLength(data, batchSize, shardSize, s, chunks - 1);
    }
  }

  // The rows of chunk c sit at positions c * shardSize onwards of the shard.
  lemma {:induction false} ShardRowsOfChunk<T>(data: seq<T>, batchSize: nat, shardSize: nat, s: nat, chunks: nat, c: nat)
    requires Times(s + 1, shardSize) <= batchSize && |data| >= Times(chunks, batchSize)
    requires c < chunks
    ensures Times(c, shardSize) + shardSize <= |ShardRows(data, batchSize, shardSize, s, chunks)|
    ensures ShardRows(data, batchSize, shardSize, s, chunks)[Times(c, shardSize)..Times(c, shardSize) + shardSize]
         == Block(data, Times(c, batchSize), shardSize, s)
    decreases chunks
  {
    hide Clip, Block;
    ShardRowsLength(data, batchSize, shardSize, s, chunks - 1);
    BlockLength(data, batchSize, shardSize, s, chunks, chunks - 1);
    var before := ShardRows(data, batchSize, shardSize, s, chunks - 1);
    var block := Block(data, Times(chunks - 1, batchSize), shardSize, s);
    if c < chunks - 1 {
      ShardRowsOfChunk(data, batchSize, shardSize, s, chunks - 1, c);
      PrefixSlice(before, block, Times(c, shardSize), Times(c, shardSize) + shardSize);
    } else {
      SliceOfSuffix(before, block);
    }
  }

  lemma BlockLength<T>(data: seq<T>, batchSize: nat, shardSize: nat, s: nat, chunks: nat, c: nat)
    requires Times(s + 1, shardSize) <= batchSize && |data| >= Times(chunks, batchSize) && c < chunks
    ensures |Block(data, Times(c, batchSize), shardSize, s)| == shardSize
  {
    TimesFits(batchSize, chunks, c);
  }

  lemma SliceOfSuffix<T>(a: seq<T>, b: seq<T>)
    ensures (a + b)[|a|..|a| + |b|] == b
  {
  }

  // Even shards: row c * shardSize + j of shard s is row c * batchSize + s * shardSize + j of the data.
  lemma ShardRowAt<T>(
      data: seq<T>, batchSize: nat, shardSize: nat, shards: nat, s: nat, chunks: nat, c: nat, j: nat)
    requires batchSize == shards * shardSize && |data| == chunks * batchSize
    requires s < shards && c < chunks && j < shardSize
    ensures 0 <= c * shardSize + j < |ShardRows(data, batchSize, shardSize, s, chunks)| == chunks * shardSize
    ensures 0 <= c * batchSize + s * shardSize + j < |data|
    ensures ShardRows(data, batchSize, shardSize, s, chunks)[c * shardSize + j] == data[c * batchSize + s * shardSize + j]
  {
    TimesFits(shardSize, shards, s);
    TimesIsProduct(shards, shardSize);
    TimesIsProduct(s, shardSize);
    TimesIsProduct(chunks, batchSize);
    TimesIsProduct(c, batchSize);
    TimesIsProduct(c, shardSize);
    TimesIsProduct(chunks, shardSize);
    ChunkRowAt(data, batchSize, shardSize, s, chunks, c, j);
  }

  lemma ChunkRowAt<T>(data: seq<T>, batchSize: nat, shardSize: nat, s: nat, chunks: nat, c: nat, j: nat)
    requires Times(s + 1, shardSize) <= batchSize && |data| == Times(chunks, batchSize)
    requires c < chunks && j < shardSize
    ensures Times(c, shardSize) + j < |ShardRows(data, batchSize, shardSize, s, chunks)| == Times(chunks, shardSize)
    ensures Times(c, batchSize) + Times(s, shardSize) + j < |data|
    ensures ShardRows(data, batchSize, shardSize, s, chunks)[Times(c, shardSize) + j]
         == data[Times(c, batchSize) + Times(s, shardSize) + j]
  {
    ShardRowsLength(data, batchSize, shardSize, s, chunks);
    ShardRowsOfChunk(data, batchSize, shardSize, s, chunks, c);
    TimesFits(batchSize, chunks, c);
    var rows := ShardRows(data, batchSize, shardSize, s, chunks);
    assert rows[Times(c, shardSize)..Times(c, shardSize) + shardSize][j] == Block(data, Times(c, batchSize), shardSize, s)[j];
  }

  lemma SingleChunk<T>(data: seq<T>, shardSize: nat, s: nat)
    ensures ShardRows(data, |data|, shardSize, s, 1) == Block(data, 0, shardSize, s)
  {
    assert ShardRows(data, |data|, shardSize, s, 0) == [];
  }

  // Uneven shards of a single chunk: concatenated, they are the data.
  lemma UnevenShardsTile<T>(data: seq<T>, shardSize: nat, shards: nat)
    requires Times(shards, shardSize) >= |data|
    ensures Flatten(AllShards(data, |data|, shardSize, shards, 1)) == data
  {
    hide Flatten;
    SingleChunkParts(data, shardSize, shards);
    PartsTile(data, 0, shardSize, shards);
    assert Clip(data, 0, Times(shards, shardSize)) == data;
  }

  lemma SingleChunkParts<T>(data: seq<T>, shardSize: nat, shards: nat)
    ensures AllShards(data, |data|, shardSize, shards, 1) == Parts(data, 0, shardSize, shards)
  {
    hide ShardRows, Block;
    forall s | 0 <= s < shards
      ensures AllShards(data, |data|, shardSize, shards, 1)[s] == Parts(data, 0, shardSize, shards)[s]
    {
      SingleChunk(data, shardSize, s);
    }
  }
}
