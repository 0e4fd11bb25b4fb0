/** Sequence packing: dealing bins over the shards. */
module SequencePacking {
  import opened Wrappers
  import opened Arith
  import opened Seqs
  import opened Batches
  import opened Packing

  // The bins of every chunk are dealt over the shards, which gives each shard its rows, its
  // microbatches and the order in which reorder_data puts the rows back.

  // ---------------------------------------------------------------- padded lengths

  // A length rounded up to the padding multiple.
  function Padded(length: nat, pad: nat): (r: nat)
    requires pad > 0
    ensures length <= r < length + pad && r % pad == 0
  {
    CeilDiv(length, pad);
    DivModUnique((length + pad - 1) / pad * pad, pad, (length + pad - 1) / pad, 0);
    (length + pad - 1) / pad * pad
  }

  lemma MultiplesAdd(a: nat, b: nat, k: nat)
    requires k > 0 && a % k == 0 && b % k == 0
    ensures (a + b) % k == 0
  {
    var p, q := a / k, b / k;
    assert a == p * k && b == q * k;
    assert a + b == (p + q) * k;
    DivModUnique(a + b, k, p + q, 0);
  }

  // A sum of multiples of the padding multiple is one.
  lemma {:induction false} BinSumMultiple(bin: seq<nat>, lens: seq<nat>, k: nat)
    requires k > 0 && forall i :: 0 <= i < |lens| ==> lens[i] % k == 0
    ensures BinSum(bin, lens) % k == 0
  {
    if |bin| > 0 {
      BinSumMultiple(bin[..|bin| - 1], lens, k);
      var x := bin[|bin| - 1];
      MultiplesAdd(BinSum(bin[..|bin| - 1], lens), if x < |lens| then lens[x] else 0, k);
    }
  }

  // The padded lengths of one chunk, by position in the chunk.
  function ChunkPadded<T>(rows: seq<Row<T>>, batchSize: nat, c: nat, pad: nat): (r: seq<nat>)
    requires pad > 0 && |rows| >= Times(c + 1, batchSize)
    ensures |r| == batchSize
    ensures forall i :: 0 <= i < batchSize ==> r[i] == Padded(rows[Times(c, batchSize) + i].length, pad)
  {
    TimesSucc(c, batchSize);
    seq<nat>(batchSize, i requires 0 <= i < batchSize => Padded(rows[Times(c, batchSize) + i].length, pad))
  }

  // ---------------------------------------------------------------- which bins and rows a shard receives

  // The bins of one chunk that go to shard s: every k-th bin.
  function Hand(bins: seq<seq<nat>>, k: nat, s: nat): seq<seq<nat>>
    requires s < k
  {
    Deal(bins, k)[s]
  }

  // Positions in the batch of the rows of one chunk that go to shard s.
  function Part(bins: seq<seq<nat>>, k: nat, s: nat, start: nat): seq<nat>
    requires s < k
  {
    Shift(Flatten(Hand(bins, k, s)), start)
  }

  // Positions of the rows of shard s after the first n chunks.
  function ShardIndices(bins: seq<seq<seq<nat>>>, batchSize: nat, k: nat, s: nat, n: nat): seq<nat>
    requires s < k && n <= |bins|
  {
    if n == 0 then []
    else ShardIndices(bins, batchSize, k, s, n - 1) + Part(bins[n - 1], k, s, Times(n - 1, batchSize))
  }

  function ChunkParts(bins: seq<seq<nat>>, k: nat, start: nat): (r: seq<seq<nat>>)
    ensures |r| == k && forall s :: 0 <= s < k ==> r[s] == Part(bins, k, s, start)
  {
    seq(k, s requires 0 <= s < k => Part(bins, k, s, start))
  }

  function AllIndices(bins: seq<seq<seq<nat>>>, batchSize: nat, k: nat, n: nat): (r: seq<seq<nat>>)
    requires n <= |bins|
    ensures |r| == k && forall s :: 0 <= s < k ==> r[s] == ShardIndices(bins, batchSize, k, s, n)
  {
    seq(k, s requires 0 <= s < k => ShardIndices(bins, batchSize, k, s, n))
  }

  // Every chunk's bins hold each position of the chunk once.
  ghost predicate Covers(bins: seq<seq<seq<nat>>>, batchSize: nat) {
    forall c :: 0 <= c < |bins| ==> IsPermutation(Flatten(bins[c]), batchSize)
  }

  lemma ShiftConcat(a: seq<nat>, b: seq<nat>, start: nat)
    ensures Shift(a + b, start) == Shift(a, start) + Shift(b, start)
  {
  }

  // One more bin extends one shard's part.
  lemma PartsGrow(bins: seq<seq<nat>>, bin: seq<nat>, k: nat, start: nat)
    requires k > 0
    ensures var hand := |bins| % k;
            && hand < k
            && ChunkParts(bins + [bin], k, start)
               == ChunkParts(bins, k, start)[hand := Part(bins, k, hand, start) + Shift(bin, start)]
  {
    var hand := |bins| % k;
    DealSnoc(bins, bin, k);
    hide Deal, Shift;
    FlattenSnoc(Hand(bins, k, hand), bin);
    ShiftConcat(Flatten(Hand(bins, k, hand)), bin, start);
    hide Flatten;
  }

  // All shards together receive the rows of the chunk's bins.
  lemma {:induction false} PartsConserve(bins: seq<seq<nat>>, k: nat, start: nat)
    requires k > 0
    ensures multiset(Flatten(ChunkParts(bins, k, start))) == multiset(Shift(Flatten(bins), start))
  {
    if |bins| == 0 {
      NothingDealt(k, start);
      assert bins == [];
    } else {
      var before, bin := bins[..|bins| - 1], bins[|bins| - 1];
      assert bins == before + [bin];
      hide Shift, Flatten, ChunkParts;
      PartsConserve(before, k, start);
      PartsGrow(before, bin, k, start);
      FlattenGrow(ChunkParts(before, k, start), |before| % k, Shift(bin, start));
      FlattenSnoc(before, bin);
      ShiftConcat(Flatten(before), bin, start);
    }
  }

  lemma NothingDealt(k: nat, start: nat)
    requires k > 0
    ensures Flatten(ChunkParts([], k, start)) == [] == Shift(Flatten([]), start)
  {
    assert ChunkParts([], k, start) == seq<seq<nat>>(k, _ => []);
    FlattenEmpty<nat>(k);
  }

  // batch_sorted_indices, the shards' positions one shard after the other, is a permutation.
  lemma {:induction false} IndicesPermute(bins: seq<seq<seq<nat>>>, batchSize: nat, k: nat, n: nat)
    requires k > 0 && n <= |bins| && Covers(bins, batchSize)
    ensures IsPermutation(Flatten(AllIndices(bins, batchSize, k, n)), Times(n, batchSize))
  {
    hide Flatten, AllIndices, IsPermutation;
    if n == 0 {
      NoIndices(bins, batchSize, k);
    } else {
      IndicesPermute(bins, batchSize, k, n - 1);
      IndicesStep(bins, batchSize, k, n - 1);
    }
  }

  lemma NoIndices(bins: seq<seq<seq<nat>>>, batchSize: nat, k: nat)
    requires k > 0
    ensures IsPermutation(Flatten(AllIndices(bins, batchSize, k, 0)), 0)
  {
    assert AllIndices(bins, batchSize, k, 0) == seq<seq<nat>>(k, _ => []);
    FlattenEmpty<nat>(k);
  }

  lemma IndicesStep(bins: seq<seq<seq<nat>>>, batchSize: nat, k: nat, n: nat)
    requires k > 0 && n < |bins| && Covers(bins, batchSize)
    requires IsPermutation(Flatten(AllIndices(bins, batchSize, k, n)), Times(n, batchSize))
    ensures IsPermutation(Flatten(AllIndices(bins, batchSize, k, n + 1)), Times(n + 1, batchSize))
  {
    hide Part, Flatten, Shift;
    var start := Times(n, batchSize);
    FlattenZip(AllIndices(bins, batchSize, k, n), ChunkParts(bins[n], k, start), AllIndices(bins, batchSize, k, n + 1));
    hide ShardIndices;
    PartsConserve(bins[n], k, start);
    ShiftPermutation(Flatten(AllIndices(bins, batchSize, k, n)), start, Flatten(bins[n]), batchSize);
    TimesSucc(n, batchSize);
  }

  // ---------------------------------------------------------------- microbatches

  // One after the other, a range as long as each bin.
  function Ranges(bins: seq<seq<nat>>): (r: seq<Range>)
    ensures |r| == |bins|
  {
    if |bins| == 0 then []
    else
      var before := bins[..|bins| - 1];
      Ranges(before) + [Range(|Flatten(before)|, |Flatten(before)| + |bins[|bins| - 1]|)]
  }

  // The padded length of each bin.
  function BinLengths(bins: seq<seq<nat>>, padded: seq<nat>): (r: seq<nat>)
    ensures |r| == |bins| && forall b :: 0 <= b < |bins| ==> r[b] == BinSum(bins[b], padded)
  {
    seq(|bins|, b requires 0 <= b < |bins| => BinSum(bins[b], padded))
  }

  // The ranges tile the rows of the bins, and the b-th range cuts out exactly the b-th bin.
  lemma {:induction false} RangesTile(bins: seq<seq<nat>>, b: nat)
    requires b < |bins|
    ensures var r := Ranges(bins);
            && r[b].start <= r[b].end <= |Flatten(bins)|
            && Flatten(bins)[r[b].start..r[b].end] == bins[b]
            && r[b].start == (if b == 0 then 0 else r[b - 1].end)
            && (b == |bins| - 1 ==> r[b].end == |Flatten(bins)|)
  {
    var before, last := bins[..|bins| - 1], bins[|bins| - 1];
    if b < |bins| - 1 {
      RangesTile(before, b);
    } else if b > 0 {
      RangesTile(before, b - 1);
    }
  }

  // ---------------------------------------------------------------- dealing the bins of one chunk

  // The lists that the dealing loop keeps for one shard: its rows batch by batch, their positions,
  // and the microbatches of the current chunk.
  datatype Dealing<T> = Dealing(data: seq<seq<Row<T>>>, indices: seq<nat>, micro: seq<Range>, lengths: seq<nat>)

  // After dealing `bins` of a chunk to a shard that held the rows at `before`.
  ghost predicate Dealt<T>(
      d: Dealing<T>, rows: seq<Row<T>>, before: seq<nat>, hand: seq<seq<nat>>, start: nat, padded: seq<nat>)
  {
    && d.indices == before + Shift(Flatten(hand), start)
    && Below(d.indices, |rows|)
    && Flatten(d.data) == Gather(rows, d.indices)
    && d.micro == Ranges(hand)
    && d.lengths == BinLengths(hand, padded)
  }

  ghost predicate AllDealt<T>(
      ds: seq<Dealing<T>>, rows: seq<Row<T>>, before: seq<seq<nat>>, bins: seq<seq<nat>>, k: nat, start: nat, padded: seq<nat>)
  {
    && |ds| == |before| == k
    && forall s :: 0 <= s < k ==> Dealt(ds[s], rows, before[s], Hand(bins, k, s), start, padded)
  }

  method SumPadded<T>(rows: seq<Row<T>>, bin: seq<nat>, start: nat, pad: nat, ghost padded: seq<nat>) returns (total: nat)
    requires pad > 0 && Below(bin, |padded|) && start + |padded| <= |rows|
    requires forall i :: 0 <= i < |padded| ==> padded[i] == Padded(rows[start + i].length, pad)
    ensures total == BinSum(bin, padded)
  {
    total := 0;
    for j := 0 to |bin|
      invariant total == BinSum(bin[..j], padded)
    {
      assert bin[..j + 1] == bin[..j] + [bin[j]];
      BinSumSnoc(bin[..j], bin[j], padded);
      total := total + Padded(rows[start + bin[j]].length, pad);
    }
    assert bin[..|bin|] == bin;
  }

  // One bin goes to one shard.
  method DealBin<T>(d: Dealing<T>, rows: seq<Row<T>>, bin: seq<nat>, start: nat, pad: nat,
                    ghost before: seq<nat>, ghost hand: seq<seq<nat>>, ghost padded: seq<nat>)
    returns (d': Dealing<T>)
    requires pad > 0 && Below(bin, |padded|) && start + |padded| <= |rows|
    requires forall i :: 0 <= i < |padded| ==> padded[i] == Padded(rows[start + i].length, pad)
    requires Dealt(d, rows, before, hand, start, padded)
    ensures Dealt(d', rows, before, hand + [bin], start, padded)
  {
    var globalBin := Shift(bin, start);
    var total := SumPadded(rows, bin, start, pad, padded);
    var prevEnd := 0;
    if |d.micro| > 0 {
      prevEnd := d.micro[|d.micro| - 1].end;
    }
    d' := Dealing(d.data + [Gather(rows, globalBin)], d.indices + globalBin,
                  d.micro + [Range(prevEnd, prevEnd + |bin|)], d.lengths + [total]);
    RangesEnd(hand);
    RangesSnoc(hand, bin);
    DealBinRows(d, rows, bin, start, before, hand, padded);
    hide Flatten, Ranges, BinSum;
    assert BinLengths(hand + [bin], padded) == BinLengths(hand, padded) + [BinSum(bin, padded)];
  }

  // The end of the ranges so far is where the next range starts.
  lemma RangesSnoc(hand: seq<seq<nat>>, bin: seq<nat>)
    ensures Ranges(hand + [bin]) == Ranges(hand) + [Range(|Flatten(hand)|, |Flatten(hand)| + |bin|)]
  {
    hide Flatten;
    assert (hand + [bin])[..|hand|] == hand;
  }

  lemma RangesEnd(hand: seq<seq<nat>>)
    ensures |Flatten(hand)| == if |hand| == 0 then 0 else Ranges(hand)[|hand| - 1].end
  {
  }

  lemma DealBinRows<T>(d: Dealing<T>, rows: seq<Row<T>>, bin: seq<nat>, start: nat,
                       before: seq<nat>, hand: seq<seq<nat>>, padded: seq<nat>)
    requires Below(bin, |padded|) && start + |padded| <= |rows| && Dealt(d, rows, before, hand, start, padded)
    ensures d.indices + Shift(bin, start) == before + Shift(Flatten(hand + [bin]), start)
    ensures Below(d.indices + Shift(bin, start), |rows|)
    ensures Below(Shift(bin, start), |rows|)
    ensures Flatten(d.data + [Gather(rows, Shift(bin, start))]) == Gather(rows, d.indices + Shift(bin, start))
  {
    hide Ranges, BinLengths;
    FlattenSnoc(hand, bin);
    FlattenSnoc(d.data, Gather(rows, Shift(bin, start)));
    hide Flatten;
    ShiftConcat(Flatten(hand), bin, start);
    GatherConcat(rows, d.indices, Shift(bin, start));
    hide Gather, Shift;
    assert before + Shift(Flatten(hand), start) + Shift(bin, start) == before + (Shift(Flatten(hand), start) + Shift(bin, start));
  }

  // The loop over the bins of a chunk.
  method DealChunk<T>(held: seq<Dealing<T>>, rows: seq<Row<T>>, bins: seq<seq<nat>>, k: nat, start: nat, pad: nat,
                      ghost before: seq<seq<nat>>, ghost padded: seq<nat>)
    returns (ds: seq<Dealing<T>>)
    requires k > 0 && pad > 0 && start + |padded| <= |rows|
    requires forall i :: 0 <= i < |padded| ==> padded[i] == Padded(rows[start + i].length, pad)
    requires forall b :: 0 <= b < |bins| ==> Below(bins[b], |padded|)
    requires AllDealt(held, rows, before, [], k, start, padded)
    ensures AllDealt(ds, rows, before, bins, k, start, padded)
  {
    hide Dealt, Hand, Padded, Below;
    ds := held;
    for b := 0 to |bins|
      invariant AllDealt(ds, rows, before, bins[..b], k, start, padded)
    {
      var s := b % k;
      var d := DealBin(ds[s], rows, bins[b], start, pad, before[s], Hand(bins[..b], k, s), padded);
      DealtStep(ds, d, rows, before, bins[..b], bins[b], k, start, padded);
      assert bins[..b + 1] == bins[..b] + [bins[b]];
      ds := ds[s := d];
    }
    assert bins[..|bins|] == bins;
  }

  lemma DealtStep<T>(ds: seq<Dealing<T>>, d: Dealing<T>, rows: seq<Row<T>>, before: seq<seq<nat>>,
                     bins: seq<seq<nat>>, bin: seq<nat>, k: nat, start: nat, padded: seq<nat>)
    requires k > 0 && AllDealt(ds, rows, before, bins, k, start, padded)
    requires var s := |bins| % k;
             s < k && Dealt(d, rows, before[s], Hand(bins, k, s) + [bin], start, padded)
    ensures |bins| % k < k && AllDealt(ds[|bins| % k := d], rows, before, bins + [bin], k, start, padded)
  {
    DealSnoc(bins, bin, k);
    hide Dealt, Deal;
  }

  // ---------------------------------------------------------------- the shards

  // The lists kept for one shard over the whole batch.
  datatype Lists<T> = Lists(
    data: seq<seq<Row<T>>>, indices: seq<nat>,
    micro: seq<seq<Range>>, lengths: seq<seq<nat>>, counts: seq<nat>)

  // The layout that shard s has of chunk c.
  ghost predicate ChunkLayout<T>(
      micro: seq<Range>, lengths: seq<nat>, count: nat, rows: seq<Row<T>>, bins: seq<seq<nat>>,
      batchSize: nat, k: nat, pad: nat, c: nat, s: nat)
    requires s < k && pad > 0 && |rows| >= Times(c + 1, batchSize)
  {
    && micro == Ranges(Hand(bins, k, s))
    && lengths == BinLengths(Hand(bins, k, s), ChunkPadded(rows, batchSize, c, pad))
    && count == |Flatten(Hand(bins, k, s))|
  }

  // What shard s holds after the first n chunks.
  ghost predicate Holds<T>(
      l: Lists<T>, rows: seq<Row<T>>, bins: seq<seq<seq<nat>>>, batchSize: nat, k: nat, pad: nat, s: nat, n: nat)
    requires s < k && pad > 0 && n <= |bins| && |rows| == Times(|bins|, batchSize)
  {
    && l.indices == ShardIndices(bins, batchSize, k, s, n)
    && Below(l.indices, |rows|)
    && Flatten(l.data) == Gather(rows, l.indices)
    && |l.micro| == |l.lengths| == |l.counts| == n
    && forall c :: 0 <= c < n ==>
         ChunkAt(l.micro[c], l.lengths[c], l.counts[c], rows, bins, batchSize, k, pad, c, s)
  }

  ghost predicate ChunkAt<T>(
      micro: seq<Range>, lengths: seq<nat>, count: nat, rows: seq<Row<T>>, bins: seq<seq<seq<nat>>>,
      batchSize: nat, k: nat, pad: nat, c: nat, s: nat)
    requires s < k && pad > 0 && c < |bins| && |rows| == Times(|bins|, batchSize)
  {
    TimesFits(batchSize, |bins|, c);
    ChunkLayout(micro, lengths, count, rows, bins[c], batchSize, k, pad, c, s)
  }

  ghost predicate AllHold<T>(
      ls: seq<Lists<T>>, rows: seq<Row<T>>, bins: seq<seq<seq<nat>>>, batchSize: nat, k: nat, pad: nat, n: nat)
    requires pad > 0 && n <= |bins| && |rows| == Times(|bins|, batchSize)
  {
    |ls| == k && forall s :: 0 <= s < k ==> Holds(ls[s], rows, bins, batchSize, k, pad, s, n)
  }

  // A whole number of rounds of k bins.
  ghost predicate WholeRounds(bins: seq<seq<nat>>, k: nat) {
    exists rounds: nat :: rounds > 0 && |bins| == Times(rounds, k)
  }

  // The bins of every chunk: a packing of its padded lengths into a multiple of k bins.
  ghost predicate Assigned<T>(
      bins: seq<seq<seq<nat>>>, rows: seq<Row<T>>, batchSize: nat, k: nat, pad: nat, cap: int, n: nat)
    requires pad > 0 && |rows| >= Times(n, batchSize)
  {
    |bins| == n && forall c :: 0 <= c < n ==> AssignedAt(bins[c], rows, batchSize, k, pad, cap, c, n)
  }

  ghost predicate AssignedAt<T>(
      bins: seq<seq<nat>>, rows: seq<Row<T>>, batchSize: nat, k: nat, pad: nat, cap: int, c: nat, n: nat)
    requires pad > 0 && c < n && |rows| >= Times(n, batchSize)
  {
    TimesFits(batchSize, n, c);
    && IsPacking(bins, ChunkPadded(rows, batchSize, c, pad), cap)
    && WholeRounds(bins, k)
  }

  lemma HandNotEmpty<T>(
      bins: seq<seq<nat>>, rows: seq<Row<T>>, batchSize: nat, k: nat, pad: nat, cap: int, c: nat, n: nat, s: nat)
    requires pad > 0 && c < n && |rows| >= Times(n, batchSize) && s < k
    requires AssignedAt(bins, rows, batchSize, k, pad, cap, c, n)
    ensures |Hand(bins, k, s)| > 0
  {
    var rounds: nat :| rounds > 0 && |bins| == Times(rounds, k);
    DealEven(bins, k, rounds, s);
  }

  // The bins hold positions of the chunk only.
  lemma BinsBelow<T>(bins: seq<seq<nat>>, rows: seq<Row<T>>, batchSize: nat, k: nat, pad: nat, cap: int, c: nat, n: nat)
    requires pad > 0 && c < n && |rows| >= Times(n, batchSize)
    requires AssignedAt(bins, rows, batchSize, k, pad, cap, c, n)
    ensures IsPermutation(Flatten(bins), batchSize)
    ensures forall b :: 0 <= b < |bins| ==> Below(bins[b], batchSize)
  {
    TimesFits(batchSize, n, c);
    PackedAll(bins, ChunkPadded(rows, batchSize, c, pad), cap);
    PermutationBounds(Flatten(bins), batchSize);
    hide IsPacking, Flatten, IsPermutation;
    forall b, i | 0 <= b < |bins| && 0 <= i < |bins[b]| ensures bins[b][i] < batchSize {
      FlattenMember(bins, b, bins[b][i]);
      assert bins[b][i] in Flatten(bins);
    }
  }

  // At the end of a chunk its microbatches join the lists of a shard.
  method CloseChunk<T>(l: Lists<T>, d: Dealing<T>, ghost rows: seq<Row<T>>, ghost bins: seq<seq<seq<nat>>>,
                       ghost batchSize: nat, ghost k: nat, ghost pad: nat, ghost s: nat, ghost c: nat)
    returns (l': Lists<T>)
    requires s < k && pad > 0 && c < |bins| && |rows| == Times(|bins|, batchSize) >= Times(c + 1, batchSize)
    requires Holds(l, rows, bins, batchSize, k, pad, s, c) && |Hand(bins[c], k, s)| > 0
    requires Dealt(d, rows, l.indices, Hand(bins[c], k, s), Times(c, batchSize), ChunkPadded(rows, batchSize, c, pad))
    ensures Holds(l', rows, bins, batchSize, k, pad, s, c + 1)
  {
    hide Ranges, BinLengths, Flatten, Hand, Shift, ChunkPadded, Gather, Times, Holds;
    var count := d.micro[|d.micro| - 1].end;
    RangesEnd(Hand(bins[c], k, s));
    ClosedHolds(l, d, rows, bins, batchSize, k, pad, s, c, count);
    l' := Lists(d.data, d.indices, l.micro + [d.micro], l.lengths + [d.lengths], l.counts + [count]);
  }

  lemma ClosedHolds<T>(l: Lists<T>, d: Dealing<T>, rows: seq<Row<T>>, bins: seq<seq<seq<nat>>>,
                       batchSize: nat, k: nat, pad: nat, s: nat, c: nat, count: nat)
    requires s < k && pad > 0 && c < |bins| && |rows| == Times(|bins|, batchSize) >= Times(c + 1, batchSize)
    requires Holds(l, rows, bins, batchSize, k, pad, s, c) && count == |Flatten(Hand(bins[c], k, s))|
    requires Dealt(d, rows, l.indices, Hand(bins[c], k, s), Times(c, batchSize), ChunkPadded(rows, batchSize, c, pad))
    ensures Holds(Lists(d.data, d.indices, l.micro + [d.micro], l.lengths + [d.lengths], l.counts + [count]),
                  rows, bins, batchSize, k, pad, s, c + 1)
  {
    hide Ranges, BinLengths, Flatten, Hand, Shift, ChunkPadded, Gather, Times, ChunkAt;
    assert ChunkAt(d.micro, d.lengths, count, rows, bins, batchSize, k, pad, c, s) by {
      ChunkClosed(d, rows, l.indices, bins, batchSize, k, pad, s, c, count);
    }
  }

  lemma ChunkClosed<T>(d: Dealing<T>, rows: seq<Row<T>>, before: seq<nat>, bins: seq<seq<seq<nat>>>,
                       batchSize: nat, k: nat, pad: nat, s: nat, c: nat, count: nat)
    requires s < k && pad > 0 && c < |bins| && |rows| == Times(|bins|, batchSize) >= Times(c + 1, batchSize)
    requires count == |Flatten(Hand(bins[c], k, s))|
    requires Dealt(d, rows, before, Hand(bins[c], k, s), Times(c, batchSize), ChunkPadded(rows, batchSize, c, pad))
    ensures ChunkAt(d.micro, d.lengths, count, rows, bins, batchSize, k, pad, c, s)
  {
    hide Ranges, BinLengths, Flatten, Hand, Shift, Gather, Times;
  }

  // One round of the loop over the chunks.
  method AddChunk<T>(ls: seq<Lists<T>>, rows: seq<Row<T>>, bins: seq<seq<seq<nat>>>, batchSize: nat, k: nat, pad: nat,
                     c: nat, ghost cap: int)
    returns (ls': seq<Lists<T>>)
    requires k > 0 && pad > 0 && c < |bins| && |rows| == Times(|bins|, batchSize)
    requires Assigned(bins, rows, batchSize, k, pad, cap, |bins|) && AllHold(ls, rows, bins, batchSize, k, pad, c)
    ensures AllHold(ls', rows, bins, batchSize, k, pad, c + 1)
  {
    hide Holds, Dealt, Hand, AssignedAt, Below, IsPermutation;
    TimesFits(batchSize, |bins|, c);
    TimesSucc(c, batchSize);
    var start := Times(c, batchSize);
    ghost var padded := ChunkPadded(rows, batchSize, c, pad);
    assert AssignedAt(bins[c], rows, batchSize, k, pad, cap, c, |bins|);
    BinsBelow(bins[c], rows, batchSize, k, pad, cap, c, |bins|);
    var held := seq(k, s requires 0 <= s < k && s < |ls| => Dealing(ls[s].data, ls[s].indices, [], []));
    ghost var before := seq(k, s requires 0 <= s < k && s < |ls| => ls[s].indices);
    StartChunk(ls, rows, bins, batchSize, k, pad, c, held, before, padded);
    var ds := DealChunk(held, rows, bins[c], k, start, pad, before, padded);
    ls' := [];
    for s := 0 to k
      invariant |ls'| == s
      invariant forall t :: 0 <= t < s ==> Holds(ls'[t], rows, bins, batchSize, k, pad, t, c + 1)
    {
      HandNotEmpty(bins[c], rows, batchSize, k, pad, cap, c, |bins|, s);
      assert Dealt(ds[s], rows, before[s], Hand(bins[c], k, s), start, padded);
      var l := CloseChunk(ls[s], ds[s], rows, bins, batchSize, k, pad, s, c);
      ls' := ls' + [l];
    }
  }

  lemma StartChunk<T>(ls: seq<Lists<T>>, rows: seq<Row<T>>, bins: seq<seq<seq<nat>>>, batchSize: nat, k: nat, pad: nat,
                      c: nat, held: seq<Dealing<T>>, before: seq<seq<nat>>, padded: seq<nat>)
    requires k > 0 && pad > 0 && c < |bins| && |rows| == Times(|bins|, batchSize)
    requires AllHold(ls, rows, bins, batchSize, k, pad, c)
    requires |held| == |before| == k
    requires forall s :: 0 <= s < k ==> held[s] == Dealing(ls[s].data, ls[s].indices, [], []) && before[s] == ls[s].indices
    ensures AllDealt(held, rows, before, [], k, Times(c, batchSize), padded)
  {
    forall s | 0 <= s < k ensures Dealt(held[s], rows, before[s], Hand([], k, s), Times(c, batchSize), padded) {
      assert Holds(ls[s], rows, bins, batchSize, k, pad, s, c);
      assert Hand([], k, s) == [];
    }
  }

  // ---------------------------------------------------------------- the packed shards

  // The shard that the packing branch builds at position s.
  ghost predicate IsPackedShard<T>(
      shard: Shard<T>, rows: seq<Row<T>>, bins: seq<seq<seq<nat>>>, batchSize: nat, k: nat, pad: nat, s: nat)
    requires s < k && pad > 0 && |rows| == Times(|bins|, batchSize)
  {
    && var idx := ShardIndices(bins, batchSize, k, s, |bins|);
    && Below(idx, |rows|) && shard.rows == Gather(rows, idx)
    && shard.microIndices.Some? && shard.microLengths.Some? && shard.elemCounts.Some?
    && |shard.microIndices.value| == |shard.microLengths.value| == |shard.elemCounts.value| == |bins|
    && forall c :: 0 <= c < |bins| ==>
         ChunkAt(shard.microIndices.value[c], shard.microLengths.value[c], shard.elemCounts.value[c],
                 rows, bins, batchSize, k, pad, c, s)
  }

  ghost predicate ArePackedShards<T>(
      shards: seq<Shard<T>>, rows: seq<Row<T>>, bins: seq<seq<seq<nat>>>, batchSize: nat, k: nat, pad: nat)
    requires pad > 0 && |rows| == Times(|bins|, batchSize)
  {
    |shards| == k && forall s :: 0 <= s < k ==> IsPackedShard(shards[s], rows, bins, batchSize, k, pad, s)
  }

  method ShardPacked<T>(rows: seq<Row<T>>, bins: seq<seq<seq<nat>>>, batchSize: nat, k: nat, pad: nat, ghost cap: int)
    returns (shards: seq<Shard<T>>, batchSortedIndices: seq<nat>)
    requires k > 0 && pad > 0 && |rows| == Times(|bins|, batchSize)
    requires Assigned(bins, rows, batchSize, k, pad, cap, |bins|)
    ensures ArePackedShards(shards, rows, bins, batchSize, k, pad)
    ensures batchSortedIndices == Flatten(AllIndices(bins, batchSize, k, |bins|))
  {
    hide Assigned, ChunkAt, ShardIndices, Below;
    var ls: seq<Lists<T>> := seq(k, _ => Lists([], [], [], [], []));
    EmptyLists(ls, rows, bins, batchSize, k, pad);
    for c := 0 to |bins|
      invariant AllHold(ls, rows, bins, batchSize, k, pad, c)
    {
      ls := AddChunk(ls, rows, bins, batchSize, k, pad, c, cap);
    }
    batchSortedIndices := [];
    shards := [];
    ghost var all := AllIndices(bins, batchSize, k, |bins|);
    for s := 0 to k
      invariant batchSortedIndices == Flatten(all[..s])
      invariant |shards| == s && forall t :: 0 <= t < s ==> IsPackedShard(shards[t], rows, bins, batchSize, k, pad, t)
    {
      assert Holds(ls[s], rows, bins, batchSize, k, pad, s, |bins|);
      FlattenSnoc(all[..s], all[s]);
      assert all[..s + 1] == all[..s] + [all[s]];
      batchSortedIndices := batchSortedIndices + ls[s].indices;
      shards := shards + [Shard(Flatten(ls[s].data), Some(ls[s].micro), Some(ls[s].lengths), Some(ls[s].counts))];
    }
    assert all[..k] == all;
  }

  lemma EmptyLists<T>(ls: seq<Lists<T>>, rows: seq<Row<T>>, bins: seq<seq<seq<nat>>>, batchSize: nat, k: nat, pad: nat)
    requires pad > 0 && |rows| == Times(|bins|, batchSize)
    requires |ls| == k && forall s :: 0 <= s < k ==> ls[s] == Lists([], [], [], [], [])
    ensures AllHold(ls, rows, bins, batchSize, k, pad, 0)
  {
  }

  // ---------------------------------------------------------------- the round trip, for any number of chunks

  function RowsOf<T>(shards: seq<Shard<T>>): (r: seq<seq<Row<T>>>)
    ensures |r| == |shards| && forall s :: 0 <= s < |shards| ==> r[s] == shards[s].rows
  {
    seq(|shards|, s requires 0 <= s < |shards| => shards[s].rows)
  }

  lemma {:induction false} FlattenGather<X>(data: seq<X>, idxs: seq<seq<nat>>, parts: seq<seq<X>>)
    requires |idxs| == |parts|
    requires forall s :: 0 <= s < |idxs| ==> Below(idxs[s], |data|) && parts[s] == Gather(data, idxs[s])
    ensures Below(Flatten(idxs), |data|)
    ensures Flatten(parts) == Gather(data, Flatten(idxs))
  {
    if |idxs| > 0 {
      var n := |idxs| - 1;
      hide Gather;
      FlattenGather(data, idxs[..n], parts[..n]);
      GatherConcat(data, Flatten(idxs[..n]), idxs[n]);
    }
  }

  lemma AssignedCovers<T>(bins: seq<seq<seq<nat>>>, rows: seq<Row<T>>, batchSize: nat, k: nat, pad: nat, cap: int)
    requires pad > 0 && |rows| == Times(|bins|, batchSize) && Assigned(bins, rows, batchSize, k, pad, cap, |bins|)
    ensures Covers(bins, batchSize)
  {
    hide AssignedAt, Flatten, IsPermutation;
    forall c | 0 <= c < |bins| ensures IsPermutation(Flatten(bins[c]), batchSize) {
      BinsBelow(bins[c], rows, batchSize, k, pad, cap, c, |bins|);
    }
  }

  // batch_sorted_indices is a permutation of the rows, the shards one after the other are the rows
  // in that order, and reorder_data restores the batch.
  lemma PackedRoundTrip<T>(
      shards: seq<Shard<T>>, rows: seq<Row<T>>, bins: seq<seq<seq<nat>>>, batchSize: nat, k: nat, pad: nat, cap: int)
    requires k > 0 && pad > 0 && |rows| == Times(|bins|, batchSize)
    requires Assigned(bins, rows, batchSize, k, pad, cap, |bins|) && ArePackedShards(shards, rows, bins, batchSize, k, pad)
    ensures var idx := Flatten(AllIndices(bins, batchSize, k, |bins|));
            && IsPermutation(idx, |rows|) && Below(idx, |rows|)
            && Flatten(RowsOf(shards)) == Gather(rows, idx)
            && Reordered(Flatten(RowsOf(shards)), idx) == rows
  {
    hide Flatten, IsPermutation, Assigned, ShardIndices, ChunkAt, Gather, ArgSort, Covers;
    var all := AllIndices(bins, batchSize, k, |bins|);
    AssignedCovers(bins, rows, batchSize, k, pad, cap);
    IndicesPermute(bins, batchSize, k, |bins|);
    forall s | 0 <= s < k ensures Below(all[s], |rows|) && RowsOf(shards)[s] == Gather(rows, all[s]) {
      assert IsPackedShard(shards[s], rows, bins, batchSize, k, pad, s);
    }
    FlattenGather(rows, all, RowsOf(shards));
    ReorderUndoes(rows, Flatten(all));
  }

  // ---------------------------------------------------------------- global batches

  // The element counts locate the rows of a chunk in a shard.
  lemma {:induction false} CountsLocate(bins: seq<seq<seq<nat>>>, batchSize: nat, k: nat, s: nat, n: nat, c: nat, counts: seq<nat>)
    requires s < k && c < n <= |bins| == |counts|
    requires forall d :: 0 <= d < n ==> counts[d] == |Part(bins[d], k, s, Times(d, batchSize))|
    ensures PrefixSum(counts, c) <= PrefixSum(counts, c + 1) <= PrefixSum(counts, n) == |ShardIndices(bins, batchSize, k, s, n)|
    ensures ShardIndices(bins, batchSize, k, s, n)[PrefixSum(counts, c)..PrefixSum(counts, c + 1)]
         == Part(bins[c], k, s, Times(c, batchSize))
    decreases n
  {
    hide Part, Times;
    var before, last := ShardIndices(bins, batchSize, k, s, n - 1), Part(bins[n - 1], k, s, Times(n - 1, batchSize));
    if c < n - 1 {
      CountsLocate(bins, batchSize, k, s, n - 1, c, counts);
      PrefixSlice(before, last, PrefixSum(counts, c), PrefixSum(counts, c + 1));
    } else {
      PrefixCounts(bins, batchSize, k, s, n - 1, counts);
      SliceOfSuffix(before, last);
    }
  }

  lemma {:induction false} PrefixCounts(bins: seq<seq<seq<nat>>>, batchSize: nat, k: nat, s: nat, n: nat, counts: seq<nat>)
    requires s < k && n <= |bins| == |counts|
    requires forall d :: 0 <= d < n ==> counts[d] == |Part(bins[d], k, s, Times(d, batchSize))|
    ensures PrefixSum(counts, n) == |ShardIndices(bins, batchSize, k, s, n)|
  {
    hide Part, Times;
    if n > 0 {
      PrefixCounts(bins, batchSize, k, s, n - 1, counts);
    }
  }

  lemma GatherSlice<X>(data: seq<X>, idx: seq<nat>, lo: nat, hi: nat)
    requires Below(idx, |data|) && lo <= hi <= |idx|
    ensures Below(idx[lo..hi], |data|) && Gather(data, idx)[lo..hi] == Gather(data, idx[lo..hi])
  {
  }

  // get_batch(c) of a shard answers the rows of the shard's bins of chunk c, with their layout.
  lemma PackedBatch<T>(
      shard: Shard<T>, rows: seq<Row<T>>, bins: seq<seq<seq<nat>>>, batchSize: nat, k: nat, pad: nat, s: nat, c: nat, size: nat)
    requires s < k && pad > 0 && |rows| == Times(|bins|, batchSize) && c < |bins|
    requires IsPackedShard(shard, rows, bins, batchSize, k, pad, s)
    ensures var part := Part(bins[c], k, s, Times(c, batchSize));
            && Below(part, |rows|)
            && BatchOf(shard, c, size) == Ok(Shard(
                 Gather(rows, part),
                 Some([shard.microIndices.value[c]]), Some([shard.microLengths.value[c]]), Some([shard.elemCounts.value[c]])))
  {
    hide Flatten, ShardIndices, Gather, Times, Ranges, BinLengths, Hand, PrefixSum;
    var counts := shard.elemCounts.value;
    forall d | 0 <= d < |bins| ensures counts[d] == |Part(bins[d], k, s, Times(d, batchSize))| {
      assert ChunkAt(shard.microIndices.value[d], shard.microLengths.value[d], counts[d], rows, bins, batchSize, k, pad, d, s);
    }
    CountsLocate(bins, batchSize, k, s, |bins|, c, counts);
    GatherSlice(rows, ShardIndices(bins, batchSize, k, s, |bins|), PrefixSum(counts, c), PrefixSum(counts, c + 1));
  }

  lemma GatherShifted<X>(data: seq<X>, p: seq<nat>, start: nat, n: nat)
    requires start + n <= |data| && Below(p, n)
    ensures Below(Shift(p, start), |data|)
    ensures Gather(data, Shift(p, start)) == Gather(data[start..start + n], p)
  {
  }

  // Together the shards' batches c are exactly the rows of global batch c.
  lemma BatchesUnion<T>(rows: seq<Row<T>>, bins: seq<seq<nat>>, batchSize: nat, k: nat, start: nat, batches: seq<seq<Row<T>>>)
    requires k > 0 && start + batchSize <= |rows| && IsPermutation(Flatten(bins), batchSize)
    requires |batches| == k
    requires forall s :: 0 <= s < k ==> Below(Part(bins, k, s, start), |rows|) && batches[s] == Gather(rows, Part(bins, k, s, start))
    ensures multiset(Flatten(batches)) == multiset(rows[start..start + batchSize])
  {
    hide Flatten, Part, Shift, Gather, IsPermutation;
    var parts := ChunkParts(bins, k, start);
    FlattenGather(rows, parts, batches);
    PartsConserve(bins, k, start);
    PermutationBounds(Flatten(bins), batchSize);
    GatherShifted(rows, Flatten(bins), start, batchSize);
    GatherSameRows(rows, Flatten(parts), Shift(Flatten(bins), start));
    GatherPermutation(rows[start..start + batchSize], Flatten(bins));
  }

  // ---------------------------------------------------------------- microbatches

  // Microbatch b of batch c of shard s is bin s + b * k of chunk c; its recorded length is the sum
  // of its members' padded lengths and within the capacity; every shard has the same number.
  lemma MicrobatchIsBin<T>(
      rows: seq<Row<T>>, bins: seq<seq<nat>>, batchSize: nat, k: nat, pad: nat, cap: int, c: nat, s: nat, b: nat, rounds: nat,
      micro: seq<Range>, lengths: seq<nat>, count: nat)
    requires s < k && pad > 0 && |rows| >= Times(c + 1, batchSize) && b < rounds && |bins| == Times(rounds, k)
    requires IsPacking(bins, ChunkPadded(rows, batchSize, c, pad), cap)
    requires ChunkLayout(micro, lengths, count, rows, bins, batchSize, k, pad, c, s)
    ensures |micro| == |lengths| == rounds && s + Times(b, k) < |bins|
    ensures var bin := bins[s + Times(b, k)];
            var part := Part(bins, k, s, Times(c, batchSize));
            && micro[b].start < micro[b].end <= |part| == count
            && part[micro[b].start..micro[b].end] == Shift(bin, Times(c, batchSize))
            && lengths[b] == BinSum(bin, ChunkPadded(rows, batchSize, c, pad)) <= cap
    ensures lengths[b] % pad == 0
    ensures forall i :: 0 <= i < batchSize ==>
              var length := rows[Times(c, batchSize) + i].length;
              length <= ChunkPadded(rows, batchSize, c, pad)[i] < length + pad && ChunkPadded(rows, batchSize, c, pad)[i] % pad == 0
    ensures micro[b].start == (if b == 0 then 0 else micro[b - 1].end) && (b == rounds - 1 ==> micro[b].end == count)
  {
    hide Ranges, Flatten, BinSum, ChunkPadded, Times, Complete, Padded;
    TimesSucc(c, batchSize);
    DealEven(bins, k, rounds, s);
    BinSumMultiple(bins[s + Times(b, k)], ChunkPadded(rows, batchSize, c, pad), pad);
    var hand := Hand(bins, k, s);
    RangesTile(hand, b);
    assert GoodBin(bins[s + Times(b, k)], ChunkPadded(rows, batchSize, c, pad), cap);
    hide Deal;
    ShiftSlice(Flatten(hand), Times(c, batchSize), micro[b].start, micro[b].end);
  }

}
