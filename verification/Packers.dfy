/** Choosing and running a packer on every chunk of a batch. */
module Packers {
  import opened Wrappers
  import opened Arith
  import opened Seqs
  import opened Batches
  import opened Packing
  import opened BinCounts
  import ModifiedFirstFit
  import opened SequencePacking

  datatype Algorithm = Concatenative | FirstFitDecreasing | FirstFitShuffle | ModifiedFirstFitDecreasing

  datatype PackingFailure = ZeroPad | NotPacked(error: PackError)

  // The lengths that an algorithm accepts.
  ghost predicate Packable(algorithm: Algorithm, lens: seq<nat>, cap: int) {
    && (forall i :: 0 <= i < |lens| ==> lens[i] <= cap)
    && (algorithm.ModifiedFirstFitDecreasing? ==> cap > 0 && forall i :: 0 <= i < |lens| ==> lens[i] > 0)
  }

  lemma RoundsOf(bins: seq<seq<nat>>, k: nat)
    requires k > 0 && |bins| >= k && |bins| % k == 0
    ensures WholeRounds(bins, k)
  {
    var rounds := |bins| / k;
    assert |bins| == rounds * k;
    TimesIsProduct(rounds, k);
  }

  // The bins of a packing can be split until their number is a multiple of the shards.
  predicate Adjustable(bins: nat, sequences: nat, k: nat)
    requires k > 0
  {
    TargetCount(bins, Some(k), Some(k)) <= sequences
  }

  // A chunk whose size is a multiple of the shards always has enough sequences for that.
  lemma MultiplesAdjust(bins: nat, sequences: nat, k: nat)
    requires k > 0 && bins <= sequences && sequences >= k && sequences % k == 0
    ensures Adjustable(bins, sequences, k)
  {
    TargetIsLeast(bins, Some(k), Some(k), sequences);
  }

  // Longest sequence first, and of equally long ones the last.
  ghost predicate Decreasing(order: seq<nat>, lens: seq<nat>) {
    && IsPermutation(order, |lens|) && Below(order, |lens|)
    && forall i, j :: 0 <= i < j < |order| ==>
         lens[order[i]] > lens[order[j]] || (lens[order[i]] == lens[order[j]] && order[i] > order[j])
  }

  // What is particular to the packing of each algorithm.
  ghost predicate PackedBy(algorithm: Algorithm, shuffle: seq<nat>, lens: seq<nat>, cap: int, first: seq<seq<nat>>) {
    match algorithm
    case Concatenative => Flatten(first) == Identity(|lens|) && GreedyCuts(first, lens, cap, -1)
    case FirstFitDecreasing => exists order :: Decreasing(order, lens) && first == PlacedInTurn(order, lens, cap)
    case FirstFitShuffle => Below(shuffle, |lens|) && first == PlacedInTurn(shuffle, lens, cap)
    case ModifiedFirstFitDecreasing => ModifiedFirstFit.PairsOverflow(first, lens, cap)
  }

  lemma ReversedSortDecreases(lens: seq<nat>)
    ensures Decreasing(Reversed(ArgSort(lens, |lens|)), lens)
  {
    var ascending := ArgSort(lens, |lens|);
    ArgSortSorted(lens, |lens|);
    ReversedPermutation(ascending, |lens|);
    hide ArgSort, IsPermutation;
    var order, last := Reversed(ascending), |lens| - 1;
    forall i, j | 0 <= i < j < |order|
      ensures lens[order[i]] > lens[order[j]] || (lens[order[i]] == lens[order[j]] && order[i] > order[j])
    {
      assert Before(lens, ascending[last - j], ascending[last - i]);
    }
  }

  // The algorithm's own packing.
  method RunAlgorithm(algorithm: Algorithm, shuffle: seq<nat>, lens: seq<nat>, cap: int)
    returns (r: Result<seq<seq<nat>>, PackError>)
    requires algorithm.FirstFitShuffle? ==> IsPermutation(shuffle, |lens|)
    ensures r.Ok? <==> Packable(algorithm, lens, cap)
    ensures r.Ok? ==> IsPacking(r.value, lens, cap) && PackedBy(algorithm, shuffle, lens, cap, r.value)
  {
    hide IsPacking, IsPermutation, GreedyCuts, PlacedInTurn, FirstFit, ModifiedFirstFit.PairsOverflow;
    match algorithm {
      case Concatenative =>
        r := ConcatenativePack(lens, cap, -1);
      case FirstFitDecreasing =>
        ReversedSortDecreases(lens);
        r := FirstFitPack(lens, cap, Reversed(ArgSort(lens, |lens|)));
      case FirstFitShuffle =>
        r := FirstFitPack(lens, cap, shuffle);
      case ModifiedFirstFitDecreasing =>
        r := ModifiedFirstFit.Pack(lens, cap);
    }
  }

  // pack: the algorithm, then the adjustment of the number of bins to a multiple of the shards.
  // `first` is the algorithm's own packing.
  method RunPacker(algorithm: Algorithm, shuffle: seq<nat>, lens: seq<nat>, cap: int, k: nat)
    returns (r: Result<seq<seq<nat>>, PackError>, ghost first: seq<seq<nat>>)
    requires k > 0 && (algorithm.FirstFitShuffle? ==> IsPermutation(shuffle, |lens|))
    ensures r.Ok? ==> Packable(algorithm, lens, cap) && IsPacking(r.value, lens, cap) && WholeRounds(r.value, k)
    ensures Packable(algorithm, lens, cap) ==> IsPacking(first, lens, cap) && (r.Ok? <==> Adjustable(|first|, |lens|, k))
    ensures Packable(algorithm, lens, cap) ==> PackedBy(algorithm, shuffle, lens, cap, first)
    ensures r.Ok? ==> OnlyMoved(first, r.value) && FullestFirst(first, r.value)
  {
    hide IsPacking, IsPermutation, WholeRounds, TargetCount, PackedBy, OnlyMoved, FullestFirst;
    first := [];
    var packed := RunAlgorithm(algorithm, shuffle, lens, cap);
    if packed.Err? {
      return packed, first;
    }
    first := packed.value;
    TargetIsLeast(|first|, Some(k), Some(k), 0);
    r := AdjustBinCount(packed.value, Some(k), Some(k), lens, cap);
    if r.Ok? {
      RoundsOf(r.value, k);
    }
  }

  // The padded lengths of one chunk.
  method PadChunk<T>(rows: seq<Row<T>>, batchSize: nat, c: nat, pad: nat) returns (padded: seq<nat>)
    requires pad > 0 && |rows| >= Times(c + 1, batchSize)
    ensures padded == ChunkPadded(rows, batchSize, c, pad)
    ensures |padded| == batchSize && Times(c + 1, batchSize) == Times(c, batchSize) + batchSize
    ensures forall i :: 0 <= i < batchSize ==>
              var length := rows[Times(c, batchSize) + i].length;
              length <= padded[i] < length + pad && padded[i] % pad == 0
  {
    TimesSucc(c, batchSize);
    var chunk := rows[Times(c, batchSize)..Times(c + 1, batchSize)];
    padded := [];
    for i := 0 to |chunk|
      invariant |padded| == i
      invariant forall j :: 0 <= j < i ==> padded[j] == Padded(chunk[j].length, pad)
    {
      padded := padded + [Padded(chunk[i].length, pad)];
    }
  }

  ghost predicate PackableAt<T>(algorithm: Algorithm, rows: seq<Row<T>>, batchSize: nat, pad: nat, cap: int, c: nat, n: nat)
    requires pad > 0 && c < n && |rows| >= Times(n, batchSize)
  {
    TimesFits(batchSize, n, c);
    Packable(algorithm, ChunkPadded(rows, batchSize, c, pad), cap)
  }

  ghost predicate AllPackable<T>(algorithm: Algorithm, rows: seq<Row<T>>, batchSize: nat, pad: nat, cap: int, n: nat)
    requires pad > 0 && |rows| >= Times(n, batchSize)
  {
    forall c :: 0 <= c < n ==> PackableAt(algorithm, rows, batchSize, pad, cap, c, n)
  }

  // The algorithm's packings of the chunks it came to.
  ghost predicate FirstPackings<T>(firsts: seq<seq<seq<nat>>>, rows: seq<Row<T>>, batchSize: nat, pad: nat, cap: int, n: nat)
    requires pad > 0 && |rows| >= Times(n, batchSize)
  {
    |firsts| <= n && forall c :: 0 <= c < |firsts| ==> FirstPacking(firsts[c], rows, batchSize, pad, cap, c, n)
  }

  ghost predicate FirstPacking<T>(first: seq<seq<nat>>, rows: seq<Row<T>>, batchSize: nat, pad: nat, cap: int, c: nat, n: nat)
    requires pad > 0 && c < n && |rows| >= Times(n, batchSize)
  {
    TimesFits(batchSize, n, c);
    IsPacking(first, ChunkPadded(rows, batchSize, c, pad), cap)
  }

  ghost predicate AllAdjustable(firsts: seq<seq<seq<nat>>>, batchSize: nat, k: nat)
    requires k > 0
  {
    forall c :: 0 <= c < |firsts| ==> Adjustable(|firsts[c]|, batchSize, k)
  }

  lemma EvenChunksAdjust<T>(firsts: seq<seq<seq<nat>>>, rows: seq<Row<T>>, batchSize: nat, k: nat, pad: nat, cap: int, n: nat)
    requires pad > 0 && |rows| >= Times(n, batchSize) && FirstPackings(firsts, rows, batchSize, pad, cap, n)
    requires k > 0 && batchSize >= k && batchSize % k == 0
    ensures AllAdjustable(firsts, batchSize, k)
  {
    hide IsPacking, Adjustable;
    forall c | 0 <= c < |firsts| ensures Adjustable(|firsts[c]|, batchSize, k) {
      assert FirstPacking(firsts[c], rows, batchSize, pad, cap, c, n);
      TimesFits(batchSize, n, c);
      PackingLength(firsts[c], ChunkPadded(rows, batchSize, c, pad), cap);
      MultiplesAdjust(|firsts[c]|, batchSize, k);
    }
  }

  // The loop that packs chunk after chunk. One shuffle is drawn per chunk. `firsts` are the
  // algorithm's own packings, up to a chunk whose bins cannot be adjusted.
  method PackChunks<T>(algorithm: Algorithm, shuffles: seq<seq<nat>>, rows: seq<Row<T>>, batchSize: nat, k: nat,
                       pad: nat, cap: int, chunks: nat)
    returns (r: Result<seq<seq<seq<nat>>>, PackingFailure>, ghost firsts: seq<seq<seq<nat>>>)
    requires k > 0 && batchSize > 0 && chunks > 0 && |rows| == Times(chunks, batchSize)
    requires algorithm.FirstFitShuffle? ==>
               |shuffles| == chunks && forall c :: 0 <= c < chunks ==> IsPermutation(shuffles[c], batchSize)
    ensures r.Ok? ==> pad > 0 && AllPackable(algorithm, rows, batchSize, pad, cap, chunks)
                      && Assigned(r.value, rows, batchSize, k, pad, cap, chunks)
    ensures pad > 0 ==> FirstPackings(firsts, rows, batchSize, pad, cap, chunks)
    ensures r.Ok? <==> pad > 0 && AllPackable(algorithm, rows, batchSize, pad, cap, chunks) && AllAdjustable(firsts, batchSize, k)
    ensures pad > 0 && batchSize >= k && batchSize % k == 0 ==> AllAdjustable(firsts, batchSize, k)
  {
    hide Packable, IsPacking, IsPermutation, Adjustable;
    firsts := [];
    var all: seq<seq<seq<nat>>> := [];
    if pad == 0 {
      return Err(ZeroPad), firsts;  // the first padded length of the first chunk divides by it
    }
    for c := 0 to chunks
      invariant |all| == c == |firsts| && FirstPackings(firsts, rows, batchSize, pad, cap, chunks)
      invariant AllAdjustable(firsts, batchSize, k)
      invariant forall d :: 0 <= d < c ==> PackableAt(algorithm, rows, batchSize, pad, cap, d, chunks)
      invariant forall d :: 0 <= d < c ==> AssignedAt(all[d], rows, batchSize, k, pad, cap, d, chunks)
    {
      TimesFits(batchSize, chunks, c);
      var padded := PadChunk(rows, batchSize, c, pad);
      var shuffle := if algorithm.FirstFitShuffle? then shuffles[c] else [];
      var packed;
      ghost var first;
      packed, first := RunPacker(algorithm, shuffle, padded, cap, k);
      if Packable(algorithm, padded, cap) {
        assert FirstPacking(first, rows, batchSize, pad, cap, c, chunks);
        firsts := firsts + [first];
      }
      if packed.Err? {
        if PackableAt(algorithm, rows, batchSize, pad, cap, c, chunks) {
          assert !Adjustable(|firsts[c]|, batchSize, k);
          if batchSize >= k && batchSize % k == 0 {
            EvenChunksAdjust(firsts, rows, batchSize, k, pad, cap, chunks);
          }
        }
        return Err(NotPacked(packed.error)), firsts;
      }
      all := all + [packed.value];
    }
    return Ok(all), firsts;
  }
}
