/** Dynamic sampling over generation batches and steps. */
module DynamicSampling {
  import opened Wrappers
  import opened Arith
  import opened Seqs
  import Advantages

  // Rows with zero standard deviation are dropped and the others are cached over generation batches
  // until a training step has its rows.

  // A generated response with the standard deviation of its prompt.
  datatype Sample<R> = Sample(row: R, std: real)

  datatype Config = Config(prompts: nat, generations: nat, useDynamic: bool, maxGenBatches: int)

  datatype SamplingError = MaxNotPositive | TooManyBatches

  datatype Sampling<R> = Sampling(batch: seq<Sample<R>>, complete: bool, cache: Option<seq<Sample<R>>>)

  function TrainSize(config: Config): nat {
    Times(config.prompts, config.generations)
  }

  // ---------------------------------------------------------------- one generation batch

  // The rows with non-zero standard deviation, in generation order.
  function Kept<R>(batch: seq<Sample<R>>): seq<Sample<R>> {
    if |batch| == 0 then []
    else Kept(batch[..|batch| - 1]) + if batch[|batch| - 1].std != 0.0 then [batch[|batch| - 1]] else []
  }

  function Cached<R>(cache: Option<seq<Sample<R>>>): seq<Sample<R>> {
    if cache.Some? then cache.value else []
  }

  // The loop's indices of the rows to keep select exactly Kept.
  method SelectKept<R>(batch: seq<Sample<R>>) returns (kept: seq<Sample<R>>)
    ensures kept == Kept(batch)
  {
    var indices: seq<nat> := [];
    for i := 0 to |batch|
      invariant Below(indices, |batch|) && Gather(batch, indices) == Kept(batch[..i])
    {
      assert batch[..i + 1][..i] == batch[..i];
      if batch[i].std != 0.0 {
        GatherConcat(batch, indices, [i]);
        indices := indices + [i];
      }
    }
    assert batch[..|batch|] == batch;
    kept := Gather(batch, indices);
  }

  // dynamic_sampling, with the cache from earlier batches of the step.
  method DynamicSample<R>(batch: seq<Sample<R>>, numGenBatches: nat, config: Config, cache: Option<seq<Sample<R>>>)
    returns (r: Result<Sampling<R>, SamplingError>)
    ensures !config.useDynamic ==> r == Ok(Sampling(batch, true, cache))
    ensures config.useDynamic ==>
              var all := Cached(cache) + Kept(batch);
              var filtered := if |Kept(batch)| > 0 then all else [];
              && (r.Err? <==> |filtered| < TrainSize(config) && (config.maxGenBatches <= 0 || numGenBatches > config.maxGenBatches))
              && (r.Err? ==> (r.error == MaxNotPositive <==> config.maxGenBatches <= 0))
              && (r.Ok? ==> r.value.complete == (|filtered| >= TrainSize(config)))
              && (r.Ok? && r.value.complete ==> r.value.batch == filtered[..TrainSize(config)])
              && (r.Ok? ==> r.value.cache == if |Kept(batch)| > 0 then Some(all) else cache)
  {
    if !config.useDynamic {
      return Ok(Sampling(batch, true, cache));
    }
    var filtered := SelectKept(batch);
    var newCache := cache;
    if |filtered| > 0 {
      assert [] + filtered == filtered;
      newCache := if cache.None? then Some(filtered) else Some(cache.value + filtered);
      filtered := newCache.value;
    }
    if |filtered| < TrainSize(config) {
      if config.maxGenBatches <= 0 {
        return Err(MaxNotPositive);
      }
      if numGenBatches <= config.maxGenBatches {
        return Ok(Sampling(filtered, false, newCache));
      }
      return Err(TooManyBatches);
    }
    return Ok(Sampling(filtered[..TrainSize(config)], true, newCache));
  }

  // ---------------------------------------------------------------- one training step

  // The kept rows of several generation batches, in order.
  function AllKept<R>(batches: seq<seq<Sample<R>>>): seq<Sample<R>> {
    if |batches| == 0 then [] else AllKept(batches[..|batches| - 1]) + Kept(batches[|batches| - 1])
  }

  datatype Outcome<R> = Trained(batch: seq<Sample<R>>) | Raised(error: SamplingError) | Exhausted(cache: Option<seq<Sample<R>>>)

  // The batches up to `n` do not fill a step.
  ghost predicate TooFew<R>(batches: seq<seq<Sample<R>>>, config: Config, n: nat) {
    n <= |batches| && |AllKept(batches[..n])| < TrainSize(config)
  }

  // What a step that starts with an empty cache and counter makes of the batches it is given.
  ghost predicate IsStep<R>(batches: seq<seq<Sample<R>>>, config: Config, outcome: Outcome<R>, used: nat) {
    && used <= |batches|
    && (forall n :: 0 <= n < used ==> TooFew(batches, config, n))
    && match outcome
       case Trained(batch) =>
         && 0 < used <= Limit(config) + 1
         && |AllKept(batches[..used])| >= TrainSize(config)
         && batch == AllKept(batches[..used])[..TrainSize(config)]
       case Raised(error) =>
         && used == Limit(config) + 1 && TooFew(batches, config, used)
         && (error == MaxNotPositive <==> config.maxGenBatches <= 0)
       case Exhausted(cache) =>
         used == |batches| && TooFew(batches, config, used) && Cached(cache) == AllKept(batches)
  }

  // How many batches may leave a step unfilled before it raises: max_gen_batches.
  function Limit(config: Config): nat {
    if config.maxGenBatches > 0 then config.maxGenBatches else 0
  }

  // The part of the training loop between two optimizer steps: the counter goes up with every
  // generation batch, and an incomplete batch moves on to the next one.
  method RunStep<R>(batches: seq<seq<Sample<R>>>, config: Config) returns (outcome: Outcome<R>, used: nat)
    requires config.useDynamic && TrainSize(config) > 0
    ensures IsStep(batches, config, outcome, used)
  {
    hide Kept, Times, AllKept;
    NoneKept<R>();
    var cache: Option<seq<Sample<R>>> := None;
    used := 0;
    assert batches[..0] == [];
    while used < |batches|
      invariant used <= |batches| && used <= Limit(config)
      invariant forall n :: 0 <= n <= used ==> TooFew(batches, config, n)
      invariant Cached(cache) == AllKept(batches[..used])
      decreases |batches| - used
    {
      AllKeptSnoc(batches, used);
      assert AllKept(batches[..used]) + [] == AllKept(batches[..used]);
      assert TooFew(batches, config, used);
      var sampled := DynamicSample(batches[used], used + 1, config, cache);
      used := used + 1;
      if sampled.Err? {
        return Raised(sampled.error), used;
      }
      if sampled.value.complete {
        return Trained(sampled.value.batch), used;
      }
      cache := sampled.value.cache;
    }
    assert batches[..used] == batches;
    return Exhausted(cache), used;
  }

  lemma NoneKept<R>()
    ensures AllKept<R>([]) == []
  {
  }

  lemma AllKeptSnoc<R>(batches: seq<seq<Sample<R>>>, n: nat)
    requires n < |batches|
    ensures AllKept(batches[..n + 1]) == AllKept(batches[..n]) + Kept(batches[n])
  {
    assert batches[..n + 1][..n] == batches[..n];
  }

  // ---------------------------------------------------------------- an epoch of steps

  // Step i trains on the batches from cuts[i] to cuts[i + 1].
  ghost predicate AreSteps<R>(batches: seq<seq<Sample<R>>>, config: Config, steps: seq<seq<Sample<R>>>, cuts: seq<nat>) {
    && |cuts| == |steps| + 1 && cuts[0] == 0
    && forall i :: 0 <= i < |steps| ==> StepAt(batches, config, steps, cuts, i)
  }

  ghost predicate StepAt<R>(batches: seq<seq<Sample<R>>>, config: Config, steps: seq<seq<Sample<R>>>, cuts: seq<nat>, i: nat) {
    && i < |steps| && i + 1 < |cuts| && cuts[i] <= cuts[i + 1] <= |batches|
    && IsStep(batches[cuts[i]..], config, Trained(steps[i]), cuts[i + 1] - cuts[i])
  }

  lemma AddStep<R>(batches: seq<seq<Sample<R>>>, config: Config, steps: seq<seq<Sample<R>>>, cuts: seq<nat>,
                   batch: seq<Sample<R>>, used: nat)
    requires AreSteps(batches, config, steps, cuts) && cuts[|steps|] <= |batches|
    requires IsStep(batches[cuts[|steps|]..], config, Trained(batch), used) && cuts[|steps|] + used <= |batches|
    ensures AreSteps(batches, config, steps + [batch], cuts + [cuts[|steps|] + used])
  {
    hide IsStep;
    var steps', cuts' := steps + [batch], cuts + [cuts[|steps|] + used];
    forall i | 0 <= i < |steps'| ensures StepAt(batches, config, steps', cuts', i) {
      if i < |steps| { assert StepAt(batches, config, steps, cuts, i); }
    }
  }

  // One epoch: every completed step resets the cache and the counter. It ends with the batches, at
  // the step limit, or with the error that a step raises.
  method RunEpoch<R>(batches: seq<seq<Sample<R>>>, config: Config, maxSteps: nat)
    returns (steps: seq<seq<Sample<R>>>, error: Option<SamplingError>, ghost cuts: seq<nat>)
    requires config.useDynamic && TrainSize(config) > 0
    ensures AreSteps(batches, config, steps, cuts) && |steps| <= maxSteps && cuts[|steps|] <= |batches|
    ensures error.Some? ==> IsStep(batches[cuts[|steps|]..], config, Raised(error.value), Limit(config) + 1)
    ensures error.None? && |steps| < maxSteps ==>
              var rest := batches[cuts[|steps|]..];
              TooFew(rest, config, |rest|)
  {
    hide IsStep, Times, TooFew, AreSteps;
    NoSteps(batches, config);
    steps, error, cuts := [], None, [0];
    var start := 0;
    while |steps| < maxSteps
      invariant |steps| <= maxSteps && AreSteps(batches, config, steps, cuts)
      invariant |cuts| == |steps| + 1 && start == cuts[|steps|] <= |batches|
      decreases maxSteps - |steps|
    {
      var outcome, used := RunStep(batches[start..], config);
      StepUses(batches[start..], config, outcome, used);
      match outcome {
        case Trained(batch) =>
          AddStep(batches, config, steps, cuts, batch, used);
          steps := steps + [batch];
          start := start + used;
          cuts := cuts + [start];
        case Raised(e) =>
          error := Some(e);
          return;
        case Exhausted(_) =>
          return;
      }
    }
  }

  lemma NoSteps<R>(batches: seq<seq<Sample<R>>>, config: Config)
    ensures AreSteps(batches, config, [], [0])
  {
  }

  lemma StepUses<R>(batches: seq<seq<Sample<R>>>, config: Config, outcome: Outcome<R>, used: nat)
    requires IsStep(batches, config, outcome, used)
    ensures used <= |batches|
    ensures outcome.Raised? ==> used == Limit(config) + 1
    ensures outcome.Exhausted? ==> TooFew(batches, config, |batches|)
  {
    hide TooFew;
  }

  // ---------------------------------------------------------------- blocks of one prompt stay whole

  // The G responses to one prompt, which share their standard deviation.
  ghost predicate IsBlock<R>(block: seq<Sample<R>>, G: nat) {
    |block| == G && forall j :: 0 <= j < G ==> block[j].std == block[0].std
  }

  ghost predicate AreBlocks<R>(blocks: seq<seq<Sample<R>>>, G: nat) {
    forall b :: 0 <= b < |blocks| ==> IsBlock(blocks[b], G)
  }

  function KeptBlocks<R>(blocks: seq<seq<Sample<R>>>): seq<seq<Sample<R>>> {
    if |blocks| == 0 then []
    else
      var last := blocks[|blocks| - 1];
      KeptBlocks(blocks[..|blocks| - 1]) + if |last| > 0 && last[0].std != 0.0 then [last] else []
  }

  function AllKeptBlocks<R>(blocks: seq<seq<seq<Sample<R>>>>): seq<seq<Sample<R>>> {
    if |blocks| == 0 then [] else AllKeptBlocks(blocks[..|blocks| - 1]) + KeptBlocks(blocks[|blocks| - 1])
  }

  lemma {:induction false} KeptConcat<R>(a: seq<Sample<R>>, b: seq<Sample<R>>)
    ensures Kept(a + b) == Kept(a) + Kept(b)
  {
    if |b| == 0 {
      assert a + b == a;
    } else {
      var n := |b| - 1;
      KeptConcat(a, b[..n]);
      assert (a + b)[..|a + b| - 1] == a + b[..n];
    }
  }

  lemma {:induction false} KeptBlock<R>(block: seq<Sample<R>>, keep: bool)
    requires forall j :: 0 <= j < |block| ==> (block[j].std != 0.0) == keep
    ensures Kept(block) == if keep then block else []
  {
    if |block| > 0 {
      KeptBlock(block[..|block| - 1], keep);
    }
  }

  lemma KeptWhole<R>(block: seq<Sample<R>>, G: nat)
    requires G > 0 && IsBlock(block, G)
    ensures Kept(block) == if block[0].std != 0.0 then block else []
  {
    KeptBlock(block, block[0].std != 0.0);
  }

  lemma {:induction false} KeptOfBlocks<R>(blocks: seq<seq<Sample<R>>>, G: nat)
    requires G > 0 && AreBlocks(blocks, G)
    ensures Kept(Flatten(blocks)) == Flatten(KeptBlocks(blocks)) && AreBlocks(KeptBlocks(blocks), G)
  {
    hide Kept, Flatten;
    NoBlocks<R>();
    if |blocks| > 0 {
      var before, last := blocks[..|blocks| - 1], blocks[|blocks| - 1];
      KeptOfBlocks(before, G);
      KeptWhole(last, G);
      KeptConcat(Flatten(before), last);
      FlattenSnoc(before, last);
      assert before + [last] == blocks;
      if last[0].std != 0.0 {
        FlattenSnoc(KeptBlocks(before), last);
      } else {
        assert KeptBlocks(blocks) == KeptBlocks(before);
        assert Kept(Flatten(before)) + [] == Kept(Flatten(before));
      }
    }
  }

  // The generation batches come block by block.
  ghost predicate FromBlocks<R>(batches: seq<seq<Sample<R>>>, blocks: seq<seq<seq<Sample<R>>>>, G: nat) {
    |batches| == |blocks| && forall i :: 0 <= i < |batches| ==> batches[i] == Flatten(blocks[i]) && AreBlocks(blocks[i], G)
  }

  lemma {:induction false} AllKeptOfBlocks<R>(batches: seq<seq<Sample<R>>>, blocks: seq<seq<seq<Sample<R>>>>, G: nat)
    requires G > 0 && FromBlocks(batches, blocks, G)
    ensures AllKept(batches) == Flatten(AllKeptBlocks(blocks)) && AreBlocks(AllKeptBlocks(blocks), G)
  {
    if |batches| > 0 {
      hide Kept, KeptBlocks, IsBlock, Flatten;
      var n := |batches| - 1;
      AllKeptOfBlocks(batches[..n], blocks[..n], G);
      KeptOfBlocks(blocks[n], G);
      FlattenConcat(AllKeptBlocks(blocks[..n]), KeptBlocks(blocks[n]));
    } else {
      NoBlocks<R>();
    }
  }

  lemma NoBlocks<R>()
    ensures Flatten<Sample<R>>([]) == [] && Kept<R>([]) == []
  {
  }

  lemma {:induction false} FlattenPrefix<X>(blocks: seq<seq<X>>, G: nat, n: nat)
    requires forall b :: 0 <= b < |blocks| ==> |blocks[b]| == G
    requires Times(n, G) <= |Flatten(blocks)| && G > 0
    ensures n <= |blocks| && Flatten(blocks)[..Times(n, G)] == Flatten(blocks[..n])
  {
    FlattenLength(blocks, G);
    if n > |blocks| {
      TimesFits(G, n, |blocks|);
    } else if n == |blocks| {
      assert blocks[..n] == blocks;
    } else {
      var k := |blocks| - 1;
      FlattenLength(blocks[..k], G);
      if n < k { TimesFits(G, k, n); }
      FlattenPrefix(blocks[..k], G, n);
      assert blocks[..k][..n] == blocks[..n];
    }
  }

  // When every prompt's block shares its standard deviation, a step trains on exactly P whole
  // blocks, the first P kept ones in generation order.
  lemma StepKeepsBlocks<R>(batches: seq<seq<Sample<R>>>, blocks: seq<seq<seq<Sample<R>>>>, config: Config,
                           batch: seq<Sample<R>>, used: nat)
    requires config.generations > 0 && FromBlocks(batches, blocks, config.generations)
    requires IsStep(batches, config, Trained(batch), used)
    ensures used <= |blocks| && |AllKeptBlocks(blocks[..used])| >= config.prompts
    ensures batch == Flatten(AllKeptBlocks(blocks[..used])[..config.prompts])
  {
    hide AllKept, AllKeptBlocks, Flatten, Times, TooFew, IsBlock;
    AllKeptOfBlocks(batches[..used], blocks[..used], config.generations);
    BlockLengths(AllKeptBlocks(blocks[..used]), config.generations);
    FlattenPrefix(AllKeptBlocks(blocks[..used]), config.generations, config.prompts);
  }

  lemma BlockLengths<R>(blocks: seq<seq<Sample<R>>>, G: nat)
    requires AreBlocks(blocks, G)
    ensures forall b :: 0 <= b < |blocks| ==> |blocks[b]| == G
  {
    forall b | 0 <= b < |blocks| ensures |blocks[b]| == G {
      assert IsBlock(blocks[b], G);
    }
  }

  // ---------------------------------------------------------------- where the blocks come from

  // repeat_interleave: the prompts of positions b * G to b * G + G are equal.
  ghost predicate Interleaved<P>(prompts: seq<P>, n: nat, G: nat) {
    |prompts| == Times(n, G) && forall b, j :: 0 <= b < n && 0 <= j < G ==> SameAt(prompts, b, G, j)
  }

  ghost predicate SameAt<P>(prompts: seq<P>, b: nat, G: nat, j: nat) {
    Times(b, G) + j < |prompts| && prompts[Times(b, G) + j] == prompts[Times(b, G)]
  }

  // The standard deviation of the mean baseline, from any function of its square.
  ghost predicate HasStds<P, R>(batch: seq<Sample<R>>, prompts: seq<P>, rewards: seq<real>, root: Option<real> -> real) {
    && |batch| == |prompts| == |rewards|
    && forall i :: 0 <= i < |batch| ==>
         batch[i].std == root(Advantages.SquaredStdAt(prompts, rewards, Advantages.Ones(|prompts|), false, i))
  }

  function Chunks<X>(xs: seq<X>, n: nat, G: nat): (r: seq<seq<X>>)
    requires |xs| == Times(n, G)
    ensures |r| == n
    decreases n
  {
    if n == 0 then []
    else Chunks(xs[..Times(n - 1, G)], n - 1, G) + [xs[Times(n - 1, G)..]]
  }

  lemma {:induction false} ChunksTile<X>(xs: seq<X>, n: nat, G: nat)
    requires |xs| == Times(n, G)
    ensures Flatten(Chunks(xs, n, G)) == xs
    decreases n
  {
    if n > 0 {
      hide Flatten;
      var m := Times(n - 1, G);
      ChunksTile(xs[..m], n - 1, G);
      FlattenSnoc(Chunks(xs[..m], n - 1, G), xs[m..]);
      assert xs[..m] + xs[m..] == xs;
    }
  }

  // With the mean baseline the batch generated from repeated prompts is a sequence of blocks.
  lemma {:induction false} MeanBaselineBlocks<P, R>(
      batch: seq<Sample<R>>, prompts: seq<P>, rewards: seq<real>, root: Option<real> -> real, n: nat, G: nat, m: nat)
    requires Interleaved(prompts, n, G) && HasStds(batch, prompts, rewards, root) && m <= n
    ensures Times(m, G) <= |batch|
    ensures AreBlocks(Chunks(batch[..Times(m, G)], m, G), G)
  {
    hide IsBlock, SameAt;
    if m < n { TimesFits(G, n, m); }
    if m > 0 {
      MeanBaselineBlocks(batch, prompts, rewards, root, n, G, m - 1);
      OneBlock(batch, prompts, rewards, root, n, G, m - 1);
      var lo, hi := Times(m - 1, G), Times(m, G);
      assert batch[..hi][..lo] == batch[..lo] && batch[..hi][lo..] == batch[lo..hi];
    }
  }

  lemma OneBlock<P, R>(batch: seq<Sample<R>>, prompts: seq<P>, rewards: seq<real>, root: Option<real> -> real, n: nat, G: nat, b: nat)
    requires Interleaved(prompts, n, G) && HasStds(batch, prompts, rewards, root) && b < n
    ensures Times(b, G) + G <= |batch| && IsBlock(batch[Times(b, G)..Times(b, G) + G], G)
  {
    TimesFits(G, n, b);
    var lo := Times(b, G);
    var block := batch[lo..lo + G];
    hide Times;
    forall j | 0 <= j < G ensures block[j].std == block[0].std {
      assert SameAt(prompts, b, G, j);
      Advantages.SamePromptSameStd(prompts, rewards, Advantages.Ones(|prompts|), lo + j, lo);
    }
  }

  // ---------------------------------------------------------------- whole steps under the mean baseline

  // Every generation batch holds the responses to ns[i] repeated prompts, with the standard
  // deviations of the mean baseline.
  ghost predicate Generated<P, R>(
      batches: seq<seq<Sample<R>>>, prompts: seq<seq<P>>, rewards: seq<seq<real>>, root: Option<real> -> real,
      ns: seq<nat>, G: nat)
  {
    && |batches| == |prompts| == |rewards| == |ns|
    && forall i :: 0 <= i < |batches| ==>
         Interleaved(prompts[i], ns[i], G) && HasStds(batches[i], prompts[i], rewards[i], root)
  }

  // The rows of each prompt, batch by batch.
  ghost function BlocksOf<R>(batches: seq<seq<Sample<R>>>, ns: seq<nat>, G: nat): (r: seq<seq<seq<Sample<R>>>>)
    requires |ns| == |batches| && forall i :: 0 <= i < |batches| ==> |batches[i]| == Times(ns[i], G)
    ensures |r| == |batches|
  {
    seq(|batches|, i requires 0 <= i < |batches| => Chunks(batches[i], ns[i], G))
  }

  lemma OneBatchOfBlocks<P, R>(
      batch: seq<Sample<R>>, prompts: seq<P>, rewards: seq<real>, root: Option<real> -> real, n: nat, G: nat)
    requires Interleaved(prompts, n, G) && HasStds(batch, prompts, rewards, root)
    ensures |batch| == Times(n, G) && batch == Flatten(Chunks(batch, n, G)) && AreBlocks(Chunks(batch, n, G), G)
  {
    MeanBaselineBlocks(batch, prompts, rewards, root, n, G, n);
    assert batch[..Times(n, G)] == batch;
    ChunksTile(batch, n, G);
  }

  lemma GeneratedInBlocks<P, R>(
      batches: seq<seq<Sample<R>>>, prompts: seq<seq<P>>, rewards: seq<seq<real>>, root: Option<real> -> real,
      ns: seq<nat>, G: nat)
    requires Generated(batches, prompts, rewards, root, ns, G)
    ensures |ns| == |batches| && forall i :: 0 <= i < |batches| ==> |batches[i]| == Times(ns[i], G)
    ensures FromBlocks(batches, BlocksOf(batches, ns, G), G)
  {
    hide Interleaved, HasStds, AreBlocks, Flatten, Times;
    forall i | 0 <= i < |batches|
      ensures |batches[i]| == Times(ns[i], G) && batches[i] == Flatten(Chunks(batches[i], ns[i], G))
              && AreBlocks(Chunks(batches[i], ns[i], G), G)
    {
      OneBatchOfBlocks(batches[i], prompts[i], rewards[i], root, ns[i], G);
    }
  }

  // The b-th prompt's rows of a batch.
  ghost predicate IsRowsOf<R>(block: seq<Sample<R>>, batch: seq<Sample<R>>, G: nat, b: nat) {
    Times(b, G) + G <= |batch| && block == batch[Times(b, G)..Times(b, G) + G]
  }

  lemma {:induction false} ChunkRows<R>(batch: seq<Sample<R>>, n: nat, G: nat, block: seq<Sample<R>>)
    requires |batch| == Times(n, G) && block in Chunks(batch, n, G)
    ensures exists b :: 0 <= b < n && IsRowsOf(block, batch, G, b)
    decreases n
  {
    var m := Times(n - 1, G);
    if block in Chunks(batch[..m], n - 1, G) {
      ChunkRows(batch[..m], n - 1, G, block);
      var b :| 0 <= b < n - 1 && IsRowsOf(block, batch[..m], G, b);
      assert batch[..m][Times(b, G)..Times(b, G) + G] == batch[Times(b, G)..Times(b, G) + G];
      assert IsRowsOf(block, batch, G, b);
    } else {
      assert IsRowsOf(block, batch, G, n - 1);
    }
  }

  lemma {:induction false} KeptBlockIsThere<R>(blocks: seq<seq<Sample<R>>>, block: seq<Sample<R>>)
    requires block in KeptBlocks(blocks)
    ensures block in blocks && |block| > 0 && block[0].std != 0.0
  {
    if block in KeptBlocks(blocks[..|blocks| - 1]) {
      KeptBlockIsThere(blocks[..|blocks| - 1], block);
    }
  }

  lemma {:induction false} AllKeptBlockIsThere<R>(blocks: seq<seq<seq<Sample<R>>>>, block: seq<Sample<R>>)
    requires block in AllKeptBlocks(blocks)
    ensures exists i :: 0 <= i < |blocks| && block in blocks[i]
    ensures |block| > 0 && block[0].std != 0.0
  {
    var n := |blocks| - 1;
    if block in AllKeptBlocks(blocks[..n]) {
      AllKeptBlockIsThere(blocks[..n], block);
      var i :| 0 <= i < n && block in blocks[..n][i];
      assert block in blocks[i];
    } else {
      KeptBlockIsThere(blocks[n], block);
    }
  }

  // All the rows of one prompt of one of the first `used` batches, kept together.
  ghost predicate WholePrompt<R>(block: seq<Sample<R>>, batches: seq<seq<Sample<R>>>, ns: seq<nat>, G: nat, used: nat) {
    && IsBlock(block, G) && G > 0 && block[0].std != 0.0
    && exists i, b :: 0 <= i < used && i < |batches| && i < |ns| && 0 <= b < ns[i] && IsRowsOf(block, batches[i], G, b)
  }

  lemma KeptIsWholePrompt<R>(batches: seq<seq<Sample<R>>>, ns: seq<nat>, G: nat, used: nat, block: seq<Sample<R>>)
    requires |ns| == |batches| && (forall i :: 0 <= i < |batches| ==> |batches[i]| == Times(ns[i], G)) && G > 0
    requires used <= |batches| && block in AllKeptBlocks(BlocksOf(batches, ns, G)[..used]) && IsBlock(block, G)
    ensures WholePrompt(block, batches, ns, G, used)
  {
    hide Times, AllKeptBlocks, IsRowsOf;
    var blocks := BlocksOf(batches, ns, G);
    AllKeptBlockIsThere(blocks[..used], block);
    var i :| 0 <= i < used && block in blocks[..used][i];
    ChunkRows(batches[i], ns[i], G, block);
  }

  // With the mean baseline a completed step trains on exactly P prompts, each with all of its G
  // responses side by side: no prompt is split. They are the first kept prompts in generation order.
  lemma MeanBaselineNeverSplits<P, R>(
      batches: seq<seq<Sample<R>>>, prompts: seq<seq<P>>, rewards: seq<seq<real>>, root: Option<real> -> real,
      ns: seq<nat>, config: Config, batch: seq<Sample<R>>, used: nat)
    returns (trained: seq<seq<Sample<R>>>)
    requires config.generations > 0 && Generated(batches, prompts, rewards, root, ns, config.generations)
    requires IsStep(batches, config, Trained(batch), used)
    ensures |trained| == config.prompts && batch == Flatten(trained)
    ensures forall p :: 0 <= p < |trained| ==> WholePrompt(trained[p], batches, ns, config.generations, used)
    ensures |ns| == |batches| && forall i :: 0 <= i < |batches| ==> |batches[i]| == Times(ns[i], config.generations)
    ensures used <= |batches| && trained <= AllKeptBlocks(BlocksOf(batches, ns, config.generations)[..used])
  {
    hide Generated, AllKeptBlocks, Flatten, TooFew, Times, IsBlock, WholePrompt;
    var G := config.generations;
    GeneratedInBlocks(batches, prompts, rewards, root, ns, G);
    var blocks := BlocksOf(batches, ns, G);
    StepKeepsBlocks(batches, blocks, config, batch, used);
    AllKeptOfBlocks(batches[..used], blocks[..used], G);
    var kept := AllKeptBlocks(blocks[..used]);
    trained := kept[..config.prompts];
    forall p | 0 <= p < |trained| ensures WholePrompt(trained[p], batches, ns, G, used) {
      assert kept[p] in kept && IsBlock(kept[p], G);
      KeptIsWholePrompt(batches, ns, G, used, kept[p]);
    }
  }
}
